/**
 The mock debugger of kratos_runtime/debugger.py: a client that polls, reads and resumes, and records the
 state of the design at every pause.  The schedule of the other threads is arbitrary.
 */
module Recorder {
  import opened Options
  import opened Handles
  import opened Stepping
  import opened Protocol
  import opened Disciplined
  import opened Progress
  import opened Polling
  import Tables
  import R = Runtime

  // --------------------------------------------------------- what is recorded

  function Qualified(prefixTop: string, handle: string): string {
    if prefixTop == "" then handle else prefixTop + "." + handle
  }

  /** `get_value` of the mock: a missing value counts as None, and so does a negative one. */
  function Seen(trial: Trial, prefixTop: string, pos: nat, handle: string): Option<Int32> {
    match GetValue(trial.site.top, SignalsAt(trial, pos), Qualified(prefixTop, handle))
    case None => None
    case Some(v) => if v >= 0 then Some(v) else None
  }

  /** The state of the design at a pause, None when some name has no value. */
  function Design(trial: Trial, prefixTop: string, pos: nat, names: seq<string>): Option<map<string, Int32>> {
    if names == [] then Some(map[])
    else
      var init := Design(trial, prefixTop, pos, names[..|names| - 1]);
      var last := names[|names| - 1];
      var v := Seen(trial, prefixTop, pos, last);
      if init.Some? && v.Some? then Some(init.value[last := v.value]) else None
  }

  lemma {:induction false} DesignIsSeen(trial: Trial, prefixTop: string, pos: nat, names: seq<string>)
    ensures Design(trial, prefixTop, pos, names).Some? <==>
      forall n :: n in names ==> Seen(trial, prefixTop, pos, n).Some?
    ensures Design(trial, prefixTop, pos, names).Some? ==>
      && (forall n :: n in Design(trial, prefixTop, pos, names).value <==> n in names)
      && forall n :: n in names ==>
           Seen(trial, prefixTop, pos, n) == Some(Design(trial, prefixTop, pos, names).value[n])
  {
    hide Seen;
    if names != [] {
      var init, last := names[..|names| - 1], names[|names| - 1];
      DesignIsSeen(trial, prefixTop, pos, init);
      assert forall n :: n in names <==> n in init || n == last;
    }
  }

  /** One value: that of the name below the prefix, unless it is negative. */
  lemma SeenMeans(trial: Trial, prefixTop: string, pos: nat, n: string)
    requires pos <= |trial.trace|
    ensures var signals := if pos == 0 then trial.start else trial.trace[pos - 1].signals;
      var v := GetValue(trial.site.top, signals, if prefixTop == "" then n else prefixTop + "." + n);
      Seen(trial, prefixTop, pos, n) == if v.Some? && v.value >= 0 then v else None
  {
    hide GetValue;
  }

  /** What a name shows at a pause: to the event that pauses, or at start-up. */
  function ShownAt(trial: Trial, prefixTop: string, pause: nat, name: string): Option<Int32>
    requires pause <= |trial.trace|
  {
    GetValue(trial.site.top,
             if pause == 0 then trial.start else trial.trace[pause - 1].signals,
             if prefixTop == "" then name else prefixTop + "." + name)
  }

  /**
   The design state at a pause is there exactly when every name, below the prefix, shows a value that is not
   negative; it holds these values under exactly these names.
   */
  lemma DesignMeans(trial: Trial, prefixTop: string, pos: nat, names: seq<string>)
    requires pos <= |trial.trace|
    ensures Design(trial, prefixTop, pos, names).Some? <==>
      forall n :: n in names ==> var v := ShownAt(trial, prefixTop, pos, n); v.Some? && v.value >= 0
    ensures Design(trial, prefixTop, pos, names).Some? ==>
      && (forall n :: n in Design(trial, prefixTop, pos, names).value <==> n in names)
      && forall n :: n in names ==>
           ShownAt(trial, prefixTop, pos, n) == Some(Design(trial, prefixTop, pos, names).value[n])
  {
    hide GetValue, Seen, Design;
    DesignIsSeen(trial, prefixTop, pos, names);
    forall n | n in names
      ensures var v := ShownAt(trial, prefixTop, pos, n);
        Seen(trial, prefixTop, pos, n) == if v.Some? && v.value >= 0 then v else None
    {
      SeenMeans(trial, prefixTop, pos, n);
    }
  }

  lemma {:induction false} DesignMisses(trial: Trial, prefixTop: string, pos: nat, names: seq<string>, n: nat)
    requires n <= |names| && Design(trial, prefixTop, pos, names[..n]).None?
    ensures Design(trial, prefixTop, pos, names).None?
  {
    if n == |names| {
      assert names[..n] == names;
    } else {
      assert names[..|names| - 1][..n] == names[..n];
      DesignMisses(trial, prefixTop, pos, names[..|names| - 1], n);
    }
  }

  /** The commands of a recording: the clock is switched on at start-up, and every pause is continued. */
  function Recording(n: nat): seq<Command> {
    if n == 0 then [] else Uniform([Clock(true)], false, n - 1)
  }

  /** `states` are the design states at the pauses from number `first` on. */
  predicate AreStates(trial: Trial, prefixTop: string, names: seq<string>, pauses: seq<nat>, first: nat,
                      states: seq<map<string, Int32>>)
  {
    states == [] ||
    (&& first + |states| <= |pauses|
     && forall k :: 0 <= k < |states| ==> Design(trial, prefixTop, pauses[first + k], names) == Some(states[k]))
  }

  /** How `record_state` ends. */
  datatype Outcome =
    | Finished    // the server stopped
    | NotPaused   // the opening assertion failed
    | NoServer    // the assertion of continue_ failed
    | Unreadable  // a value was missing, an exception
    | CutOff      // the schedule ended first

  lemma {:induction false} RecordingLength(n: nat)
    ensures |Recording(n)| == n
  {
    if n > 1 {
      RecordingLength(n - 1);
    }
  }

  /** The edits still to go with the next command of a recording. */
  function Pending(n: nat): seq<Edit> {
    if n == 0 then [Clock(true)] else []
  }

  lemma RecordingGrows(n: nat)
    ensures |Recording(n)| == n && Recording(n) + [Command(Pending(n), false)] == Recording(n + 1)
  {
    RecordingLength(n);
  }

  lemma PendingIsPoisonFree(site: Tables.Site, panel: Panel, n: nat)
    ensures PoisonFreeEdits(site, panel, Pending(n))
  {
    assert [Clock(true)][..0] == [];
  }

  /** A recording makes no breakpoint request at all. */
  lemma {:induction false} RecordingIsPoisonFree(trial: Trial, n: nat)
    ensures PoisonFreeCommands(trial, Recording(n))
  {
    hide PoisonFreeEdits, Pending, Recording, Replay;
    if n == 0 {
      NoCommands();
    } else {
      RecordingIsPoisonFree(trial, n - 1);
      RecordingGrows(n - 1);
      var r := Replay(trial, Recording(n - 1));
      if r.Stopped? {
        PendingIsPoisonFree(trial.site, r.panel, n - 1);
      }
    }
  }

  lemma NoCommands()
    ensures Recording(0) == []
  {
  }

  /** The pauses of a whole recording: at start-up and at every clock edge. */
  function AllPauses(trial: Trial): seq<nat> {
    [0] + ClockPauses(trial.trace, 0)
  }

  lemma UniformPrefix(trial: Trial, n: nat)
    ensures n > 0 ==> Replay(trial, Recording(n)).pauses <= AllPauses(trial)
  {
    hide React, Advance, Replay, Collect;
    if n > 0 {
      UniformCollects(trial, [Clock(true)], false, n - 1);
      assert ApplyEdits(trial.site, INITIAL, [Clock(true)]) == Panel(Tables.NO_TABLES, true, false);
      ClockOnly(trial, 0);
    }
  }

  /** What a recording pauses at is foretold by the trial. */
  lemma RecordingPrefix(trial: Trial, s: State, n: nat)
    requires Reachable(trial, true, s) && s.commands == Recording(n)
    ensures s.pauses <= AllPauses(trial)
  {
    SessionIsSequential(trial, s);
    UniformPrefix(trial, n);
    if n == 0 {
      assert Replay(trial, []).pauses == [0];
    }
  }

  /** Every name has a value at every pause from number `first` on. */
  predicate Readable(trial: Trial, prefixTop: string, names: seq<string>, first: nat) {
    forall k :: first <= k < |AllPauses(trial)| ==> Design(trial, prefixTop, AllPauses(trial)[k], names).Some?
  }

  /** How a recording ends when it gets the turns it needs. */
  function Foretold(trial: Trial, prefixTop: string, numWaitReset: nat, names: seq<string>): Outcome {
    if |AllPauses(trial)| < numWaitReset then NoServer
    else if Readable(trial, prefixTop, names, numWaitReset) then Finished
    else Unreadable
  }

  lemma NoServerForetold(trial: Trial, prefixTop: string, numWaitReset: nat, names: seq<string>)
    requires |AllPauses(trial)| < numWaitReset
    ensures Foretold(trial, prefixTop, numWaitReset, names) == NoServer
  {
  }

  lemma UnreadableForetold(trial: Trial, prefixTop: string, numWaitReset: nat, names: seq<string>, n: nat)
    requires numWaitReset <= n < |AllPauses(trial)| && Design(trial, prefixTop, AllPauses(trial)[n], names).None?
    ensures Foretold(trial, prefixTop, numWaitReset, names) == Unreadable
  {
  }

  lemma FinishedForetold(trial: Trial, prefixTop: string, numWaitReset: nat, names: seq<string>,
                         states: seq<map<string, Int32>>)
    requires AreStates(trial, prefixTop, names, AllPauses(trial), numWaitReset, states)
    requires |AllPauses(trial)| == numWaitReset + |states|
    ensures Foretold(trial, prefixTop, numWaitReset, names) == Finished
  {
    hide Design;
    forall k | numWaitReset <= k < |AllPauses(trial)|
      ensures Design(trial, prefixTop, AllPauses(trial)[k], names).Some?
    {
      assert Design(trial, prefixTop, AllPauses(trial)[numWaitReset + (k - numWaitReset)], names)
        == Some(states[k - numWaitReset]);
    }
  }

  /** A pause that no command was given at waits. */
  lemma FirstPauseWaits(trial: Trial, s: State)
    requires Inv(trial, s) && s.sim == AtLock && s.commands == []
    ensures Waiting(s)
  {
  }

  /** Once the server is gone, a recording has paused at start-up and at every clock edge. */
  lemma RecordingPauses(trial: Trial, s: State, n: nat)
    requires Reachable(trial, true, s) && Over(s) && s.commands == Recording(n)
    ensures s.sim == Done && |s.pauses| == n && s.pauses == AllPauses(trial)
  {
    RecordingIsPoisonFree(trial, n);
    PoisonFreeSessionNeverDies(trial, s);
    SessionIsSequential(trial, s);
    ReachableInv(trial, s);
    RecordingLength(n);
    assert n > 0;
    UniformCollects(trial, [Clock(true)], false, n - 1);
    assert ApplyEdits(trial.site, INITIAL, [Clock(true)]) == Panel(Tables.NO_TABLES, true, false);
    ClockOnly(trial, 0);
  }

  /** Later pauses do not disturb what was recorded. */
  lemma StatesStay(trial: Trial, prefixTop: string, names: seq<string>, pauses: seq<nat>, first: nat,
                   states: seq<map<string, Int32>>, more: seq<nat>)
    requires AreStates(trial, prefixTop, names, pauses, first, states) && pauses <= more
    ensures AreStates(trial, prefixTop, names, more, first, states)
  {
  }

  lemma NothingRecorded(trial: Trial, prefixTop: string, names: seq<string>, pauses: seq<nat>, first: nat)
    ensures AreStates(trial, prefixTop, names, pauses, first, [])
  {
  }

  lemma OneMoreState(trial: Trial, prefixTop: string, names: seq<string>, pauses: seq<nat>, first: nat,
                     states: seq<map<string, Int32>>, state: map<string, Int32>)
    requires AreStates(trial, prefixTop, names, pauses, first, states)
    requires |pauses| == first + |states| + 1
    requires Design(trial, prefixTop, pauses[first + |states|], names) == Some(state)
    ensures AreStates(trial, prefixTop, names, pauses, first, states + [state])
  {
    hide Design;
  }

  // --------------------------------------------------------------- the client

  class Debugger {
    const runtime: R.Runtime
    const prefixTop: string
    /** The schedule still to come. */
    var turns: seq<Turn>
    /** Who had a turn in the round under way. */
    ghost var seen: set<Thread>
    /** The inquiries the client makes between two resumes, at most. */
    ghost var quota: nat

    ghost predicate Ok()
      reads this, runtime, runtime.registry
    {
      Reachable(runtime.trial, true, runtime.View())
    }

    constructor (trial: Trial, prefixTop: string, turns: seq<Turn>)
      ensures Ok() && fresh(runtime) && fresh(runtime.registry)
      ensures runtime.trial == trial && runtime.View() == START
      ensures this.prefixTop == prefixTop && this.turns == turns
    {
      this.prefixTop, this.turns, seen, quota := prefixTop, turns, {}, 0;
      runtime := new R.Runtime(trial);
      new;
      StartIsReachable(trial, true);
    }

    /** The schedule has rounds for the rest of the session, with `k` inquiries left before the next resume. */
    ghost predicate HasTurns(k: nat)
      reads this, runtime, runtime.registry
    {
      Enough(runtime.trial, runtime.View(), turns, seen, quota, k)
    }

    /** The same once the client has its turn. */
    ghost predicate HasTurnsDue(k: nat)
      reads this, runtime, runtime.registry
    {
      Due(runtime.trial, runtime.View(), turns, seen, quota, k)
    }

    /** The simulator has a turn. */
    method SimulatorTurn()
      requires Ok()
      modifies runtime, runtime.registry
      ensures Ok() && runtime.View() == After(runtime.trial, old(runtime.View()), Simulator)
      ensures Meanwhile(old(runtime.View()), runtime.View())
      ensures forall request, before :: Serving(runtime.trial, old(runtime.View()), request, before) ==>
        Serving(runtime.trial, runtime.View(), request, before)
    {
      ghost var s := runtime.View();
      if runtime.SimCanMove() {
        ReachableInv(runtime.trial, s);
        SimMeanwhile(runtime.trial, s);
        StepIsReachable(runtime.trial, true, s, Sim);
        runtime.SimTurn();
      }
    }

    /** The handler thread has a turn. */
    method ServerTurn(noise: Option<Int32>)
      requires Ok()
      modifies runtime, runtime.registry
      ensures Ok() && runtime.View() == After(runtime.trial, old(runtime.View()), Server(noise))
      ensures Meanwhile(old(runtime.View()), runtime.View())
      ensures forall request, before :: Serving(runtime.trial, old(runtime.View()), request, before) ==>
        Serving(runtime.trial, runtime.View(), request, before)
    {
      ghost var s := runtime.View();
      if 0 in runtime.handlers && !runtime.handlers[0].Replying? {
        ReachableInv(runtime.trial, s);
        HandlerMeanwhile(runtime.trial, s, noise);
        StepIsReachable(runtime.trial, true, s, Handle(0, noise));
        forall request, before | Serving(runtime.trial, s, request, before)
          ensures Serving(runtime.trial, HandlerStep(runtime.trial, s, 0, noise), request, before)
        {
          HandlerServing(runtime.trial, s, noise, request, before);
        }
        runtime.HandlerTurn(0, noise);
      }
    }

    /**
     The others move until the schedule gives the client its turn; `cut` when it ends instead, which it
     does not as long as it has rounds for work still to do.
     */
    method Wait(ghost request: Request, ghost before: seq<Edit>, ghost k: nat) returns (cut: bool)
      requires Ok()
      modifies this`turns, this`seen, runtime, runtime.registry
      ensures Ok() && Meanwhile(old(runtime.View()), runtime.View())
      ensures Serving(runtime.trial, old(runtime.View()), request, before) ==>
        Serving(runtime.trial, runtime.View(), request, before)
      ensures |turns| <= |old(turns)| && if cut then turns == [] else |turns| < |old(turns)|
      ensures old(HasTurns(k)) && (k > 0 || 0 in old(runtime.handlers)) ==> !cut && HasTurnsDue(k)
    {
      hide Serving, Reachable, Enough, Due, After;
      while turns != []
        invariant Ok() && Meanwhile(old(runtime.View()), runtime.View())
        invariant Serving(runtime.trial, old(runtime.View()), request, before) ==>
          Serving(runtime.trial, runtime.View(), request, before)
        invariant |turns| <= |old(turns)|
        invariant old(HasTurns(k)) ==> HasTurns(k)
        decreases |turns|
      {
        ghost var s := runtime.View();
        var turn := turns[0];
        PayTurn(k);
        seen := NowSeen(seen, turn);
        turns := turns[1..];
        match turn {
          case Client => return false;
          case Simulator => SimulatorTurn();
          case Server(noise) => ServerTurn(noise);
        }
        MeanwhileTransitive(old(runtime.View()), s, runtime.View());
      }
      cut := true;
      if HasTurns(k) && (k > 0 || 0 in runtime.handlers) {
        EnoughForOne(runtime.trial, runtime.View(), turns, seen, quota, k);
      }
    }

    /** What the next turn leaves to be paid. */
    lemma PayTurn(k: nat)
      requires Ok() && turns != []
      ensures HasTurns(k) ==>
        var s, now := runtime.View(), NowSeen(seen, turns[0]);
        if turns[0].Client? then Due(runtime.trial, s, turns[1..], now, quota, k)
        else Enough(runtime.trial, After(runtime.trial, s, turns[0]), turns[1..], now, quota, k)
    {
      hide Enough, Due, After, Reachable;
      if HasTurns(k) {
        ReachableInv(runtime.trial, runtime.View());
        if turns[0].Client? {
          ClientsTurn(runtime.trial, runtime.View(), turns, seen, quota, k);
        } else {
          OthersTurn(runtime.trial, runtime.View(), turns, seen, quota, k);
        }
      }
    }

    /** `_get` and `_post`: one request and its reply, or none because the server has stopped. */
    method Ask(request: Request, ghost k: nat) returns (got: Got)
      requires Ok() && runtime.handlers == map[] && !request.Stop?
      requires request.Change? || request.Resume? ==> runtime.known || !runtime.up
      modifies this`turns, this`seen, runtime, runtime.registry
      ensures Ok() && old(runtime.pauses) <= runtime.pauses && |turns| <= |old(turns)|
      ensures if got.CutShort? then turns == [] else runtime.handlers == map[] && |turns| < |old(turns)|
      ensures got.CutShort? ==>
        || runtime.commands == old(runtime.commands)
        || (request.Resume? && runtime.commands == old(runtime.commands) + [Command(old(runtime.edits), request.step)])
      ensures got.Refused? ==>
        && !runtime.up && runtime.commands == old(runtime.commands)
        && runtime.edits == old(runtime.edits) && runtime.known == old(runtime.known)
      ensures !old(runtime.up) ==> !runtime.up && !got.Got?
      ensures got.Got? ==> Answered(runtime.trial, old(runtime.View()), request, runtime.View(), got.reply)
      ensures old(HasTurns(k + 1)) ==>
        && !got.CutShort?
        && HasTurns(if got.Got? then Left(old(runtime.View()), Submit(0, request), quota, k + 1) else k)
    {
      hide Answered, Serving, Enough, Due;
      ghost var enough := HasTurns(k + 1);
      var cut := Wait(request, [], k + 1);
      if cut {
        return CutShort;
      }
      ghost var s := runtime.View();
      if !runtime.up {
        if enough {
          ReachableInv(runtime.trial, s);
          ClientRefused(runtime.trial, s, turns, seen, quota, k);
        }
        return Refused;
      }
      got := Exchange(request, k + 1);
      if got.Got? {
        AnsweredEarlier(runtime.trial, old(runtime.View()), s, request, runtime.View(), got.reply);
      }
    }

    /** The server is there, so the request goes out and is answered. */
    method Exchange(request: Request, ghost k: nat) returns (got: Got)
      requires Ok() && runtime.handlers == map[] && runtime.up && !request.Stop?
      requires request.Change? || request.Resume? ==> runtime.known
      modifies this`turns, this`seen, runtime, runtime.registry
      ensures Ok() && !got.Refused? && old(runtime.pauses) <= runtime.pauses && |turns| <= |old(turns)|
      ensures got.CutShort? ==> turns == [] && runtime.commands == SubmitStep(old(runtime.View()), 0, request).commands
      ensures got.Got? ==>
        && runtime.handlers == map[] && |turns| < |old(turns)|
        && Answered(runtime.trial, old(runtime.View()), request, runtime.View(), got.reply)
      ensures var left := Left(old(runtime.View()), Submit(0, request), quota, k);
        old(HasTurnsDue(k)) && 0 <= left ==> got.Got? && HasTurns(left)
    {
      hide Answered, Serving, Enough, Due;
      ghost var s := runtime.View();
      ghost var before := if request.Resume? then [] else runtime.edits;
      ghost var left := Left(s, Submit(0, request), quota, k);
      Send(request, k);
      SubmitServes(runtime.trial, s, request);
      ghost var r;
      got, r := AwaitReply(request, before, if left < 0 then 0 else left);
      if got.Got? {
        ReplyIsRight(runtime.trial, s, r, request, before);
      }
    }

    /** The request is in flight until its reply comes, in state `r`. */
    method AwaitReply(request: Request, ghost before: seq<Edit>, ghost k: nat) returns (got: Got, ghost r: State)
      requires Ok() && Serving(runtime.trial, runtime.View(), request, before)
      modifies this`turns, this`seen, runtime, runtime.registry
      ensures Ok() && !got.Refused? && Meanwhile(old(runtime.View()), r) && |turns| <= |old(turns)|
      ensures got.CutShort? ==> r == runtime.View() && turns == []
      ensures got.Got? ==>
        && Inv(runtime.trial, r) && Serving(runtime.trial, r, request, before) && r.handlers[0].Replying?
        && runtime.View() == DeliverStep(r, 0) && runtime.handlers == map[]
        && got.reply == r.handlers[0].reply && |turns| < |old(turns)|
      ensures old(HasTurns(k)) ==> !got.CutShort? && HasTurns(k)
    {
      hide Enough, Due;
      r := runtime.View();
      while true
        invariant Ok() && r == runtime.View() && Meanwhile(old(runtime.View()), r)
        invariant Serving(runtime.trial, r, request, before)
        invariant |turns| <= |old(turns)|
        invariant old(HasTurns(k)) ==> HasTurns(k)
        decreases |turns|
      {
        ghost var t, enough := r, HasTurns(k);
        var cut := Wait(request, before, k);
        r := runtime.View();
        MeanwhileTransitive(old(runtime.View()), t, r);
        if cut {
          return CutShort, r;
        }
        ReachableInv(runtime.trial, r);
        if runtime.handlers[0].Replying? {
          var reply := Receive(request, before, k);
          return Got(reply), r;
        }
        if enough {
          ClientWaits(runtime.trial, r, turns, seen, quota, k);
        }
      }
    }

    method Send(request: Request, ghost k: nat)
      requires Ok() && runtime.handlers == map[] && runtime.up && !request.Stop?
      requires request.Change? || request.Resume? ==> runtime.known
      modifies runtime
      ensures Ok() && runtime.View() == SubmitStep(old(runtime.View()), 0, request)
      ensures var left := Left(old(runtime.View()), Submit(0, request), quota, k);
        old(HasTurnsDue(k)) && 0 <= left ==> HasTurns(left)
    {
      hide Enough, Due;
      ghost var s, l := runtime.View(), Submit(0, request);
      StepIsReachable(runtime.trial, true, s, l);
      if HasTurnsDue(k) && 0 <= Left(s, l, quota, k) {
        ReachableInv(runtime.trial, s);
        ClientSteps(runtime.trial, s, l, turns, seen, quota, k);
      }
      runtime.Accept(0, request);
    }

    method Receive(ghost request: Request, ghost before: seq<Edit>, ghost k: nat) returns (reply: Reply)
      requires Ok() && Serving(runtime.trial, runtime.View(), request, before) && runtime.handlers[0].Replying?
      modifies runtime
      ensures Ok() && reply == old(runtime.handlers[0].reply)
      ensures runtime.View() == DeliverStep(old(runtime.View()), 0) && runtime.handlers == map[]
      ensures old(HasTurnsDue(k)) ==> HasTurns(k)
    {
      hide Enough, Due;
      ghost var s := runtime.View();
      StepIsReachable(runtime.trial, true, s, Deliver(0));
      if HasTurnsDue(k) {
        ReachableInv(runtime.trial, s);
        ClientSteps(runtime.trial, s, Deliver(0), turns, seen, quota, k);
      }
      reply := runtime.TakeReply(0);
    }

    // ------------------------------------------- the methods of the mock debugger

    ghost predicate Ready()
      reads this, runtime, runtime.registry
    {
      Ok() && runtime.handlers == map[]
    }

    /** What a finished request leaves as it was, unless it was a resume. */
    twostate predicate SamePause()
      reads this, runtime
    {
      runtime.known && runtime.pos == old(runtime.pos) && runtime.pauses == old(runtime.pauses)
    }

    method IsPaused(ghost k: nat) returns (r: bool, cut: bool)
      requires Ready()
      modifies this`turns, this`seen, runtime, runtime.registry
      ensures Ok() && old(runtime.pauses) <= runtime.pauses && runtime.commands == old(runtime.commands)
      ensures cut ==> turns == []
      ensures !cut ==> Ready() && |turns| < |old(turns)| && runtime.edits == old(runtime.edits)
      ensures !cut ==> r == (runtime.known && runtime.up)
      ensures !cut && old(runtime.known) ==> r && SamePause()
      ensures !cut && old(runtime.sim) == AtLock && old(runtime.commands) == [] ==> r
      ensures !cut && !old(runtime.up) ==> !r && !runtime.up
      ensures old(HasTurns(k + 1)) ==> !cut && HasTurns(k)
    {
      hide Enough;
      ReachableInv(runtime.trial, runtime.View());
      ghost var s := runtime.View();
      var got := Ask(Status, k);
      FewerLeft(k + 1, k);
      ReachableInv(runtime.trial, runtime.View());
      r, cut := got.Got? && got.reply == StatusIs(true), got.CutShort?;
      if s.sim == AtLock && s.commands == [] {
        FirstPauseWaits(runtime.trial, s);
      }
    }

    /** Fewer inquiries take fewer rounds. */
    lemma FewerLeft(k: nat, fewer: nat)
      requires fewer <= k
      ensures HasTurns(k) ==> HasTurns(fewer)
    {
      hide Enough;
      if HasTurns(k) {
        EnoughForLess(runtime.trial, runtime.View(), turns, seen, quota, k, fewer);
      }
    }

    method WaitTillPause(ghost k: nat) returns (cut: bool)
      requires Ready()
      modifies this`turns, this`seen, runtime, runtime.registry
      ensures Ok() && old(runtime.pauses) <= runtime.pauses && runtime.commands == old(runtime.commands)
      ensures cut ==> turns == []
      ensures !cut ==> Ready() && |turns| < |old(turns)| && runtime.edits == old(runtime.edits)
      ensures !cut ==> runtime.known || !runtime.up
      ensures old(HasTurns(k + 1)) ==> !cut && HasTurns(k)
    {
      hide Enough;
      while true
        invariant Ready() && old(runtime.pauses) <= runtime.pauses
        invariant runtime.commands == old(runtime.commands) && runtime.edits == old(runtime.edits)
        invariant |turns| <= |old(turns)|
        invariant old(HasTurns(k + 1)) ==> HasTurns(k + 1)
        decreases |turns|
      {
        var got := Ask(Status, k);
        if got.CutShort? {
          return true;
        }
        if got.Refused? || got.reply == StatusIs(true) {
          FewerLeft(k + 1, k);
          return false;
        }
      }
    }

    /** `continue_`; `ok` is its assertion. */
    method Continue(ghost k: nat) returns (ok: bool, cut: bool)
      requires Ready() && (runtime.known || !runtime.up)
      modifies this`turns, this`seen, runtime, runtime.registry
      ensures Ok() && old(runtime.pauses) <= runtime.pauses
      ensures cut ==> turns == []
      ensures !cut ==> Ready() && |turns| < |old(turns)|
      ensures !cut && ok ==>
        runtime.commands == old(runtime.commands) + [Command(old(runtime.edits), false)] && runtime.edits == []
      ensures !cut && !ok ==> !runtime.up && runtime.commands == old(runtime.commands)
      ensures cut ==>
        (runtime.commands == old(runtime.commands)
         || runtime.commands == old(runtime.commands) + [Command(old(runtime.edits), false)])
      ensures old(runtime.known) ==> ok || cut
      ensures old(HasTurns(k + 1)) ==> !cut && HasTurns(if ok then quota else k)
    {
      hide Enough;
      var got := Ask(Resume(false), k);
      ReachableInv(runtime.trial, runtime.View());
      ok, cut := got.Got?, got.CutShort?;
    }

    method SetPauseOnClock(on: bool, ghost k: nat) returns (cut: bool)
      requires Ready() && runtime.known
      modifies this`turns, this`seen, runtime, runtime.registry
      ensures Ok() && old(runtime.pauses) <= runtime.pauses && runtime.commands == old(runtime.commands)
      ensures cut ==> turns == []
      ensures !cut ==> Ready() && |turns| < |old(turns)| && SamePause()
      ensures !cut ==> runtime.edits == old(runtime.edits) + [Clock(on)]
      ensures old(HasTurns(k + 1)) ==> !cut && HasTurns(k)
    {
      hide Enough;
      var got := Ask(Change(Clock(on)), k);
      ReachableInv(runtime.trial, runtime.View());
      cut := got.CutShort?;
    }

    method GetValueOf(handle: string, ghost k: nat) returns (r: Option<Int32>, cut: bool)
      requires Ready() && runtime.known
      modifies this`turns, this`seen, runtime, runtime.registry
      ensures Ok() && old(runtime.pauses) <= runtime.pauses && runtime.commands == old(runtime.commands)
      ensures cut ==> turns == []
      ensures !cut ==> Ready() && |turns| < |old(turns)| && SamePause() && runtime.edits == old(runtime.edits)
      ensures !cut ==> r == Seen(runtime.trial, prefixTop, runtime.pos, handle)
      ensures old(HasTurns(k + 1)) ==> !cut && HasTurns(k)
    {
      hide Enough;
      var name := if prefixTop != "" then prefixTop + "." + handle else handle;
      var got := Ask(Read(name), k);
      ReachableInv(runtime.trial, runtime.View());
      if got.Got? {
        var v := got.reply.value;
        return if v.None? || v.value < 0 then None else v, false;
      }
      return None, true;
    }

    /** `get_all_reg_values`; None is its exception. */
    method GetAllValues(names: seq<string>, ghost k: nat) returns (r: Option<map<string, Int32>>, cut: bool)
      requires Ready() && runtime.known
      modifies this`turns, this`seen, runtime, runtime.registry
      ensures Ok() && old(runtime.pauses) <= runtime.pauses && runtime.commands == old(runtime.commands)
      ensures cut ==> turns == []
      ensures !cut ==> Ready() && |turns| <= |old(turns)| && SamePause() && runtime.edits == old(runtime.edits)
      ensures !cut ==> r == Design(runtime.trial, prefixTop, runtime.pos, names)
      ensures old(HasTurns(k + |names|)) ==> !cut && (r.Some? ==> HasTurns(k))
    {
      hide Reachable, Seen, Enough;
      var values: map<string, Int32> := map[];
      for i := 0 to |names|
        invariant Ready() && SamePause() && |turns| <= |old(turns)|
        invariant runtime.commands == old(runtime.commands) && runtime.edits == old(runtime.edits)
        invariant Design(runtime.trial, prefixTop, runtime.pos, names[..i]) == Some(values)
        invariant old(HasTurns(k + |names|)) ==> HasTurns(k + |names| - i)
      {
        assert names[..i + 1][..i] == names[..i];
        var value;
        value, cut := GetValueOf(names[i], k + |names| - i - 1);
        if cut {
          return None, true;
        }
        if value.None? {
          DesignMisses(runtime.trial, prefixTop, runtime.pos, names, i + 1);
          return None, false;
        }
        values := values[names[i] := value.value];
      }
      assert names[..|names|] == names;
      return Some(values), false;
    }

    /** The opening of `record_state`: the clock goes on, and the first pauses are continued. */
    method Warmup(numWaitReset: nat, ghost k: nat) returns (outcome: Outcome)
      requires Ready() && runtime.known && runtime.commands == [] && runtime.edits == []
      requires k + 2 <= quota
      modifies this`turns, this`seen, runtime, runtime.registry
      ensures Ok() && outcome in {Finished, NoServer, CutOff} && (outcome.CutOff? ==> turns == [])
      ensures runtime.commands == Recording(|runtime.commands|)
      ensures outcome.Finished? ==>
        && Ready() && (runtime.known || !runtime.up)
        && |runtime.commands| == numWaitReset && runtime.edits == Pending(numWaitReset)
      ensures outcome.NoServer? ==> !runtime.up && |runtime.commands| < numWaitReset
      ensures old(HasTurns(k + 2)) ==> !outcome.CutOff? && (outcome.Finished? ==> HasTurns(k + 1))
    {
      hide Enough, Recording, Reachable;
      NoCommands();
      RecordingLength(0);
      var cut := SetPauseOnClock(true, k + 1);
      if cut {
        return CutOff;
      }
      for i := 0 to numWaitReset
        invariant Ready() && (runtime.known || !runtime.up)
        invariant runtime.commands == Recording(i) && runtime.edits == Pending(i)
        invariant old(HasTurns(k + 2)) ==> HasTurns(k + 1)
      {
        RecordingGrows(i);
        RecordingLength(i + 1);
        var ok;
        ok, cut := Continue(k);
        if cut {
          return CutOff;
        }
        if !ok {
          return NoServer;
        }
        cut := WaitTillPause(quota - 1);
        if cut {
          return CutOff;
        }
        FewerLeft(quota - 1, k + 1);
      }
      RecordingLength(numWaitReset);
      return Finished;
    }

    /** The recording loop of `record_state`. */
    method RecordAll(first: nat, names: seq<string>)
      returns (outcome: Outcome, states: seq<map<string, Int32>>)
      requires Ready() && (runtime.known || !runtime.up)
      requires runtime.commands == Recording(first) && runtime.edits == Pending(first)
      requires |names| + 3 <= quota
      modifies this`turns, this`seen, runtime, runtime.registry
      ensures Ok() && outcome in {Finished, Unreadable, CutOff} && (outcome.CutOff? ==> turns == [])
      ensures AreStates(runtime.trial, prefixTop, names, runtime.pauses, first, states)
      ensures runtime.commands == Recording(|runtime.commands|)
      ensures outcome.Finished? ==> Ready() && !runtime.up && |runtime.commands| == first + |states|
      ensures outcome.Unreadable? ==>
        && first + |states| < |runtime.pauses|
        && Design(runtime.trial, prefixTop, runtime.pauses[first + |states|], names).None?
      ensures old(HasTurns(|names| + 2)) ==> !outcome.CutOff? && (outcome.Finished? ==> HasTurns(1))
    {
      hide AreStates, Design, Recording, Pending, Reachable, Enough;
      states := [];
      NothingRecorded(runtime.trial, prefixTop, names, runtime.pauses, first);
      while true
        invariant Ready() && (runtime.known || !runtime.up)
        invariant runtime.commands == Recording(first + |states|) && runtime.edits == Pending(first + |states|)
        invariant AreStates(runtime.trial, prefixTop, names, runtime.pauses, first, states)
        invariant old(HasTurns(|names| + 2)) ==> HasTurns(|names| + 2)
        decreases |turns|
      {
        RecordingLength(first + |states|);
        ghost var earlier := runtime.pauses;
        var paused, cut := IsPaused(|names| + 1);
        StatesStay(runtime.trial, prefixTop, names, earlier, first, states, runtime.pauses);
        if cut || !paused {
          FewerLeft(|names| + 1, 1);
          return if cut then CutOff else Finished, states;
        }
        var state;
        outcome, state := RecordOne(first + |states|, names);
        StatesStay(runtime.trial, prefixTop, names, earlier, first, states, runtime.pauses);
        if !outcome.Finished? {
          return;
        }
        earlier := runtime.pauses;
        OneMoreState(runtime.trial, prefixTop, names, earlier, first, states, state);
        states := states + [state];
        outcome := GoOn(first + |states| - 1, |names| + 2);
        StatesStay(runtime.trial, prefixTop, names, earlier, first, states, runtime.pauses);
        if outcome.CutOff? {
          return;
        }
      }
    }

    /** Reading the design at pause number `n`. */
    method RecordOne(n: nat, names: seq<string>) returns (outcome: Outcome, state: map<string, Int32>)
      requires Ready() && runtime.known
      requires runtime.commands == Recording(n) && runtime.edits == Pending(n)
      modifies this`turns, this`seen, runtime, runtime.registry
      ensures Ok() && old(runtime.pauses) <= runtime.pauses && runtime.commands == Recording(n)
      ensures outcome in {Finished, Unreadable, CutOff} && (outcome.CutOff? ==> turns == [])
      ensures !outcome.CutOff? ==>
        && Ready() && runtime.known && runtime.edits == Pending(n) && |turns| <= |old(turns)|
        && |runtime.pauses| == n + 1
        && Design(runtime.trial, prefixTop, runtime.pauses[n], names)
           == if outcome.Finished? then Some(state) else None
      ensures old(HasTurns(|names| + 1)) ==> !outcome.CutOff? && (outcome.Finished? ==> HasTurns(1))
    {
      hide Enough;
      var r, cut := GetAllValues(names, 1);
      if cut {
        return CutOff, map[];
      }
      RecordingLength(n);
      StatusIsTrue(runtime.trial, runtime.View());
      return if r.Some? then Finished else Unreadable, if r.Some? then r.value else map[];
    }

    /** Continuing from pause number `n` to the next, or to the end. */
    method GoOn(n: nat, ghost k: nat) returns (outcome: Outcome)
      requires Ready() && runtime.known
      requires runtime.commands == Recording(n) && runtime.edits == Pending(n)
      requires k < quota
      modifies this`turns, this`seen, runtime, runtime.registry
      ensures Ok() && old(runtime.pauses) <= runtime.pauses && outcome in {Finished, CutOff}
      ensures outcome.CutOff? ==> turns == []
      ensures runtime.commands == Recording(|runtime.commands|)
      ensures outcome.Finished? ==>
        && Ready() && (runtime.known || !runtime.up) && |turns| < |old(turns)|
        && runtime.commands == Recording(n + 1) && runtime.edits == Pending(n + 1)
      ensures old(HasTurns(1)) ==> outcome.Finished? && HasTurns(k)
    {
      hide Enough, Recording, Reachable;
      RecordingGrows(n);
      RecordingLength(n + 1);
      var ok, cut := Continue(0);
      if cut {
        return CutOff;
      }
      cut := WaitTillPause(quota - 1);
      FewerLeft(quota - 1, k);
      return if cut then CutOff else Finished;
    }

    /** The server gone means the simulation over, after all its pauses. */
    lemma GoneMeansOver(n: nat)
      requires Ok() && !runtime.up && runtime.commands == Recording(n)
      ensures runtime.sim == Done && |runtime.pauses| == n
      ensures runtime.pauses == AllPauses(runtime.trial)
    {
      ReachableInv(runtime.trial, runtime.View());
      RecordingPauses(runtime.trial, runtime.View(), n);
    }

    /** `wait_till_finish`: polls until there is no reply. */
    method WaitTillFinish(ghost k: nat) returns (cut: bool)
      requires Ready()
      modifies this`turns, this`seen, runtime, runtime.registry
      ensures Ok() && old(runtime.pauses) <= runtime.pauses && runtime.commands == old(runtime.commands)
      ensures if cut then turns == [] else !runtime.up
      ensures !old(runtime.up) ==> !runtime.up
      ensures !old(runtime.up) && old(HasTurns(k + 1)) ==> !cut
    {
      hide Enough;
      while true
        invariant Ready()
        invariant old(runtime.pauses) <= runtime.pauses && runtime.commands == old(runtime.commands)
        invariant !old(runtime.up) ==> !runtime.up
        invariant !old(runtime.up) && old(HasTurns(k + 1)) ==> HasTurns(k + 1)
        decreases |turns|
      {
        var got := Ask(Probe, k);
        if !got.Got? {
          return got.CutShort?;
        }
      }
    }

    /**
     `record_state`: whatever the interleaving, the states recorded are those of the design at the pauses
     from number `numWaitReset` on, none skipped and none twice; when it finishes, to the last one.  The
     pauses are the one at start-up and every clock edge.  When it is called during the start-up pause and
     the schedule has rounds enough, it ends as the trial and the arguments alone decide.
     */
    method RecordState(numWaitReset: nat, names: seq<string>)
      returns (outcome: Outcome, states: seq<map<string, Int32>>)
      requires Ready() && runtime.commands == [] && runtime.edits == []
      modifies this`turns, this`seen, this`quota, runtime, runtime.registry
      ensures Ok()
      ensures AreStates(runtime.trial, prefixTop, names, runtime.pauses, numWaitReset, states)
      ensures runtime.commands == Recording(|runtime.commands|) && runtime.pauses <= AllPauses(runtime.trial)
      ensures outcome.Finished? || outcome.NoServer? ==>
        runtime.sim == Done && runtime.pauses == AllPauses(runtime.trial)
      ensures outcome.Finished? ==> |runtime.pauses| == numWaitReset + |states|
      ensures outcome.NoServer? ==> |runtime.pauses| < numWaitReset && states == []
      ensures outcome.Unreadable? ==>
        && numWaitReset + |states| < |runtime.pauses|
        && Design(runtime.trial, prefixTop, runtime.pauses[numWaitReset + |states|], names).None?
      ensures outcome.NotPaused? ==> old(runtime.sim) != AtLock && runtime.commands == [] && states == []
      ensures outcome.CutOff? ==> turns == []
      ensures old(runtime.sim) == AtLock
        && Bound(|runtime.trial.trace|, |names| + 4) <= Rounds(old(turns), {})
        ==> outcome == Foretold(runtime.trial, prefixTop, numWaitReset, names)
    {
      hide AreStates, Design, Recording, Pending, Reachable, ClockPauses, Enough, Foretold;
      states := [];
      quota, seen := |names| + 4, {};
      EnoughAtFirst();
      NoCommands();
      var paused, cut := IsPaused(|names| + 3);
      NothingRecorded(runtime.trial, prefixTop, names, runtime.pauses, numWaitReset);
      PausesForetold();
      if cut || !paused {
        return if cut then CutOff else NotPaused, [];
      }
      outcome := Warmup(numWaitReset, |names| + 1);
      NothingRecorded(runtime.trial, prefixTop, names, runtime.pauses, numWaitReset);
      PausesForetold();
      if outcome.CutOff? {
        return;
      }
      if outcome.NoServer? {
        GoneMeansOver(|runtime.commands|);
        NoServerForetold(runtime.trial, prefixTop, numWaitReset, names);
        return;
      }
      outcome, states := RecordRest(numWaitReset, names);
    }

    /** What follows the opening: the recording loop, and the wait for the end. */
    method RecordRest(first: nat, names: seq<string>)
      returns (outcome: Outcome, states: seq<map<string, Int32>>)
      requires Ready() && (runtime.known || !runtime.up)
      requires runtime.commands == Recording(first) && runtime.edits == Pending(first)
      requires |names| + 3 <= quota
      modifies this`turns, this`seen, runtime, runtime.registry
      ensures Ok() && outcome in {Finished, Unreadable, CutOff} && (outcome.CutOff? ==> turns == [])
      ensures AreStates(runtime.trial, prefixTop, names, runtime.pauses, first, states)
      ensures runtime.commands == Recording(|runtime.commands|) && runtime.pauses <= AllPauses(runtime.trial)
      ensures outcome.Finished? ==>
        && runtime.sim == Done && runtime.pauses == AllPauses(runtime.trial) && |runtime.pauses| == first + |states|
      ensures outcome.Unreadable? ==>
        && first + |states| < |runtime.pauses|
        && Design(runtime.trial, prefixTop, runtime.pauses[first + |states|], names).None?
      ensures old(HasTurns(|names| + 2)) ==> outcome == Foretold(runtime.trial, prefixTop, first, names)
    {
      hide AreStates, Design, Recording, Pending, Reachable, ClockPauses, Enough, Foretold;
      outcome, states := RecordAll(first, names);
      PausesForetold();
      if outcome.Unreadable? {
        UnreadableForetold(runtime.trial, prefixTop, first, names, first + |states|);
      }
      if outcome.Finished? {
        ghost var earlier := runtime.pauses;
        var cut := WaitTillFinish(0);
        StatesStay(runtime.trial, prefixTop, names, earlier, first, states, runtime.pauses);
        GoneMeansOver(first + |states|);
        FinishedForetold(runtime.trial, prefixTop, first, names, states);
        outcome := if cut then CutOff else Finished;
      }
    }

    lemma EnoughAtFirst()
      requires Ok() && seen == {}
      ensures Bound(|runtime.trial.trace|, quota) <= Rounds(turns, {}) ==> HasTurns(quota)
    {
      ReachableInv(runtime.trial, runtime.View());
      WorkBounded(runtime.trial, runtime.View(), quota);
      InPlace(runtime.trial, runtime.View());
    }

    lemma PausesForetold()
      requires Ok() && runtime.commands == Recording(|runtime.commands|)
      ensures runtime.pauses <= AllPauses(runtime.trial)
    {
      RecordingPrefix(runtime.trial, runtime.View(), |runtime.commands|);
    }
  }
  predicate Increasing(ps: seq<nat>) {
    forall i, j :: 0 <= i < j < |ps| ==> ps[i] < ps[j]
  }

  lemma LeastFirst(least: nat, rest: seq<nat>)
    requires forall p :: p in rest ==> least < p
    requires Increasing(rest)
    ensures forall p :: p in [least] + rest <==> p == least || p in rest
    ensures Increasing([least] + rest)
  {
    var all := [least] + rest;
    forall i, j | 0 <= i < j < |all| ensures all[i] < all[j] {
      assert all[j] == rest[j - 1] && rest[j - 1] in rest;
    }
  }

  /** The pauses of a recording: start-up and the clock edges, in order. */
  lemma {:induction false} ClockPausesAre(trace: seq<Event>, from: nat)
    requires from <= |trace|
    ensures forall p: nat :: p in ClockPauses(trace, from) <==> from < p <= |trace| && trace[p - 1].ClockEdge?
    ensures Increasing(ClockPauses(trace, from))
    decreases |trace| - from
  {
    if from < |trace| {
      ClockPausesAre(trace, from + 1);
      LeastFirst(from + 1, ClockPauses(trace, from + 1));
    }
  }

  lemma AllPausesAre(trial: Trial)
    ensures forall p: nat :: p in AllPauses(trial) <==>
      p == 0 || (0 < p <= |trial.trace| && trial.trace[p - 1].ClockEdge?)
    ensures Increasing(AllPauses(trial))
  {
    ClockPausesAre(trial.trace, 0);
    LeastFirst(0, ClockPauses(trial.trace, 0));
  }

  lemma ReadableMeans(trial: Trial, prefixTop: string, names: seq<string>, first: nat)
    ensures forall k :: 0 <= k < |AllPauses(trial)| ==> AllPauses(trial)[k] <= |trial.trace|
    ensures Readable(trial, prefixTop, names, first) <==>
      forall k, n :: first <= k < |AllPauses(trial)| && n in names ==>
        var v := ShownAt(trial, prefixTop, AllPauses(trial)[k], n); v.Some? && v.value >= 0
  {
    hide GetValue, Design;
    AllPausesAre(trial);
    hide AllPauses;
    assert forall k :: 0 <= k < |AllPauses(trial)| ==> AllPauses(trial)[k] in AllPauses(trial);
    forall k | first <= k < |AllPauses(trial)|
      ensures Design(trial, prefixTop, AllPauses(trial)[k], names).Some? <==>
        forall n :: n in names ==>
          var v := ShownAt(trial, prefixTop, AllPauses(trial)[k], n); v.Some? && v.value >= 0
    {
      DesignMeans(trial, prefixTop, AllPauses(trial)[k], names);
    }
  }

  /**
   A whole session: the simulation has come to its start-up pause when the client begins to record.  On
   every schedule with rounds enough it finishes exactly if there are pauses enough and every name shows a
   value that is not negative at each of them; and then it has recorded, for every pause from number
   `numWaitReset` to the last one, the value that each name showed.
   */
  method RecordSession(trial: Trial, prefixTop: string, turns: seq<Turn>, numWaitReset: nat, names: seq<string>)
    returns (outcome: Outcome, states: seq<map<string, Int32>>)
    ensures forall k :: 0 <= k < |AllPauses(trial)| ==> AllPauses(trial)[k] <= |trial.trace|
    ensures Bound(|trial.trace|, |names| + 4) <= Rounds(turns, {}) ==>
      && outcome in {Finished, NoServer, Unreadable}
      && (outcome.NoServer? <==> |AllPauses(trial)| < numWaitReset)
      && (outcome.Finished? <==>
            numWaitReset <= |AllPauses(trial)|
            && forall k, n :: numWaitReset <= k < |AllPauses(trial)| && n in names ==>
                 var v := ShownAt(trial, prefixTop, AllPauses(trial)[k], n); v.Some? && v.value >= 0)
    ensures outcome.Finished? ==> |AllPauses(trial)| == numWaitReset + |states|
    ensures numWaitReset + |states| <= |AllPauses(trial)| || states == []
    ensures forall k :: 0 <= k < |states| ==>
      && (forall n :: n in states[k] <==> n in names)
      && forall n :: n in names ==>
           ShownAt(trial, prefixTop, AllPauses(trial)[numWaitReset + k], n) == Some(states[k][n])
  {
    hide AreStates, Foretold, AllPauses, Reachable, Recording, Rounds, ShownAt, Design;
    var debugger := new Debugger(trial, prefixTop, turns);
    debugger.SimulatorTurn();
    debugger.SimulatorTurn();
    outcome, states := debugger.RecordState(numWaitReset, names);
    StatesStay(trial, prefixTop, names, debugger.runtime.pauses, numWaitReset, states, AllPauses(trial));
    StatesShow(trial, prefixTop, names, numWaitReset, states);
    ForetoldMeans(trial, prefixTop, numWaitReset, names);
  }

  lemma StatesShow(trial: Trial, prefixTop: string, names: seq<string>, first: nat, states: seq<map<string, Int32>>)
    requires AreStates(trial, prefixTop, names, AllPauses(trial), first, states)
    ensures forall k :: 0 <= k < |AllPauses(trial)| ==> AllPauses(trial)[k] <= |trial.trace|
    ensures first + |states| <= |AllPauses(trial)| || states == []
    ensures forall k :: 0 <= k < |states| ==>
      && (forall n :: n in states[k] <==> n in names)
      && forall n :: n in names ==>
           ShownAt(trial, prefixTop, AllPauses(trial)[first + k], n) == Some(states[k][n])
  {
    hide GetValue, Design;
    AllPausesAre(trial);
    hide AllPauses;
    assert forall k :: 0 <= k < |AllPauses(trial)| ==> AllPauses(trial)[k] in AllPauses(trial);
    forall k | 0 <= k < |states|
      ensures forall n :: n in states[k] <==> n in names
      ensures forall n :: n in names ==>
        ShownAt(trial, prefixTop, AllPauses(trial)[first + k], n) == Some(states[k][n])
    {
      DesignMeans(trial, prefixTop, AllPauses(trial)[first + k], names);
    }
  }

  lemma ForetoldMeans(trial: Trial, prefixTop: string, numWaitReset: nat, names: seq<string>)
    ensures forall k :: 0 <= k < |AllPauses(trial)| ==> AllPauses(trial)[k] <= |trial.trace|
    ensures var foretold := Foretold(trial, prefixTop, numWaitReset, names);
      && foretold in {Finished, NoServer, Unreadable}
      && (foretold.NoServer? <==> |AllPauses(trial)| < numWaitReset)
      && (foretold.Finished? <==>
            numWaitReset <= |AllPauses(trial)|
            && forall k, n :: numWaitReset <= k < |AllPauses(trial)| && n in names ==>
                 var v := ShownAt(trial, prefixTop, AllPauses(trial)[k], n); v.Some? && v.value >= 0)
  {
    hide AllPauses, ShownAt, Readable;
    ReadableMeans(trial, prefixTop, names, numWaitReset);
  }
}
