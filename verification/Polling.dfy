/**
 A synchronous client: it sends one request at a time and waits for the reply, while an arbitrary
 schedule interleaves the simulator and the handler thread.  A schedule with rounds for all the work
 left, counted as in module Progress, is long enough.
 */
module Polling {
  import opened Options
  import opened Handles
  import opened Stepping
  import opened Protocol
  import opened Disciplined
  import opened Progress

  /** Whose turn it is; a handler that reads a moving signal gets `noise`. */
  datatype Turn = Simulator | Server(noise: Option<Int32>) | Client

  /** What becomes of a request: the schedule ends first, the server is gone, or there is a reply. */
  datatype Got = CutShort | Refused | Got(reply: Reply)

  // ------------------------------------------------------------------ schedules

  function Whose(turn: Turn): Thread {
    match turn
    case Simulator => SimThread
    case Server(_) => HandlerThread
    case Client => ClientThread
  }

  predicate Everyone(seen: set<Thread>) {
    SimThread in seen && HandlerThread in seen && ClientThread in seen
  }

  /** The rounds in which every thread has a turn; `seen` had theirs in the round that has begun. */
  function Rounds(turns: seq<Turn>, seen: set<Thread>): nat {
    if turns == [] then 0
    else
      var now := seen + {Whose(turns[0])};
      if Everyone(now) then 1 + Rounds(turns[1..], {}) else Rounds(turns[1..], now)
  }

  lemma {:induction false} RoundsMonotone(turns: seq<Turn>, less: set<Thread>, more: set<Thread>)
    requires less <= more
    ensures Rounds(turns, less) <= Rounds(turns, more) <= Rounds(turns, less) + 1
  {
    if turns != [] {
      var t := Whose(turns[0]);
      RoundsMonotone(turns[1..], less + {t}, more + {t});
      RoundsMonotone(turns[1..], {}, less + {t});
    }
  }

  function Threads(block: seq<Turn>): set<Thread> {
    set turn | turn in block :: Whose(turn)
  }

  lemma ThreadsCons(block: seq<Turn>)
    requires block != []
    ensures Threads(block) == {Whose(block[0])} + Threads(block[1..])
  {
    assert block == [block[0]] + block[1..];
  }

  lemma {:induction false} RoundsOfRest(block: seq<Turn>, rest: seq<Turn>, seen: set<Thread>)
    ensures Rounds(block + rest, seen) >= Rounds(rest, {})
    ensures Everyone(seen + Threads(block)) && !Everyone(seen) ==>
      Rounds(block + rest, seen) >= 1 + Rounds(rest, {})
  {
    if block == [] {
      assert block + rest == rest;
      RoundsMonotone(rest, {}, seen);
    } else {
      assert (block + rest)[1..] == block[1..] + rest;
      var now := seen + {Whose(block[0])};
      ThreadsCons(block);
      assert seen + Threads(block) == now + Threads(block[1..]);
      RoundsOfRest(block[1..], rest, if Everyone(now) then {} else now);
    }
  }

  function Joined(blocks: seq<seq<Turn>>): seq<Turn> {
    if blocks == [] then [] else blocks[0] + Joined(blocks[1..])
  }

  /** However a schedule is cut into blocks that hold a turn of everyone, it has that many rounds. */
  lemma {:induction false} RoundsOfBlocks(blocks: seq<seq<Turn>>)
    requires forall k :: 0 <= k < |blocks| ==> Everyone(Threads(blocks[k]))
    ensures Rounds(Joined(blocks), {}) >= |blocks|
  {
    if blocks != [] {
      RoundsOfBlocks(blocks[1..]);
      RoundsOfRest(blocks[0], Joined(blocks[1..]), {});
      assert {} + Threads(blocks[0]) == Threads(blocks[0]);
    }
  }

  // ------------------------------------------- what the other threads may change

  /** The client's knowledge, and while it knows of a pause the pause itself, stay as they are. */
  predicate Meanwhile(s: State, t: State) {
    && t.known == s.known && t.commands == s.commands && s.pauses <= t.pauses
    && t.handlers.Keys == s.handlers.Keys
    && (s.known ==> t.pos == s.pos && t.pauses == s.pauses)
    && (s.handlers == map[] ==> t.edits == s.edits)
    && (!s.up ==> !t.up)
    && (Waiting(s) ==> Waiting(t))
    && (Telling(s) ==> Telling(t))
  }

  /** A status request made during a pause will be answered "Paused". */
  predicate Telling(s: State) {
    Waiting(s) && (Slot(s) == Some(Accepted(Status)) || Slot(s) == Some(Replying(StatusIs(true))))
  }

  /** The request is in flight; `before` are the edits made so far without it. */
  predicate Serving(trial: Trial, s: State, request: Request, before: seq<Edit>) {
    && s.handlers.Keys == {0}
    && var slot := s.handlers[0];
      match request
      case Probe => s.edits == before && (slot == Accepted(request) || slot == Replying(Ack))
      case Status => s.edits == before && (slot == Accepted(request) || (slot.Replying? && slot.reply.StatusIs?))
      case Read(name) =>
        && s.edits == before
        && (slot == Accepted(request)
            || (slot.Replying? && slot.reply.Value?
                && (s.known ==> slot.reply.value == GetValue(trial.site.top, SignalsAt(trial, s.pos), name))))
      case Change(edit) =>
        || (slot == Accepted(request) && s.edits == before)
        || (slot == Replying(Ack) && s.edits == before + [edit])
      case Resume(_) =>
        s.edits == before && (slot == Accepted(request) || slot == ClearFlag || slot == Unlock || slot == Replying(Ack))
      case Stop => false
  }

  lemma SimMeanwhile(trial: Trial, s: State)
    requires Inv(trial, s) && SimReady(s)
    ensures var t := SimStep(trial, s);
      Meanwhile(s, t) && t.handlers == s.handlers && t.edits == s.edits
    ensures s.known ==> false
  {
    hide React, ApplyEdits, Replay, Advance;
    match s.sim
    case Running =>
      if s.pos < |trial.trace| {
        assert s.pauses <= NextEvent(trial, s).pauses;
      }
    case _ =>
  }

  lemma HandlerWaits(trial: Trial, s: State, noise: Option<Int32>)
    requires Waiting(s) && 0 in s.handlers && !s.handlers[0].Replying?
    ensures Waiting(HandlerStep(trial, s, 0, noise))
    ensures Telling(s) ==> Telling(HandlerStep(trial, s, 0, noise))
  {
    hide ApplyEdit, ReadNow;
    assert s.handlers[0].Accepted?;
    var t := Serve(trial, s, 0, s.handlers[0].request, noise);
    assert Slot(t) == Some(t.handlers[0]);
  }

  lemma HandlerMeanwhile(trial: Trial, s: State, noise: Option<Int32>)
    requires Inv(trial, s) && 0 in s.handlers && !s.handlers[0].Replying?
    ensures Meanwhile(s, HandlerStep(trial, s, 0, noise))
  {
    hide React, ApplyEdits, Replay, Advance, HandlerStep, Control, Agrees, Waiting;
    HandlerKeepsCourse(trial, s, 0, noise);
    if Waiting(s) {
      HandlerWaits(trial, s, noise);
    }
  }

  lemma HandlerServing(trial: Trial, s: State, noise: Option<Int32>, request: Request, before: seq<Edit>)
    requires Inv(trial, s) && Serving(trial, s, request, before) && !s.handlers[0].Replying?
    ensures Serving(trial, HandlerStep(trial, s, 0, noise), request, before)
  {
    hide React, ApplyEdits, ApplyEdit, Replay, Advance, GetValue, SignalsAt, Agrees;
    HandlerKeepsCourse(trial, s, 0, noise);
    match request
    case Read(name) => assert s.known ==> s.sim == AtLock;
    case _ =>
  }

  lemma MeanwhileTransitive(s: State, t: State, u: State)
    requires Meanwhile(s, t) && Meanwhile(t, u)
    ensures Meanwhile(s, u)
  {
    assert s.handlers == map[] ==> s.handlers.Keys == {};
    assert t.handlers.Keys == {} ==> t.handlers == map[];
  }

  /** The reply tells what it should, and the client's knowledge changes accordingly. */
  predicate Answered(trial: Trial, s: State, request: Request, t: State, reply: Reply) {
    match request
    case Probe =>
      && reply == Ack && t.known == s.known && t.commands == s.commands && t.edits == s.edits
      && (s.known ==> t.pos == s.pos && t.pauses == s.pauses)
    case Status =>
      && reply.StatusIs? && t.known == reply.paused && t.commands == s.commands && t.edits == s.edits
      && (s.known ==> t.known && t.pos == s.pos && t.pauses == s.pauses)
      && (Waiting(s) ==> t.known)
    case Read(name) =>
      && t.known == s.known && t.commands == s.commands && t.edits == s.edits
      && (s.known ==>
        && t.pos == s.pos && t.pauses == s.pauses
        && reply == Value(GetValue(trial.site.top, SignalsAt(trial, s.pos), name)))
    case Change(edit) =>
      && t.known && t.commands == s.commands && t.edits == s.edits + [edit]
      && t.pos == s.pos && t.pauses == s.pauses
    case Resume(step) =>
      !t.known && t.edits == [] && t.commands == s.commands + [Command(s.edits, step)]
    case Stop => false
  }

  lemma SubmitServes(trial: Trial, s: State, request: Request)
    requires s.handlers == map[] && !request.Stop?
    ensures Serving(trial, SubmitStep(s, 0, request), request, if request.Resume? then [] else s.edits)
  {
  }

  /** A reply that came up is the right one: `s` is where the request was made, `r` where it is answered. */
  lemma ReplyIsRight(trial: Trial, s: State, r: State, request: Request, before: seq<Edit>)
    requires s.handlers == map[] && before == (if request.Resume? then [] else s.edits)
    requires request.Change? || request.Resume? ==> s.known
    requires Inv(trial, r) && Meanwhile(SubmitStep(s, 0, request), r)
    requires Serving(trial, r, request, before) && r.handlers[0].Replying?
    ensures Answered(trial, s, request, DeliverStep(r, 0), r.handlers[0].reply)
    ensures s.pauses <= DeliverStep(r, 0).pauses
  {
    hide React, ApplyEdits, Replay, Advance, GetValue, SignalsAt, Agrees, SamplesFit;
    assert Slot(r) == Some(r.handlers[0]);
  }

  /** What came before a request does not matter to its answer. */
  lemma AnsweredEarlier(trial: Trial, s: State, t: State, request: Request, u: State, reply: Reply)
    requires Meanwhile(s, t) && s.handlers == map[] && Answered(trial, t, request, u, reply)
    requires request.Change? || request.Resume? ==> t.known
    ensures Answered(trial, s, request, u, reply)
  {
    hide GetValue, SignalsAt;
  }

  // ------------------------------------------------------ turns enough to finish

  /** What a turn of another thread does: one step, or nothing where it has none to make. */
  function After(trial: Trial, s: State, turn: Turn): State {
    match turn
    case Simulator => if SimReady(s) then SimStep(trial, s) else s
    case Server(noise) => if 0 in s.handlers && !s.handlers[0].Replying? then HandlerStep(trial, s, 0, noise) else s
    case Client => s
  }

  function NowSeen(seen: set<Thread>, turn: Turn): set<Thread> {
    if Everyone(seen + {Whose(turn)}) then {} else seen + {Whose(turn)}
  }

  /** Rounds for `work` steps more, the next of them a step of `needs`. */
  predicate Suffice(turns: seq<Turn>, seen: set<Thread>, work: int, needs: Thread) {
    work + (if needs in seen then 1 else 0) <= Rounds(turns, seen)
  }

  /** Rounds for `work` steps more, whoever makes the next. */
  predicate SufficeForAny(turns: seq<Turn>, seen: set<Thread>, work: int) {
    work + (if seen == {} then 0 else 1) <= Rounds(turns, seen)
  }

  /** A turn of the thread that is needed pays for its step; the turn of another costs nothing. */
  lemma TurnPays(turns: seq<Turn>, seen: set<Thread>, work: int, needs: Thread)
    requires turns != [] && Suffice(turns, seen, work, needs)
    ensures var now := NowSeen(seen, turns[0]);
      if Whose(turns[0]) == needs then SufficeForAny(turns[1..], now, work - 1)
      else Suffice(turns[1..], now, work, needs)
  {
  }

  /** The schedule has rounds for the rest of the session, with `k` inquiries left. */
  predicate Enough(trial: Trial, s: State, turns: seq<Turn>, seen: set<Thread>, quota: nat, k: nat) {
    && s.pos <= |trial.trace| && k <= quota
    && Suffice(turns, seen, Work(trial, s, quota, k), Needs(s))
  }

  /** The same once the client has its turn: the step it needs to make, if any, is paid for. */
  predicate Due(trial: Trial, s: State, turns: seq<Turn>, seen: set<Thread>, quota: nat, k: nat) {
    && s.pos <= |trial.trace| && k <= quota
    && if Needs(s) == ClientThread then SufficeForAny(turns, seen, Work(trial, s, quota, k) - 1)
       else Suffice(turns, seen, Work(trial, s, quota, k), Needs(s))
  }

  /** While there is work, enough turns are some turns. */
  lemma EnoughForOne(trial: Trial, s: State, turns: seq<Turn>, seen: set<Thread>, quota: nat, k: nat)
    requires Enough(trial, s, turns, seen, quota, k)
    requires k > 0 || 0 in s.handlers
    ensures turns != []
  {
  }

  lemma EnoughForLess(trial: Trial, s: State, turns: seq<Turn>, seen: set<Thread>, quota: nat, k: nat, less: nat)
    requires Enough(trial, s, turns, seen, quota, k) && less <= k
    ensures Enough(trial, s, turns, seen, quota, less)
  {
  }

  lemma OthersTurn(trial: Trial, s: State, turns: seq<Turn>, seen: set<Thread>, quota: nat, k: nat)
    requires Inv(trial, s) && Enough(trial, s, turns, seen, quota, k)
    requires turns != [] && !turns[0].Client?
    ensures Enough(trial, After(trial, s, turns[0]), turns[1..], NowSeen(seen, turns[0]), quota, k)
  {
    hide Inv, Work, Rounds, SimStep, HandlerStep;
    TurnPays(turns, seen, Work(trial, s, quota, k), Needs(s));
    MovesWhenNeeded(trial, s);
    match turns[0]
    case Simulator =>
      if SimReady(s) {
        SimWorks(trial, s, quota, k);
        InPlace(trial, SimStep(trial, s));
      }
    case Server(noise) =>
      if 0 in s.handlers && !s.handlers[0].Replying? {
        WorkDrops(trial, s, Handle(0, noise), quota, k);
        InPlace(trial, HandlerStep(trial, s, 0, noise));
        if Idle(s, Handle(0, noise)) {
          IdleKeeps(trial, s, Handle(0, noise));
        }
      }
  }

  lemma InPlace(trial: Trial, s: State)
    requires Inv(trial, s)
    ensures s.pos <= |trial.trace|
  {
  }

  /** The thread that is needed has a step to make; only then the simulator has one. */
  lemma MovesWhenNeeded(trial: Trial, s: State)
    requires Inv(trial, s)
    ensures SimReady(s) <==> Needs(s) == SimThread
    ensures Needs(s) == HandlerThread ==> 0 in s.handlers && !s.handlers[0].Replying?
    ensures 0 in s.handlers && !s.handlers[0].Replying? ==> Needs(s) != ClientThread
  {
    hide Agrees;
  }

  lemma ClientsTurn(trial: Trial, s: State, turns: seq<Turn>, seen: set<Thread>, quota: nat, k: nat)
    requires Enough(trial, s, turns, seen, quota, k)
    requires turns != [] && turns[0].Client?
    ensures Due(trial, s, turns[1..], NowSeen(seen, turns[0]), quota, k)
  {
    hide Work, Rounds, Needs;
    TurnPays(turns, seen, Work(trial, s, quota, k), Needs(s));
  }

  /** The client uses its turn. */
  lemma ClientSteps(trial: Trial, s: State, l: Label, turns: seq<Turn>, seen: set<Thread>, quota: nat, k: nat)
    requires Inv(trial, s) && Due(trial, s, turns, seen, quota, k)
    requires (l.Submit? || l.Deliver?) && Enabled(s, l) && Polite(s, l) && 0 <= Left(s, l, quota, k)
    ensures Enough(trial, Step(trial, s, l), turns, seen, quota, Left(s, l, quota, k))
  {
    hide Work, Rounds, Step;
    WorkDrops(trial, s, l, quota, k);
    hide Inv;
    InPlace(trial, Step(trial, s, l));
    assert Needs(s) != HandlerThread by { assert Slot(s) == None || Slot(s).value.Replying?; }
    if Idle(s, l) {
      IdleKeeps(trial, s, l);
    }
  }

  /** The client has no use for its turn: the request is still in the handler's hands. */
  lemma ClientWaits(trial: Trial, s: State, turns: seq<Turn>, seen: set<Thread>, quota: nat, k: nat)
    requires Inv(trial, s) && Due(trial, s, turns, seen, quota, k)
    requires 0 in s.handlers && !s.handlers[0].Replying?
    ensures Enough(trial, s, turns, seen, quota, k)
  {
    MovesWhenNeeded(trial, s);
  }

  /** The client finds the server gone. */
  lemma ClientRefused(trial: Trial, s: State, turns: seq<Turn>, seen: set<Thread>, quota: nat, k: nat)
    requires Inv(trial, s) && Due(trial, s, turns, seen, quota, k + 1)
    requires !s.up && s.handlers == map[]
    ensures Enough(trial, s, turns, seen, quota, k)
  {
    hide Agrees, Rounds;
  }

  lemma WorkBounded(trial: Trial, s: State, quota: nat)
    requires Inv(trial, s)
    ensures Work(trial, s, quota, quota) <= Bound(|trial.trace|, quota)
  {
    InPlace(trial, s);
    hide Agrees;
    ForEventsIsProduct(|trial.trace|, quota);
    FewerEvents(|trial.trace| - s.pos, |trial.trace|, quota);
  }

  lemma {:induction false} FewerEvents(m: nat, n: nat, quota: nat)
    requires m <= n
    ensures ForEvents(m, quota) <= ForEvents(n, quota)
  {
    if m < n {
      FewerEvents(m, n - 1, quota);
    }
  }
}
