/**
 The protocol with a disciplined client: the inductive invariant of every interleaving, and what follows
 from it.  The session is the sequential debugger's, the status reply tells the truth, and everything
 read during a pause belongs to one state of the design.
 */
module Disciplined {
  import opened Options
  import opened Handles
  import opened Stepping
  import opened Protocol

  // ------------------------------------------------------------ the invariant

  /** The request in flight, if any. */
  function Slot(s: State): Option<Handler> {
    if 0 in s.handlers then Some(s.handlers[0]) else None
  }

  /** Nothing in flight that changes the runtime, and no reply that says "Paused". */
  predicate Benign(slot: Option<Handler>) {
    match slot
    case None => true
    case Some(Accepted(request)) => request.Probe? || request.Status? || request.Read?
    case Some(Replying(reply)) => reply != StatusIs(true)
    case Some(_) => false
  }

  /** Inside a pause that the client has not resumed yet. */
  predicate Waiting(s: State) {
    && s.sim == AtLock && s.paused && !s.free
    && var slot := Slot(s);
      || (Benign(slot) && (s.known ==> slot != Some(Replying(StatusIs(false)))))
      || slot == Some(Replying(StatusIs(true)))
      || (s.known && slot.Some? && slot.value.Accepted? && slot.value.request.Change?)
  }

  /** Inside a pause, with the resume on its way. */
  predicate Leaving(s: State) {
    && s.sim == AtLock && !s.free
    && var slot := Slot(s);
      && slot.Some?
      && match slot.value
         case Accepted(request) => request.Resume? && s.paused
         case ClearFlag => s.paused
         case Unlock => !s.paused
         case Replying(_) => false
  }

  /** Inside a pause that may complete. */
  predicate Released(s: State) {
    s.sim == AtLock && !s.paused && s.free && Benign(Slot(s))
  }

  /** Between the pauses: the flag is down, and nothing touches the settings. */
  predicate Moving(s: State) {
    && !s.paused && Benign(Slot(s))
    && s.sim != AtLock
    && (s.free <==> s.sim == Boot || s.sim == TearStop || s.sim == Done)
  }

  /** The pause under way still waits for its resume. */
  predicate Open(s: State) {
    s.sim == AtPost || s.sim == AtFlag || Waiting(s)
  }

  predicate Control(s: State) {
    && s.handlers.Keys <= {0} && !s.finish
    && (s.up <==> s.sim != Done && s.sim != Dead)
    && (Waiting(s) || Leaving(s) || Released(s) || Moving(s))
    && (!Waiting(s) ==> !s.known && s.edits == [] && s.samples == [])
    && |s.pauses| == |s.commands| + (if Open(s) then 1 else 0)
    && |s.pauses| == s.completed + (if Inside(s.sim) then 1 else 0)
    && (s.sim == Boot ==> s.commands == [] && s.pos == 0 && s.panel == INITIAL)
  }

  /** The settings the simulator will go on with. */
  function Coming(s: State): Panel {
    match Slot(s)
    case Some(Accepted(Resume(step))) => s.panel.(stepOver := step)
    case _ => s.panel
  }

  /** How the state stands to the sequential session over the commands given so far. */
  predicate Agrees(trial: Trial, s: State) {
    && s.pos <= |trial.trace|
    && var r := Replay(trial, s.commands);
      match s.sim
      case Boot => true
      case Done => r == Ended(s.pauses, s.panel)
      case TearPost => r == Ended(s.pauses, s.panel)
      case TearFlag => r == Ended(s.pauses, s.panel)
      case TearUnlock => r == Ended(s.pauses, s.panel)
      case TearStop => r == Ended(s.pauses, s.panel)
      case Dead => r == Crashed(s.pauses)
      case Running => r == Advance(trial, s.pauses, s.pos, s.panel)
      case _ =>
        if Open(s) then
          r.Stopped? && r.pauses == s.pauses && r.pos == s.pos
          && s.panel == ApplyEdits(trial.site, r.panel, s.edits)
        else r == Advance(trial, s.pauses, s.pos, Coming(s))
  }

  /** What was read since the client learnt of the pause. */
  predicate SamplesFit(trial: Trial, s: State) {
    forall k :: 0 <= k < |s.samples| ==>
      s.samples[k].value == GetValue(trial.site.top, SignalsAt(trial, s.pos), s.samples[k].name)
  }

  predicate Inv(trial: Trial, s: State) {
    Control(s) && Agrees(trial, s) && SamplesFit(trial, s)
  }

  // -------------------------------------------------------- every step keeps it

  lemma SimKeeps(trial: Trial, s: State)
    requires Inv(trial, s) && SimReady(s)
    ensures Inv(trial, SimStep(trial, s))
  {
    hide React, ApplyEdits;
    var t := SimStep(trial, s);
    assert Slot(t) == Slot(s);
    match s.sim
    case Boot =>
      assert t.panel == ApplyEdits(trial.site, INITIAL, []) by { NoEdits(trial.site, INITIAL); }
    case Running =>
      if s.pos < |trial.trace| {
        EventKeeps(trial, s);
      }
    case _ =>
  }

  lemma NoEdits(site: Tables.Site, panel: Panel)
    ensures ApplyEdits(site, panel, []) == panel
  {
  }

  lemma EventKeeps(trial: Trial, s: State)
    requires Inv(trial, s) && s.sim == Running && s.pos < |trial.trace|
    ensures Inv(trial, NextEvent(trial, s))
  {
    hide React, ApplyEdits, Replay;
    var t := NextEvent(trial, s);
    assert Slot(t) == Slot(s);
    assert s.samples == [] && t.samples == [];
    NoEdits(trial.site, t.panel);
  }

  lemma ReadKeeps(trial: Trial, s: State, noise: Option<Int32>)
    requires Inv(trial, s) && 0 in s.handlers && s.handlers[0].Accepted? && s.handlers[0].request.Read?
    ensures Inv(trial, HandlerStep(trial, s, 0, noise))
  {
    hide React, ApplyEdits, Replay, Advance, GetValue, SignalsAt;
    var t := HandlerStep(trial, s, 0, noise);
    assert t.handlers.Keys <= {0};
    assert Slot(t) == Some(t.handlers[0]);
  }

  lemma AcceptKeeps(trial: Trial, s: State, noise: Option<Int32>)
    requires Inv(trial, s) && 0 in s.handlers && s.handlers[0].Accepted? && s.handlers[0].request.Resume?
    ensures Inv(trial, HandlerStep(trial, s, 0, noise))
  {
    hide React, ApplyEdits, Replay, Advance;
    var t := HandlerStep(trial, s, 0, noise);
    assert t == s.(handlers := t.handlers, panel := t.panel);
    assert t.handlers.Keys <= {0};
    assert Slot(t) == Some(t.handlers[0]);
  }

  /** Answering a status request or a read, or accepting a resume. */
  lemma ServeKeeps(trial: Trial, s: State, noise: Option<Int32>)
    requires Inv(trial, s) && 0 in s.handlers && s.handlers[0].Accepted? && !s.handlers[0].request.Change?
    ensures Inv(trial, HandlerStep(trial, s, 0, noise))
  {
    hide React, ApplyEdits, ApplyEdit, Replay, Advance, ReadNow;
    if s.handlers[0].request.Read? {
      ReadKeeps(trial, s, noise);
    } else if s.handlers[0].request.Resume? {
      AcceptKeeps(trial, s, noise);
    } else {
      var t := HandlerStep(trial, s, 0, noise);
      assert t == s.(handlers := t.handlers);
      assert t.handlers.Keys <= {0};
      assert Slot(t) == Some(t.handlers[0]);
    }
  }

  lemma ChangeKeeps(trial: Trial, s: State, noise: Option<Int32>)
    requires Inv(trial, s) && 0 in s.handlers && s.handlers[0].Accepted? && s.handlers[0].request.Change?
    ensures Inv(trial, HandlerStep(trial, s, 0, noise))
  {
    hide React, ApplyEdit, Replay, Advance;
    var t := HandlerStep(trial, s, 0, noise);
    var edit := s.handlers[0].request.edit;
    assert Waiting(s) && Slot(t) == Some(Replying(Ack));
    assert t.edits == s.edits + [edit] && t.edits[..|s.edits|] == s.edits;
  }

  lemma ResumeKeeps(trial: Trial, s: State, noise: Option<Int32>)
    requires Inv(trial, s) && 0 in s.handlers && (s.handlers[0].ClearFlag? || s.handlers[0].Unlock?)
    ensures Inv(trial, HandlerStep(trial, s, 0, noise))
  {
    hide React, ApplyEdits, Replay, Advance;
    var t := HandlerStep(trial, s, 0, noise);
    assert Slot(t) == Some(t.handlers[0]);
    assert Leaving(s);
  }

  lemma SubmitKeeps(trial: Trial, s: State, request: Request)
    requires Inv(trial, s) && Enabled(s, Submit(0, request)) && Polite(s, Submit(0, request))
    ensures Inv(trial, SubmitStep(s, 0, request))
  {
    hide React, ApplyEdits, Advance;
    var t := SubmitStep(s, 0, request);
    assert Slot(s) == None && Slot(t) == Some(Accepted(request));
    if request.Resume? {
      assert t.commands[..|s.commands|] == s.commands;
      assert t.commands[|s.commands|] == Command(s.edits, request.step);
    }
  }

  lemma DeliverKeeps(trial: Trial, s: State)
    requires Inv(trial, s) && Enabled(s, Deliver(0))
    ensures Inv(trial, DeliverStep(s, 0))
  {
    hide React, ApplyEdits, Replay, Advance;
    var t := DeliverStep(s, 0);
    assert Slot(t) == None && Slot(s) == Some(s.handlers[0]);
  }

  lemma StepKeeps(trial: Trial, s: State, l: Label)
    requires Inv(trial, s) && Enabled(s, l) && Polite(s, l)
    ensures Inv(trial, Step(trial, s, l))
  {
    match l
    case Sim => SimKeeps(trial, s);
    case Finish =>
    case Handle(h, noise) =>
      match s.handlers[0] {
        case Accepted(request) =>
          if request.Change? {
            ChangeKeeps(trial, s, noise);
          } else {
            ServeKeeps(trial, s, noise);
          }
        case _ => ResumeKeeps(trial, s, noise);
      }
    case Submit(h, request) => SubmitKeeps(trial, s, request);
    case Deliver(h) => DeliverKeeps(trial, s);
  }

  lemma {:induction false} InvRun(trial: Trial, labels: seq<Label>, s: State)
    requires Run(trial, true, START, labels) == Some(s)
    ensures Inv(trial, s)
  {
    if labels == [] {
      assert Slot(START) == None;
    } else {
      var before, l := Run(trial, true, START, labels[..|labels| - 1]).value, labels[|labels| - 1];
      InvRun(trial, labels[..|labels| - 1], before);
      StepKeeps(trial, before, l);
    }
  }

  lemma ReachableInv(trial: Trial, s: State)
    requires Reachable(trial, true, s)
    ensures Inv(trial, s)
  {
    var labels :| Run(trial, true, START, labels) == Some(s);
    InvRun(trial, labels, s);
  }

  // ---------------------------------------------------------------- refinement

  /**
   Every interleaving makes the pauses of the sequential debugger over the commands the client gave: all
   of them once the simulation is over or a pause is known, and all but the one to come in between.
   */
  lemma SessionIsSequential(trial: Trial, s: State)
    requires Reachable(trial, true, s)
    ensures var r := Replay(trial, s.commands);
      && s.pauses <= r.pauses && |r.pauses| <= |s.pauses| + 1
      && (s.sim == Done ==> r == Ended(s.pauses, s.panel))
      && (s.sim == Dead ==> r == Crashed(s.pauses))
      && (s.known ==> r.Stopped? && r.pauses == s.pauses && r.pos == s.pos
                      && s.panel == ApplyEdits(trial.site, r.panel, s.edits))
  {
    ReachableInv(trial, s);
    hide React, ApplyEdits;
    assert s.sim == Boot ==> s.pauses == [] && Replay(trial, []).pauses == [0];
  }

  /** A client none of whose inserts poisons a breakpoint never sees the simulator die. */
  lemma PoisonFreeSessionNeverDies(trial: Trial, s: State)
    requires Reachable(trial, true, s) && PoisonFreeCommands(trial, s.commands)
    ensures s.sim != Dead
  {
    SessionIsSequential(trial, s);
    ReplayKeepsValid(trial, s.commands);
  }

  /**
   Two simulations of one trial, one driven by `continue` alone and one by `step_over` alone: whatever the
   edits at start-up and the interleavings, continuing pauses at exactly those stepping pauses that are
   breakpoints, and the one dies where the other does.
   */
  lemma SteppingCoversContinuingInRuns(trial: Trial, edits: seq<Edit>, n: nat, m: nat, s: State, t: State)
    requires Reachable(trial, true, s) && Over(s) && s.commands == Uniform(edits, false, n)
    requires Reachable(trial, true, t) && Over(t) && t.commands == Uniform(edits, true, m)
    ensures s.sim == t.sim
    ensures s.pauses != [] && t.pauses != []
    ensures s.pauses[1..] ==
      AtBreakPoints(trial, ApplyEdits(trial.site, INITIAL, edits).tables.breakPoints, t.pauses[1..])
  {
    hide React, ApplyEdits, Replay, AtBreakPoints;
    SessionIsSequential(trial, s);
    SessionIsSequential(trial, t);
    SteppingCoversContinuing(trial, edits, n, m);
  }

  // -------------------------------------------------------------- status truth

  /**
   "Paused" is reported, and known, only while the simulator waits inside `pause_sim` for a resume that
   was not sent yet; the pause it belongs to is the one numbered by the resumes so far.
   */
  lemma StatusIsTrue(trial: Trial, s: State)
    requires Reachable(trial, true, s)
    requires s.known || Slot(s) == Some(Replying(StatusIs(true)))
    ensures s.sim == AtLock && s.paused && !s.free
    ensures s.completed == |s.commands| == |s.pauses| - 1 && s.pauses[|s.commands|] == s.pos
  {
    ReachableInv(trial, s);
    PausePerCommand(trial, s.commands);
  }

  /** No release is wasted on a free semaphore, so takes and releases balance at every moment. */
  lemma {:induction false} LockIsBalanced(trial: Trial, labels: seq<Label>, s: State)
    requires Run(trial, true, START, labels) == Some(s)
    ensures Count(s.log, Locked) + (if s.free then 1 else 0) == Count(s.log, Unlocked) + 1
  {
    if labels != [] {
      var before, l := Run(trial, true, START, labels[..|labels| - 1]).value, labels[|labels| - 1];
      LockIsBalanced(trial, labels[..|labels| - 1], before);
      InvRun(trial, labels[..|labels| - 1], before);
      ReleaseIsNeeded(trial, before, l);
      StepOnLock(trial, before, l);
      BalanceStep(before, s);
    }
  }

  lemma ReleaseIsNeeded(trial: Trial, s: State, l: Label)
    requires Inv(trial, s) && Enabled(s, l)
    ensures var t := Step(trial, s, l); Releases(s, t) ==> !s.free
  {
    hide React, ApplyEdits, Replay, Advance, ReadNow;
    var t := Step(trial, s, l);
    match l
    case Sim => SimOnLock(trial, s);
    case Handle(h, noise) => HandlerOnLock(trial, s, h, noise);
    case Finish =>
    case Submit(h, request) => assert t.log == s.log && |s.log + [Unlocked]| != |s.log|;
    case Deliver(h) => assert t.log == s.log && |s.log + [Unlocked]| != |s.log|;
  }

  lemma BalanceStep(s: State, t: State)
    requires Quiet(s, t) || Takes(s, t) || (Releases(s, t) && !s.free)
    requires Count(s.log, Locked) + (if s.free then 1 else 0) == Count(s.log, Unlocked) + 1
    ensures Count(t.log, Locked) + (if t.free then 1 else 0) == Count(t.log, Unlocked) + 1
  {
    CountSnoc(s.log, Locked, Locked);
    CountSnoc(s.log, Locked, Unlocked);
    CountSnoc(s.log, Unlocked, Locked);
    CountSnoc(s.log, Unlocked, Unlocked);
  }

  /** The pauses of a session come at later and later events. */
  lemma {:induction false} PausesIncrease(trial: Trial, commands: seq<Command>)
    ensures var ps := Replay(trial, commands).pauses; forall i, j :: 0 <= i < j < |ps| ==> ps[i] < ps[j]
    ensures forall k :: 0 <= k <= |commands| ==>
      Replay(trial, commands[..k]).pauses <= Replay(trial, commands).pauses
  {
    if commands == [] {
      assert commands[..0] == [];
    } else {
      var init := commands[..|commands| - 1];
      PausesIncrease(trial, init);
      PausePerCommand(trial, init);
      forall k | 0 <= k <= |commands|
        ensures Replay(trial, commands[..k]).pauses <= Replay(trial, commands).pauses
      {
        if k == |commands| {
          assert commands[..k] == commands;
        } else {
          assert init[..k] == commands[..k];
        }
      }
    }
  }

  lemma {:induction false} CommandsGrow(trial: Trial, s: State, labels: seq<Label>, t: State)
    requires Run(trial, true, s, labels) == Some(t)
    ensures s.commands <= t.commands
  {
    if labels != [] {
      var before, l := Run(trial, true, s, labels[..|labels| - 1]).value, labels[|labels| - 1];
      CommandsGrow(trial, s, labels[..|labels| - 1], before);
      CommandsKept(trial, before, l);
    }
  }

  lemma CommandsKept(trial: Trial, s: State, l: Label)
    requires Enabled(s, l)
    ensures s.commands <= Step(trial, s, l).commands
  {
    hide React, ApplyEdit, ReadNow;
    match l
    case Sim => SimKeepsCommands(trial, s);
    case Handle(h, noise) => HandlerKeepsCourse(trial, s, h, noise);
    case _ =>
  }

  lemma SimKeepsCommands(trial: Trial, s: State)
    requires SimReady(s)
    ensures SimStep(trial, s).commands == s.commands
  {
    hide React;
    match s.sim
    case Running => if s.pos < |trial.trace| { assert NextEvent(trial, s).commands == s.commands; }
    case _ =>
  }

  lemma {:induction false} RunIsReachable(trial: Trial, s: State, labels: seq<Label>, t: State)
    requires Reachable(trial, true, s) && Run(trial, true, s, labels) == Some(t)
    ensures Reachable(trial, true, t)
  {
    if labels != [] {
      var before := Run(trial, true, s, labels[..|labels| - 1]).value;
      RunIsReachable(trial, s, labels[..|labels| - 1], before);
      StepIsReachable(trial, true, before, labels[|labels| - 1]);
    }
  }

  /**
   What the client learns depends on its commands alone: in two sessions of one trial, one having given the
   commands of the other and more, the pauses known are the same ones and then one more per command, each
   at a later event.
   */
  lemma PausesFollowCommands(trial: Trial, s: State, t: State)
    requires Reachable(trial, true, s) && Reachable(trial, true, t)
    requires s.known && t.known && s.commands <= t.commands
    ensures s.pauses <= t.pauses && |t.pauses| - |s.pauses| == |t.commands| - |s.commands|
    ensures if s.commands == t.commands then s.pos == t.pos else s.pos < t.pos
  {
    SessionIsSequential(trial, s);
    SessionIsSequential(trial, t);
    StatusIsTrue(trial, s);
    StatusIsTrue(trial, t);
    PausesIncrease(trial, t.commands);
    assert t.commands[..|s.commands|] == s.commands;
  }

  /** "Paused" after a resume is a strictly later pause, one per resume; without a resume it is the same. */
  lemma PausedAgainIsLater(trial: Trial, s: State, labels: seq<Label>, t: State)
    requires Reachable(trial, true, s) && Run(trial, true, s, labels) == Some(t)
    requires s.known && t.known
    ensures s.pauses <= t.pauses && |t.pauses| - |s.pauses| == |t.commands| - |s.commands|
    ensures if s.commands == t.commands then s.pos == t.pos else s.pos < t.pos
  {
    RunIsReachable(trial, s, labels, t);
    CommandsGrow(trial, s, labels, t);
    PausesFollowCommands(trial, s, t);
  }

  // ------------------------------------------------------------------ snapshot

  /**
   Everything read between a "Paused" reply and the next resume shows one and the same state of the design,
   even if the simulator had not come to the lock call yet: the signals as the event that pauses found them,
   or as they were at start-up.
   */
  lemma SnapshotIsConsistent(trial: Trial, s: State)
    requires Reachable(trial, true, s) && s.known
    ensures s.pauses != [] && s.pauses[|s.pauses| - 1] <= |trial.trace|
    ensures var pause := s.pauses[|s.pauses| - 1];
      forall k :: 0 <= k < |s.samples| ==>
        s.samples[k].value == GetValue(trial.site.top,
          if pause == 0 then trial.start else trial.trace[pause - 1].signals, s.samples[k].name)
  {
    hide React, ApplyEdits, Replay, Agrees, GetValue;
    ReachableInv(trial, s);
    StatusIsTrue(trial, s);
    PlaceInTrace(trial, s);
  }

  lemma PlaceInTrace(trial: Trial, s: State)
    requires Inv(trial, s)
    ensures s.pos <= |trial.trace|
  {
  }

  /**
   At a pause behind start-up the client reads exactly the signals that its last command decided to pause
   on: those of an event that the settings of that command want.
   */
  lemma ReadsWhatWasDecided(trial: Trial, s: State)
    requires Reachable(trial, true, s) && s.known && s.commands != []
    ensures var init, last := s.commands[..|s.commands| - 1], s.commands[|s.commands| - 1];
      && Replay(trial, init).Stopped? && Replay(trial, init).pos < s.pos <= |trial.trace|
      && var event := trial.trace[s.pos - 1];
        && Wants(trial.site, SettingsFor(trial, Replay(trial, init), last), event)
        && !Breaks(trial.site, SettingsFor(trial, Replay(trial, init), last), event)
        && forall k :: 0 <= k < |s.samples| ==>
             s.samples[k].value == GetValue(trial.site.top, event.signals, s.samples[k].name)
  {
    hide React, Advance, ApplyEdits, Wants, Breaks, Inv;
    var init, last := s.commands[..|s.commands| - 1], s.commands[|s.commands| - 1];
    assert init + [last] == s.commands;
    SessionIsSequential(trial, s);
    StatusIsTrue(trial, s);
    SnapshotIsConsistent(trial, s);
    var end := CommandRunsToLeast(trial, init, last);
  }
}
