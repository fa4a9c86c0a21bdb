/**
 Progress with a disciplined client.  For every such client the simulator's steps and those of its resumes
 bring the end nearer, and no other step takes it further away.  For a client that makes only so many
 inquiries per pause, every step counts but those made while the simulator moves anyway.
 */
module Progress {
  import opened Options
  import opened Handles
  import opened Stepping
  import opened Protocol
  import opened Disciplined

  // ----------------------------------------------------- every disciplined client

  /** What the resume of the pause under way has left to do. */
  function Stage(s: State): nat {
    if s.free then 1
    else
      match Slot(s)
      case Some(Accepted(Resume(_))) => 4
      case Some(ClearFlag) => 3
      case Some(Unlock) => 2
      case _ => 5
  }

  /** Events left first, then the simulator's step, then the resume's. */
  function Measure(trial: Trial, s: State): nat
    requires s.pos <= |trial.trace|
  {
    if Over(s) then 0
    else
      8 * (|trial.trace| - s.pos) +
      match s.sim
      case Boot => 12
      case AtPost => 12
      case AtFlag => 11
      case AtLock => 5 + Stage(s)
      case Running => 5
      case TearPost => 4
      case TearFlag => 3
      case TearUnlock => 2
      case _ => 1
  }

  /** The handler has a resume to carry out. */
  predicate Resuming(slot: Option<Handler>) {
    match slot
    case Some(Accepted(request)) => request.Resume?
    case Some(ClearFlag) => true
    case Some(Unlock) => true
    case _ => false
  }

  /** A step of the simulator, or of a resume up to its release. */
  predicate Advances(s: State, l: Label) {
    match l
    case Submit(_, request) => request.Resume?
    case Handle(_, _) => Resuming(Slot(s))
    case Deliver(_) => false
    case _ => true
  }

  lemma SimDrops(trial: Trial, s: State)
    requires Inv(trial, s) && SimReady(s)
    ensures Inv(trial, SimStep(trial, s))
    ensures Measure(trial, SimStep(trial, s)) < Measure(trial, s)
  {
    hide React, ApplyEdits, Replay, Advance;
    SimKeeps(trial, s);
    var t := SimStep(trial, s);
    assert Slot(t) == Slot(s);
    match s.sim
    case Running =>
      if s.pos < |trial.trace| {
        assert NextEvent(trial, s).pos == s.pos + 1 || NextEvent(trial, s).sim == Dead;
      }
    case _ =>
  }

  /** The other threads leave the simulator where it is. */
  lemma OthersKeepPlace(trial: Trial, s: State, l: Label)
    requires Inv(trial, s) && Enabled(s, l) && Polite(s, l) && l != Sim
    ensures var t := Step(trial, s, l); t.sim == s.sim && t.pos == s.pos
  {
    hide React, ApplyEdits, ApplyEdit, Replay, Advance, ReadNow;
  }

  lemma StageDrops(trial: Trial, s: State, l: Label)
    requires Inv(trial, s) && Enabled(s, l) && Polite(s, l) && l != Sim
    ensures Stage(Step(trial, s, l)) == Stage(s) - (if Advances(s, l) then 1 else 0)
    ensures Advances(s, l) ==> s.sim == AtLock
  {
    hide React, ApplyEdits, ApplyEdit, Replay, Advance, ReadNow, Agrees, SamplesFit, HandlerStep;
    var t := Step(trial, s, l);
    match l
    case Finish =>
    case Handle(h, noise) => StageHandled(trial, s, noise);
    case Submit(h, request) => assert Slot(s) == None && Slot(t) == Some(Accepted(request));
    case Deliver(h) => assert Slot(t) == None && Slot(s) == Some(s.handlers[0]);
  }

  lemma SlotServed(trial: Trial, s: State, request: Request, noise: Option<Int32>)
    requires 0 in s.handlers
    ensures var t := Serve(trial, s, 0, request, noise);
      && t.sim == s.sim && t.free == s.free && 0 in t.handlers
      && if request.Resume? || request.Stop? then t.handlers[0] == ClearFlag else t.handlers[0].Replying?
  {
    hide ApplyEdit, ReadNow;
    ServeOnLock(trial, s, 0, request, noise);
  }

  lemma StageHandled(trial: Trial, s: State, noise: Option<Int32>)
    requires Inv(trial, s) && 0 in s.handlers && !s.handlers[0].Replying?
    ensures Stage(HandlerStep(trial, s, 0, noise)) == Stage(s) - (if Resuming(Slot(s)) then 1 else 0)
    ensures Resuming(Slot(s)) ==> s.sim == AtLock
  {
    hide Serve, Agrees, SamplesFit;
    var t := HandlerStep(trial, s, 0, noise);
    if s.handlers[0].Accepted? {
      SlotServed(trial, s, s.handlers[0].request, noise);
    }
    assert Slot(t) == Some(t.handlers[0]) && Slot(s) == Some(s.handlers[0]);
  }

  /** No step of a disciplined client's run takes the end further away, and these bring it nearer. */
  lemma MeasureDrops(trial: Trial, s: State, l: Label)
    requires Inv(trial, s) && Enabled(s, l) && Polite(s, l)
    ensures Inv(trial, Step(trial, s, l))
    ensures Measure(trial, Step(trial, s, l)) + (if Advances(s, l) then 1 else 0) <= Measure(trial, s)
  {
    hide Stage, Inv, SimStep, SimReady;
    if l == Sim {
      SimDrops(trial, s);
    } else {
      StepKeeps(trial, s, l);
      OthersKeepPlace(trial, s, l);
      StageDrops(trial, s, l);
    }
  }

  /** The steps of a run that advance it. */
  function Advancing(trial: Trial, labels: seq<Label>): nat
    requires Run(trial, true, START, labels).Some?
  {
    if labels == [] then 0
    else
      var init, l := labels[..|labels| - 1], labels[|labels| - 1];
      Advancing(trial, init) + (if Advances(Run(trial, true, START, init).value, l) then 1 else 0)
  }

  /**
   Every session of a disciplined client, in every interleaving, makes at most eight advancing steps per
   event and twelve more, and is over when none is left.
   */
  lemma {:induction false} SessionEnds(trial: Trial, labels: seq<Label>)
    requires Run(trial, true, START, labels).Some?
    ensures var t := Run(trial, true, START, labels).value;
      && Inv(trial, t)
      && Advancing(trial, labels) + Measure(trial, t) <= 8 * |trial.trace| + 12
      && (Measure(trial, t) == 0 <==> Over(t))
  {
    if labels == [] {
      StartIsReachable(trial, true);
      ReachableInv(trial, START);
    } else {
      var init, l := labels[..|labels| - 1], labels[|labels| - 1];
      SessionEnds(trial, init);
      MeasureDrops(trial, Run(trial, true, START, init).value, l);
    }
  }

  /** The requests of a run that are no resumes. */
  function Inquiries(labels: seq<Label>): nat {
    if labels == [] then 0
    else
      var l := labels[|labels| - 1];
      Inquiries(labels[..|labels| - 1]) + (if l.Submit? && !l.request.Resume? then 1 else 0)
  }

  /** The steps the request in flight still takes, up to its reply, that do not advance the session. */
  function Errand(s: State): nat {
    match Slot(s)
    case None => 0
    case Some(Accepted(request)) => if request.Resume? then 1 else 2
    case Some(_) => 1
  }

  lemma ErrandSteps(trial: Trial, s: State, l: Label)
    requires Inv(trial, s) && Enabled(s, l) && Polite(s, l)
    ensures var t := Step(trial, s, l);
      && Errand(t) + (if Advances(s, l) then 0 else 1)
         <= Errand(s) + (if l.Submit? then if l.request.Resume? then 1 else 3 else 0)
      && |t.commands| == |s.commands| + (if l.Submit? && l.request.Resume? then 1 else 0)
  {
    hide React, ApplyEdits, ApplyEdit, Replay, Advance, ReadNow;
    var t := Step(trial, s, l);
    match l
    case Sim =>
      SimKeepsCommands(trial, s);
      SimKeepsHandlers(trial, s);
    case Finish =>
    case Handle(h, noise) =>
      HandlerKeepsCourse(trial, s, h, noise);
      assert Slot(t) == Some(t.handlers[0]) && Slot(s) == Some(s.handlers[0]);
    case Submit(h, request) => assert Slot(s) == None && Slot(t) == Some(Accepted(request));
    case Deliver(h) => assert Slot(t) == None && Slot(s) == Some(s.handlers[0]);
  }

  lemma SimKeepsHandlers(trial: Trial, s: State)
    requires SimReady(s)
    ensures SimStep(trial, s).handlers == s.handlers
  {
    hide NextEvent;
    if s.sim == Running && s.pos < |trial.trace| {
      EventKeepsHandlers(trial, s);
    }
  }

  lemma EventKeepsHandlers(trial: Trial, s: State)
    requires s.pos < |trial.trace|
    ensures NextEvent(trial, s).handlers == s.handlers
  {
    hide React;
  }

  /** A session has no more commands than it has events, and one. */
  lemma CommandsBounded(trial: Trial, s: State)
    requires Inv(trial, s)
    ensures |s.commands| <= |trial.trace| + 1
  {
    PausesFit(trial, s.commands);
    PausePerCommand(trial, s.commands);
  }

  /** The pauses of the sequential debugger are different events of the trace, or the start. */
  lemma {:induction false} PausesFit(trial: Trial, commands: seq<Command>)
    ensures var ps := Replay(trial, commands).pauses;
      && |ps| <= |trial.trace| + 1
      && forall k :: 0 <= k < |ps| ==> k <= ps[k] <= |trial.trace|
  {
    if commands != [] {
      var init := commands[..|commands| - 1];
      PausesFit(trial, init);
      PausePerCommand(trial, init);
      assert Replay(trial, commands) == Obey(trial, Replay(trial, init), commands[|commands| - 1]);
    }
  }

  /** So a session is as long as its client's inquiries make it, and no longer. */
  lemma {:induction false} SessionLength(trial: Trial, labels: seq<Label>)
    requires Run(trial, true, START, labels).Some?
    ensures |labels| <= 9 * |trial.trace| + 13 + 3 * Inquiries(labels)
  {
    StepsAccounted(trial, labels);
    var t := Run(trial, true, START, labels).value;
    InvRun(trial, labels, t);
    CommandsBounded(trial, t);
  }

  lemma {:induction false} StepsAccounted(trial: Trial, labels: seq<Label>)
    requires Run(trial, true, START, labels).Some?
    ensures var t := Run(trial, true, START, labels).value;
      && Inv(trial, t)
      && |labels| + Measure(trial, t) + Errand(t)
         <= 8 * |trial.trace| + 12 + 3 * Inquiries(labels) + |t.commands|
  {
    if labels == [] {
      StartIsReachable(trial, true);
      ReachableInv(trial, START);
    } else {
      var init, l := labels[..|labels| - 1], labels[|labels| - 1];
      var s := Run(trial, true, START, init).value;
      StepsAccounted(trial, init);
      MeasureDrops(trial, s, l);
      ErrandSteps(trial, s, l);
    }
  }

  // ------------------------------------------- a client with a quota of inquiries

  datatype Thread = SimThread | HandlerThread | ClientThread

  /** The thread that has to move for the session to go on. */
  function Needs(s: State): Thread {
    if !Over(s) && !Waiting(s) && !Leaving(s) then SimThread
    else if Slot(s).None? || Slot(s).value.Replying? then ClientThread
    else HandlerThread
  }

  /** A handler or client step made while the simulator needs neither. */
  predicate Idle(s: State, l: Label) {
    l != Sim && Needs(s) == SimThread
  }

  /** What is left of the inquiries after a step: a resume renews them, and polling for a pause is free. */
  function Left(s: State, l: Label, quota: nat, k: int): int {
    if !l.Submit? || (l.request.Status? && !s.known) then k
    else if l.request.Resume? then quota
    else k - 1
  }

  /** The steps of the pause under way, with `k` inquiries left. */
  function Rank(s: State, k: nat): nat {
    if s.free then 1
    else
      match Slot(s)
      case None => (if s.known then 5 else 8) + 3 * k
      case Some(ClearFlag) => 3
      case Some(Unlock) => 2
      case Some(Accepted(request)) =>
        if request.Resume? then 4
        else (if s.known || request.Status? then 7 else 10) + 3 * k
      case Some(Replying(reply)) => (if s.known || reply == StatusIs(true) then 6 else 9) + 3 * k
  }

  /** The steps that `n` events take at most. */
  function ForEvents(n: nat, quota: nat): nat {
    if n == 0 then 0 else ForEvents(n - 1, quota) + 13 + 3 * quota
  }

  /** The steps left, idle ones excepted. */
  function Work(trial: Trial, s: State, quota: nat, k: nat): nat
    requires s.pos <= |trial.trace|
  {
    if Over(s) then Errand(s) + k
    else
      ForEvents(|trial.trace| - s.pos, quota) + 2 + quota +
      match s.sim
      case Boot => 17 + 3 * quota
      case AtPost => 17 + 3 * quota
      case AtFlag => 16 + 3 * quota
      case AtLock => 5 + Rank(s, k)
      case Running => 5
      case TearPost => 4
      case TearFlag => 3
      case TearUnlock => 2
      case _ => 1
  }

  /** An event is one less to come, whether it pauses or kills. */
  lemma EventWorks(trial: Trial, s: State, quota: nat, k: nat)
    requires Inv(trial, s) && s.sim == Running && s.pos < |trial.trace| && k <= quota
    ensures var t := NextEvent(trial, s);
      && t.pos <= |trial.trace|
      && Work(trial, t, quota, k) < Work(trial, s, quota, k)
  {
    hide React, ApplyEdits, Replay, Advance, Agrees, SamplesFit;
    var t := NextEvent(trial, s);
    EventKeepsHandlers(trial, s);
    assert Errand(t) == Errand(s) <= 2;
    assert t.pos == s.pos + 1 || t.sim == Dead;
    assert |trial.trace| - (s.pos + 1) == |trial.trace| - s.pos - 1;
  }

  lemma SimWorks(trial: Trial, s: State, quota: nat, k: nat)
    requires Inv(trial, s) && SimReady(s) && k <= quota
    ensures Needs(s) == SimThread
    ensures Inv(trial, SimStep(trial, s))
    ensures Work(trial, SimStep(trial, s), quota, k) < Work(trial, s, quota, k)
  {
    hide React, ApplyEdits, Replay, Advance, NextEvent, SamplesFit;
    SimKeeps(trial, s);
    hide Agrees;
    if s.sim == Running && s.pos < |trial.trace| {
      EventWorks(trial, s, quota, k);
    } else {
      var t := SimStep(trial, s);
      assert Slot(t) == Slot(s);
    }
  }

  /** Handler and client steps that the session needs. */
  lemma RankDrops(trial: Trial, s: State, l: Label, quota: nat, k: nat)
    requires Inv(trial, s) && Enabled(s, l) && Polite(s, l) && 0 <= Left(s, l, quota, k)
    requires l != Sim && (Waiting(s) || Leaving(s))
    ensures var t := Step(trial, s, l);
      t.sim == AtLock && t.pos == s.pos && Rank(t, Left(s, l, quota, k)) < Rank(s, k)
  {
    hide React, ApplyEdits, ApplyEdit, Replay, Advance, ReadNow;
    var t := Step(trial, s, l);
    match l
    case Finish =>
    case Handle(h, noise) => assert Slot(t) == Some(t.handlers[0]) && Slot(s) == Some(s.handlers[0]);
    case Submit(h, request) => assert Slot(s) == None && Slot(t) == Some(Accepted(request));
    case Deliver(h) => assert Slot(t) == None && Slot(s) == Some(s.handlers[0]);
  }

  /** The rest of an errand once the simulation is over. */
  lemma LastErrand(trial: Trial, s: State, l: Label)
    requires Inv(trial, s) && Enabled(s, l) && Polite(s, l) && Over(s)
    ensures var t := Step(trial, s, l);
      t.sim == s.sim && t.pos == s.pos && Errand(t) < Errand(s) && !l.Submit?
  {
    hide React, ApplyEdits, ApplyEdit, Replay, Advance, ReadNow;
    var t := Step(trial, s, l);
    match l
    case Handle(h, noise) => assert Slot(t) == Some(t.handlers[0]) && Slot(s) == Some(s.handlers[0]);
    case Deliver(h) => assert Slot(t) == None && Slot(s) == Some(s.handlers[0]);
    case _ =>
  }

  lemma IdleKeeps(trial: Trial, s: State, l: Label)
    requires Inv(trial, s) && Enabled(s, l) && Polite(s, l) && Idle(s, l)
    ensures var t := Step(trial, s, l);
      && t.sim == s.sim && t.pos == s.pos && t.free == s.free && Needs(t) == SimThread
      && (s.sim == AtLock ==> s.free)
  {
    hide React, ApplyEdits, ApplyEdit, Replay, Advance, ReadNow;
  }

  /** Every step brings the end nearer, idle steps excepted. */
  lemma WorkDrops(trial: Trial, s: State, l: Label, quota: nat, k: nat)
    requires Inv(trial, s) && Enabled(s, l) && Polite(s, l)
    requires k <= quota && 0 <= Left(s, l, quota, k)
    ensures var t, k' := Step(trial, s, l), Left(s, l, quota, k);
      && Inv(trial, t)
      && Work(trial, t, quota, k') + (if Idle(s, l) then 0 else 1) <= Work(trial, s, quota, k)
  {
    hide React, ApplyEdits, ApplyEdit, Replay, Advance, ReadNow, Errand, Agrees, HandlerStep;
    if l == Sim {
      SimWorks(trial, s, quota, k);
    } else {
      StepKeeps(trial, s, l);
      if Over(s) {
        LastErrand(trial, s, l);
      } else if Idle(s, l) {
        IdleKeeps(trial, s, l);
      } else {
        RankDrops(trial, s, l, quota, k);
      }
    }
  }

  /** The inquiries left after a run; negative once the quota was exceeded. */
  function QuotaLeft(trial: Trial, quota: nat, labels: seq<Label>): int
    requires Run(trial, true, START, labels).Some?
  {
    if labels == [] then quota
    else
      var init := labels[..|labels| - 1];
      Left(Run(trial, true, START, init).value, labels[|labels| - 1], quota, QuotaLeft(trial, quota, init))
  }

  /** At no moment of the run is the quota exceeded. */
  predicate Frugal(trial: Trial, quota: nat, labels: seq<Label>)
    requires Run(trial, true, START, labels).Some?
  {
    labels == [] || (Frugal(trial, quota, labels[..|labels| - 1]) && 0 <= QuotaLeft(trial, quota, labels))
  }

  /** The steps of a run that are not idle. */
  function Productive(trial: Trial, labels: seq<Label>): nat
    requires Run(trial, true, START, labels).Some?
  {
    if labels == [] then 0
    else
      var init, l := labels[..|labels| - 1], labels[|labels| - 1];
      Productive(trial, init) + (if Idle(Run(trial, true, START, init).value, l) then 0 else 1)
  }

  lemma {:induction false} ForEventsIsProduct(n: nat, quota: nat)
    ensures ForEvents(n, quota) == n * (13 + 3 * quota)
  {
    if n > 0 {
      ForEventsIsProduct(n - 1, quota);
    }
  }

  /** The steps of a whole session over `n` events at most, idle ones excepted. */
  function Bound(n: nat, quota: nat): nat {
    n * (13 + 3 * quota) + 19 + 4 * quota
  }

  /**
   A client that makes at most `quota` inquiries between two resumes, polling for a pause not counted, has
   a session of so many steps besides idle ones, in every interleaving.
   */
  lemma {:induction false} FrugalSessionEnds(trial: Trial, quota: nat, labels: seq<Label>)
    requires Run(trial, true, START, labels).Some? && Frugal(trial, quota, labels)
    ensures var t, k := Run(trial, true, START, labels).value, QuotaLeft(trial, quota, labels);
      && Inv(trial, t) && 0 <= k <= quota
      && Productive(trial, labels) + Work(trial, t, quota, k) <= Bound(|trial.trace|, quota)
  {
    hide Bound;
    if labels == [] {
      StartIsReachable(trial, true);
      ReachableInv(trial, START);
      StartWork(trial, quota);
    } else {
      hide Work, Inv, Step;
      var init, l := labels[..|labels| - 1], labels[|labels| - 1];
      FrugalSessionEnds(trial, quota, init);
      WorkDrops(trial, Run(trial, true, START, init).value, l, quota, QuotaLeft(trial, quota, init));
    }
  }

  lemma StartWork(trial: Trial, quota: nat)
    ensures Work(trial, START, quota, quota) == Bound(|trial.trace|, quota)
  {
    ForEventsIsProduct(|trial.trace|, quota);
  }

  // --------------------------------------------------------------- no deadlock

  /** A step that the session needs: the simulator's if it has one, else the pause's next. */
  function NextLabel(s: State, step: bool): Label {
    if Needs(s) == SimThread then Sim
    else
      match Slot(s)
      case None => Submit(0, if s.known then Resume(step) else Status)
      case Some(Replying(_)) => Deliver(0)
      case Some(_) => Handle(0, None)
  }

  /** No state before the end is stuck. */
  lemma NeverStuck(trial: Trial, s: State, step: bool)
    requires Inv(trial, s) && !Over(s)
    ensures var l := NextLabel(s, step);
      Enabled(s, l) && Polite(s, l) && !Idle(s, l) && Left(s, l, 0, 0) == 0
  {
    hide React, ApplyEdits, Replay, Advance;
    assert Slot(s) == None ==> s.handlers == map[] by {
      if Slot(s) == None { assert s.handlers.Keys == {}; }
    }
  }

  /** From every state a disciplined session reaches, it can be brought to its end. */
  lemma CanFinish(trial: Trial, s: State) returns (labels: seq<Label>, t: State)
    requires Reachable(trial, true, s)
    ensures Run(trial, true, s, labels) == Some(t) && Over(t)
    ensures Inv(trial, s) && |labels| <= Work(trial, s, 0, 0)
    decreases if Inv(trial, s) then Work(trial, s, 0, 0) else 0
  {
    ReachableInv(trial, s);
    if Over(s) {
      labels, t := [], s;
    } else {
      hide Work, Inv;
      var l := NextLabel(s, false);
      NeverStuck(trial, s, false);
      WorkDrops(trial, s, l, 0, 0);
      StepIsReachable(trial, true, s, l);
      var rest;
      rest, t := CanFinish(trial, Step(trial, s, l));
      labels := [l] + rest;
      RunCons(trial, s, l, rest);
    }
  }

  lemma {:induction false} RunCons(trial: Trial, s: State, l: Label, rest: seq<Label>)
    requires Enabled(s, l) && Polite(s, l)
    ensures Run(trial, true, s, [l] + rest) == Run(trial, true, Step(trial, s, l), rest)
  {
    hide Step, Enabled, Polite;
    if rest == [] {
      assert [l] + rest == [l] && [l][..0] == [];
    } else {
      var all := [l] + rest;
      assert all[..|all| - 1] == [l] + rest[..|rest| - 1];
      RunCons(trial, s, l, rest[..|rest| - 1]);
    }
  }
}
