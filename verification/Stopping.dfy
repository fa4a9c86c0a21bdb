/**
 Stopping the simulation, for any client: what `/stop` brings about, and how teardown runs once the
 simulator obeys.
 */
module Stopping {
  import opened Options
  import opened Handles
  import opened Stepping
  import opened Protocol

  /** Some handler carried out a request to stop in the run. */
  predicate StopServed(trial: Trial, s: State, labels: seq<Label>)
    requires Run(trial, false, s, labels).Some?
  {
    labels != [] &&
    var init, l := labels[..|labels| - 1], labels[|labels| - 1];
    StopServed(trial, s, init) || (l.Handle? && Run(trial, false, s, init).value.handlers[l.h] == Accepted(Stop))
  }

  /** The one step that orders the simulator to finish. */
  lemma OrderStep(trial: Trial, s: State, l: Label)
    requires Enabled(s, l)
    ensures Step(trial, s, l).finish <==> s.finish || (l.Handle? && s.handlers[l.h] == Accepted(Stop))
  {
    hide Serve, NextEvent;
    match l
    case Sim =>
      if s.sim == Running && s.pos < |trial.trace| {
        EventOrders(trial, s);
      }
    case Handle(h, noise) =>
      if s.handlers[h].Accepted? {
        ServeOrders(trial, s, h, s.handlers[h].request, noise);
      }
    case _ =>
  }

  lemma EventOrders(trial: Trial, s: State)
    requires s.pos < |trial.trace|
    ensures NextEvent(trial, s).finish == s.finish
  {
    hide React;
  }

  lemma ServeOrders(trial: Trial, s: State, h: nat, request: Request, noise: Option<Int32>)
    ensures Serve(trial, s, h, request, noise).finish <==> s.finish || request.Stop?
  {
    hide ApplyEdit, ReadNow;
  }

  /** The simulator is ordered to finish exactly when some handler carried out `/stop`, and for good. */
  lemma {:induction false} OrderedByStop(trial: Trial, s: State, labels: seq<Label>, t: State)
    requires Run(trial, false, s, labels) == Some(t)
    ensures t.finish <==> s.finish || StopServed(trial, s, labels)
  {
    if labels != [] {
      var before, l := Run(trial, false, s, labels[..|labels| - 1]).value, labels[|labels| - 1];
      OrderedByStop(trial, s, labels[..|labels| - 1], before);
      OrderStep(trial, before, l);
    }
  }

  /** For any client: between two events the simulator may finish exactly when a handler carried out `/stop`. */
  lemma FinishNeedsStop(trial: Trial, labels: seq<Label>, s: State)
    requires Run(trial, false, START, labels) == Some(s) && s.sim == Running
    ensures Enabled(s, Finish) <==> StopServed(trial, START, labels)
  {
    OrderedByStop(trial, START, labels, s);
  }

  /** How far teardown has come, in steps of the simulator. */
  function TearStage(sim: SimPc): int {
    match sim
    case TearPost => 0
    case TearFlag => 1
    case TearUnlock => 2
    case TearStop => 3
    case Done => 4
    case _ => -1
  }

  function SimSteps(labels: seq<Label>): nat {
    if labels == [] then 0
    else SimSteps(labels[..|labels| - 1]) + (if labels[|labels| - 1] == Sim then 1 else 0)
  }

  lemma TearStep(trial: Trial, s: State, l: Label)
    requires 0 <= TearStage(s.sim) && Enabled(s, l)
    ensures var t := Step(trial, s, l);
      && t.pos == s.pos && t.pauses == s.pauses && t.completed == s.completed
      && TearStage(t.sim) == TearStage(s.sim) + (if l == Sim then 1 else 0)
    ensures l == Sim ==> TearStage(s.sim) < 4
    ensures s.sim == TearFlag && l == Sim ==> !Step(trial, s, l).paused
    ensures s.sim == TearUnlock && l == Sim ==> Step(trial, s, l).free
    ensures l == Sim ==> (Step(trial, s, l).up <==> s.up && s.sim != TearStop)
  {
    hide HandlerStep, SimStep, TearStage;
    match l
    case Sim => TearSim(trial, s);
    case Handle(h, noise) => HandlerKeepsCourse(trial, s, h, noise);
    case Finish => NotTearing();
    case _ =>
  }

  lemma NotTearing()
    ensures TearStage(Running) == -1
  {
  }

  lemma TearSim(trial: Trial, s: State)
    requires 0 <= TearStage(s.sim) && SimReady(s)
    ensures var t := SimStep(trial, s);
      && t.pos == s.pos && t.pauses == s.pauses && t.completed == s.completed
      && TearStage(t.sim) == TearStage(s.sim) + 1 <= 4
      && (s.sim == TearFlag ==> !t.paused) && (s.sim == TearUnlock ==> t.free)
      && (t.up <==> s.up && s.sim != TearStop)
  {
    hide NextEvent, Lock;
    match s.sim
    case TearPost => assert SimStep(trial, s) == s.(sim := TearFlag);
    case TearFlag => assert SimStep(trial, s) == s.(sim := TearUnlock, paused := false);
    case TearUnlock => assert SimStep(trial, s) == Release(s).(sim := TearStop);
    case TearStop => assert SimStep(trial, s) == s.(sim := Done, up := false);
    case _ =>
  }

  /**
   For any client: from the moment the simulator finishes, by order or after its last event, no event and no
   pause begins any more, and the fourth step that it makes is its last; before that it can always go on.
   */
  lemma {:induction false} TeardownRuns(trial: Trial, s: State, labels: seq<Label>, t: State)
    requires s.sim == TearPost && Run(trial, false, s, labels) == Some(t)
    ensures t.pos == s.pos && t.pauses == s.pauses && t.completed == s.completed
    ensures SimSteps(labels) <= 4 && (t.sim == Done <==> SimSteps(labels) == 4)
    ensures t.sim != Done ==> Enabled(t, Sim)
  {
    TeardownStage(trial, s, labels, t);
  }

  lemma {:induction false} TeardownStage(trial: Trial, s: State, labels: seq<Label>, t: State)
    requires s.sim == TearPost && Run(trial, false, s, labels) == Some(t)
    ensures t.pos == s.pos && t.pauses == s.pauses && t.completed == s.completed
    ensures TearStage(t.sim) == SimSteps(labels)
  {
    if labels != [] {
      var before, l := Run(trial, false, s, labels[..|labels| - 1]).value, labels[|labels| - 1];
      TeardownStage(trial, s, labels[..|labels| - 1], before);
      TearStep(trial, before, l);
    }
  }

  lemma Go(trial: Trial, s: State, labels: seq<Label>, t: State, l: Label) returns (u: State)
    requires Run(trial, false, s, labels) == Some(t) && Enabled(t, l)
    ensures Run(trial, false, s, labels + [l]) == Some(u) && u == Step(trial, t, l)
  {
    assert (labels + [l])[..|labels|] == labels;
    u := Step(trial, t, l);
  }

  /** The simulator obeys an order to finish without another event, and comes to its end. */
  lemma ObeyAfter(trial: Trial, s: State, labels: seq<Label>, u: State) returns (all: seq<Label>, t: State)
    requires Run(trial, false, s, labels) == Some(u) && u.sim == Running && u.finish
    ensures Run(trial, false, s, all) == Some(t) && t.sim == Done
    ensures t.pos == u.pos && t.pauses == u.pauses && t.completed == u.completed
    ensures !t.up && !t.paused && t.free
  {
    t := Go(trial, s, labels, u, Finish);
    t := Go(trial, s, labels + [Finish], t, Sim);
    t := Go(trial, s, labels + [Finish] + [Sim], t, Sim);
    t := Go(trial, s, labels + [Finish] + [Sim] + [Sim], t, Sim);
    t := Go(trial, s, labels + [Finish] + [Sim] + [Sim] + [Sim], t, Sim);
    all := labels + [Finish] + [Sim] + [Sim] + [Sim] + [Sim];
  }

  /**
   A client that stops the simulation during a pause: the handler lowers the flag and releases the lock, the
   pause completes, and the simulation ends without another event.
   */
  lemma StopDuringPause(trial: Trial, s: State) returns (labels: seq<Label>, t: State)
    requires s.sim == AtLock && s.up && s.handlers == map[]
    ensures Run(trial, false, s, labels) == Some(t) && t.sim == Done
    ensures t.pos == s.pos && t.pauses == s.pauses && t.completed == s.completed + 1
  {
    var ask := [Submit(0, Stop)];
    var u := Go(trial, s, [], s, Submit(0, Stop));
    assert [] + [Submit(0, Stop)] == ask;
    u := Go(trial, s, ask, u, Handle(0, None));
    u := Go(trial, s, ask + [Handle(0, None)], u, Handle(0, None));
    u := Go(trial, s, ask + [Handle(0, None)] + [Handle(0, None)], u, Handle(0, None));
    labels := ask + [Handle(0, None)] + [Handle(0, None)] + [Handle(0, None)];
    assert u.free && u.finish && u.sim == AtLock && u.pos == s.pos && u.pauses == s.pauses;
    u := Go(trial, s, labels, u, Sim);
    labels := labels + [Sim];
    labels, t := ObeyAfter(trial, s, labels, u);
  }
}
