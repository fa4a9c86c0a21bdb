/**
 The pause/resume protocol of src/control.cc as a state machine: the simulator thread and any number of
 HTTP handlers, interleaved step by step over the globals `paused`, `step_over` and `runtime_lock`.
 The lock is taken by the simulator and released by a handler, so it is a binary semaphore here.
 */
module Protocol {
  import opened Options
  import opened Handles
  import opened Stepping

  /** Where the simulator thread is. */
  datatype SimPc =
    | Boot        // initialize_runtime, in front of its own lock call
    | AtPost      // a pause is decided, in front of the post to a connected client
    | AtFlag      // pause_sim, in front of `paused = true`
    | AtLock      // pause_sim, in front of `runtime_lock.lock()`
    | Running     // between two events
    | TearPost    // teardown_runtime, in front of its post to a connected client
    | TearFlag    // teardown_runtime, in front of `paused = false`
    | TearUnlock  // teardown_runtime, in front of `runtime_lock.unlock()`
    | TearStop    // teardown_runtime, in front of `http_server->stop()`
    | Done
    | Dead        // an exception left breakpoint_trace

  datatype Request =
    | Probe               // GET /status
    | Status              // GET /status/simulation
    | Read(name: string)  // GET /value/name
    | Change(edit: Edit)  // breakpoint and clock requests
    | Resume(step: bool)  // POST /step_over or /continue
    | Stop                // POST /stop

  datatype Reply = Ack | StatusIs(paused: bool) | Value(value: Option<Int32>)

  /** Where a handler thread is; `ClearFlag` and `Unlock` are the two steps of un_pause_sim. */
  datatype Handler = Accepted(request: Request) | ClearFlag | Unlock | Replying(reply: Reply)

  datatype LockEvent = Locked | Unlocked

  datatype Sample = Sample(name: string, value: Option<Int32>)

  datatype State = State(
    // the runtime
    sim: SimPc,
    pos: nat,
    paused: bool,
    free: bool,
    finish: bool,
    up: bool,
    panel: Panel,
    handlers: map<nat, Handler>,
    // what has happened
    log: seq<LockEvent>,
    completed: nat,
    pauses: seq<nat>,
    // what the client knows and has done
    known: bool,
    commands: seq<Command>,
    edits: seq<Edit>,
    samples: seq<Sample>)

  const START := State(Boot, 0, false, true, false, true, INITIAL, map[], [], 0, [], false, [], [], [])

  predicate Over(s: State) {
    s.sim == Done || s.sim == Dead
  }

  /** The simulator stands still: at start-up, or inside an event that pauses. */
  predicate Inside(sim: SimPc) {
    sim == AtPost || sim == AtFlag || sim == AtLock
  }

  // ------------------------------------------------------------ the simulator

  predicate SimReady(s: State) {
    match s.sim
    case Boot => s.free
    case AtLock => s.free
    case Done => false
    case Dead => false
    case _ => true
  }

  function Lock(s: State): State {
    s.(free := false, log := s.log + [Locked])
  }

  function Release(s: State): State {
    s.(free := true, log := s.log + [Unlocked])
  }

  /** `breakpoint_trace` or `breakpoint_clock` for the next event. */
  function NextEvent(trial: Trial, s: State): State
    requires s.pos < |trial.trace|
  {
    match React(trial.site, s.panel, trial.trace[s.pos])
    case Crash => s.(sim := Dead, up := false)
    case Hit(pause, after) =>
      if pause then s.(sim := AtPost, pos := s.pos + 1, panel := after, pauses := s.pauses + [s.pos + 1])
      else s.(pos := s.pos + 1, panel := after)
  }

  function SimStep(trial: Trial, s: State): State
    requires SimReady(s)
  {
    match s.sim
    case Boot => Lock(s).(sim := AtFlag, pauses := [0])
    case AtPost => s.(sim := AtFlag)
    case AtFlag => s.(sim := AtLock, paused := true)
    case AtLock => Lock(s).(sim := Running, completed := s.completed + 1)
    case Running => if s.pos < |trial.trace| then NextEvent(trial, s) else s.(sim := TearPost)
    case TearPost => s.(sim := TearFlag)
    case TearFlag => s.(sim := TearUnlock, paused := false)
    case TearUnlock => Release(s).(sim := TearStop)
    case TearStop => s.(sim := Done, up := false)
  }

  // -------------------------------------------------------------- the handlers

  /** The signals while the simulator waits inside an event, or at start-up. */
  function SignalsAt(trial: Trial, pos: nat): Signals {
    if 0 < pos <= |trial.trace| then trial.trace[pos - 1].signals else trial.start
  }

  /** A value read while the simulator moves is whatever the simulator has just then. */
  function ReadNow(trial: Trial, s: State, name: string, noise: Option<Int32>): Option<Int32> {
    if Inside(s.sim) then GetValue(trial.site.top, SignalsAt(trial, s.pos), name)
    else noise
  }

  function Answer(s: State, h: nat, reply: Reply): State {
    s.(handlers := s.handlers[h := Replying(reply)])
  }

  /** The first step of a handler. */
  function Serve(trial: Trial, s: State, h: nat, request: Request, noise: Option<Int32>): State {
    match request
    case Probe => Answer(s, h, Ack)
    case Status => Answer(s, h, StatusIs(s.paused))
    case Read(name) =>
      var value := ReadNow(trial, s, name, noise);
      Answer(s, h, Value(value)).(samples := if s.known then s.samples + [Sample(name, value)] else s.samples)
    case Change(edit) =>
      Answer(s, h, Ack).(panel := ApplyEdit(trial.site, s.panel, edit), edits := s.edits + [edit])
    case Resume(step) => s.(handlers := s.handlers[h := ClearFlag], panel := s.panel.(stepOver := step))
    case Stop => s.(handlers := s.handlers[h := ClearFlag], finish := true)
  }

  function HandlerStep(trial: Trial, s: State, h: nat, noise: Option<Int32>): State
    requires h in s.handlers && !s.handlers[h].Replying?
  {
    match s.handlers[h]
    case Accepted(request) => Serve(trial, s, h, request, noise)
    case ClearFlag => s.(handlers := s.handlers[h := Unlock], paused := false)
    case Unlock => Answer(Release(s), h, Ack)
  }

  // ---------------------------------------------------------------- the client

  function SubmitStep(s: State, h: nat, request: Request): State {
    var s := s.(handlers := s.handlers[h := Accepted(request)]);
    if request.Resume? then
      s.(known := false, commands := s.commands + [Command(s.edits, request.step)], edits := [], samples := [])
    else s
  }

  function DeliverStep(s: State, h: nat): State
    requires h in s.handlers && s.handlers[h].Replying?
  {
    var reply := s.handlers[h].reply;
    s.(handlers := s.handlers - {h}, known := if reply.StatusIs? then reply.paused else s.known)
  }

  // --------------------------------------------------------------------- runs

  /** One scheduling choice. */
  datatype Label =
    | Sim
    | Finish                                   // the simulator obeys vpiFinish
    | Handle(h: nat, noise: Option<Int32>)
    | Submit(h: nat, request: Request)
    | Deliver(h: nat)

  predicate Enabled(s: State, l: Label) {
    match l
    case Sim => SimReady(s)
    case Finish => s.sim == Running && s.finish
    case Handle(h, _) => h in s.handlers && !s.handlers[h].Replying?
    case Submit(h, _) => h !in s.handlers && s.up
    case Deliver(h) => h in s.handlers && s.handlers[h].Replying?
  }

  function Step(trial: Trial, s: State, l: Label): State
    requires Enabled(s, l)
  {
    match l
    case Sim => SimStep(trial, s)
    case Finish => s.(sim := TearPost)
    case Handle(h, noise) => HandlerStep(trial, s, h, noise)
    case Submit(h, request) => SubmitStep(s, h, request)
    case Deliver(h) => DeliverStep(s, h)
  }

  /**
   The disciplined client: one request at a time, and nothing that edits or resumes unless the last
   status reply was "Paused" and no resume was sent since.
   */
  predicate Polite(s: State, l: Label) {
    l.Submit? ==>
      && l.h == 0 && s.handlers == map[]
      && !l.request.Stop?
      && (l.request.Change? || l.request.Resume? ==> s.known)
  }

  /** The state after the labels, taken one by one; None when one of them is not possible. */
  function Run(trial: Trial, polite: bool, s: State, labels: seq<Label>): Option<State> {
    if labels == [] then Some(s)
    else
      var before := Run(trial, polite, s, labels[..|labels| - 1]);
      var l := labels[|labels| - 1];
      if before.Some? && Enabled(before.value, l) && (polite ==> Polite(before.value, l))
      then Some(Step(trial, before.value, l))
      else None
  }

  /** `s` comes up in some run from the start; `polite` restricts it to disciplined clients. */
  ghost predicate Reachable(trial: Trial, polite: bool, s: State) {
    exists labels :: Run(trial, polite, START, labels) == Some(s)
  }

  lemma StartIsReachable(trial: Trial, polite: bool)
    ensures Reachable(trial, polite, START)
  {
    assert Run(trial, polite, START, []) == Some(START);
  }

  lemma StepIsReachable(trial: Trial, polite: bool, s: State, l: Label)
    requires Reachable(trial, polite, s) && Enabled(s, l) && (polite ==> Polite(s, l))
    ensures Reachable(trial, polite, Step(trial, s, l))
  {
    var labels :| Run(trial, polite, START, labels) == Some(s);
    assert (labels + [l])[..|labels|] == labels;
    assert Run(trial, polite, START, labels + [l]) == Some(Step(trial, s, l));
  }

  // ------------------------------------------------------------------ any client

  function Count(log: seq<LockEvent>, e: LockEvent): nat {
    if log == [] then 0 else Count(log[..|log| - 1], e) + (if log[|log| - 1] == e then 1 else 0)
  }

  /** What every step of every client keeps. */
  predicate LockInv(s: State) {
    && (s.free <==> s.log == [] || s.log[|s.log| - 1] == Unlocked)
    && (forall i :: 0 < i < |s.log| && s.log[i] == Locked ==> s.log[i - 1] == Unlocked)
    && Count(s.log, Locked) + (if s.free then 1 else 0) <= Count(s.log, Unlocked) + 1
    && Count(s.log, Locked) == (if s.sim == Boot then 0 else s.completed + 1)
    && (s.sim == Boot ==> s.completed == 0)
  }

  /** The step leaves the semaphore alone. */
  predicate Quiet(s: State, t: State) {
    t.free == s.free && t.log == s.log && t.completed == s.completed && (s.sim == Boot <==> t.sim == Boot)
  }

  predicate Takes(s: State, t: State) {
    && s.free && !t.free && t.log == s.log + [Locked] && t.sim != Boot
    && t.completed == if s.sim == Boot then s.completed else s.completed + 1
  }

  predicate Releases(s: State, t: State) {
    t.free && t.log == s.log + [Unlocked] && t.completed == s.completed && (s.sim == Boot <==> t.sim == Boot)
  }

  lemma SimOnLock(trial: Trial, s: State)
    requires SimReady(s)
    ensures var t := SimStep(trial, s);
      if s.sim == Boot || s.sim == AtLock then Takes(s, t)
      else if s.sim == TearUnlock then Releases(s, t)
      else Quiet(s, t)
  {
    hide React;
  }

  /** `t` differs from `s` in no more than what a handler may touch. */
  predicate SameCourse(s: State, t: State) {
    t == s.(
      paused := t.paused, free := t.free, finish := t.finish, panel := t.panel, handlers := t.handlers,
      log := t.log, edits := t.edits, samples := t.samples)
  }

  /** The first step of a handler touches neither the flag nor the semaphore. */
  lemma ServeTouches(trial: Trial, s: State, h: nat, request: Request, noise: Option<Int32>)
    ensures var t := Serve(trial, s, h, request, noise);
      && h in t.handlers
      && t == s.(
        finish := t.finish, panel := t.panel, handlers := s.handlers[h := t.handlers[h]],
        edits := t.edits, samples := t.samples)
  {
    hide ApplyEdit, ReadNow;
  }

  lemma ServeKeepsCourse(trial: Trial, s: State, h: nat, request: Request, noise: Option<Int32>)
    requires h in s.handlers
    ensures SameCourse(s, Serve(trial, s, h, request, noise))
    ensures Serve(trial, s, h, request, noise).handlers.Keys == s.handlers.Keys
  {
    hide Serve;
    ServeTouches(trial, s, h, request, noise);
    UpdateKeepsKeys(s.handlers, h, Serve(trial, s, h, request, noise).handlers[h]);
  }

  lemma UpdateKeepsKeys(handlers: map<nat, Handler>, h: nat, to: Handler)
    requires h in handlers
    ensures handlers[h := to].Keys == handlers.Keys
  {
    assert forall i :: i in handlers[h := to] <==> i in handlers;
  }

  lemma HandlerKeepsCourse(trial: Trial, s: State, h: nat, noise: Option<Int32>)
    requires h in s.handlers && !s.handlers[h].Replying?
    ensures SameCourse(s, HandlerStep(trial, s, h, noise))
    ensures HandlerStep(trial, s, h, noise).handlers.Keys == s.handlers.Keys
  {
    hide Serve;
    if s.handlers[h].Accepted? {
      ServeKeepsCourse(trial, s, h, s.handlers[h].request, noise);
    } else {
      assert HandlerStep(trial, s, h, noise).handlers.Keys == s.handlers.Keys;
    }
  }

  lemma ServeOnLock(trial: Trial, s: State, h: nat, request: Request, noise: Option<Int32>)
    ensures var t := Serve(trial, s, h, request, noise); t.sim == s.sim && Quiet(s, t)
  {
    hide Serve;
    ServeTouches(trial, s, h, request, noise);
  }

  lemma HandlerOnLock(trial: Trial, s: State, h: nat, noise: Option<Int32>)
    requires h in s.handlers && !s.handlers[h].Replying?
    ensures var t := HandlerStep(trial, s, h, noise);
      t.sim == s.sim && if s.handlers[h].Unlock? then Releases(s, t) else Quiet(s, t)
  {
    if s.handlers[h].Accepted? {
      ServeOnLock(trial, s, h, s.handlers[h].request, noise);
    }
  }

  /** Every step takes the semaphore, releases it or leaves it alone. */
  lemma StepOnLock(trial: Trial, s: State, l: Label)
    requires Enabled(s, l)
    ensures var t := Step(trial, s, l);
      if l == Sim && (s.sim == Boot || s.sim == AtLock) then Takes(s, t)
      else Quiet(s, t) || Releases(s, t)
  {
    match l
    case Sim => SimOnLock(trial, s);
    case Handle(h, noise) => HandlerOnLock(trial, s, h, noise);
    case _ => assert Quiet(s, Step(trial, s, l));
  }

  lemma TakesKeeps(s: State, t: State)
    requires LockInv(s) && Takes(s, t)
    ensures LockInv(t)
  {
    var n := |s.log|;
    assert forall i :: 0 <= i < n ==> t.log[i] == s.log[i];
    CountSnoc(s.log, Locked, Locked);
    CountSnoc(s.log, Locked, Unlocked);
  }

  lemma ReleasesKeeps(s: State, t: State)
    requires LockInv(s) && Releases(s, t)
    ensures LockInv(t)
  {
    var n := |s.log|;
    assert forall i :: 0 <= i < n ==> t.log[i] == s.log[i];
    CountSnoc(s.log, Unlocked, Locked);
    CountSnoc(s.log, Unlocked, Unlocked);
  }

  lemma LockInvStep(s: State, t: State)
    requires LockInv(s) && (Quiet(s, t) || Takes(s, t) || Releases(s, t))
    ensures LockInv(t)
  {
    if Takes(s, t) {
      TakesKeeps(s, t);
    } else if Releases(s, t) {
      ReleasesKeeps(s, t);
    }
  }

  lemma CountSnoc(log: seq<LockEvent>, e: LockEvent, f: LockEvent)
    ensures Count(log + [e], f) == Count(log, f) + (if e == f then 1 else 0)
  {
    assert (log + [e])[..|log|] == log;
  }

  lemma {:induction false} LockInvRun(trial: Trial, polite: bool, labels: seq<Label>, s: State)
    requires Run(trial, polite, START, labels) == Some(s)
    ensures LockInv(s)
  {
    if labels != [] {
      var before, l := Run(trial, polite, START, labels[..|labels| - 1]).value, labels[|labels| - 1];
      LockInvRun(trial, polite, labels[..|labels| - 1], before);
      StepOnLock(trial, before, l);
      LockInvStep(before, s);
    }
  }

  /** Some release follows every time the semaphore was taken. */
  predicate ReleasedSince(log: seq<LockEvent>) {
    forall i :: 0 <= i < |log| && log[i] == Locked ==> exists j :: i < j < |log| && log[j] == Unlocked
  }

  lemma ReleasedSinceLast(log: seq<LockEvent>)
    ensures ReleasedSince(log) <==> log == [] || log[|log| - 1] == Unlocked
  {
    if log != [] && log[|log| - 1] == Unlocked {
      forall i | 0 <= i < |log| && log[i] == Locked
        ensures exists j :: i < j < |log| && log[j] == Unlocked
      {
        assert i < |log| - 1;
      }
    }
  }

  /**
   For any client the semaphore is available exactly when it was released after it was last taken: a
   resume is never lost, whichever step of `pause_sim` it meets.
   */
  lemma NoLostWakeUp(trial: Trial, s: State)
    requires Reachable(trial, false, s)
    ensures s.free <==> ReleasedSince(s.log)
    ensures s.sim == AtLock ==> (Enabled(s, Sim) <==> ReleasedSince(s.log))
  {
    var labels :| Run(trial, false, START, labels) == Some(s);
    LockInvRun(trial, false, labels, s);
    ReleasedSinceLast(s.log);
  }

  /** Nobody but the pausing simulator takes an available semaphore away. */
  predicate Awake(s: State) {
    s.free && Inside(s.sim)
  }

  lemma AwakeStep(trial: Trial, s: State, l: Label)
    requires Awake(s) && Enabled(s, l)
    ensures var t := Step(trial, s, l);
      t.completed == s.completed + 1 || (t.completed == s.completed && Awake(t))
  {
    StepOnLock(trial, s, l);
    match l
    case Sim =>
    case Finish =>
    case Handle(h, noise) =>
    case Submit(h, request) =>
    case Deliver(h) =>
  }

  lemma CompletedGrows(trial: Trial, s: State, l: Label)
    requires Enabled(s, l)
    ensures s.completed <= Step(trial, s, l).completed
  {
    StepOnLock(trial, s, l);
  }

  /**
   Once a resume has released the semaphore during a pause, the pause can complete from then on, until
   it does, whatever the handlers and the client do meanwhile.
   */
  lemma {:induction false} WakeUpPersists(trial: Trial, s: State, labels: seq<Label>, t: State)
    requires Awake(s) && Run(trial, false, s, labels) == Some(t)
    ensures s.completed <= t.completed
    ensures t.completed == s.completed ==> Awake(t) && Enabled(t, Sim)
  {
    if labels != [] {
      var before, l := Run(trial, false, s, labels[..|labels| - 1]).value, labels[|labels| - 1];
      WakeUpPersists(trial, s, labels[..|labels| - 1], before);
      CompletedGrows(trial, before, l);
      if before.completed == s.completed {
        AwakeStep(trial, before, l);
      }
    }
  }

  /**
   For any client: each time the semaphore is taken it was released right before, so there is a release
   between any two completed pauses, and completed pauses never outnumber releases.
   */
  lemma NoUnearnedProgress(trial: Trial, s: State)
    requires Reachable(trial, false, s)
    ensures forall i, j :: 0 <= i < j < |s.log| && s.log[i] == Locked && s.log[j] == Locked ==>
      i < j - 1 && s.log[j - 1] == Unlocked
    ensures s.sim != Boot ==> s.completed + (if s.free then 1 else 0) <= Count(s.log, Unlocked)
  {
    var labels :| Run(trial, false, START, labels) == Some(s);
    LockInvRun(trial, false, labels, s);
  }

  /** Some handler lowers the flag in the run. */
  predicate Clears(trial: Trial, s: State, labels: seq<Label>)
    requires Run(trial, false, s, labels).Some?
  {
    labels != [] &&
    var init, l := labels[..|labels| - 1], labels[|labels| - 1];
    Clears(trial, s, init) || (l.Handle? && Run(trial, false, s, init).value.handlers[l.h].ClearFlag?)
  }

  lemma {:induction false} FlagInPause(trial: Trial, s: State, labels: seq<Label>, t: State)
    requires s.sim == AtLock && s.paused && Run(trial, false, s, labels) == Some(t)
    requires t.completed == s.completed
    ensures t.sim == AtLock && (t.paused <==> !Clears(trial, s, labels))
  {
    if labels != [] {
      var before, l := Run(trial, false, s, labels[..|labels| - 1]).value, labels[|labels| - 1];
      CompletedSince(trial, s, labels[..|labels| - 1], before);
      CompletedGrows(trial, before, l);
      FlagInPause(trial, s, labels[..|labels| - 1], before);
      FlagStep(trial, before, l);
    }
  }

  lemma FlagStep(trial: Trial, s: State, l: Label)
    requires s.sim == AtLock && Enabled(s, l)
    ensures var t := Step(trial, s, l);
      && (if l == Sim then t.completed == s.completed + 1 else t.sim == AtLock)
      && (t.paused <==> s.paused && !(l.Handle? && s.handlers[l.h].ClearFlag?))
  {
    hide ApplyEdit, ReadNow;
    match l
    case Handle(h, noise) => HandlerKeepsCourse(trial, s, h, noise);
    case _ =>
  }

  lemma {:induction false} CompletedSince(trial: Trial, s: State, labels: seq<Label>, t: State)
    requires Run(trial, false, s, labels) == Some(t)
    ensures s.completed <= t.completed
  {
    if labels != [] {
      var before := Run(trial, false, s, labels[..|labels| - 1]).value;
      CompletedSince(trial, s, labels[..|labels| - 1], before);
      CompletedGrows(trial, before, labels[|labels| - 1]);
    }
  }

  /**
   For any client: a pause ends with the flag down exactly when some handler lowered it after the flag
   step of that pause.  From `s`, in front of the flag step, the pause comes to its end in `t`.
   */
  lemma FlagTellsOfResume(trial: Trial, s: State, labels: seq<Label>, t: State)
    requires s.sim == AtFlag && Run(trial, false, SimStep(trial, s), labels) == Some(t)
    requires t.completed == s.completed && SimReady(t)
    ensures var after := SimStep(trial, t);
      && after.completed == s.completed + 1 && after.sim == Running
      && (after.paused <==> !Clears(trial, SimStep(trial, s), labels))
  {
    FlagInPause(trial, SimStep(trial, s), labels, t);
  }

  /**
   For any client: a signal asked for while the simulator stands inside an event that pauses, from its post
   to the end of the pause, is answered as that event found it; at start-up, as it was then.
   */
  lemma ReadInside(trial: Trial, s: State, h: nat, name: string, noise: Option<Int32>)
    requires h in s.handlers && s.handlers[h] == Accepted(Read(name)) && s.sim in {AtPost, AtFlag, AtLock}
    requires s.pos <= |trial.trace|
    ensures var signals := if s.pos == 0 then trial.start else trial.trace[s.pos - 1].signals;
      Step(trial, s, Handle(h, noise)).handlers[h] == Replying(Value(GetValue(trial.site.top, signals, name)))
  {
  }

  /**
   The flag is not as good as the lock.  When a client answers the post in front of `pause_sim` by a resume,
   the pause still completes, but `paused` stays true while the simulator runs.
   */
  lemma EarlyResumeLeavesFlag(trial: Trial) returns (s: State)
    requires trial.trace != [] && trial.trace[0].Stmt?
    ensures Reachable(trial, false, s)
    ensures s.sim == Running && s.paused && s.handlers.Keys == {} && s.completed == 2
  {
    StartIsReachable(trial, false);
    s := Play(trial, START, Sim);
    s := Play(trial, s, Sim);
    s := PlayResume(trial, s);
    s := Play(trial, s, Sim);
    assert React(trial.site, s.panel, trial.trace[0]) == Hit(true, s.panel);
    s := Play(trial, s, Sim);
    s := PlayResume(trial, s);
    s := Play(trial, s, Sim);
    s := Play(trial, s, Sim);
    s := Play(trial, s, Sim);
  }

  lemma Play(trial: Trial, s: State, l: Label) returns (t: State)
    requires Reachable(trial, false, s) && Enabled(s, l)
    ensures Reachable(trial, false, t) && t == Step(trial, s, l)
  {
    t := Step(trial, s, l);
    StepIsReachable(trial, false, s, l);
  }

  /** A client steps over, and the handler runs to its end. */
  lemma PlayResume(trial: Trial, s: State) returns (t: State)
    requires Reachable(trial, false, s) && s.handlers.Keys == {} && s.up
    ensures Reachable(trial, false, t) && t.handlers.Keys == {} && t.up
    ensures t.sim == s.sim && t.pos == s.pos && t.completed == s.completed && !t.paused && t.free
    ensures t.panel == s.panel.(stepOver := true)
  {
    t := Play(trial, s, Submit(0, Resume(true)));
    t := Play(trial, t, Handle(0, None));
    t := Play(trial, t, Handle(0, None));
    t := Play(trial, t, Handle(0, None));
    t := Play(trial, t, Deliver(0));
  }
}
