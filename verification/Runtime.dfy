/**
 The runtime as it is: globals that the simulator thread and the handlers update in place.  A method is
 one atomic step of one thread, and is proved to be the step of the state machine in module Protocol.
 */
module Runtime {
  import opened Options
  import opened Handles
  import Tables
  import opened Stepping
  import opened Protocol
  import R = Registry

  class Runtime {
    const trial: Trial
    const registry: R.Registry

    // the globals of src/control.cc
    var paused: bool
    var lockFree: bool
    var stepOver: bool
    var pauseClockEdge: bool

    // where the threads are
    var sim: SimPc
    var pos: nat
    var finish: bool
    var up: bool
    var handlers: map<nat, Handler>

    // what has happened
    ghost var log: seq<LockEvent>
    ghost var completed: nat
    ghost var pauses: seq<nat>
    ghost var known: bool
    ghost var commands: seq<Command>
    ghost var edits: seq<Edit>
    ghost var samples: seq<Sample>

    ghost function Settings(): Panel
      reads this, registry
    {
      Panel(registry.View(), pauseClockEdge, stepOver)
    }

    ghost function View(): State
      reads this, registry
    {
      State(sim, pos, paused, lockFree, finish, up, Settings(), handlers,
            log, completed, pauses, known, commands, edits, samples)
    }

    constructor (trial: Trial)
      ensures this.trial == trial && fresh(registry) && View() == START
    {
      this.trial := trial;
      registry := new R.Registry();
      paused, lockFree, stepOver, pauseClockEdge := false, true, false, false;
      sim, pos, finish, up, handlers := Boot, 0, false, true, map[];
      log, completed, pauses, known, commands, edits, samples := [], 0, [], false, [], [], [];
    }

    // ------------------------------------------------------- the stop decision

    /** `breakpoint_trace`, up to the post in front of `pause_sim`. */
    method BreakpointTrace(id: nat, signals: Signals) returns (threw: bool, pause: bool)
      modifies registry
      ensures var hit := React(trial.site, old(Settings()), Stmt(id, signals));
        && threw == hit.Crash?
        && Settings() == (if threw then old(Settings()) else hit.after)
        && (hit.Hit? ==> pause == hit.pause)
    {
      hide Tables.Evaluate;
      threw, pause := false, false;
      var goOn := registry.ShouldContinueSimulation(id);
      if stepOver || !goOn {
        var conditional := registry.HasExprBreakpoint(id);
        if conditional {
          var answer := registry.EvaluateBreakpointExpr(trial.site.top, id, signals);
          match answer {
            case Threw => return true, false;
            case Gave(stop) => if !stop { return; }
          }
        }
        pause := true;
      }
    }

    /** `breakpoint_clock`, up to the post in front of `pause_sim`. */
    method BreakpointClock(signals: Signals) returns (pause: bool)
      ensures React(trial.site, Settings(), ClockEdge(signals)) == Hit(pause, Settings())
    {
      pause := pauseClockEdge;
    }

    // --------------------------------------------------------- the simulator

    method TakeLock()
      requires lockFree
      modifies this`lockFree, this`log
      ensures View() == Lock(old(View()))
    {
      lockFree := false;
      log := log + [Locked];
    }

    method ReleaseLock()
      modifies this`lockFree, this`log
      ensures View() == Release(old(View()))
    {
      lockFree := true;
      log := log + [Unlocked];
    }

    /** The callback of an event, up to its decision. */
    method Decide(event: Event) returns (threw: bool, pause: bool)
      modifies registry
      ensures var hit := React(trial.site, old(Settings()), event);
        && threw == hit.Crash?
        && Settings() == (if threw then old(Settings()) else hit.after)
        && (hit.Hit? ==> pause == hit.pause)
    {
      hide React;
      threw, pause := false, false;
      match event
      case Stmt(id, signals) => threw, pause := BreakpointTrace(id, signals);
      case ClockEdge(signals) => pause := BreakpointClock(signals);
    }

    method EventStep()
      requires sim == Running && pos < |trial.trace|
      modifies this`sim, this`pos, this`up, this`pauses, registry
      ensures View() == NextEvent(trial, old(View()))
    {
      hide React;
      var threw, pause := Decide(trial.trace[pos]);
      if threw {
        sim, up := Dead, false;
      } else {
        pos := pos + 1;
        if pause {
          sim, pauses := AtPost, pauses + [pos];
        }
      }
    }

    function SimCanMove(): (r: bool)
      reads this, registry
      ensures r == SimReady(View())
    {
      sim != Done && sim != Dead && (sim == Boot || sim == AtLock ==> lockFree)
    }

    /** The simulator thread: start-up, events, `pause_sim` and teardown. */
    method SimTurn()
      requires SimReady(View())
      modifies this, registry
      ensures View() == SimStep(trial, old(View()))
    {
      hide NextEvent, React;
      if sim == Running && pos < |trial.trace| {
        EventStep();
      } else if sim == Boot || Inside(sim) {
        PauseTurn();
      } else {
        TearTurn();
      }
    }

    /** From the decision to pause to the end of the pause, and start-up. */
    method PauseTurn()
      requires SimReady(View()) && (sim == Boot || Inside(sim))
      modifies this`sim, this`paused, this`lockFree, this`log, this`completed, this`pauses
      ensures View() == SimStep(trial, old(View()))
    {
      hide NextEvent, React;
      match sim
      case Boot =>
        TakeLock();
        sim, pauses := AtFlag, [0];
      case AtPost =>
        // a client that is connected is told here
        sim := AtFlag;
      case AtFlag =>
        paused := true;
        sim := AtLock;
      case AtLock =>
        TakeLock();
        sim, completed := Running, completed + 1;
    }

    /** The end of the simulation, and `teardown_runtime`. */
    method TearTurn()
      requires SimReady(View()) && sim != Boot && !Inside(sim) && (sim == Running ==> pos >= |trial.trace|)
      modifies this`sim, this`paused, this`lockFree, this`log, this`up
      ensures View() == SimStep(trial, old(View()))
    {
      hide NextEvent, React;
      match sim
      case Running =>
        sim := TearPost;
      case TearPost =>
        sim := TearFlag;
      case TearFlag =>
        paused := false;
        sim := TearUnlock;
      case TearUnlock =>
        ReleaseLock();
        sim := TearStop;
      case TearStop =>
        up := false;
        sim := Done;
    }

    // ---------------------------------------------------------- the handlers

    method Change(edit: Edit)
      modifies this`pauseClockEdge, registry
      ensures Settings() == ApplyEdit(trial.site, old(Settings()), edit)
    {
      hide Tables.Perform;
      match edit
      case Table(request) => registry.HandleRequest(trial.site, request);
      case Clock(on) => pauseClockEdge := on;
    }

    /** The handler goes on to its next step. */
    method Advance(h: nat, to: Handler)
      modifies this`handlers
      ensures View() == old(View()).(handlers := old(handlers)[h := to])
    {
      handlers := handlers[h := to];
    }

    method ReadSignal(h: nat, name: string, noise: Option<Int32>)
      modifies this`handlers, this`samples
      ensures View() == Serve(trial, old(View()), h, Read(name), noise)
    {
      hide GetValue, SignalsAt, ApplyEdit;
      var value := noise;
      if Inside(sim) {
        value := GetValue(trial.site.top, SignalsAt(trial, pos), name);
      }
      handlers := handlers[h := Replying(Value(value))];
      samples := if known then samples + [Sample(name, value)] else samples;
    }

    method ServeChange(h: nat, edit: Edit, noise: Option<Int32>)
      modifies this, registry
      ensures View() == Serve(trial, old(View()), h, Protocol.Change(edit), noise)
    {
      hide ApplyEdit, ReadNow;
      Change(edit);
      handlers := handlers[h := Replying(Ack)];
      edits := edits + [edit];
    }

    method ServeRelease(h: nat, request: Request, noise: Option<Int32>)
      requires request.Resume? || request.Stop?
      modifies this`handlers, this`stepOver, this`finish
      ensures View() == Serve(trial, old(View()), h, request, noise)
    {
      hide ApplyEdit, ReadNow;
      match request
      case Resume(step) =>
        stepOver := step;
        handlers := handlers[h := ClearFlag];
      case Stop =>
        finish := true;
        handlers := handlers[h := ClearFlag];
    }

    /** The first step of a handler. */
    method ServeRequest(h: nat, request: Request, noise: Option<Int32>)
      requires h in handlers && handlers[h] == Accepted(request)
      modifies this, registry
      ensures View() == Serve(trial, old(View()), h, request, noise)
    {
      hide ApplyEdit, ReadNow;
      match request
      case Probe => Advance(h, Replying(Ack));
      case Status => Advance(h, Replying(StatusIs(paused)));
      case Read(name) => ReadSignal(h, name, noise);
      case Change(edit) => ServeChange(h, edit, noise);
      case _ => ServeRelease(h, request, noise);
    }

    /** A handler thread; the two steps of `un_pause_sim` stand apart. */
    method HandlerTurn(h: nat, noise: Option<Int32>)
      requires h in handlers && !handlers[h].Replying?
      modifies this, registry
      ensures View() == HandlerStep(trial, old(View()), h, noise)
    {
      hide Serve;
      match handlers[h]
      case Accepted(request) => ServeRequest(h, request, noise);
      case ClearFlag =>
        paused := false;
        handlers := handlers[h := Unlock];
      case Unlock =>
        ReleaseLock();
        handlers := handlers[h := Replying(Ack)];
    }

    // ------------------------------------------------------------- requests

    method Accept(h: nat, request: Request)
      requires h !in handlers && up
      modifies this
      ensures View() == SubmitStep(old(View()), h, request)
    {
      Advance(h, Accepted(request));
      if request.Resume? {
        NoteCommand(request.step);
      }
    }

    ghost method NoteCommand(step: bool)
      modifies this`known, this`commands, this`edits, this`samples
      ensures View() == old(View()).(
        known := false, commands := old(commands) + [Command(old(edits), step)], edits := [], samples := [])
    {
      known := false;
      commands, edits, samples := commands + [Command(edits, step)], [], [];
    }

    method TakeReply(h: nat) returns (reply: Reply)
      requires h in handlers && handlers[h].Replying?
      modifies this
      ensures reply == old(handlers[h].reply)
      ensures View() == DeliverStep(old(View()), h)
    {
      reply := handlers[h].reply;
      handlers := handlers - {h};
      known := if reply.StatusIs? then reply.paused else known;
    }
  }
}
