/**
 The stop decision of `breakpoint_trace` and `breakpoint_clock` (src/control.cc), and the debugger they
 make up when it is run sequentially: a trace of simulation events against a list of commands.
 */
module Stepping {
  import opened Handles
  import opened Conditions
  import opened Tables
  import opened Verdicts

  /** What the simulator reports: a statement about to run, or a clock edge, with the signals then. */
  datatype Event =
    | Stmt(id: nat, signals: Signals)
    | ClockEdge(signals: Signals)

  /** One simulation: the fixed surroundings, the signals at start-up, and the events in order. */
  datatype Trial = Trial(site: Site, start: Signals, trace: seq<Event>)

  /** The settings a stop decision reads. */
  datatype Panel = Panel(tables: Tables, clockOn: bool, stepOver: bool)

  const INITIAL := Panel(NO_TABLES, false, false)

  /** The outcome of one event: an exception out of a lookup, or whether to pause. */
  datatype Hit = Crash | Hit(pause: bool, after: Panel)

  function React(site: Site, panel: Panel, event: Event): Hit {
    match event
    case ClockEdge(_) => Hit(panel.clockOn, panel)
    case Stmt(id, signals) =>
      if !panel.stepOver && id !in panel.tables.breakPoints then Hit(false, panel)
      else if id !in panel.tables.symbols then Hit(true, panel)
      else
        match Evaluate(panel.tables, site.top, id, signals)
        case Throws => Crash
        case Verdict(stop, after) => Hit(stop, panel.(tables := after))
  }

  // -------------------------------------------------- the sequential debugger

  datatype Edit = Table(request: TableRequest) | Clock(on: bool)

  /** What a client does at one pause: edits, then `continue` or `step_over`. */
  datatype Command = Command(edits: seq<Edit>, step: bool)

  function ApplyEdit(site: Site, panel: Panel, edit: Edit): Panel {
    match edit
    case Table(request) => panel.(tables := Perform(panel.tables, site, request))
    case Clock(on) => panel.(clockOn := on)
  }

  function ApplyEdits(site: Site, panel: Panel, edits: seq<Edit>): Panel {
    if edits == [] then panel
    else ApplyEdit(site, ApplyEdits(site, panel, edits[..|edits| - 1]), edits[|edits| - 1])
  }

  /**
   How far a simulation has come.  A pause is named by the number of events that have begun, so pause 0
   is the one at start-up.
   */
  datatype Halt =
    | Stopped(pauses: seq<nat>, pos: nat, panel: Panel)
    | Ended(pauses: seq<nat>, panel: Panel)
    | Crashed(pauses: seq<nat>)

  /** Run the events from `pos` on until one pauses. */
  function Advance(trial: Trial, pauses: seq<nat>, pos: nat, panel: Panel): (r: Halt)
    requires pos <= |trial.trace|
    ensures r.Stopped? ==> pos < r.pos <= |trial.trace| && r.pauses == pauses + [r.pos]
    ensures !r.Stopped? ==> r.pauses == pauses
    decreases |trial.trace| - pos
  {
    if pos == |trial.trace| then Ended(pauses, panel)
    else
      match React(trial.site, panel, trial.trace[pos])
      case Crash => Crashed(pauses)
      case Hit(pause, after) =>
        if pause then Stopped(pauses + [pos + 1], pos + 1, after)
        else Advance(trial, pauses, pos + 1, after)
  }

  function Obey(trial: Trial, halt: Halt, command: Command): (r: Halt)
    requires halt.Stopped? ==> halt.pos <= |trial.trace|
    ensures r.Stopped? ==> r.pos <= |trial.trace|
  {
    if halt.Stopped? then
      Advance(trial, halt.pauses, halt.pos,
              ApplyEdits(trial.site, halt.panel, command.edits).(stepOver := command.step))
    else halt
  }

  /** The whole session: the start-up pause, then one command after another. */
  function Replay(trial: Trial, commands: seq<Command>): (r: Halt)
    ensures r.Stopped? ==> r.pos <= |trial.trace|
  {
    if commands == [] then Stopped([0], 0, INITIAL)
    else Obey(trial, Replay(trial, commands[..|commands| - 1]), commands[|commands| - 1])
  }

  /** A session that is still stopped has made one pause per command, after the one at start-up. */
  lemma {:induction false} PausePerCommand(trial: Trial, commands: seq<Command>)
    ensures var r := Replay(trial, commands);
      if r.Stopped? then |r.pauses| == |commands| + 1 && r.pauses[|commands|] == r.pos
      else 1 <= |r.pauses| <= |commands|
  {
    if commands != [] {
      PausePerCommand(trial, commands[..|commands| - 1]);
    }
  }

  // ------------------------------------------------ what a command stops at

  /** The statement is one whose condition, if it has one, is evaluated. */
  predicate Considered(panel: Panel, id: nat) {
    panel.stepOver || id in panel.tables.breakPoints
  }

  /** A lookup fails at the event. */
  predicate Breaks(site: Site, panel: Panel, event: Event) {
    && event.Stmt? && Considered(panel, event.id)
    && event.id in panel.tables.symbols && Fails(panel.tables, site.top, event.id, event.signals)
  }

  /** The event is one to pause at: decided by the settings as they were when the command was given. */
  predicate Wants(site: Site, panel: Panel, event: Event) {
    match event
    case ClockEdge(_) => panel.clockOn
    case Stmt(id, signals) =>
      && Considered(panel, id)
      && (id in panel.tables.symbols ==> Satisfied(panel.tables, site.top, id, signals))
  }

  /** The same of the signals as they are now, without any slot. */
  predicate WantsNow(site: Site, panel: Panel, event: Event) {
    match event
    case ClockEdge(_) => panel.clockOn
    case Stmt(id, signals) =>
      && Considered(panel, id)
      && (id in panel.tables.symbols ==> SatisfiedNow(panel.tables, site.top, id, signals))
  }

  /** The same settings up to the slots that are fetched. */
  predicate SamePanel(a: Panel, b: Panel) {
    a.clockOn == b.clockOn && a.stepOver == b.stepOver && Frozen(a.tables, b.tables)
  }

  lemma SamePanelReflexive(panel: Panel)
    ensures SamePanel(panel, panel)
  {
    FrozenReflexive(panel.tables);
  }

  /** An event breaks or pauses exactly as the settings of the last resume have it, whatever came since. */
  lemma ReactMeansWants(site: Site, was: Panel, now: Panel, event: Event)
    requires SamePanel(was, now)
    ensures var hit := React(site, now, event);
      if Breaks(site, was, event) then hit.Crash?
      else hit.Hit? && hit.pause == Wants(site, was, event) && SamePanel(was, hit.after)
  {
    hide Frozen, Evaluate, Satisfied, Fails;
    assert was.tables.symbols.Keys == now.tables.symbols.Keys && was.tables.breakPoints == now.tables.breakPoints by {
      FrozenIsSame(was.tables, now.tables);
    }
    if event.Stmt? && Considered(now, event.id) && event.id in now.tables.symbols {
      var id, signals := event.id, event.signals;
      VerdictMeaning(now.tables, site.top, id, signals);
      SatisfiedAlike(was.tables, now.tables, site.top, id, signals);
      if !Fails(now.tables, site.top, id, signals) {
        EvaluateFreezes(now.tables, site.top, id, signals);
        FrozenTransitive(was.tables, now.tables, Evaluate(now.tables, site.top, id, signals).after);
      }
    }
  }

  /** With valid tables no event breaks; with good ones what is wanted is decided by the signals alone. */
  lemma WantsOfNow(site: Site, panel: Panel, event: Event)
    ensures Valid(panel.tables) ==> !Breaks(site, panel, event)
    ensures Good(panel.tables) ==> (Wants(site, panel, event) <==> WantsNow(site, panel, event))
  {
    if event.Stmt? && event.id in panel.tables.symbols {
      if Valid(panel.tables) {
        ValidNeverFails(panel.tables, site.top, event.id, event.signals);
      }
      if Good(panel.tables) {
        GoodIsOfNow(panel.tables, site.top, event.id, event.signals);
      }
    }
  }

  /**
   A breakpoint whose first condition names two signals pauses at every hit, as long as the tables are as
   that insert left them but for the slots.
   */
  lemma TwoNamesAlwaysPause(site: Site, panel: Panel, id: nat, source: Source, a: string, b: string,
                            now: Panel, signals: Signals)
    requires Good(panel.tables) && id !in panel.tables.symbols && source.text != "" && id in site.scopes
    requires source.parse.Some? && a in Names(source.parse.value) && b in Names(source.parse.value)
    requires a != b && IsWord(a) && IsWord(b)
    requires SameTables(Perform(panel.tables, site, Insert(id, source)), now.tables)
    ensures var hit := React(site, now, Stmt(id, signals)); hit.Hit? && hit.pause
  {
    hide Perform, IsWord, Evaluate;
    var after := Perform(panel.tables, site, Insert(id, source));
    TwoNamesNeverCompile(panel.tables, site, id, source, a, b);
    SameTablesKeepGood(after, now.tables);
    if id in now.tables.symbols {
      assert SameShape(after.symbols[id], now.tables.symbols[id]) && ValidAt(now.tables, id);
      VerdictMeaning(now.tables, site.top, id, signals);
      ValidNeverFails(now.tables, site.top, id, signals);
    }
  }

  /** Nothing from `pos` up to `end` is wanted, and nothing there breaks. */
  predicate PassesUpTo(trial: Trial, panel: Panel, pos: nat, end: nat)
    requires end <= |trial.trace|
  {
    forall i :: pos <= i < end ==>
      !Wants(trial.site, panel, trial.trace[i]) && !Breaks(trial.site, panel, trial.trace[i])
  }

  /**
   A command runs to the least later event it wants or that breaks, and to the end when there is none:
   `step_over` wants the next statement without a false condition, `continue` the next one that is a
   breakpoint besides.
   */
  lemma {:induction false} AdvanceToLeast(trial: Trial, pauses: seq<nat>, pos: nat, was: Panel, now: Panel)
    returns (end: nat)
    requires pos <= |trial.trace| && SamePanel(was, now)
    ensures pos <= end <= |trial.trace| && PassesUpTo(trial, was, pos, end)
    ensures match Advance(trial, pauses, pos, now)
      case Stopped(_, at, panel) =>
        && at == end + 1 && SamePanel(was, panel)
        && Wants(trial.site, was, trial.trace[end]) && !Breaks(trial.site, was, trial.trace[end])
      case Ended(_, panel) => end == |trial.trace| && SamePanel(was, panel)
      case Crashed(_) => end < |trial.trace| && Breaks(trial.site, was, trial.trace[end])
    decreases |trial.trace| - pos
  {
    hide React, Wants, Breaks, SamePanel;
    end := pos;
    if pos < |trial.trace| {
      ReactMeansWants(trial.site, was, now, trial.trace[pos]);
      var hit := React(trial.site, now, trial.trace[pos]);
      if hit.Hit? && !hit.pause {
        end := AdvanceToLeast(trial, pauses, pos + 1, was, hit.after);
      }
    }
  }

  /** The settings a command runs under. */
  function SettingsFor(trial: Trial, halt: Halt, command: Command): Panel
    requires halt.Stopped?
  {
    ApplyEdits(trial.site, halt.panel, command.edits).(stepOver := command.step)
  }

  /**
   In every session, one more command goes from the last pause to the least later event that the settings
   it was given with want, unless a lookup fails before; to the end when there is neither.
   */
  lemma CommandRunsToLeast(trial: Trial, commands: seq<Command>, command: Command) returns (end: nat)
    requires Replay(trial, commands).Stopped?
    ensures var before := Replay(trial, commands);
      var settings := SettingsFor(trial, before, command);
      && before.pos <= end <= |trial.trace| && PassesUpTo(trial, settings, before.pos, end)
      && match Replay(trial, commands + [command])
         case Stopped(pauses, pos, _) =>
           && pos == end + 1 && pauses == before.pauses + [pos]
           && Wants(trial.site, settings, trial.trace[end]) && !Breaks(trial.site, settings, trial.trace[end])
         case Ended(pauses, _) => end == |trial.trace| && pauses == before.pauses
         case Crashed(pauses) =>
           end < |trial.trace| && pauses == before.pauses && Breaks(trial.site, settings, trial.trace[end])
  {
    hide React, Wants, Breaks, SamePanel, ApplyEdits, PassesUpTo;
    assert (commands + [command])[..|commands|] == commands;
    var before := Replay(trial, commands);
    var settings := SettingsFor(trial, before, command);
    SamePanelReflexive(settings);
    end := AdvanceToLeast(trial, before.pauses, before.pos, settings, settings);
  }

  // ------------------------------------------------ settings from the commands

  /** The requests among the edits. */
  function TableRequests(edits: seq<Edit>): seq<TableRequest> {
    if edits == [] then []
    else
      var last := edits[|edits| - 1];
      TableRequests(edits[..|edits| - 1]) + (if last.Table? then [last.request] else [])
  }

  /** All edits of a list of commands. */
  function AllEdits(commands: seq<Command>): seq<Edit> {
    if commands == [] then [] else AllEdits(commands[..|commands| - 1]) + commands[|commands| - 1].edits
  }

  /** The last edit of the clock switch turned it on. */
  predicate SwitchedOn(edits: seq<Edit>) {
    exists k :: 0 <= k < |edits| && edits[k] == Clock(true) && forall j :: k < j < |edits| ==> !edits[j].Clock?
  }

  predicate Switched(edits: seq<Edit>) {
    exists k :: 0 <= k < |edits| && edits[k].Clock?
  }

  lemma SwitchedSnoc(init: seq<Edit>, last: Edit)
    ensures SwitchedOn(init + [last]) <==> last == Clock(true) || (SwitchedOn(init) && !last.Clock?)
    ensures Switched(init + [last]) <==> last.Clock? || Switched(init)
  {
    var all := init + [last];
    assert all[|init|] == last;
    assert forall k :: 0 <= k < |init| ==> all[k] == init[k];
    if SwitchedOn(init) && !last.Clock? {
      var k :| 0 <= k < |init| && init[k] == Clock(true) && forall j :: k < j < |init| ==> !init[j].Clock?;
      assert all[k] == Clock(true);
    }
    if Switched(init) {
      var k :| 0 <= k < |init| && init[k].Clock?;
      assert all[k].Clock?;
    }
  }

  /** Edits of the clock switch leave the tables alone, requests the switch; the last edit of it counts. */
  lemma {:induction false} EditsMean(site: Site, panel: Panel, edits: seq<Edit>)
    ensures var after := ApplyEdits(site, panel, edits);
      && (after.clockOn <==> SwitchedOn(edits) || (panel.clockOn && !Switched(edits)))
      && after.tables == PerformAll(panel.tables, site, TableRequests(edits))
      && after.stepOver == panel.stepOver
  {
    hide Perform, SwitchedOn, Switched;
    if edits == [] {
      NothingSwitched();
    } else {
      var init, last := edits[..|edits| - 1], edits[|edits| - 1];
      assert edits == init + [last];
      EditsMean(site, panel, init);
      SwitchedSnoc(init, last);
      var requests := TableRequests(init);
      assert TableRequests(edits) == if last.Table? then requests + [last.request] else requests;
      assert last.Table? ==> (requests + [last.request])[..|requests|] == requests;
    }
  }

  lemma NothingSwitched()
    ensures !SwitchedOn([]) && !Switched([])
  {
  }

  lemma {:induction false} SwitchedAppend(a: seq<Edit>, b: seq<Edit>)
    ensures SwitchedOn(a + b) <==> SwitchedOn(b) || (SwitchedOn(a) && !Switched(b))
  {
    hide SwitchedOn, Switched;
    if b == [] {
      assert a + b == a;
      NothingSwitched();
    } else {
      var init, last := b[..|b| - 1], b[|b| - 1];
      assert a + b == (a + init) + [last] && b == init + [last];
      SwitchedAppend(a, init);
      SwitchedSnoc(a + init, last);
      SwitchedSnoc(init, last);
    }
  }

  lemma {:induction false} RequestsAppend(a: seq<Edit>, b: seq<Edit>)
    ensures TableRequests(a + b) == TableRequests(a) + TableRequests(b)
  {
    if b == [] {
      assert a + b == a;
    } else {
      var all := a + b;
      assert all[..|all| - 1] == a + b[..|b| - 1];
      RequestsAppend(a, b[..|b| - 1]);
    }
  }

  lemma {:induction false} PerformAppend(t: Tables, site: Site, a: seq<TableRequest>, b: seq<TableRequest>)
    ensures PerformAll(t, site, a + b) == PerformAll(PerformAll(t, site, a), site, b)
  {
    hide Perform;
    if b == [] {
      assert a + b == a;
    } else {
      var all := a + b;
      assert all[..|all| - 1] == a + b[..|b| - 1];
      PerformAppend(t, site, a, b[..|b| - 1]);
    }
  }

  lemma {:induction false} PerformAllAlike(a: Tables, b: Tables, site: Site, requests: seq<TableRequest>)
    requires SameTables(a, b)
    ensures SameTables(PerformAll(a, site, requests), PerformAll(b, site, requests))
  {
    hide Perform, SameTables;
    if requests != [] {
      var init, last := requests[..|requests| - 1], requests[|requests| - 1];
      PerformAllAlike(a, b, site, init);
      PerformAlike(PerformAll(a, site, init), PerformAll(b, site, init), site, last);
    }
  }

  /** The settings that a list of edits amounts to: the switch, and the tables up to their slots. */
  predicate Reflects(site: Site, edits: seq<Edit>, panel: Panel) {
    && (panel.clockOn <==> SwitchedOn(edits))
    && SameTables(PerformAll(NO_TABLES, site, TableRequests(edits)), panel.tables)
  }

  lemma ReflectsEdits(site: Site, edits: seq<Edit>, panel: Panel, more: seq<Edit>)
    requires Reflects(site, edits, panel)
    ensures Reflects(site, edits + more, ApplyEdits(site, panel, more))
  {
    hide ApplyEdits, PerformAll, SameTables, SwitchedOn, Switched;
    var asked, after := TableRequests(edits), TableRequests(more);
    EditsMean(site, panel, more);
    SwitchedAppend(edits, more);
    RequestsAppend(edits, more);
    PerformAppend(NO_TABLES, site, asked, after);
    PerformAllAlike(PerformAll(NO_TABLES, site, asked), panel.tables, site, after);
  }

  lemma ReflectsOn(site: Site, edits: seq<Edit>, was: Panel, now: Panel)
    requires Reflects(site, edits, was) && SamePanel(was, now)
    ensures Reflects(site, edits, now)
  {
    hide PerformAll, SwitchedOn;
    FrozenIsSame(was.tables, now.tables);
    SameTablesTransitive(PerformAll(NO_TABLES, site, TableRequests(edits)), was.tables, now.tables);
  }

  lemma NothingReflected(site: Site)
    ensures Reflects(site, [], INITIAL)
  {
    NothingSwitched();
    SameTablesReflexive(NO_TABLES);
  }

  lemma AllEditsSnoc(commands: seq<Command>, command: Command)
    ensures AllEdits(commands + [command]) == AllEdits(commands) + command.edits
  {
    assert (commands + [command])[..|commands|] == commands;
  }

  /**
   The settings a command runs under are those that all edits of the session amount to, one after another
   from empty tables and a clock switch that is off, whatever was evaluated between them.
   */
  lemma {:induction false} SettingsReflect(trial: Trial, commands: seq<Command>, command: Command)
    requires Replay(trial, commands).Stopped?
    ensures var settings := SettingsFor(trial, Replay(trial, commands), command);
      Reflects(trial.site, AllEdits(commands + [command]), settings) && settings.stepOver == command.step
    decreases |commands|
  {
    hide Reflects, SamePanel, Advance, ApplyEdits, PassesUpTo, Wants, Breaks;
    AllEditsSnoc(commands, command);
    var r := Replay(trial, commands);
    if commands == [] {
      NothingReflected(trial.site);
    } else {
      var init, last := commands[..|commands| - 1], commands[|commands| - 1];
      assert init + [last] == commands;
      SettingsReflect(trial, init, last);
      var before := Replay(trial, init);
      var settings := SettingsFor(trial, before, last);
      SamePanelReflexive(settings);
      var _ := AdvanceToLeast(trial, before.pauses, before.pos, settings, settings);
      ReflectsOn(trial.site, AllEdits(commands), settings, r.panel);
    }
    ReflectsEdits(trial.site, AllEdits(commands), r.panel, command.edits);
    StepApart(trial.site, AllEdits(commands + [command]), ApplyEdits(trial.site, r.panel, command.edits), command.step);
  }

  lemma StepApart(site: Site, edits: seq<Edit>, panel: Panel, step: bool)
    requires Reflects(site, edits, panel)
    ensures Reflects(site, edits, panel.(stepOver := step))
  {
  }

  /**
   What a command wants, over the commands alone: a clock edge if the last edit of the switch turned it on;
   a statement only if it is stepped to, or stands as a breakpoint; and without a condition always then.
   */
  lemma WantsByCommands(trial: Trial, commands: seq<Command>, command: Command, event: Event)
    requires Replay(trial, commands).Stopped?
    ensures var edits, settings := AllEdits(commands + [command]), SettingsFor(trial, Replay(trial, commands), command);
      match event
      case ClockEdge(_) =>
        !Breaks(trial.site, settings, event) && (Wants(trial.site, settings, event) <==> SwitchedOn(edits))
      case Stmt(id, _) =>
        && var considered := command.step || Stands(trial.site, TableRequests(edits), id);
        && (Wants(trial.site, settings, event) || Breaks(trial.site, settings, event) ==> considered)
        && (considered && !StandsWithCondition(trial.site, TableRequests(edits), id) ==>
              Wants(trial.site, settings, event) && !Breaks(trial.site, settings, event))
  {
    hide Replay, Satisfied, Fails, SwitchedOn, Stands, StandsWithCondition;
    SettingsReflect(trial, commands, command);
    if event.Stmt? {
      BreakPointsStand(trial.site, TableRequests(AllEdits(commands + [command])), event.id);
    }
  }

  /**
   In every session a command passes by exactly those clock edges that come while the switch is off: on its
   way no edge came with the switch on, and if it stops at an edge, the switch is on.
   */
  lemma ClockByCommands(trial: Trial, commands: seq<Command>, command: Command)
    requires Replay(trial, commands).Stopped?
    ensures var before, after := Replay(trial, commands), Replay(trial, commands + [command]);
      var on := SwitchedOn(AllEdits(commands + [command]));
      && (after.Stopped? && trial.trace[after.pos - 1].ClockEdge? ==> on)
      && forall i :: before.pos <= i < |trial.trace| && trial.trace[i].ClockEdge? && on ==>
           !after.Ended? && (after.Stopped? ==> after.pos <= i + 1)
  {
    hide Replay, Wants, Breaks, SwitchedOn;
    var end := CommandRunsToLeast(trial, commands, command);
    forall i | 0 <= i < |trial.trace| && trial.trace[i].ClockEdge?
      ensures Wants(trial.site, SettingsFor(trial, Replay(trial, commands), command), trial.trace[i])
        <==> SwitchedOn(AllEdits(commands + [command]))
    {
      WantsByCommands(trial, commands, command, trial.trace[i]);
    }
  }

  // --------------------------------------------------- sessions without poison

  /** No edit poisons a breakpoint when its turn comes. */
  ghost predicate PoisonFreeEdits(site: Site, panel: Panel, edits: seq<Edit>) {
    edits != [] ==>
      var init, last := edits[..|edits| - 1], edits[|edits| - 1];
      && PoisonFreeEdits(site, panel, init)
      && (last.Table? ==> !Poisonous(ApplyEdits(site, panel, init).tables, site, last.request))
  }

  /** Nor strands a slot. */
  ghost predicate SoundEdits(site: Site, panel: Panel, edits: seq<Edit>) {
    edits != [] ==>
      var init, last := edits[..|edits| - 1], edits[|edits| - 1];
      && SoundEdits(site, panel, init)
      && (last.Table? ==> !Spoils(ApplyEdits(site, panel, init).tables, site, last.request))
  }

  lemma {:induction false} EditsKeepValid(site: Site, panel: Panel, edits: seq<Edit>)
    requires Valid(panel.tables) && PoisonFreeEdits(site, panel, edits)
    ensures Valid(ApplyEdits(site, panel, edits).tables)
  {
    hide Valid, Perform, Poisonous;
    if edits != [] {
      var init, last := edits[..|edits| - 1], edits[|edits| - 1];
      EditsKeepValid(site, panel, init);
      if last.Table? {
        RequestKeepsValid(ApplyEdits(site, panel, init).tables, site, last.request);
      }
    }
  }

  lemma {:induction false} EditsKeepGood(site: Site, panel: Panel, edits: seq<Edit>)
    requires Good(panel.tables) && SoundEdits(site, panel, edits)
    ensures Good(ApplyEdits(site, panel, edits).tables)
  {
    hide Good, Perform, Spoils;
    if edits != [] {
      var init, last := edits[..|edits| - 1], edits[|edits| - 1];
      EditsKeepGood(site, panel, init);
      if last.Table? {
        RequestKeepsGood(ApplyEdits(site, panel, init).tables, site, last.request);
      }
    }
  }

  /** No command of the session poisons a breakpoint. */
  ghost predicate PoisonFreeCommands(trial: Trial, commands: seq<Command>) {
    commands != [] ==>
      var init, last := commands[..|commands| - 1], commands[|commands| - 1];
      && PoisonFreeCommands(trial, init)
      && var r := Replay(trial, init);
        r.Stopped? ==> PoisonFreeEdits(trial.site, r.panel, last.edits)
  }

  ghost predicate SoundCommands(trial: Trial, commands: seq<Command>) {
    commands != [] ==>
      var init, last := commands[..|commands| - 1], commands[|commands| - 1];
      && SoundCommands(trial, init)
      && var r := Replay(trial, init);
        r.Stopped? ==> SoundEdits(trial.site, r.panel, last.edits)
  }

  /** Running on from valid tables never crashes, and leaves what the tables agree on. */
  lemma AdvanceKeeps(trial: Trial, pauses: seq<nat>, pos: nat, panel: Panel)
    requires pos <= |trial.trace| && Valid(panel.tables)
    ensures var r := Advance(trial, pauses, pos, panel);
      !r.Crashed? && Valid(r.panel.tables) && (Good(panel.tables) ==> Good(r.panel.tables))
  {
    hide React, Wants, Breaks, Valid, Good, Advance;
    SamePanelReflexive(panel);
    var end := AdvanceToLeast(trial, pauses, pos, panel, panel);
    if end < |trial.trace| {
      WantsOfNow(trial.site, panel, trial.trace[end]);
    }
    var r := Advance(trial, pauses, pos, panel);
    FrozenIsSame(panel.tables, r.panel.tables);
    SameTablesKeepGood(panel.tables, r.panel.tables);
  }

  lemma {:induction false} ReplayKeepsValid(trial: Trial, commands: seq<Command>)
    requires PoisonFreeCommands(trial, commands)
    ensures var r := Replay(trial, commands); !r.Crashed? && Valid(r.panel.tables)
  {
    hide React, Advance;
    if commands != [] {
      hide Valid;
      var init, last := commands[..|commands| - 1], commands[|commands| - 1];
      ReplayKeepsValid(trial, init);
      var r := Replay(trial, init);
      if r.Stopped? {
        EditsKeepValid(trial.site, r.panel, last.edits);
        AdvanceKeeps(trial, r.pauses, r.pos, SettingsFor(trial, r, last));
      }
    }
  }

  lemma {:induction false} ReplayKeepsGood(trial: Trial, commands: seq<Command>)
    requires SoundCommands(trial, commands)
    ensures var r := Replay(trial, commands); !r.Crashed? && Good(r.panel.tables)
  {
    hide React, Advance;
    if commands != [] {
      hide Valid, Covered;
      var init, last := commands[..|commands| - 1], commands[|commands| - 1];
      ReplayKeepsGood(trial, init);
      var r := Replay(trial, init);
      if r.Stopped? {
        EditsKeepGood(trial.site, r.panel, last.edits);
        AdvanceKeeps(trial, r.pauses, r.pos, SettingsFor(trial, r, last));
      }
    }
  }

  /** In a session whose commands are sound, what a command wants is decided by the signals alone. */
  lemma SoundCommandsWantNow(trial: Trial, commands: seq<Command>, command: Command, event: Event)
    requires SoundCommands(trial, commands + [command]) && Replay(trial, commands).Stopped?
    ensures var settings := SettingsFor(trial, Replay(trial, commands), command);
      && !Breaks(trial.site, settings, event)
      && (Wants(trial.site, settings, event) <==> WantsNow(trial.site, settings, event))
  {
    hide React, Replay, Wants, WantsNow, Breaks;
    assert (commands + [command])[..|commands|] == commands;
    ReplayKeepsGood(trial, commands);
    var before := Replay(trial, commands);
    EditsKeepGood(trial.site, before.panel, command.edits);
    WantsOfNow(trial.site, SettingsFor(trial, before, command), event);
  }

  // ------------------------------------------------ stepping against continuing

  /** All pauses from `pos` on when every command is given without edits. */
  function Collect(trial: Trial, pos: nat, panel: Panel): seq<nat>
    requires pos <= |trial.trace|
    decreases |trial.trace| - pos
  {
    if pos == |trial.trace| then []
    else
      match React(trial.site, panel, trial.trace[pos])
      case Crash => []
      case Hit(pause, after) =>
        if pause then [pos + 1] + Collect(trial, pos + 1, after) else Collect(trial, pos + 1, after)
  }

  /** A session that edits at start-up only and then gives `n` more commands of one kind. */
  function Uniform(edits: seq<Edit>, step: bool, n: nat): seq<Command> {
    if n == 0 then [Command(edits, step)] else Uniform(edits, step, n - 1) + [Command([], step)]
  }

  /** Pauses and statements of a breakpoint; clock pauses are kept. */
  predicate Stays(trial: Trial, breakPoints: set<nat>, pause: nat) {
    0 < pause <= |trial.trace| && (trial.trace[pause - 1].Stmt? ==> trial.trace[pause - 1].id in breakPoints)
  }

  function AtBreakPoints(trial: Trial, breakPoints: set<nat>, pauses: seq<nat>): seq<nat> {
    if pauses == [] then []
    else
      (if Stays(trial, breakPoints, pauses[0]) then [pauses[0]] else [])
      + AtBreakPoints(trial, breakPoints, pauses[1..])
  }

  /** A lookup fails sooner or later. */
  predicate Fated(trial: Trial, pos: nat, panel: Panel)
    requires pos <= |trial.trace|
    decreases |trial.trace| - pos
  {
    pos < |trial.trace| &&
    match React(trial.site, panel, trial.trace[pos])
    case Crash => true
    case Hit(_, after) => Fated(trial, pos + 1, after)
  }

  /** Only breakpoints have conditions. */
  predicate Owned(t: Tables) {
    t.symbols.Keys <= t.breakPoints
  }

  lemma PerformKeepsOwned(t: Tables, site: Site, request: TableRequest)
    requires Owned(t)
    ensures Owned(Perform(t, site, request))
  {
    hide ScanAll, WithTime, AddExpr;
    if !request.Insert? {
      RemoveAllMeaning(t, Targets(site, request));
    }
  }

  lemma {:induction false} EditsKeepOwned(site: Site, panel: Panel, edits: seq<Edit>)
    requires Owned(panel.tables)
    ensures Owned(ApplyEdits(site, panel, edits).tables)
  {
    hide Perform, Owned;
    if edits != [] {
      var init, last := edits[..|edits| - 1], edits[|edits| - 1];
      EditsKeepOwned(site, panel, init);
      if last.Table? {
        PerformKeepsOwned(ApplyEdits(site, panel, init).tables, site, last.request);
      }
    }
  }

  /**
   Under the same tables, continuing pauses at those stepping pauses that are breakpoints.  A condition is
   evaluated at the same hits by both, so the tables stay the same, and a lookup fails for both or none.
   */
  lemma {:induction false} CollectCovers(trial: Trial, pos: nat, cont: Panel, step: Panel)
    requires pos <= |trial.trace|
    requires Owned(cont.tables) && cont.tables == step.tables
    requires !cont.stepOver && step.stepOver && cont.clockOn == step.clockOn
    ensures Collect(trial, pos, cont) == AtBreakPoints(trial, cont.tables.breakPoints, Collect(trial, pos, step))
    ensures Fated(trial, pos, cont) == Fated(trial, pos, step)
    decreases |trial.trace| - pos
  {
    if pos < |trial.trace| {
      ReactCovers(trial.site, cont, step, trial.trace[pos]);
      hide React;
      var hit := React(trial.site, cont, trial.trace[pos]);
      if hit.Hit? {
        var after := React(trial.site, step, trial.trace[pos]).after;
        CollectCovers(trial, pos + 1, hit.after, after);
        var rest := Collect(trial, pos + 1, after);
        assert ([pos + 1] + rest)[1..] == rest;
      }
    }
  }

  lemma ReactCovers(site: Site, cont: Panel, step: Panel, event: Event)
    requires Owned(cont.tables) && cont.tables == step.tables
    requires !cont.stepOver && step.stepOver && cont.clockOn == step.clockOn
    ensures match React(site, cont, event)
      case Crash => React(site, step, event).Crash?
      case Hit(pause, after) =>
        && var other := React(site, step, event);
        && other.Hit?
        && after.tables == other.after.tables && Owned(after.tables)
        && after.tables.breakPoints == cont.tables.breakPoints
        && !after.stepOver && other.after.stepOver && after.clockOn == other.after.clockOn
        && (pause <==> other.pause && (event.Stmt? ==> event.id in cont.tables.breakPoints))
  {
  }

  /** The session is on its way through `all`, and to a failing lookup or not. */
  predicate OnTheWay(trial: Trial, all: seq<nat>, fated: bool, step: bool, r: Halt)
    requires r.Stopped? ==> r.pos <= |trial.trace|
  {
    match r
    case Stopped(pauses, pos, panel) =>
      pauses + Collect(trial, pos, panel) == all && Fated(trial, pos, panel) == fated && panel.stepOver == step
    case Ended(pauses, _) => pauses == all && !fated
    case Crashed(pauses) => pauses == all && fated
  }

  lemma {:induction false} AdvanceOnTheWay(trial: Trial, all: seq<nat>, pauses: seq<nat>, pos: nat, now: Panel)
    requires pos <= |trial.trace| && pauses + Collect(trial, pos, now) == all
    ensures OnTheWay(trial, all, Fated(trial, pos, now), now.stepOver, Advance(trial, pauses, pos, now))
    decreases |trial.trace| - pos
  {
    if pos < |trial.trace| {
      ReactKeepsStep(trial.site, now, trial.trace[pos]);
      hide React;
      var hit := React(trial.site, now, trial.trace[pos]);
      if hit.Hit? {
        var rest := Collect(trial, pos + 1, hit.after);
        assert pauses + ([pos + 1] + rest) == pauses + [pos + 1] + rest;
        if !hit.pause {
          AdvanceOnTheWay(trial, all, pauses, pos + 1, hit.after);
        }
      }
    }
  }

  lemma ReactKeepsStep(site: Site, panel: Panel, event: Event)
    ensures var hit := React(site, panel, event); hit.Hit? ==> hit.after.stepOver == panel.stepOver
  {
  }

  /** A session of one kind of command makes one pause after another of the same list. */
  lemma {:induction false} UniformCollects(trial: Trial, edits: seq<Edit>, step: bool, n: nat)
    ensures var panel := ApplyEdits(trial.site, INITIAL, edits).(stepOver := step);
      OnTheWay(trial, [0] + Collect(trial, 0, panel), Fated(trial, 0, panel), step,
               Replay(trial, Uniform(edits, step, n)))
  {
    hide React, Collect, Advance, ApplyEdits, Fated, OnTheWay;
    var panel := ApplyEdits(trial.site, INITIAL, edits).(stepOver := step);
    var all := [0] + Collect(trial, 0, panel);
    if n == 0 {
      assert [Command(edits, step)][..0] == [];
      assert Replay(trial, []) == Stopped([0], 0, INITIAL);
      AdvanceOnTheWay(trial, all, [0], 0, panel);
    } else {
      UniformCollects(trial, edits, step, n - 1);
      UniformStep(trial, edits, step, n);
      WayOn(trial, all, Fated(trial, 0, panel), step, Replay(trial, Uniform(edits, step, n - 1)));
    }
  }

  lemma UniformStep(trial: Trial, edits: seq<Edit>, step: bool, n: nat)
    requires n > 0
    ensures Replay(trial, Uniform(edits, step, n)) ==
      Obey(trial, Replay(trial, Uniform(edits, step, n - 1)), Command([], step))
  {
    hide Obey;
    var commands := Uniform(edits, step, n);
    assert commands[..|commands| - 1] == Uniform(edits, step, n - 1);
    assert commands[|commands| - 1] == Command([], step);
  }

  lemma WayOn(trial: Trial, all: seq<nat>, fated: bool, step: bool, before: Halt)
    requires before.Stopped? ==> before.pos <= |trial.trace|
    requires OnTheWay(trial, all, fated, step, before)
    ensures OnTheWay(trial, all, fated, step, Obey(trial, before, Command([], step)))
  {
    hide React, Collect, Advance, Fated;
    if before.Stopped? {
      assert ApplyEdits(trial.site, before.panel, []).(stepOver := step) == before.panel;
      AdvanceOnTheWay(trial, all, before.pauses, before.pos, before.panel);
    }
  }

  /**
   Over one trace and one set of tables, whatever the edits, the pauses of a session that only continues
   are the pauses of a session that only steps, less the statements that are no breakpoints; and where a
   lookup fails in the one, it does in the other.
   */
  lemma SteppingCoversContinuing(trial: Trial, edits: seq<Edit>, n: nat, m: nat)
    requires !Replay(trial, Uniform(edits, false, n)).Stopped? && !Replay(trial, Uniform(edits, true, m)).Stopped?
    ensures var continued, stepped := Replay(trial, Uniform(edits, false, n)), Replay(trial, Uniform(edits, true, m));
      && (continued.Crashed? <==> stepped.Crashed?)
      && continued.pauses != [] && stepped.pauses != []
      && continued.pauses[1..] ==
         AtBreakPoints(trial, ApplyEdits(trial.site, INITIAL, edits).tables.breakPoints, stepped.pauses[1..])
  {
    hide React, Collect, Replay, Fated, ApplyEdits, Owned;
    UniformCollects(trial, edits, false, n);
    UniformCollects(trial, edits, true, m);
    var base := ApplyEdits(trial.site, INITIAL, edits);
    NoTablesOwned();
    EditsKeepOwned(trial.site, INITIAL, edits);
    CollectCovers(trial, 0, base.(stepOver := false), base.(stepOver := true));
  }

  lemma NoTablesOwned()
    ensures Owned(NO_TABLES)
  {
  }

  // ------------------------------------------------------- clock edges only

  /** The events before `n` that are clock edges, as pauses. */
  function ClockPauses(trace: seq<Event>, from: nat): seq<nat>
    requires from <= |trace|
    decreases |trace| - from
  {
    if from == |trace| then []
    else if trace[from].ClockEdge? then [from + 1] + ClockPauses(trace, from + 1)
    else ClockPauses(trace, from + 1)
  }

  /** Without breakpoints, continuing with the clock switched on pauses at every clock edge. */
  lemma {:induction false} ClockOnly(trial: Trial, pos: nat)
    requires pos <= |trial.trace|
    ensures Collect(trial, pos, Panel(NO_TABLES, true, false)) == ClockPauses(trial.trace, pos)
    decreases |trial.trace| - pos
  {
    if pos < |trial.trace| {
      ClockOnly(trial, pos + 1);
    }
  }
}
