/**
 What the table functions mean to a user of the debugger: when a condition stops, and which breakpoints
 an insert or a delete touches.
 */
module Verdicts {
  import opened Options
  import opened Text
  import opened Handles
  import opened Conditions
  import opened Tables
  import Locations
  import Paths

  // ------------------------------------------------------------ the conditions

  /** The value of an expression over an assignment of its names, without any slots. */
  function Meaning(e: Expr, env: map<string, real>): real {
    match e
    case Num(v) => v
    case Name(n) => if n in env then env[n] else 0.0
    case Not(a) => FromBool(Meaning(a, env) == 0.0)
    case Bin(op, l, r) => Apply(op, Meaning(l, env), Meaning(r, env))
  }

  lemma {:induction false} MeaningDependsOnNames(e: Expr, a: map<string, real>, b: map<string, real>)
    requires forall n :: n in Names(e) ==> (n in a <==> n in b) && (n in a ==> a[n] == b[n])
    ensures Meaning(e, a) == Meaning(e, b)
  {
    match e
    case Num(_) =>
    case Name(_) =>
    case Not(x) => MeaningDependsOnNames(x, a, b);
    case Bin(_, l, r) =>
      MeaningDependsOnNames(l, a, b);
      MeaningDependsOnNames(r, a, b);
  }

  /** What the names stand for at a hit: constants, values fetched now, and slots that are not fetched. */
  function Environment(entry: Entry, m: map<string, string>, top: string, signals: Signals): map<string, real>
    requires AllReadable(m, top, signals)
  {
    (map n | n in entry.vars && n in entry.bound ::
      if n in m then GetValue(top, signals, m[n]).value as real else entry.vars[n])
    + entry.consts
  }

  /** The same without the slots: for every name that is no constant, the value its handle has now. */
  function Assignment(entry: Entry, m: map<string, string>, top: string, signals: Signals): map<string, real>
    requires AllReadable(m, top, signals)
  {
    (map n | n in m && n in entry.bound :: GetValue(top, signals, m[n]).value as real) + entry.consts
  }

  lemma {:induction false} EvalIsMeaning(e: Expr, entry: Entry, env: map<string, real>)
    requires forall n :: n in Names(e) ==> Lookup(entry, n) == if n in env then env[n] else 0.0
    ensures Eval(e, entry) == Meaning(e, env)
  {
    match e
    case Num(_) =>
    case Name(_) =>
    case Not(a) => EvalIsMeaning(a, entry, env);
    case Bin(_, l, r) =>
      EvalIsMeaning(l, entry, env);
      EvalIsMeaning(r, entry, env);
  }

  /** A lookup fails at the hit. */
  predicate Fails(t: Tables, top: string, id: nat, signals: Signals)
    requires id in t.symbols
  {
    id !in t.mapping
    || (AllReadable(t.mapping[id], top, signals) && !(t.mapping[id].Keys <= t.symbols[id].vars.Keys))
  }

  /**
   A condition does not hold the simulator back: some signal cannot be read, or it never compiled, or it
   is true of the signals as they are now and of the slots that are not fetched.
   */
  predicate Satisfied(t: Tables, top: string, id: nat, signals: Signals)
    requires id in t.symbols
  {
    id in t.mapping
    && var entry, m := t.symbols[id], t.mapping[id];
      AllReadable(m, top, signals) && entry.compiled.Some? ==>
        Truth(Meaning(entry.compiled.value, Environment(entry, m, top, signals)))
  }

  /** That is the outcome at a breakpoint with a condition, whatever the tables. */
  lemma VerdictMeaning(t: Tables, top: string, id: nat, signals: Signals)
    requires id in t.symbols
    ensures var o := Evaluate(t, top, id, signals);
      if Fails(t, top, id, signals) then o.Throws? else o.Verdict? && (o.stop <==> Satisfied(t, top, id, signals))
  {
    if !Fails(t, top, id, signals) {
      var entry, m := t.symbols[id], t.mapping[id];
      if AllReadable(m, top, signals) && entry.compiled.Some? {
        var stored := Store(entry, Fetched(m, top, signals));
        EvalIsMeaning(entry.compiled.value, stored, Environment(entry, m, top, signals));
      }
    }
  }

  /** With valid tables no lookup fails. */
  lemma ValidNeverFails(t: Tables, top: string, id: nat, signals: Signals)
    requires Valid(t) && id in t.symbols
    ensures !Fails(t, top, id, signals)
  {
    assert ValidAt(t, id);
  }

  /** Hits before this one do not matter to either. */
  lemma SatisfiedAlike(a: Tables, b: Tables, top: string, id: nat, signals: Signals)
    requires Frozen(a, b) && id in a.symbols
    ensures Fails(a, top, id, signals) == Fails(b, top, id, signals)
    ensures !Fails(a, top, id, signals) ==> Satisfied(a, top, id, signals) == Satisfied(b, top, id, signals)
  {
    VerdictMeaning(a, top, id, signals);
    VerdictMeaning(b, top, id, signals);
    EvaluateAlike(a, b, top, id, signals);
  }

  /** The same of the signals as they are now alone. */
  predicate SatisfiedNow(t: Tables, top: string, id: nat, signals: Signals)
    requires id in t.symbols
  {
    id in t.mapping
    && var entry, m := t.symbols[id], t.mapping[id];
      AllReadable(m, top, signals) && entry.compiled.Some? ==>
        Truth(Meaning(entry.compiled.value, Assignment(entry, m, top, signals)))
  }

  /** With good tables what the slots hold plays no part. */
  lemma GoodIsOfNow(t: Tables, top: string, id: nat, signals: Signals)
    requires Good(t) && id in t.symbols
    ensures Satisfied(t, top, id, signals) <==> SatisfiedNow(t, top, id, signals)
  {
    assert ValidAt(t, id);
    var entry, m := t.symbols[id], t.mapping[id];
    assert Reads(entry) <= m.Keys;
    if AllReadable(m, top, signals) && entry.compiled.Some? {
      MeaningDependsOnNames(entry.compiled.value,
                            Environment(entry, m, top, signals), Assignment(entry, m, top, signals));
    }
  }

  /**
   A first registration maps the names recognised in the condition's text, and compiles the condition
   exactly when each of its names is one of those or a constant recognised there.
   */
  lemma FirstRegistration(t: Tables, site: Site, id: nat, source: Source)
    requires id !in t.symbols && source.text != "" && id in site.scopes
    requires !HasBad(site.scopes[id].All(), source.text)
    ensures var vs, text, after := site.scopes[id].All(), source.text, Perform(t, site, Insert(id, source));
      && id in after.symbols && id in after.mapping
      && (forall n :: n in after.mapping[id] <==> Maps(vs, n, text))
      && after.symbols[id].compiled ==
        if source.parse.Some?
           && forall n :: n in Names(source.parse.value) ==> Maps(vs, n, text) || HasConstant(vs, n, text)
        then source.parse
        else None
  {
    hide Register, Maps, HasConstant;
    var vs := site.scopes[id].All();
    var added := t.(breakPoints := t.breakPoints + {id});
    RegisterForces(added, id, source, site.scopes[id], site.top);
    RegisterHasMapping(added, id, source, site.scopes[id], site.top);
    forall n
      ensures n in Register(added, id, source, site.scopes[id], site.top).mapping[id] <==> Maps(vs, n, source.text)
    {
      RegisterMaps(added, id, source, site.scopes[id], site.top, n);
    }
    assert forall n :: KnownAfter(EMPTY_ENTRY, vs, n, source.text) <==>
      Maps(vs, n, source.text) || HasConstant(vs, n, source.text);
  }

  /**
   Whatever the tables, a name that an insert maps stands for its first mention: a variable of the context for
   the signal it names, one of the breakpoint's own for the signal below its instance; the time, where no
   signal is mentioned under its name, for the simulator's own name of it.
   */
  lemma InsertHandles(t: Tables, site: Site, id: nat, source: Source, n: string) returns (j: nat)
    requires source.text != "" && id in site.scopes
    requires var after := Perform(t, site, Insert(id, source)); id in after.mapping && n in after.mapping[id]
    ensures var vs, handle := site.scopes[id].All(), Perform(t, site, Insert(id, source)).mapping[id][n];
      if MappedFirst(vs, n, source.text) then
        && FirstMention(vs, j, n, source.text)
        && handle == GetHandleName(site.top, if vs[j].isContext then vs[j].value else vs[j].handle + "." + vs[j].value)
      else handle == "$time" && n in {"time", "time_"}
  {
    hide Register;
    var added := t.(breakPoints := t.breakPoints + {id});
    j := RegisterHandles(added, id, source, site.scopes[id], site.top, n);
  }

  /**
   What a name of a first condition stands for at a hit: the signal of its first mention, the time if it is
   the time's name and no signal's, else the constant of its first mention.
   */
  ghost predicate Denotes(vs: seq<Variable>, n: string, text: string, top: string, signals: Signals, v: int) {
    if MappedFirst(vs, n, text) then
      exists j: nat :: FirstMention(vs, j, n, text)
        && Some(v) == GetValue(top, signals,
             GetHandleName(top, if vs[j].isContext then vs[j].value else vs[j].handle + "." + vs[j].value))
    else if Maps(vs, n, text) then v == signals.time
    else exists j: nat :: FirstConstant(vs, j, n, text) && Stoi(vs[j].value) == Some(v)
  }

  /**
   A first condition that compiles stops the simulation at a hit exactly when it is true of what its names
   stand for then, if all signals recognised in it can be read.
   */
  lemma FirstVerdict(t: Tables, site: Site, id: nat, source: Source, signals: Signals, env: map<string, int>)
    requires id !in t.symbols && source.text != "" && id in site.scopes && source.parse.Some?
    requires !HasBad(site.scopes[id].All(), source.text)
    requires forall n :: n in Names(source.parse.value) ==>
      n in env && Denotes(site.scopes[id].All(), n, source.text, site.top, signals, env[n])
    ensures var after := Perform(t, site, Insert(id, source));
      && id in after.symbols && id in after.mapping
      && var o := Evaluate(after, site.top, id, signals);
        && o.Verdict?
        && (AllReadable(after.mapping[id], site.top, signals) ==>
             (o.stop <==> Truth(Meaning(source.parse.value, map n | n in env :: env[n] as real))))
  {
    hide Register, Evaluate, Denotes, Maps, HasConstant, MappedFirst, HasBad, Environment, Truth;
    var vs, e := site.scopes[id].All(), source.parse.value;
    var added := t.(breakPoints := t.breakPoints + {id});
    var after := Register(added, id, source, site.scopes[id], site.top);
    RegisterForces(added, id, source, site.scopes[id], site.top);
    RegisterHasMapping(added, id, source, site.scopes[id], site.top);
    forall n
      ensures n in after.mapping[id] ==> n in after.symbols[id].vars
    {
      RegisterMaps(added, id, source, site.scopes[id], site.top, n);
      var _ := RegisterBinds(added, id, source, site.scopes[id], site.top, n);
    }
    forall n | n in Names(e) ensures KnownAfter(EMPTY_ENTRY, vs, n, source.text) {
      DenotedIsKnown(vs, n, source.text, site.top, signals, env[n]);
    }
    VerdictMeaning(after, site.top, id, signals);
    if AllReadable(after.mapping[id], site.top, signals) {
      var now := Environment(after.symbols[id], after.mapping[id], site.top, signals);
      forall n | n in Names(e) ensures n in now && now[n] == env[n] as real {
        NameDenotes(added, site, id, source, signals, n, env[n]);
      }
      MeaningDependsOnNames(e, now, map n | n in env :: env[n] as real);
    }
  }

  lemma DenotedIsKnown(vs: seq<Variable>, n: string, text: string, top: string, signals: Signals, v: int)
    requires Denotes(vs, n, text, top, signals, v)
    ensures KnownAfter(EMPTY_ENTRY, vs, n, text)
  {
    hide IsExprSymbol, GetValue, GetHandleName, Stoi;
  }

  /** In the environment of a hit a name has the value it stands for. */
  lemma NameDenotes(t: Tables, site: Site, id: nat, source: Source, signals: Signals, n: string, v: int)
    requires id !in t.symbols && id in site.scopes && !HasBad(site.scopes[id].All(), source.text)
    requires Denotes(site.scopes[id].All(), n, source.text, site.top, signals, v)
    requires var after := Register(t, id, source, site.scopes[id], site.top);
      id in after.symbols && id in after.mapping && AllReadable(after.mapping[id], site.top, signals)
    ensures var after := Register(t, id, source, site.scopes[id], site.top);
      var now := Environment(after.symbols[id], after.mapping[id], site.top, signals);
      n in now && now[n] == v as real
  {
    hide Register, GetHandleName, Stoi, HasBad, MappedFirst, Maps, HasConstant;
    var vs, scope := site.scopes[id].All(), site.scopes[id];
    RegisterMaps(t, id, source, scope, site.top, n);
    var c := RegisterBinds(t, id, source, scope, site.top, n);
    DenotedIsKnown(vs, n, source.text, site.top, signals, v);
    var after := Register(t, id, source, scope, site.top);
    if Maps(vs, n, source.text) {
      var j := RegisterHandles(t, id, source, scope, site.top, n);
      MappedIsMaps(vs, n, source.text);
      assert GetValue(site.top, signals, after.mapping[id][n]) == Some(v);
    } else {
      MappedIsMaps(vs, n, source.text);
      assert Stoi(vs[c].value) == Some(v);
    }
  }

  lemma MappedIsMaps(vs: seq<Variable>, n: string, text: string)
    ensures MappedFirst(vs, n, text) ==> Maps(vs, n, text)
  {
  }

  /** What a condition's names can be taken from is recognised in its text. */
  lemma KnownIsSymbol(vs: seq<Variable>, n: string, text: string)
    requires KnownAfter(EMPTY_ENTRY, vs, n, text)
    ensures IsExprSymbol(text, n)
  {
    hide IsExprSymbol;
  }

  /**
   A first condition that names two signals never compiles: at most one of them is recognised.  The
   breakpoint then stops whatever the signals are.
   */
  lemma TwoNamesNeverCompile(t: Tables, site: Site, id: nat, source: Source, a: string, b: string)
    requires Good(t) && id !in t.symbols && source.text != "" && id in site.scopes && source.parse.Some?
    requires a in Names(source.parse.value) && b in Names(source.parse.value) && a != b && IsWord(a) && IsWord(b)
    ensures var after := Perform(t, site, Insert(id, source));
      && Good(after) && id in after.breakPoints
      && (id in after.symbols ==>
        && after.symbols[id].compiled.None?
        && forall signals :: Satisfied(after, site.top, id, signals))
  {
    hide Register, IsExprSymbol, IsWord, KnownAfter, Strands, Poisons;
    var vs := site.scopes[id].All();
    FreshKeepsGood(t, site, Insert(id, source));
    InsertMeaning(t, site, id, source);
    if KnownAfter(EMPTY_ENTRY, vs, a, source.text) && KnownAfter(EMPTY_ENTRY, vs, b, source.text) {
      KnownIsSymbol(vs, a, source.text);
      KnownIsSymbol(vs, b, source.text);
      AtMostOneSymbol(source.text, if |a| <= |b| then a else b, if |a| <= |b| then b else a);
    }
    var added := t.(breakPoints := t.breakPoints + {id});
    var after := Register(added, id, source, site.scopes[id], site.top);
    if !HasBad(vs, source.text) {
      RegisterForces(added, id, source, site.scopes[id], site.top);
    }
    if id in after.symbols {
      FailedScanKeeps(added, site, id, source);
      assert ValidAt(after, id);
    }
  }

  /** Where a constant does not parse, no condition is registered. */
  lemma FailedScanKeeps(t: Tables, site: Site, id: nat, source: Source)
    requires id in site.scopes
    ensures HasBad(site.scopes[id].All(), source.text) ==>
      Register(t, id, source, site.scopes[id], site.top).symbols == t.symbols
  {
    ScanFails(site.scopes[id].All(), source.text, site.top);
  }

  // --------------------------------------------------------------- the deletes

  /** A delete takes away its targets, with their conditions, and nothing else. */
  lemma {:induction false} RemoveAllMeaning(t: Tables, ids: seq<nat>)
    ensures var after := RemoveAll(t, ids);
      && (forall i :: i in after.breakPoints <==> i in t.breakPoints && i !in ids)
      && (forall i :: i in after.symbols <==> i in t.symbols && i !in ids)
      && (forall i :: i in after.symbols ==> after.symbols[i] == t.symbols[i])
      && after.mapping == t.mapping
  {
    if ids != [] {
      var init, last := ids[..|ids| - 1], ids[|ids| - 1];
      RemoveAllMeaning(t, init);
      assert forall i :: i in ids <==> i in init || i == last;
    }
  }

  /** The database has the breakpoint on this line. */
  predicate OnLine(site: Site, id: nat, filename: string, line: nat) {
    BreakPointRow(id, filename, line) in site.rows
  }

  /**
   The route hands its handler the empty path whatever the request says, so no request by line removes
   anything.
   */
  lemma DeleteLineRemovesNothing(t: Tables, site: Site)
    ensures Perform(t, site, DeleteLine("")) == t
  {
    assert !Locations.Locate("").Found?;
  }

  /**
   The body of that handler would take away exactly the breakpoints the database has on the line, whatever
   the column says.
   */
  lemma DeleteLineMeaning(t: Tables, site: Site, filename: string, line: nat, column: string)
    requires filename != "" && Clean(filename, ':') && line < Locations.NO_LINE
    requires Digits(column) && (column == "" ==> ':' !in filename)
    ensures var after := Perform(t, site, DeleteLine(filename + ":" + ToDec(line) + Locations.Column(column)));
      forall i :: i in after.breakPoints <==> i in t.breakPoints && !OnLine(site, i, filename, line)
  {
    hide Locations.Locate;
    var path := filename + ":" + ToDec(line) + Locations.Column(column);
    Locations.LocationValue(filename, ToDec(line), column);
    var ids := Targets(site, DeleteLine(path));
    assert ids == IdsAtLine(site.rows, filename, line);
    RemoveAllMeaning(t, ids);
    assert forall i :: OnLine(site, i, filename, line) <==> i in ids;
  }

  /**
   Deleting by id takes away that breakpoint and its condition, unless the id is too large for a signed
   32-bit integer: then the request is answered with an error.
   */
  lemma DeleteIdMeaning(t: Tables, site: Site, id: nat)
    ensures var after := Perform(t, site, DeleteId(ToDec(id)));
      if id <= 0x7fff_ffff then
        after == Tables(t.breakPoints - {id}, t.symbols - {id}, t.mapping)
      else after == t
  {
    if id <= 0x7fff_ffff {
      StoiOfDec(id);
      assert [id][..0] == [];
      assert RemoveAll(t, [id]) == Remove(RemoveAll(t, []), id);
    } else {
      StoiMeaning("", "", ToDec(id), "");
      assert "" + "" + ToDec(id) + "" == ToDec(id);
    }
  }

  predicate InFile(site: Site, id: nat, filename: string) {
    exists k :: 0 <= k < |site.rows| && site.rows[k].id == id && site.rows[k].filename == filename
  }

  /**
   Deleting by a file below the user's directory takes away exactly the breakpoints of the same file
   below the server's directory, whatever the trailing slashes.
   */
  lemma DeleteFileMeaning(t: Tables, site: Site, r: string)
    requires site.srcPath != "" && site.dstPath != "" && (r == "" || r[0] != '/')
    ensures var after := Perform(t, site, DeleteFile(Paths.Base(site.srcPath) + "/" + r));
      forall i :: i in after.breakPoints <==>
        i in t.breakPoints && !InFile(site, i, Paths.Base(site.dstPath) + "/" + r)
  {
    var path, there := Paths.Base(site.srcPath) + "/" + r, Paths.Base(site.dstPath) + "/" + r;
    Paths.TranslateBelow(site.srcPath, site.dstPath, r);
    assert ServerName(site, path) == there;
    RemoveAllMeaning(t, IdsInFile(site.rows, there));
    assert forall i :: InFile(site, i, there) <==> i in IdsInFile(site.rows, there);
  }

  /** Without both directories, or for a file elsewhere, the name is taken as it is; an empty name is an error. */
  lemma DeleteFileElsewhere(t: Tables, site: Site, filename: string)
    requires site.srcPath == "" || site.dstPath == "" || forall k: nat :: !OccursAt(filename, site.srcPath, k)
    ensures var after := Perform(t, site, DeleteFile(filename));
      forall i :: i in after.breakPoints <==> i in t.breakPoints && (filename == "" || !InFile(site, i, filename))
  {
    if site.srcPath != "" && site.dstPath != "" {
      Paths.NothingToTranslate(filename, site.srcPath, site.dstPath);
    }
    assert ServerName(site, filename) == filename;
    var ids := Targets(site, DeleteFile(filename));
    RemoveAllMeaning(t, ids);
    assert filename != "" ==> forall i :: InFile(site, i, filename) <==> i in ids;
  }

  /** An insert makes a breakpoint of its id, and touches no other. */
  lemma InsertMeaning(t: Tables, site: Site, id: nat, source: Source)
    ensures var after := Perform(t, site, Insert(id, source));
      && after.breakPoints == t.breakPoints + {id}
      && SameElsewhere(t, after, id)
      && (source.text == "" || id !in site.scopes ==> after.symbols == t.symbols && after.mapping == t.mapping)
  {
  }

  // --------------------------------------------------- what a list of requests does

  /** Some request inserts the breakpoint, and none after it deletes it. */
  predicate Stands(site: Site, requests: seq<TableRequest>, id: nat) {
    exists k :: 0 <= k < |requests| && requests[k].Insert? && requests[k].id == id
      && forall j :: k < j < |requests| ==> id !in Targets(site, requests[j])
  }

  /** Some request registers a condition for it, and none after it deletes it. */
  ghost predicate StandsWithCondition(site: Site, requests: seq<TableRequest>, id: nat) {
    exists k :: 0 <= k < |requests| && Registers(site, requests[k], id)
      && forall j :: k < j < |requests| ==> id !in Targets(site, requests[j])
  }

  /** The request has a condition for the breakpoint, and every constant it mentions parses. */
  ghost predicate Registers(site: Site, request: TableRequest, id: nat) {
    && request.Insert? && request.id == id && request.source.text != "" && id in site.scopes
    && !HasBad(site.scopes[id].All(), request.source.text)
  }

  lemma StandsSnoc(site: Site, init: seq<TableRequest>, last: TableRequest, id: nat)
    ensures Stands(site, init + [last], id) <==>
      (last.Insert? && last.id == id) || (Stands(site, init, id) && id !in Targets(site, last))
    ensures StandsWithCondition(site, init + [last], id) <==>
      Registers(site, last, id) || (StandsWithCondition(site, init, id) && id !in Targets(site, last))
  {
    hide Registers, Targets;
    var all := init + [last];
    assert all[|init|] == last;
    assert forall k :: 0 <= k < |init| ==> all[k] == init[k];
    if Stands(site, init, id) && id !in Targets(site, last) {
      var k :| 0 <= k < |init| && init[k].Insert? && init[k].id == id
        && forall j :: k < j < |init| ==> id !in Targets(site, init[j]);
      assert all[k].Insert? && all[k].id == id;
    }
    if StandsWithCondition(site, init, id) && id !in Targets(site, last) {
      var k :| 0 <= k < |init| && Registers(site, init[k], id)
        && forall j :: k < j < |init| ==> id !in Targets(site, init[j]);
      assert Registers(site, all[k], id);
    }
  }

  lemma RequestStands(t: Tables, site: Site, request: TableRequest, id: nat)
    ensures var after := Perform(t, site, request);
      && (id in after.breakPoints <==>
            (request.Insert? && request.id == id) || (id in t.breakPoints && id !in Targets(site, request)))
      && (id in after.symbols <==>
            Registers(site, request, id) || (id in t.symbols && id !in Targets(site, request)))
  {
    hide AddExpr, WithTime, ScanAll, HasBad;
    match request
    case Insert(i, source) =>
      if i in site.scopes {
        ScanFails(site.scopes[i].All(), source.text, site.top);
      }
    case _ => RemoveAllMeaning(t, Targets(site, request));
  }

  /**
   Over every list of requests: a breakpoint is there exactly when it was inserted and not deleted since,
   and has a condition exactly when one was registered for it and it was not deleted since.
   */
  lemma {:induction false} BreakPointsStand(site: Site, requests: seq<TableRequest>, id: nat)
    ensures var t := PerformAll(NO_TABLES, site, requests);
      && (id in t.breakPoints <==> Stands(site, requests, id))
      && (id in t.symbols <==> StandsWithCondition(site, requests, id))
  {
    hide Perform, Stands, StandsWithCondition, Registers, Targets;
    if requests == [] {
      NothingStands(site, id);
    } else {
      var init, last := requests[..|requests| - 1], requests[|requests| - 1];
      assert requests == init + [last];
      BreakPointsStand(site, init, id);
      StandsSnoc(site, init, last, id);
      RequestStands(PerformAll(NO_TABLES, site, init), site, last, id);
    }
  }

  lemma NothingStands(site: Site, id: nat)
    ensures !Stands(site, [], id) && !StandsWithCondition(site, [], id)
  {
  }
}
