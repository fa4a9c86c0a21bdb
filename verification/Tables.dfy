/**
 The conditional-breakpoint registry as a value: `break_points` (src/sim.cc), `symbol_table`
 (src/expr.cc) and `breakpoint_symbol_mapping` (src/control.cc), what the requests do to the three
 tables, and the invariant that makes every throwing lookup succeed.
 */
module Tables {
  import opened Options
  import opened Text
  import opened Handles
  import opened Conditions
  import Locations
  import Paths

  // -------------------------------------------------------------- the database

  /** A row of `get_variable_mapping` or `get_context_variable`. */
  datatype Variable = Variable(name: string, value: string, handle: string, isContext: bool, isVar: bool)

  /** What the database knows about a breakpoint that has an instance. */
  datatype Scope = Scope(own: seq<Variable>, context: seq<Variable>) {
    function All(): seq<Variable> { own + context }
  }

  datatype BreakPointRow = BreakPointRow(id: nat, filename: string, line: nat)

  /** The parts of the runtime that stay fixed while a client debugs. */
  datatype Site = Site(
    scopes: map<nat, Scope>,
    rows: seq<BreakPointRow>,
    top: string,
    srcPath: string,
    dstPath: string)

  // ---------------------------------------------------------------- the tables

  datatype Tables = Tables(
    breakPoints: set<nat>,
    symbols: map<nat, Entry>,
    mapping: map<nat, map<string, string>>)

  const NO_TABLES := Tables({}, map[], map[])

  // ------------------------------------------- registering a condition's names

  /** What the two loops of `add_breakpoint_expr` have gathered so far. */
  datatype Scan = Scan(
    mapping: map<string, string>,
    symbols: set<string>,
    consts: map<string, int>,
    timeTaken: bool,
    failed: bool)

  const NO_SCAN := Scan(map[], {}, map[], false, false)

  /** The condition mentions the variable; generator variables without a name are skipped. */
  predicate Mentioned(v: Variable, text: string) {
    (v.isContext || v.name != "") && IsExprSymbol(text, v.name)
  }

  /** A constant that `std::stoi` rejects. */
  predicate BadConstant(v: Variable) {
    !v.isVar && Stoi(v.value).None?
  }

  function HandleOf(v: Variable, top: string): string {
    GetHandleName(top, if v.isContext then v.value else v.handle + "." + v.value)
  }

  /** `unordered_map::emplace`: a key that is there keeps its value. */
  function Emplace<K, V>(m: map<K, V>, k: K, v: V): map<K, V> {
    if k in m then m else m[k := v]
  }

  /** One turn of either loop; after a bad constant nothing more happens. */
  function ScanOne(acc: Scan, v: Variable, text: string, top: string): Scan {
    if acc.failed || !Mentioned(v, text) then acc
    else
      var acc := acc.(timeTaken := acc.timeTaken || (v.isContext && v.name == "time"));
      if v.isVar then
        acc.(mapping := Emplace(acc.mapping, v.name, HandleOf(v, top)), symbols := acc.symbols + {v.name})
      else
        match Stoi(v.value)
        case None => acc.(failed := true)
        case Some(k) => acc.(consts := Emplace(acc.consts, v.name, k))
  }

  /** Scanning on from what was gathered already. */
  function ScanFrom(seen: Scan, vs: seq<Variable>, text: string, top: string): Scan {
    if vs == [] then seen
    else ScanOne(ScanFrom(seen, vs[..|vs| - 1], text, top), vs[|vs| - 1], text, top)
  }

  function ScanAll(vs: seq<Variable>, text: string, top: string): Scan {
    ScanFrom(NO_SCAN, vs, text, top)
  }

  /** The time is mapped like a variable, under another name when the context has a `time` itself. */
  function TimeName(scan: Scan): string {
    if scan.timeTaken then "time_" else "time"
  }

  function WithTime(scan: Scan, text: string): Scan {
    if IsExprSymbol(text, TimeName(scan)) then
      scan.(
        mapping := Emplace(scan.mapping, TimeName(scan), "$time"),
        symbols := scan.symbols + {TimeName(scan)})
    else scan
  }

  function EntryOf(t: Tables, id: nat): Entry {
    if id in t.symbols then t.symbols[id] else EMPTY_ENTRY
  }

  /** `add_breakpoint_expr` for a non-empty condition on a breakpoint the database knows. */
  function Register(t: Tables, id: nat, source: Source, scope: Scope, top: string): Tables {
    var scan := ScanAll(scope.All(), source.text, top);
    if scan.failed then t.(mapping := t.mapping[id := scan.mapping])
    else
      var full := WithTime(scan, source.text);
      t.(
        symbols := t.symbols[id := AddExpr(EntryOf(t, id), source, full.symbols, full.consts)],
        mapping := t.mapping[id := full.mapping])
  }

  // ------------------------------------------------------------------ requests

  datatype TableRequest =
    | Insert(id: nat, source: Source)
    | DeleteId(text: string)
    | DeleteLine(path: string)
    | DeleteFile(filename: string)

  /** The breakpoints on a line, `get_breakpoint_id` without a column. */
  function IdsAtLine(rows: seq<BreakPointRow>, filename: string, line: nat): (ids: seq<nat>)
    ensures forall id :: id in ids <==> exists k :: 0 <= k < |rows| && rows[k] == BreakPointRow(id, filename, line)
  {
    if rows == [] then []
    else
      var r := rows[0];
      var rest := IdsAtLine(rows[1..], filename, line);
      if r.filename == filename && r.line == line then [r.id] + rest else rest
  }

  /** The breakpoints of a file, `get_all_breakpoints`. */
  function IdsInFile(rows: seq<BreakPointRow>, filename: string): (ids: seq<nat>)
    ensures forall id :: id in ids <==> exists k :: 0 <= k < |rows| && rows[k].id == id && rows[k].filename == filename
  {
    if rows == [] then []
    else
      var rest := IdsInFile(rows[1..], filename);
      if rows[0].filename == filename then [rows[0].id] + rest else rest
  }

  /** The file name as the build server knows it. */
  function ServerName(site: Site, filename: string): string {
    if site.srcPath != "" && site.dstPath != "" then
      match Paths.Translate(filename, site.srcPath, site.dstPath)
      case None => filename
      case Some(name) => name
    else filename
  }

  /** The breakpoints a delete request is about; none where the request is answered with an error. */
  function Targets(site: Site, request: TableRequest): seq<nat> {
    match request
    case Insert(_, _) => []
    case DeleteId(text) =>
      var id := Stoi(text);
      if id.Some? && id.value >= 0 then [id.value as nat] else []
    case DeleteLine(path) =>
      var at := Locations.Locate(path);
      if at.Found? then IdsAtLine(site.rows, at.filename, at.line) else []
    case DeleteFile(filename) =>
      if filename == "" then [] else IdsInFile(site.rows, ServerName(site, filename))
  }

  /** `remove_break_point` and `remove_expr`; the symbol mapping keeps its row. */
  function Remove(t: Tables, id: nat): Tables {
    t.(breakPoints := t.breakPoints - {id}, symbols := t.symbols - {id})
  }

  function RemoveAll(t: Tables, ids: seq<nat>): Tables {
    if ids == [] then t else Remove(RemoveAll(t, ids[..|ids| - 1]), ids[|ids| - 1])
  }

  function Perform(t: Tables, site: Site, request: TableRequest): Tables {
    match request
    case Insert(id, source) =>
      var t := t.(breakPoints := t.breakPoints + {id});
      if source.text == "" || id !in site.scopes then t
      else Register(t, id, source, site.scopes[id], site.top)
    case _ => RemoveAll(t, Targets(site, request))
  }

  function PerformAll(t: Tables, site: Site, requests: seq<TableRequest>): Tables {
    if requests == [] then t
    else Perform(PerformAll(t, site, requests[..|requests| - 1]), site, requests[|requests| - 1])
  }

  // ---------------------------------------------------------------- the verdict

  /** The outcome of `evaluate_breakpoint_expr`: a failed `.at`, or a verdict and the new tables. */
  datatype Ruling = Throws | Verdict(stop: bool, after: Tables)

  predicate AllReadable(m: map<string, string>, top: string, signals: Signals) {
    forall n :: n in m ==> GetValue(top, signals, m[n]).Some?
  }

  function Fetched(m: map<string, string>, top: string, signals: Signals): (r: map<string, int>)
    requires AllReadable(m, top, signals)
    ensures r.Keys == m.Keys
  {
    map n | n in m :: GetValue(top, signals, m[n]).value
  }

  /** The entry with the fetched values written into their slots. */
  function Store(entry: Entry, values: map<string, int>): Entry {
    entry.(vars := entry.vars + (map n | n in values :: values[n] as real))
  }

  function Evaluate(t: Tables, top: string, id: nat, signals: Signals): Ruling {
    if id !in t.mapping then Throws
    else if !AllReadable(t.mapping[id], top, signals) then Verdict(true, t)
    else
      var values := Fetched(t.mapping[id], top, signals);
      if id !in t.symbols then Verdict(false, t)
      else if !(values.Keys <= t.symbols[id].vars.Keys) then Throws
      else
        var entry := Store(t.symbols[id], values);
        Verdict(Holds(entry), t.(symbols := t.symbols[id := entry]))
  }

  // -------------------------------------------------------------- the invariant

  /** The three tables agree on one breakpoint. */
  predicate ValidAt(t: Tables, id: nat)
    requires id in t.symbols
  {
    && id in t.breakPoints
    && id in t.mapping
    && t.mapping[id].Keys <= t.symbols[id].vars.Keys
    && WellFormed(t.symbols[id])
  }

  predicate Valid(t: Tables) {
    forall id :: id in t.symbols ==> ValidAt(t, id)
  }

  /** Every slot a condition reads is among the names fetched at each hit. */
  predicate Covered(t: Tables) {
    forall id :: id in t.symbols ==> id in t.mapping && Reads(t.symbols[id]) <= t.mapping[id].Keys
  }

  predicate Good(t: Tables) {
    Valid(t) && Covered(t)
  }

  // ------------------------------------------------------- what the scan gathers

  lemma {:induction false} ScanMapsSymbols(vs: seq<Variable>, text: string, top: string)
    ensures ScanAll(vs, text, top).mapping.Keys == ScanAll(vs, text, top).symbols
  {
    if vs != [] {
      ScanMapsSymbols(vs[..|vs| - 1], text, top);
    }
  }

  /** The variable at `j` is a signal named `n`, and is mentioned. */
  predicate MappedAt(vs: seq<Variable>, j: nat, n: string, text: string) {
    j < |vs| && vs[j].name == n && vs[j].isVar && Mentioned(vs[j], text)
  }

  /** The variable at `k` is mentioned and is a constant that does not parse. */
  predicate BadAt(vs: seq<Variable>, k: nat, text: string) {
    k < |vs| && Mentioned(vs[k], text) && BadConstant(vs[k])
  }

  /** Some mentioned constant does not parse. */
  ghost predicate HasBad(vs: seq<Variable>, text: string) {
    exists k: nat :: BadAt(vs, k, text)
  }

  ghost predicate NoBadBefore(vs: seq<Variable>, j: nat, text: string) {
    forall k: nat :: k < j ==> !BadAt(vs, k, text)
  }

  /** A signal named `n` is mentioned ahead of every constant that does not parse. */
  ghost predicate MappedFirst(vs: seq<Variable>, n: string, text: string) {
    exists j: nat :: MappedAt(vs, j, n, text) && NoBadBefore(vs, j, text)
  }

  lemma HasBadSnoc(vs: seq<Variable>, text: string)
    requires vs != []
    ensures HasBad(vs, text) <==> HasBad(vs[..|vs| - 1], text) || BadAt(vs, |vs| - 1, text)
  {
    var init := vs[..|vs| - 1];
    assert forall k: nat :: k < |init| ==> (BadAt(vs, k, text) <==> BadAt(init, k, text));
  }

  lemma MappedFirstSnoc(vs: seq<Variable>, n: string, text: string)
    requires vs != []
    ensures MappedFirst(vs, n, text) <==>
      (MappedFirst(vs[..|vs| - 1], n, text) || (MappedAt(vs, |vs| - 1, n, text) && !HasBad(vs[..|vs| - 1], text)))
  {
    var init, last := vs[..|vs| - 1], |vs| - 1;
    assert forall k: nat :: k < last ==> (BadAt(vs, k, text) <==> BadAt(init, k, text));
    assert forall j: nat :: j <= last ==> (NoBadBefore(vs, j, text) <==> NoBadBefore(init, j, text));
    assert forall j: nat :: j < last ==> (MappedAt(vs, j, n, text) <==> MappedAt(init, j, n, text));
    assert NoBadBefore(init, last, text) <==> !HasBad(init, text);
  }

  /** The scan fails exactly when some mentioned constant does not parse. */
  lemma {:induction false} ScanFails(vs: seq<Variable>, text: string, top: string)
    ensures ScanAll(vs, text, top).failed <==> HasBad(vs, text)
  {
    if vs != [] {
      ScanFails(vs[..|vs| - 1], text, top);
      HasBadSnoc(vs, text);
    }
  }

  /** It maps exactly the signals mentioned ahead of the first such constant. */
  lemma {:induction false} ScanMaps(vs: seq<Variable>, n: string, text: string, top: string)
    ensures n in ScanAll(vs, text, top).mapping <==> MappedFirst(vs, n, text)
  {
    hide IsExprSymbol, Stoi, HandleOf;
    if vs != [] {
      ScanFails(vs[..|vs| - 1], text, top);
      ScanMaps(vs[..|vs| - 1], n, text, top);
      MappedFirstSnoc(vs, n, text);
    }
  }

  /** The first mention of a name among the signals. */
  ghost predicate FirstMention(vs: seq<Variable>, j: nat, n: string, text: string) {
    MappedAt(vs, j, n, text) && forall k: nat :: k < j ==> !MappedAt(vs, k, n, text)
  }

  /**
   A mapped name stands for its first mention among the signals: for a variable of the context that is the
   signal it names, for one of the breakpoint's own the signal below its instance, under the top name.
   */
  lemma {:induction false} ScanHandles(vs: seq<Variable>, n: string, text: string, top: string) returns (j: nat)
    requires n in ScanAll(vs, text, top).mapping
    ensures FirstMention(vs, j, n, text)
    ensures ScanAll(vs, text, top).mapping[n] ==
      GetHandleName(top, if vs[j].isContext then vs[j].value else vs[j].handle + "." + vs[j].value)
  {
    hide IsExprSymbol, Stoi;
    var init := vs[..|vs| - 1];
    if n in ScanAll(init, text, top).mapping {
      j := ScanHandles(init, n, text, top);
    } else {
      j := |vs| - 1;
      NotMappedBefore(init, n, text, top);
    }
    assert forall k: nat :: k < |init| ==> (MappedAt(vs, k, n, text) <==> MappedAt(init, k, n, text));
  }

  /** While the scan goes on, a name not mapped yet has not been mentioned as a signal. */
  lemma NotMappedBefore(vs: seq<Variable>, n: string, text: string, top: string)
    requires !ScanAll(vs, text, top).failed && n !in ScanAll(vs, text, top).mapping
    ensures forall k: nat :: !MappedAt(vs, k, n, text)
  {
    ScanFails(vs, text, top);
    ScanMaps(vs, n, text, top);
    forall k: nat ensures !MappedAt(vs, k, n, text) {
      assert NoBadBefore(vs, k, text);
    }
  }

  /** The variable at `j` is a constant named `n`, and is mentioned. */
  predicate ConstantAt(vs: seq<Variable>, j: nat, n: string, text: string) {
    j < |vs| && vs[j].name == n && !vs[j].isVar && Mentioned(vs[j], text)
  }

  /** The first mention of a name among the constants. */
  ghost predicate FirstConstant(vs: seq<Variable>, j: nat, n: string, text: string) {
    ConstantAt(vs, j, n, text) && forall k: nat :: k < j ==> !ConstantAt(vs, k, n, text)
  }

  /** A constant has the value of its first mention, read as a number. */
  lemma {:induction false} ScanConstants(vs: seq<Variable>, n: string, text: string, top: string) returns (j: nat)
    requires n in ScanAll(vs, text, top).consts
    ensures FirstConstant(vs, j, n, text) && Stoi(vs[j].value) == Some(ScanAll(vs, text, top).consts[n])
  {
    hide IsExprSymbol, Stoi, HandleOf;
    var init := vs[..|vs| - 1];
    if n in ScanAll(init, text, top).consts {
      j := ScanConstants(init, n, text, top);
    } else {
      j := |vs| - 1;
      NoConstantBefore(init, n, text, top);
    }
    assert forall k: nat :: k < |init| ==> (ConstantAt(vs, k, n, text) <==> ConstantAt(init, k, n, text));
  }

  lemma {:induction false} NoConstantBefore(vs: seq<Variable>, n: string, text: string, top: string)
    requires !ScanAll(vs, text, top).failed && n !in ScanAll(vs, text, top).consts
    ensures forall k: nat :: !ConstantAt(vs, k, n, text)
  {
    hide IsExprSymbol, Stoi, HandleOf;
    if vs != [] {
      var init, last := vs[..|vs| - 1], |vs| - 1;
      NoConstantBefore(init, n, text, top);
      forall k: nat ensures !ConstantAt(vs, k, n, text) {
        assert k < last ==> (ConstantAt(vs, k, n, text) <==> ConstantAt(init, k, n, text));
      }
    }
  }

  // ---------------------------------------------------------- keeping the tables

  /**
   Some mentioned constant of the scope does not parse, and ahead of the first such constant stands a
   mentioned signal that the registered condition does not know.
   */
  ghost predicate Poisons(t: Tables, site: Site, id: nat, text: string) {
    && text != "" && id in site.scopes && id in t.symbols
    && HasBad(site.scopes[id].All(), text)
    && exists n :: MappedFirst(site.scopes[id].All(), n, text) && n !in t.symbols[id].vars
  }

  ghost predicate Poisonous(t: Tables, site: Site, request: TableRequest) {
    request.Insert? && Poisons(t, site, request.id, request.source.text)
  }

  /** `after` differs from `t` in nothing but the rows of one breakpoint. */
  predicate SameElsewhere(t: Tables, after: Tables, id: nat) {
    && after.breakPoints - {id} == t.breakPoints - {id}
    && after.symbols - {id} == t.symbols - {id}
    && after.mapping - {id} == t.mapping - {id}
  }

  lemma RowElsewhere(t: Tables, after: Tables, id: nat, i: nat)
    requires SameElsewhere(t, after, id) && i != id
    ensures i in after.breakPoints <==> i in t.breakPoints
    ensures i in after.symbols <==> i in t.symbols
    ensures i in after.mapping <==> i in t.mapping
    ensures i in t.symbols ==> after.symbols[i] == t.symbols[i]
    ensures i in t.mapping ==> after.mapping[i] == t.mapping[i]
  {
    assert i in after.breakPoints <==> i in after.breakPoints - {id};
    assert i in after.symbols <==> i in after.symbols - {id};
    assert i in after.mapping <==> i in after.mapping - {id};
    if i in t.symbols { assert after.symbols[i] == (after.symbols - {id})[i] == (t.symbols - {id})[i]; }
    if i in t.mapping { assert after.mapping[i] == (after.mapping - {id})[i] == (t.mapping - {id})[i]; }
  }

  /** Then only that breakpoint matters to the invariant. */
  lemma ValidElsewhere(t: Tables, after: Tables, id: nat)
    requires Valid(t) && SameElsewhere(t, after, id)
    ensures Valid(after) <==> (id in after.symbols ==> ValidAt(after, id))
    ensures Covered(t) ==> (Covered(after) <==> (id in after.symbols ==>
      id in after.mapping && Reads(after.symbols[id]) <= after.mapping[id].Keys))
  {
    forall i | i in after.symbols && i != id
      ensures i in t.symbols && ValidAt(after, i) && after.symbols[i] == t.symbols[i]
      ensures i in t.mapping && i in after.mapping && after.mapping[i] == t.mapping[i]
    {
      RowElsewhere(t, after, id, i);
    }
  }

  /** Registration that runs to its end agrees on its breakpoint. */
  lemma RegisterAgrees(t: Tables, site: Site, id: nat, source: Source)
    requires Valid(t) && id in t.breakPoints && id in site.scopes
    requires !ScanAll(site.scopes[id].All(), source.text, site.top).failed
    ensures ValidAt(Register(t, id, source, site.scopes[id], site.top), id)
    ensures Reads(Register(t, id, source, site.scopes[id], site.top).symbols[id])
      <= Register(t, id, source, site.scopes[id], site.top).mapping[id].Keys || id in t.symbols
  {
    var scan := ScanAll(site.scopes[id].All(), source.text, site.top);
    ScanMapsSymbols(site.scopes[id].All(), source.text, site.top);
    var full := WithTime(scan, source.text);
    assert full.mapping.Keys == full.symbols;
    assert id in t.symbols ==> ValidAt(t, id);
    AddExprIsWellFormed(EntryOf(t, id), source, full.symbols, full.consts);
    FreshReads(source, full.symbols, full.consts);
  }

  /** The names mapped before the scan failed are known to the entry exactly if nothing is poisoned. */
  lemma PartialMapping(t: Tables, site: Site, id: nat, text: string)
    requires id in t.symbols && text != "" && id in site.scopes
    requires HasBad(site.scopes[id].All(), text)
    ensures ScanAll(site.scopes[id].All(), text, site.top).mapping.Keys <= t.symbols[id].vars.Keys
      <==> !Poisons(t, site, id, text)
  {
    var vs := site.scopes[id].All();
    forall n ensures n in ScanAll(vs, text, site.top).mapping <==> MappedFirst(vs, n, text) {
      ScanMaps(vs, n, text, site.top);
    }
  }

  lemma RegisterKeepsValid(t: Tables, site: Site, id: nat, source: Source)
    requires Valid(t) && id in t.breakPoints && source.text != "" && id in site.scopes
    ensures Valid(Register(t, id, source, site.scopes[id], site.top)) <==> !Poisons(t, site, id, source.text)
  {
    ScanFails(site.scopes[id].All(), source.text, site.top);
    if !HasBad(site.scopes[id].All(), source.text) {
      RegisterAgrees(t, site, id, source);
      ValidElsewhere(t, Register(t, id, source, site.scopes[id], site.top), id);
    } else {
      var partial := ScanAll(site.scopes[id].All(), source.text, site.top).mapping;
      ReplaceMapping(t, id, partial);
      if id in t.symbols {
        PartialMapping(t, site, id, source.text);
      }
    }
  }

  /** Replacing the mapping of a breakpoint alone. */
  lemma ReplaceMapping(t: Tables, id: nat, partial: map<string, string>)
    requires Valid(t)
    ensures Valid(t.(mapping := t.mapping[id := partial]))
      <==> (id in t.symbols ==> partial.Keys <= t.symbols[id].vars.Keys)
  {
    var after := t.(mapping := t.mapping[id := partial]);
    ValidElsewhere(t, after, id);
    assert id in t.symbols ==> ValidAt(t, id);
  }

  /** Inserting a breakpoint keeps the tables valid exactly when it does not poison a registered one. */
  lemma InsertKeepsValid(t: Tables, site: Site, id: nat, source: Source)
    requires Valid(t)
    ensures Valid(Perform(t, site, Insert(id, source))) <==> !Poisons(t, site, id, source.text)
  {
    var added := t.(breakPoints := t.breakPoints + {id});
    assert Valid(added) by {
      forall i | i in t.symbols ensures ValidAt(added, i) {
        assert ValidAt(t, i);
      }
    }
    if source.text != "" && id in site.scopes {
      RegisterKeepsValid(added, site, id, source);
    }
  }

  lemma {:induction false} RemoveKeepsGood(t: Tables, ids: seq<nat>)
    ensures Valid(t) ==> Valid(RemoveAll(t, ids))
    ensures Covered(t) ==> Covered(RemoveAll(t, ids))
  {
    if ids != [] {
      var before, id := RemoveAll(t, ids[..|ids| - 1]), ids[|ids| - 1];
      RemoveKeepsGood(t, ids[..|ids| - 1]);
      var after := Remove(before, id);
      forall i | i in after.symbols
        ensures i in before.symbols && (ValidAt(before, i) ==> ValidAt(after, i))
      {
      }
    }
  }

  // ---------------------------------------------- keeping slots among the fetched

  /** The variable at `k` is the `time` of the context, and is mentioned. */
  predicate ContextTimeAt(vs: seq<Variable>, k: nat, text: string) {
    k < |vs| && vs[k].isContext && vs[k].name == "time" && Mentioned(vs[k], text)
  }

  ghost predicate HasContextTime(vs: seq<Variable>, text: string) {
    exists k: nat :: ContextTimeAt(vs, k, text)
  }

  ghost predicate HasConstant(vs: seq<Variable>, n: string, text: string) {
    exists j: nat :: ConstantAt(vs, j, n, text)
  }

  /** The name is mapped when the condition is registered, as a signal or as the time. */
  ghost predicate Maps(vs: seq<Variable>, n: string, text: string) {
    || MappedFirst(vs, n, text)
    || (!HasBad(vs, text) && n == (if HasContextTime(vs, text) then "time_" else "time") && IsExprSymbol(text, n))
  }

  /** The name has a slot or a constant once the condition is registered. */
  ghost predicate KnownAfter(entry: Entry, vs: seq<Variable>, n: string, text: string) {
    n in entry.bound || n in entry.consts || Maps(vs, n, text) || HasConstant(vs, n, text)
  }

  /** The condition in force once `source` was inserted: the new one if it compiles, else the old one. */
  ghost function InForce(entry: Entry, vs: seq<Variable>, source: Source): Option<Expr> {
    if !HasBad(vs, source.text) && source.parse.Some?
       && forall n :: n in Names(source.parse.value) ==> KnownAfter(entry, vs, n, source.text)
    then source.parse
    else entry.compiled
  }

  /** The condition in force afterwards names a slot of the breakpoint that is not mapped any more. */
  ghost predicate Strands(t: Tables, site: Site, id: nat, source: Source) {
    && source.text != "" && id in site.scopes && id in t.symbols
    && var entry, vs := t.symbols[id], site.scopes[id].All();
      var e := InForce(entry, vs, source);
      e.Some? && exists n :: n in Names(e.value) && n in entry.bound && !Maps(vs, n, source.text)
  }

  lemma HasContextTimeSnoc(vs: seq<Variable>, text: string)
    requires vs != []
    ensures HasContextTime(vs, text) <==>
      HasContextTime(vs[..|vs| - 1], text) || ContextTimeAt(vs, |vs| - 1, text)
  {
    var init := vs[..|vs| - 1];
    assert forall k: nat :: k < |init| ==> (ContextTimeAt(vs, k, text) <==> ContextTimeAt(init, k, text));
  }

  lemma HasConstantSnoc(vs: seq<Variable>, n: string, text: string)
    requires vs != []
    ensures HasConstant(vs, n, text) <==>
      HasConstant(vs[..|vs| - 1], n, text) || ConstantAt(vs, |vs| - 1, n, text)
  {
    var init := vs[..|vs| - 1];
    assert forall k: nat :: k < |init| ==> (ConstantAt(vs, k, n, text) <==> ConstantAt(init, k, n, text));
  }

  /** A scan that runs to its end knows of every constant mentioned, and of the context's `time`. */
  lemma {:induction false} ScanEnds(vs: seq<Variable>, n: string, text: string, top: string)
    requires !HasBad(vs, text)
    ensures n in ScanAll(vs, text, top).consts <==> HasConstant(vs, n, text)
    ensures ScanAll(vs, text, top).timeTaken <==> HasContextTime(vs, text)
  {
    hide IsExprSymbol, Stoi, HandleOf;
    if vs != [] {
      HasBadSnoc(vs, text);
      ScanFails(vs[..|vs| - 1], text, top);
      ScanEnds(vs[..|vs| - 1], n, text, top);
      HasConstantSnoc(vs, n, text);
      HasContextTimeSnoc(vs, text);
      assert BadAt(vs, |vs| - 1, text) <==> Mentioned(vs[|vs| - 1], text) && BadConstant(vs[|vs| - 1]);
    }
  }

  lemma RegisterHasMapping(t: Tables, id: nat, source: Source, scope: Scope, top: string)
    ensures id in Register(t, id, source, scope, top).mapping
  {
    hide AddExpr, ScanAll, WithTime;
  }

  /** Registering maps exactly those names. */
  lemma RegisterMaps(t: Tables, id: nat, source: Source, scope: Scope, top: string, n: string)
    ensures n in Register(t, id, source, scope, top).mapping[id] <==> Maps(scope.All(), n, source.text)
  {
    hide AddExpr, IsExprSymbol, ScanAll;
    var vs := scope.All();
    ScanFails(vs, source.text, top);
    ScanMaps(vs, n, source.text, top);
    if !HasBad(vs, source.text) {
      ScanEnds(vs, n, source.text, top);
    }
  }

  /**
   Every name mapped stands for the handle of its first mention, and the time, where it is mapped under a
   name that no signal has, for the simulator's own name of it.
   */
  lemma RegisterHandles(t: Tables, id: nat, source: Source, scope: Scope, top: string, n: string) returns (j: nat)
    requires id in Register(t, id, source, scope, top).mapping && n in Register(t, id, source, scope, top).mapping[id]
    ensures var vs, handle := scope.All(), Register(t, id, source, scope, top).mapping[id][n];
      if MappedFirst(vs, n, source.text) then
        && FirstMention(vs, j, n, source.text)
        && handle == GetHandleName(top, if vs[j].isContext then vs[j].value else vs[j].handle + "." + vs[j].value)
      else handle == "$time" && n in {"time", "time_"}
  {
    hide AddExpr, IsExprSymbol, ScanAll, GetHandleName;
    var vs := scope.All();
    ScanMaps(vs, n, source.text, top);
    j := 0;
    if n in ScanAll(vs, source.text, top).mapping {
      j := ScanHandles(vs, n, source.text, top);
    }
  }

  lemma FullNames(vs: seq<Variable>, text: string, top: string, n: string)
    requires !HasBad(vs, text)
    ensures var full := WithTime(ScanAll(vs, text, top), text);
      && (n in full.symbols <==> Maps(vs, n, text))
      && (n in full.consts <==> HasConstant(vs, n, text))
  {
    hide IsExprSymbol, ScanAll;
    ScanFails(vs, text, top);
    ScanMapsSymbols(vs, text, top);
    ScanMaps(vs, n, text, top);
    ScanEnds(vs, n, text, top);
  }

  /** And leaves that condition in force. */
  lemma RegisterForces(t: Tables, id: nat, source: Source, scope: Scope, top: string)
    requires id in t.symbols || !HasBad(scope.All(), source.text)
    ensures var after, entry := Register(t, id, source, scope, top), EntryOf(t, id);
      && id in after.symbols
      && after.symbols[id].compiled == InForce(entry, scope.All(), source)
      && entry.bound <= after.symbols[id].bound
      && forall n :: n in after.symbols[id].bound - entry.bound ==> Maps(scope.All(), n, source.text)
  {
    hide IsExprSymbol, ScanAll, WithTime, AddExpr, Maps, HasConstant;
    var vs, text, entry := scope.All(), source.text, EntryOf(t, id);
    ScanFails(vs, text, top);
    if !HasBad(vs, text) {
      var full := WithTime(ScanAll(vs, text, top), text);
      forall n
        ensures n in full.symbols <==> Maps(vs, n, text)
        ensures n in full.consts <==> HasConstant(vs, n, text)
      {
        FullNames(vs, text, top, n);
      }
      AddExprForces(entry, source, full.symbols, full.consts);
    }
  }

  /** A generator variable without a name is passed over, whatever the condition. */
  lemma NamelessIgnored(vs: seq<Variable>, text: string)
    requires forall k :: 0 <= k < |vs| ==> !vs[k].isContext
    ensures !MappedFirst(vs, "", text) && !HasConstant(vs, "", text)
    ensures (forall k :: 0 <= k < |vs| ==> vs[k].name == "") ==> !HasBad(vs, text)
  {
  }

  /**
   The entry that registration leaves: old slots and old constants keep their values, a new slot holds
   zero, and a new constant, unless its name has a slot, the number of its first mention.
   */
  lemma RegisterBinds(t: Tables, id: nat, source: Source, scope: Scope, top: string, n: string) returns (j: nat)
    requires !HasBad(scope.All(), source.text)
    requires id in Register(t, id, source, scope, top).symbols
    ensures var vs, text := scope.All(), source.text;
      var entry, after := EntryOf(t, id), Register(t, id, source, scope, top).symbols[id];
      && (n in after.vars <==> n in entry.vars || Maps(vs, n, text))
      && (n in after.vars ==> after.vars[n] == if n in entry.vars then entry.vars[n] else 0.0)
      && (n in after.bound <==> n in entry.bound || (Maps(vs, n, text) && n !in entry.consts))
      && (n in after.consts <==> n in entry.consts || (HasConstant(vs, n, text) && n !in after.bound))
      && (n in entry.consts ==> after.consts[n] == entry.consts[n])
      && (n in after.consts && n !in entry.consts ==>
            && FirstConstant(vs, j, n, text)
            && Stoi(vs[j].value).Some? && after.consts[n] == Stoi(vs[j].value).value as real)
  {
    hide IsExprSymbol, ScanAll, WithTime, Maps, HasConstant;
    var vs, text := scope.All(), source.text;
    ScanFails(vs, text, top);
    FullNames(vs, text, top, n);
    var scan := ScanAll(vs, text, top);
    assert WithTime(scan, text).consts == scan.consts by { TimeKeepsConstants(scan, text); }
    j := 0;
    if n in scan.consts {
      j := ScanConstants(vs, n, text, top);
    }
  }

  lemma TimeKeepsConstants(scan: Scan, text: string)
    ensures WithTime(scan, text).consts == scan.consts
  {
  }

  lemma RegisterKeepsCovered(t: Tables, site: Site, id: nat, source: Source)
    requires Good(t) && source.text != "" && id in site.scopes
    ensures Covered(Register(t, id, source, site.scopes[id], site.top)) <==> !Strands(t, site, id, source)
  {
    hide Maps, InForce;
    var after, vs := Register(t, id, source, site.scopes[id], site.top), site.scopes[id].All();
    assert SameElsewhere(t, after, id);
    ValidElsewhere(t, after, id);
    forall n ensures n in after.mapping[id] <==> Maps(vs, n, source.text) {
      RegisterMaps(t, id, source, site.scopes[id], site.top, n);
    }
    ScanFails(vs, source.text, site.top);
    if id in t.symbols || !HasBad(vs, source.text) {
      RegisterForces(t, id, source, site.scopes[id], site.top);
      assert id in t.symbols ==> Reads(t.symbols[id]) <= t.mapping[id].Keys;
    }
  }

  /**
   Inserting a breakpoint keeps the tables valid and every slot a condition reads among the names fetched
   exactly when it neither poisons its breakpoint nor strands a slot.
   */
  lemma InsertKeepsGood(t: Tables, site: Site, id: nat, source: Source)
    requires Good(t)
    ensures Good(Perform(t, site, Insert(id, source)))
      <==> !Poisons(t, site, id, source.text) && !Strands(t, site, id, source)
  {
    hide Register, Strands;
    var added := t.(breakPoints := t.breakPoints + {id});
    assert Good(added) by {
      forall i | i in t.symbols ensures ValidAt(added, i) {
        assert ValidAt(t, i);
      }
    }
    InsertKeepsValid(t, site, id, source);
    if source.text != "" && id in site.scopes {
      RegisterKeepsCovered(added, site, id, source);
      SameStrands(t, added, site, id, source);
    } else {
      NothingStrands(t, site, id, source);
    }
  }

  lemma SameStrands(t: Tables, added: Tables, site: Site, id: nat, source: Source)
    requires added.symbols == t.symbols
    ensures Strands(added, site, id, source) <==> Strands(t, site, id, source)
  {
  }

  lemma NothingStrands(t: Tables, site: Site, id: nat, source: Source)
    requires source.text == "" || id !in site.scopes || id !in t.symbols
    ensures !Strands(t, site, id, source)
  {
  }

  /** The request is an insert that poisons or strands. */
  ghost predicate Spoils(t: Tables, site: Site, request: TableRequest) {
    Poisonous(t, site, request) || (request.Insert? && Strands(t, site, request.id, request.source))
  }

  lemma RequestKeepsGood(t: Tables, site: Site, request: TableRequest)
    requires Good(t)
    ensures Good(Perform(t, site, request)) <==> !Spoils(t, site, request)
  {
    hide Poisons, Strands;
    if request.Insert? {
      InsertKeepsGood(t, site, request.id, request.source);
    } else {
      RemoveKeepsGood(t, Targets(site, request));
    }
  }

  lemma RequestKeepsValid(t: Tables, site: Site, request: TableRequest)
    requires Valid(t)
    ensures Valid(Perform(t, site, request)) <==> !Poisonous(t, site, request)
  {
    hide Poisons;
    if request.Insert? {
      InsertKeepsValid(t, site, request.id, request.source);
    } else {
      RemoveKeepsGood(t, Targets(site, request));
    }
  }

  /** A request that gives no second condition to a breakpoint that has one. */
  predicate Fresh(t: Tables, request: TableRequest) {
    request.Insert? && request.source.text != "" ==> request.id !in t.symbols
  }

  /** Such a request spoils nothing, whatever the condition. */
  lemma FreshKeepsGood(t: Tables, site: Site, request: TableRequest)
    requires Good(t) && Fresh(t, request)
    ensures !Spoils(t, site, request) && Good(Perform(t, site, request))
  {
    hide Perform;
    RequestKeepsGood(t, site, request);
  }

  /** The tables are good before and after every request of the list. */
  predicate StaysGood(t: Tables, site: Site, requests: seq<TableRequest>) {
    Good(PerformAll(t, site, requests)) && (requests != [] ==> StaysGood(t, site, requests[..|requests| - 1]))
  }

  /** No insert of the list poisons or strands when its turn comes. */
  ghost predicate NeverSpoils(t: Tables, site: Site, requests: seq<TableRequest>) {
    requests != [] ==>
      var init, last := requests[..|requests| - 1], requests[|requests| - 1];
      NeverSpoils(t, site, init) && !Spoils(PerformAll(t, site, init), site, last)
  }

  /** Over every sequence of requests the tables stay good throughout exactly when no insert spoils them. */
  lemma {:induction false} RequestsKeepGood(t: Tables, site: Site, requests: seq<TableRequest>)
    requires Good(t)
    ensures StaysGood(t, site, requests) <==> NeverSpoils(t, site, requests)
  {
    hide Perform, Spoils, Good;
    if requests != [] {
      var init, last := requests[..|requests| - 1], requests[|requests| - 1];
      RequestsKeepGood(t, site, init);
      if StaysGood(t, site, init) {
        RequestKeepsGood(PerformAll(t, site, init), site, last);
      }
    }
  }

  /** The tables are valid before and after every request of the list. */
  predicate StaysValid(t: Tables, site: Site, requests: seq<TableRequest>) {
    Valid(PerformAll(t, site, requests)) && (requests != [] ==> StaysValid(t, site, requests[..|requests| - 1]))
  }

  /** No insert of the list poisons a breakpoint when its turn comes. */
  ghost predicate NeverPoisons(t: Tables, site: Site, requests: seq<TableRequest>) {
    requests != [] ==>
      var init, last := requests[..|requests| - 1], requests[|requests| - 1];
      NeverPoisons(t, site, init) && !Poisonous(PerformAll(t, site, init), site, last)
  }

  /**
   Over every sequence of requests the tables stay valid throughout exactly when no insert poisons a
   registered breakpoint.
   */
  lemma {:induction false} RequestsKeepValid(t: Tables, site: Site, requests: seq<TableRequest>)
    requires Valid(t)
    ensures StaysValid(t, site, requests) <==> NeverPoisons(t, site, requests)
  {
    if requests != [] {
      var init, last := requests[..|requests| - 1], requests[|requests| - 1];
      RequestsKeepValid(t, site, init);
      if StaysValid(t, site, init) {
        RequestKeepsValid(PerformAll(t, site, init), site, last);
      }
    }
  }

  /** With valid tables no lookup throws at a breakpoint that has a condition, and they stay good. */
  lemma EvaluateKeepsGood(t: Tables, top: string, id: nat, signals: Signals)
    requires Valid(t) && id in t.symbols
    ensures var o := Evaluate(t, top, id, signals);
      && o.Verdict?
      && Valid(o.after) && (Covered(t) ==> Covered(o.after))
      && SameTables(t, o.after)
  {
    assert ValidAt(t, id);
    var o := Evaluate(t, top, id, signals);
    if AllReadable(t.mapping[id], top, signals) {
      ValidElsewhere(t, o.after, id);
      assert ValidAt(o.after, id);
    } else {
      SameTablesReflexive(t);
    }
  }

  /** The same tables up to what the slots hold. */
  predicate SameTables(a: Tables, b: Tables) {
    && a.breakPoints == b.breakPoints && a.mapping == b.mapping && a.symbols.Keys == b.symbols.Keys
    && forall id :: id in a.symbols ==> SameShape(a.symbols[id], b.symbols[id])
  }

  lemma SameTablesReflexive(t: Tables)
    ensures SameTables(t, t)
  {
  }

  lemma SameTablesTransitive(a: Tables, b: Tables, c: Tables)
    requires SameTables(a, b) && SameTables(b, c)
    ensures SameTables(a, c)
  {
  }

  /** What the tables agree on does not depend on the slots. */
  lemma SameTablesKeepGood(a: Tables, b: Tables)
    requires SameTables(a, b)
    ensures Valid(a) ==> Valid(b)
    ensures Good(a) ==> Good(b)
  {
    forall id | id in b.symbols
      ensures Valid(a) ==> ValidAt(b, id)
      ensures Reads(b.symbols[id]) == Reads(a.symbols[id])
    {
      assert SameShape(a.symbols[id], b.symbols[id]);
      assert Valid(a) ==> ValidAt(a, id);
    }
  }

  // ------------------------------------------------------ what hits leave alone

  /** The names fetched for a breakpoint at each hit. */
  function Fetching(t: Tables, id: nat): set<string> {
    if id in t.mapping then t.mapping[id].Keys else {}
  }

  /** The same entry up to the slots that are fetched. */
  predicate FrozenEntry(a: Entry, b: Entry, fetched: set<string>) {
    SameShape(a, b) && forall n :: n in a.vars && n !in fetched ==> a.vars[n] == b.vars[n]
  }

  /** The same tables up to the slots that are fetched: all that evaluating conditions may change. */
  predicate Frozen(a: Tables, b: Tables) {
    && a.breakPoints == b.breakPoints && a.mapping == b.mapping && a.symbols.Keys == b.symbols.Keys
    && forall id :: id in a.symbols ==> FrozenEntry(a.symbols[id], b.symbols[id], Fetching(a, id))
  }

  lemma FrozenReflexive(t: Tables)
    ensures Frozen(t, t)
  {
  }

  lemma FrozenTransitive(a: Tables, b: Tables, c: Tables)
    requires Frozen(a, b) && Frozen(b, c)
    ensures Frozen(a, c)
  {
    forall id | id in a.symbols
      ensures FrozenEntry(a.symbols[id], c.symbols[id], Fetching(a, id))
    {
      assert FrozenEntry(a.symbols[id], b.symbols[id], Fetching(a, id));
      assert FrozenEntry(b.symbols[id], c.symbols[id], Fetching(b, id));
    }
  }

  lemma FrozenIsSame(a: Tables, b: Tables)
    requires Frozen(a, b)
    ensures SameTables(a, b)
  {
  }

  /** A hit writes to the slots that are fetched and nowhere else. */
  lemma EvaluateFreezes(t: Tables, top: string, id: nat, signals: Signals)
    requires Evaluate(t, top, id, signals).Verdict?
    ensures Frozen(t, Evaluate(t, top, id, signals).after)
  {
  }

  /** So its outcome is the same for tables that differ in those slots alone. */
  lemma EvaluateAlike(a: Tables, b: Tables, top: string, id: nat, signals: Signals)
    requires Frozen(a, b)
    ensures var x, y := Evaluate(a, top, id, signals), Evaluate(b, top, id, signals);
      if x.Throws? then y.Throws? else y.Verdict? && x.stop == y.stop
  {
    if id in a.mapping && AllReadable(a.mapping[id], top, signals) && id in a.symbols {
      assert FrozenEntry(a.symbols[id], b.symbols[id], Fetching(a, id));
      var values := Fetched(a.mapping[id], top, signals);
      if values.Keys <= a.symbols[id].vars.Keys {
        assert Store(a.symbols[id], values).vars == Store(b.symbols[id], values).vars;
      }
    }
  }

  /**
   When every condition reads fetched slots only, the verdict at a breakpoint is decided by the values
   fetched at this hit, whatever earlier hits left in the slots.
   */
  lemma HistoryIndependence(a: Tables, b: Tables, top: string, id: nat, signals: Signals)
    requires Good(a) && SameTables(a, b) && id in a.symbols
    ensures Evaluate(a, top, id, signals).Verdict? && Evaluate(b, top, id, signals).Verdict?
    ensures Evaluate(a, top, id, signals).stop == Evaluate(b, top, id, signals).stop
  {
    assert ValidAt(a, id) && SameShape(a.symbols[id], b.symbols[id]);
    if AllReadable(a.mapping[id], top, signals) {
      var values := Fetched(a.mapping[id], top, signals);
      var ea, eb := Store(a.symbols[id], values), Store(b.symbols[id], values);
      HoldsDependsOnReads(ea, eb);
    }
  }

  // ---------------------------------------------------------------- histories

  /** What happens to the tables: a request, or the evaluation of a condition at a hit. */
  datatype Happening = Asked(request: TableRequest) | Met(id: nat, signals: Signals)

  /** The tables after a history; None once a lookup failed. */
  function Lived(t: Tables, site: Site, history: seq<Happening>): Option<Tables> {
    if history == [] then Some(t)
    else
      match Lived(t, site, history[..|history| - 1])
      case None => None
      case Some(before) =>
        match history[|history| - 1] {
          case Asked(request) => Some(Perform(before, site, request))
          case Met(id, signals) =>
            if id !in before.symbols then Some(before)
            else
              match Evaluate(before, site.top, id, signals)
              case Throws => None
              case Verdict(_, after) => Some(after)
        }
  }

  function RequestsOf(history: seq<Happening>): seq<TableRequest> {
    if history == [] then []
    else
      RequestsOf(history[..|history| - 1])
      + match history[|history| - 1] {
          case Asked(request) => [request]
          case Met(_, _) => []
        }
  }

  /** A request does to the tables what it does whatever the slots hold. */
  lemma PerformAlike(a: Tables, b: Tables, site: Site, request: TableRequest)
    requires SameTables(a, b)
    ensures SameTables(Perform(a, site, request), Perform(b, site, request))
  {
    hide ScanAll, WithTime, IsExprSymbol, Register;
    match request
    case Insert(id, source) =>
      var x, y := a.(breakPoints := a.breakPoints + {id}), b.(breakPoints := b.breakPoints + {id});
      if id in site.scopes {
        RegisterAlike(x, y, id, source, site.scopes[id], site.top);
      }
    case _ => RemoveAlike(a, b, Targets(site, request));
  }

  lemma RegisterAlike(a: Tables, b: Tables, id: nat, source: Source, scope: Scope, top: string)
    requires SameTables(a, b)
    ensures SameTables(Register(a, id, source, scope, top), Register(b, id, source, scope, top))
  {
    hide ScanAll, WithTime, IsExprSymbol, AddExpr;
    var full := WithTime(ScanAll(scope.All(), source.text, top), source.text);
    assert SameShape(EntryOf(a, id), EntryOf(b, id));
    AddExprAlike(EntryOf(a, id), EntryOf(b, id), source, full.symbols, full.consts);
  }

  lemma {:induction false} RemoveAlike(a: Tables, b: Tables, ids: seq<nat>)
    requires SameTables(a, b)
    ensures SameTables(RemoveAll(a, ids), RemoveAll(b, ids))
  {
    if ids != [] {
      RemoveAlike(a, b, ids[..|ids| - 1]);
    }
  }

  /** Hits change slots only, so a history without spoiling requests leaves the tables of its requests. */
  lemma {:induction false} LivedAlike(t: Tables, site: Site, history: seq<Happening>)
    requires Good(t) && NeverSpoils(t, site, RequestsOf(history))
    ensures var after := Lived(t, site, history);
      after.Some? && Good(after.value) && SameTables(PerformAll(t, site, RequestsOf(history)), after.value)
  {
    hide Good, Spoils, Evaluate, Perform, SameTables;
    if history == [] {
      SameTablesReflexive(t);
    } else {
      var init, last := history[..|history| - 1], history[|history| - 1];
      assert history == init + [last];
      RequestsSnoc(init, last);
      assert last.Asked? ==> RequestsOf(history)[..|RequestsOf(history)| - 1] == RequestsOf(init);
      LivedAlike(t, site, init);
      LivedOn(t, site, init, last);
    }
  }

  lemma RequestsSnoc(init: seq<Happening>, last: Happening)
    ensures RequestsOf(init + [last]) == if last.Asked? then RequestsOf(init) + [last.request] else RequestsOf(init)
  {
    assert (init + [last])[..|init|] == init;
  }

  lemma LivedOn(t: Tables, site: Site, init: seq<Happening>, last: Happening)
    requires NeverSpoils(t, site, RequestsOf(init + [last])) && Good(t)
    requires var before := Lived(t, site, init);
      before.Some? && Good(before.value) && SameTables(PerformAll(t, site, RequestsOf(init)), before.value)
    ensures var after := Lived(t, site, init + [last]);
      after.Some? && Good(after.value) && SameTables(PerformAll(t, site, RequestsOf(init + [last])), after.value)
  {
    hide Good, Spoils, Evaluate, Perform, SameTables;
    var history := init + [last];
    assert history[..|history| - 1] == init;
    RequestsSnoc(init, last);
    var before := Lived(t, site, init).value;
    var requests := RequestsOf(init);
    match last
    case Asked(request) =>
      assert (requests + [request])[..|requests|] == requests;
      PerformAlike(PerformAll(t, site, requests), before, site, request);
      RequestsKeepGood(t, site, requests + [request]);
      SameTablesKeepGood(PerformAll(t, site, requests + [request]), Perform(before, site, request));
    case Met(id, signals) =>
      if id in before.symbols {
        assert Valid(before) by { GoodIsValid(before); }
        EvaluateKeepsGood(before, site.top, id, signals);
        var after := Evaluate(before, site.top, id, signals).after;
        SameTablesTransitive(PerformAll(t, site, requests), before, after);
        SameTablesKeepGood(before, after);
      }
  }

  lemma GoodIsValid(t: Tables)
    requires Good(t)
    ensures Valid(t)
  {
  }

  /**
   History does not matter: after any two histories with the same requests in the same order, none of which
   spoils the tables, and whatever hits between them, the verdict at a hit is the same.
   */
  lemma HistoriesAgree(t: Tables, site: Site, one: seq<Happening>, other: seq<Happening>, id: nat, signals: Signals)
    requires Good(t) && RequestsOf(one) == RequestsOf(other) && NeverSpoils(t, site, RequestsOf(one))
    ensures var a, b := Lived(t, site, one), Lived(t, site, other);
      && a.Some? && b.Some? && (id in a.value.symbols <==> id in b.value.symbols)
      && (id in a.value.symbols ==>
        && Evaluate(a.value, site.top, id, signals).Verdict? && Evaluate(b.value, site.top, id, signals).Verdict?
        && Evaluate(a.value, site.top, id, signals).stop == Evaluate(b.value, site.top, id, signals).stop)
  {
    hide Good, Evaluate, Lived, RequestsOf, NeverSpoils;
    LivedAlike(t, site, one);
    LivedAlike(t, site, other);
    var a, b := Lived(t, site, one).value, Lived(t, site, other).value;
    var asked := PerformAll(t, site, RequestsOf(one));
    assert SameTables(a, b) by {
      SameTablesSymmetric(asked, a);
      SameTablesTransitive(a, asked, b);
    }
    if id in a.symbols {
      HistoryIndependence(a, b, site.top, id, signals);
    }
  }

  lemma SameTablesSymmetric(a: Tables, b: Tables)
    requires SameTables(a, b)
    ensures SameTables(b, a)
  {
    forall id | id in b.symbols ensures SameShape(b.symbols[id], a.symbols[id]) {
      assert SameShape(a.symbols[id], b.symbols[id]);
    }
  }
}
