/**
 Where the registry of src/control.cc falls short: the inserts that break its lookups do break them, a
 request list that gets there, and conditions whose verdict hangs on values left by earlier hits.
 */
module RegistryLimits {
  import opened Options
  import opened Text
  import opened Handles
  import opened Conditions
  import opened Tables

  /** After a poisoning insert the next evaluation throws, as soon as the mapped signals can be read. */
  lemma PoisonThrows(t: Tables, site: Site, id: nat, source: Source, signals: Signals)
    requires Valid(t) && Poisons(t, site, id, source.text)
    ensures var after := Perform(t, site, Insert(id, source));
      && id in after.mapping && id in after.symbols
      && (AllReadable(after.mapping[id], site.top, signals) ==> Evaluate(after, site.top, id, signals) == Throws)
  {
    var vs := site.scopes[id].All();
    ScanFails(vs, source.text, site.top);
    PartialMapping(t, site, id, source.text);
  }

  // -------------------------------------------------- a list of requests that poisons

  const SPOILT_VARIABLES := [
    Variable("q", "q", "", true, true),
    Variable("p.x", "x", "", true, true),
    Variable("p", "True", "", true, false)]

  const SPOILT := Site(map[0 := Scope([], SPOILT_VARIABLES)], [], "T.", "", "")

  /** What the scan for `p.x` has when it comes to `p`. */
  const ONLY_PX := Scan(map["p.x" := "T.x"], {"p.x"}, map[], false, false)

  const ON_Q := Source("q", Some(Name("q")))
  const ON_PX := Source("p.x", Some(Name("p.x")))

  lemma SpoiltSymbols()
    ensures IsExprSymbol("q", "q") && !IsExprSymbol("q", "p.x") && !IsExprSymbol("q", "p") && !IsExprSymbol("q", "time")
    ensures !IsExprSymbol("p.x", "q") && IsExprSymbol("p.x", "p.x") && IsExprSymbol("p.x", "p")
    ensures Stoi("True") == None
  {
    SymbolOnlyInFront("q", "q");
    SymbolOnlyInFront("q", "p.x");
    SymbolOnlyInFront("q", "p");
    SymbolOnlyInFront("q", "time");
    SymbolOnlyInFront("p.x", "q");
    SymbolOnlyInFront("p.x", "p.x");
    SymbolOnlyInFront("p.x", "p");
    assert SkipSpace("True", 0) == 0 && DigitRun("True", 0) == 0;
  }

  /**
   A condition on `q`, then one on `p.x` while `p` is the constant "True": from empty tables, the second
   insert leaves tables that are not valid, and the breakpoint's next evaluation throws.
   */
  lemma SpoiltRequests()
    ensures var requests := [Insert(0, ON_Q), Insert(0, ON_PX)];
      && !Valid(PerformAll(NO_TABLES, SPOILT, requests))
      && Evaluate(PerformAll(NO_TABLES, SPOILT, requests), "T.", 0, Signals(map["T.x" := 1], 0)) == Throws
  {
    var requests := [Insert(0, ON_Q), Insert(0, ON_PX)];
    var first := Perform(NO_TABLES, SPOILT, Insert(0, ON_Q));
    TwoRequests(NO_TABLES, SPOILT, Insert(0, ON_Q), Insert(0, ON_PX));
    SpoiltFirst(first);
    SpoiltSecond(first);
    InsertKeepsValid(first, SPOILT, 0, ON_PX);
    PoisonThrows(first, SPOILT, 0, ON_PX, Signals(map["T.x" := 1], 0));
    SpoiltMapping(first);
  }

  lemma TwoRequests(t: Tables, site: Site, a: TableRequest, b: TableRequest)
    ensures PerformAll(t, site, [a, b]) == Perform(Perform(t, site, a), site, b)
  {
    hide Perform;
    assert [a, b][..1] == [a] && [a][..0] == [];
    assert PerformAll(t, site, [a]) == Perform(t, site, a);
  }

  /** The first insert registers `q` alone. */
  lemma SpoiltFirst(first: Tables)
    requires first == Perform(NO_TABLES, SPOILT, Insert(0, ON_Q))
    ensures Valid(first) && 0 in first.symbols && "p.x" !in first.symbols[0].vars
  {
    hide ScanAll, WithTime, IsExprSymbol, Stoi, Compiles;
    InsertKeepsValid(NO_TABLES, SPOILT, 0, ON_Q);
    SpoiltScan();
  }

  lemma SpoiltScan()
    ensures var scan := ScanAll(SPOILT.scopes[0].All(), "q", "T.");
      !scan.failed && "p.x" !in WithTime(scan, "q").symbols
  {
    hide ScanAll, Stoi;
    SpoiltSymbols();
    var vs := SPOILT.scopes[0].All();
    ScanFails(vs, "q", "T.");
    ScanMapsSymbols(vs, "q", "T.");
    ScanMaps(vs, "p.x", "q", "T.");
    hide IsExprSymbol;
    assert |vs| == 3 && vs[0].name == "q" && vs[1].name == "p.x" && vs[2].name == "p";
    assert !HasBad(vs, "q");
    assert !MappedFirst(vs, "p.x", "q");
  }

  lemma SpoiltSecond(first: Tables)
    requires 0 in first.symbols && "p.x" !in first.symbols[0].vars
    ensures Poisons(first, SPOILT, 0, "p.x")
  {
    SpoiltSymbols();
    var vs := SPOILT.scopes[0].All();
    assert BadAt(vs, 2, "p.x");
    assert MappedAt(vs, 1, "p.x", "p.x");
    assert NoBadBefore(vs, 1, "p.x");
  }

  /** The second insert maps `p.x` alone before it fails. */
  lemma SpoiltMapping(first: Tables)
    ensures var after := Perform(first, SPOILT, Insert(0, ON_PX));
      0 in after.mapping && AllReadable(after.mapping[0], "T.", Signals(map["T.x" := 1], 0))
  {
    hide WithTime, ScanAll, AddExpr;
    SpoiltScanned();
    assert SPOILT.scopes[0].All() == SPOILT_VARIABLES;
    assert Find("T.x", "T.") == Some(0) by { assert OccursAt("T.x", "T.", 0); }
  }

  lemma SpoiltScanned()
    ensures ScanAll(SPOILT_VARIABLES, "p.x", "T.") == ONLY_PX.(failed := true)
  {
    hide ScanOne;
    SpoiltTurns();
    var vs := SPOILT_VARIABLES;
    assert vs[..2] == [vs[0], vs[1]] && vs[..2][..1] == [vs[0]] && [vs[0]][..0] == [];
    assert ScanAll([], "p.x", "T.") == NO_SCAN && ScanAll([vs[0]], "p.x", "T.") == NO_SCAN;
    assert ScanAll(vs[..2], "p.x", "T.") == ONLY_PX;
  }

  lemma SpoiltTurns()
    ensures ScanOne(NO_SCAN, SPOILT_VARIABLES[0], "p.x", "T.") == NO_SCAN
    ensures ScanOne(NO_SCAN, SPOILT_VARIABLES[1], "p.x", "T.") == ONLY_PX
    ensures ScanOne(ONLY_PX, SPOILT_VARIABLES[2], "p.x", "T.") == ONLY_PX.(failed := true)
  {
    SpoiltSymbols();
    hide IsExprSymbol, Stoi;
    assert HandleOf(SPOILT_VARIABLES[1], "T.") == "T.x";
  }

  // ------------------------------------------------------- stale values decide

  const STALE := Site(map[0 := Scope([], [Variable("q", "q", "", true, true)])], [], "T.", "", "")

  const PLAIN := Source("q", Some(Name("q")))
  const BRACED := Source("(q)", Some(Name("q")))

  /** The tables after the first insert, when the slot of `q` holds `v`. */
  function PlainTables(v: real): Tables {
    Tables({0}, map[0 := Entry(map["q" := v], {"q"}, map[], Some(Name("q")))], map[0 := map["q" := "T.q"]])
  }

  /** The tables after the second: the slot is as it was, and nothing is mapped. */
  function BracedTables(v: real): Tables {
    PlainTables(v).(mapping := map[0 := map[]])
  }

  lemma PlainInsert()
    ensures Perform(NO_TABLES, STALE, Insert(0, PLAIN)) == PlainTables(0.0)
  {
    SymbolOnlyInFront("q", "q");
    SymbolOnlyInFront("q", "time");
    PlainScan();
    var t := Perform(NO_TABLES, STALE, Insert(0, PLAIN));
    assert t.symbols[0].vars == map["q" := 0.0];
    assert t.symbols[0].consts == map[];
    assert t.symbols[0].bound == {"q"};
  }

  lemma PlainScan()
    ensures ScanAll(STALE.scopes[0].All(), "q", "T.") == Scan(map["q" := "T.q"], {"q"}, map[], false, false)
  {
    SymbolOnlyInFront("q", "q");
    var vs := STALE.scopes[0].All();
    assert |vs| == 1 && vs[0].name == "q";
    assert HandleOf(vs[0], "T.") == "T.q";
    assert ScanAll(vs[..0], "q", "T.") == NO_SCAN;
  }

  lemma BracedInsert(v: real)
    ensures Perform(PlainTables(v), STALE, Insert(0, BRACED)) == BracedTables(v)
  {
    SymbolOnlyInFront("(q)", "q");
    SymbolOnlyInFront("(q)", "time");
    BracedScan();
    BracedEntry(v);
    hide IsExprSymbol, ScanAll, AddExpr;
    var t := Perform(PlainTables(v), STALE, Insert(0, BRACED));
    assert t.breakPoints == {0};
    assert t.symbols == PlainTables(v).symbols;
  }

  lemma BracedEntry(v: real)
    ensures var entry := PlainTables(v).symbols[0]; AddExpr(entry, BRACED, {}, map[]) == entry
  {
    var entry := PlainTables(v).symbols[0];
    var after := AddExpr(entry, BRACED, {}, map[]);
    assert after.vars == entry.vars && after.bound == entry.bound && after.consts == entry.consts;
  }

  lemma BracedScan()
    ensures ScanAll(STALE.scopes[0].All(), "(q)", "T.") == NO_SCAN
  {
    SymbolOnlyInFront("(q)", "q");
    var vs := STALE.scopes[0].All();
    assert |vs| == 1 && vs[0].name == "q";
    assert ScanAll(vs[..0], "(q)", "T.") == NO_SCAN;
  }

  /** A hit fetches `q` into its slot. */
  lemma PlainHit(v: real, x: Int32)
    ensures Evaluate(PlainTables(v), "T.", 0, Signals(map["T.q" := x], 0))
      == Verdict(x != 0, PlainTables(x as real))
  {
    var signals := Signals(map["T.q" := x], 0);
    assert Find("T.q", "T.") == Some(0) by { assert OccursAt("T.q", "T.", 0); }
    assert GetValue("T.", signals, "T.q") == Some(x);
    var t := PlainTables(v);
    var values := Fetched(t.mapping[0], "T.", signals);
    assert values == map["q" := x as int];
    assert Store(t.symbols[0], values).vars == map["q" := x as real];
    assert Evaluate(t, "T.", 0, signals).after.symbols == PlainTables(x as real).symbols;
  }

  /** The requests and hits of one session: a condition on `q`, a hit, and the condition again in brackets. */
  function History(x: Int32): (t: Tables)
    requires Evaluate(Perform(NO_TABLES, STALE, Insert(0, PLAIN)), "T.", 0, Signals(map["T.q" := x], 0)).Verdict?
  {
    var first := Perform(NO_TABLES, STALE, Insert(0, PLAIN));
    Perform(Evaluate(first, "T.", 0, Signals(map["T.q" := x], 0)).after, STALE, Insert(0, BRACED))
  }

  /**
   Inserting "q", a hit at which `q` is `x`, and inserting "(q)": the tables stay valid, but the second
   insert strands the slot, and from then on the verdict is whether `x` was zero, whatever the signals
   are now.
   */
  lemma StaleSlotDecides(x: Int32, now: Signals)
    ensures var first := Perform(NO_TABLES, STALE, Insert(0, PLAIN));
      var hit := Evaluate(first, "T.", 0, Signals(map["T.q" := x], 0));
      && hit.Verdict? && Strands(hit.after, STALE, 0, BRACED)
      && Valid(History(x))
      && Evaluate(History(x), "T.", 0, now).Verdict?
      && (Evaluate(History(x), "T.", 0, now).stop <==> x != 0)
  {
    var v := x as real;
    PlainInsert();
    PlainHit(0.0, x);
    BracedInsert(v);
    StaleVerdict(v, now);
    assert Good(PlainTables(v));
    InsertKeepsGood(PlainTables(v), STALE, 0, BRACED);
    InsertKeepsValid(PlainTables(v), STALE, 0, BRACED);
    assert !Covered(BracedTables(v)) by {
      assert "q" in Reads(BracedTables(v).symbols[0]);
    }
  }

  lemma StaleVerdict(v: real, now: Signals)
    ensures Valid(BracedTables(v))
    ensures Evaluate(BracedTables(v), "T.", 0, now).Verdict?
    ensures Evaluate(BracedTables(v), "T.", 0, now).stop == Truth(v)
  {
    var t := BracedTables(v);
    var values := Fetched(t.mapping[0], "T.", now);
    assert values == map[];
    assert Store(t.symbols[0], values).vars == t.symbols[0].vars;
  }

  /** Two sessions that make the same requests and see the same signals now, with different verdicts. */
  lemma HistoryDecides(now: Signals)
    ensures Evaluate(Perform(NO_TABLES, STALE, Insert(0, PLAIN)), "T.", 0, Signals(map["T.q" := 0], 0)).Verdict?
    ensures Evaluate(Perform(NO_TABLES, STALE, Insert(0, PLAIN)), "T.", 0, Signals(map["T.q" := 1], 0)).Verdict?
    ensures var still, moved := Evaluate(History(0), "T.", 0, now), Evaluate(History(1), "T.", 0, now);
      still.Verdict? && moved.Verdict? && !still.stop && moved.stop
  {
    hide Perform, Evaluate, History, Strands, Valid;
    StaleSlotDecides(0, now);
    StaleSlotDecides(1, now);
  }
}
