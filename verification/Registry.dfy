/**
 The registry as the runtime keeps it: three tables updated in place by the simulator and the request
 handlers.  Every method is proved against the table functions of module Tables.
 */
module Registry {
  import opened Options
  import opened Text
  import opened Handles
  import opened Conditions
  import opened Tables
  import Locations
  import Paths

  /** A truth value, or the exception of a failed `.at`. */
  datatype Evaluation = Threw | Gave(stop: bool)

  class Registry {
    var breakPoints: set<nat>
    var symbolTable: map<nat, Entry>
    var symbolMapping: map<nat, map<string, string>>

    function View(): Tables
      reads this
    {
      Tables(breakPoints, symbolTable, symbolMapping)
    }

    constructor ()
      ensures View() == NO_TABLES
    {
      breakPoints, symbolTable, symbolMapping := {}, map[], map[];
    }

    // ------------------------------------------------------------ src/sim.cc

    method AddBreakPoint(id: nat)
      modifies this
      ensures View() == old(View()).(breakPoints := old(breakPoints) + {id})
    {
      breakPoints := breakPoints + {id};
    }

    method RemoveBreakPoint(id: nat)
      modifies this
      ensures View() == old(View()).(breakPoints := old(breakPoints) - {id})
    {
      if id in breakPoints {
        breakPoints := breakPoints - {id};
      }
    }

    method ShouldContinueSimulation(id: nat) returns (r: bool)
      ensures r <==> id !in View().breakPoints
    {
      r := id !in breakPoints;
    }

    // ----------------------------------------------------------- src/expr.cc

    /** The first loop of `add_expr`. */
    method BindSymbols(id: nat, symbols: set<string>)
      requires id in symbolTable
      modifies this
      ensures View() == old(View()).(symbols := old(symbolTable)[id := AddSymbols(old(symbolTable)[id], symbols)])
    {
      var bp := symbolTable[id];
      ghost var first := bp;
      var todo := symbols;
      NoSymbols(first);
      while todo != {}
        invariant todo <= symbols
        invariant View() == old(View()) && bp == AddSymbols(first, symbols - todo)
        decreases todo
      {
        var s :| s in todo;
        OneSymbol(first, symbols - todo, s);
        assert symbols - (todo - {s}) == (symbols - todo) + {s};
        // the default value is zero
        bp := bp.(vars := Emplace(bp.vars, s, 0.0));
        if s !in bp.consts {
          bp := bp.(bound := bp.bound + {s});
        }
        todo := todo - {s};
      }
      assert symbols - {} == symbols;
      symbolTable := symbolTable[id := bp];
    }

    /** The second loop of `add_expr`. */
    method BindConstants(id: nat, consts: map<string, int>)
      requires id in symbolTable
      modifies this
      ensures View() == old(View()).(symbols := old(symbolTable)[id := AddConstants(old(symbolTable)[id], consts)])
    {
      var bp := symbolTable[id];
      ghost var first := bp;
      var todo := consts.Keys;
      while todo != {}
        invariant todo <= consts.Keys
        invariant View() == old(View()) && bp == AddConstants(first, consts - todo)
        decreases todo
      {
        var s :| s in todo;
        OneConstant(first, consts, todo, s);
        if s !in bp.bound {
          bp := bp.(consts := Emplace(bp.consts, s, consts[s] as real));
        }
        todo := todo - {s};
      }
      assert consts - {} == consts;
      symbolTable := symbolTable[id := bp];
    }

    /** `add_expr`; `ok` is false where it throws. */
    method AddExpr(id: nat, source: Source, symbols: set<string>, consts: map<string, int>) returns (ok: bool)
      modifies this
      ensures View() == old(View()).(
        symbols := old(symbolTable)[id := Conditions.AddExpr(EntryOf(old(View()), id), source, symbols, consts)])
      ensures ok <==> Compiles(AddConstants(AddSymbols(EntryOf(old(View()), id), symbols), consts), source)
    {
      hide AddSymbols, AddConstants, Compiles;
      if id !in symbolTable {
        symbolTable := symbolTable[id := EMPTY_ENTRY];
      }
      BindSymbols(id, symbols);
      BindConstants(id, consts);
      ok := Compiles(symbolTable[id], source);
      if ok {
        symbolTable := symbolTable[id := symbolTable[id].(compiled := source.parse)];
      }
    }

    method RemoveExpr(id: nat)
      modifies this
      ensures View() == old(View()).(symbols := old(symbolTable) - {id})
    {
      if id in symbolTable {
        symbolTable := symbolTable - {id};
      }
    }

    method HasExprBreakpoint(id: nat) returns (r: bool)
      ensures r <==> id in View().symbols
    {
      r := id in symbolTable;
    }

    /** `evaluate`: the slots are written back once all names were found. */
    method EvaluateEntry(id: nat, values: map<string, int>) returns (r: Evaluation)
      modifies this
      ensures id !in old(symbolTable) ==> r == Gave(false) && View() == old(View())
      ensures id in old(symbolTable) && !(values.Keys <= old(symbolTable)[id].vars.Keys) ==>
        r == Threw && View() == old(View())
      ensures id in old(symbolTable) && values.Keys <= old(symbolTable)[id].vars.Keys ==>
        var entry := Store(old(symbolTable)[id], values);
        r == Gave(Holds(entry)) && View() == old(View()).(symbols := old(symbolTable)[id := entry])
    {
      if id !in symbolTable {
        return Gave(false);
      }
      var bp := symbolTable[id];
      var todo := values.Keys;
      while todo != {}
        invariant todo <= values.Keys && values.Keys - todo <= symbolTable[id].vars.Keys
        invariant View() == old(View())
        invariant bp == Store(symbolTable[id], values - todo)
        decreases todo
      {
        var s :| s in todo;
        if s !in bp.vars {
          return Threw;
        }
        bp := bp.(vars := bp.vars[s := values[s] as real]);
        todo := todo - {s};
        assert bp.vars == Store(symbolTable[id], values - todo).vars;
      }
      assert values - {} == values;
      symbolTable := symbolTable[id := bp];
      r := Gave(Holds(bp));
    }

    // ------------------------------------------------- src/control.cc:334-425

    /** The mapping of one breakpoint, updated in place. */
    method MapSymbol(id: nat, name: string, handle: string)
      requires id in symbolMapping
      modifies this
      ensures View() == old(View()).(
        mapping := old(symbolMapping)[id := Emplace(old(symbolMapping)[id], name, handle)])
    {
      symbolMapping := symbolMapping[id := Emplace(symbolMapping[id], name, handle)];
    }

    /** One turn of either loop of `add_breakpoint_expr`. */
    method ScanVariable(id: nat, v: Variable, text: string, top: string, seen: Scan) returns (scan: Scan)
      requires id in symbolMapping && symbolMapping[id] == seen.mapping && !seen.failed
      modifies this
      ensures scan == ScanOne(seen, v, text, top)
      ensures View() == old(View()).(mapping := old(symbolMapping)[id := scan.mapping])
    {
      scan := seen;
      if (v.isContext || v.name != "") && IsExprSymbol(text, v.name) {
        if v.isContext && v.name == "time" {
          scan := scan.(timeTaken := true);
        }
        if v.isVar {
          var handle := GetHandleName(top, if v.isContext then v.value else v.handle + "." + v.value);
          MapSymbol(id, v.name, handle);
          scan := scan.(mapping := symbolMapping[id], symbols := scan.symbols + {v.name});
        } else {
          var value := Stoi(v.value);
          if value.None? {
            scan := scan.(failed := true);
          } else {
            scan := scan.(consts := Emplace(scan.consts, v.name, value.value));
          }
        }
      }
    }

    /** One of the two loops; `seen` is what was scanned before it. */
    method ScanVariables(id: nat, vs: seq<Variable>, text: string, top: string, seen: Scan) returns (scan: Scan)
      requires id in symbolMapping && symbolMapping[id] == seen.mapping && !seen.failed
      modifies this
      ensures scan == ScanFrom(seen, vs, text, top)
      ensures View() == old(View()).(mapping := old(symbolMapping)[id := scan.mapping])
    {
      hide ScanOne;
      scan := seen;
      var i := 0;
      while i < |vs| && !scan.failed
        invariant i <= |vs|
        invariant scan == ScanFrom(seen, vs[..i], text, top)
        invariant View() == old(View()).(mapping := old(symbolMapping)[id := scan.mapping])
      {
        assert vs[..i + 1][..i] == vs[..i];
        scan := ScanVariable(id, vs[i], text, top, scan);
        i := i + 1;
      }
      ScanFromStuck(seen, vs, i, text, top);
    }

    /** Both loops, from an empty mapping. */
    method GatherSymbols(id: nat, scope: Scope, text: string, top: string) returns (scan: Scan)
      modifies this
      ensures scan == ScanAll(scope.All(), text, top)
      ensures View() == old(View()).(mapping := old(symbolMapping)[id := scan.mapping])
    {
      symbolMapping := symbolMapping[id := map[]];
      scan := ScanVariables(id, scope.own, text, top, NO_SCAN);
      if !scan.failed {
        scan := ScanVariables(id, scope.context, text, top, scan);
      }
      ScanInParts(scope.own, scope.context, text, top);
    }

    /** The time, mapped like a variable. */
    method MapTime(id: nat, scan: Scan, text: string) returns (full: Scan)
      requires id in symbolMapping && symbolMapping[id] == scan.mapping
      modifies this
      ensures full == WithTime(scan, text)
      ensures View() == old(View()).(mapping := old(symbolMapping)[id := full.mapping])
    {
      full := scan;
      var time := if scan.timeTaken then "time_" else "time";
      if IsExprSymbol(text, time) {
        MapSymbol(id, time, "$time");
        full := full.(mapping := symbolMapping[id], symbols := full.symbols + {time});
      }
    }

    /** `add_breakpoint_expr`. */
    method AddBreakpointExpr(site: Site, id: nat, source: Source) returns (ok: bool)
      modifies this
      ensures View() == if source.text == "" || id !in site.scopes then old(View())
                        else Register(old(View()), id, source, site.scopes[id], site.top)
      ensures ok ==> source.text == "" || id in View().symbols
    {
      hide Conditions.AddExpr, ScanAll, WithTime, Compiles, IsExprSymbol;
      if source.text == "" {
        return true;
      }
      if id !in site.scopes {
        return false;
      }
      var scan := GatherSymbols(id, site.scopes[id], source.text, site.top);
      if scan.failed {
        return false;
      }
      var full := MapTime(id, scan, source.text);
      ok := AddExpr(id, source, full.symbols, full.consts);
    }

    /** `evaluate_breakpoint_expr`. */
    method EvaluateBreakpointExpr(top: string, id: nat, signals: Signals) returns (r: Evaluation)
      modifies this
      ensures var o := Evaluate(old(View()), top, id, signals);
        if o.Throws? then r == Threw && View() == old(View())
        else r == Gave(o.stop) && View() == o.after
    {
      if id !in symbolMapping {
        return Threw;
      }
      var symbols := symbolMapping[id];
      var values: map<string, int> := map[];
      var todo := symbols.Keys;
      while todo != {}
        invariant todo <= symbols.Keys && values.Keys == symbols.Keys - todo
        invariant forall n :: n in values ==> GetValue(top, signals, symbols[n]) == Some(values[n])
        decreases todo
      {
        var n :| n in todo;
        var v := GetValue(top, signals, symbols[n]);
        if v.None? {
          // unable to obtain the value: break by default
          assert !AllReadable(symbols, top, signals);
          return Gave(true);
        }
        var text := Format(v.value);
        values := values[n := Stoi(text).value];
        todo := todo - {n};
      }
      assert values == Fetched(symbols, top, signals);
      r := EvaluateEntry(id, values);
    }

    // ------------------------------------------------- src/control.cc:676-744

    /** The delete handlers: every breakpoint of the list goes, with its condition. */
    method RemoveIds(ids: seq<nat>)
      modifies this
      ensures View() == RemoveAll(old(View()), ids)
    {
      for i := 0 to |ids|
        invariant View() == RemoveAll(old(View()), ids[..i])
      {
        assert ids[..i + 1][..i] == ids[..i];
        RemoveBreakPoint(ids[i]);
        RemoveExpr(ids[i]);
      }
      assert ids[..|ids|] == ids;
    }

    method HandleRequest(site: Site, request: TableRequest)
      modifies this
      ensures View() == Perform(old(View()), site, request)
    {
      match request
      case Insert(id, source) =>
        AddBreakPoint(id);
        if source.text != "" {
          var _ := AddBreakpointExpr(site, id, source);
        }
      case DeleteId(text) =>
        var id := Stoi(text);
        if id.Some? && id.value >= 0 {
          RemoveIds([id.value as nat]);
        }
      case DeleteLine(path) =>
        var at := Locations.GetFnLn(path);
        if at.Found? {
          RemoveIds(IdsAtLine(site.rows, at.filename, at.line));
        }
      case DeleteFile(filename) =>
        if filename != "" {
          var name := filename;
          if site.srcPath != "" && site.dstPath != "" {
            var _, out := Paths.Replace(filename, site.srcPath, site.dstPath);
            name := out;
          }
          RemoveIds(IdsInFile(site.rows, name));
        }
    }
  }

  // ------------------------------------------------------------ scanning in parts

  lemma {:induction false} ScanFromStuck(seen: Scan, vs: seq<Variable>, n: nat, text: string, top: string)
    requires n <= |vs| && (n == |vs| || ScanFrom(seen, vs[..n], text, top).failed)
    ensures ScanFrom(seen, vs, text, top) == ScanFrom(seen, vs[..n], text, top)
  {
    if n == |vs| {
      assert vs[..n] == vs;
    } else {
      assert vs[..|vs| - 1][..n] == vs[..n];
      ScanFromStuck(seen, vs[..|vs| - 1], n, text, top);
    }
  }

  lemma {:induction false} ScanFromFailed(seen: Scan, vs: seq<Variable>, text: string, top: string)
    requires seen.failed
    ensures ScanFrom(seen, vs, text, top) == seen
  {
    if vs != [] {
      ScanFromFailed(seen, vs[..|vs| - 1], text, top);
    }
  }

  /** The two loops together scan the variables of the scope one after another. */
  lemma {:induction false} ScanInParts(own: seq<Variable>, context: seq<Variable>, text: string, top: string)
    ensures var first := ScanFrom(NO_SCAN, own, text, top);
      && ScanAll(own + context, text, top) == ScanFrom(first, context, text, top)
      && (first.failed ==> ScanAll(own + context, text, top) == first)
  {
    if ScanFrom(NO_SCAN, own, text, top).failed {
      ScanFromFailed(ScanFrom(NO_SCAN, own, text, top), context, text, top);
    }
    if context == [] {
      assert own + context == own;
    } else {
      var all := own + context;
      assert all[..|all| - 1] == own + context[..|context| - 1];
      ScanInParts(own, context[..|context| - 1], text, top);
    }
  }

  // ------------------------------------------------------------ one name at a time

  lemma NoSymbols(entry: Entry)
    ensures AddSymbols(entry, {}) == entry
  {
    assert AddSymbols(entry, {}).vars == entry.vars;
    assert AddSymbols(entry, {}).bound == entry.bound;
  }

  lemma OneSymbol(entry: Entry, done: set<string>, s: string)
    ensures var before, after := AddSymbols(entry, done), AddSymbols(entry, done + {s});
      && after.vars == Emplace(before.vars, s, 0.0)
      && after.bound == (if s in before.consts then before.bound else before.bound + {s})
  {
  }

  lemma OneConstant(entry: Entry, consts: map<string, int>, todo: set<string>, s: string)
    requires s in todo && todo <= consts.Keys
    ensures var before, after := AddConstants(entry, consts - todo), AddConstants(entry, consts - (todo - {s}));
      after.consts == if s in entry.bound then before.consts else Emplace(before.consts, s, consts[s] as real)
  {
  }
}
