/** Reading signals through the simulator: `get_handle_name`, `is_expr_symbol` and `get_value`. */
module Handles {
  import opened Options
  import opened Text

  /** A value the simulator hands out, read as `vpiIntVal`; simulation time is taken to fit as well. */
  type Int32 = x: int | -0x8000_0000 <= x <= 0x7fff_ffff

  /** What the simulator shows at one moment: the signals by full handle name, and the time. */
  datatype Signals = Signals(values: map<string, Int32>, time: Int32)

  function GetHandleName(top: string, handle: string): string {
    if top != "" && Find(handle, top).None? then
      if top[|top| - 1] == '.' then top + handle else top + "." + handle
    else handle
  }

  /**
   The prefixed name holds the top name, ends in the handle, and keeps its prefix when it is prefixed
   again, as `get_value` does with names that were prefixed before.
   */
  lemma HandleNameIsStable(top: string, handle: string)
    ensures var full := GetHandleName(top, handle);
      && Find(full, top).Some?
      && |handle| <= |full| && full[|full| - |handle|..] == handle
      && GetHandleName(top, full) == full
  {
    var full := GetHandleName(top, handle);
    if top == "" {
      assert OccursAt(handle, "", 0);
    } else if Find(handle, top).None? {
      assert OccursAt(full, top, 0);
    }
  }

  /** A name that lacks the top name gets it in front, and one dot between, however the top is spelt. */
  lemma HandleNameHasDot(top: string, handle: string)
    requires top != "" && top != "."
    ensures var base := if top[|top| - 1] == '.' then top[..|top| - 1] else top;
      GetHandleName(top, handle) == if Find(handle, top).Some? then handle else base + "." + handle
  {
    assert top[|top| - 1] == '.' ==> top[..|top| - 1] + "." == top;
  }

  /** The value of a handle, None when the simulator does not know the name. */
  function GetValue(top: string, signals: Signals, handle: string): Option<Int32> {
    if handle == "time" || handle == "$time" then Some(signals.time)
    else
      var full := GetHandleName(top, handle);
      if full in signals.values then Some(signals.values[full]) else None
  }

  /**
   What a name shows: the time under its two names, else the signal of that name, which may be given with
   or without the top name in front.
   */
  lemma ValueShown(top: string, signals: Signals, handle: string)
    ensures GetValue(top, signals, "time") == GetValue(top, signals, "$time") == Some(signals.time)
    ensures handle != "time" && handle != "$time" ==>
      && GetValue(top, signals, handle).Some? == (GetHandleName(top, handle) in signals.values)
      && (GetHandleName(top, handle) in signals.values ==>
           GetValue(top, signals, handle) == Some(signals.values[GetHandleName(top, handle)]))
  {
  }

  /** The text `get_value` returns for a value. */
  function Format(v: Int32): (s: string)
    ensures Stoi(s) == Some(v)
  {
    StoiOfDec(v);
    if v < 0 then "-" + ToDec(-(v as int)) else ToDec(v)
  }

  // ----------------------------------------------------- symbols in conditions

  predicate IsWordChar(c: char) {
    '0' <= c <= '9' || 'A' <= c <= 'Z' || 'a' <= c <= 'z' || c == '_'
  }

  /**
   `is_expr_symbol`.  The character tested in front of a match is the first character of the match
   itself, as in the source.
   */
  predicate IsExprSymbol(expr: string, symbol: string) {
    var at := Find(expr, symbol);
    && at.Some?
    && !(at.value > 0 && at.value < |expr| && IsWordChar(expr[at.value]))
    && !(at.value + |symbol| < |expr| && IsWordChar(expr[at.value + |symbol|]))
  }

  /**
   What that test amounts to: a symbol that begins with a word character is seen only at the very
   front of the condition.
   */
  lemma SymbolOnlyInFront(expr: string, symbol: string)
    requires symbol != "" && IsWordChar(symbol[0])
    ensures IsExprSymbol(expr, symbol) <==>
      OccursAt(expr, symbol, 0) && (|symbol| < |expr| ==> !IsWordChar(expr[|symbol|]))
  {
    if OccursAt(expr, symbol, 0) {
      assert Find(expr, symbol) == Some(0);
    }
  }

  /** A symbol that begins otherwise is recognised where it first occurs, unless a word character follows. */
  lemma SymbolAnywhere(expr: string, symbol: string, front: string, back: string)
    requires symbol != "" && !IsWordChar(symbol[0])
    requires expr == front + symbol + back && forall k: nat :: k < |front| ==> !OccursAt(expr, symbol, k)
    ensures IsExprSymbol(expr, symbol) <==> back == "" || !IsWordChar(back[0])
  {
    assert OccursAt(expr, symbol, |front|);
    assert Find(expr, symbol) == Some(|front|);
    assert expr[|front|] == symbol[0];
    assert back != "" ==> expr[|front| + |symbol|] == back[0];
  }

  /** A name of one or more word characters. */
  predicate IsWord(s: string) {
    s != "" && forall k :: 0 <= k < |s| ==> IsWordChar(s[k])
  }

  /** So a condition has at most one symbol that is a word. */
  lemma AtMostOneSymbol(expr: string, a: string, b: string)
    requires IsWord(a) && IsWord(b) && |a| <= |b|
    requires IsExprSymbol(expr, a) && IsExprSymbol(expr, b)
    ensures a == b
  {
    SymbolOnlyInFront(expr, a);
    SymbolOnlyInFront(expr, b);
    assert expr[..|a|] == a && expr[..|b|] == b;
    assert forall k :: 0 <= k < |b| ==> IsWordChar(expr[k]) by {
      assert forall k :: 0 <= k < |b| ==> expr[..|b|][k] == b[k];
    }
  }
}
