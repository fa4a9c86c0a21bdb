/**
 Breakpoint conditions, src/expr.cc.  A small expression tree stands for what exprtk compiles; its
 doubles are reals here.
 */
module Conditions {
  import opened Options

  datatype Op = Add | Sub | Mul | Less | Equal | And | Or

  datatype Expr =
    | Num(value: real)
    | Name(name: string)
    | Not(arg: Expr)
    | Bin(op: Op, left: Expr, right: Expr)

  /** The text of a condition and what exprtk's grammar makes of it, None for a syntax error. */
  datatype Source = Source(text: string, parse: Option<Expr>)

  /**
   One `BreakPointExpression`: the slots of `var_mapping`, the names its symbol table binds to slots,
   the names it binds to constants, and the expression compiled last.
   */
  datatype Entry = Entry(
    vars: map<string, real>,
    bound: set<string>,
    consts: map<string, real>,
    compiled: Option<Expr>)

  const EMPTY_ENTRY := Entry(map[], {}, map[], None)

  function FromBool(b: bool): real {
    if b then 1.0 else 0.0
  }

  function Apply(op: Op, x: real, y: real): real {
    match op
    case Add => x + y
    case Sub => x - y
    case Mul => x * y
    case Less => FromBool(x < y)
    case Equal => FromBool(x == y)
    case And => FromBool(x != 0.0 && y != 0.0)
    case Or => FromBool(x != 0.0 || y != 0.0)
  }

  function Names(e: Expr): set<string> {
    match e
    case Num(_) => {}
    case Name(n) => {n}
    case Not(a) => Names(a)
    case Bin(_, l, r) => Names(l) + Names(r)
  }

  /** A name stands for its constant, else for the current content of its slot. */
  function Lookup(entry: Entry, n: string): real {
    if n in entry.consts then entry.consts[n]
    else if n in entry.bound && n in entry.vars then entry.vars[n]
    else 0.0
  }

  function Eval(e: Expr, entry: Entry): real {
    match e
    case Num(v) => v
    case Name(n) => Lookup(entry, n)
    case Not(a) => FromBool(Eval(a, entry) == 0.0)
    case Bin(op, l, r) => Apply(op, Eval(l, entry), Eval(r, entry))
  }

  /** `static_cast<int>` cuts the fraction off before the result is taken as a truth value. */
  predicate Truth(raw: real) {
    raw >= 1.0 || raw <= -1.0
  }

  /** A value counts as true exactly when cutting its fraction off leaves something other than zero. */
  lemma TruthIsCut(raw: real)
    ensures Truth(raw) <==> (if raw >= 0.0 then raw.Floor else -(-raw).Floor) != 0
  {
  }

  /**
   The verdict of an entry.  An entry whose condition never compiled has the value NaN; converting that
   to an integer is undefined in C++ and gives a non-zero value on x86-64, which is taken here.
   */
  predicate Holds(entry: Entry) {
    entry.compiled.Some? ==> Truth(Eval(entry.compiled.value, entry))
  }

  predicate WellFormed(entry: Entry) {
    && entry.bound <= entry.vars.Keys
    && entry.bound !! entry.consts.Keys
    && (entry.compiled.Some? ==> Names(entry.compiled.value) <= entry.bound + entry.consts.Keys)
  }

  /** The slots that the verdict of an entry depends on. */
  function Reads(entry: Entry): set<string> {
    if entry.compiled.None? then {} else Names(entry.compiled.value) * entry.bound
  }

  /** The same entry up to what the slots hold. */
  predicate SameShape(a: Entry, b: Entry) {
    a.vars.Keys == b.vars.Keys && a.bound == b.bound && a.consts == b.consts && a.compiled == b.compiled
  }

  /** Comparisons and connectives give one or zero, and any value but zero counts as true to a connective. */
  lemma ConnectivesMean(x: real, y: real)
    ensures Apply(Less, x, y) == 1.0 <==> x < y
    ensures Apply(Equal, x, y) == 1.0 <==> x == y
    ensures Apply(And, x, y) == 1.0 <==> x != 0.0 && y != 0.0
    ensures Apply(Or, x, y) == 0.0 <==> x == 0.0 && y == 0.0
    ensures forall entry :: Eval(Not(Num(x)), entry) == if x == 0.0 then 1.0 else 0.0
    ensures forall op :: op in {Less, Equal, And, Or} ==> Apply(op, x, y) in {0.0, 1.0}
    ensures Apply(Add, x, y) - y == x && Apply(Sub, x, y) + y == x && (y != 0.0 ==> Apply(Mul, x, y) / y == x)
  {
  }

  lemma {:induction false} EvalDependsOnNames(e: Expr, a: Entry, b: Entry)
    requires forall n :: n in Names(e) ==> Lookup(a, n) == Lookup(b, n)
    ensures Eval(e, a) == Eval(e, b)
  {
    match e
    case Num(_) =>
    case Name(n) =>
    case Not(x) => EvalDependsOnNames(x, a, b);
    case Bin(_, l, r) =>
      EvalDependsOnNames(l, a, b);
      EvalDependsOnNames(r, a, b);
  }

  /** Entries of one shape that agree on the slots read give one verdict. */
  lemma HoldsDependsOnReads(a: Entry, b: Entry)
    requires WellFormed(a) && SameShape(a, b)
    requires forall n :: n in Reads(a) ==> a.vars[n] == b.vars[n]
    ensures Holds(a) == Holds(b)
  {
    if a.compiled.Some? {
      EvalDependsOnNames(a.compiled.value, a, b);
    }
  }

  // ------------------------------------------------------------- registration

  /** A new slot holds zero; a slot that is there keeps its content. */
  function AddSymbols(entry: Entry, symbols: set<string>): Entry {
    entry.(
      vars := (map n | n in symbols :: 0.0) + entry.vars,
      bound := entry.bound + (symbols - entry.consts.Keys))
  }

  /** A name the table knows already is not bound again. */
  function AddConstants(entry: Entry, consts: map<string, int>): Entry {
    entry.(consts := (map n | n in consts && n !in entry.bound :: consts[n] as real) + entry.consts)
  }

  /** Compilation fails on a syntax error or an unknown name, and then keeps the old expression. */
  predicate Compiles(entry: Entry, source: Source) {
    source.parse.Some? && Names(source.parse.value) <= entry.bound + entry.consts.Keys
  }

  function Compile(entry: Entry, source: Source): Entry {
    if Compiles(entry, source) then entry.(compiled := source.parse) else entry
  }

  /** The entry that `add_expr` leaves, whether or not it throws. */
  function AddExpr(entry: Entry, source: Source, symbols: set<string>, consts: map<string, int>): Entry {
    Compile(AddConstants(AddSymbols(entry, symbols), consts), source)
  }

  lemma AddExprIsWellFormed(entry: Entry, source: Source, symbols: set<string>, consts: map<string, int>)
    requires WellFormed(entry)
    ensures WellFormed(AddExpr(entry, source, symbols, consts))
  {
  }

  /** A fresh entry reads nothing but the symbols registered with it. */
  lemma FreshReads(source: Source, symbols: set<string>, consts: map<string, int>)
    ensures var entry := AddExpr(EMPTY_ENTRY, source, symbols, consts);
      entry.vars.Keys == symbols && Reads(entry) <= symbols
  {
  }

  /** The condition that registration leaves in force, and the slots it binds. */
  lemma AddExprForces(entry: Entry, source: Source, symbols: set<string>, consts: map<string, int>)
    ensures var after := AddExpr(entry, source, symbols, consts);
      && entry.bound <= after.bound <= entry.bound + symbols
      && after.compiled ==
        if source.parse.Some?
           && Names(source.parse.value) <= entry.bound + entry.consts.Keys + symbols + consts.Keys
        then source.parse
        else entry.compiled
  {
    var bound, known := AddSymbols(entry, symbols), AddConstants(AddSymbols(entry, symbols), consts);
    assert bound.bound + known.consts.Keys == entry.bound + entry.consts.Keys + symbols + consts.Keys;
  }

  /** Registration treats entries of one shape alike. */
  lemma AddExprAlike(a: Entry, b: Entry, source: Source, symbols: set<string>, consts: map<string, int>)
    requires SameShape(a, b)
    ensures SameShape(AddExpr(a, source, symbols, consts), AddExpr(b, source, symbols, consts))
  {
  }
}
