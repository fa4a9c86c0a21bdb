/**
 The connection queries of src/db.cc as joins over rows, and the graph snapshot built from them in
 src/control.cc.
 */
module Connections {
  import opened Options
  import opened Handles

  datatype InstanceRow = InstanceRow(id: nat, handle: string)
  datatype ConnectionRow = ConnectionRow(from: nat, varFrom: string, to: nat, varTo: string)
  datatype HierarchyRow = HierarchyRow(parent: nat, child: string)
  datatype Rows = Rows(
    instances: seq<InstanceRow>,
    connections: seq<ConnectionRow>,
    hierarchy: seq<HierarchyRow>,
    topName: Option<string>)

  /** A row with its instances' names in place of their ids. */
  datatype Connection = Connection(handleFrom: string, varFrom: string, handleTo: string, varTo: string)

  // ------------------------------------------------------------------- joins

  /** The select of the source without its condition on the name: every row joined with its instances. */
  function JoinTo(instances: seq<InstanceRow>, from: string, row: ConnectionRow): seq<Connection> {
    if instances == [] then []
    else
      var b := instances[|instances| - 1];
      JoinTo(instances[..|instances| - 1], from, row)
      + (if b.id == row.to then [Connection(from, row.varFrom, b.handle, row.varTo)] else [])
  }

  function JoinFrom(instances: seq<InstanceRow>, all: seq<InstanceRow>, row: ConnectionRow): seq<Connection> {
    if instances == [] then []
    else
      var a := instances[|instances| - 1];
      JoinFrom(instances[..|instances| - 1], all, row)
      + (if a.id == row.from then JoinTo(all, a.handle, row) else [])
  }

  function JoinRows(instances: seq<InstanceRow>, connections: seq<ConnectionRow>): seq<Connection> {
    if connections == [] then []
    else
      JoinRows(instances, connections[..|connections| - 1])
      + JoinFrom(instances, instances, connections[|connections| - 1])
  }

  /** Every connection row with valid instances. */
  function AllConnections(rows: Rows): seq<Connection> {
    JoinRows(rows.instances, rows.connections)
  }

  /** The instance at the asked side. */
  function Side(c: Connection, isFrom: bool): string {
    if isFrom then c.handleFrom else c.handleTo
  }

  predicate Touches(c: Connection, name: string, isFrom: bool) {
    Side(c, isFrom) == name
  }

  function Select(cs: seq<Connection>, name: string, isFrom: bool): (r: seq<Connection>) {
    if cs == [] then []
    else Select(cs[..|cs| - 1], name, isFrom) + (if Touches(cs[|cs| - 1], name, isFrom) then [cs[|cs| - 1]] else [])
  }

  lemma {:induction false} SelectAppend(a: seq<Connection>, b: seq<Connection>, name: string, isFrom: bool)
    ensures Select(a + b, name, isFrom) == Select(a, name, isFrom) + Select(b, name, isFrom)
  {
    if b == [] {
      assert a + b == a;
    } else {
      var all := a + b;
      assert all[..|all| - 1] == a + b[..|b| - 1];
      SelectAppend(a, b[..|b| - 1], name, isFrom);
    }
  }

  lemma SelectOne(cs: seq<Connection>, c: Connection, name: string, isFrom: bool)
    ensures Select(cs + [c], name, isFrom) ==
      Select(cs, name, isFrom) + (if Touches(c, name, isFrom) then [c] else [])
  {
    assert (cs + [c])[..|cs|] == cs;
  }

  /** One more instance at the far end. */
  lemma JoinToStep(instances: seq<InstanceRow>, j: nat, from: string, row: ConnectionRow)
    requires j < |instances|
    ensures JoinTo(instances[..j + 1], from, row) == if instances[j].id == row.to
      then JoinTo(instances[..j], from, row) + [Connection(from, row.varFrom, instances[j].handle, row.varTo)]
      else JoinTo(instances[..j], from, row)
  {
    assert instances[..j + 1][..j] == instances[..j];
  }

  /** The innermost loop of a query: the instances at the far end of one row. */
  method MatchTo(rows: Rows, from: string, row: ConnectionRow, name: string, isFrom: bool) returns (r: seq<Connection>)
    ensures r == Select(JoinTo(rows.instances, from, row), name, isFrom)
  {
    r := [];
    for j := 0 to |rows.instances|
      invariant r == Select(JoinTo(rows.instances[..j], from, row), name, isFrom)
    {
      var b := rows.instances[j];
      JoinToStep(rows.instances, j, from, row);
      if b.id == row.to {
        var c := Connection(from, row.varFrom, b.handle, row.varTo);
        SelectOne(JoinTo(rows.instances[..j], from, row), c, name, isFrom);
        if Touches(c, name, isFrom) {
          r := r + [c];
        }
      }
    }
    assert rows.instances[..|rows.instances|] == rows.instances;
  }

  /** One more instance at the near end. */
  lemma JoinFromStep(instances: seq<InstanceRow>, i: nat, all: seq<InstanceRow>, row: ConnectionRow)
    requires i < |instances|
    ensures JoinFrom(instances[..i + 1], all, row) == if instances[i].id == row.from
      then JoinFrom(instances[..i], all, row) + JoinTo(all, instances[i].handle, row)
      else JoinFrom(instances[..i], all, row)
  {
    assert instances[..i + 1][..i] == instances[..i];
  }

  /** The middle loop: the instances at the near end of one row. */
  method MatchFrom(rows: Rows, row: ConnectionRow, name: string, isFrom: bool) returns (r: seq<Connection>)
    ensures r == Select(JoinFrom(rows.instances, rows.instances, row), name, isFrom)
  {
    r := [];
    for i := 0 to |rows.instances|
      invariant r == Select(JoinFrom(rows.instances[..i], rows.instances, row), name, isFrom)
    {
      var a := rows.instances[i];
      JoinFromStep(rows.instances, i, rows.instances, row);
      if a.id == row.from {
        var more := MatchTo(rows, a.handle, row, name, isFrom);
        SelectAppend(JoinFrom(rows.instances[..i], rows.instances, row),
                     JoinTo(rows.instances, a.handle, row), name, isFrom);
        r := r + more;
      }
    }
    assert rows.instances[..|rows.instances|] == rows.instances;
  }

  /** `get_connection_from` and `get_connection_to`: both ends are looked up, one must have the name. */
  method GetConnections(rows: Rows, name: string, isFrom: bool) returns (r: seq<Connection>)
    ensures r == Select(AllConnections(rows), name, isFrom)
  {
    r := [];
    for k := 0 to |rows.connections|
      invariant r == Select(JoinRows(rows.instances, rows.connections[..k]), name, isFrom)
    {
      assert rows.connections[..k + 1][..k] == rows.connections[..k];
      var found := MatchFrom(rows, rows.connections[k], name, isFrom);
      SelectAppend(JoinRows(rows.instances, rows.connections[..k]),
                   JoinFrom(rows.instances, rows.instances, rows.connections[k]), name, isFrom);
      r := r + found;
    }
    assert rows.connections[..|rows.connections|] == rows.connections;
  }

  // ------------------------------------------------------------ conservation

  function SumOver(cs: seq<Connection>, names: seq<string>, isFrom: bool): multiset<Connection> {
    if names == [] then multiset{}
    else SumOver(cs, names[..|names| - 1], isFrom) + multiset(Select(cs, names[|names| - 1], isFrom))
  }

  predicate Distinct(names: seq<string>) {
    forall i, j :: 0 <= i < j < |names| ==> names[i] != names[j]
  }

  predicate Covers(cs: seq<Connection>, names: seq<string>, isFrom: bool) {
    forall c :: c in cs ==> Side(c, isFrom) in names
  }

  /** One connection more adds one to the sum, under the one name it belongs to. */
  lemma {:induction false} SumOfSnoc(cs: seq<Connection>, c: Connection, names: seq<string>, isFrom: bool)
    requires Distinct(names)
    ensures SumOver(cs + [c], names, isFrom) ==
      SumOver(cs, names, isFrom) + (if Side(c, isFrom) in names then multiset{c} else multiset{})
  {
    hide Select;
    if names != [] {
      var init, last := names[..|names| - 1], names[|names| - 1];
      SumOfSnoc(cs, c, init, isFrom);
      SelectOne(cs, c, last, isFrom);
      assert Side(c, isFrom) in names <==> Side(c, isFrom) in init || Side(c, isFrom) == last;
      assert last !in init;
    }
  }

  /**
   Over any list of distinct names that covers one side, the connections found name by name are all of
   them, each as often as it is there.
   */
  lemma {:induction false} ConnectionsAreConserved(cs: seq<Connection>, names: seq<string>, isFrom: bool)
    requires Distinct(names) && Covers(cs, names, isFrom)
    ensures SumOver(cs, names, isFrom) == multiset(cs)
  {
    if cs == [] {
      NothingToSum(names, isFrom);
    } else {
      var init, last := cs[..|cs| - 1], cs[|cs| - 1];
      assert cs == init + [last];
      ConnectionsAreConserved(init, names, isFrom);
      SumOfSnoc(init, last, names, isFrom);
    }
  }

  lemma {:induction false} NothingToSum(names: seq<string>, isFrom: bool)
    ensures SumOver([], names, isFrom) == multiset{}
  {
    if names != [] {
      NothingToSum(names[..|names| - 1], isFrom);
    }
  }

  /** `c` is the row with the names of an instance at either end. */
  predicate Joins(c: Connection, row: ConnectionRow, a: InstanceRow, b: InstanceRow) {
    a.id == row.from && b.id == row.to && c == Connection(a.handle, row.varFrom, b.handle, row.varTo)
  }

  lemma {:induction false} JoinToMembers(instances: seq<InstanceRow>, a: InstanceRow, row: ConnectionRow, c: Connection)
    requires a.id == row.from
    ensures c in JoinTo(instances, a.handle, row) <==> exists b :: b in instances && Joins(c, row, a, b)
  {
    if instances != [] {
      var init, last := instances[..|instances| - 1], instances[|instances| - 1];
      JoinToMembers(init, a, row, c);
      assert c in JoinTo(instances, a.handle, row) <==>
        c in JoinTo(init, a.handle, row) || Joins(c, row, a, last);
      assert forall b :: b in instances <==> b in init || b == last;
    }
  }

  lemma {:induction false} JoinFromMembers(instances: seq<InstanceRow>, all: seq<InstanceRow>, row: ConnectionRow,
                                           c: Connection)
    ensures c in JoinFrom(instances, all, row) <==>
      exists a, b :: a in instances && b in all && Joins(c, row, a, b)
  {
    if instances != [] {
      var init, last := instances[..|instances| - 1], instances[|instances| - 1];
      JoinFromMembers(init, all, row, c);
      if last.id == row.from {
        JoinToMembers(all, last, row, c);
      }
      assert forall a :: a in instances <==> a in init || a == last;
    }
  }

  /** The connections are exactly the rows that join an instance to an instance. */
  lemma {:induction false} JoinMembers(instances: seq<InstanceRow>, connections: seq<ConnectionRow>, c: Connection)
    ensures c in JoinRows(instances, connections) <==>
      exists row, a, b :: row in connections && a in instances && b in instances && Joins(c, row, a, b)
  {
    if connections != [] {
      var init, last := connections[..|connections| - 1], connections[|connections| - 1];
      JoinMembers(instances, init, c);
      JoinFromMembers(instances, instances, last, c);
      assert forall row :: row in connections <==> row in init || row == last;
    }
  }

  lemma {:induction false} JoinToHandles(instances: seq<InstanceRow>, from: string, row: ConnectionRow)
    ensures forall c :: c in JoinTo(instances, from, row) ==> c.handleFrom == from && HasHandle(instances, c.handleTo)
  {
    if instances != [] {
      JoinToHandles(instances[..|instances| - 1], from, row);
    }
  }

  predicate HasHandle(instances: seq<InstanceRow>, handle: string) {
    exists i :: 0 <= i < |instances| && instances[i].handle == handle
  }

  lemma {:induction false} JoinFromHandles(instances: seq<InstanceRow>, all: seq<InstanceRow>, row: ConnectionRow)
    ensures forall c :: c in JoinFrom(instances, all, row) ==>
      HasHandle(instances, c.handleFrom) && HasHandle(all, c.handleTo)
  {
    if instances != [] {
      var init, a := instances[..|instances| - 1], instances[|instances| - 1];
      JoinFromHandles(init, all, row);
      JoinToHandles(all, a.handle, row);
      assert HasHandle(instances, a.handle);
      assert forall h :: HasHandle(init, h) ==> HasHandle(instances, h);
    }
  }

  lemma {:induction false} JoinedHandles(instances: seq<InstanceRow>, connections: seq<ConnectionRow>)
    ensures forall c :: c in JoinRows(instances, connections) ==>
      HasHandle(instances, c.handleFrom) && HasHandle(instances, c.handleTo)
  {
    if connections != [] {
      JoinedHandles(instances, connections[..|connections| - 1]);
      JoinFromHandles(instances, instances, connections[|connections| - 1]);
    }
  }

  predicate DistinctIds(instances: seq<InstanceRow>) {
    forall i, j :: 0 <= i < j < |instances| ==> instances[i].id != instances[j].id
  }

  /** The name of an instance. */
  function NameOf(instances: seq<InstanceRow>, id: nat): Option<string> {
    if instances == [] then None
    else if instances[|instances| - 1].id == id then Some(instances[|instances| - 1].handle)
    else NameOf(instances[..|instances| - 1], id)
  }

  /** The row under its instances' names, if it has valid instances. */
  function Resolve(instances: seq<InstanceRow>, row: ConnectionRow): seq<Connection> {
    var a, b := NameOf(instances, row.from), NameOf(instances, row.to);
    if a.Some? && b.Some? then [Connection(a.value, row.varFrom, b.value, row.varTo)] else []
  }

  /** The rows with valid instances, one after another. */
  function ValidRows(instances: seq<InstanceRow>, connections: seq<ConnectionRow>): seq<Connection> {
    if connections == [] then []
    else
      ValidRows(instances, connections[..|connections| - 1])
      + Resolve(instances, connections[|connections| - 1])
  }

  lemma {:induction false} NameOfNone(instances: seq<InstanceRow>, id: nat)
    ensures NameOf(instances, id).None? <==> forall i :: 0 <= i < |instances| ==> instances[i].id != id
  {
    if instances != [] {
      NameOfNone(instances[..|instances| - 1], id);
    }
  }

  lemma {:induction false} JoinToResolves(instances: seq<InstanceRow>, from: string, row: ConnectionRow)
    requires DistinctIds(instances)
    ensures JoinTo(instances, from, row) ==
      match NameOf(instances, row.to)
      case None => []
      case Some(b) => [Connection(from, row.varFrom, b, row.varTo)]
  {
    if instances != [] {
      JoinToResolves(instances[..|instances| - 1], from, row);
      NameOfNone(instances[..|instances| - 1], row.to);
    }
  }

  lemma {:induction false} JoinFromResolves(instances: seq<InstanceRow>, all: seq<InstanceRow>, row: ConnectionRow)
    requires DistinctIds(instances) && DistinctIds(all)
    ensures JoinFrom(instances, all, row) ==
      match NameOf(instances, row.from)
      case None => []
      case Some(a) => JoinTo(all, a, row)
  {
    hide JoinTo;
    if instances != [] {
      JoinFromResolves(instances[..|instances| - 1], all, row);
      NameOfNone(instances[..|instances| - 1], row.from);
    }
  }

  /** When no two instances share an id, every row with valid instances is joined exactly once. */
  lemma {:induction false} JoinOnce(instances: seq<InstanceRow>, connections: seq<ConnectionRow>)
    requires DistinctIds(instances)
    ensures JoinRows(instances, connections) == ValidRows(instances, connections)
  {
    if connections != [] {
      var last := connections[|connections| - 1];
      JoinOnce(instances, connections[..|connections| - 1]);
      JoinFromResolves(instances, instances, last);
      if NameOf(instances, last.from).Some? {
        JoinToResolves(instances, NameOf(instances, last.from).value, last);
      }
    }
  }

  /**
   Over the distinct names of all instances, the connections found from them and the connections found
   to them are the same: the rows joined with their instances, which with distinct ids are the rows with
   valid instances, once each.
   */
  lemma FromAndToBalance(rows: Rows, names: seq<string>)
    requires Distinct(names) && forall i :: 0 <= i < |rows.instances| ==> rows.instances[i].handle in names
    ensures SumOver(AllConnections(rows), names, true) == multiset(AllConnections(rows))
    ensures SumOver(AllConnections(rows), names, false) == multiset(AllConnections(rows))
    ensures DistinctIds(rows.instances) ==> AllConnections(rows) == ValidRows(rows.instances, rows.connections)
  {
    JoinedHandles(rows.instances, rows.connections);
    ConnectionsAreConserved(AllConnections(rows), names, true);
    ConnectionsAreConserved(AllConnections(rows), names, false);
    if DistinctIds(rows.instances) {
      JoinOnce(rows.instances, rows.connections);
    }
  }

  // ---------------------------------------------------------- graph snapshot

  /** The handles of the instances below a scope, `get_hierarchy`; the empty scope is the top. */
  function Children(rows: Rows, scope: string): seq<string> {
    if scope != "" then ChildrenOf(rows.instances, rows.hierarchy, scope)
    else
      match rows.topName
      case None => []
      case Some(top) => ChildrenOf(rows.instances, rows.hierarchy, top)
  }

  function ChildrenOf(instances: seq<InstanceRow>, hierarchy: seq<HierarchyRow>, scope: string): (r: seq<string>)
    ensures forall h :: h in r <==> exists i, k ::
      0 <= i < |instances| && 0 <= k < |hierarchy| && instances[i].handle == scope
      && hierarchy[k].parent == instances[i].id && h == scope + "." + hierarchy[k].child
  {
    if instances == [] then []
    else
      var last := instances[|instances| - 1];
      ChildrenOf(instances[..|instances| - 1], hierarchy, scope)
      + (if last.handle == scope then Named(hierarchy, last.id, scope) else [])
  }

  function Named(hierarchy: seq<HierarchyRow>, parent: nat, scope: string): (r: seq<string>)
    ensures forall h :: h in r <==> exists k ::
      0 <= k < |hierarchy| && hierarchy[k].parent == parent && h == scope + "." + hierarchy[k].child
  {
    if hierarchy == [] then []
    else
      var last := hierarchy[|hierarchy| - 1];
      Named(hierarchy[..|hierarchy| - 1], parent, scope)
      + (if last.parent == parent then [scope + "." + last.child] else [])
  }

  function FromEnd(c: Connection): string { c.handleFrom + "." + c.varFrom }

  function ToEnd(c: Connection): string { c.handleTo + "." + c.varTo }

  /** `std::map::emplace`: the first value for a key stays. */
  function Put(m: map<string, Int32>, k: string, v: Int32): map<string, Int32> {
    if k in m then m else m[k := v]
  }

  /** Both ends of a connection get the value of the end that drives it, if that can be read. */
  function PutConnection(m: map<string, Int32>, c: Connection, top: string, signals: Signals): map<string, Int32> {
    match GetValue(top, signals, FromEnd(c))
    case None => m
    case Some(v) => Put(Put(m, FromEnd(c), v), ToEnd(c), v)
  }

  function Graph(cs: seq<Connection>, top: string, signals: Signals): map<string, Int32> {
    if cs == [] then map[]
    else PutConnection(Graph(cs[..|cs| - 1], top, signals), cs[|cs| - 1], top, signals)
  }

  /** The outgoing connections of the instances listed. */
  function Outgoing(rows: Rows, modules: seq<string>): seq<Connection> {
    if modules == [] then []
    else Outgoing(rows, modules[..|modules| - 1]) + Select(AllConnections(rows), modules[|modules| - 1], true)
  }

  /** The connections of one module, put into what was gathered from `before`. */
  method PutAll(was: map<string, Int32>, ghost before: seq<Connection>, conns: seq<Connection>,
                top: string, signals: Signals) returns (values: map<string, Int32>)
    requires was == Graph(before, top, signals)
    ensures values == Graph(before + conns, top, signals)
  {
    hide GetValue;
    values := was;
    assert before + conns[..0] == before;
    for j := 0 to |conns|
      invariant values == Graph(before + conns[..j], top, signals)
    {
      assert (before + conns[..j + 1])[..|before| + j] == before + conns[..j];
      var c := conns[j];
      var value := GetValue(top, signals, FromEnd(c));
      if value.Some? {
        values := Put(values, FromEnd(c), value.value);
        values := Put(values, ToEnd(c), value.value);
      }
    }
    assert conns[..|conns|] == conns;
  }

  /** `get_graph_value`. */
  method GetGraphValue(rows: Rows, scope: string, top: string, signals: Signals)
    returns (time: Int32, values: map<string, Int32>)
    ensures GetValue(top, signals, "time") == Some(time)
    ensures values == Graph(Outgoing(rows, Children(rows, scope)), top, signals)
  {
    hide Graph, AllConnections, Select, Children;
    time, values := signals.time, map[];
    var modules := Children(rows, scope);
    assert values == Graph([], top, signals) by { NoGraph(top, signals); }
    for i := 0 to |modules|
      invariant values == Graph(Outgoing(rows, modules[..i]), top, signals)
    {
      assert modules[..i + 1][..i] == modules[..i];
      var conns := GetConnections(rows, modules[i], true);
      values := PutAll(values, Outgoing(rows, modules[..i]), conns, top, signals);
    }
    assert modules[..|modules|] == modules;
  }

  lemma NoGraph(top: string, signals: Signals)
    ensures Graph([], top, signals) == map[]
  {
  }

  lemma {:induction false} SelectMembers(cs: seq<Connection>, name: string, isFrom: bool)
    ensures forall c :: c in Select(cs, name, isFrom) <==> c in cs && Touches(c, name, isFrom)
  {
    if cs != [] {
      SelectMembers(cs[..|cs| - 1], name, isFrom);
      assert forall c :: c in cs <==> c in cs[..|cs| - 1] || c == cs[|cs| - 1];
    }
  }

  /** A query returns exactly the joined rows with the name on the asked side. */
  lemma QueryMembers(rows: Rows, name: string)
    ensures forall c :: c in Select(AllConnections(rows), name, true) <==>
      c in AllConnections(rows) && c.handleFrom == name
    ensures forall c :: c in Select(AllConnections(rows), name, false) <==>
      c in AllConnections(rows) && c.handleTo == name
  {
    hide AllConnections;
    SelectMembers(AllConnections(rows), name, true);
    SelectMembers(AllConnections(rows), name, false);
  }

  /** The outgoing connections are those that a listed instance drives. */
  lemma {:induction false} OutgoingMembers(rows: Rows, modules: seq<string>)
    ensures forall c :: c in Outgoing(rows, modules) <==> c in AllConnections(rows) && c.handleFrom in modules
  {
    hide AllConnections;
    if modules != [] {
      OutgoingMembers(rows, modules[..|modules| - 1]);
      SelectMembers(AllConnections(rows), modules[|modules| - 1], true);
      assert forall m :: m in modules <==> m in modules[..|modules| - 1] || m == modules[|modules| - 1];
    }
  }

  /** A connection whose driving end can be read. */
  predicate Live(c: Connection, top: string, signals: Signals) {
    GetValue(top, signals, FromEnd(c)).Some?
  }

  predicate IsEnd(c: Connection, k: string) {
    k == FromEnd(c) || k == ToEnd(c)
  }

  /** One connection adds its ends if it is live; what was there stays. */
  lemma PutEffect(m: map<string, Int32>, c: Connection, top: string, signals: Signals)
    ensures var n := PutConnection(m, c, top, signals);
      && (forall k :: k in n <==> k in m || (Live(c, top, signals) && IsEnd(c, k)))
      && forall k :: k in n ==> n[k] == if k in m then m[k] else GetValue(top, signals, FromEnd(c)).value
  {
    hide GetValue;
  }

  /** The keys gathered are exactly the ends of the live connections. */
  lemma {:induction false} GraphKeys(cs: seq<Connection>, top: string, signals: Signals)
    ensures forall k :: k in Graph(cs, top, signals) <==> exists c :: c in cs && Live(c, top, signals) && IsEnd(c, k)
  {
    hide GetValue;
    if cs != [] {
      var init, last := cs[..|cs| - 1], cs[|cs| - 1];
      GraphKeys(init, top, signals);
      PutEffect(Graph(init, top, signals), last, top, signals);
      assert forall c :: c in cs <==> c in init || c == last;
    }
  }

  /** The ends of the connection carry one value, if the driving end has one. */
  predicate Settled(c: Connection, top: string, signals: Signals) {
    Live(c, top, signals) ==> GetValue(top, signals, ToEnd(c)) == GetValue(top, signals, FromEnd(c))
  }

  lemma {:induction false} GraphAgrees(cs: seq<Connection>, top: string, signals: Signals)
    requires forall c :: c in cs ==> Settled(c, top, signals)
    ensures forall k :: k in Graph(cs, top, signals) ==>
      GetValue(top, signals, k) == Some(Graph(cs, top, signals)[k])
  {
    hide GetValue;
    if cs != [] {
      var init, last := cs[..|cs| - 1], cs[|cs| - 1];
      assert forall c :: c in init ==> c in cs;
      GraphAgrees(init, top, signals);
      PutEffect(Graph(init, top, signals), last, top, signals);
      assert last in cs && Settled(last, top, signals);
    }
  }

  /** The handle is that of a child of the scope, or of the top when no scope is set. */
  predicate InScope(rows: Rows, scope: string, handle: string) {
    exists i, h :: 0 <= i < |rows.instances| && 0 <= h < |rows.hierarchy|
      && rows.hierarchy[h].parent == rows.instances[i].id
      && (if scope == "" then rows.topName == Some(rows.instances[i].handle) else rows.instances[i].handle == scope)
      && handle == rows.instances[i].handle + "." + rows.hierarchy[h].child
  }

  lemma ChildrenInScope(rows: Rows, scope: string, handle: string)
    ensures handle in Children(rows, scope) <==> InScope(rows, scope, handle)
  {
    var name := if scope != "" then Some(scope) else rows.topName;
    if name.Some? {
      assert handle in Children(rows, scope) <==> exists i, h ::
        0 <= i < |rows.instances| && 0 <= h < |rows.hierarchy| && rows.instances[i].handle == name.value
        && rows.hierarchy[h].parent == rows.instances[i].id && handle == name.value + "." + rows.hierarchy[h].child;
    }
  }

  /** A connection driven by a child of the scope. */
  predicate Drives(rows: Rows, scope: string, c: Connection) {
    c in AllConnections(rows) && InScope(rows, scope, c.handleFrom)
  }

  /**
   The snapshot of a scope has exactly the ends of the connections that its children drive with a value that
   can be read, and where the ends of each of these carry one value it agrees with `get_value` on all of
   them.
   */
  lemma SnapshotAgrees(rows: Rows, scope: string, top: string, signals: Signals)
    ensures var values := Graph(Outgoing(rows, Children(rows, scope)), top, signals);
      && (forall k :: k in values <==> exists c ::
            Drives(rows, scope, c) && GetValue(top, signals, c.handleFrom + "." + c.varFrom).Some?
            && (k == c.handleFrom + "." + c.varFrom || k == c.handleTo + "." + c.varTo))
      && ((forall c :: Drives(rows, scope, c) ==> Settled(c, top, signals)) ==>
          forall k :: k in values ==> GetValue(top, signals, k) == Some(values[k]))
  {
    hide GetValue, AllConnections, Graph, Children, InScope;
    var cs := Outgoing(rows, Children(rows, scope));
    OutgoingMembers(rows, Children(rows, scope));
    GraphKeys(cs, top, signals);
    forall c ensures c in cs <==> Drives(rows, scope, c) {
      ChildrenInScope(rows, scope, c.handleFrom);
    }
    forall k ensures k in Graph(cs, top, signals) <==> exists c ::
      Drives(rows, scope, c) && GetValue(top, signals, c.handleFrom + "." + c.varFrom).Some?
      && (k == c.handleFrom + "." + c.varFrom || k == c.handleTo + "." + c.varTo)
    {
      assert forall c :: Drives(rows, scope, c) && Live(c, top, signals) && IsEnd(c, k) <==>
        Drives(rows, scope, c) && GetValue(top, signals, c.handleFrom + "." + c.varFrom).Some?
        && (k == c.handleFrom + "." + c.varFrom || k == c.handleTo + "." + c.varTo);
    }
    if forall c :: Drives(rows, scope, c) ==> Settled(c, top, signals) {
      GraphAgrees(cs, top, signals);
    }
  }

  /** Where connected ends differ, an end shows what the first live connection at it drives. */
  lemma {:induction false} FirstDrives(cs: seq<Connection>, top: string, signals: Signals, k: string) returns (i: nat)
    requires k in Graph(cs, top, signals)
    ensures i < |cs| && (k == cs[i].handleFrom + "." + cs[i].varFrom || k == cs[i].handleTo + "." + cs[i].varTo)
    ensures GetValue(top, signals, cs[i].handleFrom + "." + cs[i].varFrom) == Some(Graph(cs, top, signals)[k])
    ensures forall j :: 0 <= j < i && Live(cs[j], top, signals) ==> !IsEnd(cs[j], k)
  {
    hide GetValue;
    var init, last := cs[..|cs| - 1], cs[|cs| - 1];
    PutEffect(Graph(init, top, signals), last, top, signals);
    if k in Graph(init, top, signals) {
      i := FirstDrives(init, top, signals, k);
    } else {
      i := |cs| - 1;
      GraphKeys(init, top, signals);
      assert forall j :: 0 <= j < i ==> cs[j] == init[j] && init[j] in init;
    }
  }
}
