/** Running reading plans against the store, and the rows they denote over a graph. */
module Execution {
  import opened Results
  import opened Text
  import opened PropertyGraph
  import opened Ast
  import opened Planning
  import opened Evaluation
  import opened Sorting
  import opened Storage

  datatype ResultSet = ResultSet(columns: seq<string>, rows: seq<Row>)

  /** One expansion step, in either direction. */
  datatype Hop = Hop(outgoing: bool, srcVar: string, edgeVar: string, edgeLabel: string, destVar: string, destLabel: string)

  predicate Reading(p: Plan) {
    match p
    case ScanByLabel(_, lbl, _) => Count(lbl, ':') == 0
    case ExpandOut(source, _, _, _, _, _) => Reading(source)
    case ExpandIn(source, _, _, _, _, _) => Reading(source)
    case Filter(source, _) => Reading(source)
    case Project(source, _) => Reading(source)
    case Sort(source, _) => Reading(source)
    case LimitOffset(source, _, _) => Reading(source)
    case _ => false
  }

  function HopOf(p: Plan): Hop
    requires p.ExpandOut? || p.ExpandIn?
  {
    Hop(p.ExpandOut?, p.srcVar, p.edgeVar, p.edgeLabel, p.destVar, p.destLabel)
  }

  // ---------- what a plan's rows are ----------

  function ScanRows(nodes: seq<Node>, variable: string, props: map<string, Expr>, env: Env): seq<Row> {
    if nodes == [] then
      []
    else
      (if MatchProps(nodes[0].props, props, env) then [map[variable := NodeValue(nodes[0])]] else [])
      + ScanRows(nodes[1..], variable, props, env)
  }

  function FarEnd(hop: Hop, e: Edge): string {
    if hop.outgoing then e.to else e.from
  }

  /** The far node of an edge, when edge and node fit the hop. */
  function Landing(m: Memory, hop: Hop, e: Edge): Option<Node> {
    var far := FarEnd(hop, e);
    if (hop.edgeLabel == "" || e.lbl == hop.edgeLabel) && far in m.nodes
       && (hop.destLabel == "" || m.nodes[far].lbl == hop.destLabel)
    then Some(m.nodes[far]) else None
  }

  /** The row extended by an edge and its far node; an unnamed edge is not recorded. */
  function Extend(hop: Hop, row: Row, e: Edge, n: Node): Row {
    (if hop.edgeVar != "" then row[hop.edgeVar := EdgeValue(e)] else row)[hop.destVar := NodeValue(n)]
  }

  function HopRows(m: Memory, hop: Hop, row: Row, ids: seq<string>): seq<Row> {
    if ids == [] then
      []
    else
      (if ids[0] in m.edges && Landing(m, hop, m.edges[ids[0]]).Some?
       then [Extend(hop, row, m.edges[ids[0]], Landing(m, hop, m.edges[ids[0]]).value)] else [])
      + HopRows(m, hop, row, ids[1..])
  }

  /** The edges a hop follows from a node ID, in ID order. */
  function HopIds(m: Memory, hop: Hop, id: string): seq<string> {
    Enumerate(if hop.outgoing then m.Leaving(id) else m.Entering(id))
  }

  function SourceId(v: Value, env: Env): string
    requires v.Map?
  {
    env.sprint(Get(v.fields, "id"))
  }

  function RowExpansion(m: Memory, hop: Hop, row: Row, env: Env): seq<Row> {
    var v := Get(row, hop.srcVar);
    if v.Map? then HopRows(m, hop, row, HopIds(m, hop, SourceId(v, env))) else []
  }

  function ExpandRows(m: Memory, hop: Hop, rows: seq<Row>, env: Env): seq<Row> {
    if rows == [] then [] else RowExpansion(m, hop, rows[0], env) + ExpandRows(m, hop, rows[1..], env)
  }

  function FilterRows(e: Expr, rows: seq<Row>, env: Env): seq<Row> {
    if rows == [] then
      []
    else
      (if EvalBool(e, rows[0], env) then [rows[0]] else []) + FilterRows(e, rows[1..], env)
  }

  function ProjectRows(items: seq<ReturnItem>, rows: seq<Row>, env: Env): (r: seq<Row>)
    ensures CountColumn(items).None? ==> |r| == |rows|
  {
    var c := CountColumn(items);
    if c.Some? then
      [map[c.value := Int(|rows|)]]
    else
      seq(|rows|, i requires 0 <= i < |rows| => ProjectRow(items, rows[i], env))
  }

  function RowOrder(orderBy: seq<OrderItem>, env: Env): (Row, Row) -> bool {
    (a, b) => RowLess(orderBy, a, b, env)
  }

  ghost function Rows(p: Plan, m: Memory, env: Env): seq<Row>
    requires Reading(p)
  {
    match p
    case ScanByLabel(variable, lbl, props) => ScanRows(m.NodesByLabel(lbl), variable, props, env)
    case ExpandOut(source, _, _, _, _, _) => ExpandRows(m, HopOf(p), Rows(source, m, env), env)
    case ExpandIn(source, _, _, _, _, _) => ExpandRows(m, HopOf(p), Rows(source, m, env), env)
    case Filter(source, e) => FilterRows(e, Rows(source, m, env), env)
    case Project(source, items) => ProjectRows(items, Rows(source, m, env), env)
    case Sort(source, orderBy) => StableSort(Rows(source, m, env), RowOrder(orderBy, env))
    case LimitOffset(source, limit, skip) => Slice(Rows(source, m, env), limit, skip)
  }

  /** Column lists. An expansion lists the first row's columns in no particular order. */
  ghost predicate ColumnsOk(p: Plan, m: Memory, env: Env, columns: seq<string>)
    requires Reading(p)
  {
    match p
    case ScanByLabel(variable, _, _) => columns == [variable]
    case ExpandOut(_, _, _, _, _, _) => ListsKeys(Rows(p, m, env), columns)
    case ExpandIn(_, _, _, _, _, _) => ListsKeys(Rows(p, m, env), columns)
    case Filter(source, _) => ColumnsOk(source, m, env, columns)
    case Project(_, items) =>
      columns == if CountColumn(items).Some? then [CountColumn(items).value] else ProjectColumns(items)
    case Sort(source, _) => ColumnsOk(source, m, env, columns)
    case LimitOffset(source, _, _) => ColumnsOk(source, m, env, columns)
  }

  ghost predicate ListsKeys(rows: seq<Row>, columns: seq<string>) {
    if rows == [] then columns == []
    else multiset(columns) == multiset(rows[0].Keys)
  }

  // ---------- the executor ----------

  method KeysInSomeOrder(row: Row) returns (columns: seq<string>)
    ensures multiset(columns) == multiset(row.Keys)
  {
    columns := [];
    var left := row.Keys;
    while left != {}
      invariant left <= row.Keys
      invariant multiset(columns) + multiset(left) == multiset(row.Keys)
    {
      var k :| k in left;
      assert multiset(left) == multiset(left - {k}) + multiset{k};
      columns, left := columns + [k], left - {k};
    }
  }

  method ExecScan(storage: BadgerStorage, p: Plan, env: Env) returns (rs: ResultSet)
    requires storage.Valid() && p.ScanByLabel? && Reading(p)
    ensures rs.rows == Rows(p, storage.mem, env) && ColumnsOk(p, storage.mem, env, rs.columns)
  {
    var nodes := storage.NodesByLabel(p.lbl);
    var rows := ScanEach(nodes, p.variable, p.props, env);
    rs := ResultSet([p.variable], rows);
  }

  method ScanEach(nodes: seq<Node>, variable: string, props: map<string, Expr>, env: Env) returns (rows: seq<Row>)
    ensures rows == ScanRows(nodes, variable, props, env)
  {
    hide ScanRows, MatchProps, NodeValue;
    rows := [];
    ScanNone(variable, props, env);
    assert nodes[0..] == nodes;
    for i := 0 to |nodes|
      invariant rows + ScanRows(nodes[i..], variable, props, env) == ScanRows(nodes, variable, props, env)
    {
      ScanFrom(nodes, i, variable, props, env);
      if |props| > 0 && !MatchProps(nodes[i].props, props, env) { continue; }
      rows := rows + [map[variable := NodeValue(nodes[i])]];
    }
    assert nodes[|nodes|..] == [];
  }

  lemma ScanNone(variable: string, props: map<string, Expr>, env: Env)
    ensures ScanRows([], variable, props, env) == []
  {
  }

  /** Without properties every node matches. */
  lemma ScanFrom(nodes: seq<Node>, i: nat, variable: string, props: map<string, Expr>, env: Env)
    requires i < |nodes|
    ensures ScanRows(nodes[i..], variable, props, env)
         == (if |props| > 0 && !MatchProps(nodes[i].props, props, env) then [] else [map[variable := NodeValue(nodes[i])]])
            + ScanRows(nodes[i + 1..], variable, props, env)
  {
    assert nodes[i..][1..] == nodes[i + 1..];
    assert |props| == 0 ==> props.Keys == {};
  }

  lemma {:induction false} HopRowsConcat(m: Memory, hop: Hop, row: Row, a: seq<string>, b: seq<string>)
    ensures HopRows(m, hop, row, a + b) == HopRows(m, hop, row, a) + HopRows(m, hop, row, b)
  {
    if a == [] {
      assert a + b == b;
    } else {
      assert (a + b)[1..] == a[1..] + b;
      HopRowsConcat(m, hop, row, a[1..], b);
    }
  }

  lemma HopRowsNext(m: Memory, hop: Hop, row: Row, ids: seq<string>, i: nat)
    requires i < |ids|
    ensures HopRows(m, hop, row, ids[..i + 1]) == HopRows(m, hop, row, ids[..i]) + HopRows(m, hop, row, [ids[i]])
    ensures HopRows(m, hop, row, [ids[i]]) ==
            if ids[i] in m.edges && Landing(m, hop, m.edges[ids[i]]).Some?
            then [Extend(hop, row, m.edges[ids[i]], Landing(m, hop, m.edges[ids[i]]).value)] else []
  {
    assert ids[..i + 1] == ids[..i] + [ids[i]];
    HopRowsConcat(m, hop, row, ids[..i], [ids[i]]);
  }

  lemma {:induction false} ExpandRowsConcat(m: Memory, hop: Hop, a: seq<Row>, b: seq<Row>, env: Env)
    ensures ExpandRows(m, hop, a + b, env) == ExpandRows(m, hop, a, env) + ExpandRows(m, hop, b, env)
  {
    hide RowExpansion;
    if a == [] {
      assert a + b == b;
    } else {
      assert (a + b)[1..] == a[1..] + b;
      ExpandRowsConcat(m, hop, a[1..], b, env);
    }
  }

  lemma ExpandRowsNext(m: Memory, hop: Hop, rows: seq<Row>, i: nat, env: Env)
    requires i < |rows|
    ensures ExpandRows(m, hop, rows[..i + 1], env) ==
            ExpandRows(m, hop, rows[..i], env) + RowExpansion(m, hop, rows[i], env)
  {
    hide RowExpansion;
    assert rows[..i + 1] == rows[..i] + [rows[i]];
    ExpandRowsConcat(m, hop, rows[..i], [rows[i]], env);
    assert ExpandRows(m, hop, [rows[i]], env) == RowExpansion(m, hop, rows[i], env) + ExpandRows(m, hop, [], env);
  }

  /** IDs that are no stored edge contribute nothing. */
  lemma {:induction false} HopRowsSkipStrays(m: Memory, hop: Hop, row: Row, ids: seq<string>)
    ensures HopRows(m, hop, row, ids) == HopRows(m, hop, row, Restrict(ids, m.edges.Keys))
  {
    if ids != [] {
      HopRowsSkipStrays(m, hop, row, ids[1..]);
      var rest := Restrict(ids[1..], m.edges.Keys);
      if ids[0] in m.edges { assert ([ids[0]] + rest)[1..] == rest; }
    }
  }

  /** The loop over one row's edge IDs, strays included. */
  method ExpandRow(storage: BadgerStorage, hop: Hop, row: Row, env: Env) returns (rows: seq<Row>)
    requires storage.Valid()
    ensures rows == RowExpansion(storage.mem, hop, row, env)
  {
    rows := [];
    if hop.srcVar !in row || !row[hop.srcVar].Map? { return; }
    var nodeID := SourceId(row[hop.srcVar], env);
    var ids;
    if hop.outgoing {
      ids := storage.OutgoingEdgeIDs(nodeID);
    } else {
      ids := storage.IncomingEdgeIDs(nodeID);
    }
    HopRowsSkipStrays(storage.mem, hop, row, ids);
    for i := 0 to |ids|
      invariant rows == HopRows(storage.mem, hop, row, ids[..i])
    {
      HopRowsNext(storage.mem, hop, row, ids, i);
      var edge := storage.GetEdge(ids[i]);
      if edge.None? { continue; }
      if hop.edgeLabel != "" && edge.value.lbl != hop.edgeLabel { continue; }
      var dest := storage.GetNode(FarEnd(hop, edge.value));
      if dest.None? { continue; }
      if hop.destLabel != "" && dest.value.lbl != hop.destLabel { continue; }
      var newRow := row;
      if hop.edgeVar != "" {
        newRow := newRow[hop.edgeVar := EdgeValue(edge.value)];
      }
      newRow := newRow[hop.destVar := NodeValue(dest.value)];
      rows := rows + [newRow];
    }
    assert ids[..|ids|] == ids;
  }

  method ExecExpand(storage: BadgerStorage, p: Plan, env: Env) returns (rs: ResultSet)
    requires storage.Valid() && (p.ExpandOut? || p.ExpandIn?) && Reading(p)
    ensures rs.rows == Rows(p, storage.mem, env) && ColumnsOk(p, storage.mem, env, rs.columns)
    decreases p, 0
  {
    var source := ExecutePlan(storage, p.source, env);
    var hop := HopOf(p);
    var rows: seq<Row> := [];
    for i := 0 to |source.rows|
      invariant rows == ExpandRows(storage.mem, hop, source.rows[..i], env)
    {
      ExpandRowsNext(storage.mem, hop, source.rows, i, env);
      var more := ExpandRow(storage, hop, source.rows[i], env);
      rows := rows + more;
    }
    assert source.rows[..|source.rows|] == source.rows;
    var columns: seq<string> := [];
    if |rows| > 0 {
      columns := KeysInSomeOrder(rows[0]);
    }
    rs := ResultSet(columns, rows);
  }

  method ExecFilter(storage: BadgerStorage, p: Plan, env: Env) returns (rs: ResultSet)
    requires storage.Valid() && p.Filter? && Reading(p)
    ensures rs.rows == Rows(p, storage.mem, env) && ColumnsOk(p, storage.mem, env, rs.columns)
    decreases p, 0
  {
    var source := ExecutePlan(storage, p.source, env);
    var rows := FilterEach(p.expr, source.rows, env);
    rs := ResultSet(source.columns, rows);
  }

  method FilterEach(e: Expr, source: seq<Row>, env: Env) returns (rows: seq<Row>)
    ensures rows == FilterRows(e, source, env)
  {
    hide EvalBool, FilterRows;
    rows := [];
    FilterNone(e, env);
    assert source[0..] == source;
    for i := 0 to |source|
      invariant rows + FilterRows(e, source[i..], env) == FilterRows(e, source, env)
    {
      FilterFrom(e, source, i, env);
      if EvalBool(e, source[i], env) {
        rows := rows + [source[i]];
      }
    }
    assert source[|source|..] == [];
  }

  lemma FilterNone(e: Expr, env: Env)
    ensures FilterRows(e, [], env) == []
  {
  }

  lemma FilterFrom(e: Expr, source: seq<Row>, i: nat, env: Env)
    requires i < |source|
    ensures FilterRows(e, source[i..], env) == (if EvalBool(e, source[i], env) then [source[i]] else []) + FilterRows(e, source[i + 1..], env)
  {
    hide EvalBool;
    assert source[i..][1..] == source[i + 1..];
  }

  method ExecProject(storage: BadgerStorage, p: Plan, env: Env) returns (rs: ResultSet)
    requires storage.Valid() && p.Project? && Reading(p)
    ensures rs.rows == Rows(p, storage.mem, env) && ColumnsOk(p, storage.mem, env, rs.columns)
    decreases p, 0
  {
    var source := ExecutePlan(storage, p.source, env);
    var items := p.items;
    var count := FindCount(items);
    if count.Some? {
      return ResultSet([count.value], [map[count.value := Int(|source.rows|)]]);
    }
    var rows := ProjectEach(items, source.rows, env);
    rs := ResultSet(ProjectColumns(items), rows);
  }

  /** The column of the first count among the items. */
  method FindCount(items: seq<ReturnItem>) returns (col: Option<string>)
    ensures col == CountColumn(items)
  {
    for i := 0 to |items|
      invariant CountColumn(items) == CountColumn(items[i..])
    {
      assert items[i..][1..] == items[i + 1..];
      if IsCount(items[i]) {
        return Some(if items[i].alias != "" then items[i].alias else "count(*)");
      }
    }
    col := None;
  }

  method ProjectEach(items: seq<ReturnItem>, source: seq<Row>, env: Env) returns (rows: seq<Row>)
    requires CountColumn(items).None?
    ensures rows == ProjectRows(items, source, env)
  {
    hide EvalExpr, ExprName;
    rows := [];
    for i := 0 to |source|
      invariant |rows| == i && forall j | 0 <= j < i :: rows[j] == ProjectRow(items, source[j], env)
    {
      var newRow: Row := map[];
      for j := 0 to |items|
        invariant newRow == ProjectRow(items[..j], source[i], env)
      {
        assert items[..j + 1][..j] == items[..j];
        newRow := newRow[ExprName(items[j]) := EvalExpr(items[j].expr, source[i], env)];
      }
      assert items[..|items|] == items;
      rows := rows + [newRow];
    }
  }

  method ExecSort(storage: BadgerStorage, p: Plan, env: Env) returns (rs: ResultSet)
    requires storage.Valid() && p.Sort? && Reading(p)
    ensures rs.rows == Rows(p, storage.mem, env) && ColumnsOk(p, storage.mem, env, rs.columns)
    decreases p, 0
  {
    hide StableSort, RowOrder;
    var source := ExecutePlan(storage, p.source, env);
    var rows := SortRows(source.rows, RowOrder(p.orderBy, env));
    rs := ResultSet(source.columns, rows);
  }

  method SortRows(source: seq<Row>, less: (Row, Row) -> bool) returns (rows: seq<Row>)
    ensures rows == StableSort(source, less)
  {
    hide StableSort;
    var a := new Row[|source|](i requires 0 <= i < |source| => source[i]);
    assert a[..] == source;
    SortInPlace(a, less);
    rows := a[..];
  }

  method ExecLimitOffset(storage: BadgerStorage, p: Plan, env: Env) returns (rs: ResultSet)
    requires storage.Valid() && p.LimitOffset? && Reading(p)
    ensures rs.rows == Rows(p, storage.mem, env) && ColumnsOk(p, storage.mem, env, rs.columns)
    decreases p, 0
  {
    var source := ExecutePlan(storage, p.source, env);
    var start := 0;
    if p.skip.Some? { start := p.skip.value; }
    if start > |source.rows| { start := |source.rows|; }
    var rows := source.rows[start..];
    if p.limit.Some? && p.limit.value < |rows| {
      rows := rows[..p.limit.value];
    }
    rs := ResultSet(source.columns, rows);
  }

  /** Executing a reading plan over the indexed store yields the rows it denotes over the
      graph the store represents. */
  method ExecutePlan(storage: BadgerStorage, p: Plan, env: Env) returns (rs: ResultSet)
    requires storage.Valid() && Reading(p)
    ensures rs.rows == Rows(p, storage.mem, env) && ColumnsOk(p, storage.mem, env, rs.columns)
    decreases p, 1
  {
    match p {
      case ScanByLabel(_, _, _) => rs := ExecScan(storage, p, env);
      case ExpandOut(_, _, _, _, _, _) => rs := ExecExpand(storage, p, env);
      case ExpandIn(_, _, _, _, _, _) => rs := ExecExpand(storage, p, env);
      case Filter(_, _) => rs := ExecFilter(storage, p, env);
      case Project(_, _) => rs := ExecProject(storage, p, env);
      case Sort(_, _) => rs := ExecSort(storage, p, env);
      case LimitOffset(_, _, _) => rs := ExecLimitOffset(storage, p, env);
    }
  }
}
