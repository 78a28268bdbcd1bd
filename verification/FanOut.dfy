/** Answering a query by asking every shard and concatenating the answers. */
module FanOut {
  import opened Results
  import opened Text
  import opened PropertyGraph
  import opened Ast
  import opened Planning
  import opened Evaluation
  import opened Execution

  /** One shard's outcome: rows, or an error. */
  datatype ShardResult = ShardResult(rs: Option<ResultSet>, failed: bool)

  // ---------- merging ----------

  function ValidResults(results: seq<ShardResult>): seq<ResultSet> {
    if results == [] then
      []
    else
      (if !results[0].failed && results[0].rs.Some? then [results[0].rs.value] else []) + ValidResults(results[1..])
  }

  function AllRows(rss: seq<ResultSet>): seq<Row> {
    if rss == [] then [] else rss[0].rows + AllRows(rss[1..])
  }

  predicate AnyFailed(results: seq<ShardResult>) {
    exists i | 0 <= i < |results| :: results[i].failed
  }

  function Merged(results: seq<ShardResult>): Result<ResultSet> {
    var valid := ValidResults(results);
    if valid != [] then Ok(ResultSet(valid[0].columns, AllRows(valid)))
    else if AnyFailed(results) then Err
    else Ok(ResultSet([], []))
  }

  lemma NoneValid()
    ensures ValidResults([]) == []
  {
  }

  lemma ValidStep(results: seq<ShardResult>, i: nat)
    requires i < |results|
    ensures ValidResults(results[i..]) == (if !results[i].failed && results[i].rs.Some? then [results[i].rs.value] else [])
                                          + ValidResults(results[i + 1..])
  {
    assert results[i..][1..] == results[i + 1..];
  }

  method CollectValid(results: seq<ShardResult>) returns (valid: seq<ResultSet>, anyError: bool)
    ensures valid == ValidResults(results) && anyError == AnyFailed(results)
  {
    hide ValidResults;
    anyError := false;
    valid := [];
    NoneValid();
    assert results[0..] == results;
    for i := 0 to |results|
      invariant anyError <==> exists j | 0 <= j < i :: results[j].failed
      invariant valid + ValidResults(results[i..]) == ValidResults(results)
    {
      ValidStep(results, i);
      if results[i].failed {
        anyError := true;
        continue;
      }
      if results[i].rs.Some? {
        valid := valid + [results[i].rs.value];
      }
    }
    assert results[|results|..] == [];
  }

  method MergeResults(results: seq<ShardResult>) returns (r: Result<ResultSet>)
    ensures r == Merged(results)
  {
    var valid, anyError := CollectValid(results);
    if |valid| == 0 {
      if anyError { return Err; }
      return Ok(ResultSet([], []));
    }
    var rows: seq<Row> := [];
    for i := 0 to |valid|
      invariant rows + AllRows(valid[i..]) == AllRows(valid)
    {
      assert valid[i..][1..] == valid[i + 1..];
      rows := rows + valid[i].rows;
    }
    assert valid[|valid|..] == [] && rows + [] == rows;
    r := Ok(ResultSet(valid[0].columns, rows));
  }

  // ---------- sharded graphs ----------

  /** Two shards share no IDs, and no edge of one ends at a node of the other. */
  predicate Apart(a: Memory, b: Memory) {
    && a.nodes.Keys !! b.nodes.Keys
    && a.edges.Keys !! b.edges.Keys
    && (forall e | e in a.edges :: a.edges[e].from !in b.nodes && a.edges[e].to !in b.nodes)
    && (forall e | e in b.edges :: b.edges[e].from !in a.nodes && b.edges[e].to !in a.nodes)
  }

  function Join(a: Memory, b: Memory): Memory {
    Memory(a.nodes + b.nodes, a.edges + b.edges)
  }

  lemma JoinSymmetric(a: Memory, b: Memory)
    requires Apart(a, b)
    ensures Join(a, b) == Join(b, a)
  {
    assert a.nodes + b.nodes == b.nodes + a.nodes;
    assert a.edges + b.edges == b.edges + a.edges;
  }

  // ---------- plans the router may split ----------

  /** The variables a plan's rows bind to nodes of the graph. */
  function NodeVars(p: Plan): set<string> {
    match p
    case ScanByLabel(v, _, _) => {v}
    case ExpandOut(source, _, e, _, d, _) => (if e == "" then NodeVars(source) else NodeVars(source) - {e}) + {d}
    case ExpandIn(source, _, e, _, d, _) => (if e == "" then NodeVars(source) else NodeVars(source) - {e}) + {d}
    case Filter(source, _) => NodeVars(source)
    case _ => {}
  }

  /** Scans, expansions from a matched node, and filters, in any arrangement. */
  predicate Matching(p: Plan) {
    match p
    case ScanByLabel(_, lbl, _) => Count(lbl, ':') == 0
    case ExpandOut(source, v, _, _, _, _) => Matching(source) && v in NodeVars(source)
    case ExpandIn(source, v, _, _, _, _) => Matching(source) && v in NodeVars(source)
    case Filter(source, _) => Matching(source)
    case _ => false
  }

  /** Every plan the planner makes of a pattern and its WHEREs is of that kind. */
  lemma {:induction false} PlannedMatching(pat: Pattern, k: nat)
    requires ChainOk(pat) && k <= |pat.edges| && Count(pat.nodes[0].lbl, ':') == 0
    ensures Matching(ChainPlan(pat, k)) && pat.nodes[k].variable in NodeVars(ChainPlan(pat, k))
  {
    if k > 0 { PlannedMatching(pat, k - 1); }
  }

  lemma {:induction false} FilteredMatching(p: Plan, wheres: seq<Expr>)
    requires Matching(p)
    ensures Matching(Filtered(p, wheres))
  {
    if wheres != [] { FilteredMatching(p, wheres[..|wheres| - 1]); }
  }

  lemma {:induction false} MatchingReads(p: Plan)
    requires Matching(p)
    ensures Reading(p)
  {
    match p {
      case ScanByLabel(_, _, _) =>
      case ExpandOut(source, _, _, _, _, _) => MatchingReads(source);
      case ExpandIn(source, _, _, _, _, _) => MatchingReads(source);
      case Filter(source, _) => MatchingReads(source);
    }
  }

  // ---------- rows as flattened maps ----------

  function Flat<A, B>(f: A -> seq<B>, xs: seq<A>): seq<B> {
    if xs == [] then [] else f(xs[0]) + Flat(f, xs[1..])
  }

  lemma {:induction false} FlatConcat<A, B>(f: A -> seq<B>, a: seq<A>, b: seq<A>)
    ensures Flat(f, a + b) == Flat(f, a) + Flat(f, b)
  {
    if a == [] {
      assert a + b == b;
    } else {
      assert (a + b)[1..] == a[1..] + b;
      FlatConcat(f, a[1..], b);
    }
  }

  function Without<T>(s: seq<T>, i: nat): (r: seq<T>)
    requires i < |s|
    ensures multiset(r) == multiset(s) - multiset{s[i]}
  {
    assert s == s[..i] + [s[i]] + s[i + 1..];
    s[..i] + s[i + 1..]
  }

  lemma FlatOne<A, B>(f: A -> seq<B>, x: A)
    ensures Flat(f, [x]) == f(x)
  {
    assert [x][1..] == [];
    assert Flat(f, [x]) == f(x) + [];
  }

  lemma FlatWithout<A, B>(f: A -> seq<B>, ys: seq<A>, i: nat)
    requires i < |ys|
    ensures multiset(Flat(f, ys)) == multiset(f(ys[i])) + multiset(Flat(f, Without(ys, i)))
  {
    hide Flat;
    var front, back := ys[..i], ys[i + 1..];
    FlatConcat(f, front, back);
    FlatConcat(f, front, [ys[i]] + back);
    FlatConcat(f, [ys[i]], back);
    FlatOne(f, ys[i]);
    assert ys == front + ([ys[i]] + back);
  }

  /** The flattened elements, as a multiset, depend on the inputs as a multiset only. */
  lemma {:induction false} FlatMultiset<A, B>(f: A -> seq<B>, xs: seq<A>, ys: seq<A>)
    requires multiset(xs) == multiset(ys)
    ensures multiset(Flat(f, xs)) == multiset(Flat(f, ys))
  {
    if xs == [] {
      assert |multiset(ys)| == 0;
    } else {
      assert xs[0] in multiset(ys);
      var i :| 0 <= i < |ys| && ys[i] == xs[0];
      assert xs == [xs[0]] + xs[1..];
      assert multiset(xs[1..]) == multiset(xs) - multiset{xs[0]};
      FlatMultiset(f, xs[1..], Without(ys, i));
      FlatWithout(f, ys, i);
    }
  }

  lemma {:induction false} FlatAgree<A, B>(f: A -> seq<B>, g: A -> seq<B>, xs: seq<A>)
    requires forall x | x in xs :: f(x) == g(x)
    ensures Flat(f, xs) == Flat(g, xs)
  {
    if xs != [] {
      assert xs == [xs[0]] + xs[1..];
      FlatAgree(f, g, xs[1..]);
    }
  }

  lemma FlatSplit<A, B>(f: A -> seq<B>, xs: seq<A>, ys: seq<A>, zs: seq<A>)
    requires multiset(xs) == multiset(ys) + multiset(zs)
    ensures multiset(Flat(f, xs)) == multiset(Flat(f, ys)) + multiset(Flat(f, zs))
  {
    assert multiset(ys + zs) == multiset(ys) + multiset(zs);
    FlatMultiset(f, xs, ys + zs);
    FlatConcat(f, ys, zs);
  }

  function ScanStep(variable: string, props: map<string, Expr>, env: Env): Node -> seq<Row> {
    (n: Node) => if MatchProps(n.props, props, env) then [map[variable := NodeValue(n)]] else []
  }

  lemma {:induction false} ScanIsFlat(nodes: seq<Node>, variable: string, props: map<string, Expr>, env: Env)
    ensures ScanRows(nodes, variable, props, env) == Flat(ScanStep(variable, props, env), nodes)
  {
    if nodes != [] { ScanIsFlat(nodes[1..], variable, props, env); }
  }

  function ExpandStep(m: Memory, hop: Hop, env: Env): Row -> seq<Row> {
    (row: Row) => RowExpansion(m, hop, row, env)
  }

  lemma {:induction false} ExpandIsFlat(m: Memory, hop: Hop, rows: seq<Row>, env: Env)
    ensures ExpandRows(m, hop, rows, env) == Flat(ExpandStep(m, hop, env), rows)
  {
    if rows != [] { ExpandIsFlat(m, hop, rows[1..], env); }
  }

  function FilterStep(e: Expr, env: Env): Row -> seq<Row> {
    (row: Row) => if EvalBool(e, row, env) then [row] else []
  }

  lemma {:induction false} FilterIsFlat(e: Expr, rows: seq<Row>, env: Env)
    ensures FilterRows(e, rows, env) == Flat(FilterStep(e, env), rows)
  {
    if rows != [] { FilterIsFlat(e, rows[1..], env); }
  }

  function ProjectStep(items: seq<ReturnItem>, env: Env): Row -> seq<Row> {
    (row: Row) => [ProjectRow(items, row, env)]
  }

  lemma {:induction false} ProjectIsFlat(items: seq<ReturnItem>, rows: seq<Row>, env: Env)
    requires CountColumn(items).None?
    ensures ProjectRows(items, rows, env) == Flat(ProjectStep(items, env), rows)
  {
    if rows != [] {
      ProjectIsFlat(items, rows[1..], env);
      assert ProjectRows(items, rows, env) == [ProjectRow(items, rows[0], env)] + ProjectRows(items, rows[1..], env);
    }
  }

  // ---------- rows stay inside their shard ----------

  /** The row binds each of the variables to a node of the graph. */
  ghost predicate Anchored(m: Memory, vars: set<string>, row: Row) {
    forall v | v in vars :: exists id :: id in m.nodes && Get(row, v) == NodeValue(m.nodes[id])
  }

  lemma {:induction false} FlatIn<A, B>(f: A -> seq<B>, xs: seq<A>, y: B) returns (x: A)
    requires y in Flat(f, xs)
    ensures x in xs && y in f(x)
  {
    if y in f(xs[0]) { x := xs[0]; } else { x := FlatIn(f, xs[1..], y); }
  }

  lemma {:induction false} HopRowIn(m: Memory, hop: Hop, row: Row, ids: seq<string>, r: Row) returns (e: Edge, n: Node)
    requires r in HopRows(m, hop, row, ids)
    ensures exists id :: id in m.nodes && m.nodes[id] == n
    ensures r == Extend(hop, row, e, n)
  {
    if ids[0] in m.edges && Landing(m, hop, m.edges[ids[0]]).Some?
       && r == Extend(hop, row, m.edges[ids[0]], Landing(m, hop, m.edges[ids[0]]).value) {
      e, n := m.edges[ids[0]], Landing(m, hop, m.edges[ids[0]]).value;
      assert m.nodes[FarEnd(hop, e)] == n;
    } else {
      e, n := HopRowIn(m, hop, row, ids[1..], r);
    }
  }

  lemma ExpandAnchored(m: Memory, hop: Hop, vars: set<string>, row: Row, r: Row, env: Env)
    requires Anchored(m, vars, row) && r in RowExpansion(m, hop, row, env)
    ensures Anchored(m, (if hop.edgeVar == "" then vars else vars - {hop.edgeVar}) + {hop.destVar}, r)
  {
    var v := Get(row, hop.srcVar);
    var e, n := HopRowIn(m, hop, row, HopIds(m, hop, SourceId(v, env)), r);
    forall x | x in (if hop.edgeVar == "" then vars else vars - {hop.edgeVar}) + {hop.destVar}
      ensures exists id :: id in m.nodes && Get(r, x) == NodeValue(m.nodes[id])
    {
      if x != hop.destVar { assert Get(r, x) == Get(row, x); }
    }
  }

  lemma {:induction false} RowsAnchored(p: Plan, m: Memory, env: Env)
    requires Matching(p) && Reading(p)
    ensures forall r | r in Rows(p, m, env) :: Anchored(m, NodeVars(p), r)
  {
    hide ScanRows, ExpandRows, FilterRows, EvalBool, MatchProps, RowExpansion;
    var source, rows := if p.ScanByLabel? then p else p.source, Rows(p, m, env);
    if p.ScanByLabel? {
      var nodes, f := m.NodesByLabel(p.lbl), ScanStep(p.variable, p.props, env);
      ScanIsFlat(nodes, p.variable, p.props, env);
      forall r | r in rows ensures Anchored(m, NodeVars(p), r) {
        var n := FlatIn(f, nodes, r);
        var i :| 0 <= i < |nodes| && nodes[i] == n;
        var id := Enumerate(m.Labelled(p.lbl))[i];
        assert id in m.Labelled(p.lbl) && Get(r, p.variable) == NodeValue(m.nodes[id]);
      }
    } else if p.Filter? {
      RowsAnchored(source, m, env);
      FilterIsFlat(p.expr, Rows(source, m, env), env);
      forall r | r in rows ensures Anchored(m, NodeVars(p), r) {
        var row := FlatIn(FilterStep(p.expr, env), Rows(source, m, env), r);
      }
    } else {
      RowsAnchored(source, m, env);
      ExpandIsFlat(m, HopOf(p), Rows(source, m, env), env);
      forall r | r in rows ensures Anchored(m, NodeVars(p), r) {
        var row := FlatIn(ExpandStep(m, HopOf(p), env), Rows(source, m, env), r);
        ExpandAnchored(m, HopOf(p), NodeVars(source), row, r, env);
      }
    }
  }

  /** From a node of shard a, the joined graph leads exactly where a leads. */
  lemma SameExpansion(a: Memory, b: Memory, hop: Hop, row: Row, env: Env)
    requires Apart(a, b) && a.Ok() && env.Ok()
    requires Anchored(a, {hop.srcVar}, row)
    ensures RowExpansion(Join(a, b), hop, row, env) == RowExpansion(a, hop, row, env)
  {
    hide HopRows, Landing, HopIds, NodeValue;
    assert hop.srcVar in {hop.srcVar};
    var id :| id in a.nodes && Get(row, hop.srcVar) == NodeValue(a.nodes[id]);
    NodeValueId(a.nodes[id]);
    assert SourceId(Get(row, hop.srcVar), env) == id;
    SameIncidence(a, b, hop, id);
    SameHops(a, b, hop, row, HopIds(a, hop, id));
  }

  lemma NodeValueId(n: Node)
    ensures NodeValue(n).Map? && Get(NodeValue(n).fields, "id") == Str(n.id)
  {
  }

  lemma SameIncidence(a: Memory, b: Memory, hop: Hop, id: string)
    requires Apart(a, b) && id in a.nodes
    ensures HopIds(Join(a, b), hop, id) == HopIds(a, hop, id)
    ensures forall x | x in HopIds(a, hop, id) :: x in a.edges
  {
    assert Join(a, b).Leaving(id) == a.Leaving(id);
    assert Join(a, b).Entering(id) == a.Entering(id);
  }

  lemma {:induction false} SameHops(a: Memory, b: Memory, hop: Hop, row: Row, ids: seq<string>)
    requires Apart(a, b) && forall id | id in ids :: id in a.edges
    ensures HopRows(Join(a, b), hop, row, ids) == HopRows(a, hop, row, ids)
  {
    if ids != [] {
      assert ids == [ids[0]] + ids[1..];
      SameHops(a, b, hop, row, ids[1..]);
      assert Landing(Join(a, b), hop, a.edges[ids[0]]) == Landing(a, hop, a.edges[ids[0]]);
    }
  }

  // ---------- splitting a plan over two shards ----------

  /** A matching plan's rows on the joined graph are the shards' rows put together. */
  lemma {:induction false} MatchSplits(p: Plan, a: Memory, b: Memory, env: Env)
    requires Matching(p) && Reading(p) && Apart(a, b) && a.Ok() && b.Ok() && env.Ok()
    ensures multiset(Rows(p, Join(a, b), env)) == multiset(Rows(p, a, env)) + multiset(Rows(p, b, env))
  {
    if p.ScanByLabel? {
      ScanSplits(p.variable, p.lbl, p.props, a, b, env);
    } else if p.Filter? {
      MatchSplits(p.source, a, b, env);
      var u, x, y := Rows(p.source, Join(a, b), env), Rows(p.source, a, env), Rows(p.source, b, env);
      FilterIsFlat(p.expr, u, env);
      FilterIsFlat(p.expr, x, env);
      FilterIsFlat(p.expr, y, env);
      FlatSplit(FilterStep(p.expr, env), u, x, y);
    } else {
      MatchSplits(p.source, a, b, env);
      ExpandSplits(HopOf(p), p.source, a, b, env);
    }
  }

  lemma ApartSymmetric(a: Memory, b: Memory)
    requires Apart(a, b)
    ensures Apart(b, a)
  {
  }

  lemma ExpandSplits(hop: Hop, source: Plan, a: Memory, b: Memory, env: Env)
    requires Matching(source) && Reading(source) && hop.srcVar in NodeVars(source)
    requires Apart(a, b) && a.Ok() && b.Ok() && env.Ok()
    requires multiset(Rows(source, Join(a, b), env)) == multiset(Rows(source, a, env)) + multiset(Rows(source, b, env))
    ensures multiset(ExpandRows(Join(a, b), hop, Rows(source, Join(a, b), env), env)) ==
            multiset(ExpandRows(a, hop, Rows(source, a, env), env)) + multiset(ExpandRows(b, hop, Rows(source, b, env), env))
  {
    hide Rows, Matching, Reading, NodeVars, ExpandRows, Flat, ExpandStep, Join;
    var m := Join(a, b);
    var u, x, y := Rows(source, m, env), Rows(source, a, env), Rows(source, b, env);
    ApartSymmetric(a, b);
    ExpandIsFlat(m, hop, u, env);
    ExpandIsFlat(a, hop, x, env);
    ExpandIsFlat(b, hop, y, env);
    FlatSplit(ExpandStep(m, hop, env), u, x, y);
    ExpansionStays(a, b, hop, source, env);
    JoinSymmetric(a, b);
    ExpansionStays(b, a, hop, source, env);
  }

  lemma AnchoredOne(m: Memory, vars: set<string>, v: string, row: Row)
    requires Anchored(m, vars, row) && v in vars
    ensures Anchored(m, {v}, row)
  {
  }

  lemma ExpansionStays(a: Memory, b: Memory, hop: Hop, source: Plan, env: Env)
    requires Matching(source) && Reading(source) && hop.srcVar in NodeVars(source)
    requires Apart(a, b) && a.Ok() && env.Ok()
    ensures Flat(ExpandStep(Join(a, b), hop, env), Rows(source, a, env)) == Flat(ExpandStep(a, hop, env), Rows(source, a, env))
  {
    hide Rows, Anchored, NodeVars, RowExpansion;
    var x := Rows(source, a, env);
    RowsAnchored(source, a, env);
    forall r | r in x ensures ExpandStep(Join(a, b), hop, env)(r) == ExpandStep(a, hop, env)(r) {
      AnchoredOne(a, NodeVars(source), hop.srcVar, r);
      SameExpansion(a, b, hop, r, env);
    }
    FlatAgree(ExpandStep(Join(a, b), hop, env), ExpandStep(a, hop, env), x);
  }

  function NodeStep(m: Memory, f: Node -> seq<Row>): string -> seq<Row> {
    (id: string) => if id in m.nodes then f(m.nodes[id]) else []
  }

  lemma {:induction false} NodesAreFlat(m: Memory, ids: seq<string>, f: Node -> seq<Row>)
    requires forall id | id in ids :: id in m.nodes
    ensures Flat(f, m.NodesAt(ids)) == Flat(NodeStep(m, f), ids)
  {
    if ids != [] {
      assert ids == [ids[0]] + ids[1..];
      assert m.NodesAt(ids)[1..] == m.NodesAt(ids[1..]);
      NodesAreFlat(m, ids[1..], f);
    }
  }

  lemma {:induction false} EnumerateMultiset(s: set<string>)
    ensures multiset(Enumerate(s)) == multiset(s)
  {
    if s != {} {
      EnumerateMultiset(s - {Least(s)});
      assert multiset(s) == multiset(s - {Least(s)}) + multiset{Least(s)};
    }
  }

  lemma LabelledSplits(a: Memory, b: Memory, lbl: string)
    requires Apart(a, b)
    ensures multiset(Enumerate(Join(a, b).Labelled(lbl))) ==
            multiset(Enumerate(a.Labelled(lbl))) + multiset(Enumerate(b.Labelled(lbl)))
  {
    var m, x, y := Join(a, b).Labelled(lbl), a.Labelled(lbl), b.Labelled(lbl);
    EnumerateMultiset(m);
    EnumerateMultiset(x);
    EnumerateMultiset(y);
    LabelledUnion(a, b, lbl);
    UnionMultiset(x, y);
  }

  lemma LabelledUnion(a: Memory, b: Memory, lbl: string)
    requires Apart(a, b)
    ensures Join(a, b).Labelled(lbl) == a.Labelled(lbl) + b.Labelled(lbl)
    ensures a.Labelled(lbl) !! b.Labelled(lbl)
  {
  }

  lemma UnionMultiset<T>(x: set<T>, y: set<T>)
    requires x !! y
    ensures multiset(x + y) == multiset(x) + multiset(y)
  {
  }

  lemma ScanOfLabel(m: Memory, v: string, lbl: string, props: map<string, Expr>, env: Env)
    ensures ScanRows(m.NodesByLabel(lbl), v, props, env) ==
            Flat(NodeStep(m, ScanStep(v, props, env)), Enumerate(m.Labelled(lbl)))
  {
    ScanIsFlat(m.NodesByLabel(lbl), v, props, env);
    NodesAreFlat(m, Enumerate(m.Labelled(lbl)), ScanStep(v, props, env));
  }

  lemma ScanSplits(v: string, lbl: string, props: map<string, Expr>, a: Memory, b: Memory, env: Env)
    requires Apart(a, b)
    ensures multiset(ScanRows(Join(a, b).NodesByLabel(lbl), v, props, env)) ==
            multiset(ScanRows(a.NodesByLabel(lbl), v, props, env)) + multiset(ScanRows(b.NodesByLabel(lbl), v, props, env))
  {
    var m, f := Join(a, b), ScanStep(v, props, env);
    var u, x, y := Enumerate(m.Labelled(lbl)), Enumerate(a.Labelled(lbl)), Enumerate(b.Labelled(lbl));
    ScanOfLabel(m, v, lbl, props, env);
    ScanOfLabel(a, v, lbl, props, env);
    ScanOfLabel(b, v, lbl, props, env);
    LabelledSplits(a, b, lbl);
    FlatSplit(NodeStep(m, f), u, x, y);
    forall id | id in x ensures NodeStep(m, f)(id) == NodeStep(a, f)(id) { assert id in a.Labelled(lbl); }
    FlatAgree(NodeStep(m, f), NodeStep(a, f), x);
    forall id | id in y ensures NodeStep(m, f)(id) == NodeStep(b, f)(id) { assert id in b.Labelled(lbl); }
    FlatAgree(NodeStep(m, f), NodeStep(b, f), y);
  }

  // ---------- any number of shards ----------

  ghost predicate Sharded(ms: seq<Memory>) {
    && (forall i | 0 <= i < |ms| :: ms[i].Ok())
    && (forall i, j | 0 <= i < j < |ms| :: Apart(ms[i], ms[j]))
  }

  function Whole(ms: seq<Memory>): Memory {
    if ms == [] then Memory(map[], map[]) else Join(ms[0], Whole(ms[1..]))
  }

  lemma {:induction false} WholeApart(m: Memory, ms: seq<Memory>)
    requires m.Ok() && Sharded(ms) && forall i | 0 <= i < |ms| :: Apart(m, ms[i])
    ensures Whole(ms).Ok() && Apart(m, Whole(ms))
    decreases |ms|
  {
    if ms != [] {
      WholeApart(m, ms[1..]);
      WholeApart(ms[0], ms[1..]);
    }
  }

  ghost function RowSum(p: Plan, ms: seq<Memory>, env: Env): multiset<Row>
    requires Reading(p)
  {
    if ms == [] then multiset{} else multiset(Rows(p, ms[0], env)) + RowSum(p, ms[1..], env)
  }

  lemma {:induction false} NoRows(p: Plan, env: Env)
    requires Matching(p) && Reading(p)
    ensures Rows(p, Memory(map[], map[]), env) == []
  {
    if p.ScanByLabel? {
      assert Memory(map[], map[]).Labelled(p.lbl) == {};
    } else {
      NoRows(p.source, env);
    }
  }

  lemma FewerShards(ms: seq<Memory>)
    requires ms != [] && Sharded(ms)
    ensures Sharded(ms[1..]) && ms[0].Ok() && forall i | 0 <= i < |ms[1..]| :: Apart(ms[0], ms[1..][i])
  {
    hide Apart;
  }

  /** The rows of all shards together are the rows on the whole graph. */
  lemma {:induction false} ShardsSumToWhole(p: Plan, ms: seq<Memory>, env: Env)
    requires Matching(p) && Reading(p) && Sharded(ms) && env.Ok()
    ensures RowSum(p, ms, env) == multiset(Rows(p, Whole(ms), env))
  {
    hide Rows, Matching, Reading, Apart, Join;
    if ms == [] {
      NoRows(p, env);
    } else {
      FewerShards(ms);
      ShardsSumToWhole(p, ms[1..], env);
      WholeApart(ms[0], ms[1..]);
      MatchSplits(p, ms[0], Whole(ms[1..]), env);
    }
  }

  lemma {:induction false} ProjectedShards(p: Plan, items: seq<ReturnItem>, ms: seq<Memory>, env: Env)
    requires Reading(p) && CountColumn(items).None? && env.Ok()
    requires forall n: nat | n <= |ms| :: RowSum(p, ms[n..], env) == multiset(Rows(p, Whole(ms[n..]), env))
    ensures RowSum(Project(p, items), ms, env) == multiset(Rows(Project(p, items), Whole(ms), env))
  {
    hide Rows, RowSum, CountColumn, Whole;
    var whole, f := Whole(ms), ProjectStep(items, env);
    assert ms[0..] == ms;
    ProjectedRows(p, items, whole, env);
    if ms == [] {
      EmptySums(p, Project(p, items), env);
      FlatMultiset(f, Rows(p, whole, env), []);
    } else {
      var rest := ms[1..];
      forall n: nat | n <= |rest| ensures RowSum(p, rest[n..], env) == multiset(Rows(p, Whole(rest[n..]), env)) {
        assert rest[n..] == ms[n + 1..];
      }
      ProjectedShards(p, items, rest, env);
      ProjectedRows(p, items, Whole(rest), env);
      ProjectedRows(p, items, ms[0], env);
      assert rest[0..] == rest && ms == [ms[0]] + rest;
      RowSumCons(p, ms[0], rest, env);
      RowSumCons(Project(p, items), ms[0], rest, env);
      FlatSplit(f, Rows(p, whole, env), Rows(p, ms[0], env), Rows(p, Whole(rest), env));
    }
  }

  lemma ProjectedRows(p: Plan, items: seq<ReturnItem>, m: Memory, env: Env)
    requires Reading(p) && CountColumn(items).None?
    ensures Rows(Project(p, items), m, env) == Flat(ProjectStep(items, env), Rows(p, m, env))
  {
    hide CountColumn, ProjectStep, ProjectRows;
    ProjectIsFlat(items, Rows(p, m, env), env);
  }

  lemma EmptySums(p: Plan, q: Plan, env: Env)
    requires Reading(p) && Reading(q)
    ensures RowSum(p, [], env) == multiset{} == RowSum(q, [], env)
  {
  }

  /** The same for plans with a projection on top. */
  lemma ProjectedShardsSumToWhole(p: Plan, items: seq<ReturnItem>, ms: seq<Memory>, env: Env)
    requires Matching(p) && Reading(p) && Sharded(ms) && env.Ok() && CountColumn(items).None?
    ensures RowSum(Project(p, items), ms, env) == multiset(Rows(Project(p, items), Whole(ms), env))
  {
    forall n: nat | n <= |ms| ensures RowSum(p, ms[n..], env) == multiset(Rows(p, Whole(ms[n..]), env)) {
      ShardsSumToWhole(p, ms[n..], env);
    }
    ProjectedShards(p, items, ms, env);
  }

  /** The sum of the counts the shards report in their single count(*) rows. */
  ghost function CountSum(p: Plan, ms: seq<Memory>, env: Env): int
    requires Reading(p)
  {
    if ms == [] then 0 else |Rows(p, ms[0], env)| + CountSum(p, ms[1..], env)
  }

  lemma {:induction false} CountIsSize(p: Plan, ms: seq<Memory>, env: Env)
    requires Reading(p)
    ensures CountSum(p, ms, env) == |RowSum(p, ms, env)|
  {
    if ms != [] { CountIsSize(p, ms[1..], env); }
  }

  lemma CountRow(p: Plan, items: seq<ReturnItem>, m: Memory, env: Env)
    requires Reading(p) && CountColumn(items).Some?
    ensures Rows(Project(p, items), m, env) == [map[CountColumn(items).value := Int(|Rows(p, m, env)|)]]
  {
    hide CountColumn;
  }

  /** Merged counts: one row per shard, whose numbers sum to the whole graph's count. */
  lemma CountsSumToWhole(p: Plan, items: seq<ReturnItem>, ms: seq<Memory>, env: Env)
    requires Matching(p) && Reading(p) && Sharded(ms) && env.Ok() && CountColumn(items).Some?
    ensures var c := CountColumn(items).value;
            && (forall i | 0 <= i < |ms| :: Rows(Project(p, items), ms[i], env) == [map[c := Int(|Rows(p, ms[i], env)|)]])
            && Rows(Project(p, items), Whole(ms), env) == [map[c := Int(CountSum(p, ms, env))]]
  {
    hide Whole, Sharded, RowSum, CountSum, Rows, CountColumn;
    ShardsSumToWhole(p, ms, env);
    CountIsSize(p, ms, env);
    assert |multiset(Rows(p, Whole(ms), env))| == |Rows(p, Whole(ms), env)|;
    CountRow(p, items, Whole(ms), env);
    forall i | 0 <= i < |ms| { CountRow(p, items, ms[i], env); }
  }

  // ---------- the router ----------

  /** What the router collects: each asked shard answers with its rows or fails. */
  ghost predicate Collected(p: Plan, ms: seq<Memory>, env: Env, results: seq<ShardResult>)
    requires Reading(p)
  {
    && |results| == |ms|
    && forall i | 0 <= i < |ms| :: !results[i].failed ==> results[i].rs.Some? && results[i].rs.value.rows == Rows(p, ms[i], env)
  }

  function Surviving(ms: seq<Memory>, results: seq<ShardResult>): seq<Memory>
    requires |ms| == |results|
  {
    if ms == [] then [] else (if results[0].failed then [] else [ms[0]]) + Surviving(ms[1..], results[1..])
  }

  function Lost(ms: seq<Memory>, results: seq<ShardResult>): seq<Memory>
    requires |ms| == |results|
  {
    if ms == [] then [] else (if results[0].failed then [ms[0]] else []) + Lost(ms[1..], results[1..])
  }

  lemma {:induction false} MergedRows(p: Plan, ms: seq<Memory>, env: Env, results: seq<ShardResult>)
    requires Reading(p) && Collected(p, ms, env, results)
    ensures multiset(AllRows(ValidResults(results))) == RowSum(p, Surviving(ms, results), env)
  {
    if ms != [] {
      MergedRows(p, ms[1..], env, results[1..]);
      var rest, later := ValidResults(results[1..]), Surviving(ms[1..], results[1..]);
      if !results[0].failed {
        assert AllRows([results[0].rs.value] + rest) == results[0].rs.value.rows + AllRows(rest) by {
          assert ([results[0].rs.value] + rest)[1..] == rest;
        }
        RowSumCons(p, ms[0], later, env);
      } else {
        assert ValidResults(results) == rest && Surviving(ms, results) == later;
      }
    }
  }

  lemma RowSumCons(p: Plan, m: Memory, ms: seq<Memory>, env: Env)
    requires Reading(p)
    ensures RowSum(p, [m] + ms, env) == multiset(Rows(p, m, env)) + RowSum(p, ms, env)
  {
    assert ([m] + ms)[1..] == ms;
  }

  lemma {:induction false} SurvivingAndLost(p: Plan, ms: seq<Memory>, env: Env, results: seq<ShardResult>)
    requires Reading(p) && |ms| == |results|
    ensures RowSum(p, Surviving(ms, results), env) + RowSum(p, Lost(ms, results), env) == RowSum(p, ms, env)
  {
    if ms != [] {
      SurvivingAndLost(p, ms[1..], env, results[1..]);
      var later, lost := Surviving(ms[1..], results[1..]), Lost(ms[1..], results[1..]);
      var first, x, y := multiset(Rows(p, ms[0], env)), RowSum(p, later, env), RowSum(p, lost, env);
      if results[0].failed {
        assert Surviving(ms, results) == later;
        RowSumCons(p, ms[0], lost, env);
        Regroup(first, x, y);
      } else {
        assert Lost(ms, results) == lost;
        RowSumCons(p, ms[0], later, env);
        Regroup(first, x, y);
      }
    }
  }

  lemma Regroup<T>(a: multiset<T>, x: multiset<T>, y: multiset<T>)
    ensures x + (a + y) == a + (x + y) && (a + x) + y == a + (x + y)
  {
  }

  /** What the router may be asked: a match, or a match with a projection that counts nothing. */
  predicate Splittable(p: Plan) {
    if p.Project? then Matching(p.source) && CountColumn(p.items).None? else Matching(p)
  }

  /** A planned MATCH ... WHERE* RETURN is, unless it sorts, slices or counts. */
  lemma PlannedSplittable(before: seq<Clause>, patterns: seq<Pattern>, wheres: seq<Expr>, ret: Clause)
    requires ret.ReturnClause? && patterns != [] && PlannedCleanly(before, patterns)
    requires ret.orderBy == [] && ret.limit.None? && ret.skip.None? && CountColumn(ret.items).None?
    ensures forall c | c in before + [MatchClause(patterns)] + WhereClauses(wheres) + [ret] :: ClauseOk(c)
    ensures var plan := PlanStatement(Statement(before + [MatchClause(patterns)] + WhereClauses(wheres) + [ret]));
            plan.Ok? && Reading(plan.value) && Splittable(plan.value)
  {
    var pat := patterns[0];
    PlanOfReading(before, patterns, wheres, ret);
    PlannedMatching(pat, |pat.edges|);
    FilteredMatching(ChainPlan(pat, |pat.edges|), wheres);
    MatchingReads(Filtered(ChainPlan(pat, |pat.edges|), wheres));
  }

  predicate PlannedCleanly(before: seq<Clause>, patterns: seq<Pattern>)
    requires patterns != []
  {
    && (forall c | c in before :: ClauseOk(c)) && (forall p | p in patterns :: ChainOk(p))
    && PlanClauses(None, before).Ok?
    && ChainOk(patterns[0]) && |patterns[0].nodes| > 0 && Count(patterns[0].nodes[0].lbl, ':') == 0
  }

  lemma SplittableSums(p: Plan, ms: seq<Memory>, env: Env)
    requires Reading(p) && Splittable(p) && Sharded(ms) && env.Ok()
    ensures RowSum(p, ms, env) == multiset(Rows(p, Whole(ms), env))
  {
    if p.Project? {
      ProjectedShardsSumToWhole(p.source, p.items, ms, env);
    } else {
      ShardsSumToWhole(p, ms, env);
    }
  }

  /** Fanning out preserves meaning: the merged rows are the whole graph's rows, short of
      exactly the rows of the shards that failed; it fails only if every shard does. */
  lemma FanOutMeaning(p: Plan, ms: seq<Memory>, env: Env, results: seq<ShardResult>)
    requires Reading(p) && Splittable(p) && Sharded(ms) && env.Ok() && ms != []
    requires Collected(p, ms, env, results)
    ensures Merged(results).Err? <==> forall i | 0 <= i < |results| :: results[i].failed
    ensures Merged(results).Ok? ==>
              multiset(Merged(results).value.rows) + RowSum(p, Lost(ms, results), env) == multiset(Rows(p, Whole(ms), env))
    ensures (forall i | 0 <= i < |results| :: !results[i].failed) ==> Lost(ms, results) == []
  {
    MergedRows(p, ms, env, results);
    SurvivingAndLost(p, ms, env, results);
    SplittableSums(p, ms, env);
    SomeValid(results);
    MergedShape(results);
    if forall i | 0 <= i < |results| :: !results[i].failed {
      NoneLost(ms, results);
    }
  }

  lemma MergedShape(results: seq<ShardResult>)
    requires results != [] && (ValidResults(results) == [] <==> forall i | 0 <= i < |results| :: results[i].failed)
    ensures Merged(results).Err? <==> ValidResults(results) == []
    ensures Merged(results).Ok? ==> Merged(results).value.rows == AllRows(ValidResults(results))
  {
    if ValidResults(results) == [] { assert results[0].failed; }
  }

  lemma {:induction false} SomeValid(results: seq<ShardResult>)
    requires forall i | 0 <= i < |results| :: !results[i].failed ==> results[i].rs.Some?
    ensures ValidResults(results) == [] <==> forall i | 0 <= i < |results| :: results[i].failed
  {
    if results != [] {
      SomeValid(results[1..]);
      assert forall i | 0 < i < |results| :: results[i] == results[1..][i - 1];
    }
  }

  lemma {:induction false} NoneLost(ms: seq<Memory>, results: seq<ShardResult>)
    requires |ms| == |results| && forall i | 0 <= i < |results| :: !results[i].failed
    ensures Lost(ms, results) == []
  {
    if ms != [] { NoneLost(ms[1..], results[1..]); }
  }
}
