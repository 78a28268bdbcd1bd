/** What a MATCH pattern means: the walks of the graph that fit it, and the proof that a
    planned pattern yields one row for each of them. */
module Walks {
  import opened Results
  import opened Text
  import opened PropertyGraph
  import opened Ast
  import opened Planning
  import opened Evaluation
  import opened Execution
  import opened Sorting

  datatype Step = Step(edge: Edge, node: Node)

  datatype Walk = Walk(start: Node, steps: seq<Step>) {
    /** The walk's i-th node. */
    function NodeAt(i: nat): Node
      requires i <= |steps|
    {
      if i == 0 then start else steps[i - 1].node
    }

    function Last(): Node { NodeAt(|steps|) }

    function Then(s: Step): Walk { Walk(start, steps + [s]) }
  }

  /** A step fits the i-th edge of the pattern: a stored edge of the right label from the
      current node to a stored node of the right label, along or against its direction. */
  predicate StepFits(m: Memory, pat: Pattern, i: nat, at: Node, s: Step)
    requires ChainOk(pat) && i < |pat.edges|
  {
    var e, n := pat.edges[i], pat.nodes[i + 1];
    && s.edge.id in m.edges && m.edges[s.edge.id] == s.edge
    && s.node.id in m.nodes && m.nodes[s.node.id] == s.node
    && (if e.direction.EdgeLeft? then s.edge.to == at.id && s.edge.from == s.node.id
        else s.edge.from == at.id && s.edge.to == s.node.id)
    && (e.lbl == "" || s.edge.lbl == e.lbl)
    && (n.lbl == "" || s.node.lbl == n.lbl)
  }

  predicate StartFits(m: Memory, pat: Pattern, n: Node, env: Env)
    requires ChainOk(pat)
  {
    && n.id in m.nodes && m.nodes[n.id] == n
    && n.lbl == pat.nodes[0].lbl
    && MatchProps(n.props, pat.nodes[0].props, env)
  }

  /** The walks fitting the first k edges of the pattern. */
  ghost predicate IsWalk(m: Memory, pat: Pattern, k: nat, w: Walk, env: Env)
    requires ChainOk(pat) && k <= |pat.edges|
  {
    && |w.steps| == k
    && StartFits(m, pat, w.start, env)
    && forall i | 0 <= i < k :: StepFits(m, pat, i, w.NodeAt(i), w.steps[i])
  }

  // ---------- enumerating the walks ----------

  function PatternHop(pat: Pattern, i: nat): Hop
    requires ChainOk(pat) && i < |pat.edges|
  {
    var e, src, dest := pat.edges[i], pat.nodes[i], pat.nodes[i + 1];
    Hop(!e.direction.EdgeLeft?, src.variable, e.variable, e.lbl, dest.variable, dest.lbl)
  }

  function Starts(nodes: seq<Node>, props: map<string, Expr>, env: Env): seq<Walk> {
    if nodes == [] then
      []
    else
      (if MatchProps(nodes[0].props, props, env) then [Walk(nodes[0], [])] else [])
      + Starts(nodes[1..], props, env)
  }

  function Extensions(m: Memory, hop: Hop, w: Walk, ids: seq<string>): seq<Walk> {
    if ids == [] then
      []
    else
      (if ids[0] in m.edges && Landing(m, hop, m.edges[ids[0]]).Some?
       then [w.Then(Step(m.edges[ids[0]], Landing(m, hop, m.edges[ids[0]]).value))] else [])
      + Extensions(m, hop, w, ids[1..])
  }

  function ExtendAll(m: Memory, hop: Hop, ws: seq<Walk>): seq<Walk> {
    if ws == [] then
      []
    else
      Extensions(m, hop, ws[0], HopIds(m, hop, ws[0].Last().id)) + ExtendAll(m, hop, ws[1..])
  }

  ghost function AllWalks(m: Memory, pat: Pattern, k: nat, env: Env): seq<Walk>
    requires ChainOk(pat) && k <= |pat.edges|
  {
    if k == 0 then Starts(m.NodesByLabel(pat.nodes[0].lbl), pat.nodes[0].props, env)
    else ExtendAll(m, PatternHop(pat, k - 1), AllWalks(m, pat, k - 1, env))
  }

  /** A walk's IDs: the start node, then the edges. */
  function Key(w: Walk): (r: seq<string>)
    ensures |r| == |w.steps| + 1
  {
    [w.start.id] + seq(|w.steps|, i requires 0 <= i < |w.steps| => w.steps[i].edge.id)
  }

  ghost predicate KeyLess(a: seq<string>, b: seq<string>) {
    exists d :: 0 <= d < |a| && d < |b| && a[..d] == b[..d] && Less(a[d], b[d])
  }

  ghost predicate InKeyOrder(ws: seq<Walk>) {
    forall i, j | 0 <= i < j < |ws| :: KeyLess(Key(ws[i]), Key(ws[j]))
  }

  lemma KeyLessExtends(a: Walk, b: Walk, s: Step, t: Step)
    ensures KeyLess(Key(a), Key(b)) ==> KeyLess(Key(a.Then(s)), Key(b.Then(t)))
    ensures Key(a) == Key(b) && Less(s.edge.id, t.edge.id) ==> KeyLess(Key(a.Then(s)), Key(b.Then(t)))
  {
    var x, y := Key(a.Then(s)), Key(b.Then(t));
    assert x == Key(a) + [s.edge.id] && y == Key(b) + [t.edge.id];
    if KeyLess(Key(a), Key(b)) {
      var d :| 0 <= d < |Key(a)| && d < |Key(b)| && Key(a)[..d] == Key(b)[..d] && Less(Key(a)[d], Key(b)[d]);
      assert x[..d] == Key(a)[..d] && y[..d] == Key(b)[..d];
    } else if Key(a) == Key(b) && Less(s.edge.id, t.edge.id) {
      var d := |Key(a)|;
      assert x[..d] == Key(a) && y[..d] == Key(b);
    }
  }

  lemma {:induction false} StartsExact(m: Memory, ids: seq<string>, props: map<string, Expr>, env: Env)
    requires m.Ok() && Ascending(ids)
    requires forall id | id in ids :: id in m.nodes
    ensures InKeyOrder(Starts(m.NodesAt(ids), props, env))
    ensures forall w :: w in Starts(m.NodesAt(ids), props, env) <==>
              w.steps == [] && w.start.id in ids && m.nodes[w.start.id] == w.start && MatchProps(w.start.props, props, env)
  {
    if ids != [] {
      assert ids == [ids[0]] + ids[1..];
      assert m.NodesAt(ids)[1..] == m.NodesAt(ids[1..]);
      StartsExact(m, ids[1..], props, env);
      var rest := Starts(m.NodesAt(ids[1..]), props, env);
      forall j | 0 <= j < |rest| ensures KeyLess(Key(Walk(m.nodes[ids[0]], [])), Key(rest[j])) {
        assert rest[j] in rest;
        assert Less(Key(Walk(m.nodes[ids[0]], []))[0], Key(rest[j])[0]);
      }
    }
  }

  lemma {:induction false} ExtensionsExact(m: Memory, hop: Hop, w: Walk, ids: seq<string>)
    requires m.Ok() && Ascending(ids)
    requires forall id | id in ids :: id in m.edges
    ensures InKeyOrder(Extensions(m, hop, w, ids))
    ensures forall v :: v in Extensions(m, hop, w, ids) <==>
              exists id :: id in ids && Extends(m, hop, w, id, v)
  {
    if ids != [] {
      assert ids == [ids[0]] + ids[1..];
      ExtensionsExact(m, hop, w, ids[1..]);
      var rest := Extensions(m, hop, w, ids[1..]);
      if Landing(m, hop, m.edges[ids[0]]).Some? {
        var s := Step(m.edges[ids[0]], Landing(m, hop, m.edges[ids[0]]).value);
        forall j | 0 <= j < |rest| ensures KeyLess(Key(w.Then(s)), Key(rest[j])) {
          assert rest[j] in rest;
          var id :| id in ids[1..] && Extends(m, hop, w, id, rest[j]);
          KeyLessExtends(w, w, s, Step(m.edges[id], Landing(m, hop, m.edges[id]).value));
        }
      }
      forall v ensures v in Extensions(m, hop, w, ids) <==> exists id :: id in ids && Extends(m, hop, w, id, v) {
        if Extends(m, hop, w, ids[0], v) || v in rest {
          assert v in Extensions(m, hop, w, ids);
        }
      }
    }
  }

  /** v is w followed by one fitting step over edge id. */
  predicate Extends(m: Memory, hop: Hop, w: Walk, id: string, v: Walk) {
    id in m.edges && Landing(m, hop, m.edges[id]).Some?
    && v == w.Then(Step(m.edges[id], Landing(m, hop, m.edges[id]).value))
  }

  lemma {:induction false} ExtendAllExact(m: Memory, hop: Hop, ws: seq<Walk>)
    requires m.Ok() && InKeyOrder(ws)
    ensures InKeyOrder(ExtendAll(m, hop, ws))
    ensures forall v :: v in ExtendAll(m, hop, ws) <==>
              exists w, id :: w in ws && id in HopIds(m, hop, w.Last().id) && Extends(m, hop, w, id, v)
  {
    hide Landing, Key, KeyLess, Extensions, Extends;
    if ws != [] {
      var w := ws[0];
      var ids := HopIds(m, hop, w.Last().id);
      assert ws == [w] + ws[1..];
      ExtensionsExact(m, hop, w, ids);
      ExtendAllExact(m, hop, ws[1..]);
      var first, rest := Extensions(m, hop, w, ids), ExtendAll(m, hop, ws[1..]);
      forall i, j | 0 <= i < |first| && 0 <= j < |rest| ensures KeyLess(Key(first[i]), Key(rest[j])) {
        assert first[i] in first && rest[j] in rest;
        AcrossWalks(m, hop, ws, first[i], rest[j]);
      }
      forall v
        ensures v in ExtendAll(m, hop, ws) <==>
                exists w, id :: w in ws && id in HopIds(m, hop, w.Last().id) && Extends(m, hop, w, id, v)
      {
        assert v in ExtendAll(m, hop, ws) <==> v in first || v in rest;
      }
    }
  }

  /** Extensions of an earlier walk come before those of a later one. */
  lemma AcrossWalks(m: Memory, hop: Hop, ws: seq<Walk>, u: Walk, v: Walk)
    requires ws != [] && InKeyOrder(ws)
    requires exists id :: id in HopIds(m, hop, ws[0].Last().id) && Extends(m, hop, ws[0], id, u)
    requires exists w, id :: w in ws[1..] && id in HopIds(m, hop, w.Last().id) && Extends(m, hop, w, id, v)
    ensures KeyLess(Key(u), Key(v))
  {
    hide HopIds, Landing, Key, KeyLess;
    var id :| id in HopIds(m, hop, ws[0].Last().id) && Extends(m, hop, ws[0], id, u);
    var w', id' :| w' in ws[1..] && id' in HopIds(m, hop, w'.Last().id) && Extends(m, hop, w', id', v);
    var k :| 0 <= k < |ws[1..]| && ws[1..][k] == w';
    assert KeyLess(Key(ws[0]), Key(ws[k + 1]));
    KeyLessExtends(ws[0], w', Step(m.edges[id], Landing(m, hop, m.edges[id]).value),
                   Step(m.edges[id'], Landing(m, hop, m.edges[id']).value));
  }

  /** The enumeration lists every fitting walk exactly once, in the order of its IDs. */
  lemma {:induction false} AllWalksExact(m: Memory, pat: Pattern, k: nat, env: Env)
    requires m.Ok() && ChainOk(pat) && k <= |pat.edges|
    ensures InKeyOrder(AllWalks(m, pat, k, env))
    ensures forall w :: w in AllWalks(m, pat, k, env) <==> IsWalk(m, pat, k, w, env)
  {
    if k == 0 {
      StartsExact(m, Enumerate(m.Labelled(pat.nodes[0].lbl)), pat.nodes[0].props, env);
    } else {
      AllWalksExact(m, pat, k - 1, env);
      ExtendAllExact(m, PatternHop(pat, k - 1), AllWalks(m, pat, k - 1, env));
      forall v ensures v in AllWalks(m, pat, k, env) <==> IsWalk(m, pat, k, v, env) {
        LongerWalks(m, pat, k, PatternHop(pat, k - 1), AllWalks(m, pat, k - 1, env), v, env);
      }
    }
  }

  lemma LongerWalks(m: Memory, pat: Pattern, k: nat, hop: Hop, ws: seq<Walk>, v: Walk, env: Env)
    requires m.Ok() && ChainOk(pat) && 0 < k <= |pat.edges| && hop == PatternHop(pat, k - 1)
    requires forall w :: w in ws <==> IsWalk(m, pat, k - 1, w, env)
    ensures IsWalk(m, pat, k, v, env) <==>
              exists w, id :: w in ws && id in HopIds(m, hop, w.Last().id) && Extends(m, hop, w, id, v)
  {
    if w, id :| w in ws && id in HopIds(m, hop, w.Last().id) && Extends(m, hop, w, id, v) {
      WalkGrows(m, pat, k, w, id, v, env);
    }
    if IsWalk(m, pat, k, v, env) {
      WalkShrinks(m, pat, k, v, env);
      assert Walk(v.start, v.steps[..k - 1]) in ws;
    }
  }

  lemma WalkGrows(m: Memory, pat: Pattern, k: nat, w: Walk, id: string, v: Walk, env: Env)
    requires m.Ok() && ChainOk(pat) && 0 < k <= |pat.edges|
    requires IsWalk(m, pat, k - 1, w, env)
    requires id in HopIds(m, PatternHop(pat, k - 1), w.Last().id) && Extends(m, PatternHop(pat, k - 1), w, id, v)
    ensures IsWalk(m, pat, k, v, env)
  {
    hide StepFits, StartFits, HopIds, Landing, PatternHop;
    LandsFitting(m, pat, k - 1, w, id, v);
    forall i | 0 <= i < k ensures StepFits(m, pat, i, v.NodeAt(i), v.steps[i]) {
      if i < k - 1 {
        assert v.steps[i] == w.steps[i] && v.NodeAt(i) == w.NodeAt(i);
        assert StepFits(m, pat, i, w.NodeAt(i), w.steps[i]);
      }
    }
  }

  /** The step an edge of the hop's list makes fits the pattern. */
  lemma LandsFitting(m: Memory, pat: Pattern, k: nat, w: Walk, id: string, v: Walk)
    requires m.Ok() && ChainOk(pat) && k < |pat.edges| && |w.steps| == k
    requires id in HopIds(m, PatternHop(pat, k), w.Last().id) && Extends(m, PatternHop(pat, k), w, id, v)
    ensures v.start == w.start && |v.steps| == k + 1 && v.steps[..k] == w.steps && v.NodeAt(k) == w.Last()
    ensures StepFits(m, pat, k, v.NodeAt(k), v.steps[k])
  {
  }

  lemma WalkShrinks(m: Memory, pat: Pattern, k: nat, v: Walk, env: Env)
    requires m.Ok() && ChainOk(pat) && 0 < k <= |pat.edges| && IsWalk(m, pat, k, v, env)
    ensures var w, id := Walk(v.start, v.steps[..k - 1]), v.steps[k - 1].edge.id;
            && IsWalk(m, pat, k - 1, w, env)
            && id in HopIds(m, PatternHop(pat, k - 1), w.Last().id)
            && Extends(m, PatternHop(pat, k - 1), w, id, v)
  {
    hide StepFits, StartFits, HopIds, Landing, PatternHop;
    var w := Walk(v.start, v.steps[..k - 1]);
    forall i | 0 <= i < k - 1 ensures StepFits(m, pat, i, w.NodeAt(i), w.steps[i]) {
      assert v.steps[i] == w.steps[i] && v.NodeAt(i) == w.NodeAt(i);
    }
    assert v.NodeAt(k - 1) == w.Last();
    assert StepFits(m, pat, k - 1, v.NodeAt(k - 1), v.steps[k - 1]);
    StepLands(m, pat, k - 1, w.Last(), v.steps[k - 1]);
    assert v.steps == w.steps + [v.steps[k - 1]];
  }

  /** A fitting step is one the expansion takes. */
  lemma StepLands(m: Memory, pat: Pattern, i: nat, at: Node, s: Step)
    requires m.Ok() && ChainOk(pat) && i < |pat.edges| && StepFits(m, pat, i, at, s)
    ensures s.edge.id in HopIds(m, PatternHop(pat, i), at.id)
    ensures s.edge.id in m.edges && m.edges[s.edge.id] == s.edge && Landing(m, PatternHop(pat, i), s.edge) == Some(s.node)
  {
  }

  lemma KeyOrderDistinct(ws: seq<Walk>)
    requires InKeyOrder(ws)
    ensures forall i, j | 0 <= i < j < |ws| :: ws[i] != ws[j]
  {
    forall i, j | 0 <= i < j < |ws| ensures ws[i] != ws[j] {
      var a, b := Key(ws[i]), Key(ws[j]);
      assert KeyLess(a, b);
      var d :| 0 <= d < |a| && d < |b| && a[..d] == b[..d] && Less(a[d], b[d]);
      LessAsymmetric(a[d], b[d]);
    }
  }

  // ---------- walks and rows ----------

  /** The row of a walk: each element assigned to its variable in walk order, edges before
      the node they reach, later assignments overriding earlier ones. */
  function RowOf(pat: Pattern, w: Walk): Row
    requires ChainOk(pat) && |w.steps| <= |pat.edges|
    decreases |w.steps|
  {
    if w.steps == [] then
      map[pat.nodes[0].variable := NodeValue(w.start)]
    else
      var k := |w.steps| - 1;
      Extend(PatternHop(pat, k), RowOf(pat, Walk(w.start, w.steps[..k])), w.steps[k].edge, w.steps[k].node)
  }

  function RowsOf(pat: Pattern, ws: seq<Walk>): (r: seq<Row>)
    requires ChainOk(pat) && forall w | w in ws :: |w.steps| <= |pat.edges|
    ensures |r| == |ws| && forall i | 0 <= i < |ws| :: r[i] == RowOf(pat, ws[i])
  {
    if ws == [] then [] else
      assert ws == [ws[0]] + ws[1..];
      [RowOf(pat, ws[0])] + RowsOf(pat, ws[1..])
  }

  lemma {:induction false} StartRows(pat: Pattern, nodes: seq<Node>, env: Env)
    requires ChainOk(pat)
    ensures forall w | w in Starts(nodes, pat.nodes[0].props, env) :: w.steps == []
    ensures ScanRows(nodes, pat.nodes[0].variable, pat.nodes[0].props, env) ==
            RowsOf(pat, Starts(nodes, pat.nodes[0].props, env))
  {
    if nodes != [] { StartRows(pat, nodes[1..], env); }
  }

  lemma {:induction false} ExtensionRows(m: Memory, pat: Pattern, i: nat, w: Walk, ids: seq<string>)
    requires ChainOk(pat) && i < |pat.edges| && |w.steps| == i
    ensures forall v | v in Extensions(m, PatternHop(pat, i), w, ids) :: |v.steps| == i + 1
    ensures HopRows(m, PatternHop(pat, i), RowOf(pat, w), ids) == RowsOf(pat, Extensions(m, PatternHop(pat, i), w, ids))
  {
    if ids != [] {
      ExtensionRows(m, pat, i, w, ids[1..]);
      if ids[0] in m.edges && Landing(m, PatternHop(pat, i), m.edges[ids[0]]).Some? {
        var v := w.Then(Step(m.edges[ids[0]], Landing(m, PatternHop(pat, i), m.edges[ids[0]]).value));
        assert Walk(v.start, v.steps[..i]) == w;
      }
    }
  }

  lemma {:induction false} RowsOfConcat(pat: Pattern, a: seq<Walk>, b: seq<Walk>)
    requires ChainOk(pat)
    requires forall w | w in a :: |w.steps| <= |pat.edges|
    requires forall w | w in b :: |w.steps| <= |pat.edges|
    ensures RowsOf(pat, a + b) == RowsOf(pat, a) + RowsOf(pat, b)
  {
  }

  /** A walk's row leads the next hop back to the walk's last node. */
  lemma RowLeadsOn(m: Memory, pat: Pattern, w: Walk, env: Env)
    requires env.Ok() && ChainOk(pat) && |w.steps| < |pat.edges|
    ensures var hop := PatternHop(pat, |w.steps|);
            RowExpansion(m, hop, RowOf(pat, w), env) == HopRows(m, hop, RowOf(pat, w), HopIds(m, hop, w.Last().id))
  {
    var hop := PatternHop(pat, |w.steps|);
    assert Get(RowOf(pat, w), hop.srcVar) == NodeValue(w.Last());
    assert Get(NodeValue(w.Last()).fields, "id") == Str(w.Last().id);
  }

  lemma {:induction false} ExtendAllRows(m: Memory, pat: Pattern, i: nat, ws: seq<Walk>, env: Env)
    requires env.Ok() && ChainOk(pat) && i < |pat.edges|
    requires forall w | w in ws :: |w.steps| == i
    ensures forall v | v in ExtendAll(m, PatternHop(pat, i), ws) :: |v.steps| == i + 1
    ensures ExpandRows(m, PatternHop(pat, i), RowsOf(pat, ws), env) == RowsOf(pat, ExtendAll(m, PatternHop(pat, i), ws))
  {
    if ws != [] {
      var hop, w := PatternHop(pat, i), ws[0];
      assert ws == [w] + ws[1..];
      ExtendAllRows(m, pat, i, ws[1..], env);
      ExtensionRows(m, pat, i, w, HopIds(m, hop, w.Last().id));
      RowLeadsOn(m, pat, w, env);
      RowsOfConcat(pat, Extensions(m, hop, w, HopIds(m, hop, w.Last().id)), ExtendAll(m, hop, ws[1..]));
      ExpandCons(m, hop, RowOf(pat, w), RowsOf(pat, ws[1..]), env);
      assert RowsOf(pat, ws) == [RowOf(pat, w)] + RowsOf(pat, ws[1..]);
    }
  }

  lemma ExpandCons(m: Memory, hop: Hop, row: Row, rows: seq<Row>, env: Env)
    ensures ExpandRows(m, hop, [row] + rows, env) == RowExpansion(m, hop, row, env) + ExpandRows(m, hop, rows, env)
  {
    assert ([row] + rows)[1..] == rows;
  }

  /** Planning and running a pattern gives exactly one row per fitting walk. */
  lemma {:induction false} OneRowPerWalk(m: Memory, pat: Pattern, k: nat, env: Env)
    requires env.Ok() && ChainOk(pat) && k <= |pat.edges| && Count(pat.nodes[0].lbl, ':') == 0
    ensures Reading(ChainPlan(pat, k))
    ensures forall w | w in AllWalks(m, pat, k, env) :: |w.steps| == k
    ensures Rows(ChainPlan(pat, k), m, env) == RowsOf(pat, AllWalks(m, pat, k, env))
  {
    hide ExpandRows, RowsOf, ScanRows, Starts, ExtendAll, PatternHop, MatchProps, Expand;
    if k == 0 {
      StartRows(pat, m.NodesByLabel(pat.nodes[0].lbl), env);
    } else {
      OneRowPerWalk(m, pat, k - 1, env);
      ExtendAllRows(m, pat, k - 1, AllWalks(m, pat, k - 1, env), env);
      ExpandPlanRows(m, pat, k, env);
    }
  }

  lemma ExpandPlanRows(m: Memory, pat: Pattern, k: nat, env: Env)
    requires ChainOk(pat) && 0 < k <= |pat.edges| && Reading(ChainPlan(pat, k - 1))
    ensures Reading(ChainPlan(pat, k))
    ensures Rows(ChainPlan(pat, k), m, env) ==
            ExpandRows(m, PatternHop(pat, k - 1), Rows(ChainPlan(pat, k - 1), m, env), env)
  {
    var p := ChainPlan(pat, k);
    assert p == Expand(ChainPlan(pat, k - 1), pat, k - 1);
    assert HopOf(p) == PatternHop(pat, k - 1);
  }

  // ---------- what a row binds ----------

  /** No two elements of the pattern share a variable, unnamed edges aside. */
  predicate VariablesDistinct(pat: Pattern) {
    && (forall i, j | 0 <= i < j < |pat.nodes| :: pat.nodes[i].variable != pat.nodes[j].variable)
    && (forall i, j | 0 <= i < j < |pat.edges| :: pat.edges[i].variable != pat.edges[j].variable || pat.edges[i].variable == "")
    && (forall i, j | 0 <= i < |pat.edges| && 0 <= j < |pat.nodes| ::
          pat.edges[i].variable != pat.nodes[j].variable || pat.edges[i].variable == "")
  }

  /** Extending a row leaves every other variable as it was. */
  lemma ExtendKeeps(hop: Hop, row: Row, e: Edge, n: Node, v: string)
    ensures v != hop.destVar && (v != hop.edgeVar || hop.edgeVar == "") ==> Get(Extend(hop, row, e, n), v) == Get(row, v)
    ensures Get(Extend(hop, row, e, n), hop.destVar) == NodeValue(n)
    ensures hop.edgeVar != "" && hop.edgeVar != hop.destVar ==> Get(Extend(hop, row, e, n), hop.edgeVar) == EdgeValue(e)
  {
  }

  lemma {:induction false} RowBindsNode(pat: Pattern, w: Walk, i: nat)
    requires ChainOk(pat) && |w.steps| <= |pat.edges| && VariablesDistinct(pat) && i <= |w.steps|
    ensures Get(RowOf(pat, w), pat.nodes[i].variable) == NodeValue(w.NodeAt(i))
    decreases |w.steps|
  {
    if w.steps != [] {
      var k := |w.steps| - 1;
      var w' := Walk(w.start, w.steps[..k]);
      ExtendKeeps(PatternHop(pat, k), RowOf(pat, w'), w.steps[k].edge, w.steps[k].node, pat.nodes[i].variable);
      if i <= k {
        RowBindsNode(pat, w', i);
        assert w.NodeAt(i) == w'.NodeAt(i);
        assert pat.edges[k].variable == "" || pat.edges[k].variable != pat.nodes[i].variable;
      }
    }
  }

  lemma {:induction false} RowBindsEdge(pat: Pattern, w: Walk, i: nat)
    requires ChainOk(pat) && |w.steps| <= |pat.edges| && VariablesDistinct(pat) && i < |w.steps|
    requires pat.edges[i].variable != ""
    ensures Get(RowOf(pat, w), pat.edges[i].variable) == EdgeValue(w.steps[i].edge)
    decreases |w.steps|
  {
    var k := |w.steps| - 1;
    var w' := Walk(w.start, w.steps[..k]);
    ExtendKeeps(PatternHop(pat, k), RowOf(pat, w'), w.steps[k].edge, w.steps[k].node, pat.edges[i].variable);
    assert pat.edges[i].variable != pat.nodes[k + 1].variable;
    if i < k {
      RowBindsEdge(pat, w', i);
      assert w.steps[i] == w'.steps[i];
    }
  }

  /** With distinct variables a row binds every variable to its own element of the walk. */
  lemma RowBindsWalk(pat: Pattern, w: Walk)
    requires ChainOk(pat) && |w.steps| <= |pat.edges| && VariablesDistinct(pat)
    ensures forall i | 0 <= i <= |w.steps| :: Get(RowOf(pat, w), pat.nodes[i].variable) == NodeValue(w.NodeAt(i))
    ensures forall i | 0 <= i < |w.steps| && pat.edges[i].variable != "" ::
              Get(RowOf(pat, w), pat.edges[i].variable) == EdgeValue(w.steps[i].edge)
  {
    forall i | 0 <= i <= |w.steps| ensures Get(RowOf(pat, w), pat.nodes[i].variable) == NodeValue(w.NodeAt(i)) {
      RowBindsNode(pat, w, i);
    }
    forall i | 0 <= i < |w.steps| && pat.edges[i].variable != ""
      ensures Get(RowOf(pat, w), pat.edges[i].variable) == EdgeValue(w.steps[i].edge)
    {
      RowBindsEdge(pat, w, i);
    }
  }

  // ---------- whole reading statements ----------

  predicate SatisfiesAll(wheres: seq<Expr>, row: Row, env: Env) {
    forall i | 0 <= i < |wheres| :: EvalBool(wheres[i], row, env)
  }

  function Satisfying(wheres: seq<Expr>, rows: seq<Row>, env: Env): seq<Row> {
    if rows == [] then []
    else (if SatisfiesAll(wheres, rows[0], env) then [rows[0]] else []) + Satisfying(wheres, rows[1..], env)
  }

  lemma {:induction false} FilterSatisfying(wheres: seq<Expr>, e: Expr, rows: seq<Row>, env: Env)
    ensures FilterRows(e, Satisfying(wheres, rows, env), env) == Satisfying(wheres + [e], rows, env)
  {
    if rows != [] {
      FilterSatisfying(wheres, e, rows[1..], env);
      assert SatisfiesAll(wheres + [e], rows[0], env) <==>
             SatisfiesAll(wheres, rows[0], env) && EvalBool(e, rows[0], env) by {
        assert (wheres + [e])[|wheres|] == e;
        assert forall i | 0 <= i < |wheres| :: (wheres + [e])[i] == wheres[i];
      }
      if SatisfiesAll(wheres, rows[0], env) {
        var rest := Satisfying(wheres, rows[1..], env);
        assert ([rows[0]] + rest)[1..] == rest;
      } else {
        assert Satisfying(wheres, rows, env) == Satisfying(wheres, rows[1..], env);
      }
    }
  }

  lemma {:induction false} NoWheres(rows: seq<Row>, env: Env)
    ensures Satisfying([], rows, env) == rows
  {
    if rows != [] { NoWheres(rows[1..], env); }
  }

  lemma FilterPlanRows(p: Plan, e: Expr, m: Memory, env: Env)
    requires Reading(p)
    ensures Reading(Filter(p, e)) && Rows(Filter(p, e), m, env) == FilterRows(e, Rows(p, m, env), env)
  {
  }

  lemma {:induction false} FilteredRows(p: Plan, wheres: seq<Expr>, m: Memory, env: Env)
    requires Reading(p)
    ensures Reading(Filtered(p, wheres))
    ensures Rows(Filtered(p, wheres), m, env) == Satisfying(wheres, Rows(p, m, env), env)
  {
    hide Rows, Satisfying, FilterRows;
    if wheres == [] {
      NoWheres(Rows(p, m, env), env);
    } else {
      var front, last := wheres[..|wheres| - 1], wheres[|wheres| - 1];
      FilteredRows(p, front, m, env);
      FilterSatisfying(front, last, Rows(p, m, env), env);
      FilterPlanRows(Filtered(p, front), last, m, env);
      assert wheres == front + [last];
    }
  }

  lemma RowOrderIsWeak(orderBy: seq<OrderItem>, env: Env)
    ensures WeakOrder(RowOrder(orderBy, env))
  {
    var less := RowOrder(orderBy, env);
    forall a, b ensures Asymmetric(less, a, b) {
      CompareRowsOrder(orderBy, a, b, a, env);
    }
    forall a, b, c ensures Between(less, a, b, c) {
      CompareRowsOrder(orderBy, c, b, a, env);
      CompareRowsOrder(orderBy, a, b, c, env);
      CompareRowsOrder(orderBy, b, c, a, env);
      CompareRowsOrder(orderBy, a, c, b, env);
    }
  }

  lemma {:induction false} SortByNothing(rows: seq<Row>, less: (Row, Row) -> bool)
    requires forall a, b :: !less(a, b)
    ensures StableSort(rows, less) == rows
  {
    if rows != [] {
      SortByNothing(rows[..|rows| - 1], less);
      assert rows[..|rows| - 1] + [rows[|rows| - 1]] == rows;
    }
  }

  /** The kept rows, sorted by the mixed ascending and descending keys, those that tie on
      all keys in the order they had. */
  ghost predicate Arranged(sorted: seq<Row>, kept: seq<Row>, orderBy: seq<OrderItem>, env: Env) {
    var less := RowOrder(orderBy, env);
    Sorted(sorted, less) && forall row :: Ties(sorted, row, less) == Ties(kept, row, less)
  }

  lemma SortArranges(kept: seq<Row>, orderBy: seq<OrderItem>, env: Env)
    ensures Arranged(StableSort(kept, RowOrder(orderBy, env)), kept, orderBy, env)
  {
    hide RowOrder, StableSort, Ties, Sorted, WeakOrder;
    RowOrderIsWeak(orderBy, env);
    StableSortCorrect(kept, RowOrder(orderBy, env));
  }

  /** There is one such arrangement only. */
  lemma ArrangedOnce(one: seq<Row>, other: seq<Row>, kept: seq<Row>, orderBy: seq<OrderItem>, env: Env)
    requires Arranged(one, kept, orderBy, env) && Arranged(other, kept, orderBy, env)
    ensures one == other
  {
    hide RowOrder, Ties, Sorted, WeakOrder;
    RowOrderIsWeak(orderBy, env);
    StableSortUnique(one, other, RowOrder(orderBy, env));
  }

  /** The answer to a reading statement, given the rows that match: those satisfying every
      WHERE, arranged as ORDER BY asks, projected or counted, and sliced. */
  ghost predicate Answers(answer: seq<Row>, matches: seq<Row>, wheres: seq<Expr>, ret: Clause, env: Env)
    requires ret.ReturnClause?
  {
    var kept := Satisfying(wheres, matches, env);
    && (exists sorted :: Arranged(sorted, kept, ret.orderBy, env))
    && forall sorted | Arranged(sorted, kept, ret.orderBy, env) ::
         answer == Slice(ProjectRows(ret.items, sorted, env), ret.limit, ret.skip)
  }

  lemma SortAnswers(matches: seq<Row>, wheres: seq<Expr>, ret: Clause, env: Env)
    requires ret.ReturnClause?
    ensures var sorted := StableSort(Satisfying(wheres, matches, env), RowOrder(ret.orderBy, env));
            Answers(Slice(ProjectRows(ret.items, sorted, env), ret.limit, ret.skip), matches, wheres, ret, env)
  {
    hide Arranged, RowOrder, StableSort, Satisfying, ProjectRows, Slice;
    var kept := Satisfying(wheres, matches, env);
    var sorted := StableSort(kept, RowOrder(ret.orderBy, env));
    SortArranges(kept, ret.orderBy, env);
    forall other | Arranged(other, kept, ret.orderBy, env) ensures other == sorted {
      ArrangedOnce(other, sorted, kept, ret.orderBy, env);
    }
  }

  /** Planning and executing MATCH ... WHERE* ... RETURN answers the query over exactly the
      fitting walks of the graph, each once and in the order of their IDs, for every graph
      and every statement of that form. */
  lemma StatementMeaning(before: seq<Clause>, patterns: seq<Pattern>, wheres: seq<Expr>, ret: Clause, m: Memory, env: Env)
    requires m.Ok() && env.Ok() && ret.ReturnClause? && patterns != []
    requires forall c | c in before :: ClauseOk(c)
    requires forall p | p in patterns :: ChainOk(p)
    requires PlanClauses(None, before).Ok?
    requires ChainOk(patterns[0]) && Count(patterns[0].nodes[0].lbl, ':') == 0
    ensures forall c | c in before + [MatchClause(patterns)] + WhereClauses(wheres) + [ret] :: ClauseOk(c)
    ensures var pat := patterns[0];
            var walks := AllWalks(m, pat, |pat.edges|, env);
            var plan := PlanStatement(Statement(before + [MatchClause(patterns)] + WhereClauses(wheres) + [ret]));
            && plan.Ok? && Reading(plan.value)
            && (forall w :: w in walks <==> IsWalk(m, pat, |pat.edges|, w, env))
            && (forall i, j | 0 <= i < j < |walks| :: walks[i] != walks[j]) && InKeyOrder(walks)
            && Answers(Rows(plan.value, m, env), RowsOf(pat, walks), wheres, ret, env)
  {
    var pat := patterns[0];
    var k := |pat.edges|;
    var matched := Filtered(ChainPlan(pat, k), wheres);
    PlanOfReading(before, patterns, wheres, ret);
    OneRowPerWalk(m, pat, k, env);
    AllWalksExact(m, pat, k, env);
    KeyOrderDistinct(AllWalks(m, pat, k, env));
    FilteredRows(ChainPlan(pat, k), wheres, m, env);
    ReturnRows(matched, ret, m, env);
    SortAnswers(RowsOf(pat, AllWalks(m, pat, k, env)), wheres, ret, env);
  }

  lemma SortedRows(matched: Plan, orderBy: seq<OrderItem>, m: Memory, env: Env)
    requires Reading(matched)
    ensures var sorted := if orderBy == [] then matched else Sort(matched, orderBy);
            Reading(sorted) && Rows(sorted, m, env) == StableSort(Rows(matched, m, env), RowOrder(orderBy, env))
  {
    hide StableSort, ScanRows, ExpandRows, FilterRows, ProjectRows, Slice, RowOrder;
    if orderBy == [] {
      NothingLess(env);
      SortByNothing(Rows(matched, m, env), RowOrder(orderBy, env));
    }
  }

  lemma NothingLess(env: Env)
    ensures forall a, b :: !RowOrder([], env)(a, b)
  {
  }

  /** Sorting if asked for, projecting, and slicing if asked for. */
  lemma ReturnRows(matched: Plan, ret: Clause, m: Memory, env: Env)
    requires Reading(matched) && ret.ReturnClause?
    ensures var plan := PlanClause(Some(matched), ret);
            && plan.Ok? && Reading(plan.value)
            && Rows(plan.value, m, env) ==
               Slice(ProjectRows(ret.items, StableSort(Rows(matched, m, env), RowOrder(ret.orderBy, env)), env), ret.limit, ret.skip)
  {
    hide StableSort, RowOrder, ProjectRows, ScanRows, ExpandRows, FilterRows;
    SortedRows(matched, ret.orderBy, m, env);
    var sorted := if ret.orderBy == [] then matched else Sort(matched, ret.orderBy);
    var projected := Rows(Project(sorted, ret.items), m, env);
    assert Slice(projected, None, None) == projected;
  }
}
