/** Prefix scans over the key/value map, and what they find in a represented graph. */
module Lookups {
  import opened Text
  import opened PropertyGraph
  import opened IndexKeys
  import opened KeyValue

  function Trim(keys: seq<string>, n: nat): (r: seq<string>)
    requires forall k | k in keys :: n <= |k|
    ensures |r| == |keys|
    ensures forall i | 0 <= i < |r| :: r[i] == keys[i][n..]
  {
    if keys == [] then [] else [keys[0][n..]] + Trim(keys[1..], n)
  }

  method TrimEach(keys: seq<string>, n: nat) returns (ids: seq<string>)
    requires forall k | k in keys :: n <= |k|
    ensures ids == Trim(keys, n)
  {
    ids := [];
    for i := 0 to |keys|
      invariant |ids| == i && forall j | 0 <= j < i :: ids[j] == keys[j][n..]
    {
      ids := ids + [keys[i][n..]];
    }
  }

  /** The tails of all keys under a prefix, in key order. */
  function ScanIds(kv: Entries, prefix: string): seq<string> {
    Trim(Enumerate(set k | k in kv && prefix <= k), |prefix|)
  }

  lemma ScanFinds(kv: Entries, prefix: string)
    ensures Ascending(ScanIds(kv, prefix))
    ensures forall x :: x in ScanIds(kv, prefix) <==> prefix + x in kv
  {
    hide Enumerate, Trim, Less;
    var keys := Enumerate(set k | k in kv && prefix <= k);
    var ids := ScanIds(kv, prefix);
    forall i | 0 <= i < |keys| ensures keys[i] == prefix + ids[i] {
      assert keys[i] in keys;
      assert prefix <= keys[i];
      assert keys[i][..|prefix|] == prefix;
    }
    forall i, j | 0 <= i < j < |ids| ensures Less(ids[i], ids[j]) {
      LessPrefix(prefix, ids[i], ids[j]);
    }
    forall x ensures x in ids <==> prefix + x in keys {
      if prefix + x in keys {
        var i :| 0 <= i < |keys| && keys[i] == prefix + x;
        assert ids[i] == keys[i][|prefix|..] == x;
      }
    }
    forall x ensures prefix + x in keys <==> prefix + x in kv {
      assert prefix <= prefix + x;
    }
  }

  function LabelScan(kv: Entries, lbl: string): seq<string> {
    ScanIds(kv, LABEL_PREFIX + lbl + ":")
  }

  function OutScan(kv: Entries, id: string): seq<string> {
    ScanIds(kv, OUT_PREFIX + id + ":")
  }

  function InScan(kv: Entries, id: string): seq<string> {
    ScanIds(kv, IN_PREFIX + id + ":")
  }

  function EdgeLabelScan(kv: Entries, lbl: string): seq<string> {
    ScanIds(kv, EDGE_LABEL_PREFIX + lbl + ":")
  }

  lemma PresentIffDerived(kv: Entries, m: Memory, k: Key)
    requires Represents(kv, m) && Proper(k)
    ensures Render(k) in kv <==> Derived(m, k)
  {
    assert k in View(kv) <==> k in Contents(m);
  }

  /** A label scan finds every node of the label once, in ID order, and nothing else. */
  lemma LabelScanExact(kv: Entries, m: Memory, lbl: string)
    requires Represents(kv, m) && Count(lbl, ':') == 0
    ensures LabelScan(kv, lbl) == Enumerate(m.Labelled(lbl))
  {
    var p := LABEL_PREFIX + lbl + ":";
    ScanFinds(kv, p);
    forall x ensures x in LabelScan(kv, lbl) <==> x in m.Labelled(lbl) {
      assert p + x == Render(LabelKey(lbl, x));
      PresentIffDerived(kv, m, LabelKey(lbl, x));
    }
    AscendingUnique(LabelScan(kv, lbl), Enumerate(m.Labelled(lbl)));
  }

  /** Edge IDs found by the edge-label scan: every edge of the label, and no stray. */
  lemma EdgeLabelScanExact(kv: Entries, m: Memory, lbl: string)
    requires Represents(kv, m) && Count(lbl, ':') == 0
    ensures EdgeLabelScan(kv, lbl) == Enumerate(m.EdgesLabelled(lbl))
  {
    var p := EDGE_LABEL_PREFIX + lbl + ":";
    ScanFinds(kv, p);
    forall x ensures x in EdgeLabelScan(kv, lbl) <==> x in m.EdgesLabelled(lbl) {
      var s := p + x;
      if s in kv {
        var k: Key :| Proper(k) && Render(k) == s;
        EdgeLabelShape(k, lbl, x);
        PresentIffDerived(kv, m, k);
      }
      if x in m.edges && m.edges[x].lbl == lbl {
        assert s == Render(EdgeLabelKey(lbl, x));
        PresentIffDerived(kv, m, EdgeLabelKey(lbl, x));
      }
    }
    AscendingUnique(EdgeLabelScan(kv, lbl), Enumerate(m.EdgesLabelled(lbl)));
  }

  lemma EdgeLabelShape(k: Key, lbl: string, x: string)
    requires Proper(k) && Count(lbl, ':') == 0
    requires Render(k) == EDGE_LABEL_PREFIX + lbl + ":" + x
    ensures k == EdgeLabelKey(lbl, x)
  {
    var s, t := Render(k), EDGE_LABEL_PREFIX + lbl + ":" + x;
    assert s[0] == t[0] && s[2] == t[2];
    assert k.EdgeLabelKey?;
    assert t[7..] == lbl + ":" + x && s[7..] == k.lbl + ":" + k.id;
    FirstColonSplit(lbl, x, k.lbl, k.id);
  }

  /** The outgoing scan may yield strays when one node ID extends another across ':',
      but its stored edges are exactly the node's outgoing edges, once each, in order. */
  lemma OutScanExact(kv: Entries, m: Memory, id: string)
    requires Represents(kv, m)
    ensures Ascending(OutScan(kv, id))
    ensures Restrict(OutScan(kv, id), m.edges.Keys) == Enumerate(m.Leaving(id))
  {
    var p := OUT_PREFIX + id + ":";
    ScanFinds(kv, p);
    forall x | x in m.edges ensures p + x in kv <==> x in m.Leaving(id) {
      assert p + x == Render(OutKey(id, x));
      PresentIffDerived(kv, m, OutKey(id, x));
    }
    AscendingUnique(Restrict(OutScan(kv, id), m.edges.Keys), Enumerate(m.Leaving(id)));
  }

  lemma InScanExact(kv: Entries, m: Memory, id: string)
    requires Represents(kv, m)
    ensures Ascending(InScan(kv, id))
    ensures Restrict(InScan(kv, id), m.edges.Keys) == Enumerate(m.Entering(id))
  {
    var p := IN_PREFIX + id + ":";
    ScanFinds(kv, p);
    forall x | x in m.edges ensures p + x in kv <==> x in m.Entering(id) {
      assert p + x == Render(InKey(id, x));
      PresentIffDerived(kv, m, InKey(id, x));
    }
    AscendingUnique(Restrict(InScan(kv, id), m.edges.Keys), Enumerate(m.Entering(id)));
  }

  /** Strays do occur: the scan for "a" picks up an edge of node "a:b" under a string
      that is not its ID. */
  lemma StrayExample(e: Edge)
    requires e.from == "a:b" && EdgeOk(e)
    ensures var kv := PutEdge(map[], e);
            "b:" + e.id in OutScan(kv, "a") && Count("b:" + e.id, ':') == 3
  {
    var kv := PutEdge(map[], e);
    ScanFinds(kv, OUT_PREFIX + "a" + ":");
    assert OUT_PREFIX + "a" + ":" + ("b:" + e.id) == Render(OutKey(e.from, e.id));
    assert Render(OutKey(e.from, e.id)) in kv;
    CountConcat("b:", e.id, ':');
    assert Count("b:", ':') == 1;
  }

  // ---------- the two scans of a node put together ----------

  /** First occurrences outside seen, kept in order: the lookup loops' seen map. */
  function Fresh(ids: seq<string>, seen: set<string>): (r: seq<string>)
    ensures forall x :: x in r <==> x in ids && x !in seen
  {
    if ids == [] then
      []
    else
      assert ids == [ids[0]] + ids[1..];
      if ids[0] in seen then Fresh(ids[1..], seen)
      else [ids[0]] + Fresh(ids[1..], seen + {ids[0]})
  }

  lemma FreshStep(all: seq<string>, i: nat, seen: set<string>)
    requires i < |all|
    ensures all[i] in seen ==> Fresh(all[i..], seen) == Fresh(all[i + 1..], seen)
    ensures all[i] !in seen ==> var r := Fresh(all[i..], seen);
                                r != [] && r[0] == all[i] && r[1..] == Fresh(all[i + 1..], seen + {all[i]})
  {
    assert all[i..][1..] == all[i + 1..];
  }

  function StoredNodes(kv: Entries, ids: seq<string>): seq<Node> {
    if ids == [] then
      []
    else
      var n := FindNode(kv, ids[0]);
      (if n.Some? then [n.value] else []) + StoredNodes(kv, ids[1..])
  }

  lemma {:induction false} StoredNodesAgrees(kv: Entries, m: Memory, ids: seq<string>)
    requires Represents(kv, m)
    requires forall id | id in ids :: id in m.nodes
    ensures StoredNodes(kv, ids) == m.NodesAt(ids)
  {
    if ids != [] {
      assert ids[0] in ids && ids == [ids[0]] + ids[1..];
      FindNodeAgrees(kv, m, ids[0]);
      StoredNodesAgrees(kv, m, ids[1..]);
    }
  }

  /** The storage's view of a node's edges: first occurrences that are stored edges. */
  function StoredAt(kv: Entries, ids: seq<string>): (r: seq<Edge>)
  {
    if ids == [] then
      []
    else
      var e := FindEdge(kv, ids[0]);
      (if e.Some? then [e.value] else []) + StoredAt(kv, ids[1..])
  }

  lemma StoredAtIsRestrict(kv: Entries, m: Memory, ids: seq<string>)
    requires Represents(kv, m)
    ensures StoredAt(kv, ids) == m.EdgesAt(Restrict(ids, m.edges.Keys))
  {
    forall id ensures FindEdge(kv, id) == m.GetEdge(id) {
      FindEdgeAgrees(kv, m, id);
    }
    StoredAtFollowsFind(kv, m, ids);
  }

  lemma {:induction false} StoredAtFollowsFind(kv: Entries, m: Memory, ids: seq<string>)
    requires forall id :: FindEdge(kv, id) == m.GetEdge(id)
    ensures StoredAt(kv, ids) == m.EdgesAt(Restrict(ids, m.edges.Keys))
  {
    if ids != [] {
      StoredAtFollowsFind(kv, m, ids[1..]);
      var rest := Restrict(ids[1..], m.edges.Keys);
      if ids[0] in m.edges {
        assert m.EdgesAt([ids[0]] + rest) == [m.edges[ids[0]]] + m.EdgesAt(rest);
      }
    }
  }

  lemma {:induction false} RestrictConcat(a: seq<string>, b: seq<string>, keep: set<string>)
    ensures Restrict(a + b, keep) == Restrict(a, keep) + Restrict(b, keep)
  {
    if a == [] {
      assert a + b == b;
    } else {
      assert (a + b)[1..] == a[1..] + b;
      RestrictConcat(a[1..], b, keep);
    }
  }

  lemma {:induction false} FreshConcat(a: seq<string>, b: seq<string>, seen: set<string>)
    ensures Fresh(a + b, seen) == Fresh(a, seen) + Fresh(b, seen + set x | x in a)
  {
    if a == [] {
      assert a + b == b;
      assert seen + (set x | x in a) == seen;
    } else {
      assert (a + b)[1..] == a[1..] + b;
      var seen' := if a[0] in seen then seen else seen + {a[0]};
      FreshConcat(a[1..], b, seen');
      assert seen' + (set x | x in a[1..]) == seen + set x | x in a by {
        assert a == [a[0]] + a[1..];
      }
    }
  }

  /** On an ascending list the seen map only drops what was seen before. */
  lemma {:induction false} FreshAscending(ids: seq<string>, seen: set<string>, all: set<string>)
    requires Ascending(ids)
    requires forall x | x in ids :: x in all
    ensures Fresh(ids, seen) == Restrict(ids, all - seen)
  {
    if ids != [] {
      assert ids == [ids[0]] + ids[1..];
      var seen' := if ids[0] in seen then seen else seen + {ids[0]};
      FreshAscending(ids[1..], seen', all);
      forall x | x in ids[1..] ensures x in all - seen' <==> x in all - seen {
        InTail(ids, x);
      }
      RestrictSame(ids[1..], all - seen', all - seen);
    }
  }

  lemma {:induction false} RestrictSame(r: seq<string>, k1: set<string>, k2: set<string>)
    requires forall x | x in r :: x in k1 <==> x in k2
    ensures Restrict(r, k1) == Restrict(r, k2)
  {
    if r != [] {
      assert r == [r[0]] + r[1..];
      RestrictSame(r[1..], k1, k2);
    }
  }

  lemma {:induction false} RestrictTwice(r: seq<string>, k1: set<string>, k2: set<string>)
    ensures Restrict(Restrict(r, k1), k2) == Restrict(r, k1 * k2)
  {
    if r != [] {
      RestrictTwice(r[1..], k1, k2);
      if r[0] in k1 {
        var rest := Restrict(r[1..], k1);
        assert ([r[0]] + rest)[1..] == rest;
      }
    }
  }

  /** Every edge touching the node, once; a self-loop, which both scans find, once. */
  lemma EdgeScanExact(kv: Entries, m: Memory, id: string)
    requires Represents(kv, m)
    ensures StoredAt(kv, Fresh(OutScan(kv, id) + InScan(kv, id), {})) == m.EdgesAt(m.EdgeIdsAt(id))
  {
    var outs, ins := OutScan(kv, id), InScan(kv, id);
    var keep := m.edges.Keys;
    var o, i := set x | x in outs, set x | x in ins;
    OutScanExact(kv, m, id);
    InScanExact(kv, m, id);
    FreshConcat(outs, ins, {});
    FreshAscending(outs, {}, o);
    assert {} + o == o;
    FreshAscending(ins, o, i);
    RestrictConcat(Restrict(outs, o - {}), Restrict(ins, i - o), keep);
    RestrictTwice(outs, o - {}, keep);
    RestrictSame(outs, (o - {}) * keep, keep);
    RestrictTwice(ins, i - o, keep);
    StoredAtIsRestrict(kv, m, Fresh(outs + ins, {}));
    var ins' := Restrict(ins, (i - o) * keep);
    forall x ensures x in ins' <==> x in m.Entering(id) - m.Leaving(id) {
      assert x in o && x in keep <==> x in Restrict(outs, keep);
      assert x in i && x in keep <==> x in Restrict(ins, keep);
    }
    AscendingUnique(ins', Enumerate(m.Entering(id) - m.Leaving(id)));
  }

  // ---------- deleting a node ----------

  /** The edges at a node are well-formed. */
  lemma EdgesAtOk(kv: Entries, m: Memory, id: string)
    requires Represents(kv, m)
    ensures forall e | e in m.EdgesAt(m.EdgeIdsAt(id)) :: EdgeOk(e)
  {
    var ids := m.EdgeIdsAt(id);
    var es := m.EdgesAt(ids);
    assert forall x | x in ids :: x in m.edges && EdgeOk(m.edges[x]);
    forall e | e in es ensures EdgeOk(e) {
      var i :| 0 <= i < |es| && es[i] == e;
      assert ids[i] in ids;
    }
  }

  /** Deindexes and deletes those of the listed IDs that are stored edges. */
  function DropEdges(kv: Entries, ids: seq<string>): Entries {
    if ids == [] then
      kv
    else
      DropEdges(DropOne(kv, ids[0]), ids[1..])
  }

  function DropOne(kv: Entries, id: string): Entries {
    var e := FindEdge(kv, id);
    if e.Some? then Delete(DeindexEdge(kv, e.value), EdgeKey(id)) else kv
  }

  lemma DropOneKeeps(kv: Entries, m: Memory, id: string)
    requires Represents(kv, m)
    ensures Represents(DropOne(kv, id), m.DeleteEdge(id))
  {
    hide Represents, DeindexEdge, Delete;
    FindEdgeAgrees(kv, m, id);
    if id in m.edges {
      DeleteEdgeKeeps(kv, m, id);
    } else {
      assert m.DeleteEdge(id) == m;
    }
  }

  function DeleteNode(kv: Entries, id: string): Entries {
    var n := FindNode(kv, id);
    if n.None? then
      kv
    else
      var dropped := DropEdges(kv, Fresh(OutScan(kv, id) + InScan(kv, id), {}));
      Delete(DeindexNode(dropped, n.value), NodeKey(id))
  }

  lemma {:induction false} DropEdgesKeeps(kv: Entries, m: Memory, ids: seq<string>)
    requires Represents(kv, m)
    ensures Represents(DropEdges(kv, ids), Memory(m.nodes, m.edges - set x | x in ids))
    decreases |ids|
  {
    if ids == [] {
      assert m.edges - (set x | x in ids) == m.edges;
    } else {
      hide Represents, FindEdge, DeindexEdge, Delete;
      var x := ids[0];
      DropOneKeeps(kv, m, x);
      DropEdgesKeeps(DropOne(kv, x), m.DeleteEdge(x), ids[1..]);
      assert m.edges - {x} - (set y | y in ids[1..]) == m.edges - set y | y in ids by {
        assert ids == [x] + ids[1..];
      }
    }
  }

  /** Deleting an existing node removes it and exactly the edges touching it; deleting
      an absent ID changes nothing. The index invariant holds afterwards. */
  lemma DeleteNodeKeeps(kv: Entries, m: Memory, id: string)
    requires Represents(kv, m)
    ensures id in m.nodes ==> Represents(DeleteNode(kv, id), m.DeleteNode(id))
    ensures id !in m.nodes ==> DeleteNode(kv, id) == kv
  {
    FindNodeAgrees(kv, m, id);
    if id in m.nodes {
      var ids := Fresh(OutScan(kv, id) + InScan(kv, id), {});
      DropEdgesKeeps(kv, m, ids);
      ScansCoverTouching(kv, m, id);
      DropNodeKeeps(DropEdges(kv, ids), Memory(m.nodes, m.edges - set x | x in ids), id);
    }
  }

  lemma ScansCoverTouching(kv: Entries, m: Memory, id: string)
    requires Represents(kv, m)
    ensures m.edges - (set x | x in Fresh(OutScan(kv, id) + InScan(kv, id), {})) == m.edges - m.Touching(id)
  {
    var found := set x | x in Fresh(OutScan(kv, id) + InScan(kv, id), {});
    forall x | x in m.edges ensures x in found <==> x in m.Touching(id) {
      ScanTouches(kv, m, id, x);
    }
    MinusSame(m.edges, found, m.Touching(id));
  }

  lemma ScanTouches(kv: Entries, m: Memory, id: string, x: string)
    requires Represents(kv, m) && x in m.edges
    ensures x in Fresh(OutScan(kv, id) + InScan(kv, id), {}) <==> x in m.Touching(id)
  {
    OutScanExact(kv, m, id);
    InScanExact(kv, m, id);
    assert x in OutScan(kv, id) <==> x in Restrict(OutScan(kv, id), m.edges.Keys);
    assert x in InScan(kv, id) <==> x in Restrict(InScan(kv, id), m.edges.Keys);
  }

  lemma MinusSame<V>(m: map<string, V>, s: set<string>, t: set<string>)
    requires forall x | x in m :: x in s <==> x in t
    ensures m - s == m - t
  {
    assert (m - s).Keys == (m - t).Keys;
  }

  lemma DropNodeKeeps(kv: Entries, m: Memory, id: string)
    requires Represents(kv, m) && id in m.nodes
    ensures Represents(Delete(DeindexNode(kv, m.nodes[id]), NodeKey(id)), Memory(m.nodes - {id}, m.edges))
  {
    var n := m.nodes[id];
    DeleteView(kv, LabelKey(n.lbl, id));
    DeleteView(DeindexNode(kv, n), NodeKey(id));
    DeleteNodeContents(m, id);
  }

  lemma DeleteNodeContents(m: Memory, id: string)
    requires m.Ok() && id in m.nodes
    ensures Contents(m) - {LabelKey(m.nodes[id].lbl, id)} - {NodeKey(id)}
            == Contents(Memory(m.nodes - {id}, m.edges))
  {
  }

  // ---------- runs ----------

  datatype Operation =
    | PutNodeOp(node: Node)
    | PutEdgeOp(edge: Edge)
    | DeleteNodeOp(id: string)
    | DeleteEdgeOp(id: string)

  predicate OperationOk(op: Operation) {
    match op
    case PutNodeOp(n) => NodeOk(n)
    case PutEdgeOp(e) => EdgeOk(e)
    case _ => true
  }

  function Apply(kv: Entries, op: Operation): Entries {
    match op
    case PutNodeOp(n) => PutNode(kv, n)
    case PutEdgeOp(e) => PutEdge(kv, e)
    case DeleteNodeOp(id) => DeleteNode(kv, id)
    case DeleteEdgeOp(id) => DeleteEdge(kv, id)
  }

  function Run(kv: Entries, ops: seq<Operation>): Entries {
    if ops == [] then kv else Apply(Run(kv, ops[..|ops| - 1]), ops[|ops| - 1])
  }

  function ApplyInMemory(m: Memory, op: Operation): Memory {
    match op
    case PutNodeOp(n) => m.PutNode(n)
    case PutEdgeOp(e) => m.PutEdge(e)
    case DeleteNodeOp(id) => if id in m.nodes then m.DeleteNode(id) else m
    case DeleteEdgeOp(id) => m.DeleteEdge(id)
  }

  function RunInMemory(m: Memory, ops: seq<Operation>): Memory {
    if ops == [] then m else ApplyInMemory(RunInMemory(m, ops[..|ops| - 1]), ops[|ops| - 1])
  }

  const EMPTY_MEMORY := Memory(map[], map[])

  /** After any sequence of operations on an empty store the key/value map holds exactly
      the records of the in-memory run and their index entries. */
  lemma {:induction false} IndexInvariantOverRuns(ops: seq<Operation>)
    requires forall op | op in ops :: OperationOk(op)
    ensures Represents(Run(map[], ops), RunInMemory(EMPTY_MEMORY, ops))
  {
    if ops == [] {
      assert View(map[]) == Contents(EMPTY_MEMORY);
    } else {
      var before := ops[..|ops| - 1];
      var op := ops[|ops| - 1];
      IndexInvariantOverRuns(before);
      var kv, m := Run(map[], before), RunInMemory(EMPTY_MEMORY, before);
      assert OperationOk(op);
      match op {
        case PutNodeOp(n) => PutNodeKeeps(kv, m, n);
        case PutEdgeOp(e) => PutEdgeKeeps(kv, m, e);
        case DeleteNodeOp(id) => DeleteNodeKeeps(kv, m, id);
        case DeleteEdgeOp(id) => DeleteEdgeKeeps(kv, m, id);
      }
    }
  }
}
