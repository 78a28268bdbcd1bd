/** The key/value map behind the store: what it holds for a given graph, and what each
    storage operation does to it. */
module KeyValue {
  import opened Results
  import opened PropertyGraph
  import opened IndexKeys

  datatype Blob = NodeBlob(node: Node) | EdgeBlob(edge: Edge) | Empty

  type Entries = map<string, Blob>

  // ---------- what the map must hold ----------

  /** The keys a graph gives rise to: its records and exactly their index entries. */
  predicate Derived(m: Memory, k: Key) {
    match k
    case NodeKey(id) => id in m.nodes
    case EdgeKey(id) => id in m.edges
    case LabelKey(lbl, id) => id in m.nodes && m.nodes[id].lbl == lbl
    case OutKey(node, id) => id in m.edges && m.edges[id].from == node
    case InKey(node, id) => id in m.edges && m.edges[id].to == node
    case EdgeLabelKey(lbl, id) => id in m.edges && m.edges[id].lbl == lbl
  }

  function BlobFor(m: Memory, k: Key): Blob
    requires Derived(m, k)
  {
    match k
    case NodeKey(id) => NodeBlob(m.nodes[id])
    case EdgeKey(id) => EdgeBlob(m.edges[id])
    case _ => Empty
  }

  ghost function Contents(m: Memory): imap<Key, Blob> {
    imap k: Key | Derived(m, k) :: BlobFor(m, k)
  }

  /** The map read back through the keys' meaning. */
  ghost function View(kv: Entries): imap<Key, Blob> {
    imap k: Key | Proper(k) && Render(k) in kv :: kv[Render(k)]
  }

  ghost predicate Known(s: string) {
    exists k: Key :: Proper(k) && Render(k) == s
  }

  ghost predicate NoStrays(kv: Entries) {
    forall s | s in kv :: Known(s)
  }

  /** The index invariant: the map's strings are exactly those derived from the graph's
      records, each with the right contents. */
  ghost predicate Represents(kv: Entries, m: Memory) {
    m.Ok() && NoStrays(kv) && View(kv) == Contents(m)
  }

  // ---------- single writes ----------

  function Set(kv: Entries, k: Key, b: Blob): Entries {
    kv[Render(k) := b]
  }

  function Delete(kv: Entries, k: Key): Entries {
    kv - {Render(k)}
  }

  lemma Distinct(k: Key)
    requires Proper(k)
    ensures forall j: Key | Proper(j) && j != k :: Render(j) != Render(k)
  {
    forall j: Key | Proper(j) && j != k ensures Render(j) != Render(k) {
      if Render(j) == Render(k) { RenderInjective(j, k); }
    }
  }

  lemma SetView(kv: Entries, k: Key, b: Blob)
    requires Proper(k) && NoStrays(kv)
    ensures View(Set(kv, k, b)) == View(kv)[k := b] && NoStrays(Set(kv, k, b))
  {
    hide Render, Proper;
    Distinct(k);
  }

  lemma DeleteView(kv: Entries, k: Key)
    requires Proper(k) && NoStrays(kv)
    ensures View(Delete(kv, k)) == View(kv) - {k} && NoStrays(Delete(kv, k))
  {
    Distinct(k);
  }

  // ---------- index maintenance ----------

  function IndexNode(kv: Entries, n: Node): Entries {
    Set(kv, LabelKey(n.lbl, n.id), Empty)
  }

  function DeindexNode(kv: Entries, n: Node): Entries {
    Delete(kv, LabelKey(n.lbl, n.id))
  }

  function IndexEdge(kv: Entries, e: Edge): Entries {
    Set(Set(Set(kv, OutKey(e.from, e.id), Empty), InKey(e.to, e.id), Empty), EdgeLabelKey(e.lbl, e.id), Empty)
  }

  function DeindexEdge(kv: Entries, e: Edge): Entries {
    Delete(Delete(Delete(kv, OutKey(e.from, e.id)), InKey(e.to, e.id)), EdgeLabelKey(e.lbl, e.id))
  }

  lemma IndexEdgeView(kv: Entries, e: Edge)
    requires EdgeOk(e) && NoStrays(kv)
    ensures View(IndexEdge(kv, e)) ==
            View(kv)[OutKey(e.from, e.id) := Empty][InKey(e.to, e.id) := Empty][EdgeLabelKey(e.lbl, e.id) := Empty]
    ensures NoStrays(IndexEdge(kv, e))
  {
    var kv1 := Set(kv, OutKey(e.from, e.id), Empty);
    var kv2 := Set(kv1, InKey(e.to, e.id), Empty);
    SetView(kv, OutKey(e.from, e.id), Empty);
    SetView(kv1, InKey(e.to, e.id), Empty);
    SetView(kv2, EdgeLabelKey(e.lbl, e.id), Empty);
  }

  lemma DeindexEdgeView(kv: Entries, e: Edge)
    requires EdgeOk(e) && NoStrays(kv)
    ensures View(DeindexEdge(kv, e)) ==
            View(kv) - {OutKey(e.from, e.id)} - {InKey(e.to, e.id)} - {EdgeLabelKey(e.lbl, e.id)}
    ensures NoStrays(DeindexEdge(kv, e))
  {
    var kv1 := Delete(kv, OutKey(e.from, e.id));
    var kv2 := Delete(kv1, InKey(e.to, e.id));
    DeleteView(kv, OutKey(e.from, e.id));
    DeleteView(kv1, InKey(e.to, e.id));
    DeleteView(kv2, EdgeLabelKey(e.lbl, e.id));
  }

  // ---------- reading ----------

  function FindNode(kv: Entries, id: string): Option<Node> {
    var s := Render(NodeKey(id));
    if s in kv && kv[s].NodeBlob? then Some(kv[s].node) else None
  }

  function FindEdge(kv: Entries, id: string): Option<Edge> {
    var s := Render(EdgeKey(id));
    if s in kv && kv[s].EdgeBlob? then Some(kv[s].edge) else None
  }

  lemma FindNodeAgrees(kv: Entries, m: Memory, id: string)
    requires Represents(kv, m)
    ensures FindNode(kv, id) == m.GetNode(id)
  {
    assert Proper(NodeKey(id));
    assert NodeKey(id) in View(kv) <==> NodeKey(id) in Contents(m);
    if id in m.nodes {
      assert View(kv)[NodeKey(id)] == Contents(m)[NodeKey(id)];
    }
  }

  lemma EdgeKeyShape(k: Key, id: string)
    requires Proper(k) && Render(k) == Render(EdgeKey(id))
    ensures k == EdgeKey(id)
  {
    var s, t := Render(k), Render(EdgeKey(id));
    assert s[0] == t[0];
    assert t[5..] == id;
    assert k.EdgeKey? && s[5..] == k.id;
  }

  lemma EdgeRecordPresent(kv: Entries, m: Memory, id: string)
    requires Represents(kv, m)
    ensures Render(EdgeKey(id)) in kv <==> id in m.edges
  {
    if Render(EdgeKey(id)) in kv {
      var k: Key :| Proper(k) && Render(k) == Render(EdgeKey(id));
      EdgeKeyShape(k, id);
      assert EdgeKey(id) in View(kv);
    }
    if id in m.edges {
      assert EdgeKey(id) in Contents(m);
    }
  }

  /** Looking up any string, edge-shaped or not, finds the stored edge of that ID or
      nothing: a stray scan result is never mistaken for an edge. */
  lemma FindEdgeAgrees(kv: Entries, m: Memory, id: string)
    requires Represents(kv, m)
    ensures FindEdge(kv, id) == m.GetEdge(id)
  {
    EdgeRecordPresent(kv, m, id);
    if id in m.edges {
      assert EdgeKey(id) in View(kv) && View(kv)[EdgeKey(id)] == Contents(m)[EdgeKey(id)];
    }
  }

  // ---------- the storage operations ----------

  function PutNode(kv: Entries, n: Node): Entries {
    var prior := FindNode(kv, n.id);
    var kv1 := if prior.Some? then DeindexNode(kv, prior.value) else kv;
    IndexNode(Set(kv1, NodeKey(n.id), NodeBlob(n)), n)
  }

  function PutEdge(kv: Entries, e: Edge): Entries {
    var prior := FindEdge(kv, e.id);
    var kv1 := if prior.Some? then DeindexEdge(kv, prior.value) else kv;
    IndexEdge(Set(kv1, EdgeKey(e.id), EdgeBlob(e)), e)
  }

  function DeleteEdge(kv: Entries, id: string): Entries {
    var prior := FindEdge(kv, id);
    var kv1 := if prior.Some? then DeindexEdge(kv, prior.value) else kv;
    Delete(kv1, EdgeKey(id))
  }

  lemma PutNodeKeeps(kv: Entries, m: Memory, n: Node)
    requires Represents(kv, m) && NodeOk(n)
    ensures Represents(PutNode(kv, n), m.PutNode(n))
  {
    FindNodeAgrees(kv, m, n.id);
    var prior := FindNode(kv, n.id);
    var kv1 := if prior.Some? then DeindexNode(kv, prior.value) else kv;
    if prior.Some? { DeleteView(kv, LabelKey(prior.value.lbl, n.id)); }
    SetView(kv1, NodeKey(n.id), NodeBlob(n));
    SetView(Set(kv1, NodeKey(n.id), NodeBlob(n)), LabelKey(n.lbl, n.id), Empty);
    PutNodeContents(m, n);
  }

  lemma PutNodeContents(m: Memory, n: Node)
    requires m.Ok()
    ensures var c := if n.id in m.nodes then Contents(m) - {LabelKey(m.nodes[n.id].lbl, n.id)} else Contents(m);
            c[NodeKey(n.id) := NodeBlob(n)][LabelKey(n.lbl, n.id) := Empty] == Contents(m.PutNode(n))
  {
  }

  lemma PutEdgeKeeps(kv: Entries, m: Memory, e: Edge)
    requires Represents(kv, m) && EdgeOk(e)
    ensures Represents(PutEdge(kv, e), m.PutEdge(e))
  {
    FindEdgeAgrees(kv, m, e.id);
    var prior := FindEdge(kv, e.id);
    var kv1 := if prior.Some? then DeindexEdge(kv, prior.value) else kv;
    if prior.Some? { DeindexEdgeView(kv, prior.value); }
    SetView(kv1, EdgeKey(e.id), EdgeBlob(e));
    IndexEdgeView(Set(kv1, EdgeKey(e.id), EdgeBlob(e)), e);
    PutEdgeContents(m, e);
  }

  ghost function WithoutEdge(m: Memory, id: string): imap<Key, Blob> {
    if id in m.edges then
      var e := m.edges[id];
      Contents(m) - {OutKey(e.from, id)} - {InKey(e.to, id)} - {EdgeLabelKey(e.lbl, id)}
    else
      Contents(m)
  }

  lemma FreshEdgeContents(m: Memory, e: Edge)
    requires e.id !in m.edges
    ensures Contents(m)[EdgeKey(e.id) := EdgeBlob(e)]
              [OutKey(e.from, e.id) := Empty][InKey(e.to, e.id) := Empty][EdgeLabelKey(e.lbl, e.id) := Empty]
            == Contents(m.PutEdge(e))
  {
  }

  lemma PutEdgeContents(m: Memory, e: Edge)
    requires m.Ok()
    ensures WithoutEdge(m, e.id)[EdgeKey(e.id) := EdgeBlob(e)]
              [OutKey(e.from, e.id) := Empty][InKey(e.to, e.id) := Empty][EdgeLabelKey(e.lbl, e.id) := Empty]
            == Contents(m.PutEdge(e))
  {
    var m0 := m.DeleteEdge(e.id);
    FreshEdgeContents(m0, e);
    assert m0.PutEdge(e) == m.PutEdge(e);
    if e.id in m.edges {
      DeleteEdgeContents(m, e.id);
      assert (WithoutEdge(m, e.id) - {EdgeKey(e.id)})[EdgeKey(e.id) := EdgeBlob(e)]
          == WithoutEdge(m, e.id)[EdgeKey(e.id) := EdgeBlob(e)];
    } else {
      assert m0 == m;
    }
  }

  lemma DeleteEdgeKeeps(kv: Entries, m: Memory, id: string)
    requires Represents(kv, m)
    ensures Represents(DeleteEdge(kv, id), m.DeleteEdge(id))
  {
    FindEdgeAgrees(kv, m, id);
    if id in m.edges {
      DeindexEdgeView(kv, m.edges[id]);
      DeleteView(DeindexEdge(kv, m.edges[id]), EdgeKey(id));
      DeleteEdgeContents(m, id);
    } else {
      EdgeRecordPresent(kv, m, id);
      assert DeleteEdge(kv, id) == kv;
      assert m.DeleteEdge(id) == m;
    }
  }

  lemma DeleteEdgeContents(m: Memory, id: string)
    requires id in m.edges
    ensures WithoutEdge(m, id) - {EdgeKey(id)} == Contents(m.DeleteEdge(id))
  {
  }
}
