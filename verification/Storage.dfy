/** The storage object: one key/value map, changed in place by transactions, kept in step
    with the graph it represents. */
module Storage {
  import opened Results
  import opened Text
  import opened PropertyGraph
  import opened IndexKeys
  import KV = KeyValue
  import L = Lookups

  class BadgerStorage {
    var kv: KV.Entries
    ghost var mem: Memory

    ghost predicate Valid()
      reads this
    {
      KV.Represents(kv, mem)
    }

    constructor ()
      ensures Valid() && mem == L.EMPTY_MEMORY
    {
      kv := map[];
      mem := L.EMPTY_MEMORY;
      new;
      assert KV.View(map[]) == KV.Contents(L.EMPTY_MEMORY);
    }

    // ---------- inside a transaction ----------

    method Set(k: Key, b: KV.Blob)
      modifies this`kv
      ensures kv == KV.Set(old(kv), k, b)
    {
      kv := kv[Render(k) := b];
    }

    method Delete(k: Key)
      modifies this`kv
      ensures kv == KV.Delete(old(kv), k)
    {
      kv := kv - {Render(k)};
    }

    method IndexNode(n: Node)
      modifies this`kv
      ensures kv == KV.IndexNode(old(kv), n)
    {
      Set(LabelKey(n.lbl, n.id), KV.Empty);
    }

    method DeindexNode(n: Node)
      modifies this`kv
      ensures kv == KV.DeindexNode(old(kv), n)
    {
      Delete(LabelKey(n.lbl, n.id));
    }

    method IndexEdge(e: Edge)
      modifies this`kv
      ensures kv == KV.IndexEdge(old(kv), e)
    {
      Set(OutKey(e.from, e.id), KV.Empty);
      Set(InKey(e.to, e.id), KV.Empty);
      Set(EdgeLabelKey(e.lbl, e.id), KV.Empty);
    }

    method DeindexEdge(e: Edge)
      modifies this`kv
      ensures kv == KV.DeindexEdge(old(kv), e)
    {
      Delete(OutKey(e.from, e.id));
      Delete(InKey(e.to, e.id));
      Delete(EdgeLabelKey(e.lbl, e.id));
    }

    /** The index's prefix iteration: keys in order, each trimmed of the prefix. */
    method Scan(prefix: string) returns (ids: seq<string>)
      ensures ids == L.ScanIds(kv, prefix)
    {
      var keys := Enumerate(set k | k in kv && prefix <= k);
      assert forall k | k in keys :: |prefix| <= |k|;
      ids := L.TrimEach(keys, |prefix|);
    }

    /** The deletion loop: each listed ID once, skipping those that are no stored edge. */
    method DropEach(all: seq<string>)
      modifies this`kv
      ensures kv == L.DropEdges(old(kv), L.Fresh(all, {}))
    {
      var seen: set<string> := {};
      for i := 0 to |all|
        invariant L.DropEdges(kv, L.Fresh(all[i..], seen)) == L.DropEdges(old(kv), L.Fresh(all, {}))
      {
        var eid := all[i];
        L.FreshStep(all, i, seen);
        if eid !in seen {
          seen := seen + {eid};
          var edge := KV.FindEdge(kv, eid);
          if edge.Some? {
            DeindexEdge(edge.value);
            Delete(EdgeKey(eid));
          }
        }
      }
    }

    /** The lookup loop: the stored edge of each listed ID, once. */
    method FetchEach(all: seq<string>) returns (edges: seq<Edge>)
      ensures edges == L.StoredAt(kv, L.Fresh(all, {}))
    {
      hide KV.FindEdge;
      var seen: set<string> := {};
      edges := [];
      for i := 0 to |all|
        invariant edges + L.StoredAt(kv, L.Fresh(all[i..], seen)) == L.StoredAt(kv, L.Fresh(all, {}))
      {
        var eid := all[i];
        L.FreshStep(all, i, seen);
        if eid !in seen {
          seen := seen + {eid};
          var edge := KV.FindEdge(kv, eid);
          if edge.Some? {
            edges := edges + [edge.value];
          }
        }
      }
    }

    /** The lookup loop over node IDs. */
    method FetchNodes(ids: seq<string>) returns (nodes: seq<Node>)
      ensures nodes == L.StoredNodes(kv, ids)
    {
      nodes := [];
      for i := 0 to |ids|
        invariant nodes + L.StoredNodes(kv, ids[i..]) == L.StoredNodes(kv, ids)
      {
        assert ids[i..][1..] == ids[i + 1..];
        var node := KV.FindNode(kv, ids[i]);
        if node.Some? {
          nodes := nodes + [node.value];
        }
      }
    }

    // ---------- storage operations ----------

    method PutNode(n: Node)
      requires Valid() && NodeOk(n)
      modifies this
      ensures Valid() && mem == old(mem).PutNode(n)
      ensures kv == KV.PutNode(old(kv), n)
    {
      var prior := KV.FindNode(kv, n.id);
      if prior.Some? {
        DeindexNode(prior.value);
      }
      Set(NodeKey(n.id), KV.NodeBlob(n));
      IndexNode(n);
      KV.PutNodeKeeps(old(kv), mem, n);
      mem := mem.PutNode(n);
    }

    method GetNode(id: string) returns (n: Option<Node>)
      requires Valid()
      ensures n == mem.GetNode(id)
    {
      n := KV.FindNode(kv, id);
      KV.FindNodeAgrees(kv, mem, id);
    }

    /** Removes the node and exactly the edges touching it. The in-memory storage would
        also drop dangling edges of an absent node; this one leaves them. */
    method DeleteNode(id: string)
      requires Valid()
      modifies this
      ensures Valid() && mem == if id in old(mem).nodes then old(mem).DeleteNode(id) else old(mem)
      ensures kv == L.DeleteNode(old(kv), id)
    {
      L.DeleteNodeKeeps(kv, mem, id);
      KV.FindNodeAgrees(kv, mem, id);
      var node := KV.FindNode(kv, id);
      if node.None? { return; }
      var outIds := Scan(OUT_PREFIX + id + ":");
      var inIds := Scan(IN_PREFIX + id + ":");
      DropEach(outIds + inIds);
      DeindexNode(node.value);
      Delete(NodeKey(id));
      mem := mem.DeleteNode(id);
    }

    method PutEdge(e: Edge)
      requires Valid() && EdgeOk(e)
      modifies this
      ensures Valid() && mem == old(mem).PutEdge(e)
      ensures kv == KV.PutEdge(old(kv), e)
    {
      var prior := KV.FindEdge(kv, e.id);
      if prior.Some? {
        DeindexEdge(prior.value);
      }
      Set(EdgeKey(e.id), KV.EdgeBlob(e));
      IndexEdge(e);
      KV.PutEdgeKeeps(old(kv), mem, e);
      mem := mem.PutEdge(e);
    }

    method GetEdge(id: string) returns (e: Option<Edge>)
      requires Valid()
      ensures e == mem.GetEdge(id)
    {
      e := KV.FindEdge(kv, id);
      KV.FindEdgeAgrees(kv, mem, id);
    }

    method DeleteEdge(id: string)
      requires Valid()
      modifies this
      ensures Valid() && mem == old(mem).DeleteEdge(id)
      ensures kv == KV.DeleteEdge(old(kv), id)
    {
      var edge := KV.FindEdge(kv, id);
      if edge.Some? {
        DeindexEdge(edge.value);
      }
      Delete(EdgeKey(id));
      KV.DeleteEdgeKeeps(old(kv), mem, id);
      mem := mem.DeleteEdge(id);
    }

    // ---------- lookups ----------

    method NodesByLabel(lbl: string) returns (nodes: seq<Node>)
      requires Valid() && Count(lbl, ':') == 0
      ensures nodes == mem.NodesByLabel(lbl)
    {
      var ids := Scan(LABEL_PREFIX + lbl + ":");
      nodes := FetchNodes(ids);
      L.LabelScanExact(kv, mem, lbl);
      L.StoredNodesAgrees(kv, mem, ids);
    }

    method EdgesByNode(id: string) returns (edges: seq<Edge>)
      requires Valid()
      ensures edges == mem.EdgesAt(mem.EdgeIdsAt(id))
    {
      var outIds := Scan(OUT_PREFIX + id + ":");
      var inIds := Scan(IN_PREFIX + id + ":");
      edges := FetchEach(outIds + inIds);
      L.EdgeScanExact(kv, mem, id);
    }

    method OutgoingEdgeIDs(id: string) returns (ids: seq<string>)
      requires Valid()
      ensures Ascending(ids) && Restrict(ids, mem.edges.Keys) == Enumerate(mem.Leaving(id))
    {
      ids := Scan(OUT_PREFIX + id + ":");
      L.OutScanExact(kv, mem, id);
    }

    method IncomingEdgeIDs(id: string) returns (ids: seq<string>)
      requires Valid()
      ensures Ascending(ids) && Restrict(ids, mem.edges.Keys) == Enumerate(mem.Entering(id))
    {
      ids := Scan(IN_PREFIX + id + ":");
      L.InScanExact(kv, mem, id);
    }

    method EdgeIDsByLabel(lbl: string) returns (ids: seq<string>)
      requires Valid() && Count(lbl, ':') == 0
      ensures ids == Enumerate(mem.EdgesLabelled(lbl))
    {
      ids := Scan(EDGE_LABEL_PREFIX + lbl + ":");
      L.EdgeLabelScanExact(kv, mem, lbl);
    }
  }
}
