/** The graph object over a storage: creation, upsert and deletion. */
module GraphEngine {
  import opened Results
  import opened Text
  import opened PropertyGraph
  import opened Storage

  class Graph {
    const storage: BadgerStorage
    var idCounter: nat

    constructor (s: BadgerStorage)
      ensures storage == s && idCounter == 0
    {
      storage := s;
      idCounter := 0;
    }

    method CreateNode(lbl: string, props: Properties) returns (n: Node)
      requires storage.Valid() && Count(lbl, ':') == 0
      modifies this, storage
      ensures storage.Valid() && idCounter == old(idCounter) + 1
      ensures n == Node("n:" + lbl + ":" + Decimal(idCounter), lbl, props)
      ensures storage.mem == old(storage.mem).PutNode(n)
    {
      idCounter := idCounter + 1;
      n := Node("n:" + lbl + ":" + Decimal(idCounter), lbl, props);
      storage.PutNode(n);
    }

    method CreateEdge(lbl: string, from: string, to: string, props: Properties) returns (r: Result<Edge>)
      requires storage.Valid() && Count(lbl, ':') == 0
      modifies this, storage
      ensures storage.Valid()
      ensures r.Ok? <==> from in old(storage.mem).nodes && to in old(storage.mem).nodes
      ensures r.Err? ==> storage.mem == old(storage.mem)
      ensures r.Ok? ==> idCounter == old(idCounter) + 1
      ensures r.Ok? ==> r.value == Edge("e:" + lbl + ":" + Decimal(idCounter), lbl, from, to, props)
      ensures r.Ok? ==> storage.mem == old(storage.mem).PutEdge(r.value)
    {
      var src := storage.GetNode(from);
      if src.None? { return Err; }
      var dst := storage.GetNode(to);
      if dst.None? { return Err; }
      idCounter := idCounter + 1;
      var e := Edge("e:" + lbl + ":" + Decimal(idCounter), lbl, from, to, props);
      CreatedIdShape(lbl, idCounter);
      storage.PutEdge(e);
      r := Ok(e);
    }

    /** Merges into an existing node, keeping its label, or creates it. */
    method UpsertNode(id: string, lbl: string, props: Properties) returns (n: Node)
      requires storage.Valid() && Count(lbl, ':') == 0
      modifies storage
      ensures storage.Valid() && storage.mem == old(storage.mem).UpsertNode(id, lbl, props)
      ensures n == storage.mem.nodes[id]
    {
      var existing := storage.GetNode(id);
      n := if existing.Some? then existing.value.(props := existing.value.props + props) else Node(id, lbl, props);
      storage.PutNode(n);
    }

    /** Merges into an existing edge, keeping label and endpoints, or creates it
        without asking whether the endpoints exist. */
    method UpsertEdge(id: string, lbl: string, from: string, to: string, props: Properties) returns (e: Edge)
      requires storage.Valid() && Count(lbl, ':') == 0 && Count(id, ':') == 2
      modifies storage
      ensures storage.Valid() && storage.mem == old(storage.mem).UpsertEdge(id, lbl, from, to, props)
      ensures e == storage.mem.edges[id]
    {
      var existing := storage.GetEdge(id);
      e := if existing.Some? then existing.value.(props := existing.value.props + props)
           else Edge(id, lbl, from, to, props);
      storage.PutEdge(e);
    }

    /** All edges connected to a node. */
    method Neighbors(id: string) returns (edges: seq<Edge>)
      requires storage.Valid()
      ensures edges == storage.mem.EdgesAt(storage.mem.EdgeIdsAt(id))
    {
      edges := storage.EdgesByNode(id);
    }
  }

  /** IDs handed out by CreateEdge have the edge-ID shape the index relies on. */
  lemma CreatedIdShape(lbl: string, n: nat)
    requires Count(lbl, ':') == 0
    ensures Count("e:" + lbl + ":" + Decimal(n), ':') == 2
  {
    DecimalDigits(n);
    CountZero(Decimal(n), ':');
    CountConcat("e:" + lbl + ":", Decimal(n), ':');
    CountConcat("e:" + lbl, ":", ':');
    CountConcat("e:", lbl, ':');
    assert Count("e:", ':') == 1;
  }
}
