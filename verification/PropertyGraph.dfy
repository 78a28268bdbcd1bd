/** The property graph's values and its simplest storage: two maps by ID. */
module PropertyGraph {
  import opened Results
  import opened Text

  /** What a property, a row column or a parameter may hold. */
  datatype Value =
    | Nil
    | Bool(b: bool)
    | Int(i: int)
    | Float(r: real)
    | Str(s: string)
    | List(elems: seq<Value>)
    | Map(fields: map<string, Value>)

  type Properties = map<string, Value>

  datatype Node = Node(id: string, lbl: string, props: Properties)

  datatype Edge = Edge(id: string, lbl: string, from: string, to: string, props: Properties)

  predicate NodeOk(n: Node) {
    Count(n.lbl, ':') == 0
  }

  /** Edge IDs are e:<label>:<suffix> with a colon-free label and suffix. */
  predicate EdgeOk(e: Edge) {
    Count(e.lbl, ':') == 0 && Count(e.id, ':') == 2
  }

  /** The in-memory storage: the reference every other storage must agree with. */
  datatype Memory = Memory(nodes: map<string, Node>, edges: map<string, Edge>) {

    ghost predicate Ok() {
      && (forall id | id in nodes :: nodes[id].id == id && NodeOk(nodes[id]))
      && (forall id | id in edges :: edges[id].id == id && EdgeOk(edges[id]))
    }

    function GetNode(id: string): Option<Node> {
      if id in nodes then Some(nodes[id]) else None
    }

    function GetEdge(id: string): Option<Edge> {
      if id in edges then Some(edges[id]) else None
    }

    function PutNode(n: Node): Memory {
      Memory(nodes[n.id := n], edges)
    }

    function PutEdge(e: Edge): Memory {
      Memory(nodes, edges[e.id := e])
    }

    function DeleteEdge(id: string): Memory {
      Memory(nodes, edges - {id})
    }

    function Touching(id: string): set<string> {
      set eid | eid in edges && (edges[eid].from == id || edges[eid].to == id)
    }

    function DeleteNode(id: string): Memory {
      Memory(nodes - {id}, edges - Touching(id))
    }

    function Labelled(lbl: string): set<string> {
      set id | id in nodes && nodes[id].lbl == lbl
    }

    function Leaving(id: string): set<string> {
      set eid | eid in edges && edges[eid].from == id
    }

    function Entering(id: string): set<string> {
      set eid | eid in edges && edges[eid].to == id
    }

    function EdgesLabelled(lbl: string): set<string> {
      set eid | eid in edges && edges[eid].lbl == lbl
    }

    /** Nodes of a label, in ascending ID order. */
    ghost function NodesByLabel(lbl: string): seq<Node> {
      NodesAt(Enumerate(Labelled(lbl)))
    }

    ghost function NodesAt(ids: seq<string>): (r: seq<Node>)
      requires forall id | id in ids :: id in nodes
      ensures |r| == |ids|
      ensures forall i | 0 <= i < |r| :: r[i] == nodes[ids[i]]
    {
      seq(|ids|, i requires 0 <= i < |ids| => nodes[ids[i]])
    }

    ghost function EdgesAt(ids: seq<string>): (r: seq<Edge>)
      requires forall id | id in ids :: id in edges
      ensures |r| == |ids|
      ensures forall i | 0 <= i < |r| :: r[i] == edges[ids[i]]
    {
      seq(|ids|, i requires 0 <= i < |ids| => edges[ids[i]])
    }

    /** Edges at a node: those leaving it in ascending ID order, then those entering it
        from elsewhere, so that a self-loop comes once. */
    ghost function EdgeIdsAt(id: string): seq<string> {
      Enumerate(Leaving(id)) + Enumerate(Entering(id) - Leaving(id))
    }

    /** Upserting keeps label and endpoints of an existing record and overrides
        its properties key by key. */
    function UpsertNode(id: string, lbl: string, props: Properties): Memory {
      PutNode(if id in nodes then nodes[id].(props := nodes[id].props + props) else Node(id, lbl, props))
    }

    function UpsertEdge(id: string, lbl: string, from: string, to: string, props: Properties): Memory {
      PutEdge(if id in edges then edges[id].(props := edges[id].props + props)
              else Edge(id, lbl, from, to, props))
    }
  }
}
