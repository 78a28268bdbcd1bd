/** Upserts as data, and the graph as a collection of cells that upserts override: when
    doing part of a group of upserts early changes nothing once the group is redone. */
module Upserts {
  import opened Results
  import opened Text
  import opened PropertyGraph

  datatype Upsert =
    | NodeUp(id: string, lbl: string, props: Properties)
    | EdgeUp(id: string, lbl: string, from: string, to: string, props: Properties)

  predicate UpsertOk(u: Upsert) {
    Count(u.lbl, ':') == 0 && (u.EdgeUp? ==> Count(u.id, ':') == 2)
  }

  function Apply(m: Memory, u: Upsert): Memory {
    match u
    case NodeUp(id, lbl, props) => m.UpsertNode(id, lbl, props)
    case EdgeUp(id, lbl, from, to, props) => m.UpsertEdge(id, lbl, from, to, props)
  }

  function Run(m: Memory, us: seq<Upsert>): Memory {
    if us == [] then m else Apply(Run(m, us[..|us| - 1]), us[|us| - 1])
  }

  lemma RunThen(m: Memory, us: seq<Upsert>, u: Upsert)
    ensures Run(m, us + [u]) == Apply(Run(m, us), u)
  {
    assert (us + [u])[..|us|] == us;
  }

  lemma {:induction false} RunConcat(m: Memory, a: seq<Upsert>, b: seq<Upsert>)
    ensures Run(m, a + b) == Run(Run(m, a), b)
  {
    if b == [] {
      assert a + b == a;
    } else {
      var front, last := b[..|b| - 1], b[|b| - 1];
      RunConcat(m, a, front);
      RunThen(m, a + front, last);
      assert a + b == a + front + [last];
    }
  }

  // ---------- cells ----------

  /** A node's label, an edge's label and endpoints, one property of either. */
  datatype Cell = NodeLabel(id: string) | NodeProp(id: string, key: string) | EdgeMeta(id: string) | EdgeProp(id: string, key: string)

  datatype Content = Label(lbl: string) | Meta(lbl: string, from: string, to: string) | Prop(value: Value)

  function Get(m: Memory, c: Cell): Option<Content> {
    match c
    case NodeLabel(id) => if id in m.nodes then Some(Label(m.nodes[id].lbl)) else None
    case NodeProp(id, key) => if id in m.nodes && key in m.nodes[id].props then Some(Prop(m.nodes[id].props[key])) else None
    case EdgeMeta(id) => if id in m.edges then Some(Meta(m.edges[id].lbl, m.edges[id].from, m.edges[id].to)) else None
    case EdgeProp(id, key) => if id in m.edges && key in m.edges[id].props then Some(Prop(m.edges[id].props[key])) else None
  }

  /** Records carry the ID they are stored under. */
  ghost predicate Keyed(m: Memory) {
    && (forall id | id in m.nodes :: m.nodes[id].id == id)
    && (forall id | id in m.edges :: m.edges[id].id == id)
  }

  ghost predicate SameCells(m: Memory, n: Memory) {
    forall c :: Get(m, c) == Get(n, c)
  }

  /** Graphs with the same cells are the same. */
  lemma CellsDetermine(m: Memory, n: Memory)
    requires Keyed(m) && Keyed(n) && SameCells(m, n)
    ensures m == n
  {
    SameNodes(m, n);
    SameEdges(m, n);
  }

  lemma SameNodes(m: Memory, n: Memory)
    requires Keyed(m) && Keyed(n) && SameCells(m, n)
    ensures m.nodes == n.nodes
  {
    forall id ensures id in m.nodes <==> id in n.nodes {
      assert Get(m, NodeLabel(id)) == Get(n, NodeLabel(id));
    }
    forall id | id in m.nodes ensures m.nodes[id] == n.nodes[id] {
      assert Get(m, NodeLabel(id)) == Get(n, NodeLabel(id));
      assert forall key :: Get(m, NodeProp(id, key)) == Get(n, NodeProp(id, key));
      SameProps(m.nodes[id].props, n.nodes[id].props, key => Get(m, NodeProp(id, key)));
    }
  }

  lemma SameEdges(m: Memory, n: Memory)
    requires Keyed(m) && Keyed(n) && SameCells(m, n)
    ensures m.edges == n.edges
  {
    forall id ensures id in m.edges <==> id in n.edges {
      assert Get(m, EdgeMeta(id)) == Get(n, EdgeMeta(id));
    }
    forall id | id in m.edges ensures m.edges[id] == n.edges[id] {
      assert Get(m, EdgeMeta(id)) == Get(n, EdgeMeta(id));
      assert forall key :: Get(m, EdgeProp(id, key)) == Get(n, EdgeProp(id, key));
      SameProps(m.edges[id].props, n.edges[id].props, key => Get(m, EdgeProp(id, key)));
    }
  }

  function Lookup(p: Properties, key: string): Option<Content> {
    if key in p then Some(Prop(p[key])) else None
  }

  lemma SameProps(p: Properties, q: Properties, look: string -> Option<Content>)
    requires forall key :: Lookup(p, key) == look(key) == Lookup(q, key)
    ensures p == q
  {
    forall key ensures key in p <==> key in q { assert Lookup(p, key) == look(key) == Lookup(q, key); }
    forall key | key in p ensures p[key] == q[key] { assert Lookup(p, key) == look(key) == Lookup(q, key); }
  }

  // ---------- what an upsert writes ----------

  /** What an upsert writes only when it creates the record. */
  function FixedContent(u: Upsert): Content {
    if u.NodeUp? then Label(u.lbl) else Meta(u.lbl, u.from, u.to)
  }

  predicate Writes(u: Upsert, c: Cell) {
    match c
    case NodeLabel(id) => u.NodeUp? && u.id == id
    case NodeProp(id, key) => u.NodeUp? && u.id == id && key in u.props
    case EdgeMeta(id) => u.EdgeUp? && u.id == id
    case EdgeProp(id, key) => u.EdgeUp? && u.id == id && key in u.props
  }

  predicate Fixed(c: Cell) {
    c.NodeLabel? || c.EdgeMeta?
  }

  /** No record of m is missing from n. */
  ghost predicate Grown(m: Memory, n: Memory) {
    m.nodes.Keys <= n.nodes.Keys && m.edges.Keys <= n.edges.Keys
  }

  /** Applying an upsert: a name stays once given, a property is overridden. */
  lemma ApplyCell(m: Memory, u: Upsert, c: Cell)
    requires Keyed(m)
    ensures Get(Apply(m, u), c) ==
      if !Writes(u, c) || (Fixed(c) && Get(m, c).Some?) then Get(m, c)
      else if Fixed(c) then Some(FixedContent(u)) else Some(Prop(u.props[c.key]))
    ensures Keyed(Apply(m, u)) && Grown(m, Apply(m, u))
  {
  }

  lemma GrownHas(m: Memory, n: Memory, c: Cell)
    requires Grown(m, n) && Fixed(c) && Get(m, c).Some?
    ensures Get(n, c).Some?
  {
  }

  lemma GrownFurther(m: Memory, n: Memory, k: Memory)
    requires Grown(m, n) && Grown(n, k)
    ensures Grown(m, k)
  {
  }

  // ---------- what a group writes ----------

  /** Some upsert of the group writes the cell. */
  predicate WritesAny(us: seq<Upsert>, c: Cell) {
    us != [] && (Writes(us[|us| - 1], c) || WritesAny(us[..|us| - 1], c))
  }

  /** The name the group gives: that of its first upsert of the record. */
  function First(us: seq<Upsert>, c: Cell): Content
    requires WritesAny(us, c)
  {
    var n := |us| - 1;
    if WritesAny(us[..n], c) then First(us[..n], c) else FixedContent(us[n])
  }

  /** The property the group leaves: its last write. */
  function Last(us: seq<Upsert>, c: Cell): Content
    requires !Fixed(c) && WritesAny(us, c)
  {
    var n := |us| - 1;
    if Writes(us[n], c) then Prop(us[n].props[c.key]) else Last(us[..n], c)
  }

  /** What a cell holds after the group, given what it held before. */
  function Outcome(us: seq<Upsert>, c: Cell, prior: Option<Content>): Option<Content> {
    if !WritesAny(us, c) || (Fixed(c) && prior.Some?) then prior
    else if Fixed(c) then Some(First(us, c)) else Some(Last(us, c))
  }

  /** Running a group: the first name given stays, the last property written stays. */
  lemma {:induction false} RunCell(m: Memory, us: seq<Upsert>, c: Cell)
    requires Keyed(m)
    ensures Get(Run(m, us), c) == Outcome(us, c, Get(m, c))
    ensures Keyed(Run(m, us)) && Grown(m, Run(m, us))
  {
    hide Writes, Get, Apply, Keyed, FixedContent, Grown;
    if us == [] {
      GrownSelf(m);
    } else {
      var front, u := us[..|us| - 1], us[|us| - 1];
      RunCell(m, front, c);
      ApplyCell(Run(m, front), u, c);
      GrownFurther(m, Run(m, front), Apply(Run(m, front), u));
    }
  }

  lemma GrownSelf(m: Memory)
    ensures Grown(m, m)
  {
  }

  lemma RunGrows(m: Memory, us: seq<Upsert>)
    requires Keyed(m)
    ensures Keyed(Run(m, us)) && Grown(m, Run(m, us))
  {
    hide Keyed, Grown;
    RunCell(m, us, NodeLabel(""));
  }

  /** A part of a group writes what the group writes, and names alike. */
  lemma {:induction false} PartWrites(part: seq<Upsert>, us: seq<Upsert>, c: Cell)
    requires part <= us && WritesAny(part, c)
    ensures WritesAny(us, c) && First(us, c) == First(part, c)
    decreases |us|
  {
    hide Writes, FixedContent;
    if part == us {
    } else {
      var front := us[..|us| - 1];
      assert part <= front;
      PartWrites(part, front, c);
    }
  }

  lemma {:induction false} WritesAt(us: seq<Upsert>, c: Cell, i: nat)
    requires i < |us| && Writes(us[i], c)
    ensures WritesAny(us, c)
  {
    hide Writes;
    if i < |us| - 1 { WritesAt(us[..|us| - 1], c, i); }
  }

  // ---------- redoing a group ----------

  /** The part and what is done in between give some new record different names. */
  ghost predicate Clash(m: Memory, part: seq<Upsert>, other: seq<Upsert>) {
    exists c :: ClashAt(m, part, other, c)
  }

  predicate ClashAt(m: Memory, part: seq<Upsert>, other: seq<Upsert>, c: Cell) {
    Fixed(c) && Get(m, c).None? && WritesAny(part, c) && WritesAny(other, c) && First(part, c) != First(other, c)
  }

  lemma RedoneCell(m: Memory, part: seq<Upsert>, other: seq<Upsert>, whole: seq<Upsert>, c: Cell)
    requires Keyed(m) && part <= whole
    ensures Get(Run(Run(Run(m, part), other), whole), c) == Get(Run(Run(m, other), whole), c) <==> !ClashAt(m, part, other, c)
  {
    hide WritesAny, First, Last, Get, Run, Keyed;
    RunCell(m, part, c);
    RunCell(m, other, c);
    RunCell(Run(m, part), other, c);
    RunCell(Run(m, other), whole, c);
    RunCell(Run(Run(m, part), other), whole, c);
    if WritesAny(part, c) { PartWrites(part, whole, c); }
  }

  /** Absorption, exactly: doing part of a group early, with something else in between,
      leaves no trace once the whole group is done if and only if the part and what is in
      between name no new record differently. */
  lemma RedoneIff(m: Memory, part: seq<Upsert>, other: seq<Upsert>, whole: seq<Upsert>)
    requires Keyed(m) && part <= whole
    ensures Run(Run(Run(m, part), other), whole) == Run(Run(m, other), whole) <==> !Clash(m, part, other)
  {
    hide ClashAt, Run, Get, Keyed;
    var redone, once := Run(Run(Run(m, part), other), whole), Run(Run(m, other), whole);
    RunGrows(m, part);
    RunGrows(m, other);
    RunGrows(Run(m, part), other);
    RunGrows(Run(Run(m, part), other), whole);
    RunGrows(Run(m, other), whole);
    if Clash(m, part, other) {
      var c :| ClashAt(m, part, other, c);
      RedoneCell(m, part, other, whole, c);
    } else {
      forall c ensures Get(redone, c) == Get(once, c) { RedoneCell(m, part, other, whole, c); }
      CellsDetermine(redone, once);
    }
  }

  lemma RunOne(m: Memory, u: Upsert)
    ensures Run(m, [u]) == Apply(m, u)
  {
    RunThen(m, [], u);
    assert [] + [u] == [u];
  }
}
