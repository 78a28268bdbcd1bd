/** Which cluster member owns which partition. */
module Partitioning {
  import opened Results
  import opened Text
  import opened Sorting
  import opened Arithmetic

  datatype NodeInfo = NodeInfo(name: string, addr: string, rpcPort: int, boltPort: int, httpPort: int)

  predicate NameLess(a: NodeInfo, b: NodeInfo) {
    Less(a.name, b.name)
  }

  const BY_NAME: (NodeInfo, NodeInfo) -> bool := (a, b) => NameLess(a, b)

  /** Node names are unique in a cluster. */
  ghost predicate UniqueNames(ms: seq<NodeInfo>) {
    forall i, j | 0 <= i < j < |ms| :: ms[i].name != ms[j].name
  }

  function RoundRobin(n: nat, order: seq<NodeInfo>): map<int, NodeInfo>
    requires order != []
  {
    map i: int | 0 <= i < n :: order[Slot(i, |order|)]
  }

  /** Round-robin over the members in name order. */
  function Assignment(n: nat, members: seq<NodeInfo>): (r: map<int, NodeInfo>) {
    if members == [] then map[] else RoundRobin(n, StableSort(members, BY_NAME))
  }

  /** FNV-1a of the agent ID, as any 32-bit value, reduced to a partition. */
  function Partition(hash: nat, numPartitions: int): (p: nat)
    ensures numPartitions > 0 ==> p < numPartitions
  {
    if numPartitions <= 0 then 0 else hash % numPartitions
  }

  class PartitionMap {
    const numPartitions: nat
    const strategy: string -> nat
    var owners: map<int, NodeInfo>

    constructor (n: int, hash: string -> nat)
      ensures numPartitions == (if n <= 0 then 1 else n) && strategy == hash && owners == map[]
    {
      numPartitions := if n <= 0 then 1 else n;
      strategy := hash;
      owners := map[];
    }

    method Rebalance(members: seq<NodeInfo>)
      modifies this
      ensures owners == Assignment(numPartitions, members)
    {
      owners := map[];
      if |members| == 0 { return; }
      var sorted := SortNodes(members);
      for i := 0 to numPartitions
        invariant owners == RoundRobin(i, sorted)
      {
        SlotIsMod(i, |sorted|);
        var owner := sorted[i % |sorted|];
        owners := owners[i := NodeInfo(owner.name, owner.addr, owner.rpcPort, owner.boltPort, owner.httpPort)];
      }
    }

    method Owner(agentID: string) returns (r: Option<NodeInfo>)
      ensures r == var p := Partition(strategy(agentID), numPartitions); if p in owners then Some(owners[p]) else None
    {
      var p := Partition(strategy(agentID), numPartitions);
      r := if p in owners then Some(owners[p]) else None;
    }

    method IsLocal(agentID: string, self: string) returns (b: bool)
      ensures b <==> var p := Partition(strategy(agentID), numPartitions); p in owners && owners[p].name == self
    {
      var owner := Owner(agentID);
      b := owner.Some? && owner.value.name == self;
    }

    /** The partitions of the named node, in increasing order. */
    method LocalPartitions(self: string) returns (ps: seq<int>)
      ensures forall i, j | 0 <= i < j < |ps| :: ps[i] < ps[j]
      ensures forall p :: p in ps <==> p in owners && owners[p].name == self
    {
      var found: seq<int> := [];
      var left := owners.Keys;
      while left != {}
        invariant left <= owners.Keys
        invariant forall p :: p in found <==> p in owners && p !in left && owners[p].name == self
        invariant forall i, j | 0 <= i < j < |found| :: found[i] != found[j]
      {
        ghost var _ := Pick(left);
        var p: int :| p in left;
        if owners[p].name == self {
          found := found + [p];
        }
        left := left - {p};
      }
      ps := SortInts(found);
    }

    /** The nodes owning at least one partition, each once, in name order. */
    method UniqueOwners() returns (r: seq<NodeInfo>)
      requires forall p, q | p in owners && q in owners && owners[p].name == owners[q].name :: owners[p] == owners[q]
      ensures forall i, j | 0 <= i < j < |r| :: NameLess(r[i], r[j])
      ensures forall m :: m in r <==> m in owners.Values
    {
      var seen: map<string, NodeInfo> := map[];
      var left := owners.Keys;
      while left != {}
        invariant left <= owners.Keys
        invariant forall name | name in seen :: seen[name].name == name && seen[name] in owners.Values
        invariant forall p | p in owners && p !in left :: owners[p].name in seen && seen[owners[p].name] == owners[p]
      {
        ghost var _ := Pick(left);
        var p: int :| p in left;
        seen := seen[owners[p].name := owners[p]];
        left := left - {p};
      }
      var found: seq<NodeInfo> := [];
      var names := seen.Keys;
      while names != {}
        invariant names <= seen.Keys
        invariant forall m :: m in found <==> m.name in seen && m.name !in names && seen[m.name] == m
        invariant UniqueNames(found)
      {
        var name :| name in names;
        found := found + [seen[name]];
        names := names - {name};
      }
      r := SortNodes(found);
      NameOrder(found);
      forall m ensures m in r <==> m in owners.Values {
        if m in owners.Values {
          var p := KeyOf(owners, m);
          assert seen[m.name] == m;
        }
      }
    }
  }

  method SortInts(xs: seq<int>) returns (r: seq<int>)
    requires forall i, j | 0 <= i < j < |xs| :: xs[i] != xs[j]
    ensures forall i, j | 0 <= i < j < |r| :: r[i] < r[j]
    ensures forall x :: x in r <==> x in xs
  {
    var a := new int[|xs|](i requires 0 <= i < |xs| => xs[i]);
    assert a[..] == xs;
    var less: (int, int) -> bool := (x, y) => x < y;
    SortInPlace(a, less);
    r := a[..];
    StableSortCorrect(xs, less) by {
      assert forall x, y :: Asymmetric(less, x, y);
      assert forall x, y, z :: Between(less, x, y, z);
    }
    SamePermutation(xs, r);
  }

  method SortNodes(xs: seq<NodeInfo>) returns (r: seq<NodeInfo>)
    ensures r == StableSort(xs, BY_NAME)
  {
    var a := new NodeInfo[|xs|](i requires 0 <= i < |xs| => xs[i]);
    assert a[..] == xs;
    SortInPlace(a, BY_NAME);
    r := a[..];
  }

  /** Rearranging keeps membership and distinctness. */
  lemma SamePermutation<T>(xs: seq<T>, ys: seq<T>)
    requires multiset(xs) == multiset(ys)
    ensures forall x :: x in ys <==> x in xs
    ensures (forall i, j | 0 <= i < j < |xs| :: xs[i] != xs[j]) ==> forall i, j | 0 <= i < j < |ys| :: ys[i] != ys[j]
  {
    forall x ensures x in ys <==> x in xs {
      assert x in ys <==> x in multiset(ys);
      assert x in xs <==> x in multiset(xs);
    }
    if forall i, j | 0 <= i < j < |xs| :: xs[i] != xs[j] {
      forall i, j | 0 <= i < j < |ys| ensures ys[i] != ys[j] {
        if ys[i] == ys[j] {
          TwiceCounts(ys, i, j);
          OnceCounts(xs, ys[i]);
        }
      }
    }
  }

  lemma TwiceCounts<T>(ys: seq<T>, i: nat, j: nat)
    requires i < j < |ys| && ys[i] == ys[j]
    ensures multiset(ys)[ys[i]] >= 2
  {
    assert ys == ys[..i] + [ys[i]] + ys[i + 1..j] + [ys[j]] + ys[j + 1..];
  }

  lemma {:induction false} OnceCounts<T>(xs: seq<T>, x: T)
    requires forall i, j | 0 <= i < j < |xs| :: xs[i] != xs[j]
    ensures multiset(xs)[x] <= 1
  {
    if xs != [] {
      assert xs == [xs[0]] + xs[1..];
      OnceCounts(xs[1..], x);
      if xs[0] == x {
        assert x !in xs[1..];
      }
    }
  }

  lemma ByNameIsWeak()
    ensures WeakOrder(BY_NAME)
  {
    forall a, b ensures Asymmetric(BY_NAME, a, b) {
      if NameLess(a, b) { LessAsymmetric(a.name, b.name); }
    }
    forall a, b, c ensures Between(BY_NAME, a, b, c) {
      LessTotal(a.name, b.name);
      if NameLess(b, a) && NameLess(a, c) { LessTransitive(b.name, a.name, c.name); }
    }
  }

  lemma NameOrder(ms: seq<NodeInfo>)
    requires UniqueNames(ms)
    ensures var r := StableSort(ms, BY_NAME);
            && (forall i, j | 0 <= i < j < |r| :: NameLess(r[i], r[j]))
            && (forall x :: x in r <==> x in ms)
            && UniqueNames(r)
  {
    var r := StableSort(ms, BY_NAME);
    ByNameIsWeak();
    StableSortCorrect(ms, BY_NAME);
    SamePermutation(ms, r);
    forall i, j | 0 <= i < j < |r| ensures NameLess(r[i], r[j]) && r[i].name != r[j].name {
      assert r[i] in ms && r[j] in ms && r[i] != r[j];
      LessTotal(r[i].name, r[j].name);
    }
  }

  function Names(ms: seq<NodeInfo>): (r: seq<string>)
    ensures |r| == |ms| && forall i | 0 <= i < |r| :: r[i] == ms[i].name
  {
    seq(|ms|, i requires 0 <= i < |ms| => ms[i].name)
  }

  /** Two name-ordered lists of the same nodes are the same list. */
  lemma NameOrderUnique(r: seq<NodeInfo>, t: seq<NodeInfo>)
    requires forall i, j | 0 <= i < j < |r| :: NameLess(r[i], r[j])
    requires forall i, j | 0 <= i < j < |t| :: NameLess(t[i], t[j])
    requires forall x :: x in r <==> x in t
    ensures r == t
  {
    forall n ensures n in Names(r) <==> n in Names(t) {
      if n in Names(r) {
        var i :| 0 <= i < |r| && r[i].name == n;
        assert r[i] in t;
        var j :| 0 <= j < |t| && t[j] == r[i];
        assert Names(t)[j] == n;
      }
      if n in Names(t) {
        var i :| 0 <= i < |t| && t[i].name == n;
        assert t[i] in r;
        var j :| 0 <= j < |r| && r[j] == t[i];
        assert Names(r)[j] == n;
      }
    }
    AscendingUnique(Names(r), Names(t));
    AscendingDistinct(Names(r));
    forall i | 0 <= i < |r| ensures r[i] == t[i] {
      assert t[i] in r;
      var j :| 0 <= j < |r| && r[j] == t[i];
      assert Names(r)[j] == Names(t)[i] == Names(r)[i];
    }
  }

  /** The assignment depends on who the members are, not on the order they are listed. */
  lemma AssignmentIgnoresOrder(n: nat, a: seq<NodeInfo>, b: seq<NodeInfo>)
    requires UniqueNames(a) && UniqueNames(b)
    requires forall x :: x in a <==> x in b
    ensures Assignment(n, a) == Assignment(n, b)
  {
    NameOrder(a);
    NameOrder(b);
    NameOrderUnique(StableSort(a, BY_NAME), StableSort(b, BY_NAME));
  }

  // ---------- loads ----------

  function Shares(n: nat, k: nat, j: nat): set<int>
    requires j < k
  {
    set i: int | 0 <= i < n && Slot(i, k) == j
  }

  lemma SharesStep(n: nat, k: nat, j: nat)
    requires j < k
    ensures Shares(n + 1, k, j) == if Slot(n, k) == j then Shares(n, k, j) + {n} else Shares(n, k, j)
  {
  }

  lemma {:induction false} ShareSize(n: nat, k: nat, j: nat)
    requires j < k
    ensures |Shares(n, k, j)| == n / k + (if j < n % k then 1 else 0)
  {
    if n == 0 {
      assert Shares(n, k, j) == {};
    } else {
      ShareSize(n - 1, k, j);
      DivModStep(n - 1, k);
      SlotIsMod(n - 1, k);
      SharesStep(n - 1, k, j);
    }
  }

  function OwnedBy(owners: map<int, NodeInfo>, name: string): set<int> {
    set p | p in owners && owners[p].name == name
  }

  /** Every partition has exactly one owner, drawn from the members; a member's load is
      the even share, rounded down or up. */
  lemma LoadsBalanced(n: nat, members: seq<NodeInfo>)
    requires UniqueNames(members) && members != []
    ensures var owners := Assignment(n, members);
            && (forall p: int :: p in owners <==> 0 <= p < n)
            && (forall p | p in owners :: owners[p] in members)
            && (forall m | m in members :: n / |members| <= |OwnedBy(owners, m.name)| <= n / |members| + 1)
  {
    hide StableSort;
    var owners, sorted, k := Assignment(n, members), StableSort(members, BY_NAME), |members|;
    NameOrder(members);
    forall p | p in owners ensures owners[p] in members {
      assert sorted[Slot(p, k)] in sorted;
    }
    forall m | m in members ensures n / k <= |OwnedBy(owners, m.name)| <= n / k + 1 {
      assert m in sorted;
      var j :| 0 <= j < |sorted| && sorted[j] == m;
      MemberLoad(n, sorted, j);
    }
  }

  lemma MemberLoad(n: nat, order: seq<NodeInfo>, j: nat)
    requires UniqueNames(order) && j < |order|
    ensures n / |order| <= |OwnedBy(RoundRobin(n, order), order[j].name)| <= n / |order| + 1
  {
    var owners, k := RoundRobin(n, order), |order|;
    forall p | 0 <= p < n ensures owners[p].name == order[j].name <==> Slot(p, k) == j {
    }
    assert OwnedBy(owners, order[j].name) == Shares(n, k, j);
    ShareSize(n, k, j);
  }

  /** An agent ID is local to exactly one member. */
  lemma OneLocalMember(n: nat, members: seq<NodeInfo>, hash: nat)
    requires UniqueNames(members) && members != [] && n > 0
    ensures var owners := Assignment(n, members);
            exists m :: m in members && OwnsHash(owners, n, hash, m.name)
                        && forall o | o in members && OwnsHash(owners, n, hash, o.name) :: o == m
  {
    var owners, p := Assignment(n, members), Partition(hash, n);
    LoadsBalanced(n, members);
    var m := owners[p];
    assert m in members && OwnsHash(owners, n, hash, m.name);
    forall o | o in members && OwnsHash(owners, n, hash, o.name) ensures o == m {
      var i :| 0 <= i < |members| && members[i] == o;
      var j :| 0 <= j < |members| && members[j] == m;
    }
  }

  predicate OwnsHash(owners: map<int, NodeInfo>, n: nat, hash: nat, name: string) {
    var p := Partition(hash, n);
    p in owners && owners[p].name == name
  }

  /** The members' partitions cover all partitions without overlap. */
  lemma LocalPartitionsCover(n: nat, members: seq<NodeInfo>)
    requires UniqueNames(members) && members != []
    ensures var owners := Assignment(n, members);
            && (forall p | p in owners :: exists m :: m in members && p in OwnedBy(owners, m.name))
            && (forall p: int :: p in owners <==> 0 <= p < n)
            && (forall i, j | 0 <= i < j < |members| :: OwnedBy(owners, members[i].name) !! OwnedBy(owners, members[j].name))
  {
    var owners := Assignment(n, members);
    LoadsBalanced(n, members);
    forall p | p in owners ensures exists m :: m in members && p in OwnedBy(owners, m.name) {
      assert owners[p] in members && p in OwnedBy(owners, owners[p].name);
    }
  }

  /** The owning nodes are the first min(members, partitions) in name order: every member
      is asked exactly when there are at least as many partitions as members. */
  lemma OwnersAreSmallestNames(n: nat, members: seq<NodeInfo>, r: seq<NodeInfo>)
    requires UniqueNames(members)
    requires forall i, j | 0 <= i < j < |r| :: NameLess(r[i], r[j])
    requires forall m :: m in r <==> m in Assignment(n, members).Values
    ensures r == StableSort(members, BY_NAME)[..if |members| <= n then |members| else n]
    ensures (forall m | m in members :: m in r) <==> |members| <= n
  {
    hide Assignment, StableSort;
    var sorted := StableSort(members, BY_NAME);
    var k := if |members| <= n then |members| else n;
    NameOrder(members);
    var t := sorted[..k];
    assert forall i, j | 0 <= i < j < |t| :: NameLess(t[i], t[j]);
    OwnerValues(n, members, k);
    NameOrderUnique(r, t);
    PrefixIsAll(sorted, k);
  }

  lemma OwnerValues(n: nat, members: seq<NodeInfo>, k: nat)
    requires k == if |members| <= n then |members| else n
    ensures forall m :: m in Assignment(n, members).Values <==> m in StableSort(members, BY_NAME)[..k]
  {
    forall m ensures m in Assignment(n, members).Values <==> m in StableSort(members, BY_NAME)[..k] {
      if members != [] { OwnersArePrefix(n, StableSort(members, BY_NAME), k, m); }
    }
  }

  lemma PrefixIsAll(order: seq<NodeInfo>, k: nat)
    requires k <= |order|
    requires forall i, j | 0 <= i < j < |order| :: NameLess(order[i], order[j])
    ensures (forall m | m in order :: m in order[..k]) <==> k == |order|
  {
    if k < |order| {
      NotInPrefix(order, k);
      assert order[k] in order;
    } else {
      assert order[..k] == order;
    }
  }

  lemma OwnersArePrefix(n: nat, order: seq<NodeInfo>, k: nat, m: NodeInfo)
    requires order != [] && k == if |order| <= n then |order| else n
    ensures m in RoundRobin(n, order).Values <==> m in order[..k]
  {
    var owners := RoundRobin(n, order);
    if m in owners.Values {
      var p := KeyOf(owners, m);
      assert order[..k][Slot(p, |order|)] == m;
    }
    if m in order[..k] {
      var i :| 0 <= i < k && order[..k][i] == m;
      assert Slot(i, |order|) == i;
      assert i in owners && owners[i] == m;
    }
  }

  lemma NotInPrefix(order: seq<NodeInfo>, n: nat)
    requires n < |order|
    requires forall i, j | 0 <= i < j < |order| :: NameLess(order[i], order[j])
    ensures order[n] !in order[..n]
  {
    forall i | 0 <= i < n ensures order[i] != order[n] {
      LessAsymmetric(order[i].name, order[n].name);
    }
  }
}
