/** The query router: which shards it asks, and what its answer means for the cluster. */
module Router {
  import opened Results
  import opened PropertyGraph
  import opened Planning
  import opened Evaluation
  import opened Execution
  import opened Storage
  import opened Sorting
  import opened Partitioning
  import opened FanOut
  import opened Ast
  import opened QueryText
  import Lexer
  import Parser

  ghost predicate ShardsValid(shards: map<string, BadgerStorage>)
    reads shards.Values
  {
    forall name | name in shards :: shards[name].Valid()
  }

  /** Two owners of one name are the same node, as any rebalanced map guarantees. */
  ghost predicate NamesIdentify(owners: map<int, NodeInfo>) {
    forall p, q | p in owners && q in owners && owners[p].name == owners[q].name :: owners[p] == owners[q]
  }

  /** A shard fails if the text does not plan, or if it is remote and down; any other answers
      with its rows. */
  ghost predicate Asked(plan: Result<Plan>, env: Env, stores: map<string, Memory>, self: string, name: string, down: set<string>, one: ShardResult)
    requires ReadsOnly(plan)
  {
    && (one.failed <==> plan.Err? || (name in down && name != self))
    && (!one.failed ==> name in stores && one.rs.Some? && one.rs.value.rows == Rows(plan.value, stores[name], env))
  }

  /** With at most one owner the local store answers, else the owners asked in order. */
  ghost predicate Routed(plan: Result<Plan>, env: Env, stores: map<string, Memory>, self: string, owners: seq<NodeInfo>, down: set<string>,
                         results: seq<ShardResult>, r: Result<ResultSet>)
    requires ReadsOnly(plan)
  {
    if |owners| <= 1 then
      self in stores && (r.Err? <==> plan.Err?) && (r.Ok? ==> r.value.rows == Rows(plan.value, stores[self], env))
    else
      && r == Merged(results) && |results| == |owners|
      && forall i | 0 <= i < |owners| :: Asked(plan, env, stores, self, owners[i].name, down, results[i])
  }

  /** Every owning node once, in name order. */
  ghost predicate InNameOrder(asked: seq<NodeInfo>, owners: map<int, NodeInfo>) {
    && (forall i, j | 0 <= i < j < |asked| :: NameLess(asked[i], asked[j]))
    && forall m :: m in asked <==> m in owners.Values
  }

  /** The router's answer: that of asking the owners of the map. */
  ghost predicate Routes(plan: Result<Plan>, env: Env, stores: map<string, Memory>, self: string, owners: map<int, NodeInfo>, down: set<string>,
                         r: Result<ResultSet>)
    requires ReadsOnly(plan)
  {
    exists asked, results :: InNameOrder(asked, owners) && Routed(plan, env, stores, self, asked, down, results, r)
  }

  class QueryRouter {
    const partitionMap: PartitionMap
    const self: string
    const shards: map<string, BadgerStorage>   // every member's store, the local one under self

    constructor (pm: PartitionMap, name: string, stores: map<string, BadgerStorage>)
      ensures partitionMap == pm && self == name && shards == stores
    {
      partitionMap, self, shards := pm, name, stores;
    }

    /** Sends a reading text to each distinct owner in name order, or just to the local store
        when there is at most one. A remote owner that is down contributes an error. */
    method Execute(text: string, cc: Lexer.CharClass, env: Env, down: set<string>) returns (r: Result<ResultSet>)
      requires cc.Ok() && ReadsOnly(Planned(text, cc)) && ShardsValid(shards) && self in shards
      requires NamesIdentify(partitionMap.owners)
      requires forall n | n in partitionMap.owners.Values :: n.name in shards
      ensures Routes(Planned(text, cc), env, Stores(), self, partitionMap.owners, down, r)
    {
      hide Rows, ColumnsOk, Merged, Planned;
      var asked := partitionMap.UniqueOwners();
      if |asked| <= 1 {
        r := QueryText.Execute(shards[self], text, cc, env);
        assert Routed(Planned(text, cc), env, Stores(), self, asked, down, [], r);
        return;
      }
      var collected: seq<ShardResult> := [];
      for i := 0 to |asked|
        invariant |collected| == i
        invariant forall j | 0 <= j < i :: Asked(Planned(text, cc), env, Stores(), self, asked[j].name, down, collected[j])
      {
        assert asked[i] in asked;
        var one := AskOwner(text, cc, env, down, asked[i].name);
        collected := collected + [one];
      }
      r := MergeResults(collected);
      assert Routed(Planned(text, cc), env, Stores(), self, asked, down, collected, r);
    }

    /** What every store holds. */
    ghost function Stores(): map<string, Memory>
      reads shards.Values
    {
      map name | name in shards :: shards[name].mem
    }

    method AskOwner(text: string, cc: Lexer.CharClass, env: Env, down: set<string>, name: string) returns (one: ShardResult)
      requires cc.Ok() && ReadsOnly(Planned(text, cc)) && ShardsValid(shards) && name in shards
      ensures Asked(Planned(text, cc), env, Stores(), self, name, down, one)
    {
      hide Rows, ColumnsOk, Planned;
      if name in down && name != self {
        return ShardResult(None, true);
      }
      var rs := QueryText.Execute(shards[name], text, cc, env);
      one := if rs.Ok? then ShardResult(Some(rs.value), false) else ShardResult(None, true);
    }
  }

  lemma RebalancedNamesIdentify(n: nat, members: seq<NodeInfo>)
    requires UniqueNames(members)
    ensures NamesIdentify(Assignment(n, members))
  {
    if members != [] {
      LoadsBalanced(n, members);
      var owners := Assignment(n, members);
      forall p, q | p in owners && q in owners && owners[p].name == owners[q].name ensures owners[p] == owners[q] {
        var i :| 0 <= i < |members| && members[i] == owners[p];
        var j :| 0 <= j < |members| && members[j] == owners[q];
      }
    }
  }

  // ---------- what the answer means ----------

  predicate StoresOf(members: seq<NodeInfo>, stores: map<string, Memory>) {
    forall m | m in members :: m.name in stores
  }

  function Shards(members: seq<NodeInfo>, stores: map<string, Memory>): seq<Memory>
    requires StoresOf(members, stores)
  {
    seq(|members|, i requires 0 <= i < |members| => assert members[i] in members; stores[members[i].name])
  }

  /** The shards whose names are among the given ones. */
  function ShardsIn(members: seq<NodeInfo>, stores: map<string, Memory>, names: set<string>): seq<Memory>
    requires StoresOf(members, stores)
  {
    if members == [] then []
    else (if members[0].name in names then [stores[members[0].name]] else []) + ShardsIn(members[1..], stores, names)
  }

  /** The other shards. */
  function ShardsOutside(members: seq<NodeInfo>, stores: map<string, Memory>, names: set<string>): seq<Memory>
    requires StoresOf(members, stores)
  {
    if members == [] then []
    else (if members[0].name in names then [] else [stores[members[0].name]]) + ShardsOutside(members[1..], stores, names)
  }

  /** The members whose rows reach the answer: the local one alone where at most one owner
      exists, else the owners that are local or not down. */
  function Reached(owners: seq<NodeInfo>, self: string, down: set<string>): set<string> {
    if |owners| <= 1 then {self} else set o | o in owners && (o.name == self || o.name !in down) :: o.name
  }

  lemma {:induction false} InAndOutside(p: Plan, members: seq<NodeInfo>, stores: map<string, Memory>, names: set<string>, env: Env)
    requires Reading(p) && StoresOf(members, stores)
    ensures RowSum(p, ShardsIn(members, stores, names), env) + RowSum(p, ShardsOutside(members, stores, names), env)
         == RowSum(p, Shards(members, stores), env)
  {
    hide Rows, RowSum;
    if members == [] {
      NoShards(p, env);
    } else {
      var first, name := stores[members[0].name], members[0].name;
      var x, y, all := ShardsIn(members[1..], stores, names), ShardsOutside(members[1..], stores, names), Shards(members[1..], stores);
      InAndOutside(p, members[1..], stores, names, env);
      assert Shards(members, stores) == [first] + all;
      RowSumCons(p, first, all, env);
      RowSumCons(p, first, x, env);
      RowSumCons(p, first, y, env);
      FirstEither(members, stores, names);
      Regroup(multiset(Rows(p, first, env)), RowSum(p, x, env), RowSum(p, y, env));
    }
  }

  lemma NoShards(p: Plan, env: Env)
    requires Reading(p)
    ensures RowSum(p, [], env) == multiset{}
  {
  }

  lemma FirstEither(members: seq<NodeInfo>, stores: map<string, Memory>, names: set<string>)
    requires members != [] && StoresOf(members, stores)
    ensures var first, x, y := stores[members[0].name], ShardsIn(members[1..], stores, names), ShardsOutside(members[1..], stores, names);
            if members[0].name in names
            then ShardsIn(members, stores, names) == [first] + x && ShardsOutside(members, stores, names) == y
            else ShardsIn(members, stores, names) == x && ShardsOutside(members, stores, names) == [first] + y
  {
  }

  lemma {:induction false} InConcat(a: seq<NodeInfo>, b: seq<NodeInfo>, stores: map<string, Memory>, names: set<string>)
    requires StoresOf(a, stores) && StoresOf(b, stores) && StoresOf(a + b, stores)
    ensures ShardsIn(a + b, stores, names) == ShardsIn(a, stores, names) + ShardsIn(b, stores, names)
  {
    if a == [] {
      assert a + b == b;
    } else {
      assert (a + b)[1..] == a[1..] + b;
      InConcat(a[1..], b, stores, names);
    }
  }

  lemma {:induction false} NoneIn(members: seq<NodeInfo>, stores: map<string, Memory>, names: set<string>)
    requires StoresOf(members, stores) && forall m | m in members :: m.name !in names
    ensures ShardsIn(members, stores, names) == []
  {
    if members != [] { NoneIn(members[1..], stores, names); }
  }

  lemma {:induction false} OneIn(members: seq<NodeInfo>, stores: map<string, Memory>, name: string)
    requires StoresOf(members, stores) && UniqueNames(members) && exists m :: m in members && m.name == name
    ensures name in stores && ShardsIn(members, stores, {name}) == [stores[name]]
  {
    if members[0].name == name {
      assert forall m | m in members[1..] :: m.name != name;
      NoneIn(members[1..], stores, {name});
    } else {
      OneIn(members[1..], stores, name);
    }
  }

  /** The asked shards that do not fail are those reached. */
  lemma {:induction false} SurvivorsReached(owners: seq<NodeInfo>, stores: map<string, Memory>, results: seq<ShardResult>, names: set<string>)
    requires StoresOf(owners, stores) && |results| == |owners|
    requires forall i | 0 <= i < |owners| :: results[i].failed <==> owners[i].name !in names
    ensures Surviving(Shards(owners, stores), results) == ShardsIn(owners, stores, names)
    decreases |owners|
  {
    if owners != [] {
      SurvivorsReached(owners[1..], stores, results[1..], names);
      assert Shards(owners, stores)[1..] == Shards(owners[1..], stores);
      assert Shards(owners, stores)[0] == stores[owners[0].name];
    }
  }

  lemma AllCollected(p: Plan, env: Env, owners: seq<NodeInfo>, stores: map<string, Memory>, self: string, down: set<string>, results: seq<ShardResult>)
    requires Reading(p) && StoresOf(owners, stores) && |results| == |owners|
    requires forall i | 0 <= i < |owners| :: Asked(Ok(p), env, stores, self, owners[i].name, down, results[i])
    ensures Collected(p, Shards(owners, stores), env, results)
  {
    hide Rows;
  }

  /** What the asked owners answer together. */
  lemma AskedRows(p: Plan, env: Env, owners: seq<NodeInfo>, rest: seq<NodeInfo>, stores: map<string, Memory>, self: string, down: set<string>,
                  results: seq<ShardResult>, r: Result<ResultSet>)
    requires Reading(p) && StoresOf(owners + rest, stores) && UniqueNames(owners + rest) && |owners| > 1
    requires Routed(Ok(p), env, stores, self, owners, down, results, r)
    ensures r.Err? <==> Reached(owners, self, down) == {}
    ensures r.Ok? ==> multiset(r.value.rows) == RowSum(p, ShardsIn(owners + rest, stores, Reached(owners, self, down)), env)
  {
    hide Rows, Merged, RowSum, ShardsIn, Surviving, Collected, Reached, Shards, ValidResults;
    var names := Reached(owners, self, down);
    assert StoresOf(owners, stores) && StoresOf(rest, stores) by {
      assert forall m | m in owners :: m in owners + rest;
      assert forall m | m in rest :: m in owners + rest;
    }
    ReachedByName(owners, rest, self, down);
    forall i | 0 <= i < |owners| ensures results[i].failed <==> owners[i].name !in names {
      assert owners[i] in owners && Asked(Ok(p), env, stores, self, owners[i].name, down, results[i]);
    }
    SurvivorsReached(owners, stores, results, names);
    AllCollected(p, env, owners, stores, self, down, results);
    MergedRows(p, Shards(owners, stores), env, results);
    SomeValid(results);
    MergedShape(results);
    InConcat(owners, rest, stores, names);
    NoneIn(rest, stores, names);
    assert ShardsIn(owners, stores, names) + [] == ShardsIn(owners, stores, names);
    AllFailed(p, env, owners, stores, self, down, results);
  }

  lemma ReachedByName(owners: seq<NodeInfo>, rest: seq<NodeInfo>, self: string, down: set<string>)
    requires UniqueNames(owners + rest) && |owners| > 1
    ensures forall o | o in owners :: o.name in Reached(owners, self, down) <==> (o.name == self || o.name !in down)
    ensures forall m | m in rest :: m.name !in Reached(owners, self, down)
  {
    var all := owners + rest;
    forall m | m in rest ensures m.name !in Reached(owners, self, down) {
      var j :| 0 <= j < |rest| && rest[j] == m;
      forall o | o in owners ensures o.name != m.name {
        var i :| 0 <= i < |owners| && owners[i] == o;
        assert all[i] == o && all[|owners| + j] == m;
      }
    }
  }

  lemma AllFailed(p: Plan, env: Env, owners: seq<NodeInfo>, stores: map<string, Memory>, self: string, down: set<string>, results: seq<ShardResult>)
    requires Reading(p) && |results| == |owners| > 1
    requires forall i | 0 <= i < |owners| :: Asked(Ok(p), env, stores, self, owners[i].name, down, results[i])
    ensures (forall i | 0 <= i < |results| :: results[i].failed) <==> Reached(owners, self, down) == {}
  {
    hide Rows;
    if i :| 0 <= i < |results| && !results[i].failed {
      assert owners[i].name in Reached(owners, self, down);
    } else {
      forall o | o in owners ensures o.name in down && o.name != self {
        var i :| 0 <= i < |owners| && owners[i] == o;
        assert results[i].failed;
      }
    }
  }

  /** The first min(members, partitions) members in name order. */
  function Owners(n: nat, members: seq<NodeInfo>): seq<NodeInfo> {
    StableSort(members, BY_NAME)[..if |members| <= n then |members| else n]
  }

  /** What a router over a rebalanced map answers: the rows of the whole sharded graph,
      short of exactly those of the members it does not reach; it fails only where it asks
      several owners and reaches none. */
  lemma ClusterMeaning(n: nat, members: seq<NodeInfo>, p: Plan, env: Env, stores: map<string, Memory>, self: string, down: set<string>,
                       r: Result<ResultSet>)
    requires Reading(p) && Splittable(p) && env.Ok()
    requires UniqueNames(members) && exists m :: m in members && m.name == self
    requires StoresOf(StableSort(members, BY_NAME), stores) && Sharded(Shards(StableSort(members, BY_NAME), stores))
    requires Routes(Ok(p), env, stores, self, Assignment(n, members), down, r)
    ensures var owners, sorted := Owners(n, members), StableSort(members, BY_NAME);
            var missing := RowSum(p, ShardsOutside(sorted, stores, Reached(owners, self, down)), env);
            && (r.Err? <==> |owners| > 1 && Reached(owners, self, down) == {})
            && (r.Ok? ==> multiset(r.value.rows) + missing == multiset(Rows(p, Whole(Shards(sorted, stores)), env)))
    ensures |members| <= n ==>
              r.Ok? && forall m | m in members :: m.name in Reached(Owners(n, members), self, down) <==> m.name == self || m.name !in down
  {
    hide Rows, RowSum, StableSort, Assignment, Splittable, Sharded, Whole, ShardsIn, ShardsOutside, Routed, Reached, NameLess, Shards, Owners;
    var sorted, owners := StableSort(members, BY_NAME), Owners(n, members);
    var names := Reached(owners, self, down);
    var asked, results :| InNameOrder(asked, Assignment(n, members)) && Routed(Ok(p), env, stores, self, asked, down, results, r);
    AskedAre(n, members, asked);
    NameOrder(members);
    SplittableSums(p, Shards(sorted, stores), env);
    InAndOutside(p, sorted, stores, names, env);
    if |owners| <= 1 {
      LocalRows(p, env, owners, sorted, stores, self, down, results, r);
    } else {
      var rest := sorted[|owners|..];
      assert sorted == owners + rest;
      AskedRows(p, env, owners, rest, stores, self, down, results, r);
    }
    if |members| <= n { EveryMemberIsAsked(n, members, self, down); }
  }

  lemma AskedAre(n: nat, members: seq<NodeInfo>, asked: seq<NodeInfo>)
    requires UniqueNames(members) && InNameOrder(asked, Assignment(n, members))
    ensures asked == Owners(n, members) <= StableSort(members, BY_NAME)
  {
    hide StableSort, Assignment, NameLess;
    OwnersAreSmallestNames(n, members, asked);
  }

  /** With at most one owner the local store answers alone. */
  lemma LocalRows(p: Plan, env: Env, owners: seq<NodeInfo>, members: seq<NodeInfo>, stores: map<string, Memory>, self: string, down: set<string>,
                  results: seq<ShardResult>, r: Result<ResultSet>)
    requires Reading(p) && StoresOf(members, stores) && UniqueNames(members) && exists m :: m in members && m.name == self
    requires |owners| <= 1 && Routed(Ok(p), env, stores, self, owners, down, results, r)
    ensures r.Ok? && multiset(r.value.rows) == RowSum(p, ShardsIn(members, stores, Reached(owners, self, down)), env)
  {
    hide Rows, RowSum, ShardsIn;
    OneIn(members, stores, self);
    RowSumOne(p, stores[self], env);
  }

  lemma RowSumOne(p: Plan, m: Memory, env: Env)
    requires Reading(p)
    ensures RowSum(p, [m], env) == multiset(Rows(p, m, env))
  {
    RowSumCons(p, m, [], env);
    assert [m] + [] == [m];
  }

  /** With no more members than partitions, all members but the remote ones that are down
      are reached. */
  lemma EveryMemberIsAsked(n: nat, members: seq<NodeInfo>, self: string, down: set<string>)
    requires UniqueNames(members) && |members| <= n && exists m :: m in members && m.name == self
    ensures forall m | m in members :: m.name in Reached(Owners(n, members), self, down) <==> m.name == self || m.name !in down
    ensures self in Reached(Owners(n, members), self, down)
  {
    hide StableSort;
    NameOrder(members);
    assert StableSort(members, BY_NAME)[..|members|] == StableSort(members, BY_NAME);
    assert forall m :: m in Owners(n, members) <==> m in members;
  }

  // ---------- from the text on ----------

  /** A text that does not parse or plan fails, whoever is asked. */
  lemma UnplannedFails(env: Env, stores: map<string, Memory>, self: string, owners: map<int, NodeInfo>, down: set<string>, r: Result<ResultSet>)
    requires Routes(Err, env, stores, self, owners, down, r)
    ensures r.Err?
  {
    hide InNameOrder, Merged;
    var asked: seq<NodeInfo>, results: seq<ShardResult> :| InNameOrder(asked, owners) && Routed(Err, env, stores, self, asked, down, results, r);
    if |asked| > 1 {
      forall i | 0 <= i < |results| ensures results[i].failed {
        assert Asked(Err, env, stores, self, asked[i].name, down, results[i]);
      }
      SomeValid(results);
      MergedShape(results);
    }
  }

  /** From a query's text to the cluster's answer: a text that parses to MATCH, WHEREs and a
      RETURN that does not sort, slice or count answers over exactly the walks of the whole
      sharded graph, short of exactly the rows of members that are not reached. */
  lemma ClusterAnswersText(text: string, before: seq<Clause>, patterns: seq<Pattern>, wheres: seq<Expr>, ret: Clause, cc: Lexer.CharClass,
                           n: nat, members: seq<NodeInfo>, env: Env, stores: map<string, Memory>, self: string, down: set<string>, r: Result<ResultSet>)
    requires env.Ok() && cc.Ok() && Parser.ParseText(text, cc) == Ok(Query(before, patterns, wheres, ret))
    requires ClausesOk(before) && PlanClauses(None, before).Ok?
    requires ret.ReturnClause? && ret.orderBy == [] && ret.limit.None? && ret.skip.None? && CountColumn(ret.items).None?
    requires UniqueNames(members) && exists m :: m in members && m.name == self
    requires StoresOf(StableSort(members, BY_NAME), stores) && Sharded(Shards(StableSort(members, BY_NAME), stores))
    requires ReadsOnly(Planned(text, cc)) && Routes(Planned(text, cc), env, stores, self, Assignment(n, members), down, r)
    ensures var owners, sorted := Owners(n, members), StableSort(members, BY_NAME);
            var whole := Whole(Shards(sorted, stores));
            && Answered(Planned(text, cc), patterns, wheres, ret, whole, env)
            && (r.Err? <==> |owners| > 1 && Reached(owners, self, down) == {})
            && var plan := Planned(text, cc).value;
            var missing := RowSum(plan, ShardsOutside(sorted, stores, Reached(owners, self, down)), env);
            (r.Ok? ==> multiset(r.value.rows) + missing == multiset(Rows(plan, whole, env)))
  {
    hide Parser.ParseText, Rows, RowSum, StableSort, Assignment, Splittable, Whole, ShardsOutside, Reached, Shards, Owners, Answered, PlanClauses, PlanStatement,
      Routes, WhereClauses, UniqueNames;
    ParsedQuery(text, before, patterns, wheres, ret, cc);
    PlannedSplittable(before, patterns, wheres, ret);
    WholeOk(Shards(StableSort(members, BY_NAME), stores));
    TextMeaning(text, before, patterns, wheres, ret, cc, Whole(Shards(StableSort(members, BY_NAME), stores)), env);
    ClusterMeaning(n, members, Planned(text, cc).value, env, stores, self, down, r);
  }

  lemma WholeOk(ms: seq<Memory>)
    requires Sharded(ms)
    ensures Whole(ms).Ok()
  {
    WholeApart(Memory(map[], map[]), ms);
  }
}
