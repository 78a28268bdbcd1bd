/** The ingest processor: polling every topic-partition, record by record with a commit
    after each; its polls are runs of the system, and they drain what waits. */
module Processor {
  import opened Results
  import opened Text
  import opened PropertyGraph
  import opened NodeIds
  import opened Envelopes
  import opened Upserts
  import opened Handlers
  import opened RecordEffects
  import opened Checkpoints
  import opened IngestSystem
  import opened Reader
  import opened Runs
  import GraphEngine

  // ---------- what a poll does ----------

  ghost function PollOne(m: Memory, tp: TopicPartition, log: seq<Record>, cfg: Config): Memory {
    var checkpoint := CheckpointAt(m, cfg.namespace, tp);
    if checkpoint.None? then m else Replay(m, ReadFrom(log, checkpoint.value, cfg.batchSize), cfg)
  }

  ghost function PollAll(m: Memory, tps: seq<TopicPartition>, records: map<string, seq<Record>>, cfg: Config): Memory {
    if tps == [] then m
    else
      var tp := tps[|tps| - 1];
      PollOne(PollAll(m, tps[..|tps| - 1], records, cfg), tp, LogIn(records, tp), cfg)
  }

  class Processor {
    const reader: MemoryReader
    const checkpoint: CheckpointStore
    const g: GraphEngine.Graph
    const cfg: Config

    constructor (r: MemoryReader, graph: GraphEngine.Graph, config: Config)
      ensures reader == r && g == graph && cfg == config && checkpoint.g == graph && checkpoint.namespace == config.namespace
    {
      reader, g, cfg := r, graph, config;
      checkpoint := new CheckpointStore(graph, config.namespace);
    }

    ghost predicate Valid()
      reads this, reader, g, g.storage, checkpoint
    {
      checkpoint.g == g && checkpoint.namespace == cfg.namespace && g.storage.Valid() && reader.Valid() && HashOk(cfg.hash)
    }

    /** One poll; the list tells in which order the topic-partitions were taken. */
    method Poll() returns (tps: seq<TopicPartition>)
      requires Valid()
      modifies g.storage
      ensures Valid()
      ensures forall tp :: tp in tps <==> reader.Log(tp) != []
      ensures forall i, j | 0 <= i < j < |tps| :: tps[i] != tps[j]
      ensures g.storage.mem == PollAll(old(g.storage.mem), tps, reader.records, cfg)
    {
      hide Replay, ReadFrom, CheckpointAt, LogIn;
      tps := reader.ListTopicPartitions();
      for i := 0 to |tps|
        invariant Valid() && g.storage.mem == PollAll(old(g.storage.mem), tps[..i], reader.records, cfg)
      {
        assert tps[i] in tps;
        assert tps[..i + 1][..i] == tps[..i];
        PollPartition(tps[i]);
      }
      assert tps[..|tps|] == tps;
    }

    method PollPartition(tp: TopicPartition)
      requires Valid() && MIN_INT32 <= tp.partition <= MAX_INT32
      modifies g.storage
      ensures Valid() && g.storage.mem == PollOne(old(g.storage.mem), tp, reader.Log(tp), cfg)
    {
      hide Replay, ReadFrom, CheckpointAt, LogIn;
      var after := checkpoint.Load(tp);
      if after.None? { return; }
      var records := reader.ReadRecords(tp, after.value, cfg.batchSize);
      ProcessEach(records);
    }

    /** Processes and commits: a record that fails is skipped, its offset is not. */
    method ProcessEach(records: seq<Record>)
      requires Valid()
      modifies g.storage
      ensures Valid() && g.storage.mem == Replay(old(g.storage.mem), records, cfg)
    {
      hide Ups, CommitUp, Apply;
      for i := 0 to |records|
        invariant Valid() && g.storage.mem == Replay(old(g.storage.mem), records[..i], cfg)
      {
        assert records[..i + 1][..i] == records[..i];
        ghost var before := g.storage.mem;
        var _ := ProcessRecord(g, records[i], cfg.hash);
        checkpoint.Commit(records[i].source);
        RunThen(before, Ups(records[i], before, cfg.hash), CommitUp(cfg.namespace, records[i].source));
      }
      assert records[..|records|] == records;
    }
  }

  // ---------- a poll is a run ----------

  /** Polling a topic-partition is a run of the system without a crash. */
  lemma PollIsRun(s: System, tp: TopicPartition, cfg: Config) returns (events: seq<Event>, t: System)
    requires s.work.Idle? && tp in s.logs && Increasing(s.logs[tp])
    ensures Leads(s, events, t, cfg) && Calm(events)
    ensures t.mem == PollOne(s.mem, tp, s.logs[tp], cfg) && t.logs == s.logs && t.work.Idle?
  {
    hide CheckpointAt, Replay, Leads;
    var checkpoint := CheckpointAt(s.mem, cfg.namespace, tp);
    if checkpoint.None? {
      events, t := [], s;
      assert Leads(s, [], s, cfg) by { LeadsNowhere(s, cfg); }
    } else {
      ReadsTheBatch(s.logs[tp], checkpoint.value, cfg.batchSize);
      var started := Do(s, Start(tp), cfg);
      LeadsOne(s, Start(tp), cfg);
      var rest;
      rest, t := BatchRun(started, cfg);
      events := [Start(tp)] + rest;
      LeadsOn(s, [Start(tp)], started, rest, t, cfg);
    }
  }

  // ---------- polls drain ----------

  ghost predicate OffsetsOk(recs: seq<Record>, tp: TopicPartition) {
    forall r | r in recs :: r.Tp() == tp && MIN_INT64 <= r.source.offset <= MAX_INT64
  }

  lemma {:induction false} GroupSpares(m: Memory, us: seq<Upsert>, rec: Record, n: Memory, tp: TopicPartition, cfg: Config)
    requires Keyed(m) && AllExpected(us, rec, n)
    ensures Keyed(Run(m, us)) && CheckpointAt(Run(m, us), cfg.namespace, tp) == CheckpointAt(m, cfg.namespace, tp)
    decreases |us|
  {
    hide Expected, CheckpointAt, Apply, Keyed;
    if us != [] {
      var front, u := us[..|us| - 1], us[|us| - 1];
      GroupSpares(m, front, rec, n, tp, cfg);
      RecordsSpareLoads(Run(m, front), u, rec, n, cfg.namespace, tp);
      StillKeyed(Run(m, front), u);
    }
  }

  lemma StillKeyed(m: Memory, u: Upsert)
    requires Keyed(m)
    ensures Keyed(Apply(m, u))
  {
  }

  /** Processing a record moves the checkpoint of its topic-partition, and no other. */
  lemma RecordMoves(m: Memory, rec: Record, tp: TopicPartition, cfg: Config)
    requires Keyed(m) && MIN_INT64 <= rec.source.offset <= MAX_INT64
    ensures Keyed(Run(m, Full(rec, m, cfg)))
    ensures CheckpointAt(Run(m, Full(rec, m, cfg)), cfg.namespace, tp)
         == if tp == rec.Tp() then Some(rec.source.offset) else CheckpointAt(m, cfg.namespace, tp)
  {
    hide Ups, CheckpointAt, Apply, Keyed, CommitUp, Run;
    var us := Ups(rec, m, cfg.hash);
    UpsExpected(rec, m, cfg.hash);
    GroupSpares(m, us, rec, m, tp, cfg);
    CommitLoads(Run(m, us), cfg.namespace, rec.source, tp);
    StillKeyed(Run(m, us), CommitUp(cfg.namespace, rec.source));
    RunThen(m, us, CommitUp(cfg.namespace, rec.source));
  }

  lemma {:induction false} ReplayMoves(m: Memory, recs: seq<Record>, own: TopicPartition, tp: TopicPartition, cfg: Config)
    requires Keyed(m) && OffsetsOk(recs, own)
    ensures Keyed(Replay(m, recs, cfg))
    ensures CheckpointAt(Replay(m, recs, cfg), cfg.namespace, tp)
         == if tp == own && recs != [] then Some(recs[|recs| - 1].source.offset) else CheckpointAt(m, cfg.namespace, tp)
    decreases |recs|
  {
    hide CheckpointAt, Keyed, Full, Run;
    if recs != [] {
      var front, rec := recs[..|recs| - 1], recs[|recs| - 1];
      assert rec in recs;
      ReplayMoves(m, front, own, tp, cfg);
      RecordMoves(Replay(m, front, cfg), rec, tp, cfg);
    }
  }

  /** What is left after taking up to a limit. */
  function Rest(n: nat, limit: nat): nat {
    if n <= limit then 0 else n - limit
  }

  ghost function WaitingAt(m: Memory, tp: TopicPartition, log: seq<Record>, cfg: Config): nat {
    |Waiting(log, CheckpointAt(m, cfg.namespace, tp))|
  }

  lemma BatchDrains(log: seq<Record>, checkpoint: int, limit: int)
    requires Increasing(log)
    ensures var batch := BatchOf(Waiting(log, Some(checkpoint)), limit);
            && (batch == [] ==> Waiting(log, Some(checkpoint)) == [])
            && (batch != [] ==> |Waiting(log, Some(batch[|batch| - 1].source.offset))| == Rest(|Waiting(log, Some(checkpoint))|, BatchLimit(limit)))
  {
    var waiting := Waiting(log, Some(checkpoint));
    var batch := BatchOf(waiting, limit);
    if batch != [] {
      var k := Below(log, checkpoint) + |batch|;
      assert batch[|batch| - 1] == waiting[|batch| - 1] == log[k - 1];
      BelowIs(log, log[k - 1].source.offset, k);
    }
  }

  lemma PollOneDrains(m: Memory, own: TopicPartition, tp: TopicPartition, log: seq<Record>, other: seq<Record>, cfg: Config)
    requires Keyed(m) && Increasing(log) && OffsetsOk(log, own) && CheckpointAt(m, cfg.namespace, tp).Some?
    requires tp == own ==> other == log
    ensures var n := PollOne(m, own, log, cfg);
            && Keyed(n) && CheckpointAt(n, cfg.namespace, tp).Some?
            && WaitingAt(n, tp, other, cfg)
               == if tp == own then Rest(WaitingAt(m, tp, other, cfg), BatchLimit(cfg.batchSize)) else WaitingAt(m, tp, other, cfg)
  {
    hide CheckpointAt, Keyed, Replay, Waiting, Increasing;
    var checkpoint := CheckpointAt(m, cfg.namespace, own);
    if checkpoint.Some? {
      var batch := BatchOf(Waiting(log, checkpoint), cfg.batchSize);
      ReadsTheBatch(log, checkpoint.value, cfg.batchSize);
      BatchMembers(log, checkpoint, batch, own);
      ReplayMoves(m, batch, own, tp, cfg);
      BatchDrains(log, checkpoint.value, cfg.batchSize);
    }
  }

  lemma BatchMembers(log: seq<Record>, checkpoint: Option<int>, batch: seq<Record>, tp: TopicPartition)
    requires OffsetsOk(log, tp) && batch <= Waiting(log, checkpoint)
    ensures OffsetsOk(batch, tp)
  {
    forall r | r in batch ensures r in log {
      var i :| 0 <= i < |batch| && batch[i] == r;
      assert Waiting(log, checkpoint)[i] == r;
    }
  }

  ghost predicate StoreOk(records: map<string, seq<Record>>) {
    RecordsOk(records) && forall tp :: Increasing(LogIn(records, tp)) && OffsetsOk(LogIn(records, tp), tp)
  }

  predicate Distinct(tps: seq<TopicPartition>) {
    forall i, j | 0 <= i < j < |tps| :: tps[i] != tps[j]
  }

  /** A poll takes up to a batch from every listed topic-partition. */
  lemma {:induction false} PollDrains(m: Memory, tps: seq<TopicPartition>, tp: TopicPartition, records: map<string, seq<Record>>, cfg: Config)
    requires Keyed(m) && StoreOk(records) && Distinct(tps) && CheckpointAt(m, cfg.namespace, tp).Some?
    ensures var n := PollAll(m, tps, records, cfg);
            && Keyed(n) && CheckpointAt(n, cfg.namespace, tp).Some?
            && WaitingAt(n, tp, LogIn(records, tp), cfg)
               == if tp in tps then Rest(WaitingAt(m, tp, LogIn(records, tp), cfg), BatchLimit(cfg.batchSize))
                  else WaitingAt(m, tp, LogIn(records, tp), cfg)
    decreases |tps|
  {
    hide CheckpointAt, Keyed, PollOne, WaitingAt, LogIn, Increasing, OffsetsOk, RecordsOk;
    if tps != [] {
      var front, last := tps[..|tps| - 1], tps[|tps| - 1];
      PollDrains(m, front, tp, records, cfg);
      assert Increasing(LogIn(records, last)) && OffsetsOk(LogIn(records, last), last);
      PollOneDrains(PollAll(m, front, records, cfg), last, tp, LogIn(records, last), LogIn(records, tp), cfg);
      assert tps == front + [last];
      if tp == last { assert tp !in front; }
    }
  }

  ghost function Polls(m: Memory, rounds: seq<seq<TopicPartition>>, records: map<string, seq<Record>>, cfg: Config): Memory {
    if rounds == [] then m else PollAll(Polls(m, rounds[..|rounds| - 1], records, cfg), rounds[|rounds| - 1], records, cfg)
  }

  /** What n batches hold. */
  function Batches(n: nat, limit: nat): nat {
    if n == 0 then 0 else Batches(n - 1, limit) + limit
  }

  lemma {:induction false} BatchesMultiply(n: nat, limit: nat)
    ensures n * limit == Batches(n, limit)
  {
    if n > 0 {
      BatchesMultiply(n - 1, limit);
      assert n * limit == (n - 1) * limit + limit;
    }
  }

  lemma {:induction false} RoundsDrain(m: Memory, rounds: seq<seq<TopicPartition>>, tp: TopicPartition, records: map<string, seq<Record>>, cfg: Config)
    requires Keyed(m) && StoreOk(records) && CheckpointAt(m, cfg.namespace, tp).Some?
    requires forall r | r in rounds :: Distinct(r) && tp in r
    ensures var n, k := Polls(m, rounds, records, cfg), WaitingAt(m, tp, LogIn(records, tp), cfg);
            && Keyed(n) && CheckpointAt(n, cfg.namespace, tp).Some?
            && WaitingAt(n, tp, LogIn(records, tp), cfg) == Rest(k, Batches(|rounds|, BatchLimit(cfg.batchSize)))
    decreases |rounds|
  {
    hide CheckpointAt, Keyed, PollAll, WaitingAt, LogIn, StoreOk, Distinct;
    if rounds != [] {
      var front, last := rounds[..|rounds| - 1], rounds[|rounds| - 1];
      assert last in rounds;
      RoundsDrain(m, front, tp, records, cfg);
      PollDrains(Polls(m, front, records, cfg), last, tp, records, cfg);
    }
  }

  /** Crash-free polls drain: with k records waiting, any number n of polls with
      n * batch >= k leaves none, whatever order each poll takes. A batch size below one
      counts as one. */
  lemma PollsDrain(m: Memory, rounds: seq<seq<TopicPartition>>, tp: TopicPartition, records: map<string, seq<Record>>, cfg: Config)
    requires Keyed(m) && StoreOk(records) && CheckpointAt(m, cfg.namespace, tp).Some?
    requires forall r | r in rounds :: Distinct(r) && tp in r
    ensures var left, k := WaitingAt(Polls(m, rounds, records, cfg), tp, LogIn(records, tp), cfg), WaitingAt(m, tp, LogIn(records, tp), cfg);
            var taken := |rounds| * BatchLimit(cfg.batchSize);
            left == if k <= taken then 0 else k - taken
  {
    hide CheckpointAt, Keyed, Polls, WaitingAt, LogIn, StoreOk, Distinct, Batches;
    RoundsDrain(m, rounds, tp, records, cfg);
    BatchesMultiply(|rounds|, BatchLimit(cfg.batchSize));
  }
}
