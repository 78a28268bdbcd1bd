/** The ingest pipeline as a system of steps: records arriving, batches, single upserts,
    crashes anywhere. */
module IngestSystem {
  import opened Results
  import opened Text
  import opened PropertyGraph
  import opened NodeIds
  import opened Envelopes
  import opened Upserts
  import opened Handlers
  import opened RecordEffects
  import opened Checkpoints

  // ---------- logs ----------

  predicate Increasing(log: seq<Record>) {
    forall i, j | 0 <= i < j < |log| :: log[i].source.offset < log[j].source.offset
  }

  /** How many leading records have an offset of at most off. */
  function Below(log: seq<Record>, off: int): (n: nat)
    ensures n <= |log|
  {
    if log == [] || log[0].source.offset > off then 0 else 1 + Below(log[1..], off)
  }

  lemma {:induction false} BelowSplits(log: seq<Record>, off: int)
    requires Increasing(log)
    ensures forall i | 0 <= i < |log| :: i < Below(log, off) <==> log[i].source.offset <= off
  {
    if log != [] {
      BelowSplits(log[1..], off);
      forall i | 0 <= i < |log| ensures i < Below(log, off) <==> log[i].source.offset <= off {
        if i > 0 { assert log[i] == log[1..][i - 1]; }
      }
    }
  }

  lemma {:induction false} BelowIs(log: seq<Record>, off: int, n: nat)
    requires n <= |log| && (n < |log| ==> log[n].source.offset > off)
    requires forall i | 0 <= i < n :: log[i].source.offset <= off
    ensures Below(log, off) == n
  {
    if n > 0 { BelowIs(log[1..], off, n - 1); }
  }

  /** The records behind a checkpoint; none where the checkpoint cannot be read. */
  function Waiting(log: seq<Record>, checkpoint: Option<int>): seq<Record> {
    if checkpoint.None? then [] else log[Below(log, checkpoint.value)..]
  }

  /** A batch takes at least one record, whatever its configured size. */
  function BatchOf(waiting: seq<Record>, size: int): (batch: seq<Record>)
    ensures batch <= waiting
    ensures |batch| == if |waiting| <= BatchLimit(size) then |waiting| else BatchLimit(size)
  {
    if |waiting| <= BatchLimit(size) then waiting else waiting[..BatchLimit(size)]
  }

  function BatchLimit(size: int): nat {
    if size < 1 then 1 else size
  }

  lemma WaitingStep(log: seq<Record>, checkpoint: int)
    requires Increasing(log) && Waiting(log, Some(checkpoint)) != []
    ensures var r := Waiting(log, Some(checkpoint))[0];
            && r.source.offset > checkpoint
            && Below(log, r.source.offset) == Below(log, checkpoint) + 1
            && Waiting(log, Some(r.source.offset)) == Waiting(log, Some(checkpoint))[1..]
  {
    var k := Below(log, checkpoint);
    BelowSplits(log, checkpoint);
    BelowIs(log, log[k].source.offset, k + 1);
  }

  lemma BelowMore(log: seq<Record>, rec: Record, off: int)
    requires Increasing(log + [rec])
    ensures Below(log + [rec], off) == if rec.source.offset <= off then |log| + 1 else Below(log, off)
  {
    var more := log + [rec];
    assert Increasing(log) by {
      forall i, j | 0 <= i < j < |log| ensures log[i].source.offset < log[j].source.offset {
        assert more[i] == log[i] && more[j] == log[j];
      }
    }
    BelowSplits(log, off);
    assert more[|log|] == rec;
    assert forall i | 0 <= i < |log| :: more[i] == log[i];
    BelowIs(more, off, if rec.source.offset <= off then |log| + 1 else Below(log, off));
  }

  // ---------- the system ----------

  datatype Config = Config(namespace: string, batchSize: int, hash: EdgeHash)

  type Logs = map<TopicPartition, seq<Record>>

  /** What the processor is at: nothing, or a batch whose first record has upserts left to
      do. The fields start and written record how the record was begun; no step reads them. */
  datatype Work =
    | Idle
    | Busy(tp: TopicPartition, batch: seq<Record>, todo: seq<Upsert>, start: Memory, written: seq<Upsert>)

  /** The graph and the logs survive a crash, the work does not. The records processed to
      the end, in order, are history: no step reads them. */
  datatype System = System(mem: Memory, logs: Logs, work: Work, done: seq<Record>)

  datatype Event =
    | Append(rec: Record)
    | Start(tp: TopicPartition)
    | Begin
    | Write
    | Finish
    | Crash

  function LogOf(logs: Logs, tp: TopicPartition): seq<Record> {
    if tp in logs then logs[tp] else []
  }

  /** All a record does, its commit last. */
  ghost function Full(rec: Record, m: Memory, cfg: Config): seq<Upsert> {
    Ups(rec, m, cfg.hash) + [CommitUp(cfg.namespace, rec.source)]
  }

  predicate CanAppend(log: seq<Record>, rec: Record) {
    && MIN_INT64 <= rec.source.offset <= MAX_INT64
    && (log != [] ==> log[|log| - 1].source.offset < rec.source.offset)
  }

  predicate Enabled(s: System, e: Event, cfg: Config) {
    match e
    case Append(rec) => CanAppend(LogOf(s.logs, rec.Tp()), rec)
    case Start(tp) => s.work.Idle? && tp in s.logs && CheckpointAt(s.mem, cfg.namespace, tp).Some?
    case Begin => s.work.Busy? && s.work.todo == [] && s.work.batch != []
    case Write => s.work.Busy? && s.work.todo != [] && s.work.batch != []
    case Finish => s.work.Busy? && s.work.todo == [] && s.work.batch == []
    case Crash => true
  }

  ghost function Do(s: System, e: Event, cfg: Config): System
    requires Enabled(s, e, cfg)
  {
    match e
    case Append(rec) => s.(logs := s.logs[rec.Tp() := LogOf(s.logs, rec.Tp()) + [rec]])
    case Start(tp) =>
      var waiting := Waiting(s.logs[tp], CheckpointAt(s.mem, cfg.namespace, tp));
      s.(work := Busy(tp, BatchOf(waiting, cfg.batchSize), [], s.mem, []))
    case Begin => s.(work := s.work.(todo := Full(s.work.batch[0], s.mem, cfg), start := s.mem, written := []))
    case Write =>
      var u, rest := s.work.todo[0], s.work.todo[1..];
      if rest == [] then
        s.(mem := Apply(s.mem, u), done := s.done + [s.work.batch[0]],
           work := s.work.(batch := s.work.batch[1..], todo := [], written := []))
      else
        s.(mem := Apply(s.mem, u), work := s.work.(todo := rest, written := s.work.written + [u]))
    case Finish => s.(work := Idle)
    case Crash => s.(work := Idle)
  }

  /** The events lead from s0 to s. */
  ghost predicate Leads(s0: System, events: seq<Event>, s: System, cfg: Config) {
    if events == [] then
      s == s0
    else
      var before, e := events[..|events| - 1], events[|events| - 1];
      exists mid :: Leads(s0, before, mid, cfg) && Steps(mid, e, s, cfg)
  }

  ghost predicate Steps(s: System, e: Event, next: System, cfg: Config) {
    Enabled(s, e, cfg) && next == Do(s, e, cfg)
  }

  // ---------- processing one record after the other ----------

  ghost function Replay(m: Memory, recs: seq<Record>, cfg: Config): Memory {
    if recs == [] then m
    else
      var before := Replay(m, recs[..|recs| - 1], cfg);
      Run(before, Full(recs[|recs| - 1], before, cfg))
  }

  /** The records of one topic-partition. */
  function DoneOf(done: seq<Record>, tp: TopicPartition): seq<Record> {
    if done == [] then []
    else DoneOf(done[..|done| - 1], tp) + if done[|done| - 1].Tp() == tp then [done[|done| - 1]] else []
  }

  // ---------- a record does the same whenever it is processed ----------

  /** The graph has the initial one's score links. */
  ghost predicate Steady(init: Memory, m: Memory) {
    Keyed(init) && Keyed(m) && LinksAgree(init, m)
  }

  lemma SteadySelf(init: Memory)
    requires Keyed(init)
    ensures Steady(init, init)
  {
    LinksAgreeSelf(init);
  }

  lemma SameFull(rec: Record, init: Memory, m: Memory, cfg: Config)
    requires Steady(init, m)
    ensures Full(rec, m, cfg) == Full(rec, init, cfg)
  {
    hide Ups, LinksAgree;
    SameUps(rec, m, init, cfg.hash);
  }

  lemma CommitKeepsLinks(m: Memory, rec: Record, init: Memory, cfg: Config)
    requires Keyed(m) && LinksAgree(init, m)
    ensures LinksAgree(init, Apply(m, CommitUp(cfg.namespace, rec.source)))
  {
    hide CheckpointNodeID;
    var n := Apply(m, CommitUp(cfg.namespace, rec.source));
    forall eid ensures IsLink(n, eid) <==> IsLink(m, eid) {
    }
  }

  /** The k-th upsert of a record keeps the links. */
  lemma SteadyUpsert(rec: Record, k: nat, init: Memory, m: Memory, cfg: Config)
    requires Steady(init, m) && k < |Full(rec, init, cfg)|
    ensures Steady(init, Apply(m, Full(rec, init, cfg)[k]))
  {
    hide Ups, Expected, Apply, LinksAgree, Keyed;
    var us := Full(rec, init, cfg);
    UpsExpected(rec, init, cfg.hash);
    if k < |us| - 1 {
      assert us[k] in Ups(rec, init, cfg.hash);
      ExpectedKeepsLinks(m, us[k], rec, init);
    } else {
      CommitKeepsLinks(m, rec, init, cfg);
      ApplyCell(m, us[k], NodeLabel(""));
    }
  }

  lemma {:induction false} SteadyPart(rec: Record, k: nat, init: Memory, m: Memory, cfg: Config)
    requires Steady(init, m) && k <= |Full(rec, init, cfg)|
    ensures Steady(init, Run(m, Full(rec, init, cfg)[..k]))
    decreases k
  {
    hide Ups, Apply, Steady, Full;
    var us := Full(rec, init, cfg);
    if k > 0 {
      SteadyPart(rec, k - 1, init, m, cfg);
      SteadyUpsert(rec, k - 1, init, Run(m, us[..k - 1]), cfg);
      assert us[..k] == us[..k - 1] + [us[k - 1]];
      RunThen(m, us[..k - 1], us[k - 1]);
    }
  }

  lemma {:induction false} SteadyReplay(init: Memory, recs: seq<Record>, cfg: Config)
    requires Keyed(init)
    ensures Steady(init, Replay(init, recs, cfg))
    decreases |recs|
  {
    hide Ups, Steady, Full, Keyed, Run;
    if recs == [] {
      SteadySelf(init);
    } else {
      var before, r := Replay(init, recs[..|recs| - 1], cfg), recs[|recs| - 1];
      SteadyReplay(init, recs[..|recs| - 1], cfg);
      SameFull(r, init, before, cfg);
      var us := Full(r, init, cfg);
      SteadyPart(r, |us|, init, before, cfg);
      assert us[..|us|] == us;
    }
  }

  /** Replaying one record more. */
  lemma ReplayMore(init: Memory, done: seq<Record>, rec: Record, cfg: Config)
    requires Keyed(init)
    ensures Replay(init, done + [rec], cfg) == Run(Replay(init, done, cfg), Full(rec, init, cfg))
  {
    hide Full, Run, Keyed;
    assert (done + [rec])[..|done|] == done;
    SteadyReplay(init, done, cfg);
    SameFull(rec, init, Replay(init, done, cfg), cfg);
  }
}
