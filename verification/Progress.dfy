/** What holds in every run of the ingest system, whatever the records: every
    topic-partition is processed in order, each record once, and no checkpoint goes back. */
module Progress {
  import opened Results
  import opened Text
  import opened PropertyGraph
  import opened Envelopes
  import opened Upserts
  import opened Handlers
  import opened RecordEffects
  import opened Checkpoints
  import opened IngestSystem

  // ---------- the invariant ----------

  predicate LogFits(log: seq<Record>, tp: TopicPartition) {
    Increasing(log) && forall r | r in log :: r.Tp() == tp && MIN_INT64 <= r.source.offset <= MAX_INT64
  }

  /** Offsets increase along every log, and every record lies in its own. */
  predicate LogsFit(logs: Logs) {
    forall tp | tp in logs :: LogFits(logs[tp], tp)
  }

  /** The records of a topic-partition that lie behind its first checkpoint. */
  function Live(init: Memory, logs: Logs, tp: TopicPartition, cfg: Config): seq<Record> {
    Waiting(LogOf(logs, tp), CheckpointAt(init, cfg.namespace, tp))
  }

  /** A topic-partition's finished records are those between its first checkpoint and its
      present one, in order. */
  predicate ProgressOk(log: seq<Record>, first: Option<int>, now: Option<int>, finished: seq<Record>) {
    if first.None? then
      now.None? && finished == []
    else
      && now.Some? && first.value <= now.value
      && Below(log, first.value) <= Below(log, now.value)
      && finished == log[Below(log, first.value)..Below(log, now.value)]
      && (now == first || (finished != [] && finished[|finished| - 1].source.offset == now.value))
  }

  ghost predicate ProgressAt(init: Memory, m: Memory, logs: Logs, done: seq<Record>, tp: TopicPartition, cfg: Config) {
    ProgressOk(LogOf(logs, tp), CheckpointAt(init, cfg.namespace, tp), CheckpointAt(m, cfg.namespace, tp), DoneOf(done, tp))
  }

  ghost predicate WorkFits(init: Memory, s: System, cfg: Config) {
    s.work.Busy? ==>
      && s.work.tp in s.logs
      && s.work.batch <= Waiting(s.logs[s.work.tp], CheckpointAt(s.mem, cfg.namespace, s.work.tp))
      && (s.work.todo != [] ==>
            && s.work.batch != []
            && s.work.written + s.work.todo == Full(s.work.batch[0], init, cfg)
            && Steady(init, s.work.start) && s.mem == Run(s.work.start, s.work.written))
  }

  ghost predicate InOrder(init: Memory, s: System, cfg: Config) {
    && Steady(init, s.mem) && LogsFit(s.logs)
    && (forall tp :: ProgressAt(init, s.mem, s.logs, s.done, tp, cfg))
    && WorkFits(init, s, cfg)
  }

  /** Nothing is waiting anywhere. */
  ghost predicate Drained(s: System, cfg: Config) {
    forall tp | tp in s.logs :: Waiting(s.logs[tp], CheckpointAt(s.mem, cfg.namespace, tp)) == []
  }

  // ---------- arrival ----------

  lemma WaitingMore(log: seq<Record>, rec: Record, checkpoint: Option<int>)
    requires Increasing(log + [rec])
    ensures Waiting(log, checkpoint) <= Waiting(log + [rec], checkpoint)
  {
    if checkpoint.Some? {
      BelowMore(log, rec, checkpoint.value);
      BelowAll(log, rec, checkpoint.value);
    }
  }

  /** A later record at or below the checkpoint has none before it waiting. */
  lemma BelowAll(log: seq<Record>, rec: Record, checkpoint: int)
    requires Increasing(log + [rec])
    ensures rec.source.offset <= checkpoint ==> Below(log, checkpoint) == |log|
  {
    var more := log + [rec];
    if rec.source.offset <= checkpoint {
      forall i | 0 <= i < |log| ensures log[i].source.offset <= checkpoint {
        assert more[i] == log[i] && more[|log|] == rec;
      }
      BelowIs(log, checkpoint, |log|);
    }
  }

  /** Past its first value, a checkpoint is the offset of a record of the log. */
  lemma CheckpointBehind(log: seq<Record>, rec: Record, first: Option<int>, now: Option<int>, finished: seq<Record>)
    requires Increasing(log + [rec]) && ProgressOk(log, first, now, finished) && first.Some?
    ensures now == first || now.value < rec.source.offset
  {
    if now != first {
      var more, i := log + [rec], Below(log, now.value) - 1;
      assert finished[|finished| - 1] == log[i] == more[i];
      assert more[|log|] == rec;
    }
  }

  lemma ProgressMore(log: seq<Record>, rec: Record, first: Option<int>, now: Option<int>, finished: seq<Record>)
    requires Increasing(log) && Increasing(log + [rec]) && ProgressOk(log, first, now, finished)
    ensures ProgressOk(log + [rec], first, now, finished)
  {
    if first.Some? {
      var more := log + [rec];
      BelowMore(log, rec, first.value);
      BelowMore(log, rec, now.value);
      BelowAll(log, rec, first.value);
      BelowAll(log, rec, now.value);
      CheckpointBehind(log, rec, first, now, finished);
      assert Below(more, now.value) <= |log| ==>
          more[Below(more, first.value)..Below(more, now.value)] == log[Below(log, first.value)..Below(log, now.value)];
    }
  }

  lemma AppendIncreasing(log: seq<Record>, rec: Record)
    requires Increasing(log) && CanAppend(log, rec)
    ensures Increasing(log + [rec])
  {
  }

  lemma AppendFits(logs: Logs, rec: Record)
    requires LogsFit(logs) && CanAppend(LogOf(logs, rec.Tp()), rec)
    ensures LogsFit(logs[rec.Tp() := LogOf(logs, rec.Tp()) + [rec]])
    ensures Increasing(LogOf(logs, rec.Tp())) && Increasing(LogOf(logs, rec.Tp()) + [rec])
  {
    AppendIncreasing(LogOf(logs, rec.Tp()), rec);
  }

  lemma AppendKeeps(init: Memory, s: System, rec: Record, cfg: Config)
    requires InOrder(init, s, cfg) && Enabled(s, Append(rec), cfg)
    ensures InOrder(init, Do(s, Append(rec), cfg), cfg)
  {
    hide CheckpointAt, Full, ProgressOk, CanAppend, Waiting, LogFits, Steady, Increasing, Run;
    var log, s' := LogOf(s.logs, rec.Tp()), Do(s, Append(rec), cfg);
    AppendFits(s.logs, rec);
    forall tp ensures ProgressAt(init, s'.mem, s'.logs, s'.done, tp, cfg) {
      assert ProgressAt(init, s.mem, s.logs, s.done, tp, cfg);
      if tp == rec.Tp() {
        ProgressMore(log, rec, CheckpointAt(init, cfg.namespace, tp), CheckpointAt(s.mem, cfg.namespace, tp), DoneOf(s.done, tp));
      }
    }
    if s.work.Busy? { WaitingMore(log, rec, CheckpointAt(s.mem, cfg.namespace, rec.Tp())); }
  }

  // ---------- starting, finishing, crashing ----------

  lemma StartKeeps(init: Memory, s: System, tp: TopicPartition, cfg: Config)
    requires InOrder(init, s, cfg) && Enabled(s, Start(tp), cfg)
    ensures InOrder(init, Do(s, Start(tp), cfg), cfg)
  {
    hide CheckpointAt, Full, LogsFit, ProgressAt, Steady, Waiting, Run;
  }

  lemma BeginKeeps(init: Memory, s: System, cfg: Config)
    requires InOrder(init, s, cfg) && Enabled(s, Begin, cfg)
    ensures InOrder(init, Do(s, Begin, cfg), cfg)
  {
    hide CheckpointAt, Full, LogsFit, ProgressAt, Steady, Waiting;
    SameFull(s.work.batch[0], init, s.mem, cfg);
    assert [] + Full(s.work.batch[0], init, cfg) == Full(s.work.batch[0], init, cfg);
  }

  lemma IdleKeeps(init: Memory, s: System, e: Event, cfg: Config)
    requires InOrder(init, s, cfg) && (e.Finish? || e.Crash?) && Enabled(s, e, cfg)
    ensures InOrder(init, Do(s, e, cfg), cfg)
  {
    hide CheckpointAt, Full, LogsFit, ProgressAt, Steady, Waiting, Run;
  }

  // ---------- writing ----------

  ghost predicate SameCheckpoints(m: Memory, n: Memory, cfg: Config) {
    forall tp :: CheckpointAt(m, cfg.namespace, tp) == CheckpointAt(n, cfg.namespace, tp)
  }

  lemma SameCheckpointAt(m: Memory, n: Memory, tp: TopicPartition, cfg: Config)
    requires SameCheckpoints(m, n, cfg)
    ensures CheckpointAt(m, cfg.namespace, tp) == CheckpointAt(n, cfg.namespace, tp)
  {
  }

  /** The record being processed is the first one waiting in its log. */
  lemma BatchRecord(init: Memory, s: System, cfg: Config)
    requires InOrder(init, s, cfg) && s.work.Busy? && s.work.batch != []
    ensures s.work.tp in s.logs && Increasing(s.logs[s.work.tp])
    ensures var r, checkpoint := s.work.batch[0], CheckpointAt(s.mem, cfg.namespace, s.work.tp);
            && r.Tp() == s.work.tp && MIN_INT64 <= r.source.offset <= MAX_INT64 && checkpoint.Some?
            && Waiting(s.logs[s.work.tp], checkpoint) != [] && Waiting(s.logs[s.work.tp], checkpoint)[0] == r
  {
    hide CheckpointAt, Full, ProgressAt, Increasing, Below, Steady;
    var w, log := s.work, s.logs[s.work.tp];
    var waiting := Waiting(log, CheckpointAt(s.mem, cfg.namespace, w.tp));
    assert LogFits(log, w.tp);
    assert waiting[0] == w.batch[0] && waiting[0] in waiting && waiting[0] in log;
  }

  /** How far the record being processed has come. */
  lemma WrittenSoFar(init: Memory, s: System, cfg: Config)
    requires WorkFits(init, s, cfg) && s.work.Busy? && s.work.todo != []
    ensures s.work.batch != []
    ensures var k, us := |s.work.written|, Full(s.work.batch[0], init, cfg);
            && k + |s.work.todo| == |us| && us[k] == s.work.todo[0] && us[..k] == s.work.written
            && Steady(init, s.work.start) && s.mem == Run(s.work.start, us[..k])
  {
    hide Full, Waiting, CheckpointAt, Run, Steady;
    var w := s.work;
    assert (w.written + w.todo)[|w.written|] == w.todo[0];
  }

  lemma CheckpointsSpared(init: Memory, m: Memory, rec: Record, k: nat, cfg: Config)
    requires Steady(init, m) && k < |Full(rec, init, cfg)| - 1
    ensures SameCheckpoints(m, Apply(m, Full(rec, init, cfg)[k]), cfg)
  {
    hide Ups, Expected, CheckpointAt, Apply, LinksAgree;
    UpsExpected(rec, init, cfg.hash);
    var u := Full(rec, init, cfg)[k];
    assert u in Ups(rec, init, cfg.hash);
    forall tp ensures CheckpointAt(m, cfg.namespace, tp) == CheckpointAt(Apply(m, u), cfg.namespace, tp) {
      RecordsSpareLoads(m, u, rec, init, cfg.namespace, tp);
    }
  }

  lemma PartWorkFits(init: Memory, s: System, cfg: Config)
    requires WorkFits(init, s, cfg) && Enabled(s, Write, cfg) && |s.work.todo| > 1
    requires SameCheckpoints(s.mem, Do(s, Write, cfg).mem, cfg)
    ensures WorkFits(init, Do(s, Write, cfg), cfg)
  {
    hide CheckpointAt, Full, Waiting, Apply, Run, Steady;
    var w, u := s.work, s.work.todo[0];
    assert (w.written + w.todo)[|w.written|] == u;
    RunThen(w.start, w.written, u);
    assert w.written + [u] + w.todo[1..] == w.written + w.todo;
    SameCheckpointAt(s.mem, Do(s, Write, cfg).mem, w.tp, cfg);
  }

  lemma PartKeeps(init: Memory, s: System, cfg: Config)
    requires InOrder(init, s, cfg) && Enabled(s, Write, cfg) && |s.work.todo| > 1
    ensures InOrder(init, Do(s, Write, cfg), cfg) && SameCheckpoints(s.mem, Do(s, Write, cfg).mem, cfg)
  {
    hide CheckpointAt, Full, LogsFit, ProgressOk, Apply, Run, Waiting, SameCheckpoints, Steady;
    var r, k, s' := s.work.batch[0], |s.work.written|, Do(s, Write, cfg);
    WrittenSoFar(init, s, cfg);
    CheckpointsSpared(init, s.mem, r, k, cfg);
    PartWorkFits(init, s, cfg);
    SteadyUpsert(r, k, init, s.mem, cfg);
    forall tp ensures ProgressAt(init, s'.mem, s'.logs, s'.done, tp, cfg) {
      assert ProgressAt(init, s.mem, s.logs, s.done, tp, cfg);
      SameCheckpointAt(s.mem, s'.mem, tp, cfg);
    }
  }

  // ---------- the last upsert of a record ----------

  lemma CommitIsLast(rec: Record, init: Memory, cfg: Config)
    ensures var us := Full(rec, init, cfg); us != [] && us[|us| - 1] == CommitUp(cfg.namespace, rec.source)
  {
  }

  /** Only the record's own topic-partition's checkpoint has moved, to the record. */
  ghost predicate MovedTo(m: Memory, n: Memory, rec: Record, cfg: Config) {
    forall tp :: CheckpointAt(n, cfg.namespace, tp) == if tp == rec.Tp() then Some(rec.source.offset) else CheckpointAt(m, cfg.namespace, tp)
  }

  lemma CommitMoves(m: Memory, rec: Record, cfg: Config)
    requires Keyed(m) && MIN_INT64 <= rec.source.offset <= MAX_INT64
    ensures MovedTo(m, Apply(m, CommitUp(cfg.namespace, rec.source)), rec, cfg)
  {
    hide CheckpointAt, CommitUp, Apply, Keyed;
    var n := Apply(m, CommitUp(cfg.namespace, rec.source));
    forall tp
      ensures CheckpointAt(n, cfg.namespace, tp) == if tp == rec.Tp() then Some(rec.source.offset) else CheckpointAt(m, cfg.namespace, tp)
    {
      CommitLoads(m, cfg.namespace, rec.source, tp);
    }
  }

  lemma MovedAt(m: Memory, n: Memory, rec: Record, tp: TopicPartition, cfg: Config)
    requires MovedTo(m, n, rec, cfg)
    ensures CheckpointAt(n, cfg.namespace, tp) == if tp == rec.Tp() then Some(rec.source.offset) else CheckpointAt(m, cfg.namespace, tp)
  {
  }

  /** Finishing a record moves its topic-partition's progress by one. */
  lemma ProgressStep(log: seq<Record>, first: Option<int>, now: Option<int>, finished: seq<Record>)
    requires Increasing(log) && ProgressOk(log, first, now, finished) && Waiting(log, now) != []
    ensures var r := Waiting(log, now)[0];
            now.Some? && now.value < r.source.offset && ProgressOk(log, first, Some(r.source.offset), finished + [r])
  {
    WaitingStep(log, now.value);
  }

  lemma DoneMore(done: seq<Record>, rec: Record, tp: TopicPartition)
    ensures DoneOf(done + [rec], tp) == if rec.Tp() == tp then DoneOf(done, tp) + [rec] else DoneOf(done, tp)
  {
    assert (done + [rec])[..|done|] == done;
    assert DoneOf(done, tp) + [] == DoneOf(done, tp);
  }

  lemma LastProgress(init: Memory, s: System, n: Memory, cfg: Config)
    requires InOrder(init, s, cfg) && s.work.Busy? && s.work.batch != [] && MovedTo(s.mem, n, s.work.batch[0], cfg)
    ensures forall tp :: ProgressAt(init, n, s.logs, s.done + [s.work.batch[0]], tp, cfg)
    ensures CheckpointAt(s.mem, cfg.namespace, s.work.tp).Some?
         && CheckpointAt(s.mem, cfg.namespace, s.work.tp).value < s.work.batch[0].source.offset
  {
    hide CheckpointAt, Full, Waiting, Steady, LogsFit, WorkFits, DoneOf, ProgressOk, Increasing, MovedTo;
    var r, own := s.work.batch[0], s.work.tp;
    BatchRecord(init, s, cfg);
    forall tp ensures ProgressAt(init, n, s.logs, s.done + [r], tp, cfg) {
      DoneMore(s.done, r, tp);
      MovedAt(s.mem, n, r, tp, cfg);
      assert ProgressAt(init, s.mem, s.logs, s.done, tp, cfg);
      if tp == own {
        ProgressStep(s.logs[tp], CheckpointAt(init, cfg.namespace, tp), CheckpointAt(s.mem, cfg.namespace, tp), DoneOf(s.done, tp));
      }
    }
    assert ProgressAt(init, s.mem, s.logs, s.done, own, cfg);
    ProgressStep(s.logs[own], CheckpointAt(init, cfg.namespace, own), CheckpointAt(s.mem, cfg.namespace, own), DoneOf(s.done, own));
  }

  lemma LastWorkFits(init: Memory, s: System, n: Memory, cfg: Config)
    requires InOrder(init, s, cfg) && s.work.Busy? && s.work.batch != [] && MovedTo(s.mem, n, s.work.batch[0], cfg)
    ensures s.work.tp in s.logs && s.work.batch[1..] <= Waiting(s.logs[s.work.tp], CheckpointAt(n, cfg.namespace, s.work.tp))
  {
    hide CheckpointAt, Full, Steady, LogsFit, ProgressAt, Waiting, Increasing, MovedTo;
    BatchRecord(init, s, cfg);
    MovedAt(s.mem, n, s.work.batch[0], s.work.tp, cfg);
    WaitingStep(s.logs[s.work.tp], CheckpointAt(s.mem, cfg.namespace, s.work.tp).value);
  }

  lemma LastKeeps(init: Memory, s: System, cfg: Config)
    requires InOrder(init, s, cfg) && Enabled(s, Write, cfg) && |s.work.todo| == 1
    ensures InOrder(init, Do(s, Write, cfg), cfg) && MovedTo(s.mem, Do(s, Write, cfg).mem, s.work.batch[0], cfg)
    ensures Do(s, Write, cfg).mem == Run(s.work.start, Full(s.work.batch[0], init, cfg))
  {
    hide CheckpointAt, Full, Waiting, LogsFit, ProgressAt, Apply, Run, MovedTo, Keyed, LinksAgree;
    var r, us, k, s' := s.work.batch[0], Full(s.work.batch[0], init, cfg), |s.work.written|, Do(s, Write, cfg);
    BatchRecord(init, s, cfg);
    WrittenSoFar(init, s, cfg);
    CommitIsLast(r, init, cfg);
    CommitMoves(s.mem, r, cfg);
    SteadyUpsert(r, k, init, s.mem, cfg);
    RunThen(s.work.start, us[..k], us[k]);
    assert us[..k] + [us[k]] == us;
    LastProgress(init, s, s'.mem, cfg);
    LastWorkFits(init, s, s'.mem, cfg);
  }

  // ---------- every step, every run ----------

  ghost predicate NoneGoesBack(m: Memory, n: Memory, cfg: Config) {
    forall tp ::
      var before, after := CheckpointAt(m, cfg.namespace, tp), CheckpointAt(n, cfg.namespace, tp);
      before == after || (before.Some? && after.Some? && before.value < after.value)
  }

  lemma SameGoesNowhere(m: Memory, n: Memory, cfg: Config)
    requires SameCheckpoints(m, n, cfg)
    ensures NoneGoesBack(m, n, cfg)
  {
    hide CheckpointAt;
  }

  lemma MovedForward(m: Memory, n: Memory, rec: Record, cfg: Config)
    requires MovedTo(m, n, rec, cfg)
    requires CheckpointAt(m, cfg.namespace, rec.Tp()).Some? && CheckpointAt(m, cfg.namespace, rec.Tp()).value < rec.source.offset
    ensures NoneGoesBack(m, n, cfg)
  {
    hide CheckpointAt;
  }

  /** Every step keeps order and progress, and no checkpoint goes back. */
  lemma StepKeeps(init: Memory, s: System, e: Event, cfg: Config)
    requires InOrder(init, s, cfg) && Enabled(s, e, cfg)
    ensures InOrder(init, Do(s, e, cfg), cfg) && NoneGoesBack(s.mem, Do(s, e, cfg).mem, cfg)
  {
    hide CheckpointAt, Full, InOrder, Apply, MovedTo, SameCheckpoints, Run;
    match e {
      case Append(rec) => AppendKeeps(init, s, rec, cfg);
      case Start(tp) => StartKeeps(init, s, tp, cfg);
      case Begin => BeginKeeps(init, s, cfg);
      case Write =>
        if |s.work.todo| > 1 {
          PartKeeps(init, s, cfg);
          SameGoesNowhere(s.mem, Do(s, e, cfg).mem, cfg);
        } else {
          LastKeeps(init, s, cfg);
          BatchRecord(init, s, cfg);
          LastProgress(init, s, Do(s, e, cfg).mem, cfg);
          MovedForward(s.mem, Do(s, e, cfg).mem, s.work.batch[0], cfg);
        }
      case Finish => IdleKeeps(init, s, e, cfg);
      case Crash => IdleKeeps(init, s, e, cfg);
    }
  }

  /** The system at the start: nothing in progress, nothing done. */
  ghost predicate Initial(s: System) {
    Keyed(s.mem) && s.work.Idle? && s.done == [] && LogsFit(s.logs)
  }

  lemma InitialInOrder(s: System, cfg: Config)
    requires Initial(s)
    ensures InOrder(s.mem, s, cfg)
  {
    hide CheckpointAt, LogsFit, Keyed;
    SteadySelf(s.mem);
  }

  lemma {:induction false} RunFromKeeps(init: Memory, mid: System, events: seq<Event>, s: System, cfg: Config)
    requires InOrder(init, mid, cfg) && Leads(mid, events, s, cfg)
    ensures InOrder(init, s, cfg) && NoneGoesBack(mid.mem, s.mem, cfg)
    decreases |events|
  {
    hide CheckpointAt, InOrder, Do, Enabled;
    if events != [] {
      var before, e := events[..|events| - 1], events[|events| - 1];
      var last :| Leads(mid, before, last, cfg) && Steps(last, e, s, cfg);
      RunFromKeeps(init, mid, before, last, cfg);
      StepKeeps(init, last, e, cfg);
    }
  }

  /** In every run, however partitions interleave and wherever the processor crashes, the
      records finished in each topic-partition are those its checkpoint has passed, each
      once and in order: none is lost and none is finished twice. */
  lemma EachOnceInOrder(s0: System, events: seq<Event>, s: System, tp: TopicPartition, cfg: Config)
    requires Initial(s0) && Leads(s0, events, s, cfg)
    ensures ProgressOk(LogOf(s.logs, tp), CheckpointAt(s0.mem, cfg.namespace, tp), CheckpointAt(s.mem, cfg.namespace, tp), DoneOf(s.done, tp))
  {
    hide CheckpointAt, LogsFit, WorkFits, ProgressOk, Leads, Initial, Steady;
    InitialInOrder(s0, cfg);
    RunFromKeeps(s0.mem, s0, events, s, cfg);
    assert ProgressAt(s0.mem, s.mem, s.logs, s.done, tp, cfg);
  }

  /** Along every run, crashes included, no checkpoint goes back. */
  lemma CheckpointsNeverGoBack(s0: System, before: seq<Event>, mid: System, after: seq<Event>, s: System, cfg: Config)
    requires Initial(s0) && Leads(s0, before, mid, cfg) && Leads(mid, after, s, cfg)
    ensures NoneGoesBack(mid.mem, s.mem, cfg)
  {
    hide Initial, Leads, InOrder, NoneGoesBack;
    InitialInOrder(s0, cfg);
    RunFromKeeps(s0.mem, s0, before, mid, cfg);
    RunFromKeeps(s0.mem, mid, after, s, cfg);
  }
}
