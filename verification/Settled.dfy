/** What holds in every run whatever names its records give: properties that no waiting
    record writes are as if the finished records had been processed one after the other, and
    what finished records create is there. */
module Settled {
  import opened PropertyGraph
  import opened Envelopes
  import opened Upserts
  import opened RecordEffects
  import opened Checkpoints
  import opened IngestSystem
  import opened Progress

  // ---------- the invariant ----------

  ghost predicate Pending(m: Memory, logs: Logs, rec: Record, cfg: Config) {
    exists tp :: tp in logs && rec in Waiting(logs[tp], CheckpointAt(m, cfg.namespace, tp))
  }

  /** Some record still to be processed writes the cell. */
  ghost predicate Unsettled(init: Memory, m: Memory, logs: Logs, c: Cell, cfg: Config) {
    exists rec :: Pending(m, logs, rec, cfg) && WritesAny(Full(rec, init, cfg), c)
  }

  ghost predicate PropsClean(init: Memory, m: Memory, logs: Logs, done: seq<Record>, cfg: Config) {
    forall c | !Fixed(c) :: Unsettled(init, m, logs, c, cfg) || Get(m, c) == Get(Replay(init, done, cfg), c)
  }

  /** Every record that a finished one names is there. */
  ghost predicate Written(init: Memory, m: Memory, done: seq<Record>, cfg: Config) {
    forall r, c | r in done && Fixed(c) && WritesAny(Full(r, init, cfg), c) :: Get(m, c).Some?
  }

  ghost predicate Kept(init: Memory, s: System, cfg: Config) {
    && InOrder(init, s, cfg) && Keyed(init) && Grown(init, s.mem)
    && Written(init, s.mem, s.done, cfg) && PropsClean(init, s.mem, s.logs, s.done, cfg)
  }

  // ---------- arrival ----------

  lemma PrefixMember(a: seq<Record>, b: seq<Record>, r: Record)
    requires a <= b && r in a
    ensures r in b
  {
    var i :| 0 <= i < |a| && a[i] == r;
    assert b[i] == r;
  }

  lemma PendingMore(m: Memory, logs: Logs, rec: Record, r: Record, cfg: Config)
    requires Increasing(LogOf(logs, rec.Tp()) + [rec]) && Pending(m, logs, r, cfg)
    ensures Pending(m, logs[rec.Tp() := LogOf(logs, rec.Tp()) + [rec]], r, cfg)
  {
    hide CheckpointAt, Increasing;
    var logs' := logs[rec.Tp() := LogOf(logs, rec.Tp()) + [rec]];
    var tp :| tp in logs && r in Waiting(logs[tp], CheckpointAt(m, cfg.namespace, tp));
    WaitingMore(LogOf(logs, rec.Tp()), rec, CheckpointAt(m, cfg.namespace, rec.Tp()));
    PrefixMember(Waiting(logs[tp], CheckpointAt(m, cfg.namespace, tp)), Waiting(logs'[tp], CheckpointAt(m, cfg.namespace, tp)), r);
    assert tp in logs' && r in Waiting(logs'[tp], CheckpointAt(m, cfg.namespace, tp));
  }

  lemma AppendKeepsProps(init: Memory, s: System, rec: Record, cfg: Config)
    requires InOrder(init, s, cfg) && PropsClean(init, s.mem, s.logs, s.done, cfg) && Enabled(s, Append(rec), cfg)
    ensures PropsClean(init, s.mem, Do(s, Append(rec), cfg).logs, s.done, cfg)
  {
    hide CheckpointAt, Full, Replay, ProgressAt, Pending, CanAppend, LogFits, Steady, WritesAny, Get, Increasing;
    AppendFits(s.logs, rec);
    var logs' := Do(s, Append(rec), cfg).logs;
    forall c | !Fixed(c) ensures Unsettled(init, s.mem, logs', c, cfg) || Get(s.mem, c) == Get(Replay(init, s.done, cfg), c) {
      if Unsettled(init, s.mem, s.logs, c, cfg) {
        var r :| Pending(s.mem, s.logs, r, cfg) && WritesAny(Full(r, init, cfg), c);
        PendingMore(s.mem, s.logs, rec, r, cfg);
      }
    }
  }

  // ---------- writing ----------

  lemma SamePending(m: Memory, n: Memory, logs: Logs, rec: Record, cfg: Config)
    requires SameCheckpoints(m, n, cfg)
    ensures Pending(m, logs, rec, cfg) ==> Pending(n, logs, rec, cfg)
  {
    hide CheckpointAt, Waiting;
    if Pending(m, logs, rec, cfg) {
      var tp :| tp in logs && rec in Waiting(logs[tp], CheckpointAt(m, cfg.namespace, tp));
      assert rec in Waiting(logs[tp], CheckpointAt(n, cfg.namespace, tp));
    }
  }

  lemma BatchPending(init: Memory, s: System, cfg: Config)
    requires InOrder(init, s, cfg) && s.work.Busy? && s.work.batch != []
    ensures Pending(s.mem, s.logs, s.work.batch[0], cfg)
  {
    hide CheckpointAt, Waiting, InOrder;
    BatchRecord(init, s, cfg);
    var waiting := Waiting(s.logs[s.work.tp], CheckpointAt(s.mem, cfg.namespace, s.work.tp));
    assert waiting[0] in waiting;
  }

  /** One upsert of a pending record leaves the settled cells clean. */
  lemma PartKeepsProps(init: Memory, m: Memory, logs: Logs, done: seq<Record>, rec: Record, k: nat, cfg: Config)
    requires Keyed(m) && PropsClean(init, m, logs, done, cfg) && Pending(m, logs, rec, cfg) && k < |Full(rec, init, cfg)|
    requires SameCheckpoints(m, Apply(m, Full(rec, init, cfg)[k]), cfg)
    ensures PropsClean(init, Apply(m, Full(rec, init, cfg)[k]), logs, done, cfg)
  {
    hide CheckpointAt, Full, Replay, Pending, Writes, WritesAny, Get, Apply, SameCheckpoints, Keyed;
    var us := Full(rec, init, cfg);
    var n := Apply(m, us[k]);
    forall c | !Fixed(c) ensures Unsettled(init, n, logs, c, cfg) || Get(n, c) == Get(Replay(init, done, cfg), c) {
      ApplyCell(m, us[k], c);
      if Writes(us[k], c) {
        SamePending(m, n, logs, rec, cfg);
        WritesAt(us, c, k);
      } else if Unsettled(init, m, logs, c, cfg) {
        var r :| Pending(m, logs, r, cfg) && WritesAny(Full(r, init, cfg), c);
        SamePending(m, n, logs, r, cfg);
      }
    }
  }

  lemma WrittenLater(init: Memory, m: Memory, n: Memory, done: seq<Record>, cfg: Config)
    requires Written(init, m, done, cfg) && Grown(m, n)
    ensures Written(init, n, done, cfg)
  {
    hide Full, WritesAny, Get, Grown;
    forall r, c | r in done && Fixed(c) && WritesAny(Full(r, init, cfg), c) ensures Get(n, c).Some? { GrownHas(m, n, c); }
  }

  lemma SettledBefore(init: Memory, s: System, n: Memory, c: Cell, cfg: Config)
    requires InOrder(init, s, cfg) && s.work.Busy? && s.work.batch != [] && MovedTo(s.mem, n, s.work.batch[0], cfg)
    requires Unsettled(init, s.mem, s.logs, c, cfg) && !WritesAny(Full(s.work.batch[0], init, cfg), c)
    ensures Unsettled(init, n, s.logs, c, cfg)
  {
    hide CheckpointAt, Full, WritesAny, Waiting, Increasing, InOrder, MovedTo;
    var rec, logs := s.work.batch[0], s.logs;
    BatchRecord(init, s, cfg);
    var r :| Pending(s.mem, logs, r, cfg) && WritesAny(Full(r, init, cfg), c);
    var tp :| tp in logs && r in Waiting(logs[tp], CheckpointAt(s.mem, cfg.namespace, tp));
    MovedAt(s.mem, n, rec, tp, cfg);
    if tp == rec.Tp() {
      WaitingStep(logs[tp], CheckpointAt(s.mem, cfg.namespace, tp).value);
      var waiting := Waiting(logs[tp], CheckpointAt(s.mem, cfg.namespace, tp));
      assert waiting == [rec] + waiting[1..];
    }
    assert tp in logs && r in Waiting(logs[tp], CheckpointAt(n, cfg.namespace, tp));
  }

  /** When a record's last upsert is done, its properties are settled as replaying it would. */
  lemma LastKeepsProps(init: Memory, s: System, n: Memory, cfg: Config)
    requires InOrder(init, s, cfg) && PropsClean(init, s.mem, s.logs, s.done, cfg) && Keyed(init)
    requires s.work.Busy? && |s.work.todo| == 1 && s.work.batch != []
    requires n == Run(s.work.start, Full(s.work.batch[0], init, cfg)) && MovedTo(s.mem, n, s.work.batch[0], cfg)
    ensures PropsClean(init, n, s.logs, s.done + [s.work.batch[0]], cfg)
  {
    hide CheckpointAt, Full, Waiting, Writes, WritesAny, Get, Run, LogsFit, ProgressAt, Last, First, Pending, Unsettled, MovedTo, Keyed, LinksAgree, Replay;
    var r, start, past := s.work.batch[0], s.work.start, Replay(init, s.done, cfg);
    var us := Full(r, init, cfg);
    WrittenSoFar(init, s, cfg);
    SteadyReplay(init, s.done, cfg);
    ReplayMore(init, s.done, r, cfg);
    forall c | !Fixed(c) ensures Unsettled(init, n, s.logs, c, cfg) || Get(n, c) == Get(Run(past, us), c) {
      RunCell(start, us, c);
      RunCell(past, us, c);
      if !WritesAny(us, c) {
        RunCell(start, us[..|us| - 1], c);
        if WritesAny(us[..|us| - 1], c) { PartWrites(us[..|us| - 1], us, c); }
        if Unsettled(init, s.mem, s.logs, c, cfg) { SettledBefore(init, s, n, c, cfg); }
      }
    }
  }

  lemma LastKeepsWritten(init: Memory, s: System, n: Memory, cfg: Config)
    requires s.work.Busy? && s.work.batch != [] && Steady(init, s.work.start) && Written(init, s.mem, s.done, cfg)
    requires n == Run(s.work.start, Full(s.work.batch[0], init, cfg)) && Grown(s.mem, n)
    ensures Written(init, n, s.done + [s.work.batch[0]], cfg)
  {
    hide Full, WritesAny, First, Get, Run, Grown, Keyed, LinksAgree;
    WrittenLater(init, s.mem, n, s.done, cfg);
    forall q, c | q in s.done + [s.work.batch[0]] && Fixed(c) && WritesAny(Full(q, init, cfg), c) ensures Get(n, c).Some? {
      if q !in s.done { RunCell(s.work.start, Full(s.work.batch[0], init, cfg), c); }
    }
  }

  // ---------- every step, every run ----------

  lemma WriteGrows(init: Memory, s: System, cfg: Config)
    requires InOrder(init, s, cfg) && Grown(init, s.mem) && Enabled(s, Write, cfg)
    ensures Grown(s.mem, Do(s, Write, cfg).mem) && Grown(init, Do(s, Write, cfg).mem)
  {
    hide LogsFit, ProgressAt, WorkFits, Keyed, LinksAgree, Apply, Grown;
    ApplyCell(s.mem, s.work.todo[0], NodeLabel(""));
    GrownFurther(init, s.mem, Do(s, Write, cfg).mem);
  }

  lemma StepKeepsKept(init: Memory, s: System, e: Event, cfg: Config)
    requires Kept(init, s, cfg) && Enabled(s, e, cfg)
    ensures Kept(init, Do(s, e, cfg), cfg)
  {
    hide CheckpointAt, Full, InOrder, PropsClean, Written, Replay, Apply, Run, MovedTo, SameCheckpoints, Keyed, Grown, LinksAgree, Waiting;
    StepKeeps(init, s, e, cfg);
    match e {
      case Append(rec) => AppendKeepsProps(init, s, rec, cfg);
      case Start(tp) =>
      case Begin =>
      case Write =>
        WriteGrows(init, s, cfg);
        if |s.work.todo| > 1 { PartKeepsKept(init, s, cfg); } else { LastKeepsKept(init, s, cfg); }
      case Finish =>
      case Crash =>
    }
  }

  lemma PartKeepsKept(init: Memory, s: System, cfg: Config)
    requires Kept(init, s, cfg) && Enabled(s, Write, cfg) && |s.work.todo| > 1 && Grown(s.mem, Do(s, Write, cfg).mem)
    ensures Written(init, Do(s, Write, cfg).mem, s.done, cfg) && PropsClean(init, Do(s, Write, cfg).mem, s.logs, s.done, cfg)
  {
    hide CheckpointAt, Full, LogsFit, ProgressAt, PropsClean, Written, Replay, Apply, Run, SameCheckpoints, Keyed, Grown, LinksAgree, Waiting, Pending;
    PartKeeps(init, s, cfg);
    WrittenSoFar(init, s, cfg);
    BatchPending(init, s, cfg);
    PartKeepsProps(init, s.mem, s.logs, s.done, s.work.batch[0], |s.work.written|, cfg);
    WrittenLater(init, s.mem, Do(s, Write, cfg).mem, s.done, cfg);
  }

  lemma LastKeepsKept(init: Memory, s: System, cfg: Config)
    requires Kept(init, s, cfg) && Enabled(s, Write, cfg) && |s.work.todo| == 1 && Grown(s.mem, Do(s, Write, cfg).mem)
    ensures Do(s, Write, cfg).done == s.done + [s.work.batch[0]]
    ensures Written(init, Do(s, Write, cfg).mem, s.done + [s.work.batch[0]], cfg)
    ensures PropsClean(init, Do(s, Write, cfg).mem, s.logs, s.done + [s.work.batch[0]], cfg)
  {
    hide CheckpointAt, Full, LogsFit, ProgressAt, PropsClean, Written, Replay, Apply, Run, MovedTo, Keyed, Grown, LinksAgree, Waiting;
    LastKeeps(init, s, cfg);
    WrittenSoFar(init, s, cfg);
    LastKeepsProps(init, s, Do(s, Write, cfg).mem, cfg);
    LastKeepsWritten(init, s, Do(s, Write, cfg).mem, cfg);
  }

  lemma {:induction false} RunKeepsKept(s0: System, events: seq<Event>, s: System, cfg: Config)
    requires Initial(s0) && Leads(s0, events, s, cfg)
    ensures Kept(s0.mem, s, cfg)
    decreases |events|
  {
    hide CheckpointAt, Kept, Do, Enabled, Initial;
    if events == [] {
      InitialKept(s0, cfg);
    } else {
      var before, e := events[..|events| - 1], events[|events| - 1];
      var mid :| Leads(s0, before, mid, cfg) && Steps(mid, e, s, cfg);
      RunKeepsKept(s0, before, mid, cfg);
      StepKeepsKept(s0.mem, mid, e, cfg);
    }
  }

  lemma InitialKept(s: System, cfg: Config)
    requires Initial(s)
    ensures Kept(s.mem, s, cfg)
  {
    hide CheckpointAt, InOrder, LogsFit, Keyed, Full, Pending;
    InitialInOrder(s, cfg);
    GrownSelf(s.mem);
  }

  lemma NothingUnsettled(init: Memory, s: System, c: Cell, cfg: Config)
    requires Drained(s, cfg)
    ensures !Unsettled(init, s.mem, s.logs, c, cfg)
  {
    hide CheckpointAt, Waiting, Full, WritesAny;
  }

  /** Once nothing waits, every property is that of processing the finished records one
      after the other, whatever names they give. */
  lemma PropertiesOnce(s0: System, events: seq<Event>, s: System, c: Cell, cfg: Config)
    requires Initial(s0) && Leads(s0, events, s, cfg) && Drained(s, cfg) && !Fixed(c)
    ensures Get(s.mem, c) == Get(Replay(s0.mem, s.done, cfg), c)
  {
    hide InOrder, Grown, Written, Keyed, Initial, Leads, Drained, Unsettled, Get, Replay;
    RunKeepsKept(s0, events, s, cfg);
    NothingUnsettled(s0.mem, s, c, cfg);
  }
}
