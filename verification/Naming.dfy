/** Who names a record: the step of a run that first gives it a name, and what has been
    finished by then. */
module Naming {
  import opened Results
  import opened PropertyGraph
  import opened Envelopes
  import opened Upserts
  import opened RecordEffects
  import opened Checkpoints
  import opened IngestSystem
  import opened Progress
  import opened Settled
  import opened Runs
  import opened Sayings

  // ---------- parts of runs ----------

  lemma {:induction false} SplitRun(s0: System, events: seq<Event>, k: nat, s: System, cfg: Config) returns (mid: System)
    requires Leads(s0, events, s, cfg) && k <= |events|
    ensures Leads(s0, events[..k], mid, cfg) && Leads(mid, events[k..], s, cfg)
    decreases |events|
  {
    hide Steps;
    if k == |events| {
      assert events[..k] == events && events[k..] == [];
      LeadsNowhere(s, cfg);
      mid := s;
    } else {
      var before, e := events[..|events| - 1], events[|events| - 1];
      var last :| Leads(s0, before, last, cfg) && Steps(last, e, s, cfg);
      mid := SplitRun(s0, before, k, last, cfg);
      LeadsMore(mid, before[k..], last, e, s, cfg);
      assert before[..k] == events[..k] && before[k..] + [e] == events[k..];
    }
  }

  lemma {:induction false} SameRun(s0: System, events: seq<Event>, s: System, t: System, cfg: Config)
    requires Leads(s0, events, s, cfg) && Leads(s0, events, t, cfg)
    ensures s == t
    decreases |events|
  {
    hide Do, Enabled;
    if events != [] {
      var before, e := events[..|events| - 1], events[|events| - 1];
      var a :| Leads(s0, before, a, cfg) && Steps(a, e, s, cfg);
      var b :| Leads(s0, before, b, cfg) && Steps(b, e, t, cfg);
      SameRun(s0, before, a, b, cfg);
    }
  }

  predicate Within(logs: Logs, all: Logs) {
    forall tp | tp in logs :: tp in all && logs[tp] <= all[tp]
  }

  lemma StepWithin(s: System, e: Event, all: Logs, cfg: Config)
    requires Enabled(s, e, cfg) && Within(Do(s, e, cfg).logs, all)
    ensures Within(s.logs, all)
  {
    hide Full, Apply, Waiting, CheckpointAt, CanAppend;
    var t := Do(s, e, cfg);
    forall tp | tp in s.logs ensures tp in all && s.logs[tp] <= all[tp] {
      assert tp in t.logs && s.logs[tp] <= t.logs[tp];
    }
  }

  /** Logs only grow. */
  lemma {:induction false} RunWithin(s0: System, events: seq<Event>, s: System, all: Logs, cfg: Config)
    requires Leads(s0, events, s, cfg) && Within(s.logs, all)
    ensures Within(s0.logs, all)
    decreases |events|
  {
    hide Do, Enabled, Within;
    if events != [] {
      var before, e := events[..|events| - 1], events[|events| - 1];
      var mid :| Leads(s0, before, mid, cfg) && Steps(mid, e, s, cfg);
      StepWithin(mid, e, all, cfg);
      RunWithin(s0, before, mid, all, cfg);
    }
  }

  // ---------- finished records ----------

  lemma BelowWithin(log: seq<Record>, all: seq<Record>, off: int)
    requires Increasing(log) && log <= all && Below(log, off) < |log|
    ensures Below(all, off) == Below(log, off)
  {
    BelowSplits(log, off);
    BelowIs(all, off, Below(log, off));
  }

  /** The record being processed is the next one of its topic-partition. */
  lemma NextOfItsPartition(init: Memory, s: System, all: Logs, cfg: Config)
    requires InOrder(init, s, cfg) && Within(s.logs, all) && s.work.Busy? && s.work.batch != []
    ensures s.work.tp in all
    ensures var live, finished := Live(init, all, s.work.tp, cfg), DoneOf(s.done, s.work.tp);
            |finished| < |live| && live[..|finished|] == finished && live[|finished|] == s.work.batch[0]
  {
    hide CheckpointAt, WorkFits, Steady, LogsFit, DoneOf, Increasing;
    var tp := s.work.tp;
    BatchRecord(init, s, cfg);
    assert ProgressAt(init, s.mem, s.logs, s.done, tp, cfg);
    var log, whole := s.logs[tp], all[tp];
    var first, now := CheckpointAt(init, cfg.namespace, tp).value, CheckpointAt(s.mem, cfg.namespace, tp).value;
    BelowWithin(log, whole, first);
    var a, b := Below(log, first), Below(log, now);
    assert whole[a..][..b - a] == log[a..b];
    assert whole[a..][b - a] == log[b];
  }

  /** What is finished are the first of the records to be finished. */
  lemma FinishedFirst(init: Memory, s: System, all: Logs, tp: TopicPartition, cfg: Config)
    requires InOrder(init, s, cfg) && Within(s.logs, all)
    ensures DoneOf(s.done, tp) <= Live(init, all, tp, cfg)
  {
    hide CheckpointAt, WorkFits, Steady, LogsFit, DoneOf, Increasing;
    assert ProgressAt(init, s.mem, s.logs, s.done, tp, cfg);
    var log, first, now := LogOf(s.logs, tp), CheckpointAt(init, cfg.namespace, tp), CheckpointAt(s.mem, cfg.namespace, tp);
    if first.Some? && Below(log, first.value) < Below(log, now.value) {
      IncreasingLog(s, tp);
      BelowWithin(log, all[tp], first.value);
      var a, b := Below(log, first.value), Below(log, now.value);
      assert all[tp][a..][..b - a] == log[a..b];
    }
  }

  lemma IncreasingLog(s: System, tp: TopicPartition)
    requires LogsFit(s.logs) && tp in s.logs
    ensures Increasing(s.logs[tp])
  {
    assert LogFits(s.logs[tp], tp);
  }

  lemma DoneOfIsDone(done: seq<Record>, tp: TopicPartition, r: Record)
    requires r in DoneOf(done, tp)
    ensures r in done
    decreases |done|
  {
    if done != [] && r in DoneOf(done[..|done| - 1], tp) { DoneOfIsDone(done[..|done| - 1], tp, r); }
  }

  /** Finished records that would have named the cell have. */
  lemma NotYet(init: Memory, s: System, tp: TopicPartition, c: Cell, cfg: Config)
    requires Kept(init, s, cfg) && Fixed(c) && Get(s.mem, c).None?
    ensures Says(DoneOf(s.done, tp), init, cfg, c).None?
  {
    hide InOrder, PropsClean, Grown, Keyed, Get, Full, WritesAny, Says, Word, DoneOf, First;
    var recs := DoneOf(s.done, tp);
    if Says(recs, init, cfg, c).Some? {
      var i := Speaker(recs, init, cfg, c);
      DoneOfIsDone(s.done, tp, recs[i]);
      WordWrites(recs[i], init, cfg, c);
    }
  }

  lemma WordWrites(rec: Record, init: Memory, cfg: Config, c: Cell)
    ensures Word(rec, init, cfg, c).Some? <==> WritesAny(Full(rec, init, cfg), c)
  {
    hide Full, WritesAny;
  }

  // ---------- the naming step ----------

  lemma StepNames(init: Memory, s: System, e: Event, c: Cell, cfg: Config)
    requires InOrder(init, s, cfg) && Enabled(s, e, cfg) && Fixed(c)
    ensures Get(s.mem, c).Some? ==> Get(Do(s, e, cfg).mem, c) == Get(s.mem, c)
    ensures Get(s.mem, c).None? && Get(Do(s, e, cfg).mem, c).Some? ==> e.Write?
  {
    hide InOrder, Get, Apply, Full, CheckpointAt, Waiting;
    if e.Write? {
      StaysKeyed(init, s, cfg);
      ApplyCell(s.mem, s.work.todo[0], c);
    }
  }

  /** The step that gives a new record its name. */
  lemma {:induction false} NamedAt(s0: System, events: seq<Event>, s: System, c: Cell, cfg: Config) returns (k: nat, mid: System)
    requires Initial(s0) && Leads(s0, events, s, cfg) && Fixed(c) && Get(s0.mem, c).None? && Get(s.mem, c).Some?
    ensures k < |events| && events[k].Write? && Leads(s0, events[..k], mid, cfg) && Enabled(mid, Write, cfg)
    ensures Leads(Do(mid, Write, cfg), events[k + 1..], s, cfg)
    ensures Get(mid.mem, c).None? && Get(Do(mid, Write, cfg).mem, c) == Get(s.mem, c)
    decreases |events|
  {
    hide Do, Enabled, Get, Initial;
    if events == [] {
    } else {
      var before, e := events[..|events| - 1], events[|events| - 1];
      var last :| Leads(s0, before, last, cfg) && Steps(last, e, s, cfg);
      InitialInOrder(s0, cfg);
      RunFromKeeps(s0.mem, s0, before, last, cfg);
      StepNames(s0.mem, last, e, c, cfg);
      if Get(last.mem, c).Some? {
        k, mid := NamedAt(s0, before, last, c, cfg);
        LeadsMore(Do(mid, Write, cfg), before[k + 1..], last, e, s, cfg);
        assert before[k + 1..] + [e] == events[k + 1..] && before[..k] == events[..k];
      } else {
        k, mid := |before|, last;
        LeadsNowhere(s, cfg);
        assert events[..k] == before && events[k + 1..] == [];
      }
    }
  }

  /** The record being written has named nothing that is not there. */
  lemma NotNamedBefore(init: Memory, s: System, c: Cell, cfg: Config)
    requires InOrder(init, s, cfg) && Enabled(s, Write, cfg) && Fixed(c) && Get(s.mem, c).None?
    ensures var us, k := Full(s.work.batch[0], init, cfg), |s.work.written|;
            k < |us| && us[k] == s.work.todo[0] && s.work.written == us[..k] && !WritesAny(us[..k], c)
  {
    hide Full, Waiting, CheckpointAt, Run, LogsFit, ProgressAt, Get, WritesAny, First, Last, Keyed, LinksAgree;
    WrittenSoFar(init, s, cfg);
    RunCell(s.work.start, Full(s.work.batch[0], init, cfg)[..|s.work.written|], c);
  }

  /** A step that names a record does so with the word of its topic-partition, of which it
      is at the speaker. */
  lemma NamerSpeaks(init: Memory, s: System, c: Cell, all: Logs, cfg: Config)
    requires Kept(init, s, cfg) && Enabled(s, Write, cfg) && Within(s.logs, all) && Fixed(c)
    requires Get(s.mem, c).None? && Get(Do(s, Write, cfg).mem, c).Some?
    ensures var tp := s.work.tp;
            var live, i := Live(init, all, tp, cfg), |DoneOf(s.done, tp)|;
            && i < |live| && live[i] == s.work.batch[0] && Speaks(live, i, init, cfg, c)
            && Get(Do(s, Write, cfg).mem, c) == Word(live[i], init, cfg, c)
    ensures var us, k := Full(s.work.batch[0], init, cfg), |s.work.written|;
            k < |us| && WritesAny(us[..k + 1], c) && !WritesAny(us[..k], c)
  {
    hide Full, Waiting, CheckpointAt, InOrder, PropsClean, Written, Grown, Get, WritesAny, First, Last, Keyed, LinksAgree, Live, DoneOf, Says, Word, Apply, Writes, FixedContent;
    var tp := s.work.tp;
    NextOfItsPartition(init, s, all, cfg);
    NotYet(init, s, tp, c, cfg);
    NotNamedBefore(init, s, c, cfg);
    StaysKeyed(init, s, cfg);
    ApplyCell(s.mem, s.work.todo[0], c);
    FirstWriteNames(Full(s.work.batch[0], init, cfg), |s.work.written|, c);
    NamesWord(s.work.batch[0], init, cfg, c);
  }

  lemma FirstWriteNames(us: seq<Upsert>, k: nat, c: Cell)
    requires k < |us| && Writes(us[k], c) && !WritesAny(us[..k], c)
    ensures WritesAny(us[..k + 1], c) && WritesAny(us, c) && First(us, c) == FixedContent(us[k])
  {
    hide Writes, FixedContent;
    assert us[..k + 1][..k] == us[..k];
    PartWrites(us[..k + 1], us, c);
  }

  lemma NamesWord(rec: Record, init: Memory, cfg: Config, c: Cell)
    requires Fixed(c) && WritesAny(Full(rec, init, cfg), c)
    ensures Word(rec, init, cfg, c) == Some(First(Full(rec, init, cfg), c))
  {
    hide Full, WritesAny, First;
  }

  // ---------- at the end ----------

  /** Midway through a run the invariants hold, of logs that only grow. */
  lemma Midway(s0: System, before: seq<Event>, mid: System, after: seq<Event>, s: System, cfg: Config)
    requires Initial(s0) && Leads(s0, before, mid, cfg) && Enabled(mid, Write, cfg) && Leads(Do(mid, Write, cfg), after, s, cfg)
    ensures Kept(s0.mem, mid, cfg) && Within(mid.logs, s.logs)
  {
    hide Initial, Leads, Kept, Do, Enabled, Within;
    RunKeepsKept(s0, before, mid, cfg);
    AllWithin(s.logs);
    RunWithin(Do(mid, Write, cfg), after, s, s.logs, cfg);
    StepWithin(mid, Write, s.logs, cfg);
  }

  lemma NamerSays(init: Memory, s: System, c: Cell, all: Logs, cfg: Config)
    requires Kept(init, s, cfg) && Enabled(s, Write, cfg) && Within(s.logs, all) && Fixed(c)
    requires Get(s.mem, c).None? && Get(Do(s, Write, cfg).mem, c).Some?
    ensures s.work.Busy? && s.work.tp in all
    ensures var live, i := Live(init, all, s.work.tp, cfg), |DoneOf(s.done, s.work.tp)|;
            && Says(live, init, cfg, c) == Get(Do(s, Write, cfg).mem, c) && Speaker(live, init, cfg, c) == i
  {
    hide Kept, Get, Do, Live, Says, Word, Within, Speaks, DoneOf, Full, WritesAny, CanAppend, CheckpointAt;
    NamerSpeaks(init, s, c, all, cfg);
    var live, i := Live(init, all, s.work.tp, cfg), |DoneOf(s.done, s.work.tp)|;
    SpeakerIs(live, i, init, cfg, c);
    LiveIsLogged(init, all, s.work.tp, cfg);
  }

  /** In the end a new record has the name that one of the topic-partitions gives. */
  lemma NamedByOne(s0: System, events: seq<Event>, s: System, c: Cell, cfg: Config) returns (tp: TopicPartition)
    requires Initial(s0) && Leads(s0, events, s, cfg) && Fixed(c) && Get(s0.mem, c).None? && Get(s.mem, c).Some?
    ensures tp in s.logs && Says(Live(s0.mem, s.logs, tp, cfg), s0.mem, cfg, c) == Get(s.mem, c)
  {
    hide Initial, Leads, Kept, Get, Do, Enabled, Live, Says, Within, Speaker, DoneOf;
    var k, mid := NamedAt(s0, events, s, c, cfg);
    Midway(s0, events[..k], mid, events[k + 1..], s, cfg);
    NamerSays(s0.mem, mid, c, s.logs, cfg);
    tp := mid.work.tp;
  }

  lemma AllWithin(logs: Logs)
    ensures Within(logs, logs)
  {
  }

  lemma LiveIsLogged(init: Memory, logs: Logs, tp: TopicPartition, cfg: Config)
    ensures Live(init, logs, tp, cfg) != [] ==> tp in logs
  {
    hide CheckpointAt;
  }

  /** Once nothing waits, everything live is finished. */
  lemma AllFinished(s0: System, events: seq<Event>, s: System, tp: TopicPartition, cfg: Config)
    requires Initial(s0) && Leads(s0, events, s, cfg) && Drained(s, cfg)
    ensures DoneOf(s.done, tp) == Live(s0.mem, s.logs, tp, cfg)
  {
    hide InOrder, Initial, Leads, Live, DoneOf, CheckpointAt, Waiting;
    InitialInOrder(s0, cfg);
    RunFromKeeps(s0.mem, s0, events, s, cfg);
    WaitingIs(s0.mem, s, tp, cfg);
    NoneWaits(s, tp, cfg);
  }

  lemma NoneWaits(s: System, tp: TopicPartition, cfg: Config)
    requires Drained(s, cfg)
    ensures WaitingIn(s, tp, cfg) == []
  {
    hide CheckpointAt;
    if tp !in s.logs { assert LogOf(s.logs, tp) == []; }
  }

  /** Once nothing waits, whatever a topic-partition has a word for is there. */
  lemma SaidIsThere(s0: System, events: seq<Event>, s: System, tp: TopicPartition, c: Cell, cfg: Config)
    requires Initial(s0) && Leads(s0, events, s, cfg) && Drained(s, cfg) && Fixed(c)
    requires Says(Live(s0.mem, s.logs, tp, cfg), s0.mem, cfg, c).Some?
    ensures Get(s.mem, c).Some?
  {
    hide Initial, Leads, Kept, Get, Drained, Live, Says;
    RunKeepsKept(s0, events, s, cfg);
    AllFinished(s0, events, s, tp, cfg);
    if Get(s.mem, c).None? { NotYet(s0.mem, s, tp, c, cfg); }
  }
}
