/** Exactly once, exactly: the names that topic-partitions first give decide whether every
    run leaves the graph of its finished records. */
module Necessity {
  import opened Results
  import opened PropertyGraph
  import opened NodeIds
  import opened Envelopes
  import opened Upserts
  import opened Handlers
  import opened Checkpoints
  import opened IngestSystem
  import opened Progress
  import opened Runs
  import opened Sayings
  import opened Naming
  import opened ExactlyOnce

  // ---------- a run that cuts a record off ----------

  /** Names given in such a run: those of the part done early, else those given in between. */
  ghost predicate CutNamed(init: Memory, before: seq<Record>, part: seq<Upsert>, between: seq<Record>, m: Memory, cfg: Config, c: Cell) {
    Fixed(c) && Get(init, c).None? && Says(before, init, cfg, c).None? ==>
      && (WritesAny(part, c) ==> Get(m, c) == Some(First(part, c)))
      && (!WritesAny(part, c) && Says(between, init, cfg, c).Some? ==> Get(m, c) == Says(between, init, cfg, c))
  }

  /** Up to a record of p, part of that record, records of q, the record again, and the
      rest: a run that drains everything. */
  lemma CutRun(s0: System, p: TopicPartition, q: TopicPartition, i: nat, k: nat, n: nat, cfg: Config)
    returns (events: seq<Event>, s: System, rest: seq<Record>)
    requires Initial(s0) && p != q
    requires var a, b := Live(s0.mem, s0.logs, p, cfg), Live(s0.mem, s0.logs, q, cfg);
             i < |a| && k < |Full(a[i], s0.mem, cfg)| && n <= |b|
    ensures Leads(s0, events, s, cfg) && s.logs == s0.logs && Drained(s, cfg)
    ensures var a, b := Live(s0.mem, s0.logs, p, cfg), Live(s0.mem, s0.logs, q, cfg);
            && s.done == a[..i] + b[..n] + [a[i]] + rest
            && forall c :: CutNamed(s0.mem, a[..i], Full(a[i], s0.mem, cfg)[..k], b[..n], s.mem, cfg, c)
  {
    hide Initial, InOrder, Live, WaitingIn, Leads, Drained, Run, Full, WritesAny, Get, Keyed, RunRecords, DoneOf, CutNamed;
    var init := s0.mem;
    var a, b := Live(init, s0.logs, p, cfg), Live(init, s0.logs, q, cfg);
    AtFirst(s0, p, cfg);
    AtFirst(s0, q, cfg);
    var e1, s1 := ProcessSome(init, s0, p, i, cfg);
    var e2, s2 := CutOff(init, s1, p, k, cfg);
    RunFromKeeps(init, s1, e2, s2, cfg);
    assert s1.done == a[..i];
    SameWaiting(init, s0, s2, q, a[..i], p, cfg);
    var e3, s3 := ProcessSome(init, s2, q, n, cfg);
    StillFirst(init, s1, s3, p, a[..i], b[..n], q, cfg);
    var e4, s4 := ProcessNext(init, s3, p, cfg);
    RunFromKeeps(init, s3, e4, s4, cfg);
    var e5, s5 := DrainAll(init, s4, cfg);
    RunExtends(init, s4, e5, s5, NodeLabel(""), cfg);
    LeadsOn(s3, e4, s4, e5, s5, cfg);
    forall c ensures CutNamed(init, a[..i], Full(a[i], init, cfg)[..k], b[..n], s5.mem, cfg, c) {
      NamesStick(init, s1, s2, s3, e4 + e5, s5, a[..i], Full(a[i], init, cfg)[..k], b[..n], c, cfg);
    }
    LeadsOn(s0, e1, s1, e2, s2, cfg);
    LeadsOn(s0, e1 + e2, s2, e3, s3, cfg);
    LeadsOn(s0, e1 + e2 + e3, s3, e4 + e5, s5, cfg);
    events, s, rest := e1 + e2 + e3 + (e4 + e5), s5, s5.done[|s4.done|..];
    assert s5.done == s4.done + rest;
  }

  /** After records of another topic-partition the cut-off record still waits first. */
  lemma StillFirst(init: Memory, s: System, t: System, tp: TopicPartition, before: seq<Record>, between: seq<Record>, own: TopicPartition, cfg: Config)
    requires InOrder(init, s, cfg) && InOrder(init, t, cfg) && t.logs == s.logs && tp != own
    requires s.done == before && t.done == before + between && between <= Live(init, s.logs, own, cfg)
    ensures WaitingIn(t, tp, cfg) == WaitingIn(s, tp, cfg)
  {
    hide InOrder, Live, WaitingIn, DoneOf;
    WaitingIs(init, s, tp, cfg);
    WaitingIs(init, t, tp, cfg);
    LiveFits(init, s, own, cfg);
    NoneOf(between, tp);
    DoneOfOver(before, between, tp);
  }

  lemma NamesStick(init: Memory, s1: System, s2: System, s3: System, after: seq<Event>, s: System, before: seq<Record>, part: seq<Upsert>,
                   between: seq<Record>, c: Cell, cfg: Config)
    requires Keyed(init) && InOrder(init, s3, cfg) && Leads(s3, after, s, cfg)
    requires s1.mem == RunRecords(init, before, init, cfg) && s2.mem == Run(s1.mem, part) && s3.mem == RunRecords(s2.mem, between, init, cfg)
    ensures CutNamed(init, before, part, between, s.mem, cfg, c)
  {
    hide InOrder, Leads, Run, WritesAny, First, Get, Keyed, RunRecords, Says;
    RecordsLeave(init, before, init, cfg, c);
    RunCell(s1.mem, part, c);
    RecordsLeave(s2.mem, between, init, cfg, c);
    RunExtends(init, s3, after, s, c, cfg);
  }

  /** At the start everything live waits. */
  lemma AtFirst(s0: System, tp: TopicPartition, cfg: Config)
    requires Initial(s0)
    ensures InOrder(s0.mem, s0, cfg) && WaitingIn(s0, tp, cfg) == Live(s0.mem, s0.logs, tp, cfg)
    ensures Keyed(s0.mem) && s0.work.Idle? && s0.done == []
  {
    hide InOrder, Waiting, LogsFit, Keyed;
    InitialInOrder(s0, cfg);
  }

  /** Finishing records of one topic-partition leaves another's waiting. */
  lemma SameWaiting(init: Memory, s0: System, s: System, tp: TopicPartition, recs: seq<Record>, own: TopicPartition, cfg: Config)
    requires InOrder(init, s0, cfg) && InOrder(init, s, cfg) && s.logs == s0.logs && tp != own && s0.done == []
    requires s.done == recs && recs <= Live(init, s0.logs, own, cfg)
    ensures WaitingIn(s, tp, cfg) == WaitingIn(s0, tp, cfg)
  {
    hide InOrder, Live, WaitingIn, DoneOf;
    WaitingIs(init, s0, tp, cfg);
    WaitingIs(init, s, tp, cfg);
    LiveFits(init, s0, own, cfg);
    NoneOf([], tp);
    NoneOf(recs, tp);
  }

  lemma LiveFits(init: Memory, s: System, tp: TopicPartition, cfg: Config)
    requires InOrder(init, s, cfg)
    ensures forall r | r in Live(init, s.logs, tp, cfg) :: r.Tp() == tp
  {
    hide CheckpointAt, WorkFits, Steady, ProgressAt, Below;
    if tp in s.logs { assert LogFits(s.logs[tp], tp); }
  }

  lemma {:induction false} NoneOf(recs: seq<Record>, tp: TopicPartition)
    requires forall r | r in recs :: r.Tp() != tp
    ensures DoneOf(recs, tp) == []
    decreases |recs|
  {
    if recs != [] { NoneOf(recs[..|recs| - 1], tp); }
  }

  // ---------- a run that betrays ----------

  /** All a record does but its commit. */
  ghost function Front(rec: Record, init: Memory, cfg: Config): seq<Upsert> {
    Full(rec, init, cfg)[..|Full(rec, init, cfg)| - 1]
  }

  /** A record is named early and cut off, another topic-partition names it differently and
      finishes, the rest follows: the graph keeps the early name. */
  lemma Betrayal(s0: System, p: TopicPartition, q: TopicPartition, c: Cell, cfg: Config) returns (events: seq<Event>, s: System)
    requires Initial(s0) && p != q && Fixed(c) && Get(s0.mem, c).None?
    requires var a, b := Live(s0.mem, s0.logs, p, cfg), Live(s0.mem, s0.logs, q, cfg);
             var x, y := Says(a, s0.mem, cfg, c), Says(b, s0.mem, cfg, c);
             x.Some? && y.Some? && x != y && WritesAny(Front(a[Speaker(a, s0.mem, cfg, c)], s0.mem, cfg), c)
    ensures Leads(s0, events, s, cfg) && s.logs == s0.logs && Drained(s, cfg) && s.mem != Replay(s0.mem, s.done, cfg)
  {
    hide Live, Leads, Drained, Full, WritesAny, First, Get, Keyed, Replay, Says, Word, LogsFit;
    var init := s0.mem;
    var a, b := Live(init, s0.logs, p, cfg), Live(init, s0.logs, q, cfg);
    var i, rest := Speaker(a, init, cfg, c), [];
    SpeakerIs(a, i, init, cfg, c);
    var us := Full(a[i], init, cfg);
    FullNotEmpty(a[i], init, cfg);
    events, s, rest := CutRun(s0, p, q, i, |us| - 1, |b|, cfg);
    assert b[..|b|] == b;
    assert CutNamed(init, a[..i], us[..|us| - 1], b, s.mem, cfg, c);
    PartWrites(us[..|us| - 1], us, c);
    NamesWord(a[i], init, cfg, c);
    SaysOver(a[..i] + b, [a[i]] + rest, init, cfg, c);
    SaysOver(a[..i], b, init, cfg, c);
    assert s.done == a[..i] + b + ([a[i]] + rest);
    ReplaySays(init, s.done, cfg, c);
  }

  // ---------- exactly when ----------

  /** A name that only commits give is given by one topic-partition's commits. */
  lemma SomeFrontNames(r: Record, t: Record, init: Memory, cfg: Config, c: Cell)
    requires r.Tp() != t.Tp() && WritesAny(Full(r, init, cfg), c) && WritesAny(Full(t, init, cfg), c)
    ensures WritesAny(Front(r, init, cfg), c) || WritesAny(Front(t, init, cfg), c)
  {
    hide Ups, CheckpointNodeID;
    var u, v := CommitUp(cfg.namespace, r.source), CommitUp(cfg.namespace, t.source);
    if Writes(u, c) && Writes(v, c) {
      CheckpointsDistinct(cfg.namespace, r.source.topic, r.source.partition, t.source.topic, t.source.partition);
    }
  }

  /** Two topic-partitions with different first names have a run that betrays them. */
  lemma ClashingRun(s0: System, p: TopicPartition, q: TopicPartition, c: Cell, cfg: Config) returns (events: seq<Event>, s: System)
    requires Initial(s0) && Fixed(c) && Get(s0.mem, c).None?
    requires var x, y := Voice(s0.mem, s0.logs, p, cfg, c), Voice(s0.mem, s0.logs, q, cfg, c); x.Some? && y.Some? && x != y
    ensures Leads(s0, events, s, cfg) && s.logs == s0.logs && Drained(s, cfg) && s.mem != Replay(s0.mem, s.done, cfg)
  {
    hide Initial, InOrder, Live, Leads, Drained, Full, Front, WritesAny, Get, Keyed, Replay, Says, Word;
    var init := s0.mem;
    var a, b := Live(init, s0.logs, p, cfg), Live(init, s0.logs, q, cfg);
    var i, j := Speaker(a, init, cfg, c), Speaker(b, init, cfg, c);
    AtFirst(s0, p, cfg);
    LiveFits(init, s0, p, cfg);
    LiveFits(init, s0, q, cfg);
    assert a[i] in a && b[j] in b;
    WordWrites(a[i], init, cfg, c);
    WordWrites(b[j], init, cfg, c);
    SomeFrontNames(a[i], b[j], init, cfg, c);
    if WritesAny(Front(a[i], init, cfg), c) {
      events, s := Betrayal(s0, p, q, c, cfg);
    } else {
      events, s := Betrayal(s0, q, p, c, cfg);
    }
  }

  predicate AllArrivals(events: seq<Event>) {
    forall e | e in events :: e.Append?
  }

  /** Arrivals alone leave the system at its start, with longer logs. */
  lemma {:induction false} OnlyArrived(s0: System, arrivals: seq<Event>, s1: System, cfg: Config)
    requires Initial(s0) && Leads(s0, arrivals, s1, cfg) && AllArrivals(arrivals)
    ensures Initial(s1) && s1.mem == s0.mem
    decreases |arrivals|
  {
    hide CanAppend, LogFits, Keyed;
    if arrivals != [] {
      var before, e := arrivals[..|arrivals| - 1], arrivals[|arrivals| - 1];
      var mid :| Leads(s0, before, mid, cfg) && Steps(mid, e, s1, cfg);
      OnlyArrived(s0, before, mid, cfg);
      assert e in arrivals;
      AppendFits(mid.logs, e.rec);
    }
  }

  /** Every run that ends with these logs drained leaves the graph of its finished records. */
  ghost predicate AlwaysOnce(s0: System, logs: Logs, cfg: Config) {
    forall events, s | Leads(s0, events, s, cfg) && s.logs == logs && Drained(s, cfg) :: s.mem == Replay(s0.mem, s.done, cfg)
  }

  /** Exactly-once effect, exactly: whatever arrives, every run that drains it leaves the
      graph of its finished records if and only if no two topic-partitions first give a new
      record different names. */
  lemma ExactlyOnceIff(s0: System, arrivals: seq<Event>, s1: System, cfg: Config)
    requires Initial(s0) && Leads(s0, arrivals, s1, cfg) && AllArrivals(arrivals)
    ensures NamesAgree(s0.mem, s1.logs, cfg) <==> AlwaysOnce(s0, s1.logs, cfg)
  {
    hide Initial, Leads, NamesAgree, Drained, Replay, Live, Says, Get;
    if NamesAgree(s0.mem, s1.logs, cfg) {
      forall events, s | Leads(s0, events, s, cfg) && s.logs == s1.logs && Drained(s, cfg)
        ensures s.mem == Replay(s0.mem, s.done, cfg)
      {
        ExactlyOnceEffect(s0, events, s, cfg);
      }
    } else {
      OnlyArrived(s0, arrivals, s1, cfg);
      var p, q, c := Disagreement(s0.mem, s1.logs, cfg);
      var events, s := ClashingRun(s1, p, q, c, cfg);
      LeadsOn(s0, arrivals, s1, events, s, cfg);
    }
  }

  lemma Disagreement(init: Memory, logs: Logs, cfg: Config) returns (p: TopicPartition, q: TopicPartition, c: Cell)
    requires !NamesAgree(init, logs, cfg)
    ensures Fixed(c) && Get(init, c).None?
    ensures var x, y := Voice(init, logs, p, cfg, c), Voice(init, logs, q, cfg, c); x.Some? && y.Some? && x != y
  {
    hide Voice, Get;
    p, q, c :| p in logs && q in logs && Fixed(c) && Get(init, c).None?
      && !SameName(Voice(init, logs, p, cfg, c), Voice(init, logs, q, cfg, c));
  }
}
