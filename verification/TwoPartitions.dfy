/** When every run is explained by some order of the records, exactly, for two
    topic-partitions: unless one record of either gives a new record its name, differs there
    from the other's, and differs in something else as well that it writes no earlier. */
module TwoPartitions {
  import opened PropertyGraph
  import opened Envelopes
  import opened Upserts
  import opened RecordEffects
  import opened Checkpoints
  import opened IngestSystem
  import opened Progress
  import opened Settled
  import opened Runs
  import opened Sayings
  import opened Naming
  import opened ExactlyOnce
  import opened Necessity
  import opened Orders
  import opened Merging

  // ---------- drained runs of two topic-partitions ----------

  lemma LiveHolds(s0: System, events: seq<Event>, s: System, p: TopicPartition, q: TopicPartition, cfg: Config)
    requires Initial(s0) && Leads(s0, events, s, cfg) && Drained(s, cfg) && OnlyTwo(s0.mem, s.logs, p, q, cfg)
    ensures Holds(s.done, p, Live(s0.mem, s.logs, p, cfg), q, Live(s0.mem, s.logs, q, cfg))
  {
    hide Initial, Leads, Drained, Live, DoneOf;
    forall tp ensures DoneOf(s.done, tp) == Live(s0.mem, s.logs, tp, cfg) { AllFinished(s0, events, s, tp, cfg); }
  }

  /** Every cell is in the end what one of the two says, and as before if neither has a word. */
  lemma FinalCell(s0: System, events: seq<Event>, s: System, p: TopicPartition, q: TopicPartition, c: Cell, cfg: Config)
    requires Initial(s0) && Leads(s0, events, s, cfg) && Drained(s, cfg) && OnlyTwo(s0.mem, s.logs, p, q, cfg)
    requires Fixed(c) ==> Get(s0.mem, c).None?
    ensures var x, y := Says(Live(s0.mem, s.logs, p, cfg), s0.mem, cfg, c), Says(Live(s0.mem, s.logs, q, cfg), s0.mem, cfg, c);
            if x.None? && y.None? then Get(s.mem, c) == Get(s0.mem, c) else Get(s.mem, c).Some? && (Get(s.mem, c) == x || Get(s.mem, c) == y)
  {
    hide Initial, Leads, Drained, Keyed, Says, Get, Holds, Live;
    var a, b := Live(s0.mem, s.logs, p, cfg), Live(s0.mem, s.logs, q, cfg);
    if !Fixed(c) {
      LiveHolds(s0, events, s, p, q, cfg);
      FinalValue(s0, events, s, c, cfg);
      SaidByEither(s.done, p, a, q, b, s0.mem, cfg, c);
    } else {
      if Get(s.mem, c).Some? {
        var tp := NamedByOne(s0, events, s, c, cfg);
        NothingSaid(s0.mem, cfg, c);
      }
      if Says(a, s0.mem, cfg, c).Some? { SaidIsThere(s0, events, s, p, c, cfg); }
      if Says(b, s0.mem, cfg, c).Some? { SaidIsThere(s0, events, s, q, c, cfg); }
    }
  }

  // ---------- when a name is given ----------

  /** One of p's records is about to give the name that a gives; b's speaker is not finished. */
  ghost predicate AtName(init: Memory, s: System, p: TopicPartition, a: seq<Record>, q: TopicPartition, b: seq<Record>, cfg: Config, c: Cell) {
    && Enabled(s, Write, cfg) && s.work.tp == p
    && Get(s.mem, c).None? && Get(Do(s, Write, cfg).mem, c).Some?
    && Says(a, init, cfg, c).Some? && Says(b, init, cfg, c).Some?
    && DoneOf(s.done, p) == a[..Speaker(a, init, cfg, c)] && s.work.batch[0] == a[Speaker(a, init, cfg, c)]
    && |DoneOf(s.done, q)| <= Speaker(b, init, cfg, c) && DoneOf(s.done, q) <= b
  }

  /** The upsert that gives the name is the first to write it. */
  ghost predicate WritesNow(init: Memory, s: System, cfg: Config, c: Cell) {
    && s.work.Busy? && s.work.batch != []
    && var us, k := Full(s.work.batch[0], init, cfg), |s.work.written|;
       k < |us| && k + |s.work.todo| == |us| && WritesAny(us[..k + 1], c) && !WritesAny(us[..k], c)
  }

  lemma NamedBy(s0: System, events: seq<Event>, s: System, p: TopicPartition, q: TopicPartition, c: Cell, cfg: Config) returns (k: nat, mid: System)
    requires Initial(s0) && Leads(s0, events, s, cfg) && Drained(s, cfg) && OnlyTwo(s0.mem, s.logs, p, q, cfg) && Fixed(c)
    requires var a, b := Live(s0.mem, s.logs, p, cfg), Live(s0.mem, s.logs, q, cfg);
             Disagree(s0.mem, a, b, cfg, c) && Get(s.mem, c) == Says(a, s0.mem, cfg, c)
    ensures AtName(s0.mem, mid, p, Live(s0.mem, s.logs, p, cfg), q, Live(s0.mem, s.logs, q, cfg), cfg, c)
    ensures Kept(s0.mem, mid, cfg) && WritesNow(s0.mem, mid, cfg, c)
    ensures k < |events| && events[k].Write? && Leads(s0, events[..k], mid, cfg) && Leads(Do(mid, Write, cfg), events[k + 1..], s, cfg)
  {
    hide Initial, Leads, Drained, Kept, Get, Do, Enabled, Live, Says, Word, Within, DoneOf, Full, WritesAny;
    k, mid := NamedAt(s0, events, s, c, cfg);
    Midway(s0, events[..k], mid, events[k + 1..], s, cfg);
    AtItsName(s0.mem, mid, p, q, s.logs, c, cfg);
  }

  lemma AtItsName(init: Memory, s: System, p: TopicPartition, q: TopicPartition, all: Logs, c: Cell, cfg: Config)
    requires Kept(init, s, cfg) && Enabled(s, Write, cfg) && Within(s.logs, all) && Fixed(c) && OnlyTwo(init, all, p, q, cfg)
    requires Get(s.mem, c).None? && Get(Do(s, Write, cfg).mem, c).Some?
    requires var a, b := Live(init, all, p, cfg), Live(init, all, q, cfg);
             Disagree(init, a, b, cfg, c) && Get(Do(s, Write, cfg).mem, c) == Says(a, init, cfg, c)
    ensures AtName(init, s, p, Live(init, all, p, cfg), q, Live(init, all, q, cfg), cfg, c) && WritesNow(init, s, cfg, c)
  {
    hide Get, Do, Live, Says, Word, Within, DoneOf, Full, WritesAny, Speaks, LogsFit, PropsClean, Written, Grown, Keyed, WorkFits, ProgressAt, LinksAgree;
    var b, n := Live(init, all, q, cfg), |DoneOf(s.done, q)|;
    NamerSpeaks(init, s, c, all, cfg);
    NamerSays(init, s, c, all, cfg);
    NothingSaid(init, cfg, c);
    NextOfItsPartition(init, s, all, cfg);
    NotYet(init, s, q, c, cfg);
    FinishedFirst(init, s, all, q, cfg);
    assert b[..n] == DoneOf(s.done, q);
    RestSays(b, n, init, cfg, c);
    WrittenSoFar(init, s, cfg);
  }

  /** What is finished once the upsert is done. */
  lemma AfterName(init: Memory, s: System, p: TopicPartition, a: seq<Record>, q: TopicPartition, b: seq<Record>, cfg: Config, c: Cell)
    requires Kept(init, s, cfg) && AtName(init, s, p, a, q, b, cfg, c) && WritesNow(init, s, cfg, c) && p != q
    ensures var t, i, last := Do(s, Write, cfg), Speaker(a, init, cfg, c), |s.work.written| + 1 == |Full(a[Speaker(a, init, cfg, c)], init, cfg)|;
            && DoneOf(t.done, p) == (if last then a[..i + 1] else a[..i]) && DoneOf(t.done, q) == DoneOf(s.done, q)
  {
    hide Get, Apply, Says, Word, DoneOf, Full, WritesAny, LogsFit, PropsClean, Written, Grown, Keyed, WorkFits, ProgressAt, LinksAgree, Waiting, CheckpointAt;
    BatchRecord(init, s, cfg);
    DoneMore(s.done, s.work.batch[0], p);
    DoneMore(s.done, s.work.batch[0], q);
    var i := Speaker(a, init, cfg, c);
    assert a[..i] + [a[i]] == a[..i + 1];
  }

  /** A name of a's, and a property of a's that b's record, which is later there, did not
      override: the record was cut off after it gave the name. */
  lemma NameThenValue(s0: System, events: seq<Event>, s: System, p: TopicPartition, q: TopicPartition, c: Cell, d: Cell, cfg: Config)
    requires Initial(s0) && Leads(s0, events, s, cfg) && Drained(s, cfg) && OnlyTwo(s0.mem, s.logs, p, q, cfg) && Fixed(c) && !Fixed(d)
    requires var a, b := Live(s0.mem, s.logs, p, cfg), Live(s0.mem, s.logs, q, cfg);
             && Disagree(s0.mem, a, b, cfg, c) && Disagree(s0.mem, a, b, cfg, d)
             && Get(s.mem, c) == Says(a, s0.mem, cfg, c) && Get(s.mem, d) == Says(a, s0.mem, cfg, d)
             && Speaker(b, s0.mem, cfg, c) <= Speaker(b, s0.mem, cfg, d) && Speaker(a, s0.mem, cfg, d) <= Speaker(a, s0.mem, cfg, c)
    ensures ObstructedAt(s0.mem, Live(s0.mem, s.logs, p, cfg), Live(s0.mem, s.logs, q, cfg), c, d, cfg)
  {
    hide Initial, Leads, Drained, Kept, Get, Live, Says, Word, DoneOf, Full, WritesAny, Holds, InOrder, Apply;
    var init, a, b := s0.mem, Live(s0.mem, s.logs, p, cfg), Live(s0.mem, s.logs, q, cfg);
    var k, mid := NamedBy(s0, events, s, p, q, c, cfg);
    AfterName(init, mid, p, a, q, b, cfg, c);
    var t, i, n, w := Do(mid, Write, cfg), Speaker(a, init, cfg, c), |DoneOf(mid.done, q)|, |mid.work.written|;
    var us := Full(a[i], init, cfg);
    DoneLater(s0, events, s, k, mid, cfg);
    LiveHolds(s0, events, s, p, q, cfg);
    FinalValue(s0, events, s, d, cfg);
    SaidByEither(s.done, p, a, q, b, init, cfg, d);
    var rest := s.done[|t.done|..];
    assert t.done + rest == s.done && b[..n] == DoneOf(t.done, q);
    var m := if w + 1 == |us| then i + 1 else i;
    HoldsRest(t.done, rest, p, a, m, q, b, n);
    ValueStays(t.done, rest, p, a, m, q, b, n, init, cfg, d);
    assert CutBetween(us, w + 1, c, d);
  }

  /** What is finished midway stays finished. */
  lemma DoneLater(s0: System, events: seq<Event>, s: System, k: nat, mid: System, cfg: Config)
    requires Initial(s0) && k < |events| && Leads(s0, events[..k], mid, cfg) && Enabled(mid, Write, cfg)
    requires Leads(Do(mid, Write, cfg), events[k + 1..], s, cfg)
    ensures Do(mid, Write, cfg).done <= s.done
  {
    hide InOrder, Leads, Do, Enabled, LogsFit, Keyed;
    InitialInOrder(s0, cfg);
    RunFromKeeps(s0.mem, s0, events[..k], mid, cfg);
    StepKeeps(s0.mem, mid, Write, cfg);
    RunExtends(s0.mem, Do(mid, Write, cfg), events[k + 1..], s, NodeLabel(""), cfg);
  }

  /** Two names, a's given first: a's record was cut off after it gave the name. */
  lemma NameThenName(s0: System, events: seq<Event>, s: System, p: TopicPartition, q: TopicPartition, c: Cell, d: Cell,
                     k: nat, mid: System, l: nat, late: System, cfg: Config)
    requires Initial(s0) && p != q && Fixed(c) && Fixed(d) && k < l <= |events|
    requires var a, b := Live(s0.mem, s.logs, p, cfg), Live(s0.mem, s.logs, q, cfg);
             && Disagree(s0.mem, a, b, cfg, c) && Disagree(s0.mem, a, b, cfg, d)
             && Speaker(b, s0.mem, cfg, c) <= Speaker(b, s0.mem, cfg, d) && Speaker(a, s0.mem, cfg, d) <= Speaker(a, s0.mem, cfg, c)
             && AtName(s0.mem, mid, p, a, q, b, cfg, c)
    requires Kept(s0.mem, mid, cfg) && WritesNow(s0.mem, mid, cfg, c)
    requires events[k].Write? && Leads(s0, events[..k], mid, cfg) && Leads(s0, events[..l], late, cfg) && Get(late.mem, d).None?
    ensures ObstructedAt(s0.mem, Live(s0.mem, s.logs, p, cfg), Live(s0.mem, s.logs, q, cfg), c, d, cfg)
  {
    hide Initial, Leads, Kept, Get, Live, Says, Word, DoneOf, Full, WritesAny, Do, Enabled;
    var init, a, b := s0.mem, Live(s0.mem, s.logs, p, cfg), Live(s0.mem, s.logs, q, cfg);
    StillNone(s0, events, k, mid, l, late, d, cfg);
    NotYet(init, mid, p, d, cfg);
    var i, w := Speaker(a, init, cfg, c), |mid.work.written|;
    RestSays(a, i, init, cfg, d);
    NotWrittenNow(init, mid, d, cfg);
    WordWrites(a[i], init, cfg, d);
    AllOf(Full(a[i], init, cfg), w + 1);
    assert CutBetween(Full(a[i], init, cfg), w + 1, c, d);
  }

  lemma AllOf(us: seq<Upsert>, n: nat)
    requires n <= |us|
    ensures n == |us| ==> us[..n] == us
  {
  }

  /** A name that is not there later is not there just after an earlier step. */
  lemma StillNone(s0: System, events: seq<Event>, k: nat, mid: System, l: nat, late: System, d: Cell, cfg: Config)
    requires Initial(s0) && Fixed(d) && k < l <= |events| && events[k].Write? && Enabled(mid, Write, cfg)
    requires Leads(s0, events[..k], mid, cfg) && Leads(s0, events[..l], late, cfg) && Get(late.mem, d).None?
    ensures Get(Do(mid, Write, cfg).mem, d).None? && Get(mid.mem, d).None?
  {
    hide InOrder, Leads, Get, Do, Enabled, LogsFit, Keyed;
    var early, after := events[..l][..k + 1], Do(mid, Write, cfg);
    var between := SplitRun(s0, events[..l], k + 1, late, cfg);
    LeadsMore(s0, events[..k], mid, Write, after, cfg);
    assert events[..k] + [Write] == early;
    SameRun(s0, early, between, after, cfg);
    InitialInOrder(s0, cfg);
    RunFromKeeps(s0.mem, s0, events[..k], mid, cfg);
    StepKeeps(s0.mem, mid, Write, cfg);
    RunExtends(s0.mem, after, events[..l][k + 1..], late, d, cfg);
    StepNames(s0.mem, mid, Write, d, cfg);
  }

  lemma NotWrittenNow(init: Memory, s: System, d: Cell, cfg: Config)
    requires Kept(init, s, cfg) && Enabled(s, Write, cfg) && Fixed(d) && Get(Do(s, Write, cfg).mem, d).None? && Get(s.mem, d).None?
    ensures var us, k := Full(s.work.batch[0], init, cfg), |s.work.written|; k < |us| && !WritesAny(us[..k + 1], d)
  {
    hide Full, Waiting, CheckpointAt, InOrder, PropsClean, Written, Grown, Get, Keyed, Apply, Writes;
    var us, k := Full(s.work.batch[0], init, cfg), |s.work.written|;
    NotNamedBefore(init, s, d, cfg);
    StaysKeyed(init, s, cfg);
    ApplyCell(s.mem, s.work.todo[0], d);
    assert us[..k + 1][..k] == us[..k];
  }

  /** Two names, each given by the topic-partition whose record for the other's is not
      earlier: one of the two records was cut off after it gave the name. */
  lemma NamesCross(s0: System, events: seq<Event>, s: System, p: TopicPartition, q: TopicPartition, c: Cell, d: Cell, cfg: Config)
    requires Initial(s0) && Leads(s0, events, s, cfg) && Drained(s, cfg) && OnlyTwo(s0.mem, s.logs, p, q, cfg) && Fixed(c) && Fixed(d)
    requires var a, b := Live(s0.mem, s.logs, p, cfg), Live(s0.mem, s.logs, q, cfg);
             && Disagree(s0.mem, a, b, cfg, c) && Disagree(s0.mem, a, b, cfg, d)
             && Get(s.mem, c) == Says(a, s0.mem, cfg, c) && Get(s.mem, d) == Says(b, s0.mem, cfg, d)
             && Speaker(b, s0.mem, cfg, c) <= Speaker(b, s0.mem, cfg, d) && Speaker(a, s0.mem, cfg, d) <= Speaker(a, s0.mem, cfg, c)
    ensures var a, b := Live(s0.mem, s.logs, p, cfg), Live(s0.mem, s.logs, q, cfg);
            ObstructedAt(s0.mem, a, b, c, d, cfg) || ObstructedAt(s0.mem, b, a, d, c, cfg)
  {
    hide Initial, Leads, Drained, Kept, Get, Live, Says, Word, Do, Enabled, WritesNow;
    var k, mid := NamedBy(s0, events, s, p, q, c, cfg);
    var l, late := NamedBy(s0, events, s, q, p, d, cfg);
    if k < l {
      NameThenName(s0, events, s, p, q, c, d, k, mid, l, late, cfg);
    } else if l < k {
      NameThenName(s0, events, s, q, p, d, c, l, late, k, mid, cfg);
    } else {
      SameRun(s0, events[..k], mid, late, cfg);
    }
  }

  // ---------- unobstructed runs are explained ----------

  /** What a drained graph shows contradicts itself only where a record is in the way. */
  lemma NoCycle(s0: System, events: seq<Event>, s: System, p: TopicPartition, q: TopicPartition, c: Cell, cfg: Config)
    requires Initial(s0) && Leads(s0, events, s, cfg) && Drained(s, cfg) && OnlyTwo(s0.mem, s.logs, p, q, cfg)
    requires var a, b := Live(s0.mem, s.logs, p, cfg), Live(s0.mem, s.logs, q, cfg);
             !Obstructed(s0.mem, a, b, cfg) && !Obstructed(s0.mem, b, a, cfg)
    ensures !Cycle(s0.mem, s.mem, Live(s0.mem, s.logs, p, cfg), Live(s0.mem, s.logs, q, cfg), cfg, c)
  {
    hide Initial, Leads, Drained, Get, Live, Says, ObstructedAt;
    var init, a, b := s0.mem, Live(s0.mem, s.logs, p, cfg), Live(s0.mem, s.logs, q, cfg);
    if Cycle(init, s.mem, a, b, cfg, c) {
      var d :| MustFor(init, s.mem, a, b, Speaker(b, init, cfg, c), Speaker(a, init, cfg, c), cfg, d);
      FinalCell(s0, events, s, p, q, c, cfg);
      FinalCell(s0, events, s, p, q, d, cfg);
      Contradiction(s0, events, s, p, q, c, d, cfg);
    }
  }

  /** Two cells whose outcomes call for opposite orders. */
  lemma Contradiction(s0: System, events: seq<Event>, s: System, p: TopicPartition, q: TopicPartition, c: Cell, d: Cell, cfg: Config)
    requires Initial(s0) && Leads(s0, events, s, cfg) && Drained(s, cfg) && OnlyTwo(s0.mem, s.logs, p, q, cfg)
    requires var a, b := Live(s0.mem, s.logs, p, cfg), Live(s0.mem, s.logs, q, cfg);
             && Disagree(s0.mem, a, b, cfg, c) && Disagree(s0.mem, a, b, cfg, d)
             && Get(s.mem, c) == Says(if Fixed(c) then a else b, s0.mem, cfg, c) && Get(s.mem, d) == Says(if Fixed(d) then b else a, s0.mem, cfg, d)
             && Speaker(b, s0.mem, cfg, c) <= Speaker(b, s0.mem, cfg, d) && Speaker(a, s0.mem, cfg, d) <= Speaker(a, s0.mem, cfg, c)
    ensures var a, b := Live(s0.mem, s.logs, p, cfg), Live(s0.mem, s.logs, q, cfg);
            ObstructedAt(s0.mem, a, b, c, d, cfg) || ObstructedAt(s0.mem, b, a, d, c, cfg)
  {
    hide Initial, Leads, Drained, Get, Live, Says, Word, CutBetween, Holds;
    if Fixed(c) && Fixed(d) {
      NamesCross(s0, events, s, p, q, c, d, cfg);
    } else if Fixed(c) {
      NameThenValue(s0, events, s, p, q, c, d, cfg);
    } else if Fixed(d) {
      NameThenValue(s0, events, s, q, p, d, c, cfg);
    } else {
      LiveHolds(s0, events, s, p, q, cfg);
      var a, b := Live(s0.mem, s.logs, p, cfg), Live(s0.mem, s.logs, q, cfg);
      SaidByEither(s.done, p, a, q, b, s0.mem, cfg, c);
      SaidByEither(s.done, p, a, q, b, s0.mem, cfg, d);
      FinalValue(s0, events, s, c, cfg);
      FinalValue(s0, events, s, d, cfg);
      ValuesInOrder(s.done, p, a, q, b, s0.mem, cfg, c, d);
    }
  }

  /** Then the merge is an order that explains the run. */
  lemma RunExplained(s0: System, events: seq<Event>, s: System, p: TopicPartition, q: TopicPartition, cfg: Config)
    requires Initial(s0) && Leads(s0, events, s, cfg) && Drained(s, cfg) && OnlyTwo(s0.mem, s.logs, p, q, cfg)
    requires var a, b := Live(s0.mem, s.logs, p, cfg), Live(s0.mem, s.logs, q, cfg);
             !Obstructed(s0.mem, a, b, cfg) && !Obstructed(s0.mem, b, a, cfg)
    ensures Explained(s0.mem, s.logs, s.mem, cfg)
  {
    hide Initial, Leads, Drained, Get, Live, Says, Obstructed, Cycle, Merge, DoneOf, Replay, Keyed, LinksAgree, InOrder;
    var init, a, b := s0.mem, Live(s0.mem, s.logs, p, cfg), Live(s0.mem, s.logs, q, cfg);
    var order := Merge(init, s.mem, a, b, 0, 0, cfg);
    RunIsKeyed(s0, events, s, cfg);
    forall c ensures Get(s.mem, c) == Get(Replay(init, order, cfg), c) {
      ReplaySays(init, order, cfg, c);
      if Fixed(c) && Get(init, c).Some? {
        OldNamesStay(s0, events, s, c, cfg);
      } else {
        NoCycle(s0, events, s, p, q, c, cfg);
        FinalCell(s0, events, s, p, q, c, cfg);
        MergeShows(init, s.mem, a, b, cfg, c);
      }
    }
    SteadyReplay(init, order, cfg);
    CellsDetermine(s.mem, Replay(init, order, cfg));
    MergeTakes(s0, events, s, p, q, order, cfg);
  }

  lemma MergeTakes(s0: System, events: seq<Event>, s: System, p: TopicPartition, q: TopicPartition, order: seq<Record>, cfg: Config)
    requires Initial(s0) && Leads(s0, events, s, cfg) && OnlyTwo(s0.mem, s.logs, p, q, cfg)
    requires order == Merge(s0.mem, s.mem, Live(s0.mem, s.logs, p, cfg), Live(s0.mem, s.logs, q, cfg), 0, 0, cfg)
    ensures Respects(order, s0.mem, s.logs, cfg)
  {
    hide Leads, Live, Merge, DoneOf, InOrder, LogsFit, Keyed;
    var a, b := Live(s0.mem, s.logs, p, cfg), Live(s0.mem, s.logs, q, cfg);
    InitialInOrder(s0, cfg);
    RunFromKeeps(s0.mem, s0, events, s, cfg);
    LiveFits(s0.mem, s, p, cfg);
    LiveFits(s0.mem, s, q, cfg);
    assert a[0..] == a && b[0..] == b;
    forall tp ensures DoneOf(order, tp) == Live(s0.mem, s.logs, tp, cfg) {
      MergeRespects(s0.mem, s.mem, a, b, 0, 0, p, q, tp, cfg);
    }
  }

  // ---------- obstructed runs ----------

  /** No order that respects the topic-partitions says of c what a says, and of d what a cut
      in between leaves. */
  lemma NoOrderSays(order: seq<Record>, p: TopicPartition, a: seq<Record>, q: TopicPartition, b: seq<Record>, init: Memory, cfg: Config, c: Cell, d: Cell)
    requires Holds(order, p, a, q, b) && ObstructedAt(init, a, b, c, d, cfg) && Says(order, init, cfg, c) == Says(a, init, cfg, c)
    ensures Fixed(d) ==> Says(order, init, cfg, d) == Says(a, init, cfg, d)
    ensures !Fixed(d) ==> Says(order, init, cfg, d) != Says(a, init, cfg, d)
  {
    hide Says, Word, Holds, CutBetween;
    var i := Speaker(a, init, cfg, c);
    var first, rest, n := SplitTwo(order, p, a, i, q, b);
    assert first + [a[i]] + rest == first + ([a[i]] + rest);
    NameStands(first, [a[i]] + rest, p, a, i, q, b, n, init, cfg, c);
    if Fixed(d) {
      NameGiven(first, rest, p, a, q, b, n, init, cfg, d);
    } else if Says(order, init, cfg, d) == Says(a, init, cfg, d) {
      ValueStays(first + [a[i]], rest, p, a, i + 1, q, b, n, init, cfg, d);
    }
  }

  /** The run that is cut off there. */
  lemma CutThere(s0: System, p: TopicPartition, q: TopicPartition, c: Cell, d: Cell, cfg: Config) returns (events: seq<Event>, s: System)
    requires Initial(s0) && OnlyTwo(s0.mem, s0.logs, p, q, cfg)
    requires ObstructedAt(s0.mem, Live(s0.mem, s0.logs, p, cfg), Live(s0.mem, s0.logs, q, cfg), c, d, cfg)
    ensures Leads(s0, events, s, cfg) && s.logs == s0.logs && Drained(s, cfg)
    ensures var a, b := Live(s0.mem, s0.logs, p, cfg), Live(s0.mem, s0.logs, q, cfg);
            && Get(s.mem, c) == Says(a, s0.mem, cfg, c)
            && Get(s.mem, d) == Says(if Fixed(d) then b else a, s0.mem, cfg, d)
  {
    hide Initial, Leads, Drained, Get, Live, Says, Word, Full, WritesAny, First, Holds;
    var init, a, b := s0.mem, Live(s0.mem, s0.logs, p, cfg), Live(s0.mem, s0.logs, q, cfg);
    var i, n := Speaker(a, init, cfg, c), Speaker(b, init, cfg, d) + 1;
    var us := Full(a[i], init, cfg);
    var k: nat :| CutBetween(us, k, c, d);
    var rest;
    events, s, rest := CutRun(s0, p, q, i, k, n, cfg);
    assert CutNamed(init, a[..i], us[..k], b[..n], s.mem, cfg, c);
    assert CutNamed(init, a[..i], us[..k], b[..n], s.mem, cfg, d);
    SpeakerIs(a, i, init, cfg, c);
    PartWrites(us[..k], us, c);
    NamesWord(a[i], init, cfg, c);
    if Fixed(d) {
      CutName(a, b, i, n, init, cfg, d);
    } else {
      CutValue(s0, events, s, p, q, i, n, rest, d, cfg);
    }
  }

  lemma CutName(a: seq<Record>, b: seq<Record>, i: nat, n: nat, init: Memory, cfg: Config, d: Cell)
    requires Disagree(init, a, b, cfg, d) && Fixed(d) && i == Speaker(a, init, cfg, d) && n == Speaker(b, init, cfg, d) + 1
    ensures Says(a[..i], init, cfg, d).None? && Says(b[..n], init, cfg, d) == Says(b, init, cfg, d)
  {
    hide Says, Word;
    RestSays(a, i, init, cfg, d);
    RestSays(b, n, init, cfg, d);
    assert b == b[..n] + b[n..];
    SaysOver(b[..n], b[n..], init, cfg, d);
  }

  lemma CutValue(s0: System, events: seq<Event>, s: System, p: TopicPartition, q: TopicPartition, i: nat, n: nat, rest: seq<Record>, d: Cell, cfg: Config)
    requires Initial(s0) && Leads(s0, events, s, cfg) && s.logs == s0.logs && Drained(s, cfg) && OnlyTwo(s0.mem, s0.logs, p, q, cfg) && !Fixed(d)
    requires var a, b := Live(s0.mem, s0.logs, p, cfg), Live(s0.mem, s0.logs, q, cfg);
             && Disagree(s0.mem, a, b, cfg, d) && i == Speaker(a, s0.mem, cfg, d) && n == Speaker(b, s0.mem, cfg, d) + 1
             && s.done == a[..i] + b[..n] + [a[i]] + rest
    ensures Get(s.mem, d) == Says(Live(s0.mem, s0.logs, p, cfg), s0.mem, cfg, d)
  {
    hide Initial, Leads, Drained, Get, Live, Says, Word, Holds, DoneOf;
    var init, a, b := s0.mem, Live(s0.mem, s0.logs, p, cfg), Live(s0.mem, s0.logs, q, cfg);
    LiveHolds(s0, events, s, p, q, cfg);
    FinalValue(s0, events, s, d, cfg);
    SaidByEither(s.done, p, a, q, b, init, cfg, d);
    HoldsAfter(s0, s, p, q, i, n, rest, cfg);
    if Says(s.done, init, cfg, d) != Says(a, init, cfg, d) {
      ValueOverridden(a[..i] + b[..n], rest, p, a, q, b, n, init, cfg, d);
    }
  }

  lemma HoldsAfter(s0: System, s: System, p: TopicPartition, q: TopicPartition, i: nat, n: nat, rest: seq<Record>, cfg: Config)
    requires Initial(s0) && p != q
    requires var a, b := Live(s0.mem, s0.logs, p, cfg), Live(s0.mem, s0.logs, q, cfg);
             i < |a| && n <= |b| && s.done == a[..i] + b[..n] + [a[i]] + rest && Holds(s.done, p, a, q, b)
    ensures var a, b := Live(s0.mem, s0.logs, p, cfg), Live(s0.mem, s0.logs, q, cfg); Holds(rest, p, a[i + 1..], q, b[n..])
  {
    hide Live, DoneOf, InOrder, LogsFit, Keyed, Holds;
    var a, b := Live(s0.mem, s0.logs, p, cfg), Live(s0.mem, s0.logs, q, cfg);
    var first := a[..i] + b[..n] + [a[i]];
    InitialInOrder(s0, cfg);
    LiveFits(s0.mem, s0, p, cfg);
    LiveFits(s0.mem, s0, q, cfg);
    forall tp | tp == p || tp == q ensures DoneOf(first, tp) == if tp == p then a[..i + 1] else b[..n] {
      DoneOfOver(a[..i] + b[..n], [a[i]], tp);
      DoneOfOver(a[..i], b[..n], tp);
      DoneOfOne(a[i], tp);
      OnlyOne(a[..i], p, tp);
      OnlyOne(b[..n], q, tp);
      assert a[..i] + [a[i]] == a[..i + 1];
    }
    HoldsRest(first, rest, p, a, i + 1, q, b, n);
  }

  /** A record in the way makes a run that no order explains. */
  lemma ObstructedRun(s0: System, p: TopicPartition, q: TopicPartition, cfg: Config) returns (events: seq<Event>, s: System)
    requires Initial(s0) && OnlyTwo(s0.mem, s0.logs, p, q, cfg)
    requires Obstructed(s0.mem, Live(s0.mem, s0.logs, p, cfg), Live(s0.mem, s0.logs, q, cfg), cfg)
    ensures Leads(s0, events, s, cfg) && s.logs == s0.logs && Drained(s, cfg) && !Explained(s0.mem, s.logs, s.mem, cfg)
  {
    hide Initial, Leads, Drained, Get, Live, Says, Word, CutBetween, DoneOf, Replay, Keyed;
    var init, a, b := s0.mem, Live(s0.mem, s0.logs, p, cfg), Live(s0.mem, s0.logs, q, cfg);
    var c, d :| ObstructedAt(init, a, b, c, d, cfg);
    events, s := CutThere(s0, p, q, c, d, cfg);
    RunIsKeyed(s0, events, s, cfg);
    forall order | Respects(order, init, s.logs, cfg) ensures s.mem != Replay(init, order, cfg) {
      if s.mem == Replay(init, order, cfg) {
        ReplaySays(init, order, cfg, c);
        ReplaySays(init, order, cfg, d);
        SaidByEither(order, p, a, q, b, init, cfg, c);
        SaidByEither(order, p, a, q, b, init, cfg, d);
        NoOrderSays(order, p, a, q, b, init, cfg, c, d);
      }
    }
  }

  // ---------- exactly when ----------

  /** Whatever arrives on two topic-partitions: every run that drains it leaves the graph of
      processing its records one after the other in some order that respects both, if and
      only if no record of either is in the way of such an order. */
  lemma TwoPartitionsIff(s0: System, arrivals: seq<Event>, s1: System, p: TopicPartition, q: TopicPartition, cfg: Config)
    requires Initial(s0) && Leads(s0, arrivals, s1, cfg) && AllArrivals(arrivals) && OnlyTwo(s0.mem, s1.logs, p, q, cfg)
    ensures var a, b := Live(s0.mem, s1.logs, p, cfg), Live(s0.mem, s1.logs, q, cfg);
            AlwaysExplained(s0, s1.logs, cfg) <==> !Obstructed(s0.mem, a, b, cfg) && !Obstructed(s0.mem, b, a, cfg)
  {
    hide Initial, Leads, Drained, Live, Obstructed, Explained;
    var a, b := Live(s0.mem, s1.logs, p, cfg), Live(s0.mem, s1.logs, q, cfg);
    OnlyArrived(s0, arrivals, s1, cfg);
    if Obstructed(s0.mem, a, b, cfg) {
      var events, s := ObstructedRun(s1, p, q, cfg);
      LeadsOn(s0, arrivals, s1, events, s, cfg);
    } else if Obstructed(s0.mem, b, a, cfg) {
      var events, s := ObstructedRun(s1, q, p, cfg);
      LeadsOn(s0, arrivals, s1, events, s, cfg);
    } else {
      forall events, s | Leads(s0, events, s, cfg) && s.logs == s1.logs && Drained(s, cfg)
        ensures Explained(s0.mem, s1.logs, s.mem, cfg)
      {
        RunExplained(s0, events, s, p, q, cfg);
      }
    }
  }
}
