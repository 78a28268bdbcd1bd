/** Delivery at least once, effect exactly once: once nothing waits, the graph is that of
    processing the finished records one after the other, provided that no two
    topic-partitions would first name a new record differently. */
module ExactlyOnce {
  import opened Results
  import opened PropertyGraph
  import opened Envelopes
  import opened Upserts
  import opened RecordEffects
  import opened IngestSystem
  import opened Progress
  import opened Settled
  import opened Runs
  import opened Sayings
  import opened Naming

  predicate SameName(a: Option<Content>, b: Option<Content>) {
    a.Some? && b.Some? ==> a == b
  }

  /** What the records of a topic-partition make of a cell. */
  ghost function Voice(init: Memory, logs: Logs, tp: TopicPartition, cfg: Config, c: Cell): Option<Content> {
    Says(Live(init, logs, tp, cfg), init, cfg, c)
  }

  /** No two topic-partitions would first give different names to a record that the initial
      graph lacks. Within one topic-partition names may differ: its order is fixed. */
  ghost predicate NamesAgree(init: Memory, logs: Logs, cfg: Config) {
    forall p, q, c | p in logs && q in logs && Fixed(c) && Get(init, c).None? ::
      SameName(Voice(init, logs, p, cfg, c), Voice(init, logs, q, cfg, c))
  }

  /** Replaying names a new record as one of the topic-partitions does, if any does. */
  lemma ReplayNames(s0: System, events: seq<Event>, s: System, c: Cell, cfg: Config) returns (tp: TopicPartition)
    requires Initial(s0) && Leads(s0, events, s, cfg) && Drained(s, cfg) && Fixed(c) && Get(s0.mem, c).None?
    ensures var name := Get(Replay(s0.mem, s.done, cfg), c);
            if name.Some? then tp in s.logs && Voice(s0.mem, s.logs, tp, cfg, c) == name
            else forall q :: Voice(s0.mem, s.logs, q, cfg, c).None?
  {
    hide Leads, Drained, Get, Live, Says, Replay, DoneOf, Keyed;
    ReplaySays(s0.mem, s.done, cfg, c);
    if Says(s.done, s0.mem, cfg, c).Some? {
      tp := SaidByOne(s.done, s0.mem, cfg, c);
      AllFinished(s0, events, s, tp, cfg);
      LiveIsLogged(s0.mem, s.logs, tp, cfg);
      NothingSaid(s0.mem, cfg, c);
    } else {
      tp := TopicPartition("", 0);
      forall q ensures Voice(s0.mem, s.logs, q, cfg, c).None? {
        AllFinished(s0, events, s, q, cfg);
        SaidByNone(s.done, q, s0.mem, cfg, c);
      }
    }
  }

  /** Replaying keeps the names that are there. */
  lemma OldNamesStay(s0: System, events: seq<Event>, s: System, c: Cell, cfg: Config)
    requires Initial(s0) && Leads(s0, events, s, cfg) && Fixed(c) && Get(s0.mem, c).Some?
    ensures Get(s.mem, c) == Get(s0.mem, c) == Get(Replay(s0.mem, s.done, cfg), c)
  {
    hide InOrder, Leads, Get, Says, Replay, Keyed, LogsFit;
    InitialInOrder(s0, cfg);
    RunExtends(s0.mem, s0, events, s, c, cfg);
    ReplaySays(s0.mem, s.done, cfg, c);
  }

  lemma SameCell(s0: System, events: seq<Event>, s: System, c: Cell, cfg: Config)
    requires Initial(s0) && Leads(s0, events, s, cfg) && NamesAgree(s0.mem, s.logs, cfg) && Drained(s, cfg)
    ensures Get(s.mem, c) == Get(Replay(s0.mem, s.done, cfg), c)
  {
    hide Initial, Leads, Drained, Get, Replay, Says, Live;
    if !Fixed(c) {
      PropertiesOnce(s0, events, s, c, cfg);
    } else if Get(s0.mem, c).Some? {
      OldNamesStay(s0, events, s, c, cfg);
    } else {
      var q := ReplayNames(s0, events, s, c, cfg);
      if Get(s.mem, c).Some? {
        var p := NamedByOne(s0, events, s, c, cfg);
        assert SameName(Voice(s0.mem, s.logs, p, cfg, c), Voice(s0.mem, s.logs, q, cfg, c));
      } else if Get(Replay(s0.mem, s.done, cfg), c).Some? {
        SaidIsThere(s0, events, s, q, c, cfg);
      }
    }
  }

  /** Exactly-once effect. However partitions interleave, records arrive and the processor
      crashes, between two upserts of one record included: once nothing waits, the graph is
      exactly that of processing the finished records one after the other, provided that no
      two topic-partitions first name a new record differently. */
  lemma ExactlyOnceEffect(s0: System, events: seq<Event>, s: System, cfg: Config)
    requires Initial(s0) && Leads(s0, events, s, cfg) && NamesAgree(s0.mem, s.logs, cfg) && Drained(s, cfg)
    ensures s.mem == Replay(s0.mem, s.done, cfg)
  {
    hide Leads, NamesAgree, Drained, LogsFit, Keyed, Get, Replay, LinksAgree;
    forall c ensures Get(s.mem, c) == Get(Replay(s0.mem, s.done, cfg), c) { SameCell(s0, events, s, c, cfg); }
    RunIsKeyed(s0, events, s, cfg);
    SteadyReplay(s0.mem, s.done, cfg);
    CellsDetermine(s.mem, Replay(s0.mem, s.done, cfg));
  }

  lemma RunIsKeyed(s0: System, events: seq<Event>, s: System, cfg: Config)
    requires Initial(s0) && Leads(s0, events, s, cfg)
    ensures Keyed(s0.mem) && Keyed(s.mem)
  {
    hide Leads, Keyed, InOrder, LogsFit;
    InitialInOrder(s0, cfg);
    RunFromKeeps(s0.mem, s0, events, s, cfg);
    StaysKeyed(s0.mem, s, cfg);
  }

  /** A property is what the finished records say. */
  lemma FinalValue(s0: System, events: seq<Event>, s: System, c: Cell, cfg: Config)
    requires Initial(s0) && Leads(s0, events, s, cfg) && Drained(s, cfg) && !Fixed(c)
    ensures Get(s.mem, c) == if Says(s.done, s0.mem, cfg, c).None? then Get(s0.mem, c) else Says(s.done, s0.mem, cfg, c)
  {
    hide Initial, Leads, Drained, Keyed, Says, Get, Replay;
    PropertiesOnce(s0, events, s, c, cfg);
    RunIsKeyed(s0, events, s, cfg);
    ReplaySays(s0.mem, s.done, cfg, c);
  }
}
