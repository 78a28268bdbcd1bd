/** Building runs of the ingest system: joining them, finishing records and batches, cutting
    a record off before its commit, and draining every topic-partition. */
module Runs {
  import opened PropertyGraph
  import opened Envelopes
  import opened Upserts
  import opened Handlers
  import opened RecordEffects
  import opened Checkpoints
  import opened IngestSystem
  import opened Progress
  import opened Sayings

  // ---------- joining runs ----------

  lemma LeadsMore(a: System, before: seq<Event>, mid: System, e: Event, s: System, cfg: Config)
    requires Leads(a, before, mid, cfg) && Steps(mid, e, s, cfg)
    ensures Leads(a, before + [e], s, cfg)
  {
    hide Steps;
    assert (before + [e])[..|before|] == before;
  }

  lemma {:induction false} LeadsOn(a: System, first: seq<Event>, b: System, second: seq<Event>, c: System, cfg: Config)
    requires Leads(a, first, b, cfg) && Leads(b, second, c, cfg)
    ensures Leads(a, first + second, c, cfg)
    decreases |second|
  {
    hide Steps;
    if second == [] {
      assert first + second == first;
    } else {
      var before, e := second[..|second| - 1], second[|second| - 1];
      var mid :| Leads(b, before, mid, cfg) && Steps(mid, e, c, cfg);
      LeadsOn(a, first, b, before, mid, cfg);
      LeadsMore(a, first + before, mid, e, c, cfg);
      assert first + before + [e] == first + second;
    }
  }

  lemma LeadsOne(s: System, e: Event, cfg: Config)
    requires Enabled(s, e, cfg)
    ensures Leads(s, [e], Do(s, e, cfg), cfg)
  {
    hide Do, Enabled;
    assert Leads(s, [], s, cfg) && Steps(s, e, Do(s, e, cfg), cfg);
    assert [e][..0] == [];
  }

  lemma RunFirst(m: Memory, us: seq<Upsert>)
    requires us != []
    ensures Run(m, us) == Run(Apply(m, us[0]), us[1..])
  {
    hide Run;
    RunConcat(m, [us[0]], us[1..]);
    RunOne(m, us[0]);
    assert [us[0]] + us[1..] == us;
  }

  predicate Calm(events: seq<Event>) {
    forall e | e in events :: !e.Append? && !e.Crash?
  }

  /** The upserts left of a record can be done. */
  lemma {:induction false} WritesRun(s: System, cfg: Config) returns (events: seq<Event>, t: System)
    requires s.work.Busy? && s.work.todo != [] && s.work.batch != []
    ensures Leads(s, events, t, cfg) && Calm(events)
    ensures t.mem == Run(s.mem, s.work.todo) && t.logs == s.logs && t.done == s.done + [s.work.batch[0]]
    ensures t.work.Busy? && t.work.tp == s.work.tp && t.work.batch == s.work.batch[1..] && t.work.todo == []
    decreases |s.work.todo|
  {
    hide Run, Apply, Leads;
    var next := Do(s, Write, cfg);
    LeadsOne(s, Write, cfg);
    RunFirst(s.mem, s.work.todo);
    if s.work.todo[1..] == [] {
      events, t := [Write], next;
      RunNothing(next.mem);
    } else {
      var rest;
      rest, t := WritesRun(next, cfg);
      events := [Write] + rest;
      LeadsOn(s, [Write], next, rest, t, cfg);
    }
  }

  lemma RunNothing(m: Memory)
    ensures Run(m, []) == m
  {
  }

  lemma {:induction false} ReplayFirst(m: Memory, recs: seq<Record>, cfg: Config)
    requires recs != []
    ensures Replay(m, recs, cfg) == Replay(Run(m, Full(recs[0], m, cfg)), recs[1..], cfg)
    decreases |recs|
  {
    hide Full, Run;
    if |recs| > 1 {
      var front := recs[..|recs| - 1];
      ReplayFirst(m, front, cfg);
      assert recs[1..][..|recs| - 2] == front[1..];
    } else {
      assert recs[..0] == [] && recs[1..] == [];
      assert Replay(m, recs[..0], cfg) == m;
    }
  }

  /** A batch can be processed to its end. */
  lemma {:induction false} BatchRun(s: System, cfg: Config) returns (events: seq<Event>, t: System)
    requires s.work.Busy? && s.work.todo == []
    ensures Leads(s, events, t, cfg) && Calm(events)
    ensures t == System(Replay(s.mem, s.work.batch, cfg), s.logs, Idle, s.done + s.work.batch)
    decreases |s.work.batch|
  {
    hide Run, Full, Leads, Replay, Ups;
    if s.work.batch == [] {
      LeadsOne(s, Finish, cfg);
      events, t := [Finish], Do(s, Finish, cfg);
      ReplayNothing(s.mem, cfg);
      assert s.done + [] == s.done;
    } else {
      var r, begun := s.work.batch[0], Do(s, Begin, cfg);
      LeadsOne(s, Begin, cfg);
      FullNotEmpty(r, s.mem, cfg);
      var writes, mid := WritesRun(begun, cfg);
      LeadsOn(s, [Begin], begun, writes, mid, cfg);
      var rest;
      rest, t := BatchRun(mid, cfg);
      events := [Begin] + writes + rest;
      LeadsOn(s, [Begin] + writes, mid, rest, t, cfg);
      ReplayFirst(s.mem, s.work.batch, cfg);
      assert s.done + [r] + s.work.batch[1..] == s.done + s.work.batch;
    }
  }

  lemma ReplayNothing(m: Memory, cfg: Config)
    ensures Replay(m, [], cfg) == m
  {
  }

  lemma FullNotEmpty(rec: Record, m: Memory, cfg: Config)
    ensures Full(rec, m, cfg) != []
  {
  }

  lemma LeadsNowhere(s: System, cfg: Config)
    ensures Leads(s, [], s, cfg)
  {
  }

  // ---------- one record at a time ----------

  ghost function WaitingIn(s: System, tp: TopicPartition, cfg: Config): seq<Record> {
    Waiting(LogOf(s.logs, tp), CheckpointAt(s.mem, cfg.namespace, tp))
  }

  /** Some of the upserts left of a record can be done. */
  lemma {:induction false} WritesPart(s: System, k: nat, cfg: Config) returns (events: seq<Event>, t: System)
    requires s.work.Busy? && s.work.batch != [] && k < |s.work.todo|
    ensures Leads(s, events, t, cfg) && t.mem == Run(s.mem, s.work.todo[..k]) && t.logs == s.logs && t.done == s.done
    ensures t.work.Busy? && t.work.batch == s.work.batch && t.work.todo == s.work.todo[k..]
    decreases k
  {
    hide Run, Apply, Leads;
    var todo := s.work.todo;
    if k == 0 {
      LeadsNowhere(s, cfg);
      RunNothing(s.mem);
      events, t := [], s;
    } else {
      var before, mid := WritesPart(s, k - 1, cfg);
      events, t := before + [Write], Do(mid, Write, cfg);
      LeadsMore(s, before, mid, Write, t, cfg);
      RunThen(s.mem, todo[..k - 1], todo[k - 1]);
      assert todo[..k - 1] + [todo[k - 1]] == todo[..k];
    }
  }

  /** The first record waiting can be begun, and does what it would have done at first. */
  lemma Begun(init: Memory, s: System, tp: TopicPartition, cfg: Config) returns (events: seq<Event>, t: System)
    requires InOrder(init, s, cfg) && s.work.Idle? && WaitingIn(s, tp, cfg) != []
    ensures Leads(s, events, t, cfg) && t.mem == s.mem && t.logs == s.logs && t.done == s.done
    ensures t.work.Busy? && t.work.batch != [] && t.work.batch[0] == WaitingIn(s, tp, cfg)[0]
    ensures t.work.todo == Full(WaitingIn(s, tp, cfg)[0], init, cfg)
  {
    hide CheckpointAt, Full, Leads, LogsFit, ProgressAt, Steady, Below;
    var started := Do(s, Start(tp), cfg);
    LeadsOne(s, Start(tp), cfg);
    t := Do(started, Begin, cfg);
    SameFull(started.work.batch[0], init, s.mem, cfg);
    events := [Start(tp)] + [Begin];
    LeadsMore(s, [Start(tp)], started, Begin, t, cfg);
  }

  /** The first record waiting can be processed to its end. */
  lemma ProcessNext(init: Memory, s: System, tp: TopicPartition, cfg: Config) returns (events: seq<Event>, t: System)
    requires InOrder(init, s, cfg) && s.work.Idle? && WaitingIn(s, tp, cfg) != []
    ensures Leads(s, events, t, cfg) && t.work.Idle? && t.logs == s.logs
    ensures t.mem == Run(s.mem, Full(WaitingIn(s, tp, cfg)[0], init, cfg)) && t.done == s.done + [WaitingIn(s, tp, cfg)[0]]
  {
    hide InOrder, WaitingIn, Full, Leads, Run;
    var opening, begun := Begun(init, s, tp, cfg);
    FullNotEmpty(begun.work.batch[0], init, cfg);
    var writes, written := WritesRun(begun, cfg);
    LeadsOn(s, opening, begun, writes, written, cfg);
    events, t := opening + writes + [Crash], Do(written, Crash, cfg);
    LeadsMore(s, opening + writes, written, Crash, t, cfg);
  }

  /** The first record waiting can be cut off anywhere before its commit. */
  lemma CutOff(init: Memory, s: System, tp: TopicPartition, k: nat, cfg: Config) returns (events: seq<Event>, t: System)
    requires InOrder(init, s, cfg) && s.work.Idle? && WaitingIn(s, tp, cfg) != []
    requires k < |Full(WaitingIn(s, tp, cfg)[0], init, cfg)|
    ensures Leads(s, events, t, cfg) && t.work.Idle? && t.logs == s.logs && t.done == s.done
    ensures t.mem == Run(s.mem, Full(WaitingIn(s, tp, cfg)[0], init, cfg)[..k])
  {
    hide InOrder, WaitingIn, Ups, Leads, Run;
    var opening, begun := Begun(init, s, tp, cfg);
    var writes, written := WritesPart(begun, k, cfg);
    LeadsOn(s, opening, begun, writes, written, cfg);
    events, t := opening + writes + [Crash], Do(written, Crash, cfg);
    LeadsMore(s, opening + writes, written, Crash, t, cfg);
  }

  // ---------- what waits ----------

  /** What waits is what was live at the start and is not finished. */
  lemma WaitingIs(init: Memory, s: System, tp: TopicPartition, cfg: Config)
    requires InOrder(init, s, cfg)
    ensures var live, finished := Live(init, s.logs, tp, cfg), DoneOf(s.done, tp);
            |finished| <= |live| && finished == live[..|finished|] && WaitingIn(s, tp, cfg) == live[|finished|..]
  {
    hide CheckpointAt, WorkFits, Steady, LogsFit, DoneOf, Below;
    assert ProgressAt(init, s.mem, s.logs, s.done, tp, cfg);
    var log, first, now := LogOf(s.logs, tp), CheckpointAt(init, cfg.namespace, tp), CheckpointAt(s.mem, cfg.namespace, tp);
    if first.Some? {
      var a, b := Below(log, first.value), Below(log, now.value);
      assert log[a..][..b - a] == log[a..b];
      assert log[a..][b - a..] == log[b..];
    }
  }

  /** Processing the first record waiting leaves the others waiting. */
  lemma OneLess(init: Memory, s: System, t: System, own: TopicPartition, tp: TopicPartition, cfg: Config)
    requires InOrder(init, s, cfg) && InOrder(init, t, cfg) && t.logs == s.logs
    requires WaitingIn(s, own, cfg) != [] && t.done == s.done + [WaitingIn(s, own, cfg)[0]]
    ensures WaitingIn(t, tp, cfg) == if tp == own then WaitingIn(s, tp, cfg)[1..] else WaitingIn(s, tp, cfg)
  {
    hide CheckpointAt, InOrder, DoneOf, Live, Waiting;
    WaitingIs(init, s, own, cfg);
    WaitingIs(init, s, tp, cfg);
    WaitingIs(init, t, tp, cfg);
    FirstWaits(init, s, own, cfg);
    DoneMore(s.done, WaitingIn(s, own, cfg)[0], tp);
  }

  lemma FirstWaits(init: Memory, s: System, tp: TopicPartition, cfg: Config)
    requires InOrder(init, s, cfg) && WaitingIn(s, tp, cfg) != []
    ensures tp in s.logs && WaitingIn(s, tp, cfg)[0].Tp() == tp
  {
    hide CheckpointAt, WorkFits, Steady, ProgressAt, Below;
    assert LogFits(s.logs[tp], tp);
    assert WaitingIn(s, tp, cfg)[0] in s.logs[tp];
  }

  /** The next n records of a topic-partition can be processed. */
  lemma {:induction false} ProcessSome(init: Memory, s: System, tp: TopicPartition, n: nat, cfg: Config) returns (events: seq<Event>, t: System)
    requires InOrder(init, s, cfg) && s.work.Idle? && n <= |WaitingIn(s, tp, cfg)|
    ensures Leads(s, events, t, cfg) && InOrder(init, t, cfg) && t.work.Idle? && t.logs == s.logs
    ensures t.done == s.done + WaitingIn(s, tp, cfg)[..n] && t.mem == RunRecords(s.mem, WaitingIn(s, tp, cfg)[..n], init, cfg)
    ensures WaitingIn(t, tp, cfg) == WaitingIn(s, tp, cfg)[n..]
    decreases n
  {
    hide InOrder, WaitingIn, Full, Leads, Run, RunRecords;
    var waiting := WaitingIn(s, tp, cfg);
    if n == 0 {
      LeadsNowhere(s, cfg);
      events, t := [], s;
      assert s.done + waiting[..0] == s.done && waiting[0..] == waiting && waiting[..0] == [];
      NoRecordsRun(s.mem, init, cfg);
    } else {
      var before, mid := ProcessSome(init, s, tp, n - 1, cfg);
      var last;
      last, t := ProcessNext(init, mid, tp, cfg);
      events := before + last;
      LeadsOn(s, before, mid, last, t, cfg);
      RunFromKeeps(init, mid, last, t, cfg);
      OneLess(init, mid, t, tp, tp, cfg);
      assert waiting[..n - 1] + [waiting[n - 1]] == waiting[..n];
      RunRecordsMore(s.mem, waiting[..n - 1], waiting[n - 1], init, cfg);
      assert s.done + waiting[..n - 1] + [waiting[n - 1]] == s.done + waiting[..n];
    }
  }

  lemma NoRecordsRun(m: Memory, init: Memory, cfg: Config)
    ensures RunRecords(m, [], init, cfg) == m
  {
  }

  // ---------- draining ----------

  /** What a topic-partition has drained stays drained while nothing arrives. */
  lemma StaysDrained(init: Memory, s: System, events: seq<Event>, t: System, tp: TopicPartition, cfg: Config)
    requires InOrder(init, s, cfg) && Leads(s, events, t, cfg) && t.logs == s.logs && WaitingIn(s, tp, cfg) == []
    ensures WaitingIn(t, tp, cfg) == []
  {
    hide InOrder, Leads, DoneOf, CheckpointAt, Live, Waiting;
    RunFromKeeps(init, s, events, t, cfg);
    RunExtends(init, s, events, t, NodeLabel(""), cfg);
    WaitingIs(init, s, tp, cfg);
    WaitingIs(init, t, tp, cfg);
    DoneOfPrefix(s.done, t.done, tp);
  }

  lemma {:induction false} DoneOfPrefix(done: seq<Record>, more: seq<Record>, tp: TopicPartition)
    requires done <= more
    ensures DoneOf(done, tp) <= DoneOf(more, tp)
    decreases |more|
  {
    if |done| < |more| {
      DoneOfPrefix(done, more[..|more| - 1], tp);
    } else {
      assert done == more;
    }
  }

  /** Along a run the finished records only grow, and names stay. */
  lemma {:induction false} RunExtends(init: Memory, s: System, events: seq<Event>, t: System, c: Cell, cfg: Config)
    requires InOrder(init, s, cfg) && Leads(s, events, t, cfg)
    ensures s.done <= t.done
    ensures Fixed(c) && Get(s.mem, c).Some? ==> Get(t.mem, c) == Get(s.mem, c)
    decreases |events|
  {
    hide InOrder, Get, Apply, Full, CheckpointAt, Waiting;
    if events != [] {
      var before, e := events[..|events| - 1], events[|events| - 1];
      var mid :| Leads(s, before, mid, cfg) && Steps(mid, e, t, cfg);
      RunExtends(init, s, before, mid, c, cfg);
      RunFromKeeps(init, s, before, mid, cfg);
      if e.Write? {
        StaysKeyed(init, mid, cfg);
        ApplyCell(mid.mem, mid.work.todo[0], c);
      }
    }
  }

  lemma StaysKeyed(init: Memory, s: System, cfg: Config)
    requires InOrder(init, s, cfg)
    ensures Keyed(s.mem)
  {
    hide LogsFit, ProgressAt, WorkFits, Keyed, LinksAgree;
  }

  /** Any set of topic-partitions can be drained. */
  lemma {:induction false} DrainThese(init: Memory, s: System, tps: set<TopicPartition>, cfg: Config) returns (events: seq<Event>, t: System)
    requires InOrder(init, s, cfg) && s.work.Idle?
    ensures Leads(s, events, t, cfg) && InOrder(init, t, cfg) && t.work.Idle? && t.logs == s.logs
    ensures forall tp | tp in tps :: WaitingIn(t, tp, cfg) == []
    decreases tps
  {
    hide InOrder, WaitingIn, Leads, RunRecords;
    if tps == {} {
      LeadsNowhere(s, cfg);
      events, t := [], s;
    } else {
      var own :| own in tps;
      var before, mid := DrainThese(init, s, tps - {own}, cfg);
      var last;
      last, t := ProcessSome(init, mid, own, |WaitingIn(mid, own, cfg)|, cfg);
      events := before + last;
      LeadsOn(s, before, mid, last, t, cfg);
      forall tp | tp in tps ensures WaitingIn(t, tp, cfg) == [] {
        if tp != own { StaysDrained(init, mid, last, t, tp, cfg); }
      }
    }
  }

  /** Everything can be drained. */
  lemma DrainAll(init: Memory, s: System, cfg: Config) returns (events: seq<Event>, t: System)
    requires InOrder(init, s, cfg) && s.work.Idle?
    ensures Leads(s, events, t, cfg) && t.logs == s.logs && Drained(t, cfg)
  {
    hide InOrder, Waiting, Leads, CheckpointAt;
    events, t := DrainThese(init, s, s.logs.Keys, cfg);
    forall tp | tp in t.logs ensures Waiting(t.logs[tp], CheckpointAt(t.mem, cfg.namespace, tp)) == [] {
      assert WaitingIn(t, tp, cfg) == [];
    }
  }
}
