/** Feedback on reflection cycles: check passes, waives and received feedback over the
    graph, and why a cycle's status only moves forward and asks for feedback once. */
module Feedback {
  import opened Results
  import opened Text
  import opened PropertyGraph
  import opened Upserts
  import opened Calendar
  import GraphEngine

  const CYCLE := "ReflectionCycle"

  /** The checker's settings: the grace period and how a completion time is read. */
  datatype Settings = Settings(grace: int, parseTime: string -> Option<int>)

  /** A property's text; empty where there is none. */
  function TextOf(n: Node, key: string): string {
    if key in n.props && n.props[key].Str? then n.props[key].s else ""
  }

  function StatusOf(n: Node): string {
    TextOf(n, "humanFeedbackStatus")
  }

  function SetStatus(id: string, status: string): Upsert {
    NodeUp(id, CYCLE, map["humanFeedbackStatus" := Str(status)])
  }

  function RequestUp(id: string, at: string): Upsert {
    NodeUp(id, CYCLE, map["humanFeedbackStatus" := Str("REQUESTED"), "feedbackRequestedAt" := Str(at)])
  }

  /** The grace period of a cycle has run out. */
  predicate GraceOver(n: Node, now: int, cfg: Settings) {
    var completed := TextOf(n, "completedAt");
    completed != "" && cfg.parseTime(completed).Some? && Sub(now, cfg.parseTime(completed).value) >= cfg.grace
  }

  /** A check pass: the time, its text, and for which cycles publishing a request succeeds;
      without a publisher for none. */
  datatype Pass = Pass(now: int, at: string, delivers: string -> bool)

  /** What a pass does to one cycle, and whether it publishes a request for it. */
  function CheckOne(n: Node, pass: Pass, cfg: Settings): (Option<Upsert>, bool) {
    if TextOf(n, "status") != "COMPLETED" then (None, false)
    else if StatusOf(n) == "PENDING" then (if GraceOver(n, pass.now, cfg) then Some(SetStatus(n.id, "NEEDS_FEEDBACK")) else None, false)
    else if StatusOf(n) == "NEEDS_FEEDBACK" && pass.delivers(n.id) then (Some(RequestUp(n.id, pass.at)), true)
    else (None, false)
  }

  function ApplyIf(m: Memory, u: Option<Upsert>): Memory {
    if u.None? then m else Apply(m, u.value)
  }

  /** The listed cycles checked one after the other, each as it was when listed. */
  function CheckEach(m: Memory, cycles: seq<Node>, pass: Pass, cfg: Settings): Memory {
    if cycles == [] then m
    else ApplyIf(CheckEach(m, cycles[..|cycles| - 1], pass, cfg), CheckOne(cycles[|cycles| - 1], pass, cfg).0)
  }

  function Published(cycles: seq<Node>, pass: Pass, cfg: Settings): seq<string> {
    if cycles == [] then []
    else
      var n := cycles[|cycles| - 1];
      Published(cycles[..|cycles| - 1], pass, cfg) + if CheckOne(n, pass, cfg).1 then [n.id] else []
  }

  // ---------- the objects ----------

  lemma LabelIsPlain()
    ensures Count(CYCLE, ':') == 0
  {
    hide Count;
    CountZero(CYCLE, ':');
  }

  method PutCycle(g: GraphEngine.Graph, id: string, props: Properties)
    requires g.storage.Valid()
    modifies g.storage
    ensures g.storage.Valid() && g.storage.mem == Apply(old(g.storage.mem), NodeUp(id, CYCLE, props))
  {
    LabelIsPlain();
    var _ := g.UpsertNode(id, CYCLE, props);
  }

  method CheckPending(g: GraphEngine.Graph, pass: Pass, cfg: Settings) returns (published: seq<string>)
    requires g.storage.Valid()
    modifies g.storage
    ensures g.storage.Valid()
    ensures var cycles := old(g.storage.mem).NodesByLabel(CYCLE);
            g.storage.mem == CheckEach(old(g.storage.mem), cycles, pass, cfg) && published == Published(cycles, pass, cfg)
  {
    LabelIsPlain();
    var cycles := g.storage.NodesByLabel(CYCLE);
    published := CheckCycles(g, cycles, pass, cfg);
  }

  method CheckCycles(g: GraphEngine.Graph, cycles: seq<Node>, pass: Pass, cfg: Settings) returns (published: seq<string>)
    requires g.storage.Valid()
    modifies g.storage
    ensures g.storage.Valid()
    ensures g.storage.mem == CheckEach(old(g.storage.mem), cycles, pass, cfg) && published == Published(cycles, pass, cfg)
  {
    hide CheckOne, Apply;
    ghost var m := g.storage.mem;
    published := [];
    for i := 0 to |cycles|
      invariant g.storage.Valid()
      invariant g.storage.mem == CheckEach(m, cycles[..i], pass, cfg) && published == Published(cycles[..i], pass, cfg)
    {
      assert cycles[..i + 1][..i] == cycles[..i];
      var asked := CheckCycle(g, cycles[i], pass, cfg);
      if asked {
        published := published + [cycles[i].id];
      }
    }
    assert cycles[..|cycles|] == cycles;
  }

  method CheckCycle(g: GraphEngine.Graph, cycle: Node, pass: Pass, cfg: Settings) returns (asked: bool)
    requires g.storage.Valid()
    modifies g.storage
    ensures g.storage.Valid()
    ensures (g.storage.mem, asked) == (ApplyIf(old(g.storage.mem), CheckOne(cycle, pass, cfg).0), CheckOne(cycle, pass, cfg).1)
  {
    hide Apply, GraceOver, TextOf;
    asked := false;
    if TextOf(cycle, "status") != "COMPLETED" { return; }
    var status := StatusOf(cycle);
    if status == "PENDING" {
      if GraceOver(cycle, pass.now, cfg) {
        PutCycle(g, cycle.id, map["humanFeedbackStatus" := Str("NEEDS_FEEDBACK")]);
      }
    } else if status == "NEEDS_FEEDBACK" {
      if !pass.delivers(cycle.id) { return; }
      asked := true;
      PutCycle(g, cycle.id, map["humanFeedbackStatus" := Str("REQUESTED"), "feedbackRequestedAt" := Str(pass.at)]);
    }
  }

  predicate CanWaive(n: Node) {
    n.lbl == CYCLE && (StatusOf(n) == "NEEDS_FEEDBACK" || StatusOf(n) == "REQUESTED")
  }

  function WaiveCycle(m: Memory, id: string): Memory {
    if id in m.nodes && CanWaive(m.nodes[id]) then Apply(m, SetStatus(id, "WAIVED")) else m
  }

  method Waive(g: GraphEngine.Graph, id: string) returns (ok: bool)
    requires g.storage.Valid()
    modifies g.storage
    ensures g.storage.Valid() && g.storage.mem == WaiveCycle(old(g.storage.mem), id)
    ensures ok <==> id in old(g.storage.mem).nodes && CanWaive(old(g.storage.mem).nodes[id])
  {
    hide *;
    var node := g.storage.GetNode(id);
    WaiveMeans(g.storage.mem, id);
    if node.None? || node.value.lbl != CYCLE { return false; }
    var status := StatusOf(node.value);
    if status != "NEEDS_FEEDBACK" && status != "REQUESTED" { return false; }
    PutCycle(g, id, map["humanFeedbackStatus" := Str("WAIVED")]);
    ok := true;
  }

  lemma WaiveMeans(m: Memory, id: string)
    ensures m.GetNode(id) == if id in m.nodes then Some(m.nodes[id]) else None
    ensures id in m.nodes ==> (CanWaive(m.nodes[id]) <==>
              m.nodes[id].lbl == CYCLE && (StatusOf(m.nodes[id]) == "NEEDS_FEEDBACK" || StatusOf(m.nodes[id]) == "REQUESTED"))
    ensures WaiveCycle(m, id) == if id in m.nodes && CanWaive(m.nodes[id])
              then Apply(m, NodeUp(id, CYCLE, map["humanFeedbackStatus" := Str("WAIVED")])) else m
  {
  }

  function ReceiveFeedback(m: Memory, id: string): Memory {
    if id in m.nodes then Apply(m, SetStatus(id, "RECEIVED")) else m
  }

  // ---------- runs ----------

  datatype Event = Check(pass: Pass) | WaiveEvent(id: string) | Receive(id: string)

  ghost function Step(m: Memory, e: Event, cfg: Settings): Memory {
    match e
    case Check(pass) => CheckEach(m, m.NodesByLabel(CYCLE), pass, cfg)
    case WaiveEvent(id) => WaiveCycle(m, id)
    case Receive(id) => ReceiveFeedback(m, id)
  }

  ghost function After(m: Memory, events: seq<Event>, cfg: Settings): Memory {
    if events == [] then m else Step(After(m, events[..|events| - 1], cfg), events[|events| - 1], cfg)
  }

  /** The event publishes a request for the cycle. */
  ghost predicate Asks(m: Memory, e: Event, id: string, cfg: Settings) {
    e.Check? && id in Published(m.NodesByLabel(CYCLE), e.pass, cfg)
  }

  /** The events in order at which a request for the cycle was published. */
  ghost function Requests(m: Memory, events: seq<Event>, id: string, cfg: Settings): seq<Event> {
    if events == [] then []
    else
      var before, e := events[..|events| - 1], events[|events| - 1];
      Requests(m, before, id, cfg) + if Asks(After(m, before, cfg), e, id, cfg) then [e] else []
  }

  // ---------- the status order ----------

  function Rank(status: string): nat {
    if status == "NEEDS_FEEDBACK" then 1
    else if status == "REQUESTED" then 2
    else if status == "WAIVED" then 3
    else if status == "RECEIVED" then 4
    else 0
  }

  ghost predicate Known(m: Memory, id: string) {
    Keyed(m) && id in m.nodes && m.nodes[id].lbl == CYCLE
  }

  /** What no event changes: label, completion time and execution status. */
  predicate SameCycle(a: Node, b: Node) {
    a.id == b.id && a.lbl == b.lbl && TextOf(a, "completedAt") == TextOf(b, "completedAt") && TextOf(a, "status") == TextOf(b, "status")
  }

  predicate StatusUpsert(u: Upsert) {
    u.NodeUp? && u.lbl == CYCLE && "completedAt" !in u.props && "status" !in u.props
  }

  lemma UpsertsAreStatus(n: Node, pass: Pass, cfg: Settings, id: string, status: string)
    ensures CheckOne(n, pass, cfg).0.Some? ==> StatusUpsert(CheckOne(n, pass, cfg).0.value) && CheckOne(n, pass, cfg).0.value.id == n.id
    ensures StatusUpsert(SetStatus(id, status))
  {
  }

  lemma StatusUpsertKeeps(m: Memory, u: Upsert, id: string)
    requires Known(m, id) && StatusUpsert(u)
    ensures Known(Apply(m, u), id) && SameCycle(m.nodes[id], Apply(m, u).nodes[id])
    ensures u.id != id ==> Apply(m, u).nodes[id] == m.nodes[id]
    ensures u.id == id ==> Apply(m, u).nodes[id].props == m.nodes[id].props + u.props
  {
  }

  lemma StatusIsNode(u: Upsert)
    requires StatusUpsert(u)
    ensures u.NodeUp?
  {
  }

  predicate DistinctIds(cycles: seq<Node>) {
    forall i, j | 0 <= i < j < |cycles| :: cycles[i].id != cycles[j].id
  }

  /** A pass does to a cycle what checking it alone does. */
  lemma {:induction false} PassOnOne(m: Memory, cycles: seq<Node>, n: nat, id: string, pass: Pass, cfg: Settings)
    requires Known(m, id) && DistinctIds(cycles) && n <= |cycles|
    ensures Known(CheckEach(m, cycles[..n], pass, cfg), id)
    ensures var r := CheckEach(m, cycles[..n], pass, cfg).nodes[id];
            && ((forall i | 0 <= i < n :: cycles[i].id != id) ==> r == m.nodes[id] && id !in Published(cycles[..n], pass, cfg))
            && (forall i | 0 <= i < n && cycles[i].id == id ::
                  && r == ApplyIf(m, CheckOne(cycles[i], pass, cfg).0).nodes[id]
                  && (id in Published(cycles[..n], pass, cfg) <==> CheckOne(cycles[i], pass, cfg).1))
    decreases n
  {
    hide CheckOne, Apply, Known, StatusUpsert;
    if n > 0 {
      PassOnOne(m, cycles, n - 1, id, pass, cfg);
      assert cycles[..n][..n - 1] == cycles[..n - 1];
      var before, u := CheckEach(m, cycles[..n - 1], pass, cfg), CheckOne(cycles[n - 1], pass, cfg).0;
      UpsertsAreStatus(cycles[n - 1], pass, cfg, id, "");
      if u.Some? {
        StatusUpsertKeeps(before, u.value, id);
        if cycles[n - 1].id == id {
          StatusIsNode(u.value);
          SameOnOne(m, before, u.value, id);
        }
      }
      PublishedStep(cycles, n, pass, cfg, id);
    }
  }

  lemma PublishedStep(cycles: seq<Node>, n: nat, pass: Pass, cfg: Settings, id: string)
    requires 0 < n <= |cycles|
    ensures id in Published(cycles[..n], pass, cfg) <==>
              id in Published(cycles[..n - 1], pass, cfg) || (CheckOne(cycles[n - 1], pass, cfg).1 && cycles[n - 1].id == id)
  {
    hide CheckOne;
    assert cycles[..n][..n - 1] == cycles[..n - 1];
  }

  /** An upsert of a node's own depends on that node only. */
  lemma SameOnOne(m: Memory, n: Memory, u: Upsert, id: string)
    requires Known(m, id) && Known(n, id) && u.NodeUp? && u.id == id && m.nodes[id] == n.nodes[id]
    ensures id in Apply(m, u).nodes && id in Apply(n, u).nodes && Apply(m, u).nodes[id] == Apply(n, u).nodes[id]
  {
  }

  // ---------- what every event keeps ----------

  lemma CyclesListed(m: Memory, id: string) returns (i: nat)
    requires Known(m, id)
    ensures var cycles := m.NodesByLabel(CYCLE); DistinctIds(cycles) && i < |cycles| && cycles[i] == m.nodes[id]
  {
    var ids := Enumerate(m.Labelled(CYCLE));
    AscendingDistinct(ids);
    assert id in ids;
    i :| i < |ids| && ids[i] == id;
    forall k | 0 <= k < |ids| ensures m.NodesByLabel(CYCLE)[k].id == ids[k] {
      assert ids[k] in ids;
    }
  }

  /** A cycle after being checked alone. */
  function Checked(n: Node, pass: Pass, cfg: Settings): Node {
    var u := CheckOne(n, pass, cfg).0;
    if u.None? then n else n.(props := n.props + u.value.props)
  }

  lemma CheckedAlone(m: Memory, id: string, pass: Pass, cfg: Settings)
    requires Known(m, id)
    ensures var n := ApplyIf(m, CheckOne(m.nodes[id], pass, cfg).0); id in n.nodes && n.nodes[id] == Checked(m.nodes[id], pass, cfg)
  {
    hide CheckOne, Apply, Known, StatusUpsert;
    KnownId(m, id);
    var u := CheckOne(m.nodes[id], pass, cfg).0;
    UpsertsAreStatus(m.nodes[id], pass, cfg, id, "");
    if u.Some? { OwnProps(m, u.value, id); }
  }

  /** A pass treats every cycle by itself. */
  lemma PassStep(m: Memory, id: string, pass: Pass, cfg: Settings)
    requires Known(m, id)
    ensures var n := Step(m, Check(pass), cfg); Known(n, id) && n.nodes[id] == Checked(m.nodes[id], pass, cfg)
    ensures Asks(m, Check(pass), id, cfg) <==> CheckOne(m.nodes[id], pass, cfg).1
  {
    hide CheckOne, Apply, Known, CheckEach, Published, Checked;
    var cycles := m.NodesByLabel(CYCLE);
    var i := CyclesListed(m, id);
    KnownId(m, id);
    PassOnOne(m, cycles, |cycles|, id, pass, cfg);
    CheckedAlone(m, id, pass, cfg);
    assert cycles[..|cycles|] == cycles;
    assert cycles[i].id == id;
  }

  lemma KnownId(m: Memory, id: string)
    requires Known(m, id)
    ensures id in m.nodes && m.nodes[id].id == id && m.nodes[id].lbl == CYCLE
  {
  }

  /** What one event does to a cycle: it keeps its identity, its status moves forward or
      stays, and a request is published only out of NEEDS_FEEDBACK into REQUESTED. */
  lemma EventStep(m: Memory, e: Event, id: string, cfg: Settings)
    requires Known(m, id)
    ensures var n := Step(m, e, cfg); Known(n, id) && SameCycle(m.nodes[id], n.nodes[id])
    ensures var before, after := StatusOf(m.nodes[id]), StatusOf(Step(m, e, cfg).nodes[id]);
            && Rank(before) <= Rank(after)
            && (Asks(m, e, id, cfg) ==> before == "NEEDS_FEEDBACK" && after == "REQUESTED")
            && (after == "NEEDS_FEEDBACK" && before != "NEEDS_FEEDBACK" ==> e.Check? && GraceOver(m.nodes[id], e.pass.now, cfg))
            && (Asks(m, e, id, cfg) ==> e.Check?)
  {
    hide GraceOver, Known, CheckEach, Published, Apply, StatusUpsert, SameCycle, Asks, Rank, Checked;
    KnownId(m, id);
    RankOrder();
    SameSelf(m.nodes[id]);
    match e {
      case Check(pass) =>
        PassStep(m, id, pass, cfg);
        CheckEffect(m.nodes[id], pass, cfg);
      case WaiveEvent(other) =>
        UpsertsAreStatus(m.nodes[id], Pass(0, "", x => false), cfg, other, "WAIVED");
        NotAsked(m, e, id, cfg);
        StatusUpsertKeeps(m, SetStatus(other, "WAIVED"), id);
        SetsStatus(m.nodes[id], "WAIVED");
      case Receive(other) =>
        UpsertsAreStatus(m.nodes[id], Pass(0, "", x => false), cfg, other, "RECEIVED");
        NotAsked(m, e, id, cfg);
        StatusUpsertKeeps(m, SetStatus(other, "RECEIVED"), id);
        SetsStatus(m.nodes[id], "RECEIVED");
    }
  }

  lemma RankOrder()
    ensures Rank("PENDING") == 0 && Rank("NEEDS_FEEDBACK") == 1 && Rank("REQUESTED") == 2 && Rank("WAIVED") == 3 && Rank("RECEIVED") == 4
    ensures forall status :: Rank(status) <= 4
  {
  }

  lemma SameSelf(n: Node)
    ensures SameCycle(n, n)
  {
  }

  lemma NotAsked(m: Memory, e: Event, id: string, cfg: Settings)
    requires !e.Check?
    ensures !Asks(m, e, id, cfg)
  {
  }

  lemma SetsStatus(n: Node, status: string)
    ensures StatusOf(n.(props := n.props + map["humanFeedbackStatus" := Str(status)])) == status
  {
  }

  lemma AsksStatus(n: Node, at: string)
    ensures StatusOf(n.(props := n.props + map["humanFeedbackStatus" := Str("REQUESTED"), "feedbackRequestedAt" := Str(at)])) == "REQUESTED"
  {
  }

  lemma CheckEffect(n: Node, pass: Pass, cfg: Settings)
    ensures var before, after := StatusOf(n), StatusOf(Checked(n, pass, cfg));
            && SameCycle(n, Checked(n, pass, cfg)) && Rank(before) <= Rank(after)
            && (CheckOne(n, pass, cfg).1 ==> before == "NEEDS_FEEDBACK" && after == "REQUESTED")
            && (after == "NEEDS_FEEDBACK" && before != "NEEDS_FEEDBACK" ==> GraceOver(n, pass.now, cfg))
  {
    hide GraceOver, Rank, StatusOf;
    RankOrder();
    SetsStatus(n, "NEEDS_FEEDBACK");
    AsksStatus(n, pass.at);
  }

  lemma OwnProps(m: Memory, u: Upsert, id: string)
    requires Known(m, id) && StatusUpsert(u) && u.id == id
    ensures id in Apply(m, u).nodes && Apply(m, u).nodes[id] == m.nodes[id].(props := m.nodes[id].props + u.props)
  {
  }

  // ---------- every run ----------

  predicate ClockOk(events: seq<Event>) {
    forall i, j | 0 <= i < j < |events| && events[i].Check? && events[j].Check? :: events[i].pass.now <= events[j].pass.now
  }

  lemma {:induction false} RunKeeps(m: Memory, events: seq<Event>, id: string, cfg: Settings)
    requires Known(m, id)
    ensures Known(After(m, events, cfg), id) && SameCycle(m.nodes[id], After(m, events, cfg).nodes[id])
    decreases |events|
  {
    hide Known, Step, StatusOf, TextOf, Rank, Asks, GraceOver;
    if events != [] {
      RunKeeps(m, events[..|events| - 1], id, cfg);
      EventStep(After(m, events[..|events| - 1], cfg), events[|events| - 1], id, cfg);
    } else {
      KnownId(m, id);
    }
  }

  /** Along every run a cycle's feedback status never moves back. */
  lemma {:induction false} StatusNeverMovesBack(m: Memory, events: seq<Event>, id: string, cfg: Settings)
    requires Known(m, id)
    ensures Known(After(m, events, cfg), id) && Rank(StatusOf(m.nodes[id])) <= Rank(StatusOf(After(m, events, cfg).nodes[id]))
    decreases |events|
  {
    hide Known, Step, StatusOf, TextOf, Rank, Asks, GraceOver, SameCycle;
    if events != [] {
      StatusNeverMovesBack(m, events[..|events| - 1], id, cfg);
      EventStep(After(m, events[..|events| - 1], cfg), events[|events| - 1], id, cfg);
    } else {
      KnownId(m, id);
    }
  }

  lemma GraceLasts(n: Node, t1: int, t2: int, cfg: Settings)
    requires t1 <= t2 && GraceOver(n, t1, cfg)
    ensures GraceOver(n, t2, cfg)
  {
  }

  lemma SameGrace(a: Node, b: Node, now: int, cfg: Settings)
    requires SameCycle(a, b)
    ensures GraceOver(a, now, cfg) <==> GraceOver(b, now, cfg)
  {
  }

  /** Some pass so far came after the cycle's grace period. */
  ghost predicate GraceSeen(n: Node, events: seq<Event>, cfg: Settings) {
    exists e :: e in events && e.Check? && GraceOver(n, e.pass.now, cfg)
  }

  /** What is known of a cycle that started out pending: it needs feedback only after its
      grace period, and was asked for it at most once, after that period, and not before
      it got past needing it. */
  ghost predicate AskedOk(m: Memory, events: seq<Event>, id: string, cfg: Settings)
    requires Known(m, id)
  {
    var asked := Requests(m, events, id, cfg);
    && Known(After(m, events, cfg), id)
    && |asked| <= 1
    && (Rank(StatusOf(After(m, events, cfg).nodes[id])) <= 1 ==> asked == [])
    && (StatusOf(After(m, events, cfg).nodes[id]) == "NEEDS_FEEDBACK" ==> GraceSeen(m.nodes[id], events, cfg))
    && (forall e | e in asked :: e.Check? && GraceOver(m.nodes[id], e.pass.now, cfg))
  }

  lemma SeenBefore(n: Node, events: seq<Event>, cfg: Settings)
    requires events != [] && ClockOk(events) && events[|events| - 1].Check? && GraceSeen(n, events[..|events| - 1], cfg)
    ensures GraceOver(n, events[|events| - 1].pass.now, cfg)
  {
    hide GraceOver;
    var front := events[..|events| - 1];
    var e :| e in front && e.Check? && GraceOver(n, e.pass.now, cfg);
    var i :| 0 <= i < |front| && front[i] == e;
    assert events[i] == e;
    GraceLasts(n, e.pass.now, events[|events| - 1].pass.now, cfg);
  }

  lemma SeenMore(n: Node, events: seq<Event>, cfg: Settings)
    requires events != []
    requires GraceSeen(n, events[..|events| - 1], cfg)
          || (events[|events| - 1].Check? && GraceOver(n, events[|events| - 1].pass.now, cfg))
    ensures GraceSeen(n, events, cfg)
  {
    hide GraceOver;
    var front, last := events[..|events| - 1], events[|events| - 1];
    if e :| e in front && e.Check? && GraceOver(n, e.pass.now, cfg) {
      assert e in events;
    } else {
      assert last in events;
    }
  }

  lemma {:induction false} AskedKeeps(m: Memory, events: seq<Event>, id: string, cfg: Settings)
    requires Known(m, id) && StatusOf(m.nodes[id]) == "PENDING" && ClockOk(events)
    ensures AskedOk(m, events, id, cfg)
    decreases |events|
  {
    hide Known, Step, StatusOf, TextOf, Rank, Asks, GraceOver, SameCycle, GraceSeen;
    RankOrder();
    if events == [] {
      KnownId(m, id);
    } else {
      var front, e := events[..|events| - 1], events[|events| - 1];
      AskedKeeps(m, front, id, cfg);
      RunKeeps(m, front, id, cfg);
      EventStep(After(m, front, cfg), e, id, cfg);
      AskedStep(m, events, id, cfg);
    }
  }

  lemma AskedStep(m: Memory, events: seq<Event>, id: string, cfg: Settings)
    requires Known(m, id) && events != [] && ClockOk(events)
    requires var front := events[..|events| - 1]; AskedOk(m, front, id, cfg) && SameCycle(m.nodes[id], After(m, front, cfg).nodes[id])
    ensures AskedOk(m, events, id, cfg)
  {
    hide Known, Step, StatusOf, TextOf, Rank, Asks, GraceOver, SameCycle, GraceSeen, ClockOk;
    RankOrder();
    var front, e := events[..|events| - 1], events[|events| - 1];
    var mid := After(m, front, cfg);
    EventStep(mid, e, id, cfg);
    KnownId(m, id);
    KnownId(mid, id);
    KnownId(Step(mid, e, cfg), id);
    if Asks(mid, e, id, cfg) {
      SeenBefore(m.nodes[id], events, cfg);
    }
    if StatusOf(Step(mid, e, cfg).nodes[id]) == "NEEDS_FEEDBACK" {
      if StatusOf(mid.nodes[id]) != "NEEDS_FEEDBACK" { SameGrace(m.nodes[id], mid.nodes[id], e.pass.now, cfg); }
      SeenMore(m.nodes[id], events, cfg);
    }
  }

  /** Between two executions of a cycle, over any sequence of check passes, waives and
      feedback under a monotone clock: at most one request is published, and none before
      the completion time on record plus the grace period. */
  lemma OneRequestAfterGrace(m: Memory, events: seq<Event>, id: string, cfg: Settings)
    requires Known(m, id) && StatusOf(m.nodes[id]) == "PENDING" && ClockOk(events) && cfg.grace > MIN_DURATION
    ensures |Requests(m, events, id, cfg)| <= 1
    ensures forall e | e in Requests(m, events, id, cfg) ::
              e.Check? && var completed := cfg.parseTime(TextOf(m.nodes[id], "completedAt"));
                          completed.Some? && e.pass.now >= completed.value + cfg.grace
  {
    hide Known, Requests, StatusOf, TextOf;
    AskedKeeps(m, events, id, cfg);
  }

  /** A completion time written with whole seconds and read back is at most a second early. */
  lemma CompletionToTheSecond(m: Memory, events: seq<Event>, id: string, completedAt: int, cfg: Settings)
    requires Known(m, id) && StatusOf(m.nodes[id]) == "PENDING" && ClockOk(events) && cfg.grace > MIN_DURATION
    requires cfg.parseTime(TextOf(m.nodes[id], "completedAt")) == Some(completedAt - completedAt % SECOND)
    ensures forall e | e in Requests(m, events, id, cfg) :: e.Check? && e.pass.now > completedAt + cfg.grace - SECOND
  {
    hide Known, Requests, StatusOf, TextOf;
    OneRequestAfterGrace(m, events, id, cfg);
  }
}
