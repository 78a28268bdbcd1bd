/** When IDs stand for one name each: with an injective hash, colon-free agent and topic
    names and feedback on cycles only, no two records of ingestion name one ID differently. */
module EdgeNames {
  import opened Text
  import opened PropertyGraph
  import opened IndexKeys
  import opened NodeIds
  import opened Envelopes
  import opened Upserts
  import opened Handlers
  import opened RecordEffects
  import opened Checkpoints
  import opened IngestSystem
  import opened Progress
  import opened Sayings
  import opened ExactlyOnce

  /** Agent and topic names without colons; skills, conversations and cycles are free. */
  predicate PlainNames(rec: Record) {
    && ':' !in rec.source.topic
    && (rec.value.Some? ==>
          && ':' !in rec.value.value.senderID
          && (rec.value.value.payload.Roster? ==> ':' !in rec.value.value.payload.agentID)
          && (rec.value.value.payload.Orchestrator? ==> ':' !in rec.value.value.payload.fromAgent))
  }

  predicate FromAgent(lbl: string) {
    lbl in {"AUTHORED", "HAS_SKILL", "DELEGATES_TO", "REPORTS_TO"}
  }

  predicate FromRecord(lbl: string) {
    lbl in {"BELONGS_TO", "USES_SKILL", "SHARED_BY", "REFERENCES", "AUDITED_BY"}
  }

  /** One endpoint has a number of colons that the label fixes. */
  predicate PlainEdge(lbl: string, from: string, to: string) {
    || (FromAgent(lbl) && Count(from, ':') == 2)
    || (FromRecord(lbl) && Count(from, ':') == 4)
    || (lbl == "HAS_FEEDBACK" && Count(to, ':') == 4)
  }

  lemma PlainLabels(lbl: string)
    ensures FromAgent(lbl) ==> ':' !in lbl && !FromRecord(lbl) && lbl != "HAS_FEEDBACK"
    ensures FromRecord(lbl) ==> ':' !in lbl && lbl != "HAS_FEEDBACK"
    ensures ':' !in "HAS_FEEDBACK"
  {
  }

  /** The same ID, the same edge. */
  lemma PlainEdgesDistinct(hash: EdgeHash, l1: string, f1: string, t1: string, l2: string, f2: string, t2: string)
    requires Injective(hash) && PlainEdge(l1, f1, t1) && PlainEdge(l2, f2, t2)
    requires DeterministicEdgeID(hash, l1, f1, t1) == DeterministicEdgeID(hash, l2, f2, t2)
    ensures l1 == l2 && f1 == f2 && t1 == t2
  {
    hide FromAgent, FromRecord, Count, DeterministicEdgeID, Injective;
    PlainLabels(l1);
    PlainLabels(l2);
    EdgeIdsClashIff(hash, l1, f1, t1, l2, f2, t2);
    if l1 == "HAS_FEEDBACK" {
      LastColonsSplit(f1, t1, f2, t2);
    } else {
      EndpointsSplit(f1, t1, f2, t2);
    }
  }

  ghost predicate Names(hash: EdgeHash, id: string, lbl: string, from: string, to: string) {
    PlainEdge(lbl, from, to) && id == DeterministicEdgeID(hash, lbl, from, to)
  }

  /** The edge an ID stands for. */
  ghost function EndOf(hash: EdgeHash, id: string): (r: Content)
    ensures (exists lbl, from, to :: Names(hash, id, lbl, from, to)) ==> r.Meta? && Names(hash, id, r.lbl, r.from, r.to)
  {
    if exists lbl, from, to :: Names(hash, id, lbl, from, to) then
      var lbl, from, to :| Names(hash, id, lbl, from, to);
      Meta(lbl, from, to)
    else
      Meta("", "", "")
  }

  lemma EndOfPlainEdge(hash: EdgeHash, lbl: string, from: string, to: string)
    requires Injective(hash) && PlainEdge(lbl, from, to)
    ensures EndOf(hash, DeterministicEdgeID(hash, lbl, from, to)) == Meta(lbl, from, to)
  {
    hide PlainEdge, DeterministicEdgeID, Injective;
    var id := DeterministicEdgeID(hash, lbl, from, to);
    assert Names(hash, id, lbl, from, to);
    var end := EndOf(hash, id);
    PlainEdgesDistinct(hash, lbl, from, to, end.lbl, end.from, end.to);
  }

  // ---------- the edges of a record ----------

  predicate EdgePlain(u: Upsert, hash: EdgeHash) {
    u.EdgeUp? && u.lbl != "LINKS_TO" ==> PlainEdge(u.lbl, u.from, u.to) && u.id == DeterministicEdgeID(hash, u.lbl, u.from, u.to)
  }

  predicate AllPlain(us: seq<Upsert>, hash: EdgeHash) {
    forall u | u in us :: EdgePlain(u, hash)
  }

  lemma AgentColons(agentID: string)
    requires ':' !in agentID
    ensures Count(AgentNodeID(agentID), ':') == 2
  {
    CountZero(agentID, ':');
    assert AgentNodeID(agentID) == "n:Agent:" + agentID;
    CountConcat("n:Agent:", agentID, ':');
    CountConcat("n:Agent", ":", ':');
    CountConcat("n:", "Agent", ':');
    CountZero("Agent", ':');
    assert Count("n:", ':') == 1 && Count(":", ':') == 1;
  }

  lemma SourceColons(lbl: string, src: Source)
    requires ':' !in lbl && ':' !in src.topic
    ensures Count(NodeId(lbl, SourceText(src)), ':') == 4
  {
    hide SignedDecimal;
    SignedDigits(src.partition);
    SignedDigits(src.offset);
    CountZero(lbl, ':');
    CountZero(src.topic, ':');
    CountZero(SignedDecimal(src.partition), ':');
    CountZero(SignedDecimal(src.offset), ':');
    CountZero(SignedDecimal(src.offset), ':');
    ColonJoin("n", lbl);
    ColonJoin(src.topic, SignedDecimal(src.partition));
    ColonJoin(src.topic + ":" + SignedDecimal(src.partition), SignedDecimal(src.offset));
    ColonJoin("n:" + lbl, SourceText(src));
    assert "n" + ":" + lbl == "n:" + lbl;
    assert NodeId(lbl, SourceText(src)) == "n:" + lbl + ":" + SourceText(src);
    assert Count("n", ':') == 0;
  }

  lemma ColonJoin(a: string, b: string)
    ensures Count(a + ":" + b, ':') == Count(a, ':') + 1 + Count(b, ':')
  {
    CountConcat(a + ":", b, ':');
    CountConcat(a, ":", ':');
    assert Count(":", ':') == 1;
  }

  lemma LinkPlain(hash: EdgeHash, lbl: string, from: string, to: string, props: Properties)
    requires PlainEdge(lbl, from, to)
    ensures EdgePlain(Link(hash, lbl, from, to, props), hash)
  {
  }

  /** The nodes of a plain record's source have four colons. */
  lemma SourceNodes(src: Source)
    requires ':' !in src.topic
    ensures Count(MessageNodeID(src), ':') == 4 && Count(SharedMemoryNodeID(src), ':') == 4
    ensures Count(AuditEventNodeID(src), ':') == 4 && Count(HumanFeedbackNodeID(src), ':') == 4
  {
    hide NodeId, SourceText, Count;
    IngestedColonFree("Message");
    IngestedColonFree("SharedMemory");
    IngestedColonFree("AuditEvent");
    IngestedColonFree("HumanFeedback");
    SourceColons("Message", src);
    SourceColons("SharedMemory", src);
    SourceColons("AuditEvent", src);
    SourceColons("HumanFeedback", src);
  }

  lemma MessagePlain(env: Envelope, src: Source, props: Properties, hash: EdgeHash)
    requires ':' !in src.topic && ':' !in env.senderID
    ensures AllPlain(MessageUps(env, src, props, hash), hash)
  {
    hide NodeId, DeterministicEdgeID, Count;
    var sender, conv, msg := AgentNodeID(env.senderID), ConversationNodeID(env.correlationID), MessageNodeID(src);
    AgentColons(env.senderID);
    SourceNodes(src);
    LinkPlain(hash, "AUTHORED", sender, msg, map[]);
    LinkPlain(hash, "BELONGS_TO", msg, conv, map[]);
  }

  lemma SkillRequestPlain(env: Envelope, src: Source, hash: EdgeHash)
    requires env.payload.SkillRequest? && ':' !in src.topic && ':' !in env.senderID
    ensures AllPlain(SkillRequestUps(env, src, hash), hash)
  {
    hide NodeId, DeterministicEdgeID, Count;
    var sender, conv, msg, skill :=
      AgentNodeID(env.senderID), ConversationNodeID(env.correlationID), MessageNodeID(src), SkillNodeID(env.payload.skillName);
    AgentColons(env.senderID);
    SourceNodes(src);
    LinkPlain(hash, "AUTHORED", sender, msg, map[]);
    LinkPlain(hash, "BELONGS_TO", msg, conv, map[]);
    LinkPlain(hash, "USES_SKILL", msg, skill, map[]);
  }

  lemma {:induction false} ReferencesPlain(memory: string, refs: seq<string>, hash: EdgeHash)
    requires Count(memory, ':') == 4
    ensures AllPlain(ReferenceUps(memory, refs, hash), hash)
    decreases |refs|
  {
    hide EdgePlain, DeterministicEdgeID, NodeId, Count;
    if refs != [] {
      ReferencesPlain(memory, refs[..|refs| - 1], hash);
      LinkPlain(hash, "REFERENCES", memory, AgentNodeID(refs[|refs| - 1]), map[]);
      NodesPlain(AgentUp(refs[|refs| - 1]), hash);
    }
  }

  lemma NodesPlain(u: Upsert, hash: EdgeHash)
    requires u.NodeUp?
    ensures EdgePlain(u, hash)
  {
  }

  lemma MemoryPlain(env: Envelope, src: Source, hash: EdgeHash)
    requires env.payload.MemoryEntry? && ':' !in src.topic
    ensures AllPlain(MemoryUps(env, src, hash), hash)
  {
    hide NodeId, DeterministicEdgeID, Count, ReferenceUps;
    SourceNodes(src);
    LinkPlain(hash, "SHARED_BY", SharedMemoryNodeID(src), AgentNodeID(env.senderID), map[]);
    ReferencesPlain(SharedMemoryNodeID(src), env.payload.references, hash);
  }

  lemma AuditPlain(env: Envelope, src: Source, hash: EdgeHash)
    requires env.payload.Audit? && ':' !in src.topic
    ensures AllPlain(AuditUps(env, src, hash), hash)
  {
    hide NodeId, DeterministicEdgeID, Count;
    SourceNodes(src);
    LinkPlain(hash, "AUDITED_BY", AuditEventNodeID(src), AgentNodeID(env.senderID), map[]);
  }

  lemma {:induction false} SkillsPlain(agent: string, skills: seq<string>, props: Properties, hash: EdgeHash)
    requires Count(agent, ':') == 2
    ensures AllPlain(SkillUps(agent, skills, props, hash), hash)
    decreases |skills|
  {
    hide EdgePlain, DeterministicEdgeID, NodeId, Count;
    if skills != [] {
      SkillsPlain(agent, skills[..|skills| - 1], props, hash);
      LinkPlain(hash, "HAS_SKILL", agent, SkillNodeID(skills[|skills| - 1]), props);
      NodesPlain(SkillUp(skills[|skills| - 1]), hash);
    }
  }

  lemma RosterPlain(env: Envelope, hash: EdgeHash)
    requires env.payload.Roster? && ':' !in env.senderID && ':' !in env.payload.agentID
    ensures AllPlain(RosterUps(env, hash), hash)
  {
    hide DeterministicEdgeID, NodeId, Count, SkillUps, RosterProps;
    var agentID := if env.payload.agentID == "" then env.senderID else env.payload.agentID;
    AgentColons(agentID);
    SkillsPlain(AgentNodeID(agentID), env.payload.skills, RosterProps(env), hash);
  }

  lemma OrchestratorPlain(env: Envelope, hash: EdgeHash)
    requires env.payload.Orchestrator? && ':' !in env.payload.fromAgent
    ensures AllPlain(OrchestratorUps(env, hash), hash)
  {
    hide DeterministicEdgeID, NodeId, Count;
    var p := env.payload;
    AgentColons(p.fromAgent);
    LinkPlain(hash, "DELEGATES_TO", AgentNodeID(p.fromAgent), AgentNodeID(p.toAgent), map["taskID" := Str(p.taskID)]);
    LinkPlain(hash, "REPORTS_TO", AgentNodeID(p.fromAgent), AgentNodeID(p.toAgent), map["taskID" := Str(p.taskID)]);
  }

  lemma {:induction false} OverridesPlain(edges: seq<Edge>, cycle: string, props: Properties, hash: EdgeHash)
    ensures AllPlain(OverrideUps(edges, cycle, props), hash)
    decreases |edges|
  {
    hide DeterministicEdgeID, PlainEdge;
    if edges != [] { OverridesPlain(edges[..|edges| - 1], cycle, props, hash); }
  }

  lemma FrontPlain(env: Envelope, src: Source, hash: EdgeHash)
    requires env.payload.HumanFeedback? && ':' !in src.topic
    ensures AllPlain(FeedbackFront(env, src, hash), hash)
  {
    hide DeterministicEdgeID, NodeId, Count, FeedbackProps;
    SourceNodes(src);
    LinkPlain(hash, "HAS_FEEDBACK", env.payload.cycleID, HumanFeedbackNodeID(src), map[]);
  }

  lemma FeedbackPlain(env: Envelope, src: Source, m: Memory, hash: EdgeHash)
    requires env.payload.HumanFeedback? && ':' !in src.topic
    ensures AllPlain(FeedbackUps(env, src, m, hash), hash)
  {
    hide FeedbackFront, OverrideUps, OverrideProps, Run, EdgePlain;
    var cycle := env.payload.cycleID;
    FrontPlain(env, src, hash);
    var linked := Run(m, FeedbackFront(env, src, hash));
    OverridesPlain(linked.EdgesAt(linked.EdgeIdsAt(cycle)), cycle, OverrideProps(env), hash);
  }

  lemma UpsPlain(rec: Record, m: Memory, hash: EdgeHash)
    requires PlainNames(rec)
    ensures AllPlain(Ups(rec, m, hash), hash)
  {
    hide EdgePlain, MessageUps, SkillRequestUps, MemoryUps, AuditUps, RosterUps, OrchestratorUps, FeedbackUps, NodeId;
    if rec.value.Some? {
      var env, src := rec.value.value, rec.source;
      match env.payload {
        case Announce(_, _, _, _) => NodesPlain(AnnounceUps(env)[0], hash);
        case Request(_, _, _) => MessagePlain(env, src, RequestProps(env), hash);
        case Response(taskID, text, inReplyTo) => MessagePlain(env, src, ResponseProps(env.senderID, taskID, text, inReplyTo), hash);
        case TaskStatus(taskID, status) =>
          NodesPlain(ConversationNote(env, map["taskStatus" := Str(status), "taskID" := Str(taskID)])[0], hash);
        case SkillRequest(_, _) => SkillRequestPlain(env, src, hash);
        case SkillResponse(_, result, inReplyTo) => MessagePlain(env, src, ResponseProps(env.senderID, "", result, inReplyTo), hash);
        case MemoryEntry(_, _, _) => MemoryPlain(env, src, hash);
        case Trace(spanID, operation, durationMs) =>
          var note := map["traceSpanID" := Str(spanID), "traceOperation" := Str(operation), "traceDurationMs" := Float(durationMs)];
          NodesPlain(ConversationNote(env, note)[0], hash);
        case Audit(_, _, _) => AuditPlain(env, src, hash);
        case Roster(_, _, _, _) => RosterPlain(env, hash);
        case Orchestrator(_, _, _, _) => OrchestratorPlain(env, hash);
        case HumanFeedback(_, _, _, _, _, _, _) => FeedbackPlain(env, src, m, hash);
        case UnknownType =>
        case BadPayload =>
      }
    }
  }

  // ---------- plain records agree on names ----------

  /** The cycle a feedback names is there, or its ID is none that ingestion hands out. */
  predicate NamesCycle(rec: Record, init: Memory) {
    rec.value.Some? && rec.value.value.payload.HumanFeedback? ==>
      rec.value.value.payload.cycleID in init.nodes || LabelOf(rec.value.value.payload.cycleID) == "ReflectionCycle"
  }

  /** The name that the ID alone gives. */
  ghost function NameOf(c: Cell, hash: EdgeHash): Content {
    if c.NodeLabel? then Label(LabelOf(c.id)) else EndOf(hash, c.id)
  }

  lemma PlainName(rec: Record, init: Memory, cfg: Config, u: Upsert, c: Cell)
    requires Injective(cfg.hash) && Keyed(init) && PlainNames(rec) && NamesCycle(rec, init)
    requires u in Full(rec, init, cfg) && Writes(u, c) && Fixed(c) && Get(init, c).None?
    ensures FixedContent(u) == NameOf(c, cfg.hash)
  {
    hide Injective, PlainNames, PlainEdge, DeterministicEdgeID, EndOf, Ups, LabelOf, CheckpointNodeID;
    UpsPlain(rec, init, cfg.hash);
    UpsExpected(rec, init, cfg.hash);
    CheckpointLabel(cfg.namespace, rec.source.topic, rec.source.partition);
    if u in Ups(rec, init, cfg.hash) {
      assert EdgePlain(u, cfg.hash) && Expected(u, rec, init);
      if u.EdgeUp? { EndOfPlainEdge(cfg.hash, u.lbl, u.from, u.to); }
    }
  }

  lemma {:induction false} FirstSays(us: seq<Upsert>, c: Cell, name: Content)
    requires WritesAny(us, c) && forall u | u in us && Writes(u, c) :: FixedContent(u) == name
    ensures First(us, c) == name
    decreases |us|
  {
    hide Writes, FixedContent;
    var n := |us| - 1;
    if WritesAny(us[..n], c) {
      FirstSays(us[..n], c, name);
    } else {
      assert us[n] in us;
    }
  }

  ghost predicate Plain(recs: seq<Record>, init: Memory) {
    forall r | r in recs :: PlainNames(r) && NamesCycle(r, init)
  }

  lemma PlainWord(rec: Record, init: Memory, cfg: Config, c: Cell)
    requires Injective(cfg.hash) && Keyed(init) && PlainNames(rec) && NamesCycle(rec, init) && Fixed(c) && Get(init, c).None?
    ensures Word(rec, init, cfg, c).Some? ==> Word(rec, init, cfg, c).value == NameOf(c, cfg.hash)
  {
    hide Full, WritesAny, First, Get, Writes, FixedContent, PlainNames, NamesCycle, NameOf, Injective, Keyed;
    var us := Full(rec, init, cfg);
    if WritesAny(us, c) {
      forall u | u in us && Writes(u, c) ensures FixedContent(u) == NameOf(c, cfg.hash) { PlainName(rec, init, cfg, u, c); }
      FirstSays(us, c, NameOf(c, cfg.hash));
    }
  }

  lemma PlainSays(recs: seq<Record>, init: Memory, cfg: Config, c: Cell)
    requires Injective(cfg.hash) && Keyed(init) && Plain(recs, init) && Fixed(c) && Get(init, c).None?
    ensures Says(recs, init, cfg, c).Some? ==> Says(recs, init, cfg, c).value == NameOf(c, cfg.hash)
  {
    hide Word, Says, Get, PlainNames, NamesCycle, NameOf, Injective, Keyed;
    if Says(recs, init, cfg, c).Some? {
      var i := Speaker(recs, init, cfg, c);
      SpeakerIs(recs, i, init, cfg, c);
      PlainWord(recs[i], init, cfg, c);
    }
  }

  /** With an injective hash, colon-free agent and topic names and feedback on cycles only,
      topic-partitions cannot disagree on a name: every run is exactly-once. */
  lemma PlainRecordsAgree(init: Memory, logs: Logs, cfg: Config)
    requires Injective(cfg.hash) && Keyed(init) && forall tp | tp in logs :: Plain(logs[tp], init)
    ensures NamesAgree(init, logs, cfg)
  {
    hide Plain, Says, Get, Injective, Keyed, Live;
    forall p, q, c | p in logs && q in logs && Fixed(c) && Get(init, c).None?
      ensures SameName(Voice(init, logs, p, cfg, c), Voice(init, logs, q, cfg, c))
    {
      PlainLive(init, logs, p, cfg);
      PlainLive(init, logs, q, cfg);
      PlainSays(Live(init, logs, p, cfg), init, cfg, c);
      PlainSays(Live(init, logs, q, cfg), init, cfg, c);
    }
  }

  lemma PlainLive(init: Memory, logs: Logs, tp: TopicPartition, cfg: Config)
    requires tp in logs && Plain(logs[tp], init)
    ensures Plain(Live(init, logs, tp, cfg), init)
  {
    hide PlainNames, NamesCycle, CheckpointAt;
  }
}
