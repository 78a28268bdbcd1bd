/** The message handlers: methods upserting into the graph one record at a time, and the
    list of upserts each amounts to. */
module Handlers {
  import opened Text
  import opened PropertyGraph
  import opened NodeIds
  import opened Envelopes
  import opened Upserts
  import GraphEngine
  import Lookups

  // ---------- upserts of a record ----------

  function AgentUp(agentID: string): Upsert {
    NodeUp(AgentNodeID(agentID), "Agent", map["senderID" := Str(agentID)])
  }

  function ConversationUp(env: Envelope): Upsert {
    NodeUp(ConversationNodeID(env.correlationID), "Conversation", map["correlationID" := Str(env.correlationID)])
  }

  function Link(hash: EdgeHash, lbl: string, from: string, to: string, props: Properties): Upsert {
    EdgeUp(DeterministicEdgeID(hash, lbl, from, to), lbl, from, to, props)
  }

  function AnnounceUps(env: Envelope): seq<Upsert>
    requires env.payload.Announce?
  {
    var p := env.payload;
    var agentID := if p.agentID == "" then env.senderID else p.agentID;
    [NodeUp(AgentNodeID(agentID), "Agent",
            map["agentName" := Str(p.agentName), "action" := Str(p.action), "groupName" := Str(p.groupName), "senderID" := Str(env.senderID)])]
  }

  /** Sender, conversation and message, and the edges between them. */
  function MessageUps(env: Envelope, src: Source, props: Properties, hash: EdgeHash): seq<Upsert> {
    var sender, conv, msg := AgentNodeID(env.senderID), ConversationNodeID(env.correlationID), MessageNodeID(src);
    [AgentUp(env.senderID), ConversationUp(env), NodeUp(msg, "Message", props),
     Link(hash, "AUTHORED", sender, msg, map[]), Link(hash, "BELONGS_TO", msg, conv, map[])]
  }

  function RequestProps(env: Envelope): Properties
    requires env.payload.Request?
  {
    map["text" := Str(env.payload.requestText), "taskID" := Str(env.payload.taskID),
        "target" := Str(env.payload.targetAgent), "senderID" := Str(env.senderID)]
  }

  function ResponseProps(senderID: string, taskID: string, text: string, inReplyTo: string): Properties {
    map["text" := Str(text), "taskID" := Str(taskID), "inReplyTo" := Str(inReplyTo), "senderID" := Str(senderID)]
  }

  function ConversationNote(env: Envelope, props: Properties): seq<Upsert> {
    [NodeUp(ConversationNodeID(env.correlationID), "Conversation", props)]
  }

  function SkillUp(skillName: string): Upsert {
    NodeUp(SkillNodeID(skillName), "Skill", map["skillName" := Str(skillName)])
  }

  function SkillRequestUps(env: Envelope, src: Source, hash: EdgeHash): seq<Upsert>
    requires env.payload.SkillRequest?
  {
    var p := env.payload;
    var sender, conv, msg, skill :=
      AgentNodeID(env.senderID), ConversationNodeID(env.correlationID), MessageNodeID(src), SkillNodeID(p.skillName);
    [AgentUp(env.senderID), ConversationUp(env),
     NodeUp(msg, "Message", map["skillName" := Str(p.skillName), "parameters" := Str(p.parameters), "senderID" := Str(env.senderID)])]
    + [SkillUp(p.skillName), Link(hash, "AUTHORED", sender, msg, map[])]
    + [Link(hash, "BELONGS_TO", msg, conv, map[]), Link(hash, "USES_SKILL", msg, skill, map[])]
  }

  function ReferenceUps(memory: string, refs: seq<string>, hash: EdgeHash): seq<Upsert> {
    if refs == [] then []
    else ReferenceUps(memory, refs[..|refs| - 1], hash)
         + [AgentUp(refs[|refs| - 1]), Link(hash, "REFERENCES", memory, AgentNodeID(refs[|refs| - 1]), map[])]
  }

  function MemoryUps(env: Envelope, src: Source, hash: EdgeHash): seq<Upsert>
    requires env.payload.MemoryEntry?
  {
    var p, memory, sender := env.payload, SharedMemoryNodeID(src), AgentNodeID(env.senderID);
    [NodeUp(memory, "SharedMemory", map["key" := Str(p.key), "value" := Str(p.value)]), AgentUp(env.senderID),
     Link(hash, "SHARED_BY", memory, sender, map[])]
    + ReferenceUps(memory, p.references, hash)
  }

  function AuditUps(env: Envelope, src: Source, hash: EdgeHash): seq<Upsert>
    requires env.payload.Audit?
  {
    var p, audit, sender := env.payload, AuditEventNodeID(src), AgentNodeID(env.senderID);
    [NodeUp(audit, "AuditEvent",
            map["action" := Str(p.action), "resource" := Str(p.resource), "outcome" := Str(p.outcome), "senderID" := Str(env.senderID)]),
     AgentUp(env.senderID), Link(hash, "AUDITED_BY", audit, sender, map[])]
  }

  /** What a roster entry records about a skill: removal is a mark, not a deletion. */
  function RosterProps(env: Envelope): Properties
    requires env.payload.Roster?
  {
    var p := env.payload;
    var declared: Properties :=
      if p.action == "remove" then map["removedAt" := Str(env.timestamp), "declaredAt" := Str(env.timestamp)]
      else map["declaredAt" := Str(env.timestamp)];
    if p.version > 0 then declared["rosterVersion" := Int(p.version)] else declared
  }

  function SkillUps(agent: string, skills: seq<string>, props: Properties, hash: EdgeHash): seq<Upsert> {
    if skills == [] then []
    else SkillUps(agent, skills[..|skills| - 1], props, hash)
         + [SkillUp(skills[|skills| - 1]), Link(hash, "HAS_SKILL", agent, SkillNodeID(skills[|skills| - 1]), props)]
  }

  function RosterUps(env: Envelope, hash: EdgeHash): seq<Upsert>
    requires env.payload.Roster?
  {
    var p := env.payload;
    var agentID := if p.agentID == "" then env.senderID else p.agentID;
    [AgentUp(agentID)] + SkillUps(AgentNodeID(agentID), p.skills, RosterProps(env), hash)
  }

  /** The score overrides a reviewer gave: zero means none. */
  function OverrideProps(env: Envelope): Properties
    requires env.payload.HumanFeedback?
  {
    var p := env.payload;
    var none: Properties := map[];
    var some := if p.impact != 0.0 then none["impact" := Float(p.impact)] else none;
    var more := if p.relevance != 0.0 then some["relevance" := Float(p.relevance)] else some;
    if p.valueContribution != 0.0 then more["valueContribution" := Float(p.valueContribution)] else more
  }

  predicate ScoresCycle(e: Edge, cycle: string) {
    e.lbl == "LINKS_TO" && e.to == cycle
  }

  /** Overriding the scores on those of the listed edges that lead a signal to the cycle. */
  function OverrideUps(edges: seq<Edge>, cycle: string, props: Properties): seq<Upsert> {
    if edges == [] then []
    else
      var e := edges[|edges| - 1];
      OverrideUps(edges[..|edges| - 1], cycle, props)
      + if ScoresCycle(e, cycle) && props != map[] then [EdgeUp(e.id, e.lbl, e.from, e.to, props)] else []
  }

  function FeedbackProps(env: Envelope): Properties
    requires env.payload.HumanFeedback?
  {
    var p := env.payload;
    map["cycleId" := Str(p.cycleID), "feedbackType" := Str(p.feedbackType), "comment" := Str(p.comment),
        "impact" := Float(p.impact), "relevance" := Float(p.relevance), "valueContribution" := Float(p.valueContribution),
        "reviewerID" := Str(p.reviewerID), "senderID" := Str(env.senderID)]
  }

  function FeedbackFront(env: Envelope, src: Source, hash: EdgeHash): seq<Upsert>
    requires env.payload.HumanFeedback?
  {
    var feedback, cycle := HumanFeedbackNodeID(src), env.payload.cycleID;
    [NodeUp(feedback, "HumanFeedback", FeedbackProps(env)), Link(hash, "HAS_FEEDBACK", cycle, feedback, map[]),
     NodeUp(cycle, "ReflectionCycle", map["humanFeedbackStatus" := Str("RECEIVED")])]
  }

  /** Feedback reads the edges at its cycle after its own upserts. */
  ghost function FeedbackUps(env: Envelope, src: Source, m: Memory, hash: EdgeHash): seq<Upsert>
    requires env.payload.HumanFeedback?
  {
    var p := env.payload;
    if p.cycleID == "" then
      []
    else
      var front := FeedbackFront(env, src, hash);
      var linked := Run(m, front);
      front + OverrideUps(linked.EdgesAt(linked.EdgeIdsAt(p.cycleID)), p.cycleID, OverrideProps(env))
  }

  function OrchestratorUps(env: Envelope, hash: EdgeHash): seq<Upsert>
    requires env.payload.Orchestrator?
  {
    var p := env.payload;
    var from, to, task := AgentNodeID(p.fromAgent), AgentNodeID(p.toAgent), map["taskID" := Str(p.taskID)];
    [AgentUp(p.fromAgent), AgentUp(p.toAgent)]
    + if p.action == "delegate" then [Link(hash, "DELEGATES_TO", from, to, task)]
      else if p.action == "report" then [Link(hash, "REPORTS_TO", from, to, task)]
      else []
  }

  /** Everything processing a record does to the graph, in order. A record that fails
      does what precedes its failure. */
  ghost function Ups(rec: Record, m: Memory, hash: EdgeHash): seq<Upsert> {
    if rec.value.None? then
      []
    else
      var env, src := rec.value.value, rec.source;
      match env.payload
      case Announce(_, _, _, _) => AnnounceUps(env)
      case Request(_, _, _) => MessageUps(env, src, RequestProps(env), hash)
      case Response(taskID, text, inReplyTo) => MessageUps(env, src, ResponseProps(env.senderID, taskID, text, inReplyTo), hash)
      case TaskStatus(taskID, status) => ConversationNote(env, map["taskStatus" := Str(status), "taskID" := Str(taskID)])
      case SkillRequest(_, _) => SkillRequestUps(env, src, hash)
      case SkillResponse(_, result, inReplyTo) => MessageUps(env, src, ResponseProps(env.senderID, "", result, inReplyTo), hash)
      case MemoryEntry(_, _, _) => MemoryUps(env, src, hash)
      case Trace(spanID, operation, durationMs) =>
        ConversationNote(env, map["traceSpanID" := Str(spanID), "traceOperation" := Str(operation), "traceDurationMs" := Float(durationMs)])
      case Audit(_, _, _) => AuditUps(env, src, hash)
      case Roster(_, _, _, _) => RosterUps(env, hash)
      case Orchestrator(_, _, _, _) => OrchestratorUps(env, hash)
      case HumanFeedback(_, _, _, _, _, _, _) => FeedbackUps(env, src, m, hash)
      case UnknownType => []
      case BadPayload => []
  }

  // ---------- groups of upserts ----------

  lemma RunTwo(m: Memory, a: Upsert, b: Upsert)
    ensures Run(m, [a, b]) == Apply(Apply(m, a), b)
    ensures Run(m, [a]) == Apply(m, a)
  {
    RunThen(m, [a], b);
    RunThen(m, [], a);
    assert [] + [a] == [a] && [a] + [b] == [a, b];
  }

  lemma RunThree(m: Memory, a: Upsert, b: Upsert, c: Upsert)
    ensures Run(m, [a, b, c]) == Apply(Apply(Apply(m, a), b), c)
  {
    RunTwo(m, a, b);
    RunThen(m, [a, b], c);
    assert [a, b] + [c] == [a, b, c];
  }

  lemma RunFive(m: Memory, a: Upsert, b: Upsert, c: Upsert, d: Upsert, e: Upsert)
    ensures Run(m, [a, b, c, d, e]) == Apply(Apply(Apply(Apply(Apply(m, a), b), c), d), e)
  {
    hide Apply;
    RunThree(m, a, b, c);
    RunTwo(Run(m, [a, b, c]), d, e);
    RunConcat(m, [a, b, c], [d, e]);
    assert [a, b, c] + [d, e] == [a, b, c, d, e];
  }

  lemma RunMore(m: Memory, us: seq<Upsert>, more: seq<Upsert>, now: Memory)
    requires now == Run(Run(m, us), more)
    ensures now == Run(m, us + more)
  {
    hide Run;
    RunConcat(m, us, more);
  }

  // ---------- the handlers ----------

  predicate LabelOk(lbl: string) {
    Ingested(lbl) || lbl == "ReflectionCycle" || lbl == "_checkpoint" || MessageEdge(lbl) || AgentEdge(lbl)
  }

  predicate MessageEdge(lbl: string) {
    lbl in {"AUTHORED", "BELONGS_TO", "USES_SKILL", "SHARED_BY", "REFERENCES"}
  }

  predicate AgentEdge(lbl: string) {
    lbl in {"AUDITED_BY", "HAS_SKILL", "HAS_FEEDBACK", "DELEGATES_TO", "REPORTS_TO"}
  }

  lemma EdgeLabelsColonFree(lbl: string)
    ensures MessageEdge(lbl) ==> ':' !in lbl
    ensures AgentEdge(lbl) ==> ':' !in lbl
  {
  }

  lemma LabelsColonFree(lbl: string)
    requires LabelOk(lbl)
    ensures Count(lbl, ':') == 0
  {
    hide Ingested, MessageEdge, AgentEdge, Count;
    CountZero(lbl, ':');
    EdgeLabelsColonFree(lbl);
    if Ingested(lbl) { IngestedColonFree(lbl); }
  }

  /** One upsert on the graph object. */
  method Put(g: GraphEngine.Graph, u: Upsert)
    requires g.storage.Valid() && UpsertOk(u)
    modifies g.storage
    ensures g.storage.Valid() && g.storage.mem == Apply(old(g.storage.mem), u)
  {
    match u {
      case NodeUp(id, lbl, props) => var _ := g.UpsertNode(id, lbl, props);
      case EdgeUp(id, lbl, from, to, props) => var _ := g.UpsertEdge(id, lbl, from, to, props);
    }
  }

  method PutNode(g: GraphEngine.Graph, id: string, lbl: string, props: Properties)
    requires g.storage.Valid() && LabelOk(lbl)
    modifies g.storage
    ensures g.storage.Valid() && g.storage.mem == Apply(old(g.storage.mem), NodeUp(id, lbl, props))
  {
    hide Apply;
    LabelsColonFree(lbl);
    Put(g, NodeUp(id, lbl, props));
  }

  /** Upserts the edge of this label between two nodes, under its deterministic ID. */
  method PutLink(g: GraphEngine.Graph, hash: EdgeHash, lbl: string, from: string, to: string, props: Properties)
    requires g.storage.Valid() && LabelOk(lbl) && HashOk(hash)
    modifies g.storage
    ensures g.storage.Valid() && g.storage.mem == Apply(old(g.storage.mem), Link(hash, lbl, from, to, props))
  {
    hide Apply;
    LabelsColonFree(lbl);
    EdgeIdShape(hash, lbl, from, to);
    Put(g, Link(hash, lbl, from, to, props));
  }

  method HandleAnnounce(g: GraphEngine.Graph, env: Envelope)
    requires g.storage.Valid() && env.payload.Announce?
    modifies g.storage
    ensures g.storage.Valid() && g.storage.mem == Run(old(g.storage.mem), AnnounceUps(env))
  {
    hide Run, Apply;
    ghost var m := g.storage.mem;
    var p := env.payload;
    var agentID := p.agentID;
    if agentID == "" {
      agentID := env.senderID;
    }
    var props := map["agentName" := Str(p.agentName), "action" := Str(p.action), "groupName" := Str(p.groupName), "senderID" := Str(env.senderID)];
    PutNode(g, AgentNodeID(agentID), "Agent", props);
    RunTwo(m, NodeUp(AgentNodeID(agentID), "Agent", props), AgentUp(""));
  }

  /** Requests, responses and skill responses: they differ in the message's properties. */
  method HandleMessage(g: GraphEngine.Graph, env: Envelope, src: Source, props: Properties, hash: EdgeHash)
    requires g.storage.Valid() && HashOk(hash)
    modifies g.storage
    ensures g.storage.Valid() && g.storage.mem == Run(old(g.storage.mem), MessageUps(env, src, props, hash))
  {
    hide Run, Apply;
    ghost var m := g.storage.mem;
    var sender, conv, msg := AgentNodeID(env.senderID), ConversationNodeID(env.correlationID), MessageNodeID(src);
    PutNode(g, sender, "Agent", map["senderID" := Str(env.senderID)]);
    PutNode(g, conv, "Conversation", map["correlationID" := Str(env.correlationID)]);
    PutNode(g, msg, "Message", props);
    PutLink(g, hash, "AUTHORED", sender, msg, map[]);
    PutLink(g, hash, "BELONGS_TO", msg, conv, map[]);
    RunFive(m, AgentUp(env.senderID), ConversationUp(env), NodeUp(msg, "Message", props),
            Link(hash, "AUTHORED", sender, msg, map[]), Link(hash, "BELONGS_TO", msg, conv, map[]));
  }

  method HandleConversation(g: GraphEngine.Graph, env: Envelope, props: Properties)
    requires g.storage.Valid()
    modifies g.storage
    ensures g.storage.Valid() && g.storage.mem == Run(old(g.storage.mem), ConversationNote(env, props))
  {
    hide Run, Apply;
    RunTwo(g.storage.mem, NodeUp(ConversationNodeID(env.correlationID), "Conversation", props), AgentUp(""));
    PutNode(g, ConversationNodeID(env.correlationID), "Conversation", props);
  }

  method HandleSkillRequest(g: GraphEngine.Graph, env: Envelope, src: Source, hash: EdgeHash)
    requires g.storage.Valid() && HashOk(hash) && env.payload.SkillRequest?
    modifies g.storage
    ensures g.storage.Valid() && g.storage.mem == Run(old(g.storage.mem), SkillRequestUps(env, src, hash))
  {
    hide Run, Apply;
    ghost var m := g.storage.mem;
    var p := env.payload;
    var sender, conv, msg, skill :=
      AgentNodeID(env.senderID), ConversationNodeID(env.correlationID), MessageNodeID(src), SkillNodeID(p.skillName);
    var props := map["skillName" := Str(p.skillName), "parameters" := Str(p.parameters), "senderID" := Str(env.senderID)];
    PutNode(g, sender, "Agent", map["senderID" := Str(env.senderID)]);
    PutNode(g, conv, "Conversation", map["correlationID" := Str(env.correlationID)]);
    PutNode(g, msg, "Message", props);
    RunThree(m, AgentUp(env.senderID), ConversationUp(env), NodeUp(msg, "Message", props));
    ghost var a := [AgentUp(env.senderID), ConversationUp(env), NodeUp(msg, "Message", props)];
    ghost var b := [SkillUp(p.skillName), Link(hash, "AUTHORED", sender, msg, map[])];
    ghost var c := [Link(hash, "BELONGS_TO", msg, conv, map[]), Link(hash, "USES_SKILL", msg, skill, map[])];
    RunTwo(Run(m, a), b[0], b[1]);
    RunTwo(Run(Run(m, a), b), c[0], c[1]);
    RunConcat(m, a, b);
    RunConcat(m, a + b, c);
    PutNode(g, skill, "Skill", map["skillName" := Str(p.skillName)]);
    PutLink(g, hash, "AUTHORED", sender, msg, map[]);
    PutLink(g, hash, "BELONGS_TO", msg, conv, map[]);
    PutLink(g, hash, "USES_SKILL", msg, skill, map[]);
  }

  lemma ReferenceStep(memory: string, refs: seq<string>, i: nat, hash: EdgeHash)
    requires i < |refs|
    ensures ReferenceUps(memory, refs[..i + 1], hash)
         == ReferenceUps(memory, refs[..i], hash) + [AgentUp(refs[i]), Link(hash, "REFERENCES", memory, AgentNodeID(refs[i]), map[])]
  {
    assert refs[..i + 1][..i] == refs[..i];
  }

  method HandleMemory(g: GraphEngine.Graph, env: Envelope, src: Source, hash: EdgeHash)
    requires g.storage.Valid() && HashOk(hash) && env.payload.MemoryEntry?
    modifies g.storage
    ensures g.storage.Valid() && g.storage.mem == Run(old(g.storage.mem), MemoryUps(env, src, hash))
  {
    hide Run, Apply, ReferenceUps;
    ghost var m := g.storage.mem;
    var p, memory, sender := env.payload, SharedMemoryNodeID(src), AgentNodeID(env.senderID);
    var props := map["key" := Str(p.key), "value" := Str(p.value)];
    PutNode(g, memory, "SharedMemory", props);
    PutNode(g, sender, "Agent", map["senderID" := Str(env.senderID)]);
    PutLink(g, hash, "SHARED_BY", memory, sender, map[]);
    ghost var front := [NodeUp(memory, "SharedMemory", props), AgentUp(env.senderID), Link(hash, "SHARED_BY", memory, sender, map[])];
    RunThree(m, front[0], front[1], front[2]);
    PutReferences(g, memory, p.references, hash);
    RunMore(m, front, ReferenceUps(memory, p.references, hash), g.storage.mem);
  }

  method PutReferences(g: GraphEngine.Graph, memory: string, refs: seq<string>, hash: EdgeHash)
    requires g.storage.Valid() && HashOk(hash)
    modifies g.storage
    ensures g.storage.Valid() && g.storage.mem == Run(old(g.storage.mem), ReferenceUps(memory, refs, hash))
  {
    hide Apply;
    ghost var m := g.storage.mem;
    for i := 0 to |refs|
      invariant g.storage.Valid() && g.storage.mem == Run(m, ReferenceUps(memory, refs[..i], hash))
    {
      var ref := AgentNodeID(refs[i]);
      ReferenceStep(memory, refs, i, hash);
      RunTwo(g.storage.mem, AgentUp(refs[i]), Link(hash, "REFERENCES", memory, ref, map[]));
      RunConcat(m, ReferenceUps(memory, refs[..i], hash), [AgentUp(refs[i]), Link(hash, "REFERENCES", memory, ref, map[])]);
      PutNode(g, ref, "Agent", map["senderID" := Str(refs[i])]);
      PutLink(g, hash, "REFERENCES", memory, ref, map[]);
    }
    assert refs[..|refs|] == refs;
  }

  method HandleAudit(g: GraphEngine.Graph, env: Envelope, src: Source, hash: EdgeHash)
    requires g.storage.Valid() && HashOk(hash) && env.payload.Audit?
    modifies g.storage
    ensures g.storage.Valid() && g.storage.mem == Run(old(g.storage.mem), AuditUps(env, src, hash))
  {
    hide Run, Apply;
    ghost var m := g.storage.mem;
    var p, audit, sender := env.payload, AuditEventNodeID(src), AgentNodeID(env.senderID);
    var props := map["action" := Str(p.action), "resource" := Str(p.resource), "outcome" := Str(p.outcome), "senderID" := Str(env.senderID)];
    PutNode(g, audit, "AuditEvent", props);
    PutNode(g, sender, "Agent", map["senderID" := Str(env.senderID)]);
    PutLink(g, hash, "AUDITED_BY", audit, sender, map[]);
    RunThree(m, NodeUp(audit, "AuditEvent", props), AgentUp(env.senderID), Link(hash, "AUDITED_BY", audit, sender, map[]));
  }

  lemma SkillStep(agent: string, skills: seq<string>, i: nat, props: Properties, hash: EdgeHash)
    requires i < |skills|
    ensures SkillUps(agent, skills[..i + 1], props, hash)
         == SkillUps(agent, skills[..i], props, hash) + [SkillUp(skills[i]), Link(hash, "HAS_SKILL", agent, SkillNodeID(skills[i]), props)]
  {
    assert skills[..i + 1][..i] == skills[..i];
  }

  method HandleRoster(g: GraphEngine.Graph, env: Envelope, hash: EdgeHash)
    requires g.storage.Valid() && HashOk(hash) && env.payload.Roster?
    modifies g.storage
    ensures g.storage.Valid() && g.storage.mem == Run(old(g.storage.mem), RosterUps(env, hash))
  {
    hide Run, Apply, SkillUps;
    ghost var m := g.storage.mem;
    var p := env.payload;
    var agentID := p.agentID;
    if agentID == "" {
      agentID := env.senderID;
    }
    PutNode(g, AgentNodeID(agentID), "Agent", map["senderID" := Str(agentID)]);
    RunTwo(m, AgentUp(agentID), AgentUp(""));
    var props: Properties := map["declaredAt" := Str(env.timestamp)];
    if p.action == "remove" {
      props := map["removedAt" := Str(env.timestamp), "declaredAt" := Str(env.timestamp)];
    }
    if p.version > 0 {
      props := props["rosterVersion" := Int(p.version)];
    }
    PutSkills(g, AgentNodeID(agentID), p.skills, props, hash);
    RunMore(m, [AgentUp(agentID)], SkillUps(AgentNodeID(agentID), p.skills, props, hash), g.storage.mem);
  }

  method PutSkills(g: GraphEngine.Graph, agent: string, skills: seq<string>, props: Properties, hash: EdgeHash)
    requires g.storage.Valid() && HashOk(hash)
    modifies g.storage
    ensures g.storage.Valid() && g.storage.mem == Run(old(g.storage.mem), SkillUps(agent, skills, props, hash))
  {
    hide Apply;
    ghost var m := g.storage.mem;
    for i := 0 to |skills|
      invariant g.storage.Valid() && g.storage.mem == Run(m, SkillUps(agent, skills[..i], props, hash))
    {
      var skill := SkillNodeID(skills[i]);
      SkillStep(agent, skills, i, props, hash);
      RunTwo(g.storage.mem, SkillUp(skills[i]), Link(hash, "HAS_SKILL", agent, skill, props));
      RunConcat(m, SkillUps(agent, skills[..i], props, hash), [SkillUp(skills[i]), Link(hash, "HAS_SKILL", agent, skill, props)]);
      PutNode(g, skill, "Skill", map["skillName" := Str(skills[i])]);
      PutLink(g, hash, "HAS_SKILL", agent, skill, props);
    }
    assert skills[..|skills|] == skills;
  }

  lemma OverrideStep(edges: seq<Edge>, i: nat, cycle: string, props: Properties)
    requires i < |edges|
    ensures OverrideUps(edges[..i + 1], cycle, props)
         == if ScoresCycle(edges[i], cycle) && props != map[]
            then OverrideUps(edges[..i], cycle, props) + [EdgeUp(edges[i].id, edges[i].lbl, edges[i].from, edges[i].to, props)]
            else OverrideUps(edges[..i], cycle, props)
  {
    assert edges[..i + 1][..i] == edges[..i];
    assert OverrideUps(edges[..i], cycle, props) + [] == OverrideUps(edges[..i], cycle, props);
  }

  method ApplyScoreOverrides(g: GraphEngine.Graph, cycle: string, props: Properties)
    requires g.storage.Valid()
    modifies g.storage
    ensures g.storage.Valid()
    ensures var m := old(g.storage.mem);
            g.storage.mem == Run(m, OverrideUps(m.EdgesAt(m.EdgeIdsAt(cycle)), cycle, props))
  {
    var edges := g.Neighbors(cycle);
    assert forall e | e in edges :: EdgeOk(e) by { Lookups.EdgesAtOk(g.storage.kv, g.storage.mem, cycle); }
    OverrideEach(g, edges, cycle, props);
  }

  method OverrideEach(g: GraphEngine.Graph, edges: seq<Edge>, cycle: string, props: Properties)
    requires g.storage.Valid() && forall e | e in edges :: EdgeOk(e)
    modifies g.storage
    ensures g.storage.Valid() && g.storage.mem == Run(old(g.storage.mem), OverrideUps(edges, cycle, props))
  {
    hide Apply;
    ghost var m := g.storage.mem;
    for i := 0 to |edges|
      invariant g.storage.Valid() && g.storage.mem == Run(m, OverrideUps(edges[..i], cycle, props))
    {
      var e := edges[i];
      OverrideStep(edges, i, cycle, props);
      if !ScoresCycle(e, cycle) { continue; }
      if props != map[] {
        assert e in edges;
        RunThen(m, OverrideUps(edges[..i], cycle, props), EdgeUp(e.id, e.lbl, e.from, e.to, props));
        Put(g, EdgeUp(e.id, e.lbl, e.from, e.to, props));
      }
    }
    assert edges[..|edges|] == edges;
  }

  method HandleHumanFeedback(g: GraphEngine.Graph, env: Envelope, src: Source, hash: EdgeHash) returns (ok: bool)
    requires g.storage.Valid() && HashOk(hash) && env.payload.HumanFeedback?
    modifies g.storage
    ensures g.storage.Valid() && g.storage.mem == Run(old(g.storage.mem), FeedbackUps(env, src, old(g.storage.mem), hash))
    ensures ok <==> env.payload.cycleID != ""
  {
    hide Apply, OverrideUps;
    ghost var m := g.storage.mem;
    var p := env.payload;
    if p.cycleID == "" {
      return false;
    }
    PutFeedback(g, env, src, hash);
    var props: Properties := map[];
    if p.impact != 0.0 {
      props := props["impact" := Float(p.impact)];
    }
    if p.relevance != 0.0 {
      props := props["relevance" := Float(p.relevance)];
    }
    if p.valueContribution != 0.0 {
      props := props["valueContribution" := Float(p.valueContribution)];
    }
    ghost var linked := g.storage.mem;
    ApplyScoreOverrides(g, p.cycleID, props);
    RunMore(m, FeedbackFront(env, src, hash), OverrideUps(linked.EdgesAt(linked.EdgeIdsAt(p.cycleID)), p.cycleID, props), g.storage.mem);
    ok := true;
  }

  method PutFeedback(g: GraphEngine.Graph, env: Envelope, src: Source, hash: EdgeHash)
    requires g.storage.Valid() && HashOk(hash) && env.payload.HumanFeedback?
    modifies g.storage
    ensures g.storage.Valid() && g.storage.mem == Run(old(g.storage.mem), FeedbackFront(env, src, hash))
  {
    hide Run, Apply, FeedbackProps;
    ghost var m := g.storage.mem;
    var feedback, cycle := HumanFeedbackNodeID(src), env.payload.cycleID;
    PutNode(g, feedback, "HumanFeedback", FeedbackProps(env));
    PutLink(g, hash, "HAS_FEEDBACK", cycle, feedback, map[]);
    PutNode(g, cycle, "ReflectionCycle", map["humanFeedbackStatus" := Str("RECEIVED")]);
    RunThree(m, NodeUp(feedback, "HumanFeedback", FeedbackProps(env)), Link(hash, "HAS_FEEDBACK", cycle, feedback, map[]),
             NodeUp(cycle, "ReflectionCycle", map["humanFeedbackStatus" := Str("RECEIVED")]));
  }

  method HandleOrchestrator(g: GraphEngine.Graph, env: Envelope, hash: EdgeHash) returns (ok: bool)
    requires g.storage.Valid() && HashOk(hash) && env.payload.Orchestrator?
    modifies g.storage
    ensures g.storage.Valid() && g.storage.mem == Run(old(g.storage.mem), OrchestratorUps(env, hash))
    ensures ok <==> env.payload.action == "delegate" || env.payload.action == "report"
  {
    hide Run, Apply;
    ghost var m := g.storage.mem;
    var p := env.payload;
    var from, to := AgentNodeID(p.fromAgent), AgentNodeID(p.toAgent);
    PutNode(g, from, "Agent", map["senderID" := Str(p.fromAgent)]);
    PutNode(g, to, "Agent", map["senderID" := Str(p.toAgent)]);
    RunTwo(m, AgentUp(p.fromAgent), AgentUp(p.toAgent));
    ghost var front := [AgentUp(p.fromAgent), AgentUp(p.toAgent)];
    match p.action {
      case "delegate" =>
        PutLink(g, hash, "DELEGATES_TO", from, to, map["taskID" := Str(p.taskID)]);
        RunThen(m, front, Link(hash, "DELEGATES_TO", from, to, map["taskID" := Str(p.taskID)]));
        ok := true;
      case "report" =>
        PutLink(g, hash, "REPORTS_TO", from, to, map["taskID" := Str(p.taskID)]);
        RunThen(m, front, Link(hash, "REPORTS_TO", from, to, map["taskID" := Str(p.taskID)]));
        ok := true;
      case _ =>
        assert front + [] == front;
        ok := false;
    }
  }

  /** The envelope is one, its payload decodes, and its handler accepts it. */
  predicate Accepted(rec: Record) {
    && rec.value.Some? && !rec.value.value.payload.BadPayload?
    && (rec.value.value.payload.HumanFeedback? ==> rec.value.value.payload.cycleID != "")
    && (rec.value.value.payload.Orchestrator? ==>
          rec.value.value.payload.action == "delegate" || rec.value.value.payload.action == "report")
  }

  /** Parses and routes one record. */
  method ProcessRecord(g: GraphEngine.Graph, rec: Record, hash: EdgeHash) returns (ok: bool)
    requires g.storage.Valid() && HashOk(hash)
    modifies g.storage
    ensures g.storage.Valid() && g.storage.mem == Run(old(g.storage.mem), Ups(rec, old(g.storage.mem), hash))
    ensures ok <==> Accepted(rec)
  {
    hide AnnounceUps, MessageUps, ConversationNote, SkillRequestUps, MemoryUps, AuditUps, RosterUps, OrchestratorUps, FeedbackUps, Apply;
    if rec.value.None? { return false; }
    var env, src := rec.value.value, rec.source;
    ok := true;
    match env.payload {
      case Announce(_, _, _, _) => HandleAnnounce(g, env);
      case Request(_, _, _) => HandleMessage(g, env, src, RequestProps(env), hash);
      case Response(taskID, text, inReplyTo) =>
        HandleMessage(g, env, src, ResponseProps(env.senderID, taskID, text, inReplyTo), hash);
      case TaskStatus(taskID, status) => HandleConversation(g, env, map["taskStatus" := Str(status), "taskID" := Str(taskID)]);
      case SkillRequest(_, _) => HandleSkillRequest(g, env, src, hash);
      case SkillResponse(_, result, inReplyTo) =>
        HandleMessage(g, env, src, ResponseProps(env.senderID, "", result, inReplyTo), hash);
      case MemoryEntry(_, _, _) => HandleMemory(g, env, src, hash);
      case Trace(spanID, operation, durationMs) =>
        HandleConversation(g, env, map["traceSpanID" := Str(spanID), "traceOperation" := Str(operation), "traceDurationMs" := Float(durationMs)]);
      case Audit(_, _, _) => HandleAudit(g, env, src, hash);
      case Roster(_, _, _, _) => HandleRoster(g, env, hash);
      case Orchestrator(_, _, _, _) => ok := HandleOrchestrator(g, env, hash);
      case HumanFeedback(_, _, _, _, _, _, _) => ok := HandleHumanFeedback(g, env, src, hash);
      case UnknownType =>
      case BadPayload => ok := false;
    }
  }
}
