/** What processing a record can and cannot touch: labels follow from IDs, score links are
    never created, checkpoints are left alone; so a record's upserts are the same whenever
    it is processed. */
module RecordEffects {
  import opened Results
  import opened Text
  import opened PropertyGraph
  import opened NodeIds
  import opened Envelopes
  import opened Upserts
  import opened Handlers
  import L = Lookups

  // ---------- one upsert ----------

  predicate IsCycleUp(u: Upsert, rec: Record) {
    && u.NodeUp? && rec.value.Some? && rec.value.value.payload.HumanFeedback?
    && u.id == rec.value.value.payload.cycleID && u.id != "" && u.lbl == "ReflectionCycle"
    && u.props == map["humanFeedbackStatus" := Str("RECEIVED")]
  }

  /** An upsert a record may contain: a node whose ID says its label, the feedback's cycle,
      or an edge that is no score link unless the link is there already. */
  predicate Expected(u: Upsert, rec: Record, m: Memory) {
    if u.NodeUp? then (u.id != "" && u.id[0] == 'n' && LabelOf(u.id) == u.lbl) || IsCycleUp(u, rec)
    else u.lbl != "LINKS_TO" || (u.id in m.edges && m.edges[u.id].lbl == "LINKS_TO")
  }

  predicate AllExpected(us: seq<Upsert>, rec: Record, m: Memory) {
    forall u | u in us :: Expected(u, rec, m)
  }

  lemma NodeExpected(lbl: string, key: string, props: Properties, rec: Record, m: Memory)
    requires Ingested(lbl)
    ensures Expected(NodeUp(NodeId(lbl, key), lbl, props), rec, m)
  {
    hide LabelOf;
    NodeIdLabel(lbl, key);
  }

  lemma AgentExpected(agentID: string, rec: Record, m: Memory)
    ensures Expected(AgentUp(agentID), rec, m)
  {
    hide Expected, NodeId;
    NodeExpected("Agent", agentID, map["senderID" := Str(agentID)], rec, m);
  }

  lemma LinkExpected(hash: EdgeHash, lbl: string, from: string, to: string, props: Properties, rec: Record, m: Memory)
    requires lbl != "LINKS_TO"
    ensures Expected(Link(hash, lbl, from, to, props), rec, m)
  {
  }

  lemma MessageExpected(env: Envelope, props: Properties, hash: EdgeHash, rec: Record, m: Memory)
    ensures AllExpected(MessageUps(env, rec.source, props, hash), rec, m)
  {
    hide Expected, NodeId, DeterministicEdgeID;
    var sender, conv, msg := AgentNodeID(env.senderID), ConversationNodeID(env.correlationID), MessageNodeID(rec.source);
    AgentExpected(env.senderID, rec, m);
    NodeExpected("Conversation", env.correlationID, map["correlationID" := Str(env.correlationID)], rec, m);
    NodeExpected("Message", SourceText(rec.source), props, rec, m);
    LinkExpected(hash, "AUTHORED", sender, msg, map[], rec, m);
    LinkExpected(hash, "BELONGS_TO", msg, conv, map[], rec, m);
  }

  lemma SkillRequestExpected(env: Envelope, hash: EdgeHash, rec: Record, m: Memory)
    requires env.payload.SkillRequest?
    ensures AllExpected(SkillRequestUps(env, rec.source, hash), rec, m)
  {
    hide Expected, NodeId, DeterministicEdgeID;
    var p := env.payload;
    var sender, conv, msg, skill :=
      AgentNodeID(env.senderID), ConversationNodeID(env.correlationID), MessageNodeID(rec.source), SkillNodeID(p.skillName);
    AgentExpected(env.senderID, rec, m);
    NodeExpected("Conversation", env.correlationID, map["correlationID" := Str(env.correlationID)], rec, m);
    NodeExpected("Message", SourceText(rec.source),
                 map["skillName" := Str(p.skillName), "parameters" := Str(p.parameters), "senderID" := Str(env.senderID)], rec, m);
    NodeExpected("Skill", p.skillName, map["skillName" := Str(p.skillName)], rec, m);
    LinkExpected(hash, "AUTHORED", sender, msg, map[], rec, m);
    LinkExpected(hash, "BELONGS_TO", msg, conv, map[], rec, m);
    LinkExpected(hash, "USES_SKILL", msg, skill, map[], rec, m);
  }

  lemma {:induction false} ReferencesExpected(memory: string, refs: seq<string>, hash: EdgeHash, rec: Record, m: Memory)
    ensures AllExpected(ReferenceUps(memory, refs, hash), rec, m)
    decreases |refs|
  {
    hide Expected, DeterministicEdgeID;
    if refs != [] {
      ReferencesExpected(memory, refs[..|refs| - 1], hash, rec, m);
      AgentExpected(refs[|refs| - 1], rec, m);
      LinkExpected(hash, "REFERENCES", memory, AgentNodeID(refs[|refs| - 1]), map[], rec, m);
    }
  }

  lemma MemoryExpected(env: Envelope, hash: EdgeHash, rec: Record, m: Memory)
    requires env.payload.MemoryEntry?
    ensures AllExpected(MemoryUps(env, rec.source, hash), rec, m)
  {
    hide Expected, NodeId, DeterministicEdgeID, ReferenceUps;
    var p, memory, sender := env.payload, SharedMemoryNodeID(rec.source), AgentNodeID(env.senderID);
    NodeExpected("SharedMemory", SourceText(rec.source), map["key" := Str(p.key), "value" := Str(p.value)], rec, m);
    AgentExpected(env.senderID, rec, m);
    LinkExpected(hash, "SHARED_BY", memory, sender, map[], rec, m);
    ReferencesExpected(memory, p.references, hash, rec, m);
  }

  lemma AuditExpected(env: Envelope, hash: EdgeHash, rec: Record, m: Memory)
    requires env.payload.Audit?
    ensures AllExpected(AuditUps(env, rec.source, hash), rec, m)
  {
    hide Expected, NodeId, DeterministicEdgeID;
    var p, audit, sender := env.payload, AuditEventNodeID(rec.source), AgentNodeID(env.senderID);
    NodeExpected("AuditEvent", SourceText(rec.source),
                 map["action" := Str(p.action), "resource" := Str(p.resource), "outcome" := Str(p.outcome), "senderID" := Str(env.senderID)],
                 rec, m);
    AgentExpected(env.senderID, rec, m);
    LinkExpected(hash, "AUDITED_BY", audit, sender, map[], rec, m);
  }

  lemma {:induction false} SkillsExpected(agent: string, skills: seq<string>, props: Properties, hash: EdgeHash, rec: Record, m: Memory)
    ensures AllExpected(SkillUps(agent, skills, props, hash), rec, m)
    decreases |skills|
  {
    hide Expected, NodeId, DeterministicEdgeID;
    if skills != [] {
      var skill := skills[|skills| - 1];
      SkillsExpected(agent, skills[..|skills| - 1], props, hash, rec, m);
      NodeExpected("Skill", skill, map["skillName" := Str(skill)], rec, m);
      LinkExpected(hash, "HAS_SKILL", agent, SkillNodeID(skill), props, rec, m);
    }
  }

  lemma RosterExpected(env: Envelope, hash: EdgeHash, rec: Record, m: Memory)
    requires env.payload.Roster?
    ensures AllExpected(RosterUps(env, hash), rec, m)
  {
    hide Expected, SkillUps, RosterProps;
    var p := env.payload;
    var agentID := if p.agentID == "" then env.senderID else p.agentID;
    AgentExpected(agentID, rec, m);
    SkillsExpected(AgentNodeID(agentID), p.skills, RosterProps(env), hash, rec, m);
  }

  lemma OrchestratorExpected(env: Envelope, hash: EdgeHash, rec: Record, m: Memory)
    requires env.payload.Orchestrator?
    ensures AllExpected(OrchestratorUps(env, hash), rec, m)
  {
    hide Expected, NodeId, DeterministicEdgeID;
    var p := env.payload;
    var from, to, task := AgentNodeID(p.fromAgent), AgentNodeID(p.toAgent), map["taskID" := Str(p.taskID)];
    AgentExpected(p.fromAgent, rec, m);
    AgentExpected(p.toAgent, rec, m);
    LinkExpected(hash, "DELEGATES_TO", from, to, task, rec, m);
    LinkExpected(hash, "REPORTS_TO", from, to, task, rec, m);
  }

  lemma FrontExpected(env: Envelope, hash: EdgeHash, rec: Record, m: Memory)
    requires rec.value == Some(env) && env.payload.HumanFeedback? && env.payload.cycleID != ""
    ensures AllExpected(FeedbackFront(env, rec.source, hash), rec, m)
  {
    hide NodeId, DeterministicEdgeID, LabelOf, FeedbackProps;
    NodeExpected("HumanFeedback", SourceText(rec.source), FeedbackProps(env), rec, m);
  }

  lemma {:induction false} OverridesExpected(edges: seq<Edge>, cycle: string, props: Properties, rec: Record, m: Memory)
    requires forall e | e in edges && ScoresCycle(e, cycle) :: e.id in m.edges && m.edges[e.id].lbl == "LINKS_TO"
    ensures AllExpected(OverrideUps(edges, cycle, props), rec, m)
    decreases |edges|
  {
    if edges != [] {
      assert edges[|edges| - 1] in edges;
      OverridesExpected(edges[..|edges| - 1], cycle, props, rec, m);
    }
  }

  // ---------- score links ----------

  predicate IsLink(m: Memory, eid: string) {
    eid in m.edges && m.edges[eid].lbl == "LINKS_TO"
  }

  /** The same score links, with the same endpoints. */
  ghost predicate LinksAgree(m: Memory, n: Memory) {
    forall eid ::
      && (IsLink(m, eid) <==> IsLink(n, eid))
      && (IsLink(m, eid) ==> m.edges[eid].from == n.edges[eid].from && m.edges[eid].to == n.edges[eid].to)
  }

  lemma ExpectedKeepsLinks(m: Memory, u: Upsert, rec: Record, n: Memory)
    requires Keyed(m) && LinksAgree(n, m) && Expected(u, rec, n)
    ensures Keyed(Apply(m, u)) && LinksAgree(n, Apply(m, u))
  {
    hide LabelOf, IsCycleUp;
    assert IsLink(n, u.id) <==> IsLink(m, u.id);
  }

  lemma {:induction false} GroupKeepsLinks(m: Memory, us: seq<Upsert>, rec: Record, n: Memory)
    requires Keyed(m) && LinksAgree(n, m) && AllExpected(us, rec, n)
    ensures Keyed(Run(m, us)) && LinksAgree(n, Run(m, us))
  {
    hide Apply, Expected, LinksAgree, Keyed;
    if us != [] {
      GroupKeepsLinks(m, us[..|us| - 1], rec, n);
      ExpectedKeepsLinks(Run(m, us[..|us| - 1]), us[|us| - 1], rec, n);
    }
  }

  function LinksTo(m: Memory, cycle: string): set<string> {
    set eid | eid in m.edges && ScoresCycle(m.edges[eid], cycle)
  }

  /** One override per listed link. */
  function LinkUps(m: Memory, ids: seq<string>, props: Properties): seq<Upsert>
    requires forall id | id in ids :: id in m.edges
  {
    if ids == [] || props == map[] then []
    else
      var e := m.edges[ids[|ids| - 1]];
      LinkUps(m, ids[..|ids| - 1], props) + [EdgeUp(e.id, e.lbl, e.from, e.to, props)]
  }

  lemma RestrictLast(ids: seq<string>, keep: set<string>)
    requires ids != []
    ensures Restrict(ids, keep) == Restrict(ids[..|ids| - 1], keep) + if ids[|ids| - 1] in keep then [ids[|ids| - 1]] else []
  {
    var front, last := ids[..|ids| - 1], ids[|ids| - 1];
    assert ids == front + [last];
    L.RestrictConcat(front, [last], keep);
    assert [last][1..] == [];
    assert Restrict([last], keep) == if last in keep then [last] + [] else [];
  }

  lemma {:induction false} OverridesFollowLinks(m: Memory, ids: seq<string>, cycle: string, props: Properties)
    requires forall id | id in ids :: id in m.edges
    ensures OverrideUps(m.EdgesAt(ids), cycle, props) == LinkUps(m, Restrict(ids, LinksTo(m, cycle)), props)
    decreases |ids|
  {
    hide Restrict, OverrideUps, LinkUps;
    if ids == [] {
      NoOverrides(m, cycle, props);
    } else {
      var front, last := ids[..|ids| - 1], ids[|ids| - 1];
      assert m.EdgesAt(ids)[..|ids| - 1] == m.EdgesAt(front);
      OverridesFollowLinks(m, front, cycle, props);
      RestrictLast(ids, LinksTo(m, cycle));
      var kept := Restrict(front, LinksTo(m, cycle));
      OverrideStep(m.EdgesAt(ids), |ids| - 1, cycle, props);
      assert m.EdgesAt(ids)[..|ids|] == m.EdgesAt(ids);
      LinkStep(m, kept, last, props);
      assert kept + [] == kept;
    }
  }

  lemma NoOverrides(m: Memory, cycle: string, props: Properties)
    ensures OverrideUps(m.EdgesAt([]), cycle, props) == LinkUps(m, Restrict([], LinksTo(m, cycle)), props)
  {
  }

  lemma LinkStep(m: Memory, ids: seq<string>, id: string, props: Properties)
    requires id in m.edges && forall x | x in ids :: x in m.edges
    ensures LinkUps(m, ids + [id], props) == if props == map[] then LinkUps(m, ids, props)
      else LinkUps(m, ids, props) + [EdgeUp(m.edges[id].id, m.edges[id].lbl, m.edges[id].from, m.edges[id].to, props)]
  {
    assert (ids + [id])[..|ids|] == ids;
  }

  lemma RestrictEnumerate(s: set<string>, keep: set<string>)
    ensures Restrict(Enumerate(s), keep) == Enumerate(s * keep)
  {
    AscendingUnique(Restrict(Enumerate(s), keep), Enumerate(s * keep));
  }

  /** Which links a cycle's neighbourhood lists, and in which order, depends on the links only. */
  lemma LinksListed(m: Memory, n: Memory, cycle: string)
    requires LinksAgree(m, n)
    ensures LinksTo(m, cycle) == LinksTo(n, cycle)
    ensures Restrict(m.EdgeIdsAt(cycle), LinksTo(m, cycle)) == Restrict(n.EdgeIdsAt(cycle), LinksTo(n, cycle))
  {
    hide Restrict, Enumerate, LinksAgree, LinksTo;
    SameLinks(m, n, cycle);
    var k := LinksTo(m, cycle);
    ListedSplit(m, cycle, k);
    ListedSplit(n, cycle, k);
    SameEnds(m, n, cycle);
  }

  lemma SameLinks(m: Memory, n: Memory, cycle: string)
    requires LinksAgree(m, n)
    ensures LinksTo(m, cycle) == LinksTo(n, cycle)
  {
    forall eid ensures eid in LinksTo(m, cycle) <==> eid in LinksTo(n, cycle) {
      assert IsLink(m, eid) <==> IsLink(n, eid);
    }
  }

  /** The links among the edges leaving a cycle, and among those entering it from elsewhere. */
  lemma SameEnds(m: Memory, n: Memory, cycle: string)
    requires LinksAgree(m, n)
    ensures m.Leaving(cycle) * LinksTo(m, cycle) == n.Leaving(cycle) * LinksTo(m, cycle)
    ensures (m.Entering(cycle) - m.Leaving(cycle)) * LinksTo(m, cycle) == (n.Entering(cycle) - n.Leaving(cycle)) * LinksTo(m, cycle)
  {
    forall eid | eid in LinksTo(m, cycle)
      ensures eid in m.Leaving(cycle) <==> eid in n.Leaving(cycle)
      ensures eid in m.Entering(cycle) <==> eid in n.Entering(cycle)
    {
      assert IsLink(m, eid) && IsLink(n, eid);
    }
  }

  lemma ListedSplit(m: Memory, cycle: string, k: set<string>)
    ensures Restrict(m.EdgeIdsAt(cycle), k)
         == Enumerate(m.Leaving(cycle) * k) + Enumerate((m.Entering(cycle) - m.Leaving(cycle)) * k)
  {
    L.RestrictConcat(Enumerate(m.Leaving(cycle)), Enumerate(m.Entering(cycle) - m.Leaving(cycle)), k);
    RestrictEnumerate(m.Leaving(cycle), k);
    RestrictEnumerate(m.Entering(cycle) - m.Leaving(cycle), k);
  }

  lemma {:induction false} SameLinkUps(m: Memory, n: Memory, ids: seq<string>, props: Properties)
    requires Keyed(m) && Keyed(n) && LinksAgree(m, n) && forall id | id in ids :: IsLink(m, id) && IsLink(n, id)
    ensures LinkUps(m, ids, props) == LinkUps(n, ids, props)
    decreases |ids|
  {
    if ids != [] {
      SameLinkUps(m, n, ids[..|ids| - 1], props);
      assert ids[|ids| - 1] in ids;
      assert IsLink(m, ids[|ids| - 1]) && IsLink(n, ids[|ids| - 1]);
    }
  }

  lemma LinksAreLinks(m: Memory, n: Memory, cycle: string)
    requires LinksAgree(m, n)
    ensures forall id | id in LinksTo(m, cycle) :: IsLink(m, id) && IsLink(n, id)
  {
    forall id | id in LinksTo(m, cycle) ensures IsLink(m, id) && IsLink(n, id) { assert IsLink(m, id); }
  }

  lemma SameOverrides(m: Memory, n: Memory, cycle: string, props: Properties)
    requires Keyed(m) && Keyed(n) && LinksAgree(m, n)
    ensures OverrideUps(m.EdgesAt(m.EdgeIdsAt(cycle)), cycle, props) == OverrideUps(n.EdgesAt(n.EdgeIdsAt(cycle)), cycle, props)
  {
    hide OverrideUps, Restrict, LinkUps, LinksAgree, LinksTo;
    LinksListed(m, n, cycle);
    OverridesFollowLinks(m, m.EdgeIdsAt(cycle), cycle, props);
    OverridesFollowLinks(n, n.EdgeIdsAt(cycle), cycle, props);
    LinksAreLinks(m, n, cycle);
    SameLinkUps(m, n, Restrict(m.EdgeIdsAt(cycle), LinksTo(m, cycle)), props);
  }

  // ---------- a record's upserts ----------

  lemma FeedbackExpected(env: Envelope, hash: EdgeHash, rec: Record, m: Memory)
    requires Keyed(m) && rec.value == Some(env) && env.payload.HumanFeedback?
    ensures AllExpected(FeedbackUps(env, rec.source, m, hash), rec, m)
  {
    hide FeedbackFront, OverrideUps, Expected, OverrideProps;
    var cycle := env.payload.cycleID;
    if cycle != "" {
      var front := FeedbackFront(env, rec.source, hash);
      FrontExpected(env, hash, rec, m);
      assert LinksAgree(m, m);
      GroupKeepsLinks(m, front, rec, m);
      var linked := Run(m, front);
      EdgesAtLinks(linked, m, cycle);
      OverridesExpected(linked.EdgesAt(linked.EdgeIdsAt(cycle)), cycle, OverrideProps(env), rec, m);
    }
  }

  lemma EdgesAtLinks(linked: Memory, m: Memory, cycle: string)
    requires Keyed(linked) && LinksAgree(m, linked)
    ensures forall e | e in linked.EdgesAt(linked.EdgeIdsAt(cycle)) && ScoresCycle(e, cycle) ::
              e.id in m.edges && m.edges[e.id].lbl == "LINKS_TO"
  {
    var ids := linked.EdgeIdsAt(cycle);
    assert forall x | x in ids :: x in linked.edges;
    var es := linked.EdgesAt(ids);
    forall e | e in es && ScoresCycle(e, cycle) ensures e.id in m.edges && m.edges[e.id].lbl == "LINKS_TO" {
      var i :| 0 <= i < |es| && es[i] == e;
      assert ids[i] in ids && IsLink(linked, ids[i]) && IsLink(m, ids[i]);
    }
  }

  /** Everything a record does is expected. */
  lemma UpsExpected(rec: Record, m: Memory, hash: EdgeHash)
    requires Keyed(m)
    ensures AllExpected(Ups(rec, m, hash), rec, m)
  {
    hide Expected, MessageUps, SkillRequestUps, MemoryUps, AuditUps, RosterUps, OrchestratorUps, FeedbackUps, NodeId, Keyed;
    if rec.value.Some? {
      var env := rec.value.value;
      match env.payload {
        case Announce(agentID, agentName, action, groupName) =>
          NodeExpected("Agent", if agentID == "" then env.senderID else agentID,
                       map["agentName" := Str(agentName), "action" := Str(action), "groupName" := Str(groupName), "senderID" := Str(env.senderID)], rec, m);
        case Request(_, _, _) => MessageExpected(env, RequestProps(env), hash, rec, m);
        case Response(taskID, text, inReplyTo) => MessageExpected(env, ResponseProps(env.senderID, taskID, text, inReplyTo), hash, rec, m);
        case TaskStatus(taskID, status) =>
          NodeExpected("Conversation", env.correlationID, map["taskStatus" := Str(status), "taskID" := Str(taskID)], rec, m);
        case SkillRequest(_, _) => SkillRequestExpected(env, hash, rec, m);
        case SkillResponse(_, result, inReplyTo) => MessageExpected(env, ResponseProps(env.senderID, "", result, inReplyTo), hash, rec, m);
        case MemoryEntry(_, _, _) => MemoryExpected(env, hash, rec, m);
        case Trace(spanID, operation, durationMs) =>
          NodeExpected("Conversation", env.correlationID,
                       map["traceSpanID" := Str(spanID), "traceOperation" := Str(operation), "traceDurationMs" := Float(durationMs)], rec, m);
        case Audit(_, _, _) => AuditExpected(env, hash, rec, m);
        case Roster(_, _, _, _) => RosterExpected(env, hash, rec, m);
        case Orchestrator(_, _, _, _) => OrchestratorExpected(env, hash, rec, m);
        case HumanFeedback(_, _, _, _, _, _, _) => FeedbackExpected(env, hash, rec, m);
        case UnknownType =>
        case BadPayload =>
      }
    }
  }

  lemma SameFeedback(env: Envelope, src: Source, m: Memory, n: Memory, hash: EdgeHash)
    requires env.payload.HumanFeedback? && Keyed(m) && Keyed(n) && LinksAgree(n, m)
    ensures FeedbackUps(env, src, m, hash) == FeedbackUps(env, src, n, hash)
  {
    hide FeedbackFront, OverrideUps, Expected, OverrideProps, LinksAgree;
    var cycle := env.payload.cycleID;
    if cycle != "" {
      var front, rec := FeedbackFront(env, src, hash), Record(src, Some(env));
      FrontExpected(env, hash, rec, n);
      LinksAgreeSelf(n);
      GroupKeepsLinks(m, front, rec, n);
      GroupKeepsLinks(n, front, rec, n);
      LinksAgreeThrough(n, Run(m, front), Run(n, front));
      SameOverrides(Run(m, front), Run(n, front), cycle, OverrideProps(env));
    }
  }

  lemma LinksAgreeSelf(n: Memory)
    ensures LinksAgree(n, n)
  {
  }

  lemma LinksAgreeThrough(n: Memory, a: Memory, b: Memory)
    requires LinksAgree(n, a) && LinksAgree(n, b)
    ensures LinksAgree(a, b)
  {
    forall eid
      ensures (IsLink(a, eid) <==> IsLink(b, eid)) && (IsLink(a, eid) ==> a.edges[eid].from == b.edges[eid].from && a.edges[eid].to == b.edges[eid].to)
    {
      assert IsLink(n, eid) <==> IsLink(a, eid);
      assert IsLink(n, eid) <==> IsLink(b, eid);
    }
  }

  /** As long as the score links are the same, a record's upserts are. */
  lemma SameUps(rec: Record, m: Memory, n: Memory, hash: EdgeHash)
    requires Keyed(m) && Keyed(n) && LinksAgree(n, m)
    ensures Ups(rec, m, hash) == Ups(rec, n, hash)
  {
    hide FeedbackUps, LinksAgree, Keyed, MessageUps, SkillRequestUps, MemoryUps, AuditUps, RosterUps, OrchestratorUps;
    if rec.value.Some? && rec.value.value.payload.HumanFeedback? {
      SameFeedback(rec.value.value, rec.source, m, n, hash);
    }
  }
}
