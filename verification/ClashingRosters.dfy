/** A run no order of its records explains: two skills whose edges share an ID. The roster
    of one agent is cut off after it created the edge, that of the other follows, and the
    first, processed again, overrides the other's declaration as well. */
module ClashingRosters {
  import opened Results
  import opened PropertyGraph
  import opened NodeIds
  import opened Envelopes
  import opened Upserts
  import opened Handlers
  import opened Checkpoints
  import opened IngestSystem
  import opened Progress
  import opened Sayings
  import opened Orders
  import opened TwoPartitions

  // ---------- the scene ----------

  const LEFT := TopicPartition("a", 0)
  const RIGHT := TopicPartition("b", 0)

  function Empty(): Memory {
    Memory(map[], map[])
  }

  function RosterOf(topic: string, timestamp: string, agentID: string, skillName: string): Record {
    Record(Source(topic, 0, 0), Some(Envelope("", "roster", timestamp, Roster(agentID, [skillName], 0, "declare"))))
  }

  function EarlyRoster(): Record {
    RosterOf("a", "1", "x:n:Skill:y", "z")
  }

  function LateRoster(): Record {
    RosterOf("b", "2", "x", "y:n:Skill:z")
  }

  function Scene(): System {
    System(Empty(), map[LEFT := [EarlyRoster()], RIGHT := [LateRoster()]], Idle, [])
  }

  lemma SceneStarts(cfg: Config)
    ensures Initial(Scene()) && Empty().Ok()
    ensures Live(Empty(), Scene().logs, LEFT, cfg) == [EarlyRoster()] && Live(Empty(), Scene().logs, RIGHT, cfg) == [LateRoster()]
    ensures OnlyTwo(Empty(), Scene().logs, LEFT, RIGHT, cfg)
  {
    hide CheckpointNodeID;
    assert CheckpointAt(Empty(), cfg.namespace, LEFT) == Some(-1) == CheckpointAt(Empty(), cfg.namespace, RIGHT);
    BelowIs([EarlyRoster()], -1, 0);
    BelowIs([LateRoster()], -1, 0);
    assert LEFT != RIGHT;
  }

  // ---------- what the rosters say ----------

  function DeclaredBy(timestamp: string): Properties {
    map["declaredAt" := Str(timestamp)]
  }

  /** Agent, skill, the edge between them, commit. */
  lemma RosterDoes(topic: string, timestamp: string, agentID: string, skillName: string, cfg: Config)
    requires agentID != ""
    ensures Full(RosterOf(topic, timestamp, agentID, skillName), Empty(), cfg) ==
              [AgentUp(agentID), SkillUp(skillName),
               Link(cfg.hash, "HAS_SKILL", AgentNodeID(agentID), SkillNodeID(skillName), DeclaredBy(timestamp)),
               CommitUp(cfg.namespace, Source(topic, 0, 0))]
  {
    hide NodeId, DeterministicEdgeID, CommitUp;
    var skills := [skillName];
    assert skills[..0] == [];
    assert SkillUps(AgentNodeID(agentID), skills[..0], DeclaredBy(timestamp), cfg.hash) == [];
  }

  function EdgeOf(agentID: string, skillName: string, cfg: Config): string {
    DeterministicEdgeID(cfg.hash, "HAS_SKILL", AgentNodeID(agentID), SkillNodeID(skillName))
  }

  /** A roster creates its edge before the commit, and says when the skill was declared. */
  lemma RosterSays(topic: string, timestamp: string, agentID: string, skillName: string, cfg: Config)
    requires agentID != ""
    ensures var rec, id := RosterOf(topic, timestamp, agentID, skillName), EdgeOf(agentID, skillName, cfg);
            && Word(rec, Empty(), cfg, EdgeMeta(id)) == Some(Meta("HAS_SKILL", AgentNodeID(agentID), SkillNodeID(skillName)))
            && Word(rec, Empty(), cfg, EdgeProp(id, "declaredAt")) == Some(Prop(Str(timestamp)))
            && CutBetween(Full(rec, Empty(), cfg), 3, EdgeMeta(id), EdgeProp(id, "declaredAt"))
  {
    hide Full, NodeId, DeterministicEdgeID, CheckpointNodeID;
    RosterDoes(topic, timestamp, agentID, skillName, cfg);
    OneEdge(AgentUp(agentID), SkillUp(skillName),
            Link(cfg.hash, "HAS_SKILL", AgentNodeID(agentID), SkillNodeID(skillName), DeclaredBy(timestamp)),
            CommitUp(cfg.namespace, Source(topic, 0, 0)), "declaredAt");
  }

  lemma OneEdge(a: Upsert, b: Upsert, e: Upsert, z: Upsert, key: string)
    requires a.NodeUp? && b.NodeUp? && e.EdgeUp? && z.NodeUp? && key in e.props
    ensures var us, name, value := [a, b, e, z], EdgeMeta(e.id), EdgeProp(e.id, key);
            && CutBetween(us, 3, name, value) && WritesAny(us, name) && First(us, name) == FixedContent(e)
            && WritesAny(us, value) && Last(us, value) == Prop(e.props[key])
  {
    var us := [a, b, e, z];
    assert us[..3] == [a, b, e] && [a, b, e][..2] == [a, b] && [a, b][..1] == [a] && [a][..0] == [];
    var name := EdgeMeta(e.id);
    assert !WritesAny([a], name) && !WritesAny([a, b], name);
    assert WritesAny([a, b, e], name) && First([a, b, e], name) == FixedContent(e);
  }

  lemma Alone(rec: Record, cfg: Config, c: Cell)
    requires Word(rec, Empty(), cfg, c).Some?
    ensures Says([rec], Empty(), cfg, c) == Word(rec, Empty(), cfg, c) && Speaker([rec], Empty(), cfg, c) == 0
  {
    hide Word, Says;
    SaysOne(rec, Empty(), cfg, c);
    NothingSaid(Empty(), cfg, c);
    assert [rec][..0] == [] && [rec][1..] == [];
    SpeakerIs([rec], 0, Empty(), cfg, c);
  }

  lemma InTheWay(cfg: Config)
    ensures Obstructed(Empty(), [EarlyRoster()], [LateRoster()], cfg)
  {
    hide Word, Says, Full, CutBetween, NodeId, DeterministicEdgeID;
    EndpointsCanClash(cfg.hash);
    RosterSays("a", "1", "x:n:Skill:y", "z", cfg);
    RosterSays("b", "2", "x", "y:n:Skill:z", cfg);
    var id := EdgeOf("x", "y:n:Skill:z", cfg);
    var name, value := EdgeMeta(id), EdgeProp(id, "declaredAt");
    Alone(EarlyRoster(), cfg, name);
    Alone(EarlyRoster(), cfg, value);
    Alone(LateRoster(), cfg, name);
    Alone(LateRoster(), cfg, value);
    assert ObstructedAt(Empty(), [EarlyRoster()], [LateRoster()], name, value, cfg);
  }

  // ---------- the run ----------

  /** From the empty graph, whatever the hash: a run that drains both rosters and leaves a
      graph that processing them one after the other never does, in either order. */
  lemma NoOrderExplains(cfg: Config) returns (events: seq<Event>, s: System)
    ensures Initial(Scene()) && Scene().mem.Ok() && Scene().mem.nodes == map[] && Scene().mem.edges == map[]
    ensures Leads(Scene(), events, s, cfg) && s.logs == Scene().logs && Drained(s, cfg)
    ensures forall order | Respects(order, Empty(), s.logs, cfg) :: s.mem != Replay(Empty(), order, cfg)
  {
    hide Initial, Leads, Drained, Live, Respects, Replay, EarlyRoster, LateRoster, Obstructed;
    SceneStarts(cfg);
    InTheWay(cfg);
    events, s := ObstructedRun(Scene(), LEFT, RIGHT, cfg);
  }
}
