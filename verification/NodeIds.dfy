/** Deterministic IDs of ingested records, and what an ID says about its record. */
module NodeIds {
  import opened Text
  import opened IndexKeys

  /** Where a record came from. */
  datatype Source = Source(topic: string, partition: int, offset: int)

  /** The hash of an edge's endpoints, as printed. */
  type EdgeHash = string -> string

  ghost predicate HashOk(hash: EdgeHash) {
    forall s :: Count(hash(s), ':') == 0
  }

  function SourceText(src: Source): string {
    src.topic + ":" + SignedDecimal(src.partition) + ":" + SignedDecimal(src.offset)
  }

  function NodeId(lbl: string, key: string): string {
    "n:" + lbl + ":" + key
  }

  function AgentNodeID(agentID: string): string {
    NodeId("Agent", agentID)
  }

  function ConversationNodeID(correlationID: string): string {
    NodeId("Conversation", correlationID)
  }

  function MessageNodeID(src: Source): string {
    NodeId("Message", SourceText(src))
  }

  function SkillNodeID(skillName: string): string {
    NodeId("Skill", skillName)
  }

  function SharedMemoryNodeID(src: Source): string {
    NodeId("SharedMemory", SourceText(src))
  }

  function AuditEventNodeID(src: Source): string {
    NodeId("AuditEvent", SourceText(src))
  }

  function HumanFeedbackNodeID(src: Source): string {
    NodeId("HumanFeedback", SourceText(src))
  }

  function DeterministicEdgeID(hash: EdgeHash, lbl: string, from: string, to: string): string {
    "e:" + lbl + ":" + hash(from + ":" + to)
  }

  lemma EdgeIdShape(hash: EdgeHash, lbl: string, from: string, to: string)
    requires HashOk(hash) && Count(lbl, ':') == 0
    ensures Count(DeterministicEdgeID(hash, lbl, from, to), ':') == 2
  {
    var h := hash(from + ":" + to);
    CountConcat("e:" + lbl + ":", h, ':');
    CountConcat("e:" + lbl, ":", ':');
    CountConcat("e:", lbl, ':');
    assert Count("e:", ':') == 1;
  }

  // ---------- checkpoints ----------

  function CheckpointNodeID(namespace: string, topic: string, partition: int): string {
    "ckpt:" + namespace + ":" + topic + ":" + SignedDecimal(partition)
  }

  lemma LastColon(a: string, x: string, b: string, y: string)
    requires ':' !in x && ':' !in y && a + ":" + x == b + ":" + y
    ensures a == b && x == y
  {
    CountZero(x, ':');
    CountZero(y, ':');
    LastColonsSplit(a, x, b, y);
  }

  /** Two topic-partitions share a checkpoint exactly when their partitions are the same and
      namespace and topic, joined, read alike. */
  lemma CheckpointsClashIff(n1: string, t1: string, p1: int, n2: string, t2: string, p2: int)
    ensures CheckpointNodeID(n1, t1, p1) == CheckpointNodeID(n2, t2, p2) <==> n1 + ":" + t1 == n2 + ":" + t2 && p1 == p2
  {
    hide SignedDecimal;
    var x, y := n1 + ":" + t1, n2 + ":" + t2;
    CheckpointShape(n1, t1, p1);
    CheckpointShape(n2, t2, p2);
    if CheckpointNodeID(n1, t1, p1) == CheckpointNodeID(n2, t2, p2) {
      SignedDigits(p1);
      SignedDigits(p2);
      LastColon("ckpt:" + x, SignedDecimal(p1), "ckpt:" + y, SignedDecimal(p2));
      assert x == ("ckpt:" + x)[5..] && y == ("ckpt:" + y)[5..];
      SignedInjective(p1, p2);
    }
  }

  lemma CheckpointShape(namespace: string, topic: string, partition: int)
    ensures CheckpointNodeID(namespace, topic, partition) == "ckpt:" + (namespace + ":" + topic) + ":" + SignedDecimal(partition)
  {
    assert "ckpt:" + (namespace + ":" + topic) == "ckpt:" + namespace + ":" + topic;
  }

  /** Within a namespace none do, whatever colons topics contain. */
  lemma CheckpointsDistinct(namespace: string, t1: string, p1: int, t2: string, p2: int)
    requires CheckpointNodeID(namespace, t1, p1) == CheckpointNodeID(namespace, t2, p2)
    ensures t1 == t2 && p1 == p2
  {
    hide CheckpointNodeID;
    CheckpointsClashIff(namespace, t1, p1, namespace, t2, p2);
    var front := namespace + ":";
    assert t1 == (front + t1)[|front|..] && t2 == (front + t2)[|front|..];
  }

  /** Across namespaces they can: a colon may belong to either name. */
  lemma NamespacesCanClash()
    ensures CheckpointNodeID("a", "b:c", 0) == CheckpointNodeID("a:b", "c", 0)
  {
  }

  // ---------- labels of IDs ----------

  /** The characters before the first colon. */
  function Upto(s: string): (r: string)
    ensures |r| <= |s|
  {
    if s == "" || s[0] == ':' then "" else [s[0]] + Upto(s[1..])
  }

  lemma {:induction false} UptoColon(a: string, rest: string)
    requires ':' !in a
    ensures Upto(a + ":" + rest) == a
  {
    var s := a + ":" + rest;
    if a != "" {
      assert s[1..] == a[1..] + ":" + rest;
      UptoColon(a[1..], rest);
      assert a == [a[0]] + a[1..];
    }
  }

  predicate Ingested(lbl: string) {
    lbl in {"Agent", "Conversation", "Message", "Skill", "SharedMemory", "AuditEvent", "HumanFeedback"}
  }

  /** The label that ingestion gives to a node of this ID. IDs of no other known form
      are those of reflection cycles. */
  function LabelOf(id: string): string {
    var lbl := if "n:" <= id then Upto(id[2..]) else "";
    if Ingested(lbl) && |lbl| + 2 < |id| then lbl
    else if "ckpt:" <= id then "_checkpoint"
    else "ReflectionCycle"
  }

  /** The IDs handed out by ingestion say their label. */
  lemma NodeIdLabel(lbl: string, key: string)
    requires Ingested(lbl)
    ensures LabelOf(NodeId(lbl, key)) == lbl
    ensures NodeId(lbl, key)[0] == 'n'
  {
    var id := NodeId(lbl, key);
    assert "n:" <= id && id[2..] == lbl + ":" + key;
    IngestedColonFree(lbl);
    UptoColon(lbl, key);
  }

  lemma IngestedColonFree(lbl: string)
    requires Ingested(lbl)
    ensures ':' !in lbl
  {
  }

  lemma CheckpointLabel(namespace: string, topic: string, partition: int)
    ensures LabelOf(CheckpointNodeID(namespace, topic, partition)) == "_checkpoint"
    ensures "ckpt:" <= CheckpointNodeID(namespace, topic, partition)
  {
    var id := CheckpointNodeID(namespace, topic, partition);
    assert id[0] == 'c';
    assert "ckpt:" <= id;
  }

  // ---------- endpoints of edge IDs ----------

  ghost predicate Injective(hash: EdgeHash) {
    HashOk(hash) && forall s, t :: hash(s) == hash(t) ==> s == t
  }

  /** With colon-free labels and a hash that keeps texts apart, two edges share an ID exactly
      when their labels are the same and their endpoints, joined, read alike. */
  lemma EdgeIdsClashIff(hash: EdgeHash, l1: string, f1: string, t1: string, l2: string, f2: string, t2: string)
    requires Injective(hash) && ':' !in l1 && ':' !in l2
    ensures DeterministicEdgeID(hash, l1, f1, t1) == DeterministicEdgeID(hash, l2, f2, t2)
       <==> l1 == l2 && f1 + ":" + t1 == f2 + ":" + t2
  {
    var a, b := hash(f1 + ":" + t1), hash(f2 + ":" + t2);
    var id1, id2 := DeterministicEdgeID(hash, l1, f1, t1), DeterministicEdgeID(hash, l2, f2, t2);
    assert id1[2..] == l1 + ":" + a && id2[2..] == l2 + ":" + b;
    if id1 == id2 {
      CountZero(l1, ':');
      CountZero(l2, ':');
      FirstColonSplit(l1, a, l2, b);
    }
  }

  /** Sources with equally many colons are told apart in the hashed text. */
  lemma {:induction false} EndpointsSplit(from1: string, to1: string, from2: string, to2: string)
    requires from1 + ":" + to1 == from2 + ":" + to2 && Count(from1, ':') == Count(from2, ':')
    ensures from1 == from2 && to1 == to2
  {
    var s := from1 + ":" + to1;
    if |from1| < |from2| {
      ShorterHasFewer(from1, from2, s);
    } else if |from2| < |from1| {
      ShorterHasFewer(from2, from1, s);
    } else {
      assert from1 == s[..|from1|] && from2 == (from2 + ":" + to2)[..|from2|];
      assert to1 == s[|from1| + 1..] && to2 == (from2 + ":" + to2)[|from2| + 1..];
    }
  }

  lemma ShorterHasFewer(a: string, b: string, s: string)
    requires |a| < |b| && a + ":" <= s && b <= s
    ensures Count(a, ':') < Count(b, ':')
  {
    var rest := b[|a| + 1..];
    assert b[..|a| + 1] == s[..|a| + 1] == a + ":";
    assert b == a + ":" + rest;
    CountConcat(a + ":", rest, ':');
    CountConcat(a, ":", ':');
    assert Count(":", ':') == 1;
  }

  /** In general they are not: two different skill edges may hash the same text. */
  lemma EndpointsCanClash(hash: EdgeHash)
    ensures AgentNodeID("x:n:Skill:y") != AgentNodeID("x")
    ensures DeterministicEdgeID(hash, "HAS_SKILL", AgentNodeID("x:n:Skill:y"), SkillNodeID("z"))
         == DeterministicEdgeID(hash, "HAS_SKILL", AgentNodeID("x"), SkillNodeID("y:n:Skill:z"))
  {
    assert AgentNodeID("x:n:Skill:y") + ":" + SkillNodeID("z") == AgentNodeID("x") + ":" + SkillNodeID("y:n:Skill:z");
    assert |AgentNodeID("x:n:Skill:y")| != |AgentNodeID("x")|;
  }
}
