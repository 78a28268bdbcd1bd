/** Checkpoints: nodes of the graph that hold, as a numeral, the last offset processed. */
module Checkpoints {
  import opened Results
  import opened Text
  import opened PropertyGraph
  import opened NodeIds
  import opened Envelopes
  import opened Upserts
  import opened Handlers
  import opened RecordEffects
  import GraphEngine

  function OffsetCell(namespace: string, tp: TopicPartition): Cell {
    NodeProp(CheckpointNodeID(namespace, tp.topic, tp.partition), "offset")
  }

  /** The offset a checkpoint property denotes: -1 where there is no text, and nothing
      where the text is no 64-bit numeral. */
  function OffsetOf(c: Option<Content>): Option<int> {
    if c.Some? && c.value.Prop? && c.value.value.Str? then ParseInt64(c.value.value.s) else Some(-1)
  }

  function CheckpointAt(m: Memory, namespace: string, tp: TopicPartition): Option<int> {
    OffsetOf(Get(m, OffsetCell(namespace, tp)))
  }

  function CommitUp(namespace: string, src: Source): Upsert {
    NodeUp(CheckpointNodeID(namespace, src.topic, src.partition), "_checkpoint",
           map["topic" := Str(src.topic), "partition" := Int(src.partition), "offset" := Str(SignedDecimal(src.offset)),
               "namespace" := Str(namespace)])
  }

  class CheckpointStore {
    const g: GraphEngine.Graph
    const namespace: string

    constructor (graph: GraphEngine.Graph, ns: string)
      ensures g == graph && namespace == ns
    {
      g, namespace := graph, ns;
    }

    method Load(tp: TopicPartition) returns (r: Option<int>)
      requires g.storage.Valid()
      ensures r == CheckpointAt(g.storage.mem, namespace, tp)
    {
      var node := g.storage.GetNode(CheckpointNodeID(namespace, tp.topic, tp.partition));
      if node.None? { return Some(-1); }
      if "offset" !in node.value.props || !node.value.props["offset"].Str? { return Some(-1); }
      r := ParseInt64(node.value.props["offset"].s);
    }

    method Commit(src: Source)
      requires g.storage.Valid()
      modifies g.storage
      ensures g.storage.Valid() && g.storage.mem == Apply(old(g.storage.mem), CommitUp(namespace, src))
    {
      PutNode(g, CheckpointNodeID(namespace, src.topic, src.partition), "_checkpoint",
              map["topic" := Str(src.topic), "partition" := Int(src.partition), "offset" := Str(SignedDecimal(src.offset)),
                  "namespace" := Str(namespace)]);
    }
  }

  /** A commit is what the next load sees, and only for its own topic-partition. */
  lemma CommitLoads(m: Memory, namespace: string, src: Source, tp: TopicPartition)
    requires Keyed(m) && MIN_INT64 <= src.offset <= MAX_INT64
    ensures CheckpointAt(Apply(m, CommitUp(namespace, src)), namespace, tp)
         == if tp == TopicPartition(src.topic, src.partition) then Some(src.offset) else CheckpointAt(m, namespace, tp)
  {
    hide ParseInt64, SignedDecimal, CheckpointNodeID, Apply, Keyed;
    ParseSigned(src.offset);
    var u, c := CommitUp(namespace, src), OffsetCell(namespace, tp);
    ApplyCell(m, u, c);
    assert u.props["offset"] == Str(SignedDecimal(src.offset));
    if CheckpointNodeID(namespace, tp.topic, tp.partition) == CheckpointNodeID(namespace, src.topic, src.partition) {
      CheckpointsDistinct(namespace, tp.topic, tp.partition, src.topic, src.partition);
    }
  }

  /** No upsert of a record writes a checkpoint's offset. */
  lemma RecordsSpareOffsets(u: Upsert, rec: Record, n: Memory, namespace: string, tp: TopicPartition)
    requires Expected(u, rec, n)
    ensures !Writes(u, OffsetCell(namespace, tp))
  {
    hide LabelOf;
    CheckpointLabel(namespace, tp.topic, tp.partition);
    var id := CheckpointNodeID(namespace, tp.topic, tp.partition);
    assert id[0] == 'c' by { assert "ckpt:" <= id; assert id[..5] == "ckpt:"; assert id[..5][0] == 'c'; }
  }

  lemma RecordsSpareLoads(m: Memory, u: Upsert, rec: Record, n: Memory, namespace: string, tp: TopicPartition)
    requires Keyed(m) && Expected(u, rec, n)
    ensures CheckpointAt(Apply(m, u), namespace, tp) == CheckpointAt(m, namespace, tp)
  {
    hide Expected, CheckpointNodeID, Apply, Writes, Keyed;
    RecordsSpareOffsets(u, rec, n, namespace, tp);
    ApplyCell(m, u, OffsetCell(namespace, tp));
  }
}
