/** The flat string keys of the ordered key/value map: primary records and the four
    families of secondary index entries. */
module IndexKeys {
  import opened Text

  const NODE_PREFIX := "node:"
  const EDGE_PREFIX := "edge:"
  const LABEL_PREFIX := "i:lbl:"
  const OUT_PREFIX := "i:out:"
  const IN_PREFIX := "i:in:"
  const EDGE_LABEL_PREFIX := "i:elbl:"

  /** What a key stands for. */
  datatype Key =
    | NodeKey(id: string)
    | EdgeKey(id: string)
    | LabelKey(lbl: string, id: string)
    | OutKey(node: string, id: string)
    | InKey(node: string, id: string)
    | EdgeLabelKey(lbl: string, id: string)

  function Render(k: Key): string {
    match k
    case NodeKey(id) => NODE_PREFIX + id
    case EdgeKey(id) => EDGE_PREFIX + id
    case LabelKey(lbl, id) => LABEL_PREFIX + lbl + ":" + id
    case OutKey(node, id) => OUT_PREFIX + node + ":" + id
    case InKey(node, id) => IN_PREFIX + node + ":" + id
    case EdgeLabelKey(lbl, id) => EDGE_LABEL_PREFIX + lbl + ":" + id
  }

  /** Labels hold no colon, edge IDs exactly two; node IDs are free. */
  predicate Proper(k: Key) {
    match k
    case NodeKey(_) => true
    case EdgeKey(id) => Count(id, ':') == 2
    case LabelKey(lbl, _) => Count(lbl, ':') == 0
    case OutKey(_, id) => Count(id, ':') == 2
    case InKey(_, id) => Count(id, ':') == 2
    case EdgeLabelKey(lbl, id) => Count(lbl, ':') == 0 && Count(id, ':') == 2
  }

  /** A colon-free head is found by splitting at the first colon. */
  lemma FirstColonSplit(l1: string, r1: string, l2: string, r2: string)
    requires Count(l1, ':') == 0 && Count(l2, ':') == 0
    requires l1 + ":" + r1 == l2 + ":" + r2
    ensures l1 == l2 && r1 == r2
  {
    var s := l1 + ":" + r1;
    assert s[|l1|] == ':' && s[|l2|] == ':';
    CountZero(l1, ':');
    CountZero(l2, ':');
    assert forall i | 0 <= i < |l1| :: l1[i] == s[i];
    assert forall i | 0 <= i < |l2| :: l2[i] == s[i];
    assert l1 == s[..|l1|] && l2 == s[..|l2|];
    assert r1 == s[|l1| + 1..] && r2 == s[|l2| + 1..];
  }

  /** A tail with a known number of colons is found by counting from the end. */
  lemma LastColonsSplit(l1: string, r1: string, l2: string, r2: string)
    requires Count(r1, ':') == Count(r2, ':')
    requires l1 + ":" + r1 == l2 + ":" + r2
    ensures l1 == l2 && r1 == r2
  {
    var s := l1 + ":" + r1;
    if |r1| < |r2| {
      LongerTail(l1, r1, l2, r2);
    } else if |r2| < |r1| {
      LongerTail(l2, r2, l1, r1);
    }
    assert r1 == s[|s| - |r1|..] && r2 == s[|s| - |r2|..];
    assert l1 == s[..|l1|] && l2 == s[..|l2|];
  }

  /** Of two readings of one string, the longer tail has more colons. */
  lemma LongerTail(l1: string, r1: string, l2: string, r2: string)
    requires l1 + ":" + r1 == l2 + ":" + r2
    requires |r1| < |r2|
    ensures Count(r2, ':') > Count(r1, ':')
  {
    var s := l1 + ":" + r1;
    var d := |r2| - |r1| - 1;
    assert r2 == s[|l2| + 1..];
    assert r2[..d] + ":" + r1 == r2;
    CountConcat(r2[..d] + ":", r1, ':');
    CountConcat(r2[..d], ":", ':');
  }

  /** Distinct proper keys have distinct strings. */
  lemma RenderInjective(k1: Key, k2: Key)
    requires Proper(k1) && Proper(k2) && Render(k1) == Render(k2)
    ensures k1 == k2
  {
    hide Count;
    var s, t := Render(k1), Render(k2);
    assert s[0] == t[0] && s[2] == t[2];
    match k1 {
      case NodeKey(id) => assert id == s[5..]; assert k2.NodeKey? && k2.id == t[5..];
      case EdgeKey(id) => assert id == s[5..]; assert k2.EdgeKey? && k2.id == t[5..];
      case LabelKey(l, id) =>
        assert k2.LabelKey?;
        assert s[6..] == l + ":" + id && t[6..] == k2.lbl + ":" + k2.id;
        FirstColonSplit(l, id, k2.lbl, k2.id);
      case OutKey(n, id) =>
        assert k2.OutKey?;
        assert s[6..] == n + ":" + id && t[6..] == k2.node + ":" + k2.id;
        LastColonsSplit(n, id, k2.node, k2.id);
      case InKey(n, id) =>
        assert k2.InKey?;
        assert s[5..] == n + ":" + id && t[5..] == k2.node + ":" + k2.id;
        LastColonsSplit(n, id, k2.node, k2.id);
      case EdgeLabelKey(l, id) =>
        assert k2.EdgeLabelKey?;
        assert s[7..] == l + ":" + id && t[7..] == k2.lbl + ":" + k2.id;
        FirstColonSplit(l, id, k2.lbl, k2.id);
    }
  }

  /** Without the colon rules the strings collide: two different labels, one key. */
  lemma ColonLabelCollides()
    ensures LabelKey("A:b", "c") != LabelKey("A", "b:c")
    ensures Render(LabelKey("A:b", "c")) == Render(LabelKey("A", "b:c"))
  {
    assert Render(LabelKey("A:b", "c")) == "i:lbl:A:b:c";
    assert Render(LabelKey("A", "b:c")) == "i:lbl:A:b:c";
  }
}
