/** Orders that explain a run, and what can keep two topic-partitions' records from having
    one. */
module Orders {
  import opened PropertyGraph
  import opened Envelopes
  import opened Upserts
  import opened IngestSystem
  import opened Progress
  import opened Sayings

  // ---------- explained runs ----------

  /** The order takes every topic-partition's live records once, and in their order. */
  ghost predicate Respects(order: seq<Record>, init: Memory, logs: Logs, cfg: Config) {
    forall tp :: DoneOf(order, tp) == Live(init, logs, tp, cfg)
  }

  /** The graph is that of processing the records one after the other in some such order. */
  ghost predicate Explained(init: Memory, logs: Logs, m: Memory, cfg: Config) {
    exists order :: Respects(order, init, logs, cfg) && m == Replay(init, order, cfg)
  }

  /** So it is after every run that ends with these logs drained. */
  ghost predicate AlwaysExplained(s0: System, logs: Logs, cfg: Config) {
    forall events, s | Leads(s0, events, s, cfg) && s.logs == logs && Drained(s, cfg) :: Explained(s0.mem, logs, s.mem, cfg)
  }

  // ---------- disagreement ----------

  /** Both lists write the cell, which is no record's of the initial graph, differently. */
  ghost predicate Disagree(init: Memory, a: seq<Record>, b: seq<Record>, cfg: Config, c: Cell) {
    && (Fixed(c) ==> Get(init, c).None?)
    && Says(a, init, cfg, c).Some? && Says(b, init, cfg, c).Some? && Says(a, init, cfg, c) != Says(b, init, cfg, c)
  }

  /** A part of the upserts, not all of them, names c and not d. */
  ghost predicate CutBetween(us: seq<Upsert>, k: nat, c: Cell, d: Cell) {
    k < |us| && WritesAny(us[..k], c) && !(Fixed(d) && WritesAny(us[..k], d))
  }

  /** One record of a speaks for the name c and for d as well; cut off in between, it leaves
      room for those of b that would speak for c and d. */
  ghost predicate ObstructedAt(init: Memory, a: seq<Record>, b: seq<Record>, c: Cell, d: Cell, cfg: Config) {
    && Disagree(init, a, b, cfg, c) && Disagree(init, a, b, cfg, d) && Fixed(c)
    && Speaker(a, init, cfg, c) == Speaker(a, init, cfg, d)
    && Speaker(b, init, cfg, c) <= Speaker(b, init, cfg, d)
    && exists k :: CutBetween(Full(a[Speaker(a, init, cfg, c)], init, cfg), k, c, d)
  }

  ghost predicate Obstructed(init: Memory, a: seq<Record>, b: seq<Record>, cfg: Config) {
    exists c, d :: ObstructedAt(init, a, b, c, d, cfg)
  }

  /** Only these two have live records. */
  ghost predicate OnlyTwo(init: Memory, logs: Logs, p: TopicPartition, q: TopicPartition, cfg: Config) {
    p != q && forall tp | tp != p && tp != q :: Live(init, logs, tp, cfg) == []
  }

  // ---------- lists of two topic-partitions ----------

  /** The list has these records of p and of q, and no others. */
  ghost predicate Holds(recs: seq<Record>, p: TopicPartition, a: seq<Record>, q: TopicPartition, b: seq<Record>) {
    p != q && forall tp :: DoneOf(recs, tp) == if tp == p then a else if tp == q then b else []
  }

  /** It says what one of the two says. */
  lemma SaidByEither(recs: seq<Record>, p: TopicPartition, a: seq<Record>, q: TopicPartition, b: seq<Record>, init: Memory, cfg: Config, c: Cell)
    requires Holds(recs, p, a, q, b)
    ensures var x, y, z := Says(a, init, cfg, c), Says(b, init, cfg, c), Says(recs, init, cfg, c);
            (z == x || z == y) && (z.None? ==> x.None? && y.None?)
  {
    hide Says, DoneOf;
    assert DoneOf(recs, p) == a && DoneOf(recs, q) == b;
    if Says(recs, init, cfg, c).Some? {
      var tp := SaidByOne(recs, init, cfg, c);
      NothingSaid(init, cfg, c);
    } else {
      SaidByNone(recs, p, init, cfg, c);
      SaidByNone(recs, q, init, cfg, c);
    }
  }

  /** What is left of a list after its first part. */
  lemma HoldsRest(first: seq<Record>, rest: seq<Record>, p: TopicPartition, a: seq<Record>, i: nat, q: TopicPartition, b: seq<Record>, j: nat)
    requires Holds(first + rest, p, a, q, b) && i <= |a| && j <= |b| && DoneOf(first, p) == a[..i] && DoneOf(first, q) == b[..j]
    ensures Holds(first, p, a[..i], q, b[..j]) && Holds(rest, p, a[i..], q, b[j..])
  {
    hide DoneOf;
    forall tp
      ensures DoneOf(first, tp) == if tp == p then a[..i] else if tp == q then b[..j] else []
      ensures DoneOf(rest, tp) == if tp == p then a[i..] else if tp == q then b[j..] else []
    {
      DoneOfOver(first, rest, tp);
      assert DoneOf(first + rest, tp) == if tp == p then a else if tp == q then b else [];
    }
  }

  /** A list can be split before any record of p. */
  lemma {:induction false} SplitBefore(recs: seq<Record>, p: TopicPartition, i: nat) returns (first: seq<Record>, rest: seq<Record>)
    requires i < |DoneOf(recs, p)|
    ensures recs == first + [DoneOf(recs, p)[i]] + rest && DoneOf(first, p) == DoneOf(recs, p)[..i]
    decreases |recs|
  {
    var front, r := recs[..|recs| - 1], recs[|recs| - 1];
    assert recs == front + [r];
    if i < |DoneOf(front, p)| {
      var middle;
      first, middle := SplitBefore(front, p, i);
      rest := middle + [r];
      assert DoneOf(recs, p)[..i] == DoneOf(front, p)[..i];
    } else {
      first, rest := front, [];
      assert DoneOf(recs, p)[..i] == DoneOf(front, p);
    }
  }

  /** So that what comes before and after it are parts of both lists. */
  lemma SplitTwo(recs: seq<Record>, p: TopicPartition, a: seq<Record>, i: nat, q: TopicPartition, b: seq<Record>)
    returns (first: seq<Record>, rest: seq<Record>, n: nat)
    requires Holds(recs, p, a, q, b) && i < |a|
    ensures n <= |b| && recs == first + [a[i]] + rest
    ensures Holds(first, p, a[..i], q, b[..n]) && Holds(rest, p, a[i + 1..], q, b[n..])
  {
    hide DoneOf;
    assert DoneOf(recs, p) == a && DoneOf(recs, q) == b;
    first, rest := SplitBefore(recs, p, i);
    n := |DoneOf(first, q)|;
    DoneOfOver(first + [a[i]], rest, q);
    DoneOfOver(first, [a[i]], q);
    DoneOfOver(first + [a[i]], rest, p);
    DoneOfOver(first, [a[i]], p);
    DoneOfOne(a[i], p);
    DoneOfOne(a[i], q);
    OwnRecord(recs, p, i);
    assert b[..n] == DoneOf(first, q);
    assert a[..i + 1] == a[..i] + [a[i]];
    HoldsRest(first + [a[i]], rest, p, a, i + 1, q, b, n);
    assert first + ([a[i]] + rest) == recs;
    HoldsRest(first, [a[i]] + rest, p, a, i, q, b, n);
  }

  lemma {:induction false} OwnRecord(recs: seq<Record>, p: TopicPartition, i: nat)
    requires i < |DoneOf(recs, p)|
    ensures DoneOf(recs, p)[i].Tp() == p
    decreases |recs|
  {
    if i < |DoneOf(recs[..|recs| - 1], p)| { OwnRecord(recs[..|recs| - 1], p, i); }
  }

  // ---------- what an order of both says ----------

  /** A property of a's that is not overridden: a's speaker follows, if b's does. */
  lemma ValueStays(first: seq<Record>, rest: seq<Record>, p: TopicPartition, a: seq<Record>, i: nat, q: TopicPartition, b: seq<Record>, n: nat,
                   init: Memory, cfg: Config, d: Cell)
    requires Disagree(init, a, b, cfg, d) && !Fixed(d) && Says(first + rest, init, cfg, d) == Says(a, init, cfg, d)
    requires i <= |a| && n <= Speaker(b, init, cfg, d) && Holds(rest, p, a[i..], q, b[n..])
    ensures i <= Speaker(a, init, cfg, d)
  {
    hide Says, Word, Holds;
    SaysOver(first, rest, init, cfg, d);
    SaidByEither(rest, p, a[i..], q, b[n..], init, cfg, d);
    RestSays(b, n, init, cfg, d);
    RestSays(a, i, init, cfg, d);
  }

  /** A property of a's that is overridden: b's speaker follows a's. */
  lemma ValueOverridden(first: seq<Record>, rest: seq<Record>, p: TopicPartition, a: seq<Record>, q: TopicPartition, b: seq<Record>, n: nat,
                        init: Memory, cfg: Config, c: Cell)
    requires Disagree(init, a, b, cfg, c) && !Fixed(c) && n <= |b| && Holds(rest, p, a[Speaker(a, init, cfg, c) + 1..], q, b[n..])
    requires Says(first + [a[Speaker(a, init, cfg, c)]] + rest, init, cfg, c) != Says(a, init, cfg, c)
    ensures n <= Speaker(b, init, cfg, c)
  {
    hide Says, Word, Holds;
    var i := Speaker(a, init, cfg, c);
    SpeakerIs(a, i, init, cfg, c);
    SaidByEither(rest, p, a[i + 1..], q, b[n..], init, cfg, c);
    RestSays(b, n, init, cfg, c);
    RestSays(a, i + 1, init, cfg, c);
    SaysOver(first + [a[i]], rest, init, cfg, c);
    SaysOver(first, [a[i]], init, cfg, c);
    SaysOne(a[i], init, cfg, c);
  }

  /** A name of a's that stands: b's speaker does not come before a's. */
  lemma NameStands(first: seq<Record>, rest: seq<Record>, p: TopicPartition, a: seq<Record>, i: nat, q: TopicPartition, b: seq<Record>, n: nat,
                   init: Memory, cfg: Config, c: Cell)
    requires Disagree(init, a, b, cfg, c) && Fixed(c) && Says(first + rest, init, cfg, c) == Says(a, init, cfg, c)
    requires n <= |b| && i <= Speaker(a, init, cfg, c) && Holds(first, p, a[..i], q, b[..n])
    ensures n <= Speaker(b, init, cfg, c)
  {
    hide Says, Word, Holds;
    SaysOver(first, rest, init, cfg, c);
    SaidByEither(first, p, a[..i], q, b[..n], init, cfg, c);
    RestSays(b, n, init, cfg, c);
    RestSays(a, i, init, cfg, c);
    SaysOver(b[..n], b[n..], init, cfg, c);
    assert b == b[..n] + b[n..];
  }

  /** A name that nobody gives before a's speaker is a's. */
  lemma NameGiven(first: seq<Record>, rest: seq<Record>, p: TopicPartition, a: seq<Record>, q: TopicPartition, b: seq<Record>, n: nat,
                  init: Memory, cfg: Config, d: Cell)
    requires Disagree(init, a, b, cfg, d) && Fixed(d) && n <= Speaker(b, init, cfg, d)
    requires Holds(first, p, a[..Speaker(a, init, cfg, d)], q, b[..n])
    ensures Says(first + [a[Speaker(a, init, cfg, d)]] + rest, init, cfg, d) == Says(a, init, cfg, d)
  {
    hide Says, Word, Holds;
    var i := Speaker(a, init, cfg, d);
    SpeakerIs(a, i, init, cfg, d);
    SaidByEither(first, p, a[..i], q, b[..n], init, cfg, d);
    RestSays(b, n, init, cfg, d);
    RestSays(a, i, init, cfg, d);
    SaysOver(first + [a[i]], rest, init, cfg, d);
    SaysOver(first, [a[i]], init, cfg, d);
    SaysOne(a[i], init, cfg, d);
  }

  /** Properties alone never contradict each other. */
  lemma ValuesInOrder(recs: seq<Record>, p: TopicPartition, a: seq<Record>, q: TopicPartition, b: seq<Record>, init: Memory, cfg: Config, c: Cell, d: Cell)
    requires Holds(recs, p, a, q, b) && Disagree(init, a, b, cfg, c) && Disagree(init, a, b, cfg, d) && !Fixed(c) && !Fixed(d)
    requires Says(recs, init, cfg, c) != Says(a, init, cfg, c) && Says(recs, init, cfg, d) == Says(a, init, cfg, d)
    ensures Speaker(b, init, cfg, d) < Speaker(b, init, cfg, c) || Speaker(a, init, cfg, c) < Speaker(a, init, cfg, d)
  {
    hide Says, Word, Holds;
    var i := Speaker(a, init, cfg, c);
    var first, rest, n := SplitTwo(recs, p, a, i, q, b);
    ValueOverridden(first, rest, p, a, q, b, n, init, cfg, c);
    if n <= Speaker(b, init, cfg, d) { ValueStays(first + [a[i]], rest, p, a, i + 1, q, b, n, init, cfg, d); }
  }
}
