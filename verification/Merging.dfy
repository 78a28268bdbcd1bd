/** One order out of what a graph shows of two topic-partitions: each cell that they write
    differently tells whose record came first. */
module Merging {
  import opened Results
  import opened PropertyGraph
  import opened Envelopes
  import opened Upserts
  import opened IngestSystem
  import opened Sayings
  import opened Orders

  // ---------- merging by constraints ----------

  /** The graph shows that a's speaker came first: it named the cell, or its property was
      overridden. */
  predicate AFirst(m: Memory, said: Option<Content>, c: Cell) {
    Fixed(c) == (Get(m, c) == said)
  }

  ghost predicate First2(init: Memory, m: Memory, a: seq<Record>, cfg: Config, c: Cell) {
    AFirst(m, Says(a, init, cfg, c), c)
  }

  /** Some cell shows that a record of b from j on came before one of a up to i. */
  ghost predicate Must(init: Memory, m: Memory, a: seq<Record>, b: seq<Record>, j: nat, i: nat, cfg: Config) {
    exists c :: MustFor(init, m, a, b, j, i, cfg, c)
  }

  ghost predicate MustFor(init: Memory, m: Memory, a: seq<Record>, b: seq<Record>, j: nat, i: nat, cfg: Config, c: Cell) {
    && Disagree(init, a, b, cfg, c) && !First2(init, m, a, cfg, c)
    && j <= Speaker(b, init, cfg, c) && Speaker(a, init, cfg, c) <= i
  }

  /** What the graph shows contradicts itself. */
  ghost predicate Cycle(init: Memory, m: Memory, a: seq<Record>, b: seq<Record>, cfg: Config, c: Cell) {
    && Disagree(init, a, b, cfg, c) && First2(init, m, a, cfg, c)
    && Must(init, m, a, b, Speaker(b, init, cfg, c), Speaker(a, init, cfg, c), cfg)
  }

  /** From the i-th of a and the j-th of b on: a's next one, unless one of b must come first. */
  ghost function Merge(init: Memory, m: Memory, a: seq<Record>, b: seq<Record>, i: nat, j: nat, cfg: Config): seq<Record>
    requires i <= |a| && j <= |b|
    decreases |a| - i + |b| - j
  {
    if i == |a| then b[j..]
    else if j < |b| && Must(init, m, a, b, j, i, cfg) then [b[j]] + Merge(init, m, a, b, i, j + 1, cfg)
    else [a[i]] + Merge(init, m, a, b, i + 1, j, cfg)
  }

  lemma SaysCons(r: Record, rest: seq<Record>, init: Memory, cfg: Config, c: Cell)
    ensures Says([r] + rest, init, cfg, c) ==
              if Word(r, init, cfg, c).Some? && (Fixed(c) || Says(rest, init, cfg, c).None?) then Word(r, init, cfg, c)
              else Says(rest, init, cfg, c)
  {
    hide Word, Says;
    SaysOver([r], rest, init, cfg, c);
    SaysOne(r, init, cfg, c);
  }

  lemma SaysFrom(recs: seq<Record>, i: nat, init: Memory, cfg: Config, c: Cell)
    requires i < |recs|
    ensures Says(recs[i..], init, cfg, c) ==
              if Word(recs[i], init, cfg, c).Some? && (Fixed(c) || Says(recs[i + 1..], init, cfg, c).None?) then Word(recs[i], init, cfg, c)
              else Says(recs[i + 1..], init, cfg, c)
  {
    hide Word, Says;
    assert recs[i..] == [recs[i]] + recs[i + 1..];
    SaysCons(recs[i], recs[i + 1..], init, cfg, c);
  }

  /** A merge says what one of the two says. */
  lemma {:induction false} MergeSays(init: Memory, m: Memory, a: seq<Record>, b: seq<Record>, i: nat, j: nat, cfg: Config, c: Cell)
    requires i <= |a| && j <= |b|
    ensures var x, y, z := Says(a[i..], init, cfg, c), Says(b[j..], init, cfg, c), Says(Merge(init, m, a, b, i, j, cfg), init, cfg, c);
            (z == x || z == y) && (z.None? ==> x.None? && y.None?)
    decreases |a| - i + |b| - j
  {
    hide Word, Says, Must;
    if i == |a| {
      assert a[i..] == [];
      NothingSaid(init, cfg, c);
    } else if j < |b| && Must(init, m, a, b, j, i, cfg) {
      MergeSays(init, m, a, b, i, j + 1, cfg, c);
      SaysFrom(b, j, init, cfg, c);
      SaysCons(b[j], Merge(init, m, a, b, i, j + 1, cfg), init, cfg, c);
    } else {
      MergeSays(init, m, a, b, i + 1, j, cfg, c);
      SaysFrom(a, i, init, cfg, c);
      SaysCons(a[i], Merge(init, m, a, b, i + 1, j, cfg), init, cfg, c);
    }
  }

  lemma MustMore(init: Memory, m: Memory, a: seq<Record>, b: seq<Record>, j: nat, i: nat, k: nat, cfg: Config)
    requires Must(init, m, a, b, j, i, cfg) && i <= k
    ensures Must(init, m, a, b, j, k, cfg)
  {
    hide Disagree, First2;
    var c :| MustFor(init, m, a, b, j, i, cfg, c);
    assert MustFor(init, m, a, b, j, k, cfg, c);
  }

  /** A name that a gives first stays a's in the merge. */
  lemma {:induction false} NameOfA(init: Memory, m: Memory, a: seq<Record>, b: seq<Record>, i: nat, j: nat, cfg: Config, c: Cell)
    requires Disagree(init, a, b, cfg, c) && !Cycle(init, m, a, b, cfg, c) && Fixed(c) && First2(init, m, a, cfg, c)
    requires i <= Speaker(a, init, cfg, c) && j <= Speaker(b, init, cfg, c)
    ensures Says(Merge(init, m, a, b, i, j, cfg), init, cfg, c) == Says(a, init, cfg, c)
    decreases |a| - i + |b| - j
  {
    hide Word, Says, Must, First2;
    SpeakerIs(a, Speaker(a, init, cfg, c), init, cfg, c);
    if Must(init, m, a, b, j, i, cfg) {
      MustMore(init, m, a, b, j, i, Speaker(a, init, cfg, c), cfg);
      RestSays(b, j, init, cfg, c);
      SaysCons(b[j], Merge(init, m, a, b, i, j + 1, cfg), init, cfg, c);
      QuietBefore(b, j, init, cfg, c);
      NameOfA(init, m, a, b, i, j + 1, cfg, c);
    } else {
      SaysCons(a[i], Merge(init, m, a, b, i + 1, j, cfg), init, cfg, c);
      if i < Speaker(a, init, cfg, c) {
        QuietBefore(a, i, init, cfg, c);
        NameOfA(init, m, a, b, i + 1, j, cfg, c);
      }
    }
  }

  lemma QuietBefore(recs: seq<Record>, i: nat, init: Memory, cfg: Config, c: Cell)
    requires Says(recs, init, cfg, c).Some? && Fixed(c) && i < Speaker(recs, init, cfg, c)
    ensures Word(recs[i], init, cfg, c).None?
  {
    hide Word, Says;
    var k := Speaker(recs, init, cfg, c);
    if Word(recs[i], init, cfg, c).Some? {
      assert recs[..k][i] == recs[i];
      Spoken(recs[..k], i, init, cfg, c);
    }
  }

  /** A name that b gives first stays b's. */
  lemma {:induction false} NameOfB(init: Memory, m: Memory, a: seq<Record>, b: seq<Record>, i: nat, j: nat, cfg: Config, c: Cell)
    requires Disagree(init, a, b, cfg, c) && Fixed(c) && !First2(init, m, a, cfg, c)
    requires i <= Speaker(a, init, cfg, c) && j <= Speaker(b, init, cfg, c)
    ensures Says(Merge(init, m, a, b, i, j, cfg), init, cfg, c) == Says(b, init, cfg, c)
    decreases |a| - i + |b| - j
  {
    hide Word, Says, Must, First2;
    SpeakerIs(b, Speaker(b, init, cfg, c), init, cfg, c);
    if Must(init, m, a, b, j, i, cfg) {
      SaysCons(b[j], Merge(init, m, a, b, i, j + 1, cfg), init, cfg, c);
      if j < Speaker(b, init, cfg, c) {
        QuietBefore(b, j, init, cfg, c);
        NameOfB(init, m, a, b, i, j + 1, cfg, c);
      }
    } else {
      NotMust(init, m, a, b, j, i, cfg, c);
      SaysCons(a[i], Merge(init, m, a, b, i + 1, j, cfg), init, cfg, c);
      QuietBefore(a, i, init, cfg, c);
      NameOfB(init, m, a, b, i + 1, j, cfg, c);
    }
  }

  lemma NotMust(init: Memory, m: Memory, a: seq<Record>, b: seq<Record>, j: nat, i: nat, cfg: Config, c: Cell)
    requires !Must(init, m, a, b, j, i, cfg) && Disagree(init, a, b, cfg, c) && !First2(init, m, a, cfg, c)
    ensures j > Speaker(b, init, cfg, c) || i < Speaker(a, init, cfg, c)
  {
    hide First2, Says, Word, Get;
    assert !MustFor(init, m, a, b, j, i, cfg, c);
  }

  /** A property that b overrides stays b's. */
  lemma {:induction false} ValueOfB(init: Memory, m: Memory, a: seq<Record>, b: seq<Record>, i: nat, j: nat, cfg: Config, c: Cell)
    requires Disagree(init, a, b, cfg, c) && !Cycle(init, m, a, b, cfg, c) && !Fixed(c) && First2(init, m, a, cfg, c)
    requires i <= |a| && j <= Speaker(b, init, cfg, c)
    ensures Says(Merge(init, m, a, b, i, j, cfg), init, cfg, c) == Says(b, init, cfg, c)
    decreases |a| - i + |b| - j
  {
    hide Word, Says, Must, First2;
    var k := Speaker(b, init, cfg, c);
    SpeakerIs(b, k, init, cfg, c);
    RestSays(b, j, init, cfg, c);
    if i < |a| && Must(init, m, a, b, j, i, cfg) {
      SaysCons(b[j], Merge(init, m, a, b, i, j + 1, cfg), init, cfg, c);
      if j < k {
        ValueOfB(init, m, a, b, i, j + 1, cfg, c);
      } else {
        if i <= Speaker(a, init, cfg, c) { MustMore(init, m, a, b, j, i, Speaker(a, init, cfg, c), cfg); }
        RestSays(a, i, init, cfg, c);
        MergeSays(init, m, a, b, i, j + 1, cfg, c);
      }
    } else if i < |a| {
      SaysCons(a[i], Merge(init, m, a, b, i + 1, j, cfg), init, cfg, c);
      ValueOfB(init, m, a, b, i + 1, j, cfg, c);
    }
  }

  /** A property that a overrides stays a's. */
  lemma {:induction false} ValueOfA(init: Memory, m: Memory, a: seq<Record>, b: seq<Record>, i: nat, j: nat, cfg: Config, c: Cell)
    requires Disagree(init, a, b, cfg, c) && !Fixed(c) && !First2(init, m, a, cfg, c)
    requires i <= Speaker(a, init, cfg, c) && j <= |b|
    ensures Says(Merge(init, m, a, b, i, j, cfg), init, cfg, c) == Says(a, init, cfg, c)
    decreases |a| - i + |b| - j
  {
    hide Word, Says, Must, First2;
    var k := Speaker(a, init, cfg, c);
    SpeakerIs(a, k, init, cfg, c);
    if j < |b| && Must(init, m, a, b, j, i, cfg) {
      SaysCons(b[j], Merge(init, m, a, b, i, j + 1, cfg), init, cfg, c);
      ValueOfA(init, m, a, b, i, j + 1, cfg, c);
    } else {
      SaysCons(a[i], Merge(init, m, a, b, i + 1, j, cfg), init, cfg, c);
      if i < k {
        ValueOfA(init, m, a, b, i + 1, j, cfg, c);
      } else {
        if j < |b| { NotMust(init, m, a, b, j, i, cfg, c); }
        RestSays(b, j, init, cfg, c);
        MergeSays(init, m, a, b, i + 1, j, cfg, c);
      }
    }
  }

  /** Where nothing the graph shows contradicts itself, the merge says what it shows. */
  lemma MergeShows(init: Memory, m: Memory, a: seq<Record>, b: seq<Record>, cfg: Config, c: Cell)
    requires !Cycle(init, m, a, b, cfg, c) && (Fixed(c) ==> Get(init, c).None?)
    requires var x, y := Says(a, init, cfg, c), Says(b, init, cfg, c);
             if x.None? && y.None? then Get(m, c) == Get(init, c) else Get(m, c).Some? && (Get(m, c) == x || Get(m, c) == y)
    ensures var z := Says(Merge(init, m, a, b, 0, 0, cfg), init, cfg, c); Get(m, c) == if z.None? then Get(init, c) else z
  {
    hide Word, Says, Must, Merge, Get;
    assert a[0..] == a && b[0..] == b;
    MergeSays(init, m, a, b, 0, 0, cfg, c);
    if Disagree(init, a, b, cfg, c) {
      if Fixed(c) && First2(init, m, a, cfg, c) {
        NameOfA(init, m, a, b, 0, 0, cfg, c);
      } else if Fixed(c) {
        NameOfB(init, m, a, b, 0, 0, cfg, c);
      } else if First2(init, m, a, cfg, c) {
        ValueOfB(init, m, a, b, 0, 0, cfg, c);
      } else {
        ValueOfA(init, m, a, b, 0, 0, cfg, c);
      }
    }
  }

  /** The merge takes both lists in order. */
  lemma {:induction false} MergeRespects(init: Memory, m: Memory, a: seq<Record>, b: seq<Record>, i: nat, j: nat, p: TopicPartition, q: TopicPartition,
                                         tp: TopicPartition, cfg: Config)
    requires i <= |a| && j <= |b| && p != q
    requires (forall r | r in a :: r.Tp() == p) && forall r | r in b :: r.Tp() == q
    ensures DoneOf(Merge(init, m, a, b, i, j, cfg), tp) == if tp == p then a[i..] else if tp == q then b[j..] else []
    decreases |a| - i + |b| - j
  {
    hide Must, DoneOf;
    if i == |a| {
      OnlyOne(b[j..], q, tp);
    } else if j < |b| && Must(init, m, a, b, j, i, cfg) {
      MergeRespects(init, m, a, b, i, j + 1, p, q, tp, cfg);
      DoneOfOver([b[j]], Merge(init, m, a, b, i, j + 1, cfg), tp);
      DoneOfOne(b[j], tp);
      assert b[j..] == [b[j]] + b[j + 1..] && b[j] in b;
    } else {
      MergeRespects(init, m, a, b, i + 1, j, p, q, tp, cfg);
      DoneOfOver([a[i]], Merge(init, m, a, b, i + 1, j, cfg), tp);
      DoneOfOne(a[i], tp);
      assert a[i..] == [a[i]] + a[i + 1..] && a[i] in a;
    }
  }

  lemma {:induction false} OnlyOne(recs: seq<Record>, own: TopicPartition, tp: TopicPartition)
    requires forall r | r in recs :: r.Tp() == own
    ensures DoneOf(recs, tp) == if tp == own then recs else []
    decreases |recs|
  {
    if recs != [] {
      OnlyOne(recs[..|recs| - 1], own, tp);
      assert recs[|recs| - 1] in recs;
      assert recs[..|recs| - 1] + [recs[|recs| - 1]] == recs;
    }
  }
}
