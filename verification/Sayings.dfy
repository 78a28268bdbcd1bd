/** What a list of records, processed one after the other, makes of a cell: its first name,
    or its last property. */
module Sayings {
  import opened Results
  import opened PropertyGraph
  import opened Envelopes
  import opened Upserts
  import opened IngestSystem
  import NodeIds

  /** What one record says. */
  ghost function Word(rec: Record, init: Memory, cfg: Config, c: Cell): Option<Content> {
    var us := Full(rec, init, cfg);
    if !WritesAny(us, c) then None else if Fixed(c) then Some(First(us, c)) else Some(Last(us, c))
  }

  /** Of a name the first record that gives one has it, of a property the last. */
  ghost function Says(recs: seq<Record>, init: Memory, cfg: Config, c: Cell): Option<Content> {
    if recs == [] then None
    else
      var first, rest := Word(recs[0], init, cfg, c), Says(recs[1..], init, cfg, c);
      if first.Some? && (Fixed(c) || rest.None?) then first else rest
  }

  lemma {:induction false} SaysOver(a: seq<Record>, b: seq<Record>, init: Memory, cfg: Config, c: Cell)
    ensures var x, y := Says(a, init, cfg, c), Says(b, init, cfg, c);
            Says(a + b, init, cfg, c) == if x.Some? && (Fixed(c) || y.None?) then x else y
    decreases |a|
  {
    hide Word;
    if a == [] {
      assert a + b == b;
    } else {
      SaysOver(a[1..], b, init, cfg, c);
      assert (a + b)[1..] == a[1..] + b;
    }
  }

  lemma SaysOne(rec: Record, init: Memory, cfg: Config, c: Cell)
    ensures Says([rec], init, cfg, c) == Word(rec, init, cfg, c)
  {
    hide Word;
    assert [rec][1..] == [];
  }

  /** What one record says is what running it leaves. */
  lemma WordRuns(m: Memory, rec: Record, init: Memory, cfg: Config, c: Cell)
    requires Keyed(m)
    ensures Get(Run(m, Full(rec, init, cfg)), c) ==
              if Word(rec, init, cfg, c).None? || (Fixed(c) && Get(m, c).Some?) then Get(m, c) else Word(rec, init, cfg, c)
  {
    hide Full, WritesAny, First, Last, Get, Run, Keyed;
    RunCell(m, Full(rec, init, cfg), c);
  }

  /** The graph after the records' upserts, one record after the other. */
  ghost function RunRecords(m: Memory, recs: seq<Record>, init: Memory, cfg: Config): Memory {
    if recs == [] then m else Run(RunRecords(m, recs[..|recs| - 1], init, cfg), Full(recs[|recs| - 1], init, cfg))
  }

  lemma RunRecordsMore(m: Memory, recs: seq<Record>, rec: Record, init: Memory, cfg: Config)
    ensures RunRecords(m, recs + [rec], init, cfg) == Run(RunRecords(m, recs, init, cfg), Full(rec, init, cfg))
    ensures RunRecords(m, [], init, cfg) == m
  {
    hide Run, Full;
    assert (recs + [rec])[..|recs|] == recs;
  }

  /** Records leave what they say. */
  lemma {:induction false} RecordsLeave(m: Memory, recs: seq<Record>, init: Memory, cfg: Config, c: Cell)
    requires Keyed(m)
    ensures Keyed(RunRecords(m, recs, init, cfg))
    ensures Get(RunRecords(m, recs, init, cfg), c) ==
              if Says(recs, init, cfg, c).None? || (Fixed(c) && Get(m, c).Some?) then Get(m, c) else Says(recs, init, cfg, c)
    decreases |recs|
  {
    hide Word, Get, Run, Keyed, Full, Says, RunRecords;
    if recs == [] {
      RunRecordsMore(m, [], Record(NodeIds.Source("", 0, 0), None), init, cfg);
      NothingSaid(init, cfg, c);
    } else {
      var front, r := recs[..|recs| - 1], recs[|recs| - 1];
      RecordsLeave(m, front, init, cfg, c);
      assert recs == front + [r];
      RunRecordsMore(m, front, r, init, cfg);
      WordRuns(RunRecords(m, front, init, cfg), r, init, cfg, c);
      RunGrows(RunRecords(m, front, init, cfg), Full(r, init, cfg));
      SaysOver(front, [r], init, cfg, c);
      SaysOne(r, init, cfg, c);
    }
  }

  lemma NothingSaid(init: Memory, cfg: Config, c: Cell)
    ensures Says([], init, cfg, c).None?
  {
  }

  lemma {:induction false} ReplayRuns(init: Memory, recs: seq<Record>, cfg: Config)
    requires Keyed(init)
    ensures Replay(init, recs, cfg) == RunRecords(init, recs, init, cfg)
    decreases |recs|
  {
    hide Run, Keyed, Full;
    if recs != [] {
      var front, r := recs[..|recs| - 1], recs[|recs| - 1];
      ReplayRuns(init, front, cfg);
      assert recs == front + [r];
      ReplayMore(init, front, r, cfg);
    }
  }

  /** Processed one after the other from the start, too. */
  lemma ReplaySays(init: Memory, recs: seq<Record>, cfg: Config, c: Cell)
    requires Keyed(init)
    ensures Get(Replay(init, recs, cfg), c) ==
              if Says(recs, init, cfg, c).None? || (Fixed(c) && Get(init, c).Some?) then Get(init, c) else Says(recs, init, cfg, c)
  {
    hide Get, Keyed, Says, Replay, RunRecords;
    ReplayRuns(init, recs, cfg);
    RecordsLeave(init, recs, init, cfg, c);
  }

  // ---------- who says it ----------

  /** The record whose word counts: nobody before it names the cell, nobody after it
      writes the property. */
  ghost predicate Speaks(recs: seq<Record>, i: nat, init: Memory, cfg: Config, c: Cell) {
    && i < |recs| && Word(recs[i], init, cfg, c).Some?
    && Says(if Fixed(c) then recs[..i] else recs[i + 1..], init, cfg, c).None?
  }

  lemma SpeaksFirst(recs: seq<Record>, init: Memory, cfg: Config, c: Cell)
    requires recs != [] && Word(recs[0], init, cfg, c).Some? && (Fixed(c) || Says(recs[1..], init, cfg, c).None?)
    ensures Speaks(recs, 0, init, cfg, c) && Says(recs, init, cfg, c) == Word(recs[0], init, cfg, c)
  {
    hide Word;
    assert recs[..0] == [];
  }

  lemma SpeaksLater(recs: seq<Record>, j: nat, init: Memory, cfg: Config, c: Cell)
    requires recs != [] && Speaks(recs[1..], j, init, cfg, c)
    requires Word(recs[0], init, cfg, c).None? || (!Fixed(c) && Says(recs[1..], init, cfg, c).Some?)
    ensures Speaks(recs, j + 1, init, cfg, c) && Says(recs, init, cfg, c) == Says(recs[1..], init, cfg, c)
  {
    hide Word, Says;
    assert recs[..j + 1] == [recs[0]] + recs[1..][..j] && recs[1..][j + 1..] == recs[j + 2..];
    assert recs == [recs[0]] + recs[1..];
    SaysOver([recs[0]], recs[1..][..j], init, cfg, c);
    SaysOver([recs[0]], recs[1..], init, cfg, c);
    SaysOne(recs[0], init, cfg, c);
  }

  lemma SaysStep(recs: seq<Record>, init: Memory, cfg: Config, c: Cell)
    ensures Says(recs, init, cfg, c) ==
              if recs == [] then None
              else if Word(recs[0], init, cfg, c).Some? && (Fixed(c) || Says(recs[1..], init, cfg, c).None?) then Word(recs[0], init, cfg, c)
              else Says(recs[1..], init, cfg, c)
  {
    hide Word;
  }

  lemma {:induction false} SomeoneSpeaks(recs: seq<Record>, init: Memory, cfg: Config, c: Cell)
    requires Says(recs, init, cfg, c).Some?
    ensures exists i: nat :: Speaks(recs, i, init, cfg, c)
    decreases |recs|
  {
    hide Word, Says, Speaks;
    SaysStep(recs, init, cfg, c);
    if Word(recs[0], init, cfg, c).Some? && (Fixed(c) || Says(recs[1..], init, cfg, c).None?) {
      SpeaksFirst(recs, init, cfg, c);
    } else {
      SomeoneSpeaks(recs[1..], init, cfg, c);
      var j: nat :| Speaks(recs[1..], j, init, cfg, c);
      SpeaksLater(recs, j, init, cfg, c);
    }
  }

  ghost function Speaker(recs: seq<Record>, init: Memory, cfg: Config, c: Cell): (i: nat)
    requires Says(recs, init, cfg, c).Some?
    ensures Speaks(recs, i, init, cfg, c)
  {
    hide Word, Says, Speaks;
    SomeoneSpeaks(recs, init, cfg, c);
    var i: nat :| Speaks(recs, i, init, cfg, c);
    i
  }

  /** Whoever speaks is heard, and is the only one. */
  lemma SpeakerIs(recs: seq<Record>, i: nat, init: Memory, cfg: Config, c: Cell)
    requires Speaks(recs, i, init, cfg, c)
    ensures Says(recs, init, cfg, c) == Word(recs[i], init, cfg, c) && Speaker(recs, init, cfg, c) == i
  {
    hide Word, Says;
    Heard(recs, i, init, cfg, c);
    var j := Speaker(recs, init, cfg, c);
    if i < j { LoneSpeaker(recs, i, j, init, cfg, c); }
    if j < i { LoneSpeaker(recs, j, i, init, cfg, c); }
  }

  lemma Heard(recs: seq<Record>, i: nat, init: Memory, cfg: Config, c: Cell)
    requires Speaks(recs, i, init, cfg, c)
    ensures Says(recs, init, cfg, c) == Word(recs[i], init, cfg, c)
  {
    hide Word, Says;
    assert recs == recs[..i] + ([recs[i]] + recs[i + 1..]);
    SaysOver(recs[..i], [recs[i]] + recs[i + 1..], init, cfg, c);
    SaysOver([recs[i]], recs[i + 1..], init, cfg, c);
    SaysOne(recs[i], init, cfg, c);
  }

  lemma LoneSpeaker(recs: seq<Record>, i: nat, j: nat, init: Memory, cfg: Config, c: Cell)
    requires i < j < |recs| && Word(recs[i], init, cfg, c).Some? && Word(recs[j], init, cfg, c).Some?
    ensures !Speaks(recs, if Fixed(c) then j else i, init, cfg, c)
  {
    hide Word, Says;
    Spoken(recs[..j], i, init, cfg, c);
    assert recs[i + 1..][j - i - 1] == recs[j];
    Spoken(recs[i + 1..], j - i - 1, init, cfg, c);
  }

  /** If any record has a word for the cell, the list does. */
  lemma {:induction false} Spoken(recs: seq<Record>, i: nat, init: Memory, cfg: Config, c: Cell)
    requires i < |recs| && Word(recs[i], init, cfg, c).Some?
    ensures Says(recs, init, cfg, c).Some?
    decreases |recs|
  {
    hide Word;
    if i > 0 { Spoken(recs[1..], i - 1, init, cfg, c); }
  }

  /** Cutting records off: what is left says the same while the speaker is there, and
      nothing of a property once it is gone. */
  lemma RestSays(recs: seq<Record>, k: nat, init: Memory, cfg: Config, c: Cell)
    requires k <= |recs| && Says(recs, init, cfg, c).Some?
    ensures k <= Speaker(recs, init, cfg, c) ==> Says(recs[k..], init, cfg, c) == Says(recs, init, cfg, c)
    ensures k > Speaker(recs, init, cfg, c) && !Fixed(c) ==> Says(recs[k..], init, cfg, c).None?
    ensures k <= Speaker(recs, init, cfg, c) && Fixed(c) ==> Says(recs[..k], init, cfg, c).None?
    ensures k > Speaker(recs, init, cfg, c) ==> Says(recs[..k], init, cfg, c).Some?
  {
    hide Word, Says;
    var i := Speaker(recs, init, cfg, c);
    assert recs == recs[..k] + recs[k..];
    SaysOver(recs[..k], recs[k..], init, cfg, c);
    if k <= i {
      assert recs[..i] == recs[..k] + recs[k..i];
      SaysOver(recs[..k], recs[k..i], init, cfg, c);
      assert recs[k..][i - k] == recs[i];
      Spoken(recs[k..], i - k, init, cfg, c);
    } else {
      assert recs[..k][i] == recs[i];
      Spoken(recs[..k], i, init, cfg, c);
      assert recs[i + 1..] == recs[i + 1..k] + recs[k..];
      SaysOver(recs[i + 1..k], recs[k..], init, cfg, c);
    }
  }

  // ---------- topic-partitions ----------

  lemma {:induction false} DoneOfOver(a: seq<Record>, b: seq<Record>, tp: TopicPartition)
    ensures DoneOf(a + b, tp) == DoneOf(a, tp) + DoneOf(b, tp)
    decreases |b|
  {
    if b == [] {
      assert a + b == a;
    } else {
      var front, last := b[..|b| - 1], b[|b| - 1];
      assert (a + b)[..|a + b| - 1] == a + front;
      DoneOfOver(a, front, tp);
    }
  }

  lemma DoneOfOne(r: Record, tp: TopicPartition)
    ensures DoneOf([r], tp) == if r.Tp() == tp then [r] else []
  {
    assert [r][..0] == [];
  }

  /** Whatever a list says, the records of one of its topic-partitions say. */
  lemma {:induction false} SaidByOne(recs: seq<Record>, init: Memory, cfg: Config, c: Cell) returns (tp: TopicPartition)
    requires Says(recs, init, cfg, c).Some?
    ensures Says(DoneOf(recs, tp), init, cfg, c) == Says(recs, init, cfg, c)
    decreases |recs|
  {
    hide Word, DoneOf;
    var r, rest := recs[0], recs[1..];
    assert recs == [r] + rest;
    if Word(r, init, cfg, c).Some? && (Fixed(c) || Says(rest, init, cfg, c).None?) {
      tp := r.Tp();
      if Says(rest, init, cfg, c).None? { SaidByNone(rest, tp, init, cfg, c); }
    } else {
      tp := SaidByOne(rest, init, cfg, c);
    }
    DoneOfOver([r], rest, tp);
    DoneOfOne(r, tp);
    SaysOver(DoneOf([r], tp), DoneOf(rest, tp), init, cfg, c);
    SaysOne(r, init, cfg, c);
    NothingSaid(init, cfg, c);
  }

  lemma {:induction false} SaidByNone(recs: seq<Record>, tp: TopicPartition, init: Memory, cfg: Config, c: Cell)
    requires Says(recs, init, cfg, c).None?
    ensures Says(DoneOf(recs, tp), init, cfg, c).None?
    decreases |recs|
  {
    hide Word, DoneOf;
    if recs == [] {
      assert DoneOf([], tp) == [] by { NoneDone(tp); }
    } else {
      var r, rest := recs[0], recs[1..];
      assert recs == [r] + rest;
      SaidByNone(rest, tp, init, cfg, c);
      DoneOfOver([r], rest, tp);
      DoneOfOne(r, tp);
      SaysOver(DoneOf([r], tp), DoneOf(rest, tp), init, cfg, c);
      SaysOne(r, init, cfg, c);
      NothingSaid(init, cfg, c);
    }
  }

  lemma NoneDone(tp: TopicPartition)
    ensures DoneOf([], tp) == []
  {
  }
}
