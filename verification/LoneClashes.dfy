/** When every run is explained by some order of the records, whatever the number of
    topic-partitions: if no record that first gives a clashing name has another clashing word.
    The order is that in which records give such a name or, without one, finish. */
module LoneClashes {
  import opened Results
  import opened PropertyGraph
  import opened Envelopes
  import opened Upserts
  import opened RecordEffects
  import opened Checkpoints
  import opened IngestSystem
  import opened Progress
  import opened Settled
  import opened Runs
  import opened Sayings
  import opened Naming
  import opened ExactlyOnce
  import opened Orders

  // ---------- clashes ----------

  /** Two topic-partitions write the cell, which is no record's of the initial graph,
      differently. */
  ghost predicate Clashing(init: Memory, logs: Logs, cfg: Config, c: Cell) {
    && (Fixed(c) ==> Get(init, c).None?)
    && exists p, q :: !SameName(Voice(init, logs, p, cfg, c), Voice(init, logs, q, cfg, c))
  }

  /** The n-th record of the topic-partition speaks for the cell. */
  ghost predicate SpeaksFor(init: Memory, logs: Logs, tp: TopicPartition, n: nat, cfg: Config, c: Cell) {
    Speaks(Live(init, logs, tp, cfg), n, init, cfg, c)
  }

  /** Whoever speaks for a clashing name speaks for no other clashing cell. */
  ghost predicate Lone(init: Memory, logs: Logs, cfg: Config) {
    forall tp, n, c, d | Clashing(init, logs, cfg, c) && Clashing(init, logs, cfg, d) && Fixed(c) && c != d ::
      !(SpeaksFor(init, logs, tp, n, cfg, c) && SpeaksFor(init, logs, tp, n, cfg, d))
  }

  // ---------- speakers ----------

  /** The record speaks for the cell in its topic-partition. */
  ghost predicate IsSpeaker(r: Record, init: Memory, all: Logs, cfg: Config, d: Cell) {
    exists n: nat :: SpeaksFor(init, all, r.Tp(), n, cfg, d) && Live(init, all, r.Tp(), cfg)[n] == r
  }

  ghost function SpeakersOf(recs: seq<Record>, init: Memory, all: Logs, cfg: Config, d: Cell): seq<Record> {
    if recs == [] then []
    else SpeakersOf(recs[..|recs| - 1], init, all, cfg, d) + if IsSpeaker(recs[|recs| - 1], init, all, cfg, d) then [recs[|recs| - 1]] else []
  }

  lemma SpeakersMore(recs: seq<Record>, r: Record, init: Memory, all: Logs, cfg: Config, d: Cell)
    ensures SpeakersOf(recs + [r], init, all, cfg, d) ==
              SpeakersOf(recs, init, all, cfg, d) + if IsSpeaker(r, init, all, cfg, d) then [r] else []
  {
    hide IsSpeaker;
    assert (recs + [r])[..|recs|] == recs;
  }

  lemma {:induction false} SpeakersOver(a: seq<Record>, b: seq<Record>, init: Memory, all: Logs, cfg: Config, d: Cell)
    ensures SpeakersOf(a + b, init, all, cfg, d) == SpeakersOf(a, init, all, cfg, d) + SpeakersOf(b, init, all, cfg, d)
    decreases |b|
  {
    hide IsSpeaker;
    if b == [] {
      assert a + b == a;
    } else {
      var front, last := b[..|b| - 1], b[|b| - 1];
      SpeakersOver(a, front, init, all, cfg, d);
      SpeakersMore(a + front, last, init, all, cfg, d);
      assert a + front + [last] == a + b;
    }
  }

  lemma {:induction false} SpeakersSilent(recs: seq<Record>, init: Memory, all: Logs, cfg: Config, d: Cell)
    requires Says(recs, init, cfg, d).None?
    ensures Says(SpeakersOf(recs, init, all, cfg, d), init, cfg, d).None?
    decreases |recs|
  {
    hide IsSpeaker, Word, Says;
    NothingSaid(init, cfg, d);
    if recs != [] {
      var front, last := recs[..|recs| - 1], recs[|recs| - 1];
      assert recs == front + [last];
      SaysOver(front, [last], init, cfg, d);
      SpeakersSilent(front, init, all, cfg, d);
      var before := SpeakersOf(front, init, all, cfg, d);
      SaysOver(before, [last], init, cfg, d);
      assert before + [] == before;
    }
  }

  /** Of a property an order says what its speakers say, in their order. */
  lemma SpeakersSay(order: seq<Record>, init: Memory, all: Logs, cfg: Config, d: Cell)
    requires Respects(order, init, all, cfg) && !Fixed(d)
    ensures Says(order, init, cfg, d) == Says(SpeakersOf(order, init, all, cfg, d), init, cfg, d)
  {
    hide Word, Says, SpeakersOf, DoneOf, Live;
    if Says(order, init, cfg, d).None? {
      SpeakersSilent(order, init, all, cfg, d);
    } else {
      var i := Speaker(order, init, cfg, d);
      var first, r, rest := order[..i], order[i], order[i + 1..];
      SpeakerIs(order, i, init, cfg, d);
      LastIsSpeaker(order, i, init, all, cfg, d);
      assert order == first + [r] + rest;
      SpeakersOver(first + [r], rest, init, all, cfg, d);
      SpeakersMore(first, r, init, all, cfg, d);
      SpeakersSilent(rest, init, all, cfg, d);
      var front := SpeakersOf(first, init, all, cfg, d);
      SaysOver(front + [r], SpeakersOf(rest, init, all, cfg, d), init, cfg, d);
      SaysOver(front, [r], init, cfg, d);
      SaysOne(r, init, cfg, d);
    }
  }

  lemma LastIsSpeaker(order: seq<Record>, i: nat, init: Memory, all: Logs, cfg: Config, d: Cell)
    requires Respects(order, init, all, cfg) && !Fixed(d) && Speaks(order, i, init, cfg, d)
    ensures IsSpeaker(order[i], init, all, cfg, d)
  {
    hide Word, Says, DoneOf, Live;
    var first, r, rest := order[..i], order[i], order[i + 1..];
    var tp := r.Tp();
    assert order == first + [r] + rest && DoneOf(order, tp) == Live(init, all, tp, cfg);
    DoneOfOver(first + [r], rest, tp);
    DoneOfOver(first, [r], tp);
    DoneOfOne(r, tp);
    SaidByNone(rest, tp, init, cfg, d);
    var live, n := Live(init, all, tp, cfg), |DoneOf(first, tp)|;
    assert live[n + 1..] == DoneOf(rest, tp);
    assert SpeaksFor(init, all, tp, n, cfg, d) && live[n] == r;
  }

  // ---------- the order ----------

  /** The next record of the topic-partition has given its clashing name. */
  ghost predicate Early(init: Memory, all: Logs, s: System, tp: TopicPartition, cfg: Config, c: Cell) {
    Clashing(init, all, cfg, c) && Fixed(c) && SpeaksFor(init, all, tp, |DoneOf(s.done, tp)|, cfg, c) && Get(s.mem, c).Some?
  }

  /** The order has the topic-partition's finished records, and the next one if it is early. */
  ghost predicate Ahead(init: Memory, all: Logs, s: System, order: seq<Record>, tp: TopicPartition, cfg: Config) {
    var live, n, k := Live(init, all, tp, cfg), |DoneOf(s.done, tp)|, |DoneOf(order, tp)|;
    && k <= |live| && DoneOf(order, tp) == live[..k]
    && (k == n || (k == n + 1 && exists c :: Early(init, all, s, tp, cfg, c)))
  }

  ghost predicate NamesInOrder(init: Memory, all: Logs, s: System, order: seq<Record>, cfg: Config) {
    forall c | Clashing(init, all, cfg, c) && Fixed(c) :: Get(s.mem, c) == Says(order, init, cfg, c)
  }

  ghost predicate ValuesInOrder(init: Memory, all: Logs, s: System, order: seq<Record>, cfg: Config) {
    forall d | Clashing(init, all, cfg, d) && !Fixed(d) :: SpeakersOf(order, init, all, cfg, d) == SpeakersOf(s.done, init, all, cfg, d)
  }

  ghost predicate Ordered(init: Memory, all: Logs, s: System, order: seq<Record>, cfg: Config) {
    && (forall tp :: Ahead(init, all, s, order, tp, cfg))
    && NamesInOrder(init, all, s, order, cfg) && ValuesInOrder(init, all, s, order, cfg)
  }

  // ---------- every step ----------

  /** What a list says with one record more. */
  lemma SaysMore(recs: seq<Record>, r: Record, init: Memory, cfg: Config, c: Cell)
    ensures var x, y := Says(recs, init, cfg, c), Word(r, init, cfg, c);
            Says(recs + [r], init, cfg, c) == if x.Some? && (Fixed(c) || y.None?) then x else y
  {
    hide Word, Says;
    SaysOver(recs, [r], init, cfg, c);
    SaysOne(r, init, cfg, c);
  }

  /** The record being written is the next of its topic-partition; its step gives at most
      one name. */
  lemma Writing(init: Memory, all: Logs, s: System, cfg: Config)
    requires InOrder(init, s, cfg) && Enabled(s, Write, cfg) && Within(s.logs, all)
    ensures var live, n, r := Live(init, all, s.work.tp, cfg), |DoneOf(s.done, s.work.tp)|, s.work.batch[0];
            r.Tp() == s.work.tp && n < |live| && live[n] == r && live[..n] == DoneOf(s.done, s.work.tp)
    ensures Do(s, Write, cfg).done == if |s.work.todo| == 1 then s.done + [s.work.batch[0]] else s.done
    ensures forall c, d | Fixed(c) && Fixed(d) && c != d && Get(s.mem, c).None? && Get(s.mem, d).None? ::
              Get(Do(s, Write, cfg).mem, c).None? || Get(Do(s, Write, cfg).mem, d).None?
  {
    hide InOrder, Live, DoneOf, Within, Full, Waiting, CheckpointAt, Get, Apply, Keyed;
    NextOfItsPartition(init, s, all, cfg);
    BatchRecord(init, s, cfg);
    StaysKeyed(init, s, cfg);
    forall c, d | Fixed(c) && Fixed(d) && c != d && Get(s.mem, c).None? && Get(s.mem, d).None?
      ensures Get(Do(s, Write, cfg).mem, c).None? || Get(Do(s, Write, cfg).mem, d).None?
    {
      ApplyCell(s.mem, s.work.todo[0], c);
      ApplyCell(s.mem, s.work.todo[0], d);
      WritesOneName(s.work.todo[0], c, d);
    }
  }

  lemma WritesOneName(u: Upsert, c: Cell, d: Cell)
    requires Fixed(c) && Fixed(d) && c != d
    ensures !Writes(u, c) || !Writes(u, d)
  {
  }

  /** A name that nobody gave yet is given next by the record, or not by it. */
  lemma SpeaksNext(init: Memory, all: Logs, s: System, c: Cell, cfg: Config)
    requires Kept(init, s, cfg) && Enabled(s, Write, cfg) && Within(s.logs, all) && Fixed(c) && Get(s.mem, c).None?
    ensures Word(s.work.batch[0], init, cfg, c).Some? ==> SpeaksFor(init, all, s.work.tp, |DoneOf(s.done, s.work.tp)|, cfg, c)
  {
    hide InOrder, PropsClean, Written, Grown, Keyed, Live, DoneOf, Within, Get, Says, Word, Do;
    Writing(init, all, s, cfg);
    NotYet(init, s, s.work.tp, c, cfg);
  }

  /** The clashing name the step gives, if it gives one. */
  ghost predicate Gives(init: Memory, all: Logs, s: System, cfg: Config, c: Cell)
    requires Enabled(s, Write, cfg)
  {
    Clashing(init, all, cfg, c) && Fixed(c) && Get(s.mem, c).None? && Get(Do(s, Write, cfg).mem, c).Some?
  }

  /** A record that is early has no other clashing word. */
  lemma EarlyIsLone(init: Memory, all: Logs, s: System, tp: TopicPartition, cfg: Config, c: Cell, d: Cell)
    requires Lone(init, all, cfg) && LogsFit(all) && Early(init, all, s, tp, cfg, c) && Clashing(init, all, cfg, d) && c != d
    ensures !SpeaksFor(init, all, tp, |DoneOf(s.done, tp)|, cfg, d)
    ensures !Fixed(d) ==> !IsSpeaker(Live(init, all, tp, cfg)[|DoneOf(s.done, tp)|], init, all, cfg, d)
  {
    hide Clashing, LogsFit, DoneOf, Live, Speaks, Get;
    OneWordOnly(init, all, tp, |DoneOf(s.done, tp)|, cfg, c, d);
  }

  lemma OneWordOnly(init: Memory, all: Logs, tp: TopicPartition, n: nat, cfg: Config, c: Cell, d: Cell)
    requires Lone(init, all, cfg) && LogsFit(all) && Clashing(init, all, cfg, c) && Clashing(init, all, cfg, d) && Fixed(c) && c != d
    requires SpeaksFor(init, all, tp, n, cfg, c)
    ensures !SpeaksFor(init, all, tp, n, cfg, d) && n < |Live(init, all, tp, cfg)| && !IsSpeaker(Live(init, all, tp, cfg)[n], init, all, cfg, d)
  {
    hide Clashing, LogsFit, Live, Says, Word;
    var live := Live(init, all, tp, cfg);
    LiveDistinct(init, all, tp, cfg);
    forall k: nat | SpeaksFor(init, all, tp, k, cfg, d) ensures live[k] != live[n] {
      assert live[k] == live[n] ==> k == n;
    }
  }

  lemma LiveDistinct(init: Memory, all: Logs, tp: TopicPartition, cfg: Config)
    requires LogsFit(all)
    ensures var live := Live(init, all, tp, cfg);
            && (forall i | 0 <= i < |live| :: live[i].Tp() == tp)
            && forall i, j | 0 <= i < |live| && 0 <= j < |live| && live[i] == live[j] :: i == j
  {
    hide CheckpointAt, Below, Increasing, Waiting;
    var checkpoint := CheckpointAt(init, cfg.namespace, tp);
    if tp in all {
      assert LogFits(all[tp], tp);
      WaitingDistinct(all[tp], checkpoint, tp);
    } else {
      WaitingDistinct([], checkpoint, tp);
    }
  }

  lemma WaitingDistinct(log: seq<Record>, checkpoint: Option<int>, tp: TopicPartition)
    requires log == [] || LogFits(log, tp)
    ensures var live := Waiting(log, checkpoint);
            && (forall i | 0 <= i < |live| :: live[i].Tp() == tp)
            && forall i, j | 0 <= i < |live| && 0 <= j < |live| && live[i] == live[j] :: i == j
  {
    hide Below;
    if checkpoint.Some? && log != [] { DropDistinct(log, Below(log, checkpoint.value), tp); }
  }

  lemma DropDistinct(log: seq<Record>, k: nat, tp: TopicPartition)
    requires LogFits(log, tp) && k <= |log|
    ensures forall i | 0 <= i < |log[k..]| :: log[k..][i].Tp() == tp
    ensures forall i, j | 0 <= i < |log[k..]| && 0 <= j < |log[k..]| && log[k..][i] == log[k..][j] :: i == j
  {
    forall i | 0 <= i < |log| - k ensures log[k..][i] == log[k + i] && log[k + i] in log {}
  }

  // ---------- the topic-partitions ----------

  /** A name given is given by the record's own word. */
  lemma GivenWord(init: Memory, all: Logs, s: System, cfg: Config, c: Cell)
    requires Kept(init, s, cfg) && Enabled(s, Write, cfg) && Within(s.logs, all) && Gives(init, all, s, cfg, c)
    ensures SpeaksFor(init, all, s.work.tp, |DoneOf(s.done, s.work.tp)|, cfg, c)
    ensures Get(Do(s, Write, cfg).mem, c) == Word(s.work.batch[0], init, cfg, c)
  {
    hide Kept, Live, DoneOf, Within, Get, Speaks, Word, Do, Clashing, Full, WritesAny, CheckpointAt, Waiting, CanAppend;
    NamerSpeaks(init, s, c, all, cfg);
  }

  ghost predicate StepOk(init: Memory, all: Logs, s: System, order: seq<Record>, cfg: Config) {
    Kept(init, s, cfg) && Enabled(s, Write, cfg) && Within(s.logs, all) && LogsFit(all) && Lone(init, all, cfg) && Ordered(init, all, s, order, cfg)
  }

  lemma AheadOther(init: Memory, all: Logs, s: System, order: seq<Record>, next: seq<Record>, tp: TopicPartition, cfg: Config)
    requires StepOk(init, all, s, order, cfg) && tp != s.work.tp && (next == order || next == order + [s.work.batch[0]])
    ensures Ahead(init, all, Do(s, Write, cfg), next, tp, cfg)
  {
    hide InOrder, PropsClean, Written, Grown, Keyed, Live, DoneOf, Within, Get, Do, CanAppend, CheckpointAt, Clashing, LogsFit, Lone, NamesInOrder, ValuesInOrder, SpeaksFor;
    var r, t := s.work.batch[0], Do(s, Write, cfg);
    Writing(init, all, s, cfg);
    DoneMore(s.done, r, tp);
    DoneMore(order, r, tp);
    assert Ahead(init, all, s, order, tp, cfg);
    if c :| Early(init, all, s, tp, cfg, c) {
      StepNames(init, s, Write, c, cfg);
      assert Early(init, all, t, tp, cfg, c);
    }
  }

  lemma AheadGiven(init: Memory, all: Logs, s: System, order: seq<Record>, c: Cell, cfg: Config)
    requires StepOk(init, all, s, order, cfg) && Gives(init, all, s, cfg, c)
    ensures Ahead(init, all, Do(s, Write, cfg), order + [s.work.batch[0]], s.work.tp, cfg)
  {
    hide Kept, Live, DoneOf, Within, Get, Do, CanAppend, CheckpointAt, Clashing, LogsFit, Lone, NamesInOrder, ValuesInOrder, SpeaksFor, Ahead;
    var r, t, tp := s.work.batch[0], Do(s, Write, cfg), s.work.tp;
    NextFinishes(init, all, s, order, cfg);
    GivenWord(init, all, s, cfg, c);
    NotAheadYet(init, all, s, order, c, cfg);
    if |s.work.todo| != 1 { assert Early(init, all, t, tp, cfg, c); }
    AheadByOne(init, all, t, order + [r], tp, cfg, c);
  }

  lemma AheadByOne(init: Memory, all: Logs, s: System, order: seq<Record>, tp: TopicPartition, cfg: Config, c: Cell)
    requires var live, n, k := Live(init, all, tp, cfg), |DoneOf(s.done, tp)|, |DoneOf(order, tp)|;
             k <= |live| && DoneOf(order, tp) == live[..k] && (k == n || (k == n + 1 && Early(init, all, s, tp, cfg, c)))
    ensures Ahead(init, all, s, order, tp, cfg)
  {
    hide Live, DoneOf, Early;
  }

  lemma NotAheadYet(init: Memory, all: Logs, s: System, order: seq<Record>, c: Cell, cfg: Config)
    requires StepOk(init, all, s, order, cfg) && Gives(init, all, s, cfg, c)
    ensures |DoneOf(order, s.work.tp)| == |DoneOf(s.done, s.work.tp)|
  {
    hide Kept, Live, DoneOf, Within, Get, Do, CanAppend, CheckpointAt, Clashing, LogsFit, Lone, NamesInOrder, ValuesInOrder, SpeaksFor;
    var tp := s.work.tp;
    GivenWord(init, all, s, cfg, c);
    assert Ahead(init, all, s, order, tp, cfg);
    if e :| Early(init, all, s, tp, cfg, e) { EarlyIsLone(init, all, s, tp, cfg, e, c); }
  }

  /** Where the order is not ahead, the record is the next of both. */
  lemma NextFinishes(init: Memory, all: Logs, s: System, order: seq<Record>, cfg: Config)
    requires StepOk(init, all, s, order, cfg)
    ensures var live, tp, n := Live(init, all, s.work.tp, cfg), s.work.tp, |DoneOf(s.done, s.work.tp)|;
            && n < |live|
            && DoneOf(Do(s, Write, cfg).done, tp) == (if |s.work.todo| == 1 then live[..n + 1] else live[..n])
            && (|DoneOf(order, tp)| == n ==> DoneOf(order + [s.work.batch[0]], tp) == live[..n + 1])
  {
    hide InOrder, PropsClean, Written, Grown, Keyed, Live, DoneOf, Within, Get, Do, CanAppend, CheckpointAt, Clashing, LogsFit, Lone, NamesInOrder, ValuesInOrder, Early;
    var r, tp := s.work.batch[0], s.work.tp;
    Writing(init, all, s, cfg);
    DoneMore(s.done, r, tp);
    DoneMore(order, r, tp);
    assert Ahead(init, all, s, order, tp, cfg);
    var live, n := Live(init, all, tp, cfg), |DoneOf(s.done, tp)|;
    assert live[..n] + [r] == live[..n + 1];
  }

  /** The order after a step that gives no name: the record, once it is finished, if it was
      not there. */
  ghost function NextOrder(s: System, order: seq<Record>): seq<Record>
    requires s.work.Busy? && s.work.batch != []
  {
    var tp := s.work.tp;
    if |s.work.todo| == 1 && |DoneOf(order, tp)| == |DoneOf(s.done, tp)| then order + [s.work.batch[0]] else order
  }

  lemma AheadOwn(init: Memory, all: Logs, s: System, order: seq<Record>, cfg: Config)
    requires StepOk(init, all, s, order, cfg)
    ensures Ahead(init, all, Do(s, Write, cfg), NextOrder(s, order), s.work.tp, cfg)
  {
    hide InOrder, PropsClean, Written, Grown, Keyed, Live, DoneOf, Within, Get, Do, CanAppend, CheckpointAt, Clashing, LogsFit, Lone, NamesInOrder, ValuesInOrder, SpeaksFor;
    var r, t, tp := s.work.batch[0], Do(s, Write, cfg), s.work.tp;
    var live, n := Live(init, all, tp, cfg), |DoneOf(s.done, tp)|;
    Writing(init, all, s, cfg);
    DoneMore(s.done, r, tp);
    DoneMore(order, r, tp);
    assert Ahead(init, all, s, order, tp, cfg);
    assert live[..n] + [r] == live[..n + 1];
    if |s.work.todo| != 1 {
      if c :| Early(init, all, s, tp, cfg, c) {
        StepNames(init, s, Write, c, cfg);
        assert Early(init, all, t, tp, cfg, c);
      }
    }
  }

  // ---------- names ----------

  lemma NamesGiven(init: Memory, all: Logs, s: System, order: seq<Record>, c: Cell, cfg: Config)
    requires StepOk(init, all, s, order, cfg) && Gives(init, all, s, cfg, c)
    ensures NamesInOrder(init, all, Do(s, Write, cfg), order + [s.work.batch[0]], cfg)
  {
    hide InOrder, PropsClean, Written, Grown, Keyed, Live, DoneOf, Within, Get, Says, Word, Do, CanAppend, CheckpointAt, Clashing, LogsFit, Ahead, ValuesInOrder, SpeaksFor;
    var r, t := s.work.batch[0], Do(s, Write, cfg);
    Writing(init, all, s, cfg);
    GivenWord(init, all, s, cfg, c);
    forall e | Clashing(init, all, cfg, e) && Fixed(e) ensures Get(t.mem, e) == Says(order + [r], init, cfg, e) {
      SaysMore(order, r, init, cfg, e);
      StepNames(init, s, Write, e, cfg);
      if e != c && Get(s.mem, e).None? { SpeaksNext(init, all, s, e, cfg); }
    }
  }

  lemma NamesStay(init: Memory, all: Logs, s: System, order: seq<Record>, cfg: Config)
    requires StepOk(init, all, s, order, cfg) && forall c :: !Gives(init, all, s, cfg, c)
    ensures NamesInOrder(init, all, Do(s, Write, cfg), NextOrder(s, order), cfg)
  {
    hide InOrder, PropsClean, Grown, Keyed, Live, DoneOf, Within, Get, Says, Word, Do, CanAppend, CheckpointAt, Clashing, LogsFit, Ahead, ValuesInOrder, Full, WritesAny;
    var r, t := s.work.batch[0], Do(s, Write, cfg);
    Writing(init, all, s, cfg);
    StepKeepsKept(init, s, Write, cfg);
    forall e | Clashing(init, all, cfg, e) && Fixed(e) ensures Get(t.mem, e) == Says(NextOrder(s, order), init, cfg, e) {
      SaysMore(order, r, init, cfg, e);
      StepNames(init, s, Write, e, cfg);
      WordWrites(r, init, cfg, e);
      assert !Gives(init, all, s, cfg, e);
    }
  }

  // ---------- values ----------

  lemma ValuesGiven(init: Memory, all: Logs, s: System, order: seq<Record>, c: Cell, cfg: Config)
    requires StepOk(init, all, s, order, cfg) && Gives(init, all, s, cfg, c)
    ensures ValuesInOrder(init, all, Do(s, Write, cfg), order + [s.work.batch[0]], cfg)
  {
    hide InOrder, PropsClean, Written, Grown, Keyed, Live, DoneOf, Within, Get, Do, CanAppend, CheckpointAt, Clashing, LogsFit, Ahead, NamesInOrder, SpeaksFor, SpeakersOf, IsSpeaker, Lone;
    var r, t, tp := s.work.batch[0], Do(s, Write, cfg), s.work.tp;
    Writing(init, all, s, cfg);
    GivenWord(init, all, s, cfg, c);
    forall d | Clashing(init, all, cfg, d) && !Fixed(d)
      ensures SpeakersOf(order + [r], init, all, cfg, d) == SpeakersOf(t.done, init, all, cfg, d)
    {
      OneWordOnly(init, all, tp, |DoneOf(s.done, tp)|, cfg, c, d);
      SpeakersMore(order, r, init, all, cfg, d);
      SpeakersMore(s.done, r, init, all, cfg, d);
    }
  }

  lemma ValuesStay(init: Memory, all: Logs, s: System, order: seq<Record>, cfg: Config)
    requires StepOk(init, all, s, order, cfg)
    ensures ValuesInOrder(init, all, Do(s, Write, cfg), NextOrder(s, order), cfg)
  {
    hide InOrder, PropsClean, Written, Grown, Keyed, Live, DoneOf, Within, Get, Do, CanAppend, CheckpointAt, Clashing, LogsFit, NamesInOrder, SpeaksFor, SpeakersOf, IsSpeaker, Lone;
    var r, t, tp := s.work.batch[0], Do(s, Write, cfg), s.work.tp;
    Writing(init, all, s, cfg);
    assert Ahead(init, all, s, order, tp, cfg);
    forall d | Clashing(init, all, cfg, d) && !Fixed(d)
      ensures SpeakersOf(NextOrder(s, order), init, all, cfg, d) == SpeakersOf(t.done, init, all, cfg, d)
    {
      SpeakersMore(order, r, init, all, cfg, d);
      SpeakersMore(s.done, r, init, all, cfg, d);
      if e :| Early(init, all, s, tp, cfg, e) { EarlyIsLone(init, all, s, tp, cfg, e, d); }
    }
  }

  // ---------- runs ----------

  lemma WriteOrders(init: Memory, all: Logs, s: System, order: seq<Record>, cfg: Config) returns (next: seq<Record>)
    requires StepOk(init, all, s, order, cfg)
    ensures Ordered(init, all, Do(s, Write, cfg), next, cfg)
  {
    hide Kept, Within, Do, CanAppend, CheckpointAt, LogsFit, Lone, NamesInOrder, ValuesInOrder, Ahead, Gives, NextOrder;
    var t := Do(s, Write, cfg);
    if c :| Gives(init, all, s, cfg, c) {
      next := order + [s.work.batch[0]];
      NamesGiven(init, all, s, order, c, cfg);
      ValuesGiven(init, all, s, order, c, cfg);
      AheadGiven(init, all, s, order, c, cfg);
    } else {
      next := NextOrder(s, order);
      NamesStay(init, all, s, order, cfg);
      ValuesStay(init, all, s, order, cfg);
      AheadOwn(init, all, s, order, cfg);
    }
    NextOrOld(s, order);
    forall tp ensures Ahead(init, all, t, next, tp, cfg) {
      if tp != s.work.tp { AheadOther(init, all, s, order, next, tp, cfg); }
    }
  }

  lemma NextOrOld(s: System, order: seq<Record>)
    requires s.work.Busy? && s.work.batch != []
    ensures NextOrder(s, order) == order || NextOrder(s, order) == order + [s.work.batch[0]]
  {
  }

  /** What is ordered depends on the graph and on what is finished. */
  lemma SameOrdered(init: Memory, all: Logs, s: System, t: System, order: seq<Record>, cfg: Config)
    requires Ordered(init, all, s, order, cfg) && t.mem == s.mem && t.done == s.done
    ensures Ordered(init, all, t, order, cfg)
  {
    hide Clashing, SpeaksFor, Get, Says, SpeakersOf, DoneOf, Live;
    forall tp ensures Ahead(init, all, t, order, tp, cfg) {
      assert Ahead(init, all, s, order, tp, cfg);
      if c :| Early(init, all, s, tp, cfg, c) { assert Early(init, all, t, tp, cfg, c); }
    }
  }

  lemma OnlyWritesWrite(s: System, e: Event, cfg: Config)
    requires Enabled(s, e, cfg) && !e.Write?
    ensures Do(s, e, cfg).mem == s.mem && Do(s, e, cfg).done == s.done
  {
    hide Full, Waiting, CheckpointAt, CanAppend;
  }

  /** Every run comes with such an order. */
  lemma {:induction false} RunOrders(s0: System, events: seq<Event>, s: System, all: Logs, cfg: Config) returns (order: seq<Record>)
    requires Initial(s0) && Leads(s0, events, s, cfg) && Within(s.logs, all) && LogsFit(all) && Lone(s0.mem, all, cfg)
    ensures Ordered(s0.mem, all, s, order, cfg)
    decreases |events|
  {
    hide Initial, Kept, Within, LogsFit, Lone, Ordered, Do, Enabled;
    if events == [] {
      NothingOrdered(s0, all, cfg);
      order := [];
    } else {
      var before, e := events[..|events| - 1], events[|events| - 1];
      var mid :| Leads(s0, before, mid, cfg) && Steps(mid, e, s, cfg);
      StepWithin(mid, e, all, cfg);
      order := RunOrders(s0, before, mid, all, cfg);
      RunKeepsKept(s0, before, mid, cfg);
      if e.Write? {
        order := WriteOrders(s0.mem, all, mid, order, cfg);
      } else {
        OnlyWritesWrite(mid, e, cfg);
        SameOrdered(s0.mem, all, mid, s, order, cfg);
      }
    }
  }

  lemma NothingOrdered(s0: System, all: Logs, cfg: Config)
    requires Initial(s0)
    ensures Ordered(s0.mem, all, s0, [], cfg)
  {
    hide Live, Get;
  }

  // ---------- explained ----------

  /** Where no two topic-partitions clash, any order says the same. */
  lemma SaidAlike(order: seq<Record>, init: Memory, all: Logs, cfg: Config, c: Cell, tp: TopicPartition)
    requires Respects(order, init, all, cfg) && !Clashing(init, all, cfg, c) && (Fixed(c) ==> Get(init, c).None?)
    ensures Voice(init, all, tp, cfg, c).Some? ==> Says(order, init, cfg, c) == Voice(init, all, tp, cfg, c)
    ensures (forall q :: Voice(init, all, q, cfg, c).None?) ==> Says(order, init, cfg, c).None?
  {
    hide Says, Get, Live, DoneOf;
    assert DoneOf(order, tp) == Live(init, all, tp, cfg);
    if Says(order, init, cfg, c).Some? {
      var q := SaidByOne(order, init, cfg, c);
      assert DoneOf(order, q) == Live(init, all, q, cfg);
      assert SameName(Voice(init, all, tp, cfg, c), Voice(init, all, q, cfg, c));
    } else {
      SaidByNone(order, tp, init, cfg, c);
    }
  }

  /** A drained run's order says what its graph holds. */
  lemma OrderShows(s0: System, events: seq<Event>, s: System, order: seq<Record>, c: Cell, cfg: Config)
    requires Initial(s0) && Leads(s0, events, s, cfg) && Drained(s, cfg) && (Fixed(c) ==> Get(s0.mem, c).None?)
    requires Respects(s.done, s0.mem, s.logs, cfg) && Respects(order, s0.mem, s.logs, cfg) && Ordered(s0.mem, s.logs, s, order, cfg)
    ensures Get(s.mem, c) == if Says(order, s0.mem, cfg, c).None? then Get(s0.mem, c) else Says(order, s0.mem, cfg, c)
  {
    hide Initial, Leads, Drained, Says, Get, Live, DoneOf, Respects, SpeakersOf, Clashing, Ahead;
    var init := s0.mem;
    if Clashing(init, s.logs, cfg, c) {
      if !Fixed(c) {
        FinalValue(s0, events, s, c, cfg);
        SpeakersSay(order, init, s.logs, cfg, c);
        SpeakersSay(s.done, init, s.logs, cfg, c);
      }
    } else if !Fixed(c) {
      FinalValue(s0, events, s, c, cfg);
      AlikeOrders(s.done, order, init, s.logs, cfg, c);
    } else {
      FinalName(s0, events, s, order, c, cfg);
    }
  }

  lemma AlikeOrders(a: seq<Record>, b: seq<Record>, init: Memory, all: Logs, cfg: Config, c: Cell)
    requires Respects(a, init, all, cfg) && Respects(b, init, all, cfg) && !Clashing(init, all, cfg, c) && (Fixed(c) ==> Get(init, c).None?)
    ensures Says(a, init, cfg, c) == Says(b, init, cfg, c)
  {
    hide Says, Get, Live, DoneOf, Clashing, Respects;
    if q :| Voice(init, all, q, cfg, c).Some? {
      SaidAlike(a, init, all, cfg, c, q);
      SaidAlike(b, init, all, cfg, c, q);
    } else {
      SaidAlike(a, init, all, cfg, c, TopicPartition("", 0));
      SaidAlike(b, init, all, cfg, c, TopicPartition("", 0));
    }
  }

  lemma FinalName(s0: System, events: seq<Event>, s: System, order: seq<Record>, c: Cell, cfg: Config)
    requires Initial(s0) && Leads(s0, events, s, cfg) && Drained(s, cfg) && Fixed(c) && Get(s0.mem, c).None?
    requires Respects(order, s0.mem, s.logs, cfg) && !Clashing(s0.mem, s.logs, cfg, c)
    ensures Get(s.mem, c) == Says(order, s0.mem, cfg, c)
  {
    hide Initial, Leads, Drained, Says, Get, Live, DoneOf, Respects, Clashing;
    if Get(s.mem, c).Some? {
      var tp := NamedByOne(s0, events, s, c, cfg);
      SaidAlike(order, s0.mem, s.logs, cfg, c, tp);
    } else {
      forall q ensures Voice(s0.mem, s.logs, q, cfg, c).None? {
        if Voice(s0.mem, s.logs, q, cfg, c).Some? { SaidIsThere(s0, events, s, q, c, cfg); }
      }
      SaidAlike(order, s0.mem, s.logs, cfg, c, TopicPartition("", 0));
    }
  }

  /** Whatever the number of topic-partitions, and wherever the processor crashes: if whoever
      speaks for a clashing new name has no other clashing word, every run that drains the
      logs leaves the graph of processing the records one after the other in some order that
      respects all topic-partitions. */
  lemma LoneClashesExplained(s0: System, events: seq<Event>, s: System, cfg: Config)
    requires Initial(s0) && Leads(s0, events, s, cfg) && Drained(s, cfg) && Lone(s0.mem, s.logs, cfg)
    ensures Explained(s0.mem, s.logs, s.mem, cfg)
  {
    hide Leads, Drained, Get, Live, Says, DoneOf, Replay, Keyed, LinksAgree, InOrder, LogsFit, Lone, NamesInOrder, ValuesInOrder;
    var init := s0.mem;
    RunLogsFit(s0, events, s, cfg);
    AllWithin(s.logs);
    var order := RunOrders(s0, events, s, s.logs, cfg);
    forall tp ensures DoneOf(order, tp) == DoneOf(s.done, tp) == Live(init, s.logs, tp, cfg) {
      AllFinished(s0, events, s, tp, cfg);
      assert Ahead(init, s.logs, s, order, tp, cfg);
    }
    assert Respects(order, init, s.logs, cfg) && Respects(s.done, init, s.logs, cfg);
    RunIsKeyed(s0, events, s, cfg);
    forall c ensures Get(s.mem, c) == Get(Replay(init, order, cfg), c) {
      ReplaySays(init, order, cfg, c);
      if Fixed(c) && Get(init, c).Some? {
        OldNamesStay(s0, events, s, c, cfg);
      } else {
        OrderShows(s0, events, s, order, c, cfg);
      }
    }
    SteadyReplay(init, order, cfg);
    CellsDetermine(s.mem, Replay(init, order, cfg));
  }

  lemma RunLogsFit(s0: System, events: seq<Event>, s: System, cfg: Config)
    requires Initial(s0) && Leads(s0, events, s, cfg)
    ensures LogsFit(s.logs)
  {
    hide Leads, Keyed, LogsFit;
    InitialInOrder(s0, cfg);
    RunFromKeeps(s0.mem, s0, events, s, cfg);
  }
}
