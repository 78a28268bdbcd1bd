/** The in-memory segment reader: records kept per topic-partition, read in offset order
    from a checkpoint on. */
module Reader {
  import opened Results
  import opened Text
  import opened NodeIds
  import opened Envelopes
  import opened IngestSystem
  import opened Sorting

  // ---------- keys ----------

  const MIN_INT32: int := -0x8000_0000
  const MAX_INT32: int := 0x7FFF_FFFF

  /** Negation in 32 bits. */
  function Negate32(n: int): int {
    if n == MIN_INT32 then n else -n
  }

  /** The numeral the reader writes: the smallest integer has no digits, for its negation
      is itself. */
  function Numeral32(n: int): string {
    if n == MIN_INT32 then "-" else SignedDecimal(n)
  }

  function TpKey(tp: TopicPartition): string {
    tp.topic + ":" + Numeral32(tp.partition)
  }

  /** The digits of a positive number, none of zero. */
  function Digits(n: nat): string {
    if n == 0 then "" else Decimal(n)
  }

  /** The same digits in the order division yields them: the last one first. */
  function LowDigits(n: nat): string {
    if n == 0 then "" else [Digit(n % 10)] + LowDigits(n / 10)
  }

  lemma DigitsStep(n: nat)
    requires n > 0
    ensures Digits(n) == Digits(n / 10) + [Digit(n % 10)]
  {
  }

  /** The numeral read from its end is the buffer before its digits are swapped. */
  lemma {:induction false} LowDigitsMirror(n: nat)
    ensures |LowDigits(n)| == |Digits(n)|
    ensures forall k | 0 <= k < |Digits(n)| :: Digits(n)[k] == LowDigits(n)[|Digits(n)| - 1 - k]
  {
    hide Digits;
    NoDigits();
    if n > 0 {
      DigitsStep(n);
      LowDigitsMirror(n / 10);
    }
  }

  lemma NoDigits()
    ensures Digits(0) == ""
  {
  }

  /** Swaps the characters from a position on with those from the end. */
  method SwapDigits(text: string, start: nat) returns (buf: string)
    requires start <= |text|
    ensures |buf| == |text| && buf[..start] == text[..start]
    ensures forall k | start <= k < |text| :: buf[k] == text[start + |text| - 1 - k]
  {
    buf := text;
    var i, j := start, |buf| - 1;
    ghost var sum := i + j;
    while i < j
      invariant start <= i <= j + 1 && i + j == sum && |buf| == |text|
      invariant forall k | 0 <= k < start || i <= k <= j :: buf[k] == text[k]
      invariant forall k | start <= k < i || j < k < |text| :: buf[k] == text[sum - k]
      decreases j - i
    {
      buf := buf[i := buf[j]][j := buf[i]];
      i, j := i + 1, j - 1;
    }
  }

  method Itoa(partition: int) returns (s: string)
    requires MIN_INT32 <= partition <= MAX_INT32
    ensures s == Numeral32(partition)
  {
    if partition == 0 { return "0"; }
    var n, buf := partition, "";
    if n < 0 {
      buf := buf + ['-'];
      n := Negate32(n);
    }
    var start := |buf|;
    ghost var magnitude: nat := if n > 0 then n else 0;
    buf := WriteDigits(n, buf);
    s := SwapDigits(buf, start);
    LowDigitsMirror(magnitude);
    assert s[start..] == Digits(magnitude);
    assert s == s[..start] + s[start..];
  }

  /** Appends the digits of a positive number, the last one first. */
  method WriteDigits(number: int, front: string) returns (buf: string)
    ensures buf == front + LowDigits(if number > 0 then number else 0)
  {
    var n := number;
    buf := front;
    ghost var all := LowDigits(if number > 0 then number else 0);
    while n > 0
      invariant n <= 0 ==> buf == front + all
      invariant n > 0 ==> buf + LowDigits(n) == front + all
      decreases n
    {
      buf := buf + [Digit(n % 10)];
      n := n / 10;
    }
  }

  /** Distinct topic-partitions have distinct keys, the smallest partition included. */
  lemma KeysDistinct(a: TopicPartition, b: TopicPartition)
    requires TpKey(a) == TpKey(b)
    ensures a == b
  {
    hide SignedDecimal;
    NumeralShape(a.partition);
    NumeralShape(b.partition);
    LastColon(a.topic, Numeral32(a.partition), b.topic, Numeral32(b.partition));
    if a.partition != MIN_INT32 && b.partition != MIN_INT32 { SignedInjective(a.partition, b.partition); }
  }

  lemma NumeralShape(n: int)
    ensures ':' !in Numeral32(n) && (n != MIN_INT32 ==> Numeral32(n) != "-")
  {
    SignedDigits(n);
    DecimalDigits(if n < 0 then -n else n);
    if n < 0 { assert SignedDecimal(n)[1..] == Decimal(-n); }
  }

  // ---------- reading ----------

  const BY_OFFSET: (Record, Record) -> bool := (a: Record, b: Record) => a.source.offset < b.source.offset

  /** Those behind an offset, in order. */
  function Later(recs: seq<Record>, after: int): seq<Record> {
    if recs == [] then [] else (if recs[0].source.offset > after then [recs[0]] else []) + Later(recs[1..], after)
  }

  function ReadFrom(log: seq<Record>, after: int, limit: int): seq<Record> {
    BatchOf(Later(StableSort(log, BY_OFFSET), after), limit)
  }

  lemma {:induction false} LaterIsSuffix(log: seq<Record>, after: int)
    requires Increasing(log)
    ensures Later(log, after) == log[Below(log, after)..]
  {
    if log != [] {
      LaterIsSuffix(log[1..], after);
      if log[0].source.offset > after {
        if |log| > 1 { BelowIs(log[1..], after, 0); }
        assert log == [log[0]] + log[1..];
      }
    }
  }

  /** What is read of a log in offset order is the batch behind the checkpoint. */
  lemma ReadsTheBatch(log: seq<Record>, after: int, limit: int)
    requires Increasing(log)
    ensures ReadFrom(log, after, limit) == BatchOf(Waiting(log, Some(after)), limit)
  {
    IncreasingIsSorted(log);
    LaterIsSuffix(log, after);
  }

  lemma InsertLatest(front: seq<Record>, rec: Record)
    requires front == [] || front[|front| - 1].source.offset < rec.source.offset
    ensures Insert(front, rec, BY_OFFSET) == front + [rec]
  {
    assert front[..|front|] == front;
    InsertStops(front, |front|, rec, BY_OFFSET);
  }

  lemma NothingSorted()
    ensures StableSort([], BY_OFFSET) == []
  {
  }

  lemma {:induction false} IncreasingIsSorted(log: seq<Record>)
    requires Increasing(log)
    ensures StableSort(log, BY_OFFSET) == log
  {
    hide StableSort, Insert, BY_OFFSET;
    if log == [] {
      NothingSorted();
    } else {
      var n := |log| - 1;
      IncreasingIsSorted(log[..n]);
      SortStep(log, BY_OFFSET);
      InsertLatest(log[..n], log[n]);
      assert log == log[..n] + [log[n]];
    }
  }

  function LogIn(records: map<string, seq<Record>>, tp: TopicPartition): seq<Record> {
    if TpKey(tp) in records then records[TpKey(tp)] else []
  }

  /** Every record is kept under its own topic-partition. */
  ghost predicate RecordsOk(records: map<string, seq<Record>>) {
    forall key, r | key in records && r in records[key] ::
      key == TpKey(r.Tp()) && MIN_INT32 <= r.source.partition <= MAX_INT32
  }

  /** The records of one key add its topic-partition, unless it is listed already. */
  method ListOne(records: map<string, seq<Record>>, key: string, seen: set<string>, tps: seq<TopicPartition>)
    returns (seen': set<string>, tps': seq<TopicPartition>)
    requires RecordsOk(records) && key in records && key !in seen
    ensures tps' == if records[key] == [] then tps else tps + [records[key][0].Tp()]
    ensures seen' == if records[key] == [] then seen else seen + {key}
  {
    var recs := records[key];
    seen', tps' := seen, tps;
    for i := 0 to |recs|
      invariant seen' == if i == 0 then seen else seen + {key}
      invariant tps' == if i == 0 then tps else tps + [recs[0].Tp()]
    {
      var r := recs[i];
      assert r in records[key];
      var numeral := Itoa(r.source.partition);
      var k := r.source.topic + ":" + numeral;
      if k !in seen' {
        seen', tps' := seen' + {k}, tps' + [r.Tp()];
      }
    }
  }

  /** The list names the topic-partitions of the keys seen so far, each once. */
  ghost predicate Listed(records: map<string, seq<Record>>, keys: set<string>, tps: seq<TopicPartition>) {
    && (forall i, j | 0 <= i < j < |tps| :: tps[i] != tps[j])
    && (forall tp | tp in tps :: LogIn(records, tp) != [] && TpKey(tp) !in keys && MIN_INT32 <= tp.partition <= MAX_INT32)
    && (forall key | key in records && key !in keys && records[key] != [] :: exists tp :: tp in tps && TpKey(tp) == key)
  }

  lemma ListMore(records: map<string, seq<Record>>, keys: set<string>, key: string, tps: seq<TopicPartition>)
    requires RecordsOk(records) && key in records && key in keys && Listed(records, keys, tps)
    ensures Listed(records, keys - {key}, if records[key] == [] then tps else tps + [records[key][0].Tp()])
  {
    if records[key] != [] {
      var tp := records[key][0].Tp();
      assert records[key][0] in records[key];
      assert TpKey(tp) == key && tp in tps + [tp];
      assert forall t | t in tps :: t in tps + [tp];
    }
  }

  lemma AllListed(records: map<string, seq<Record>>, tps: seq<TopicPartition>, tp: TopicPartition)
    requires Listed(records, {}, tps)
    ensures tp in tps <==> LogIn(records, tp) != []
  {
    if LogIn(records, tp) != [] {
      var t :| t in tps && TpKey(t) == TpKey(tp);
      KeysDistinct(t, tp);
    }
  }

  class MemoryReader {
    var records: map<string, seq<Record>>

    constructor ()
      ensures records == map[]
    {
      records := map[];
    }

    function Log(tp: TopicPartition): seq<Record>
      reads this
    {
      LogIn(records, tp)
    }

    ghost predicate Valid()
      reads this
    {
      RecordsOk(records)
    }

    method AddRecord(rec: Record)
      requires Valid() && MIN_INT32 <= rec.source.partition <= MAX_INT32
      modifies this
      ensures Valid() && Log(rec.Tp()) == old(Log(rec.Tp())) + [rec]
      ensures forall tp | tp != rec.Tp() :: Log(tp) == old(Log(tp))
    {
      var numeral := Itoa(rec.source.partition);
      var key := rec.source.topic + ":" + numeral;
      var before := if key in records then records[key] else [];
      records := records[key := before + [rec]];
      forall tp | tp != rec.Tp() ensures Log(tp) == old(Log(tp)) {
        if TpKey(tp) == key { KeysDistinct(tp, rec.Tp()); }
      }
    }

    /** All topic-partitions that have records, each once, in no particular order. */
    method ListTopicPartitions() returns (tps: seq<TopicPartition>)
      requires Valid()
      ensures forall tp :: tp in tps <==> Log(tp) != []
      ensures forall i, j | 0 <= i < j < |tps| :: tps[i] != tps[j]
      ensures forall tp | tp in tps :: MIN_INT32 <= tp.partition <= MAX_INT32
    {
      hide LogIn, TpKey, RecordsOk;
      var keys, seen := records.Keys, {};
      tps := [];
      while keys != {}
        invariant keys <= records.Keys && seen !! keys && Listed(records, keys, tps)
        decreases keys
      {
        var key :| key in keys;
        ListMore(records, keys, key, tps);
        seen, tps := ListOne(records, key, seen, tps);
        keys := keys - {key};
      }
      forall tp ensures tp in tps <==> Log(tp) != [] { AllListed(records, tps, tp); }
    }

    /** Up to limit records behind an offset, at least one if there is any. */
    method ReadRecords(tp: TopicPartition, after: int, limit: int) returns (result: seq<Record>)
      requires MIN_INT32 <= tp.partition <= MAX_INT32
      ensures result == ReadFrom(Log(tp), after, limit)
    {
      var numeral := Itoa(tp.partition);
      var key := tp.topic + ":" + numeral;
      var all := if key in records then records[key] else [];
      var sorted := SortedByOffset(all);
      result := TakeLater(sorted, after, limit);
    }
  }

  method SortedByOffset(all: seq<Record>) returns (sorted: seq<Record>)
    ensures sorted == StableSort(all, BY_OFFSET)
  {
    if all == [] { return []; }
    var a := new Record[|all|](i requires 0 <= i < |all| => all[i]);
    assert a[..] == all;
    SortInPlace(a, BY_OFFSET);
    sorted := a[..];
  }

  method TakeLater(sorted: seq<Record>, after: int, limit: int) returns (result: seq<Record>)
    ensures result == BatchOf(Later(sorted, after), limit)
  {
    hide Later;
    result := [];
    ghost var all := Later(sorted, after);
    NoneLater(after);
    assert sorted[0..] == sorted;
    for i := 0 to |sorted|
      invariant result + Later(sorted[i..], after) == all
      invariant result == [] || |result| < limit
    {
      LaterStep(sorted, i, after);
      var r := sorted[i];
      if r.source.offset > after {
        result := result + [r];
        if |result| >= limit {
          assert result == all[..|result|];
          return;
        }
      }
    }
    assert sorted[|sorted|..] == [] && result + [] == result;
  }

  lemma NoneLater(after: int)
    ensures Later([], after) == []
  {
  }

  lemma LaterStep(sorted: seq<Record>, i: nat, after: int)
    requires i < |sorted|
    ensures Later(sorted[i..], after) == (if sorted[i].source.offset > after then [sorted[i]] else []) + Later(sorted[i + 1..], after)
  {
    assert sorted[i..][1..] == sorted[i + 1..];
  }
}
