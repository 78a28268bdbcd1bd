/** Decoding a value looks at the value's own bytes only: whatever else follows them, it is
    decoded the same and left over. */
module Locality {
  import opened Results
  import opened Bytes
  import opened PackStream
  import opened PackStreamRoundTrip

  /** What was left in between ends in what was left at last. */
  lemma SplitTail(a: Bytes, rest: Bytes, mid: Bytes) returns (head: Bytes, more: Bytes)
    requires Leaves(a + rest, mid) && |rest| <= |mid|
    ensures a == head + more && mid == more + rest
  {
    var k := |a| + |rest| - |mid|;
    head, more := a[..k], a[k..];
    assert (a + rest)[k..] == a[k..] + rest;
  }

  lemma LocalNumber(a: Bytes, rest: Bytes, x: Bytes, k: nat)
    requires ReadNumber(a + rest, k).Ok? && |rest| <= |ReadNumber(a + rest, k).value.1|
    ensures k <= |a| && ReadNumber(a + rest, k) == Ok((FromBigEndian(a[..k]), a[k..] + rest))
    ensures ReadNumber(a + x, k) == Ok((FromBigEndian(a[..k]), a[k..] + x))
  {
    assert (a + rest)[..k] == a[..k] == (a + x)[..k];
    assert (a + rest)[k..] == a[k..] + rest && (a + x)[k..] == a[k..] + x;
  }

  lemma LocalInt(a: Bytes, rest: Bytes, x: Bytes, k: nat)
    requires (k == 1 || k == 2 || k == 4 || k == 8) && ReadInt(a + rest, k).Ok? && ReadInt(a + rest, k).value.1 == rest
    ensures ReadInt(a + x, k) == Ok((ReadInt(a + rest, k).value.0, x))
  {
    hide ReadNumber, FromBigEndian;
    LocalNumber(a, rest, x, k);
    assert a[k..] == [];
    assert a[k..] + x == x;
  }

  lemma LocalString(a: Bytes, rest: Bytes, x: Bytes, n: nat)
    requires ReadString(a + rest, n).Ok? && ReadString(a + rest, n).value.1 == rest
    ensures ReadString(a + x, n) == Ok((ReadString(a + rest, n).value.0, x))
  {
    assert (a + rest)[..n] == a == (a + x)[..n];
    assert (a + x)[n..] == x;
  }

  lemma NothingRead(a: Bytes, rest: Bytes, x: Bytes)
    requires a + rest == rest
    ensures a + x == x
  {
    assert |a| == 0;
  }

  /** One value of several: what is more of the bytes after it. */
  lemma {:induction false} LocalNext(a: Bytes, rest: Bytes, mid: Bytes, x: Bytes, sprint: Sprint) returns (more: Bytes)
    requires Decode(a + rest, sprint).Ok? && Decode(a + rest, sprint).value.1 == mid && |rest| <= |mid|
    ensures mid == more + rest && |more| < |a|
    ensures Decode(a + x, sprint) == Ok((Decode(a + rest, sprint).value.0, more + x))
    decreases |a|, 1
  {
    hide Decode;
    var head;
    head, more := SplitTail(a, rest, mid);
    assert head + mid == a + rest && head + (more + x) == a + x;
    LocalValue(head, mid, more + x, sprint);
  }

  lemma {:induction false} LocalItems(a: Bytes, rest: Bytes, x: Bytes, n: nat, acc: seq<Value>, sprint: Sprint)
    requires ReadItems(a + rest, n, acc, sprint).Ok? && ReadItems(a + rest, n, acc, sprint).value.1 == rest
    ensures ReadItems(a + x, n, acc, sprint) == Ok((ReadItems(a + rest, n, acc, sprint).value.0, x))
    decreases |a|, 2
  {
    hide Decode, ReadItems;
    ItemsStep(a + rest, n, acc, sprint);
    ItemsStep(a + x, n, acc, sprint);
    if n == 0 {
      NothingRead(a, rest, x);
    } else {
      var (v, mid) := Decode(a + rest, sprint).value;
      var more := LocalNext(a, rest, mid, x, sprint);
      LocalItems(more, rest, x, n - 1, acc + [v], sprint);
    }
  }

  lemma {:induction false} LocalEntries(a: Bytes, rest: Bytes, x: Bytes, n: nat, acc: seq<Entry>, sprint: Sprint)
    requires ReadEntries(a + rest, n, acc, sprint).Ok? && ReadEntries(a + rest, n, acc, sprint).value.1 == rest
    ensures ReadEntries(a + x, n, acc, sprint) == Ok((ReadEntries(a + rest, n, acc, sprint).value.0, x))
    decreases |a|, 2
  {
    hide Decode, Put, ReadEntries, KeyText;
    EntriesStep(a + rest, n, acc, sprint);
    EntriesStep(a + x, n, acc, sprint);
    if n == 0 {
      NothingRead(a, rest, x);
    } else {
      var (key, mid) := Decode(a + rest, sprint).value;
      var (v, last) := Decode(mid, sprint).value;
      var more := LocalNext(a, rest, mid, x, sprint);
      var more2 := LocalNext(more, rest, last, x, sprint);
      LocalEntries(more2, rest, x, n - 1, Put(acc, KeyText(key, sprint).value, v), sprint);
    }
  }

  lemma {:induction false} LocalList(a: Bytes, rest: Bytes, x: Bytes, n: nat, sprint: Sprint)
    requires ReadList(a + rest, n, sprint).Ok? && ReadList(a + rest, n, sprint).value.1 == rest
    ensures ReadList(a + x, n, sprint) == Ok((ReadList(a + rest, n, sprint).value.0, x))
    decreases |a|, 3
  {
    hide ReadItems;
    LocalItems(a, rest, x, n, [], sprint);
  }

  lemma {:induction false} LocalMap(a: Bytes, rest: Bytes, x: Bytes, n: nat, sprint: Sprint)
    requires ReadMap(a + rest, n, sprint).Ok? && ReadMap(a + rest, n, sprint).value.1 == rest
    ensures ReadMap(a + x, n, sprint) == Ok((ReadMap(a + rest, n, sprint).value.0, x))
    decreases |a|, 3
  {
    hide ReadEntries;
    LocalEntries(a, rest, x, n, [], sprint);
  }

  lemma StructStep(s: Bytes, n: nat, sprint: Sprint)
    ensures ReadStruct(s, n, sprint) ==
              if s == [] then Err
              else var r := ReadItems(s[1..], n, [], sprint);
                   if r.Err? then Err else Ok((PStruct(s[0], r.value.0), r.value.1))
  {
    hide ReadItems;
  }

  lemma {:induction false} LocalStruct(a: Bytes, rest: Bytes, x: Bytes, n: nat, sprint: Sprint)
    requires ReadStruct(a + rest, n, sprint).Ok? && ReadStruct(a + rest, n, sprint).value.1 == rest
    ensures ReadStruct(a + x, n, sprint) == Ok((ReadStruct(a + rest, n, sprint).value.0, x))
    decreases |a|, 3
  {
    hide ReadItems, ReadStruct;
    StructStep(a + rest, n, sprint);
    StructStep(a + x, n, sprint);
    StructTakes(a, rest, n, sprint);
    assert (a + rest)[1..] == a[1..] + rest && (a + x)[1..] == a[1..] + x;
    LocalItems(a[1..], rest, x, n, [], sprint);
  }

  lemma StructTakes(a: Bytes, rest: Bytes, n: nat, sprint: Sprint)
    requires ReadStruct(a + rest, n, sprint).Ok? && ReadStruct(a + rest, n, sprint).value.1 == rest
    ensures a != []
  {
    hide ReadItems;
    assert |a + rest| == |a| + |rest|;
  }

  /** The number behind a marker takes this many bytes. */
  function NumberWidth(b: Byte): (k: nat)
    ensures k == 0 || k == 1 || k == 2 || k == 4 || k == 8
  {
    if b == 0xC8 || b == 0xD0 || b == 0xD4 || b == 0xD8 || b == 0xDC then 1
    else if b == 0xC9 || b == 0xD1 || b == 0xD5 || b == 0xD9 then 2
    else if b == 0xCA || b == 0xD2 then 4
    else if b == 0xCB || b == 0xC1 then 8
    else 0
  }

  /** What follows such a marker: a number, and what it is the length of. */
  lemma SizedStep(b: Byte, t: Bytes, sprint: Sprint)
    ensures var k := NumberWidth(b);
            if 0xC8 <= b <= 0xCB then DecodeSized(b, t, sprint) == ReadInt(t, k)
            else if k > 0 then
              var n := ReadNumber(t, k);
              if n.Err? then DecodeSized(b, t, sprint).Err? else SizedRest(b, n.value.0, n.value.1, sprint) == DecodeSized(b, t, sprint)
            else DecodeSized(b, t, sprint) == if b == 0xC0 || b == 0xC2 || b == 0xC3 then Ok((PlainValue(b), t)) else Err
  {
    hide ReadInt, ReadString, ReadList, ReadMap, ReadStruct, ReadNumber;
    Pow256Values();
  }

  /** What is read once the number is known. */
  function SizedRest(b: Byte, n: nat, t: Bytes, sprint: Sprint): Decoded<Value> {
    if b == 0xC1 then (if n < 0x1_0000_0000_0000_0000 then Ok((PFloat(n), t)) else Err)
    else if b <= 0xD2 then ReadString(t, n)
    else if b <= 0xD5 then ReadList(t, n, sprint)
    else if b <= 0xD9 then ReadMap(t, n, sprint)
    else ReadStruct(t, n, sprint)
  }

  /** The value that a marker without a number stands for. */
  function PlainValue(b: Byte): Value {
    if b == 0xC2 then PBool(false) else if b == 0xC3 then PBool(true) else PNil
  }

  /** Markers with a length or a number behind them. */
  lemma {:induction false} LocalSized(b: Byte, a: Bytes, rest: Bytes, x: Bytes, sprint: Sprint)
    requires DecodeSized(b, a + rest, sprint).Ok? && DecodeSized(b, a + rest, sprint).value.1 == rest
    ensures DecodeSized(b, a + x, sprint) == Ok((DecodeSized(b, a + rest, sprint).value.0, x))
    decreases |a|, 4
  {
    hide ReadInt, ReadString, ReadList, ReadMap, ReadStruct, ReadNumber, FromBigEndian, DecodeSized;
    var k := NumberWidth(b);
    SizedStep(b, a + rest, sprint);
    SizedStep(b, a + x, sprint);
    if 0xC8 <= b <= 0xCB {
      LocalInt(a, rest, x, k);
    } else if k > 0 {
      LocalNumber(a, rest, x, k);
      var n, t := FromBigEndian(a[..k]), a[k..];
      if b == 0xC1 {
        NothingRead(t, rest, x);
      } else if b <= 0xD2 {
        LocalString(t, rest, x, n);
      } else if b <= 0xD5 {
        LocalList(t, rest, x, n, sprint);
      } else if b <= 0xD9 {
        LocalMap(t, rest, x, n, sprint);
      } else {
        LocalStruct(t, rest, x, n, sprint);
      }
    } else {
      NothingRead(a, rest, x);
    }
  }

  lemma {:induction false} LocalMarker(b: Byte, a: Bytes, rest: Bytes, x: Bytes, sprint: Sprint)
    requires DecodeMarker(b, a + rest, sprint).Ok? && DecodeMarker(b, a + rest, sprint).value.1 == rest
    ensures DecodeMarker(b, a + x, sprint) == Ok((DecodeMarker(b, a + rest, sprint).value.0, x))
    decreases |a|, 5
  {
    hide ReadString, ReadList, ReadMap, ReadStruct, DecodeSized;
    if b <= 0x7F || b >= 0xF0 {
      assert a == [];
      assert a + x == x;
    } else if b <= 0x8F {
      LocalString(a, rest, x, b - 0x80);
    } else if b <= 0x9F {
      LocalList(a, rest, x, b - 0x90, sprint);
    } else if b <= 0xAF {
      LocalMap(a, rest, x, b - 0xA0, sprint);
    } else if b <= 0xBF {
      LocalStruct(a, rest, x, b - 0xB0, sprint);
    } else {
      LocalSized(b, a, rest, x, sprint);
    }
  }

  /** Whatever follows a value's bytes, the value is decoded the same and the rest is left. */
  lemma {:induction false} LocalValue(a: Bytes, rest: Bytes, x: Bytes, sprint: Sprint)
    requires Decode(a + rest, sprint).Ok? && Decode(a + rest, sprint).value.1 == rest
    ensures Decode(a + x, sprint) == Ok((Decode(a + rest, sprint).value.0, x))
    decreases |a|, 0
  {
    hide DecodeMarker;
    assert a != [];
    assert (a + rest)[1..] == a[1..] + rest && (a + x)[1..] == a[1..] + x;
    LocalMarker(a[0], a[1..], rest, x, sprint);
  }
}
