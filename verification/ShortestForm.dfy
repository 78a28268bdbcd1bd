/** When the encoder's form of a value is never longer than any form the decoder accepts
    for it, duplicate keys and over-long markers included: exactly when no map key is
    written in more bytes than it took. */
module ShortestForm {
  import opened Results
  import opened Bytes
  import opened PackStream
  import opened PackStreamRoundTrip
  import opened Locality

  /** Refuses every map key that is no string. */
  const STRICT: Sprint := (key: Value) => None

  /** No key that is no string is written in more bytes than it was decoded from. */
  ghost predicate Thrifty(sprint: Sprint) {
    forall s: Bytes :: ThriftyAt(s, sprint)
  }

  predicate ThriftyAt(s: Bytes, sprint: Sprint) {
    Decode(s, sprint).Ok? ==>
      var (key, rest) := Decode(s, sprint).value;
      !key.PString? && sprint(key).Some? ==> |StringBytes(sprint(key).value)| <= |s| - |rest|
  }

  // ---------- the encoder's length ----------

  function IntCost(i: Int64): nat {
    if -16 <= i <= 127 then 1
    else if -0x80 <= i <= 0x7F then 2
    else if -0x8000 <= i <= 0x7FFF then 3
    else if -0x8000_0000 <= i <= 0x7FFF_FFFF then 5
    else 9
  }

  function StringHeadCost(n: nat): nat {
    if n < 16 then 1 else if n <= 0xFF then 2 else if n <= 0xFFFF then 3 else 5
  }

  /** Of a list's or a map's head. */
  function HeadCost(n: nat): nat {
    if n < 16 then 1 else if n <= 0xFF then 2 else 3
  }

  /** The length of a value's encoding; structs, which have none, count nothing. */
  function Cost(v: Value): nat
    decreases v
  {
    match v
    case PNil => 1
    case PBool(_) => 1
    case PInt(i) => IntCost(i)
    case PFloat(_) => 9
    case PString(s) => StringHeadCost(|s|) + |s|
    case PList(items) => HeadCost(|items|) + ItemsCost(items)
    case PMap(entries) => HeadCost(|entries|) + EntriesCost(entries)
    case PStruct(_, _) => 0
  }

  function ItemsCost(items: seq<Value>): nat
    decreases items
  {
    if items == [] then 0 else Cost(items[0]) + ItemsCost(items[1..])
  }

  function EntriesCost(entries: seq<Entry>): nat
    decreases entries
  {
    if entries == [] then 0
    else StringHeadCost(|entries[0].key|) + |entries[0].key| + Cost(entries[0].value) + EntriesCost(entries[1..])
  }

  lemma IntLength(i: Int64)
    ensures |IntBytes(i)| == IntCost(i)
  {
  }

  lemma HeadLengths(n: nat)
    ensures |StringHead(n)| == StringHeadCost(n) && |ListHead(n)| == HeadCost(n) && |MapHead(n)| == HeadCost(n)
  {
  }

  lemma {:induction false} CostIsLength(v: Value)
    requires Enc(v).Ok?
    ensures |Enc(v).value| == Cost(v)
    decreases v
  {
    hide IntBytes, StringHead, ListHead, MapHead, BigEndian;
    match v {
      case PInt(i) => IntLength(i);
      case PString(s) => HeadLengths(|s|);
      case PList(items) =>
        HeadLengths(|items|);
        ItemsLength(items);
      case PMap(entries) =>
        HeadLengths(|entries|);
        EntriesLength(entries);
      case _ =>
    }
  }

  lemma {:induction false} ItemsLength(items: seq<Value>)
    requires EncItems(items).Ok?
    ensures |EncItems(items).value| == ItemsCost(items)
    decreases items
  {
    hide Enc;
    if items != [] {
      CostIsLength(items[0]);
      ItemsLength(items[1..]);
    }
  }

  lemma {:induction false} EntriesLength(entries: seq<Entry>)
    requires EncEntries(entries).Ok?
    ensures |EncEntries(entries).value| == EntriesCost(entries)
    decreases entries
  {
    hide Enc, StringHead;
    if entries != [] {
      HeadLengths(|entries[0].key|);
      CostIsLength(entries[0].value);
      EntriesLength(entries[1..]);
    }
  }

  // ---------- several values ----------

  lemma {:induction false} ItemsCostMore(items: seq<Value>, v: Value)
    ensures ItemsCost(items + [v]) == ItemsCost(items) + Cost(v)
  {
    if items == [] {
      assert [] + [v] == [v];
    } else {
      assert (items + [v])[1..] == items[1..] + [v];
      ItemsCostMore(items[1..], v);
    }
  }

  /** Replacing an entry drops the old value's cost, adding one adds the key's as well. */
  lemma {:induction false} PutCost(entries: seq<Entry>, key: Bytes, v: Value)
    ensures EntriesCost(Put(entries, key, v)) <= EntriesCost(entries) + StringHeadCost(|key|) + |key| + Cost(v)
  {
    hide StringHeadCost, Cost;
    if entries != [] {
      if entries[0].key == key {
        assert ([Entry(key, v)] + entries[1..])[1..] == entries[1..];
      } else {
        PutCost(entries[1..], key, v);
        assert ([entries[0]] + Put(entries[1..], key, v))[1..] == Put(entries[1..], key, v);
      }
    }
  }

  lemma {:induction false} ItemsBound(s: Bytes, n: nat, acc: seq<Value>, sprint: Sprint)
    requires Thrifty(sprint) && ReadItems(s, n, acc, sprint).Ok?
    ensures var (items, rest) := ReadItems(s, n, acc, sprint).value;
            |items| == |acc| + n && ItemsCost(items) + |rest| <= ItemsCost(acc) + |s|
    decreases |s|, 2
  {
    hide Decode, Cost, Thrifty, ItemsCost;
    if n > 0 {
      var (v, rest) := Decode(s, sprint).value;
      ValueBound(s, sprint);
      ItemsCostMore(acc, v);
      ItemsBound(rest, n - 1, acc + [v], sprint);
    }
  }

  lemma {:induction false} EntriesBound(s: Bytes, n: nat, acc: seq<Entry>, sprint: Sprint)
    requires Thrifty(sprint) && ReadEntries(s, n, acc, sprint).Ok?
    ensures var (entries, rest) := ReadEntries(s, n, acc, sprint).value;
            |entries| <= |acc| + n && EntriesCost(entries) + |rest| <= EntriesCost(acc) + |s|
    decreases |s|, 2
  {
    hide Decode, Cost, EntriesCost, Put, Thrifty;
    if n > 0 {
      var (key, rest) := Decode(s, sprint).value;
      var (v, rest2) := Decode(rest, sprint).value;
      ValueBound(s, sprint);
      ValueBound(rest, sprint);
      var text := KeyText(key, sprint).value;
      KeyCost(s, sprint);
      PutCost(acc, text, v);
      EntriesBound(rest2, n - 1, Put(acc, text, v), sprint);
    }
  }

  /** A key's text takes no more than the key did. */
  lemma {:induction false} KeyCost(s: Bytes, sprint: Sprint)
    requires Thrifty(sprint) && Decode(s, sprint).Ok? && KeyText(Decode(s, sprint).value.0, sprint).Some?
    ensures var (key, rest) := Decode(s, sprint).value;
            var text := KeyText(key, sprint).value;
            StringHeadCost(|text|) + |text| + |rest| <= |s|
    decreases |s|, 1
  {
    hide Decode, ItemsCost, EntriesCost, StringHead, StringHeadCost;
    var key := Decode(s, sprint).value.0;
    HeadLengths(|KeyText(key, sprint).value|);
    if key.PString? { ValueBound(s, sprint); } else { assert ThriftyAt(s, sprint); }
  }

  /** A list, map or struct read from t costs at most its head and what was consumed. */
  lemma {:induction false} ListBound(t: Bytes, n: nat, sprint: Sprint)
    requires Thrifty(sprint) && ReadList(t, n, sprint).Ok?
    ensures var (v, rest) := ReadList(t, n, sprint).value; Cost(v) + |rest| <= HeadCost(n) + |t|
    decreases |t|, 3
  {
    hide ReadItems, Thrifty, ItemsCost, HeadCost;
    NoItemsCost();
    ItemsBound(t, n, [], sprint);
  }

  lemma {:induction false} MapBound(t: Bytes, n: nat, sprint: Sprint)
    requires Thrifty(sprint) && ReadMap(t, n, sprint).Ok?
    ensures var (v, rest) := ReadMap(t, n, sprint).value; Cost(v) + |rest| <= HeadCost(n) + |t|
    decreases |t|, 3
  {
    hide ReadEntries, Thrifty, EntriesCost;
    NoItemsCost();
    EntriesBound(t, n, [], sprint);
  }

  lemma NoItemsCost()
    ensures ItemsCost([]) == 0 && EntriesCost([]) == 0
  {
  }

  lemma StringBound(t: Bytes, n: nat)
    requires ReadString(t, n).Ok?
    ensures var (v, rest) := ReadString(t, n).value; Cost(v) + |rest| == StringHeadCost(n) + |t|
  {
  }

  lemma StructBound(t: Bytes, n: nat, sprint: Sprint)
    requires Thrifty(sprint) && ReadStruct(t, n, sprint).Ok?
    ensures var (v, rest) := ReadStruct(t, n, sprint).value; Cost(v) + |rest| <= |t|
  {
    hide ReadItems, Thrifty;
  }

  lemma IntBound(t: Bytes, k: nat)
    requires (k == 1 || k == 2 || k == 4 || k == 8) && ReadInt(t, k).Ok?
    ensures var (v, rest) := ReadInt(t, k).value; Cost(v) + |rest| <= 1 + |t|
  {
    hide ReadNumber;
    Pow256Values();
  }

  /** Markers with a length or a number behind them. */
  lemma {:induction false} SizedBound(b: Byte, t: Bytes, sprint: Sprint)
    requires Thrifty(sprint) && DecodeSized(b, t, sprint).Ok?
    ensures var (v, rest) := DecodeSized(b, t, sprint).value; Cost(v) + |rest| <= 1 + |t|
    decreases |t|, 4
  {
    hide ReadInt, ReadNumber, DecodeSized, SizedRest, Cost, Thrifty;
    var k := NumberWidth(b);
    SizedStep(b, t, sprint);
    if 0xC8 <= b <= 0xCB {
      IntBound(t, k);
    } else if k > 0 {
      var (n, rest) := ReadNumber(t, k).value;
      RestBound(b, n, rest, sprint);
    } else {
      PlainCost(b);
    }
  }

  /** What a marker's number stands for costs at most marker, number and what was consumed. */
  lemma {:induction false} RestBound(b: Byte, n: nat, t: Bytes, sprint: Sprint)
    requires Thrifty(sprint) && SizedRest(b, n, t, sprint).Ok? && NumberWidth(b) > 0 && !(0xC8 <= b <= 0xCB) && n < Pow256(NumberWidth(b))
    ensures var (v, rest) := SizedRest(b, n, t, sprint).value; Cost(v) + |rest| <= 1 + NumberWidth(b) + |t|
    decreases |t|, 4
  {
    hide ReadString, ReadList, ReadMap, ReadStruct, Cost, Thrifty, Pow256;
    Pow256Values();
    if b == 0xC1 {
      FloatCost(n);
    } else if b <= 0xD2 {
      StringBound(t, n);
    } else if b <= 0xD5 {
      ListBound(t, n, sprint);
    } else if b <= 0xD9 {
      MapBound(t, n, sprint);
    } else {
      StructBound(t, n, sprint);
    }
  }

  lemma FloatCost(bits: nat)
    requires bits < 0x1_0000_0000_0000_0000
    ensures Cost(PFloat(bits)) == 9
  {
  }

  lemma PlainCost(b: Byte)
    ensures Cost(PlainValue(b)) == 1
  {
  }

  lemma {:induction false} MarkerBound(b: Byte, t: Bytes, sprint: Sprint)
    requires Thrifty(sprint) && DecodeMarker(b, t, sprint).Ok?
    ensures var (v, rest) := DecodeMarker(b, t, sprint).value; Cost(v) + |rest| <= 1 + |t|
    decreases |t|, 5
  {
    hide ReadString, ReadList, ReadMap, ReadStruct, DecodeSized, Thrifty, ItemsCost, EntriesCost;
    if b <= 0x7F || b >= 0xF0 {
    } else if b <= 0x8F {
      StringBound(t, b - 0x80);
    } else if b <= 0x9F {
      ListBound(t, b - 0x90, sprint);
    } else if b <= 0xAF {
      MapBound(t, b - 0xA0, sprint);
    } else if b <= 0xBF {
      StructBound(t, b - 0xB0, sprint);
    } else {
      SizedBound(b, t, sprint);
    }
  }

  lemma {:induction false} ValueBound(s: Bytes, sprint: Sprint)
    requires Thrifty(sprint) && Decode(s, sprint).Ok?
    ensures var (v, rest) := Decode(s, sprint).value; Cost(v) + |rest| <= |s|
    decreases |s|, 0
  {
    hide DecodeMarker, Cost, Thrifty;
    MarkerBound(s[0], s[1..], sprint);
  }

  /** The encoder is length-optimal: re-encoding a decoded struct-free value takes no more
      bytes than the decoder consumed, whatever markers and duplicate keys it consumed. */
  lemma EncodingIsShortest(s: Bytes, sprint: Sprint)
    requires Thrifty(sprint) && Decode(s, sprint).Ok? && Enc(Decode(s, sprint).value.0).Ok?
    ensures var (v, rest) := Decode(s, sprint).value; |Enc(v).value| <= |s| - |rest|
  {
    hide Decode, Enc, Cost, Thrifty;
    ValueBound(s, sprint);
    CostIsLength(Decode(s, sprint).value.0);
  }

  // ---------- exactly when ----------

  ghost predicate AlwaysShortest(sprint: Sprint) {
    forall s: Bytes :: ShortestAt(s, sprint)
  }

  predicate ShortestAt(s: Bytes, sprint: Sprint) {
    Decode(s, sprint).Ok? && Enc(Decode(s, sprint).value.0).Ok? ==>
      |Enc(Decode(s, sprint).value.0).value| <= |s| - |Decode(s, sprint).value.1|
  }

  lemma LastNil(sprint: Sprint)
    ensures Decode([0xC0], sprint) == Ok((PNil, []))
  {
  }

  /** A map of one entry, under a key that is no string. */
  lemma OneEntry(s: Bytes, sprint: Sprint) returns (whole: Bytes)
    requires Decode(s, sprint).Ok?
    requires !Decode(s, sprint).value.0.PString? && sprint(Decode(s, sprint).value.0).Some?
    ensures Decode(whole, sprint) == Ok((PMap([Entry(sprint(Decode(s, sprint).value.0).value, PNil)]), []))
    ensures |whole| == |s| - |Decode(s, sprint).value.1| + 2
  {
    hide Decode, ReadEntries, DecodeMarker;
    var (key, rest) := Decode(s, sprint).value;
    var text, a, nil := sprint(key).value, s[..|s| - |rest|], [0xC0];
    assert a + rest == s;
    LocalValue(a, rest, nil, sprint);
    LastNil(sprint);
    EntriesStep(a + nil, 1, [], sprint);
    EntriesStep([], 0, [Entry(text, PNil)], sprint);
    whole := [0xA1] + (a + nil);
    assert whole[1..] == a + nil;
    MapOfOne(whole, sprint);
  }

  lemma MapOfOne(s: Bytes, sprint: Sprint)
    requires s != [] && s[0] == 0xA1 && ReadEntries(s[1..], 1, [], sprint).Ok?
    ensures var (entries, rest) := ReadEntries(s[1..], 1, [], sprint).value; Decode(s, sprint) == Ok((PMap(entries), rest))
  {
    hide ReadEntries, DecodeSized, ReadString, ReadList, ReadStruct;
    assert DecodeMarker(0xA1, s[1..], sprint) == ReadMap(s[1..], 1, sprint);
  }

  lemma OneEntryBytes(text: Bytes)
    ensures Enc(PMap([Entry(text, PNil)])).Ok? && |Enc(PMap([Entry(text, PNil)])).value| == |StringBytes(text)| + 2
  {
    hide StringBytes;
    var entries := [Entry(text, PNil)];
    assert entries[1..] == [];
    assert EncEntries(entries) == Ok(StringBytes(text) + [0xC0] + []);
  }

  /** Re-encoding never takes more bytes than decoding consumed if and only if no key is
      written in more bytes than it took. */
  lemma ShortestIff(sprint: Sprint)
    ensures AlwaysShortest(sprint) <==> Thrifty(sprint)
  {
    hide Decode, Enc;
    if Thrifty(sprint) {
      forall s ensures ShortestAt(s, sprint) {
        if Decode(s, sprint).Ok? && Enc(Decode(s, sprint).value.0).Ok? { EncodingIsShortest(s, sprint); }
      }
    }
    if AlwaysShortest(sprint) {
      forall s ensures ThriftyAt(s, sprint) {
        if Decode(s, sprint).Ok? && !Decode(s, sprint).value.0.PString? && sprint(Decode(s, sprint).value.0).Some? {
          var whole := OneEntry(s, sprint);
          OneEntryBytes(sprint(Decode(s, sprint).value.0).value);
          assert ShortestAt(whole, sprint);
        }
      }
    }
  }

  /** Refusing other keys is thrifty. */
  lemma StrictIsThrifty()
    ensures Thrifty(STRICT)
  {
  }

  /** Writing any key of one byte is not. */
  lemma OneByteKeyIsNot(sprint: Sprint, i: Int64)
    requires 0 <= i <= 127 && sprint(PInt(i)).Some? && sprint(PInt(i)).value != []
    ensures !Thrifty(sprint)
  {
    var s: Bytes := [i];
    assert Decode(s, sprint) == Ok((PInt(i), []));
    assert !ThriftyAt(s, sprint);
  }

  // ---------- keys that are no strings ----------

  lemma StrictKeys(key: Value)
    requires KeyText(key, STRICT).Some?
    ensures key.PString? && KeyText(key, STRICT) == Some(key.s)
  {
  }

  lemma {:induction false} StrictItems(s: Bytes, n: nat, acc: seq<Value>, sprint: Sprint)
    requires ReadItems(s, n, acc, STRICT).Ok?
    ensures ReadItems(s, n, acc, sprint) == ReadItems(s, n, acc, STRICT)
    decreases |s|, 1
  {
    hide Decode, STRICT;
    if n > 0 {
      StrictAgrees(s, sprint);
      var (v, rest) := Decode(s, STRICT).value;
      StrictItems(rest, n - 1, acc + [v], sprint);
    }
  }

  lemma {:induction false} StrictEntries(s: Bytes, n: nat, acc: seq<Entry>, sprint: Sprint)
    requires ReadEntries(s, n, acc, STRICT).Ok?
    ensures ReadEntries(s, n, acc, sprint) == ReadEntries(s, n, acc, STRICT)
    decreases |s|, 1
  {
    hide Decode, Put, STRICT;
    if n > 0 {
      StrictAgrees(s, sprint);
      var (key, rest) := Decode(s, STRICT).value;
      StrictAgrees(rest, sprint);
      var (v, rest2) := Decode(rest, STRICT).value;
      StrictKeys(key);
      StrictEntries(rest2, n - 1, Put(acc, key.s, v), sprint);
    }
  }

  /** What is accepted with string keys only is decoded the same however other keys are
      written. */
  lemma {:induction false} StrictAgrees(s: Bytes, sprint: Sprint)
    requires Decode(s, STRICT).Ok?
    ensures Decode(s, sprint) == Decode(s, STRICT)
    decreases |s|, 0
  {
    hide DecodeMarker, STRICT;
    StrictMarker(s[0], s[1..], sprint);
  }

  lemma {:induction false} StrictList(t: Bytes, n: nat, sprint: Sprint)
    ensures ReadList(t, n, STRICT).Ok? ==> ReadList(t, n, sprint) == ReadList(t, n, STRICT)
    ensures ReadMap(t, n, STRICT).Ok? ==> ReadMap(t, n, sprint) == ReadMap(t, n, STRICT)
    ensures ReadStruct(t, n, STRICT).Ok? ==> ReadStruct(t, n, sprint) == ReadStruct(t, n, STRICT)
    decreases |t|, 2
  {
    hide ReadItems, ReadEntries, STRICT;
    if ReadList(t, n, STRICT).Ok? { StrictItems(t, n, [], sprint); }
    if ReadMap(t, n, STRICT).Ok? { StrictEntries(t, n, [], sprint); }
    if ReadStruct(t, n, STRICT).Ok? { StrictItems(t[1..], n, [], sprint); }
  }

  lemma {:induction false} StrictMarker(b: Byte, t: Bytes, sprint: Sprint)
    requires DecodeMarker(b, t, STRICT).Ok?
    ensures DecodeMarker(b, t, sprint) == DecodeMarker(b, t, STRICT)
    decreases |t|, 4
  {
    hide ReadInt, ReadString, ReadList, ReadMap, ReadStruct, DecodeSized, STRICT;
    if 0x90 <= b <= 0x9F { StrictList(t, b - 0x90, sprint); }
    if 0xA0 <= b <= 0xAF { StrictList(t, b - 0xA0, sprint); }
    if 0xB0 <= b <= 0xBF { StrictList(t, b - 0xB0, sprint); }
    if 0xC0 <= b < 0xF0 { StrictSized(b, t, sprint); }
  }

  lemma {:induction false} StrictSized(b: Byte, t: Bytes, sprint: Sprint)
    requires DecodeSized(b, t, STRICT).Ok?
    ensures DecodeSized(b, t, sprint) == DecodeSized(b, t, STRICT)
    decreases |t|, 3
  {
    hide ReadInt, ReadString, ReadList, ReadMap, ReadStruct, ReadNumber, STRICT;
    if b == 0xD4 || b == 0xD8 || b == 0xDC {
      var (n, rest) := ReadNumber(t, 1).value;
      StrictList(rest, n, sprint);
    }
    if b == 0xD5 || b == 0xD9 {
      var (n, rest) := ReadNumber(t, 2).value;
      StrictList(rest, n, sprint);
    }
  }

  /** However other keys are written, a value accepted with string keys only is re-encoded
      in no more bytes than it was decoded from. */
  lemma StringKeysShortest(s: Bytes, sprint: Sprint)
    requires Decode(s, STRICT).Ok? && Enc(Decode(s, STRICT).value.0).Ok?
    ensures Decode(s, sprint) == Decode(s, STRICT) && ShortestAt(s, sprint)
  {
    hide Decode, Enc;
    StrictAgrees(s, sprint);
    StrictIsThrifty();
    EncodingIsShortest(s, STRICT);
  }
}
