/** Decoding undoes encoding exactly when every length fits its field, whatever follows. */
module PackStreamRoundTrip {
  import opened Results
  import opened Bytes
  import opened PackStream

  // ---------- what fits ----------

  /** Strings under 2^32 bytes, lists and maps of at most 65535 entries, all the way down. */
  predicate Fits(v: Value)
    decreases v
  {
    match v
    case PString(s) => |s| < 0x1_0000_0000
    case PList(items) => |items| <= 0xFFFF && ItemsFit(items)
    case PMap(entries) => |entries| <= 0xFFFF && EntriesFit(entries)
    case _ => true
  }

  predicate ItemsFit(items: seq<Value>)
    decreases items
  {
    items == [] || (Fits(items[0]) && ItemsFit(items[1..]))
  }

  predicate EntriesFit(entries: seq<Entry>)
    decreases entries
  {
    entries == [] || (|entries[0].key| < 0x1_0000_0000 && Fits(entries[0].value) && EntriesFit(entries[1..]))
  }

  predicate HasKey(entries: seq<Entry>, key: Bytes) {
    exists i | 0 <= i < |entries| :: entries[i].key == key
  }

  /** Maps name each key once, all the way down. */
  predicate Proper(v: Value)
    decreases v
  {
    match v
    case PList(items) => ItemsProper(items)
    case PMap(entries) => EntriesProper(entries)
    case _ => true
  }

  predicate ItemsProper(items: seq<Value>)
    decreases items
  {
    items == [] || (Proper(items[0]) && ItemsProper(items[1..]))
  }

  predicate EntriesProper(entries: seq<Entry>)
    decreases entries
  {
    entries == [] || (!HasKey(entries[1..], entries[0].key) && Proper(entries[0].value) && EntriesProper(entries[1..]))
  }

  // ---------- numbers ----------

  lemma NumberBack(k: nat, n: nat, rest: Bytes)
    ensures Pow256(k) > 0 && ReadNumber(BigEndian(k, n) + rest, k) == Ok((n % Pow256(k), rest))
  {
    var s := BigEndian(k, n) + rest;
    assert s[..k] == BigEndian(k, n) && s[k..] == rest;
    BigEndianTruncates(k, n);
  }

  lemma SignedBack(k: nat, i: Int64, rest: Bytes)
    requires (k == 1 || k == 2 || k == 4 || k == 8) && InRange(k, i)
    ensures ReadInt(SignedBytes(k, i) + rest, k) == Ok((PInt(i), rest))
  {
    hide BigEndian, ReadNumber;
    SignedInverse(k, i);
    var n := Unsigned(k, i);
    NumberBack(k, n, rest);
    BigEndianTruncates(k, n);
    BigEndianInverse(k, n);
    ReadNumberExact(k, n, rest);
  }

  lemma ReadNumberExact(k: nat, n: nat, rest: Bytes)
    requires n < Pow256(k)
    ensures ReadNumber(BigEndian(k, n) + rest, k) == Ok((n, rest))
  {
    var s := BigEndian(k, n) + rest;
    assert s[..k] == BigEndian(k, n) && s[k..] == rest;
    BigEndianInverse(k, n);
  }

  lemma MarkerStep(b: Byte, t: Bytes, sprint: Sprint)
    ensures Decode([b] + t, sprint) == DecodeMarker(b, t, sprint)
  {
    hide DecodeMarker;
    assert ([b] + t)[1..] == t;
  }

  lemma SizedInt(b: Byte, k: nat, t: Bytes, sprint: Sprint)
    requires (b == 0xC8 && k == 1) || (b == 0xC9 && k == 2) || (b == 0xCA && k == 4) || (b == 0xCB && k == 8)
    ensures DecodeMarker(b, t, sprint) == ReadInt(t, k)
  {
    hide ReadInt, ReadString, ReadList, ReadMap, ReadStruct, ReadNumber;
  }

  lemma TinyInt(i: Int64, rest: Bytes, sprint: Sprint)
    requires -16 <= i <= 127
    ensures Decode(IntBytes(i) + rest, sprint) == Ok((PInt(i), rest))
  {
    hide Decode, ReadInt, ReadString, ReadList, ReadMap, ReadStruct, ReadNumber;
    Pow256Values();
    MarkerStep(Unsigned(1, i) % 256, rest, sprint);
  }

  lemma WideInt(b: Byte, k: nat, i: Int64, rest: Bytes, sprint: Sprint)
    requires (b == 0xC8 && k == 1) || (b == 0xC9 && k == 2) || (b == 0xCA && k == 4) || (b == 0xCB && k == 8)
    requires InRange(k, i)
    ensures Decode([b] + SignedBytes(k, i) + rest, sprint) == Ok((PInt(i), rest))
  {
    hide SignedBytes, ReadInt, Decode, DecodeMarker, InRange;
    SignedBack(k, i, rest);
    SizedInt(b, k, SignedBytes(k, i) + rest, sprint);
    MarkerStep(b, SignedBytes(k, i) + rest, sprint);
    assert [b] + SignedBytes(k, i) + rest == [b] + (SignedBytes(k, i) + rest);
  }

  lemma IntBack(i: Int64, rest: Bytes, sprint: Sprint)
    ensures Decode(IntBytes(i) + rest, sprint) == Ok((PInt(i), rest))
  {
    hide SignedBytes, Decode;
    Pow256Values();
    if -16 <= i <= 127 {
      TinyInt(i, rest, sprint);
    } else if -0x80 <= i <= 0x7F {
      WideInt(0xC8, 1, i, rest, sprint);
    } else if -0x8000 <= i <= 0x7FFF {
      WideInt(0xC9, 2, i, rest, sprint);
    } else if -0x8000_0000 <= i <= 0x7FFF_FFFF {
      WideInt(0xCA, 4, i, rest, sprint);
    } else {
      WideInt(0xCB, 8, i, rest, sprint);
    }
  }

  lemma FloatBack(bits: Bits64, rest: Bytes, sprint: Sprint)
    ensures Decode([0xC1] + BigEndian(8, bits) + rest, sprint) == Ok((PFloat(bits), rest))
  {
    hide BigEndian, ReadNumber, Decode, ReadList, ReadMap, ReadStruct;
    Pow256Values();
    ReadNumberExact(8, bits, rest);
    MarkerStep(0xC1, BigEndian(8, bits) + rest, sprint);
    assert [0xC1] + BigEndian(8, bits) + rest == [0xC1] + (BigEndian(8, bits) + rest);
  }

  // ---------- heads ----------

  /** A marker and a number of k bytes. */
  lemma SizedHead(b: Byte, k: nat, n: nat, t: Bytes, sprint: Sprint)
    ensures Pow256(k) > 0
    ensures Decode([b] + BigEndian(k, n) + t, sprint) == DecodeMarker(b, BigEndian(k, n) + t, sprint)
    ensures ReadNumber(BigEndian(k, n) + t, k) == Ok((n % Pow256(k), t))
  {
    hide DecodeMarker, ReadNumber, BigEndian, Decode;
    assert [b] + BigEndian(k, n) + t == [b] + (BigEndian(k, n) + t);
    MarkerStep(b, BigEndian(k, n) + t, sprint);
    NumberBack(k, n, t);
  }

  lemma OneByte(n: Byte)
    ensures BigEndian(1, n) == [n] && Pow256(1) == 256
  {
    assert BigEndian(0, n / 256) == [];
  }

  lemma SizedString(b: Byte, k: nat, t: Bytes, sprint: Sprint)
    requires (b == 0xD0 && k == 1) || (b == 0xD1 && k == 2) || (b == 0xD2 && k == 4)
    ensures DecodeMarker(b, t, sprint) == var n := ReadNumber(t, k); if n.Err? then Err else ReadString(n.value.1, n.value.0)
  {
    hide ReadInt, ReadString, ReadList, ReadMap, ReadStruct, ReadNumber;
  }

  lemma TinyString(n: nat, t: Bytes, sprint: Sprint)
    requires n < 16
    ensures Decode([0x80 + n] + t, sprint) == ReadString(t, n)
  {
    hide Decode, ReadInt, ReadString, ReadList, ReadMap, ReadStruct, ReadNumber;
    MarkerStep(0x80 + n, t, sprint);
  }

  /** A count that fits its field. */
  lemma FittingString(b: Byte, k: nat, n: nat, t: Bytes, sprint: Sprint)
    requires (b == 0xD0 && k == 1) || (b == 0xD1 && k == 2) || (b == 0xD2 && k == 4)
    requires n < Pow256(k)
    ensures Decode([b] + BigEndian(k, n) + t, sprint) == ReadString(t, n)
  {
    hide ReadString, ReadNumber, BigEndian, Decode, DecodeMarker, Pow256;
    SizedHead(b, k, n, t, sprint);
    ReadNumberExact(k, n, t);
    SizedString(b, k, BigEndian(k, n) + t, sprint);
  }

  /** One of four bytes, cut off if it does not. */
  lemma LongString(n: nat, t: Bytes, sprint: Sprint)
    ensures Decode([0xD2] + BigEndian(4, n) + t, sprint) == ReadString(t, n % 0x1_0000_0000)
  {
    hide ReadString, ReadNumber, BigEndian, Decode, DecodeMarker;
    Pow256Values();
    SizedHead(0xD2, 4, n, t, sprint);
    SizedString(0xD2, 4, BigEndian(4, n) + t, sprint);
  }

  lemma StringHeadBack(n: nat, t: Bytes, sprint: Sprint)
    ensures Decode(StringHead(n) + t, sprint) == ReadString(t, n % 0x1_0000_0000)
  {
    hide ReadString, BigEndian, Decode, Pow256;
    Pow256Values();
    if n < 16 {
      TinyString(n, t, sprint);
    } else if n <= 0xFF {
      OneByte(n);
      FittingString(0xD0, 1, n, t, sprint);
      assert [0xD0, n] == [0xD0] + [n];
    } else if n <= 0xFFFF {
      FittingString(0xD1, 2, n, t, sprint);
    } else {
      LongString(n, t, sprint);
    }
  }

  lemma SizedList(b: Byte, k: nat, t: Bytes, sprint: Sprint)
    requires (b == 0xD4 && k == 1) || (b == 0xD5 && k == 2)
    ensures DecodeMarker(b, t, sprint) == var n := ReadNumber(t, k); if n.Err? then Err else ReadList(n.value.1, n.value.0, sprint)
  {
    hide ReadInt, ReadString, ReadList, ReadMap, ReadStruct, ReadNumber;
  }

  lemma TinyList(n: nat, t: Bytes, sprint: Sprint)
    requires n < 16
    ensures Decode([0x90 + n] + t, sprint) == ReadList(t, n, sprint)
  {
    hide Decode, ReadInt, ReadString, ReadList, ReadMap, ReadStruct, ReadNumber;
    MarkerStep(0x90 + n, t, sprint);
  }

  lemma ListHeadBack(n: nat, t: Bytes, sprint: Sprint)
    ensures Decode(ListHead(n) + t, sprint) == ReadList(t, n % 0x1_0000, sprint)
  {
    hide ReadList, ReadNumber, BigEndian, Decode, DecodeMarker;
    if n < 16 {
      TinyList(n, t, sprint);
    } else {
      Pow256Values();
      var k := if n <= 0xFF then 1 else 2;
      var b: Byte := if k == 1 then 0xD4 else 0xD5;
      if k == 1 { OneByte(n); }
      assert ListHead(n) == [b] + BigEndian(k, n);
      SizedHead(b, k, n, t, sprint);
      SizedList(b, k, BigEndian(k, n) + t, sprint);
    }
  }

  lemma SizedMap(b: Byte, k: nat, t: Bytes, sprint: Sprint)
    requires (b == 0xD8 && k == 1) || (b == 0xD9 && k == 2)
    ensures DecodeMarker(b, t, sprint) == var n := ReadNumber(t, k); if n.Err? then Err else ReadMap(n.value.1, n.value.0, sprint)
  {
    hide ReadInt, ReadString, ReadList, ReadMap, ReadStruct, ReadNumber;
  }

  lemma TinyMap(n: nat, t: Bytes, sprint: Sprint)
    requires n < 16
    ensures Decode([0xA0 + n] + t, sprint) == ReadMap(t, n, sprint)
  {
    hide Decode, ReadInt, ReadString, ReadList, ReadMap, ReadStruct, ReadNumber;
    MarkerStep(0xA0 + n, t, sprint);
  }

  lemma MapHeadBack(n: nat, t: Bytes, sprint: Sprint)
    ensures Decode(MapHead(n) + t, sprint) == ReadMap(t, n % 0x1_0000, sprint)
  {
    hide ReadMap, ReadNumber, BigEndian, Decode, DecodeMarker;
    if n < 16 {
      TinyMap(n, t, sprint);
    } else {
      Pow256Values();
      var k := if n <= 0xFF then 1 else 2;
      var b: Byte := if k == 1 then 0xD8 else 0xD9;
      if k == 1 { OneByte(n); }
      assert MapHead(n) == [b] + BigEndian(k, n);
      SizedHead(b, k, n, t, sprint);
      SizedMap(b, k, BigEndian(k, n) + t, sprint);
    }
  }

  /** A string is read back, or one of another length. */
  lemma StringBack(s: Bytes, rest: Bytes, sprint: Sprint)
    ensures |s| < 0x1_0000_0000 ==> Decode(StringBytes(s) + rest, sprint) == Ok((PString(s), rest))
    ensures |s| >= 0x1_0000_0000 ==> var r := Decode(StringBytes(s) + rest, sprint); r.Ok? ==> r.value.0.PString? && r.value.0.s != s
  {
    hide Decode, StringHead;
    assert StringBytes(s) + rest == StringHead(|s|) + (s + rest);
    StringHeadBack(|s|, s + rest, sprint);
    assert (s + rest)[..|s|] == s && (s + rest)[|s|..] == rest;
  }

  // ---------- reading several ----------

  lemma ItemsStep(s: Bytes, n: nat, acc: seq<Value>, sprint: Sprint)
    ensures ReadItems(s, 0, acc, sprint) == Ok((acc, s))
    ensures n > 0 ==> ReadItems(s, n, acc, sprint) == var v := Decode(s, sprint);
                        if v.Err? then Err else ReadItems(v.value.1, n - 1, acc + [v.value.0], sprint)
  {
    hide Decode;
  }

  lemma {:induction false} ItemsKeepPrefix(s: Bytes, n: nat, acc: seq<Value>, sprint: Sprint)
    ensures var r := ReadItems(s, n, acc, sprint); r.Ok? ==> |r.value.0| == |acc| + n && acc <= r.value.0
    decreases n
  {
    hide Decode, ReadItems;
    ItemsStep(s, n, acc, sprint);
    if n > 0 {
      var v := Decode(s, sprint);
      if v.Ok? { ItemsKeepPrefix(v.value.1, n - 1, acc + [v.value.0], sprint); }
    }
  }

  lemma EntriesStep(s: Bytes, n: nat, acc: seq<Entry>, sprint: Sprint)
    ensures ReadEntries(s, 0, acc, sprint) == Ok((acc, s))
    ensures n > 0 ==> ReadEntries(s, n, acc, sprint) == var key := Decode(s, sprint);
                        if key.Err? then Err else
                        var v := Decode(key.value.1, sprint);
                        if v.Err? || KeyText(key.value.0, sprint).None? then Err
                        else ReadEntries(v.value.1, n - 1, Put(acc, KeyText(key.value.0, sprint).value, v.value.0), sprint)
  {
    hide Decode;
  }

  lemma {:induction false} PutAppends(entries: seq<Entry>, key: Bytes, v: Value)
    ensures |Put(entries, key, v)| == |entries| + 1 <==> !HasKey(entries, key)
    ensures !HasKey(entries, key) ==> Put(entries, key, v) == entries + [Entry(key, v)]
  {
    hide HasKey;
    if entries == [] {
      NoKeys(key);
    } else {
      PutAppends(entries[1..], key, v);
      HasKeySplit(entries, key);
      assert entries == [entries[0]] + entries[1..];
    }
  }

  lemma NoKeys(key: Bytes)
    ensures !HasKey([], key)
  {
  }

  lemma HasKeySplit(entries: seq<Entry>, key: Bytes)
    requires entries != []
    ensures HasKey(entries, key) <==> entries[0].key == key || HasKey(entries[1..], key)
  {
    if HasKey(entries[1..], key) {
      var i :| 0 <= i < |entries[1..]| && entries[1..][i].key == key;
      assert entries[i + 1].key == key;
    }
    if HasKey(entries, key) && entries[0].key != key {
      var i :| 0 <= i < |entries| && entries[i].key == key;
      assert entries[1..][i - 1].key == key;
    }
  }

  /** Reading n entries adds at most n; if it adds all of them, it only appends. */
  lemma {:induction false} EntriesKeepPrefix(s: Bytes, n: nat, acc: seq<Entry>, sprint: Sprint)
    ensures var r := ReadEntries(s, n, acc, sprint);
            r.Ok? ==> |r.value.0| <= |acc| + n && (|r.value.0| == |acc| + n ==> acc <= r.value.0)
    decreases n
  {
    hide Decode, ReadEntries, Put, HasKey;
    EntriesStep(s, n, acc, sprint);
    if n > 0 {
      var key := Decode(s, sprint);
      if key.Ok? {
        var v := Decode(key.value.1, sprint);
        var text := KeyText(key.value.0, sprint);
        if v.Ok? && text.Some? {
          PutAppends(acc, text.value, v.value.0);
          EntriesKeepPrefix(v.value.1, n - 1, Put(acc, text.value, v.value.0), sprint);
        }
      }
    }
  }

  // ---------- the round trip ----------

  /** What decoding an encoding gives: the value and what follows if it fits, and never
      that value if it does not. */
  predicate Returned(v: Value, fits: bool, r: Decoded<Value>, rest: Bytes) {
    if fits then r == Ok((v, rest)) else r.Ok? ==> r.value.0 != v
  }

  lemma ListParts(items: seq<Value>)
    requires Enc(PList(items)).Ok?
    ensures EncItems(items).Ok? && Enc(PList(items)).value == ListHead(|items|) + EncItems(items).value
  {
  }

  lemma MapParts(entries: seq<Entry>)
    requires Enc(PMap(entries)).Ok?
    ensures EncEntries(entries).Ok? && Enc(PMap(entries)).value == MapHead(|entries|) + EncEntries(entries).value
  {
  }

  lemma ItemsParts(items: seq<Value>)
    requires items != [] && EncItems(items).Ok?
    ensures Enc(items[0]).Ok? && EncItems(items[1..]).Ok?
    ensures EncItems(items).value == Enc(items[0]).value + EncItems(items[1..]).value
  {
  }

  lemma EntriesParts(entries: seq<Entry>)
    requires entries != [] && EncEntries(entries).Ok?
    ensures Enc(entries[0].value).Ok? && EncEntries(entries[1..]).Ok?
    ensures EncEntries(entries).value == StringBytes(entries[0].key) + Enc(entries[0].value).value + EncEntries(entries[1..]).value
  {
  }

  lemma {:induction false} ValueBack(v: Value, rest: Bytes, sprint: Sprint)
    requires Enc(v).Ok? && Proper(v)
    ensures Returned(v, Fits(v), Decode(Enc(v).value + rest, sprint), rest)
    decreases v, 1
  {
    hide Decode, StringBytes, BigEndian, IntBytes, EncItems, EncEntries;
    match v {
      case PNil => MarkerStep(0xC0, rest, sprint);
      case PBool(b) => MarkerStep(if b then 0xC3 else 0xC2, rest, sprint);
      case PInt(i) => IntBack(i, rest, sprint);
      case PFloat(bits) => FloatBack(bits, rest, sprint);
      case PString(s) => StringBack(s, rest, sprint);
      case PList(items) => ListBack(items, rest, sprint);
      case PMap(entries) => MapBack(entries, rest, sprint);
      case PStruct(_, _) =>
    }
  }

  lemma {:induction false} ListBack(items: seq<Value>, rest: Bytes, sprint: Sprint)
    requires Enc(PList(items)).Ok? && ItemsProper(items)
    ensures Returned(PList(items), Fits(PList(items)), Decode(Enc(PList(items)).value + rest, sprint), rest)
    decreases items, 1
  {
    hide Decode, EncItems, ListHead, ReadItems, ItemsProper, ItemsFit, Enc;
    ListParts(items);
    var body, n := EncItems(items).value, |items| % 0x1_0000;
    assert ListHead(|items|) + body + rest == ListHead(|items|) + (body + rest);
    ListHeadBack(|items|, body + rest, sprint);
    if |items| <= 0xFFFF {
      ItemsBack(items, rest, [], sprint);
      assert [] + items == items;
    } else {
      ItemsKeepPrefix(body + rest, n, [], sprint);
    }
  }

  lemma NoItems(rest: Bytes, acc: seq<Value>, sprint: Sprint)
    ensures EncItems([]) == Ok([]) && ItemsFit([]) && ReadItems([] + rest, 0, acc, sprint) == Ok((acc + [], rest))
  {
    assert [] + rest == rest && acc + [] == acc;
  }

  lemma {:induction false} ItemsBack(items: seq<Value>, rest: Bytes, acc: seq<Value>, sprint: Sprint)
    requires EncItems(items).Ok? && ItemsProper(items)
    ensures var r := ReadItems(EncItems(items).value + rest, |items|, acc, sprint);
            if ItemsFit(items) then r == Ok((acc + items, rest)) else r.Ok? ==> r.value.0 != acc + items
    decreases items, 0
  {
    hide Decode, EncItems, Enc, ReadItems, Fits;
    if items == [] {
      NoItems(rest, acc, sprint);
    } else {
      ItemsParts(items);
      var first, more := Enc(items[0]).value, EncItems(items[1..]).value;
      assert first + more + rest == first + (more + rest);
      ValueBack(items[0], more + rest, sprint);
      ItemsStep(first + (more + rest), |items|, acc, sprint);
      var v := Decode(first + (more + rest), sprint);
      if Fits(items[0]) {
        ItemsBack(items[1..], rest, acc + [items[0]], sprint);
        assert acc + [items[0]] + items[1..] == acc + items;
      } else if v.Ok? {
        ItemsKeepPrefix(v.value.1, |items| - 1, acc + [v.value.0], sprint);
        assert (acc + items)[|acc|] == items[0];
      }
    }
  }

  lemma {:induction false} MapBack(entries: seq<Entry>, rest: Bytes, sprint: Sprint)
    requires Enc(PMap(entries)).Ok? && EntriesProper(entries)
    ensures Returned(PMap(entries), Fits(PMap(entries)), Decode(Enc(PMap(entries)).value + rest, sprint), rest)
    decreases entries, 1
  {
    hide Decode, EncEntries, MapHead, ReadEntries, EntriesProper, EntriesFit, Enc;
    MapParts(entries);
    var body, n := EncEntries(entries).value, |entries| % 0x1_0000;
    assert MapHead(|entries|) + body + rest == MapHead(|entries|) + (body + rest);
    MapHeadBack(|entries|, body + rest, sprint);
    if |entries| <= 0xFFFF {
      EntriesBack(entries, rest, [], sprint);
      assert [] + entries == entries;
    } else {
      EntriesKeepPrefix(body + rest, n, [], sprint);
    }
  }

  lemma NoEntries(rest: Bytes, acc: seq<Entry>, sprint: Sprint)
    ensures EncEntries([]) == Ok([]) && EntriesFit([]) && ReadEntries([] + rest, 0, acc, sprint) == Ok((acc + [], rest))
  {
    assert [] + rest == rest && acc + [] == acc;
  }

  predicate Apart(acc: seq<Entry>, entries: seq<Entry>) {
    forall i | 0 <= i < |entries| :: !HasKey(acc, entries[i].key)
  }

  lemma ApartStep(acc: seq<Entry>, entries: seq<Entry>)
    requires entries != [] && Apart(acc, entries) && EntriesProper(entries)
    ensures Apart(acc + [entries[0]], entries[1..]) && !HasKey(acc, entries[0].key)
  {
    hide HasKey;
    var more := acc + [entries[0]];
    assert !HasKey(acc, entries[0].key);
    forall i | 0 <= i < |entries[1..]| ensures !HasKey(more, entries[1..][i].key) {
      assert !HasKey(acc, entries[i + 1].key);
      HasKeyMore(acc, entries[0], entries[i + 1].key);
      KeyIn(entries[1..], i);
    }
  }

  lemma HasKeyMore(acc: seq<Entry>, e: Entry, key: Bytes)
    ensures HasKey(acc + [e], key) ==> HasKey(acc, key) || e.key == key
  {
    var more := acc + [e];
    if j :| 0 <= j < |more| && more[j].key == key {
      assert j < |acc| ==> acc[j].key == key;
    }
  }

  lemma KeyIn(entries: seq<Entry>, i: nat)
    requires i < |entries|
    ensures HasKey(entries, entries[i].key)
  {
  }

  /** The first entry read back, or another in its place. */
  lemma {:induction false} EntriesBack(entries: seq<Entry>, rest: Bytes, acc: seq<Entry>, sprint: Sprint)
    requires EncEntries(entries).Ok? && EntriesProper(entries) && Apart(acc, entries)
    ensures var r := ReadEntries(EncEntries(entries).value + rest, |entries|, acc, sprint);
            if EntriesFit(entries) then r == Ok((acc + entries, rest)) else r.Ok? ==> r.value.0 != acc + entries
    decreases entries, 0
  {
    hide Decode, EncEntries, Enc, ReadEntries, Fits, StringBytes, Put, HasKey, Apart;
    if entries == [] {
      NoEntries(rest, acc, sprint);
    } else {
      EntriesParts(entries);
      ApartStep(acc, entries);
      var e := entries[0];
      var k, first, more := StringBytes(e.key), Enc(e.value).value, EncEntries(entries[1..]).value;
      assert k + first + more + rest == k + (first + (more + rest));
      StringBack(e.key, first + (more + rest), sprint);
      ValueBack(e.value, more + rest, sprint);
      EntriesStep(k + (first + (more + rest)), |entries|, acc, sprint);
      if |e.key| < 0x1_0000_0000 && Fits(e.value) {
        PutAppends(acc, e.key, e.value);
        EntriesBack(entries[1..], rest, acc + [e], sprint);
        assert acc + [e] + entries[1..] == acc + entries;
      } else {
        OtherEntry(entries, acc, k + (first + (more + rest)), sprint);
      }
    }
  }

  /** If the first entry read is another one, so is the whole. */
  lemma OtherEntry(entries: seq<Entry>, acc: seq<Entry>, s: Bytes, sprint: Sprint)
    requires entries != []
    requires var key := Decode(s, sprint); key.Ok? ==>
               var v := Decode(key.value.1, sprint); v.Ok? ==>
                 KeyText(key.value.0, sprint) != Some(entries[0].key) || v.value.0 != entries[0].value
    ensures var r := ReadEntries(s, |entries|, acc, sprint); r.Ok? ==> r.value.0 != acc + entries
  {
    hide Decode, ReadEntries, Put, HasKey;
    EntriesStep(s, |entries|, acc, sprint);
    var key := Decode(s, sprint);
    if key.Ok? {
      var v, text := Decode(key.value.1, sprint), KeyText(key.value.0, sprint);
      if v.Ok? && text.Some? {
        PutAppends(acc, text.value, v.value.0);
        EntriesKeepPrefix(v.value.1, |entries| - 1, Put(acc, text.value, v.value.0), sprint);
        assert (acc + entries)[|acc|] == entries[0];
      }
    }
  }

  /** Decoding an encodable value's encoding, whatever follows it, gives the value back and
      leaves exactly what follows, if and only if all its lengths fit. */
  lemma RoundTripIff(v: Value, rest: Bytes, sprint: Sprint)
    requires Enc(v).Ok? && Proper(v)
    ensures Decode(Enc(v).value + rest, sprint) == Ok((v, rest)) <==> Fits(v)
  {
    hide Decode, Enc, Fits, Proper;
    ValueBack(v, rest, sprint);
  }
}
