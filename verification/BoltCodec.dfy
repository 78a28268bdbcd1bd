/** The codec's objects: a buffer the encoder appends to, a reader the decoder advances,
    and the recursive routines over them. */
module BoltCodec {
  import opened Results
  import opened Bytes
  import opened PackStream

  // ---------- encoder ----------

  class ByteBuffer {
    var data: Bytes

    constructor ()
      ensures data == []
    {
      data := [];
    }

    method WriteByte(b: Byte)
      modifies this
      ensures data == old(data) + [b]
    {
      data := data + [b];
    }

    method Write(s: Bytes)
      modifies this
      ensures data == old(data) + s
    {
      data := data + s;
    }
  }

  method PackInt(buf: ByteBuffer, i: Int64)
    modifies buf
    ensures buf.data == old(buf.data) + IntBytes(i)
  {
    hide SignedBytes;
    if -16 <= i <= 127 {
      buf.WriteByte(Unsigned(1, i) % 256);
      return;
    }
    if -0x80 <= i <= 0x7F {
      buf.WriteByte(0xC8);
      buf.Write(SignedBytes(1, i));
      return;
    }
    if -0x8000 <= i <= 0x7FFF {
      buf.WriteByte(0xC9);
      buf.Write(SignedBytes(2, i));
      return;
    }
    if -0x8000_0000 <= i <= 0x7FFF_FFFF {
      buf.WriteByte(0xCA);
      buf.Write(SignedBytes(4, i));
      return;
    }
    buf.WriteByte(0xCB);
    buf.Write(SignedBytes(8, i));
  }

  method PackString(buf: ByteBuffer, s: Bytes)
    modifies buf
    ensures buf.data == old(buf.data) + StringBytes(s)
  {
    hide BigEndian;
    var n := |s|;
    if n < 16 {
      buf.WriteByte(0x80 + n);
    } else if n <= 0xFF {
      buf.WriteByte(0xD0);
      buf.WriteByte(n);
    } else if n <= 0xFFFF {
      buf.WriteByte(0xD1);
      buf.Write(BigEndian(2, n));
    } else {
      buf.WriteByte(0xD2);
      buf.Write(BigEndian(4, n));
    }
    assert buf.data == old(buf.data) + StringHead(n);
    buf.Write(s);
  }

  /** A list's or map's count, under the given tiny, one-byte and two-byte markers. */
  method PackCount(buf: ByteBuffer, n: nat, tiny: Byte, small: Byte, large: Byte)
    requires tiny + 15 < 256
    modifies buf
    ensures buf.data == old(buf.data) + if n < 16 then [tiny + n] else if n <= 0xFF then [small, n] else [large] + BigEndian(2, n)
  {
    hide BigEndian;
    if n < 16 {
      buf.WriteByte(tiny + n);
    } else if n <= 0xFF {
      buf.WriteByte(small);
      buf.WriteByte(n);
    } else {
      buf.WriteByte(large);
      buf.Write(BigEndian(2, n));
    }
  }

  lemma EncItemsStep(items: seq<Value>, i: nat)
    requires i < |items|
    ensures EncItems(items[i..]).Ok? <==> Enc(items[i]).Ok? && EncItems(items[i + 1..]).Ok?
    ensures EncItems(items[i..]).Ok? ==> EncItems(items[i..]).value == Enc(items[i]).value + EncItems(items[i + 1..]).value
  {
    hide Enc;
    assert items[i..][1..] == items[i + 1..];
  }

  lemma EncEntriesStep(entries: seq<Entry>, i: nat)
    requires i < |entries|
    ensures EncEntries(entries[i..]).Ok? <==> Enc(entries[i].value).Ok? && EncEntries(entries[i + 1..]).Ok?
    ensures EncEntries(entries[i..]).Ok? ==>
              EncEntries(entries[i..]).value == StringBytes(entries[i].key) + Enc(entries[i].value).value + EncEntries(entries[i + 1..]).value
  {
    hide Enc, StringBytes;
    assert entries[i..][1..] == entries[i + 1..];
  }

  method PackItems(buf: ByteBuffer, items: seq<Value>) returns (ok: bool)
    modifies buf
    ensures ok <==> EncItems(items).Ok?
    ensures ok ==> buf.data == old(buf.data) + EncItems(items).value
    decreases items, 0
  {
    hide Enc, EncItems;
    ghost var start, all := buf.data, EncItems(items);
    NothingEncoded();
    assert items[0..] == items;
    ghost var written: Bytes := [];
    for i := 0 to |items|
      invariant buf.data == start + written
      invariant all.Ok? <==> EncItems(items[i..]).Ok?
      invariant all.Ok? ==> all.value == written + EncItems(items[i..]).value
    {
      EncItemsStep(items, i);
      ok := PackStreamEncode(buf, items[i]);
      if !ok { return; }
      written := written + Enc(items[i]).value;
    }
    assert items[|items|..] == [];
    ok := true;
  }

  lemma NothingEncoded()
    ensures EncItems([]) == Ok([]) && EncEntries([]) == Ok([])
  {
  }

  method PackEntries(buf: ByteBuffer, entries: seq<Entry>) returns (ok: bool)
    modifies buf
    ensures ok <==> EncEntries(entries).Ok?
    ensures ok ==> buf.data == old(buf.data) + EncEntries(entries).value
    decreases entries, 0
  {
    hide Enc, EncEntries, StringBytes;
    ghost var start, all := buf.data, EncEntries(entries);
    NothingEncoded();
    assert entries[0..] == entries;
    ghost var written: Bytes := [];
    for i := 0 to |entries|
      invariant buf.data == start + written
      invariant all.Ok? <==> EncEntries(entries[i..]).Ok?
      invariant all.Ok? ==> all.value == written + EncEntries(entries[i..]).value
    {
      EncEntriesStep(entries, i);
      PackString(buf, entries[i].key);
      ok := PackStreamEncode(buf, entries[i].value);
      if !ok { return; }
      written := written + StringBytes(entries[i].key) + Enc(entries[i].value).value;
    }
    assert entries[|entries|..] == [];
    ok := true;
  }

  /** Appends a value's encoding, or fails at a struct. */
  method PackStreamEncode(buf: ByteBuffer, v: Value) returns (ok: bool)
    modifies buf
    ensures ok <==> Enc(v).Ok?
    ensures ok ==> buf.data == old(buf.data) + Enc(v).value
    decreases v, 1
  {
    hide BigEndian, EncItems, EncEntries, StringBytes, IntBytes;
    ok := true;
    match v {
      case PNil => buf.WriteByte(0xC0);
      case PBool(b) => buf.WriteByte(if b then 0xC3 else 0xC2);
      case PInt(i) => PackInt(buf, i);
      case PFloat(bits) =>
        buf.WriteByte(0xC1);
        buf.Write(BigEndian(8, bits));
      case PString(s) => PackString(buf, s);
      case PList(items) =>
        PackCount(buf, |items|, 0x90, 0xD4, 0xD5);
        ok := PackItems(buf, items);
      case PMap(entries) =>
        PackCount(buf, |entries|, 0xA0, 0xD8, 0xD9);
        ok := PackEntries(buf, entries);
      case PStruct(_, _) => ok := false;
    }
  }

  // ---------- decoder ----------

  class ByteReader {
    const data: Bytes
    var pos: nat

    constructor (input: Bytes)
      ensures data == input && pos == 0
    {
      data, pos := input, 0;
    }

    predicate Valid()
      reads this
    {
      pos <= |data|
    }

    function Rest(): Bytes
      reads this
    {
      if pos <= |data| then data[pos..] else []
    }

    method ReadByte() returns (r: Result<Byte>)
      requires Valid()
      modifies this
      ensures Valid() && (r.Ok? <==> old(Rest()) != [])
      ensures r.Ok? ==> r.value == old(Rest())[0] && Rest() == old(Rest())[1..]
      ensures r.Err? ==> Rest() == old(Rest())
    {
      if pos == |data| { return Err; }
      r := Ok(data[pos]);
      pos := pos + 1;
      assert data[old(pos)..][1..] == data[pos..];
    }

    /** Reads exactly n bytes or fails. */
    method ReadFull(n: nat) returns (r: Result<Bytes>)
      requires Valid()
      modifies this
      ensures Valid() && (r.Ok? <==> n <= |old(Rest())|)
      ensures r.Ok? ==> r.value == old(Rest())[..n] && Rest() == old(Rest())[n..]
      ensures r.Err? ==> |Rest()| <= |old(Rest())|
    {
      if |data| - pos < n {
        pos := |data|;
        return Err;
      }
      r := Ok(data[pos..pos + n]);
      assert data[pos..][..n] == data[pos..pos + n] && data[pos..][n..] == data[pos + n..];
      pos := pos + n;
    }
  }

  /** On success the result and what is left are as prescribed. */
  ghost predicate Did<T>(r: Result<T>, rest: Bytes, spec: Decoded<T>) {
    if spec.Ok? then r == Ok(spec.value.0) && rest == spec.value.1 else r.Err?
  }

  method TakeNumber(r: ByteReader, k: nat) returns (n: Result<nat>)
    requires r.Valid()
    modifies r
    ensures r.Valid() && Did(n, r.Rest(), ReadNumber(old(r.Rest()), k)) && |r.Rest()| <= |old(r.Rest())|
  {
    var s :- r.ReadFull(k);
    n := Ok(FromBigEndian(s));
  }

  method TakeInt(r: ByteReader, k: nat) returns (v: Result<Value>)
    requires r.Valid() && (k == 1 || k == 2 || k == 4 || k == 8)
    modifies r
    ensures r.Valid() && Did(v, r.Rest(), ReadInt(old(r.Rest()), k)) && |r.Rest()| <= |old(r.Rest())|
  {
    hide ReadNumber, Pow256;
    var n :- TakeNumber(r, k);
    SignedRange(k, n);
    Pow256Values();
    v := Ok(PInt(Signed(k, n)));
  }

  method TakeString(r: ByteReader, n: nat) returns (v: Result<Value>)
    requires r.Valid()
    modifies r
    ensures r.Valid() && Did(v, r.Rest(), ReadString(old(r.Rest()), n)) && |r.Rest()| <= |old(r.Rest())|
  {
    var s :- r.ReadFull(n);
    v := Ok(PString(s));
  }

  method TakeItems(r: ByteReader, n: nat, sprint: Sprint) returns (v: Result<seq<Value>>)
    requires r.Valid()
    modifies r
    ensures r.Valid() && Did(v, r.Rest(), ReadItems(old(r.Rest()), n, [], sprint)) && |r.Rest()| <= |old(r.Rest())|
    decreases |r.Rest()|, 1
  {
    hide Decode;
    ghost var all := ReadItems(r.Rest(), n, [], sprint);
    var list: seq<Value> := [];
    for i := 0 to n
      invariant r.Valid() && |r.Rest()| <= |old(r.Rest())|
      invariant ReadItems(r.Rest(), n - i, list, sprint) == all
    {
      var item :- PackStreamDecode(r, sprint);
      list := list + [item];
    }
    v := Ok(list);
  }

  method TakeEntries(r: ByteReader, n: nat, sprint: Sprint) returns (v: Result<seq<Entry>>)
    requires r.Valid()
    modifies r
    ensures r.Valid() && Did(v, r.Rest(), ReadEntries(old(r.Rest()), n, [], sprint)) && |r.Rest()| <= |old(r.Rest())|
    decreases |r.Rest()|, 1
  {
    hide Decode, Put;
    ghost var all := ReadEntries(r.Rest(), n, [], sprint);
    var entries: seq<Entry> := [];
    for i := 0 to n
      invariant r.Valid() && |r.Rest()| <= |old(r.Rest())|
      invariant ReadEntries(r.Rest(), n - i, entries, sprint) == all
    {
      var key :- PackStreamDecode(r, sprint);
      var val :- PackStreamDecode(r, sprint);
      var text := KeyText(key, sprint);
      if text.None? { return Err; }
      entries := Put(entries, text.value, val);
    }
    v := Ok(entries);
  }

  method TakeList(r: ByteReader, n: nat, sprint: Sprint) returns (v: Result<Value>)
    requires r.Valid()
    modifies r
    ensures r.Valid() && Did(v, r.Rest(), ReadList(old(r.Rest()), n, sprint)) && |r.Rest()| <= |old(r.Rest())|
    decreases |r.Rest()|, 2
  {
    hide ReadItems;
    var items :- TakeItems(r, n, sprint);
    v := Ok(PList(items));
  }

  method TakeMap(r: ByteReader, n: nat, sprint: Sprint) returns (v: Result<Value>)
    requires r.Valid()
    modifies r
    ensures r.Valid() && Did(v, r.Rest(), ReadMap(old(r.Rest()), n, sprint)) && |r.Rest()| <= |old(r.Rest())|
    decreases |r.Rest()|, 2
  {
    hide ReadEntries;
    var entries :- TakeEntries(r, n, sprint);
    v := Ok(PMap(entries));
  }

  method TakeStruct(r: ByteReader, n: nat, sprint: Sprint) returns (v: Result<Value>)
    requires r.Valid()
    modifies r
    ensures r.Valid() && Did(v, r.Rest(), ReadStruct(old(r.Rest()), n, sprint)) && |r.Rest()| <= |old(r.Rest())|
    decreases |r.Rest()|, 2
  {
    hide ReadItems;
    var sig :- r.ReadByte();
    var fields :- TakeItems(r, n, sprint);
    v := Ok(PStruct(sig, fields));
  }

  method TakeSized(r: ByteReader, b: Byte, sprint: Sprint) returns (v: Result<Value>)
    requires r.Valid()
    modifies r
    ensures r.Valid() && Did(v, r.Rest(), DecodeSized(b, old(r.Rest()), sprint)) && |r.Rest()| <= |old(r.Rest())|
    decreases |r.Rest()|, 3
  {
    hide ReadNumber, ReadInt, ReadString, ReadList, ReadMap, ReadStruct;
    match b {
      case 0xC0 => v := Ok(PNil);
      case 0xC2 => v := Ok(PBool(false));
      case 0xC3 => v := Ok(PBool(true));
      case 0xC1 =>
        var bits :- TakeNumber(r, 8);
        Pow256Values();
        v := Ok(PFloat(bits));
      case 0xC8 => v := TakeInt(r, 1);
      case 0xC9 => v := TakeInt(r, 2);
      case 0xCA => v := TakeInt(r, 4);
      case 0xCB => v := TakeInt(r, 8);
      case 0xD0 => var n :- TakeNumber(r, 1); v := TakeString(r, n);
      case 0xD1 => var n :- TakeNumber(r, 2); v := TakeString(r, n);
      case 0xD2 => var n :- TakeNumber(r, 4); v := TakeString(r, n);
      case 0xD4 => var n :- TakeNumber(r, 1); v := TakeList(r, n, sprint);
      case 0xD5 => var n :- TakeNumber(r, 2); v := TakeList(r, n, sprint);
      case 0xD8 => var n :- TakeNumber(r, 1); v := TakeMap(r, n, sprint);
      case 0xD9 => var n :- TakeNumber(r, 2); v := TakeMap(r, n, sprint);
      case 0xDC => var n :- TakeNumber(r, 1); v := TakeStruct(r, n, sprint);
      case _ => v := Err;
    }
  }

  /** Markers below 0xC0 and from 0xF0 on carry their number, the others are followed by it. */
  lemma MarkerCases(b: Byte, t: Bytes, sprint: Sprint)
    ensures DecodeMarker(b, t, sprint) ==
              if b <= 0x7F then Ok((PInt(b), t))
              else if b >= 0xF0 then Ok((PInt(b - 256), t))
              else if b <= 0x8F then ReadString(t, b - 0x80)
              else if b <= 0x9F then ReadList(t, b - 0x90, sprint)
              else if b <= 0xAF then ReadMap(t, b - 0xA0, sprint)
              else if b <= 0xBF then ReadStruct(t, b - 0xB0, sprint)
              else DecodeSized(b, t, sprint)
  {
    hide ReadString, ReadList, ReadMap, ReadStruct, DecodeSized;
  }

  method PackStreamDecode(r: ByteReader, sprint: Sprint) returns (v: Result<Value>)
    requires r.Valid()
    modifies r
    ensures r.Valid() && Did(v, r.Rest(), Decode(old(r.Rest()), sprint)) && |r.Rest()| <= |old(r.Rest())|
    decreases |r.Rest()|, 0
  {
    hide ReadString, ReadList, ReadMap, ReadStruct, DecodeSized, DecodeMarker;
    var b :- r.ReadByte();
    MarkerCases(b, r.Rest(), sprint);
    if b <= 0x7F {
      v := Ok(PInt(b));
    } else if b >= 0xF0 {
      var wide: int := b;
      v := Ok(PInt(wide - 256));
    } else if b <= 0x8F {
      v := TakeString(r, b - 0x80);
    } else if b <= 0x9F {
      v := TakeList(r, b - 0x90, sprint);
    } else if b <= 0xAF {
      v := TakeMap(r, b - 0xA0, sprint);
    } else if b <= 0xBF {
      v := TakeStruct(r, b - 0xB0, sprint);
    } else {
      v := TakeSized(r, b, sprint);
    }
  }
}
