/** PackStream: what values encode to, what byte strings decode to, and the round trip. */
module PackStream {
  import opened Results
  import opened Bytes

  type Int64 = i: int | -0x8000_0000_0000_0000 <= i < 0x8000_0000_0000_0000

  /** A double, as its 64 bits. */
  type Bits64 = n: int | 0 <= n < 0x1_0000_0000_0000_0000

  /** A map is the list of its entries in the order it is iterated in. */
  datatype Value =
    | PNil
    | PBool(b: bool)
    | PInt(i: Int64)
    | PFloat(bits: Bits64)
    | PString(s: Bytes)
    | PList(items: seq<Value>)
    | PMap(entries: seq<Entry>)
    | PStruct(sig: Byte, fields: seq<Value>)

  datatype Entry = Entry(key: Bytes, value: Value)

  // ---------- encoding ----------

  function IntBytes(i: Int64): Bytes {
    if -16 <= i <= 127 then [Unsigned(1, i) % 256]
    else if -0x80 <= i <= 0x7F then [0xC8] + SignedBytes(1, i)
    else if -0x8000 <= i <= 0x7FFF then [0xC9] + SignedBytes(2, i)
    else if -0x8000_0000 <= i <= 0x7FFF_FFFF then [0xCA] + SignedBytes(4, i)
    else [0xCB] + SignedBytes(8, i)
  }

  function SignedBytes(k: nat, i: int): Bytes {
    var n := Unsigned(k, i);
    if n < 0 then BigEndian(k, 0) else BigEndian(k, n)
  }

  /** Lengths beyond 32 bits are cut off. */
  function StringHead(n: nat): Bytes {
    if n < 16 then [0x80 + n]
    else if n <= 0xFF then [0xD0, n]
    else if n <= 0xFFFF then [0xD1] + BigEndian(2, n)
    else [0xD2] + BigEndian(4, n)
  }

  function StringBytes(s: Bytes): Bytes {
    StringHead(|s|) + s
  }

  /** Counts beyond 16 bits are cut off. */
  function ListHead(n: nat): Bytes {
    if n < 16 then [0x90 + n]
    else if n <= 0xFF then [0xD4, n]
    else [0xD5] + BigEndian(2, n)
  }

  function MapHead(n: nat): Bytes {
    if n < 16 then [0xA0 + n]
    else if n <= 0xFF then [0xD8, n]
    else [0xD9] + BigEndian(2, n)
  }

  /** A value holding no struct can be encoded. */
  function Enc(v: Value): Result<Bytes>
    decreases v
  {
    match v
    case PNil => Ok([0xC0])
    case PBool(b) => Ok([if b then 0xC3 else 0xC2])
    case PInt(i) => Ok(IntBytes(i))
    case PFloat(bits) => Ok([0xC1] + BigEndian(8, bits))
    case PString(s) => Ok(StringBytes(s))
    case PList(items) =>
      var body :- EncItems(items);
      Ok(ListHead(|items|) + body)
    case PMap(entries) =>
      var body :- EncEntries(entries);
      Ok(MapHead(|entries|) + body)
    case PStruct(_, _) => Err
  }

  function EncItems(items: seq<Value>): Result<Bytes>
    decreases items
  {
    if items == [] then
      Ok([])
    else
      var first :- Enc(items[0]);
      var rest :- EncItems(items[1..]);
      Ok(first + rest)
  }

  function EncEntries(entries: seq<Entry>): Result<Bytes>
    decreases entries
  {
    if entries == [] then
      Ok([])
    else
      var first :- Enc(entries[0].value);
      var rest :- EncEntries(entries[1..]);
      Ok(StringBytes(entries[0].key) + first + rest)
  }

  // ---------- decoding ----------

  /** How a map key that is no string is written as one; None refuses it. */
  type Sprint = Value -> Option<Bytes>

  function KeyText(key: Value, sprint: Sprint): Option<Bytes> {
    if key.PString? then Some(key.s) else sprint(key)
  }

  /** A later entry replaces an earlier one of the same key, in its place. */
  function Put(entries: seq<Entry>, key: Bytes, value: Value): (r: seq<Entry>)
    ensures |entries| <= |r| <= |entries| + 1
  {
    if entries == [] then [Entry(key, value)]
    else if entries[0].key == key then [Entry(key, value)] + entries[1..]
    else [entries[0]] + Put(entries[1..], key, value)
  }

  type Decoded<T> = Result<(T, Bytes)>

  /** What is left is the end of what there was. */
  predicate Leaves(s: Bytes, rest: Bytes) {
    |rest| <= |s| && rest == s[|s| - |rest|..]
  }

  function ReadNumber(s: Bytes, k: nat): (r: Decoded<nat>)
    ensures r.Ok? ==> Leaves(s, r.value.1) && r.value.0 < Pow256(k) && |s| == k + |r.value.1|
  {
    if |s| < k then Err else Ok((FromBigEndian(s[..k]), s[k..]))
  }

  function ReadInt(s: Bytes, k: nat): (r: Decoded<Value>)
    requires k == 1 || k == 2 || k == 4 || k == 8
    ensures r.Ok? ==> Leaves(s, r.value.1) && r.value.0.PInt? && InRange(k, r.value.0.i) && |s| == k + |r.value.1|
  {
    var (n, rest) :- ReadNumber(s, k);
    SignedRange(k, n);
    Pow256Values();
    Ok((PInt(Signed(k, n)), rest))
  }

  function ReadString(s: Bytes, n: nat): (r: Decoded<Value>)
    ensures r.Ok? ==> Leaves(s, r.value.1) && r.value.0.PString? && |r.value.0.s| == n && |s| == n + |r.value.1|
  {
    if |s| < n then Err else Ok((PString(s[..n]), s[n..]))
  }

  function ReadItems(s: Bytes, n: nat, acc: seq<Value>, sprint: Sprint): (r: Decoded<seq<Value>>)
    ensures r.Ok? ==> Leaves(s, r.value.1)
    decreases |s|, 1
  {
    if n == 0 then
      Ok((acc, s))
    else
      var (v, rest) :- Decode(s, sprint);
      ReadItems(rest, n - 1, acc + [v], sprint)
  }

  function ReadEntries(s: Bytes, n: nat, acc: seq<Entry>, sprint: Sprint): (r: Decoded<seq<Entry>>)
    ensures r.Ok? ==> Leaves(s, r.value.1)
    decreases |s|, 1
  {
    if n == 0 then
      Ok((acc, s))
    else
      var (key, rest) :- Decode(s, sprint);
      var (v, rest2) :- Decode(rest, sprint);
      var text := KeyText(key, sprint);
      if text.None? then Err else ReadEntries(rest2, n - 1, Put(acc, text.value, v), sprint)
  }

  function ReadList(s: Bytes, n: nat, sprint: Sprint): (r: Decoded<Value>)
    ensures r.Ok? ==> Leaves(s, r.value.1)
    decreases |s|, 2
  {
    var (items, rest) :- ReadItems(s, n, [], sprint);
    Ok((PList(items), rest))
  }

  function ReadMap(s: Bytes, n: nat, sprint: Sprint): (r: Decoded<Value>)
    ensures r.Ok? ==> Leaves(s, r.value.1)
    decreases |s|, 2
  {
    var (entries, rest) :- ReadEntries(s, n, [], sprint);
    Ok((PMap(entries), rest))
  }

  function ReadStruct(s: Bytes, n: nat, sprint: Sprint): (r: Decoded<Value>)
    ensures r.Ok? ==> Leaves(s, r.value.1)
    decreases |s|, 2
  {
    if s == [] then
      Err
    else
      var (fields, rest) :- ReadItems(s[1..], n, [], sprint);
      Ok((PStruct(s[0], fields), rest))
  }

  function Decode(s: Bytes, sprint: Sprint): (r: Decoded<Value>)
    ensures r.Ok? ==> Leaves(s, r.value.1) && |r.value.1| < |s|
    decreases |s|, 0
  {
    if s == [] then Err else DecodeMarker(s[0], s[1..], sprint)
  }

  /** What follows a marker. */
  function DecodeMarker(b: Byte, t: Bytes, sprint: Sprint): (r: Decoded<Value>)
    ensures r.Ok? ==> Leaves(t, r.value.1)
    decreases |t|, 3
  {
    if b <= 0x7F then Ok((PInt(b), t))
    else if b >= 0xF0 then Ok((PInt(b - 256), t))
    else if b <= 0x8F then ReadString(t, b - 0x80)
    else if b <= 0x9F then ReadList(t, b - 0x90, sprint)
    else if b <= 0xAF then ReadMap(t, b - 0xA0, sprint)
    else if b <= 0xBF then ReadStruct(t, b - 0xB0, sprint)
    else DecodeSized(b, t, sprint)
  }

  /** Markers that carry no length of their own. */
  function DecodeSized(b: Byte, t: Bytes, sprint: Sprint): (r: Decoded<Value>)
    ensures r.Ok? ==> Leaves(t, r.value.1)
    decreases |t|, 2
  {
    match b
    case 0xC0 => Ok((PNil, t))
    case 0xC2 => Ok((PBool(false), t))
    case 0xC3 => Ok((PBool(true), t))
    case 0xC1 =>
      var (bits, rest) :- ReadNumber(t, 8);
      Pow256Values();
      Ok((PFloat(bits), rest))
    case 0xC8 => ReadInt(t, 1)
    case 0xC9 => ReadInt(t, 2)
    case 0xCA => ReadInt(t, 4)
    case 0xCB => ReadInt(t, 8)
    case 0xD0 => var (n, rest) :- ReadNumber(t, 1); ReadString(rest, n)
    case 0xD1 => var (n, rest) :- ReadNumber(t, 2); ReadString(rest, n)
    case 0xD2 => var (n, rest) :- ReadNumber(t, 4); ReadString(rest, n)
    case 0xD4 => var (n, rest) :- ReadNumber(t, 1); ReadList(rest, n, sprint)
    case 0xD5 => var (n, rest) :- ReadNumber(t, 2); ReadList(rest, n, sprint)
    case 0xD8 => var (n, rest) :- ReadNumber(t, 1); ReadMap(rest, n, sprint)
    case 0xD9 => var (n, rest) :- ReadNumber(t, 2); ReadMap(rest, n, sprint)
    case 0xDC => var (n, rest) :- ReadNumber(t, 1); ReadStruct(rest, n, sprint)
    case _ => Err
  }
}
