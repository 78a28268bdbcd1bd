/** Chunked framing and messages: what is sent is received, wherever chunks are cut and
    however many messages follow each other. */
module Chunking {
  import opened Results
  import opened Bytes
  import opened PackStream
  import opened PackStreamRoundTrip
  import opened BoltCodec

  const MAX_CHUNK: nat := 0xFFFF

  // ---------- framing ----------

  function WireForm(data: Bytes): Bytes
    decreases |data|
  {
    if data == [] then
      BigEndian(2, 0)
    else
      var n := if |data| > MAX_CHUNK then MAX_CHUNK else |data|;
      BigEndian(2, n) + data[..n] + WireForm(data[n..])
  }

  /** Chunks up to a zero length, appended to those before. */
  function ReadChunks(s: Bytes, acc: Bytes): (r: Decoded<Bytes>)
    ensures r.Ok? ==> Leaves(s, r.value.1)
    decreases |s|
  {
    var (n, rest) :- ReadNumber(s, 2);
    if n == 0 then Ok((acc, rest))
    else if |rest| < n then Err
    else ReadChunks(rest[n..], acc + rest[..n])
  }

  predicate ChunkOk(c: Bytes) {
    0 < |c| <= MAX_CHUNK
  }

  /** A frame of given non-empty chunks. */
  function Frame(chunks: seq<Bytes>): Bytes {
    if chunks == [] then BigEndian(2, 0) else BigEndian(2, |chunks[0]|) + chunks[0] + Frame(chunks[1..])
  }

  function Joined(chunks: seq<Bytes>): Bytes {
    if chunks == [] then [] else chunks[0] + Joined(chunks[1..])
  }

  lemma OneChunk(c: Bytes, t: Bytes, acc: Bytes)
    requires |c| <= MAX_CHUNK
    ensures |c| == 0 ==> ReadChunks(BigEndian(2, 0) + t, acc) == Ok((acc, t))
    ensures |c| > 0 ==> ReadChunks(BigEndian(2, |c|) + (c + t), acc) == ReadChunks(t, acc + c)
  {
    hide BigEndian, ReadNumber;
    Pow256Values();
    if |c| == 0 {
      ReadNumberExact(2, 0, t);
    } else {
      ReadNumberExact(2, |c|, c + t);
      assert (c + t)[..|c|] == c && (c + t)[|c|..] == t;
    }
  }

  lemma {:induction false} FrameBack(chunks: seq<Bytes>, rest: Bytes, acc: Bytes)
    requires forall c | c in chunks :: ChunkOk(c)
    ensures ReadChunks(Frame(chunks) + rest, acc) == Ok((acc + Joined(chunks), rest))
    decreases |chunks|
  {
    hide ReadChunks, BigEndian;
    if chunks == [] {
      OneChunk([], rest, acc);
      assert acc + [] == acc;
    } else {
      var c, more := chunks[0], Frame(chunks[1..]);
      assert c in chunks;
      assert Frame(chunks) + rest == BigEndian(2, |c|) + (c + (more + rest));
      OneChunk(c, more + rest, acc);
      FrameBack(chunks[1..], rest, acc + c);
      assert acc + c + Joined(chunks[1..]) == acc + Joined(chunks);
    }
  }

  /** The bytes received do not depend on where the sender cut them into chunks. */
  lemma BoundariesDoNotMatter(a: seq<Bytes>, b: seq<Bytes>, rest: Bytes)
    requires (forall c | c in a :: ChunkOk(c)) && (forall c | c in b :: ChunkOk(c)) && Joined(a) == Joined(b)
    ensures ReadChunks(Frame(a) + rest, []) == ReadChunks(Frame(b) + rest, []) == Ok((Joined(a), rest))
  {
    hide ReadChunks;
    FrameBack(a, rest, []);
    FrameBack(b, rest, []);
    assert [] + Joined(a) == Joined(a);
  }

  /** The chunk at the front of an accepted stream; none where its length is zero. */
  lemma FrontChunk(s: Bytes, acc: Bytes) returns (c: Bytes, rest: Bytes)
    requires ReadChunks(s, acc).Ok?
    ensures |c| <= MAX_CHUNK && s == BigEndian(2, |c|) + c + rest
    ensures ReadChunks(s, acc) == if c == [] then Ok((acc, rest)) else ReadChunks(rest, acc + c)
  {
    hide BigEndian, FromBigEndian;
    Pow256Values();
    var (n, t) := ReadNumber(s, 2).value;
    BytesOfNumber(s[..2]);
    assert s == BigEndian(2, n) + t;
    c, rest := t[..n], t[n..];
    assert t == c + rest;
  }

  /** Whatever is accepted is a frame of non-empty chunks, and what is returned is theirs. */
  lemma {:induction false} AcceptedIsFrame(s: Bytes, acc: Bytes) returns (chunks: seq<Bytes>)
    requires ReadChunks(s, acc).Ok?
    ensures forall c | c in chunks :: ChunkOk(c)
    ensures s == Frame(chunks) + ReadChunks(s, acc).value.1
    ensures ReadChunks(s, acc).value.0 == acc + Joined(chunks)
    decreases |s|
  {
    hide BigEndian, ReadChunks;
    var c, rest := FrontChunk(s, acc);
    if c == [] {
      chunks := [];
      assert acc + [] == acc;
    } else {
      var more := AcceptedIsFrame(rest, acc + c);
      chunks := [c] + more;
      assert chunks[1..] == more;
      assert acc + c + Joined(more) == acc + (c + Joined(more));
    }
  }

  lemma BytesOfNumber(s: Bytes)
    requires |s| == 2
    ensures BigEndian(2, FromBigEndian(s)) == s
  {
    var high: int, low: int := s[0], s[1];
    assert s[..1][..0] == [] && s == s[..1] + [s[1]] && s[..1] == [s[0]];
    assert FromBigEndian(s[..1]) == high;
    assert FromBigEndian(s) == high * 256 + low;
    assert BigEndian(1, high) == BigEndian(0, 0) + [high % 256];
  }

  /** The chunks WriteChunked cuts. */
  function Cut(data: Bytes): (chunks: seq<Bytes>)
    ensures forall c | c in chunks :: ChunkOk(c)
    decreases |data|
  {
    if data == [] then []
    else
      var n := if |data| > MAX_CHUNK then MAX_CHUNK else |data|;
      [data[..n]] + Cut(data[n..])
  }

  lemma {:induction false} CutIsFrame(data: Bytes)
    ensures WireForm(data) == Frame(Cut(data)) && Joined(Cut(data)) == data
    decreases |data|
  {
    hide BigEndian;
    if data != [] {
      var n := if |data| > MAX_CHUNK then MAX_CHUNK else |data|;
      CutIsFrame(data[n..]);
      assert Cut(data)[1..] == Cut(data[n..]);
      assert data == data[..n] + data[n..];
    }
  }

  /** What is written is read back, and what follows is left alone. */
  lemma WrittenIsRead(data: Bytes, rest: Bytes)
    ensures ReadChunks(WireForm(data) + rest, []) == Ok((data, rest))
  {
    hide ReadChunks, Cut, WireForm;
    CutIsFrame(data);
    FrameBack(Cut(data), rest, []);
    assert [] + data == data;
  }

  method WriteChunked(w: ByteBuffer, data: Bytes)
    modifies w
    ensures w.data == old(w.data) + WireForm(data)
  {
    hide BigEndian, WireForm;
    var left := data;
    ghost var start, written: Bytes := w.data, [];
    WireStep(data);
    while |left| > 0
      invariant w.data == start + written && WireForm(data) == written + WireForm(left)
      decreases |left|
    {
      var chunk := left;
      if |chunk| > MAX_CHUNK {
        chunk := left[..MAX_CHUNK];
      }
      WireStep(left);
      w.Write(BigEndian(2, |chunk|));
      w.Write(chunk);
      written := written + (BigEndian(2, |chunk|) + chunk);
      left := left[|chunk|..];
    }
    WireStep([]);
    w.Write(BigEndian(2, 0));
  }

  lemma WireStep(data: Bytes)
    ensures WireForm([]) == BigEndian(2, 0)
    ensures data != [] ==> var chunk := if |data| > MAX_CHUNK then data[..MAX_CHUNK] else data;
                           WireForm(data) == BigEndian(2, |chunk|) + chunk + WireForm(data[|chunk|..])
  {
    hide BigEndian;
    assert data[..|data|] == data;
  }

  method ReadChunked(r: ByteReader) returns (data: Result<Bytes>)
    requires r.Valid()
    modifies r
    ensures r.Valid() && Did(data, r.Rest(), ReadChunks(old(r.Rest()), []))
  {
    hide ReadNumber, FromBigEndian;
    ghost var all := ReadChunks(r.Rest(), []);
    var buf: Bytes := [];
    while true
      invariant r.Valid() && ReadChunks(r.Rest(), buf) == all
      decreases |r.Rest()|
    {
      var size :- TakeNumber(r, 2);
      if size == 0 { break; }
      var chunk :- r.ReadFull(size);
      buf := buf + chunk;
    }
    data := Ok(buf);
  }

  // ---------- messages ----------

  datatype Message = Message(sig: Byte, fields: seq<Value>)

  /** A message's bytes: at most fifteen fields, none a struct. */
  function EncMessage(m: Message): Result<Bytes> {
    if |m.fields| > 15 then
      Err
    else
      var body :- EncItems(m.fields);
      Ok([0xB0 + |m.fields|, m.sig] + body)
  }

  method EncodeMessage(m: Message) returns (r: Result<Bytes>)
    ensures r == EncMessage(m)
  {
    hide EncItems;
    if |m.fields| > 15 { return Err; }
    var buf := new ByteBuffer();
    buf.WriteByte(0xB0 + |m.fields|);
    buf.WriteByte(m.sig);
    assert buf.data == [0xB0 + |m.fields|, m.sig];
    var ok := PackItems(buf, m.fields);
    if !ok { return Err; }
    r := Ok(buf.data);
  }

  /** A received message: the struct at the front of a frame's bytes. */
  function DecMessage(s: Bytes, sprint: Sprint): (r: Decoded<Message>)
    ensures r.Ok? ==> Leaves(s, r.value.1)
  {
    var (data, rest) :- ReadChunks(s, []);
    var (v, _) :- Decode(data, sprint);
    if v.PStruct? then Ok((Message(v.sig, v.fields), rest)) else Err
  }

  method DecodeMessage(r: ByteReader, sprint: Sprint) returns (m: Result<Message>)
    requires r.Valid()
    modifies r
    ensures r.Valid() && Did(m, r.Rest(), DecMessage(old(r.Rest()), sprint))
  {
    hide ReadChunks, Decode;
    var data :- ReadChunked(r);
    var inner := new ByteReader(data);
    assert inner.Rest() == data;
    var v :- PackStreamDecode(inner, sprint);
    if !v.PStruct? { return Err; }
    m := Ok(Message(v.sig, v.fields));
  }

  method SendMessage(w: ByteBuffer, m: Message) returns (ok: bool)
    modifies w
    ensures ok <==> EncMessage(m).Ok?
    ensures w.data == if ok then old(w.data) + WireForm(EncMessage(m).value) else old(w.data)
  {
    hide EncMessage, WireForm;
    var data := EncodeMessage(m);
    if data.Err? { return false; }
    WriteChunked(w, data.value);
    ok := true;
  }

  /** A message that can be encoded, whose maps name each key once. */
  predicate Sendable(m: Message) {
    EncMessage(m).Ok? && ItemsProper(m.fields)
  }

  lemma StructBack(m: Message, sprint: Sprint)
    requires Sendable(m)
    ensures var r := Decode(EncMessage(m).value, sprint);
            if ItemsFit(m.fields) then r == Ok((PStruct(m.sig, m.fields), [])) else r.Ok? ==> r.value.0 != PStruct(m.sig, m.fields)
  {
    hide EncItems, ReadItems, ItemsProper, ItemsFit, Decode, DecodeMarker;
    var n, body := |m.fields|, EncItems(m.fields).value;
    assert EncMessage(m).value == [0xB0 + n] + ([m.sig] + body);
    MarkerStep(0xB0 + n, [m.sig] + body, sprint);
    assert body == body + [];
    ItemsBack(m.fields, [], [], sprint);
    assert [] + m.fields == m.fields;
    StructMarker(n, m.sig, body, sprint);
  }

  lemma StructMarker(n: nat, sig: Byte, body: Bytes, sprint: Sprint)
    requires n <= 15
    ensures DecodeMarker(0xB0 + n, [sig] + body, sprint) ==
              var r := ReadItems(body, n, [], sprint); if r.Err? then Err else Ok((PStruct(sig, r.value.0), r.value.1))
  {
    hide ReadItems, ReadString, ReadList, ReadMap, DecodeSized;
    assert ([sig] + body)[1..] == body;
  }

  /** A message sent is received if and only if all its lengths fit, and then the stream
      behind it is untouched. */
  lemma MessageBack(m: Message, rest: Bytes, sprint: Sprint)
    requires Sendable(m)
    ensures var r := DecMessage(WireForm(EncMessage(m).value) + rest, sprint);
            if ItemsFit(m.fields) then r == Ok((m, rest)) else r.Ok? ==> r.value.0 != m
  {
    hide WireForm, ReadChunks, Decode, EncMessage, ItemsFit;
    WrittenIsRead(EncMessage(m).value, rest);
    StructBack(m, sprint);
  }

  /** Messages sent back to back. */
  function Stream(ms: seq<Message>): Bytes
    requires forall m | m in ms :: EncMessage(m).Ok?
  {
    if ms == [] then [] else WireForm(EncMessage(ms[0]).value) + Stream(ms[1..])
  }

  function Receive(s: Bytes, n: nat, sprint: Sprint): Decoded<seq<Message>> {
    if n == 0 then
      Ok(([], s))
    else
      var (m, rest) :- DecMessage(s, sprint);
      var (more, left) :- Receive(rest, n - 1, sprint);
      Ok(([m] + more, left))
  }

  /** Any sequence of messages sent back to back is received in order, one message a call,
      leaving the rest of the stream untouched, if and only if the lengths in all of them
      fit. */
  lemma {:induction false} StreamBack(ms: seq<Message>, rest: Bytes, sprint: Sprint)
    requires forall m | m in ms :: EncMessage(m).Ok? && Sendable(m)
    ensures Receive(Stream(ms) + rest, |ms|, sprint) == Ok((ms, rest)) <==> forall m | m in ms :: ItemsFit(m.fields)
    decreases |ms|
  {
    hide WireForm, DecMessage, EncMessage, ItemsFit;
    if ms == [] {
      assert [] + rest == rest;
    } else {
      assert ms[0] in ms;
      var first, more := WireForm(EncMessage(ms[0]).value), Stream(ms[1..]);
      assert first + more + rest == first + (more + rest);
      MessageBack(ms[0], more + rest, sprint);
      StreamBack(ms[1..], rest, sprint);
      assert ms == [ms[0]] + ms[1..];
      ReceiveStep(first + (more + rest), |ms|, sprint);
    }
  }

  lemma ReceiveStep(s: Bytes, n: nat, sprint: Sprint)
    requires n > 0
    ensures var r, all := DecMessage(s, sprint), Receive(s, n, sprint);
            && (all.Ok? ==> r.Ok? && all.value.0 != [] && all.value.0[0] == r.value.0)
            && (r.Ok? ==> var more := Receive(r.value.1, n - 1, sprint);
                          if more.Err? then all.Err? else all == Ok(([r.value.0] + more.value.0, more.value.1)))
  {
    hide DecMessage;
  }
}
