/** RadioNode's wire format: a 13-byte big-endian header followed by the payload, parsed out of a byte stream. */
module Framing {
  import opened Common

  const HEADER_SIZE: nat := 13

  datatype Header = Header(msgType: Byte, src: U32, dst: U32, payloadLen: U32)

  /** A message as the sender means it. */
  datatype Frame = Frame(msgType: Byte, src: U32, dst: U32, payload: Bytes)

  // ---------------------------------------------------------------- integers

  function EncodeU32(v: U32): (b: Bytes)
    ensures |b| == 4
  {
    [v / 0x100_0000, (v / 0x1_0000) % 256, (v / 256) % 256, v % 256]
  }

  function DecodeU32(b: Bytes): U32
    requires |b| == 4
  {
    b[0] as int * 0x100_0000 + b[1] as int * 0x1_0000 + b[2] as int * 256 + b[3] as int
  }

  /** Big-endian encoding and decoding are inverse to each other, both ways. */
  lemma U32RoundTrip(v: U32, b: Bytes)
    requires |b| == 4
    ensures DecodeU32(EncodeU32(v)) == v
    ensures EncodeU32(DecodeU32(b)) == b
  {
    Digits(v);
    FromDigits(b[0], b[1], b[2], b[3]);
  }

  lemma FromDigits(a: Byte, b: Byte, c: Byte, d: Byte)
    ensures var n: int := a as int * 0x100_0000 + b as int * 0x1_0000 + c as int * 256 + d as int;
            n / 0x100_0000 == a && n / 0x1_0000 % 256 == b && n / 256 % 256 == c && n % 256 == d
  {
    var n: int := a as int * 0x100_0000 + b as int * 0x1_0000 + c as int * 256 + d as int;
    assert n / 256 == a as int * 0x1_0000 + b as int * 256 + c as int;
    assert n / 0x1_0000 == a as int * 256 + b as int;
  }

  // ----------------------------------------------------------------- samples

  function BytesToSamples(data: Bytes): seq<Sample> {
    seq(|data|, i requires 0 <= i < |data| => Sample(data[i] as real, 0.0))
  }

  /** `std::lround`: to the nearest integer, halves away from zero. */
  function Round(x: real): int {
    if x >= 0.0 then (x + 0.5).Floor else -((-x + 0.5).Floor)
  }

  function Clamp(v: int): Byte {
    if v < 0 then 0 else if v > 255 then 255 else v
  }

  function SamplesToBytes(samples: seq<Sample>): Bytes {
    seq(|samples|, i requires 0 <= i < |samples| => Clamp(Round(samples[i].re)))
  }

  lemma SamplesRoundTrip(data: Bytes)
    ensures SamplesToBytes(BytesToSamples(data)) == data
  {
    forall i | 0 <= i < |data| ensures Clamp(Round(data[i] as real)) == data[i] {
      assert (data[i] as real + 0.5).Floor == data[i];
    }
  }

  function Distance(x: real, b: Byte): real {
    if x < b as real then b as real - x else x - b as real
  }

  /** Any sample at all reads as the nearest byte, and as the higher one halfway between two. */
  lemma NearestByte(x: real, b: Byte)
    ensures var r := Clamp(Round(x)); Distance(x, r) < Distance(x, b) || (Distance(x, r) == Distance(x, b) && b <= r)
  {
    RoundNear(x);
    hide Round;
    ClampNear(x, Round(x), b);
  }

  lemma RoundNear(x: real)
    ensures if x < 0.0 then Round(x) <= 0 else x - 0.5 < Round(x) as real <= x + 0.5
  {
    var y := (if x < 0.0 then -x else x) + 0.5;
    assert y.Floor as real <= y < y.Floor as real + 1.0;
  }

  lemma ClampNear(x: real, k: int, b: Byte)
    requires if x < 0.0 then k <= 0 else x - 0.5 < k as real <= x + 0.5
    ensures var r := Clamp(k); Distance(x, r) < Distance(x, b) || (Distance(x, r) == Distance(x, b) && b <= r)
  {
    var r := Clamp(k);
    if b < r {
      assert b as real + 1.0 <= r as real;
    } else if r < b {
      assert r as real + 1.0 <= b as real;
    }
  }

  // ------------------------------------------------------------------ frames

  function SerializeHeader(h: Header): (b: Bytes)
    ensures |b| == HEADER_SIZE
  {
    [h.msgType] + EncodeU32(h.src) + EncodeU32(h.dst) + EncodeU32(h.payloadLen)
  }

  function DeserializeHeader(b: Bytes): (h: Option<Header>)
    ensures h.Some? <==> |b| >= HEADER_SIZE
  {
    if |b| < HEADER_SIZE then None
    else Some(Header(b[0], DecodeU32(b[1..5]), DecodeU32(b[5..9]), DecodeU32(b[9..13])))
  }

  lemma HeaderRoundTrip(h: Header, b: Bytes)
    requires |b| == HEADER_SIZE
    ensures DeserializeHeader(SerializeHeader(h)) == Some(h)
    ensures DeserializeHeader(b).Some? && SerializeHeader(DeserializeHeader(b).value) == b
  {
    var s := SerializeHeader(h);
    assert s[1..5] == EncodeU32(h.src) && s[5..9] == EncodeU32(h.dst) && s[9..13] == EncodeU32(h.payloadLen);
    U32RoundTrip(h.src, b[1..5]);
    U32RoundTrip(h.dst, b[5..9]);
    U32RoundTrip(h.payloadLen, b[9..13]);
    assert b == [b[0]] + b[1..5] + b[5..9] + b[9..13];
  }

  /** Header plus payload; the length field is the payload size truncated to 32 bits. */
  function Encode(f: Frame): (b: Bytes)
    ensures |b| == HEADER_SIZE + |f.payload|
  {
    SerializeHeader(Header(f.msgType, f.src, f.dst, |f.payload| % U32_LIMIT)) + f.payload
  }

  function EncodeAll(fs: seq<Frame>): Bytes {
    if fs == [] then [] else Encode(fs[0]) + EncodeAll(fs[1..])
  }

  /** The four bytes from `i` on, most significant first. */
  function Number(b: Bytes, i: nat): U32
    requires i + 4 <= |b|
  {
    ((b[i] as int * 256 + b[i + 1]) * 256 + b[i + 2]) * 256 + b[i + 3]
  }

  /** Where everything is on the wire, in weights of bytes. */
  lemma WireLayout(f: Frame)
    ensures var b := Encode(f);
            && |b| == 13 + |f.payload| && b[0] == f.msgType && Number(b, 1) == f.src && Number(b, 5) == f.dst
            && Number(b, 9) == |f.payload| % U32_LIMIT && b[13..] == f.payload
  {
    var b := Encode(f);
    assert b[1..5] == EncodeU32(f.src) && b[5..9] == EncodeU32(f.dst) && b[9..13] == EncodeU32(|f.payload| % U32_LIMIT);
    BytesOf(b, 1, f.src);
    BytesOf(b, 5, f.dst);
    BytesOf(b, 9, |f.payload| % U32_LIMIT);
  }

  lemma BytesOf(b: Bytes, i: nat, v: U32)
    requires i + 4 <= |b| && b[i..i + 4] == EncodeU32(v)
    ensures Number(b, i) == v
  {
    Digits(v);
    var w := b[i..i + 4];
    assert w[0] == b[i] && w[1] == b[i + 1] && w[2] == b[i + 2] && w[3] == b[i + 3];
  }

  /** The first complete message of a stream. */
  function ParseOne(data: Bytes): Option<Frame> {
    if |data| < HEADER_SIZE then None
    else
      var h := DeserializeHeader(data[..HEADER_SIZE]).value;
      var end := HEADER_SIZE + h.payloadLen;
      if end > |data| then None else Some(Frame(h.msgType, h.src, h.dst, data[HEADER_SIZE..end]))
  }

  function Parse(data: Bytes): seq<Frame> {
    match ParseOne(data)
    case None => []
    case Some(f) => [f] + Parse(data[HEADER_SIZE + |f.payload|..])
  }

  /** One turn of a parse loop that has reached `offset`. */
  lemma ParseStep(data: Bytes, offset: nat)
    requires offset + HEADER_SIZE <= |data|
    ensures var h := DeserializeHeader(data[offset..offset + HEADER_SIZE]).value;
            var end := offset + HEADER_SIZE + h.payloadLen;
            Parse(data[offset..]) ==
            if end > |data| then []
            else [Frame(h.msgType, h.src, h.dst, data[offset + HEADER_SIZE..end])] + Parse(data[end..])
  {
    hide DeserializeHeader;
    var rest := data[offset..];
    assert rest[..HEADER_SIZE] == data[offset..offset + HEADER_SIZE];
    var h := DeserializeHeader(data[offset..offset + HEADER_SIZE]).value;
    var end := offset + HEADER_SIZE + h.payloadLen;
    if end <= |data| {
      assert rest[HEADER_SIZE..HEADER_SIZE + h.payloadLen] == data[offset + HEADER_SIZE..end];
      assert rest[HEADER_SIZE + h.payloadLen..] == data[end..];
    }
  }

  lemma NothingLeft(data: Bytes)
    requires |data| < HEADER_SIZE
    ensures Parse(data) == []
  {
  }

  predicate Fits(f: Frame) {
    |f.payload| < U32_LIMIT
  }

  /** A frame at the head of a stream is read back unchanged exactly when its payload size fits the length field. */
  lemma FrameRoundTrip(f: Frame, rest: Bytes)
    ensures ParseOne(Encode(f) + rest) == Some(f) <==> Fits(f)
    ensures Fits(f) ==> (Encode(f) + rest)[HEADER_SIZE + |f.payload|..] == rest
  {
    var data := Encode(f) + rest;
    var h := Header(f.msgType, f.src, f.dst, |f.payload| % U32_LIMIT);
    assert data[..HEADER_SIZE] == SerializeHeader(h);
    HeaderRoundTrip(h, SerializeHeader(h));
    assert data[HEADER_SIZE..HEADER_SIZE + |f.payload|] == f.payload;
  }

  /** An incomplete frame yields nothing. */
  lemma CutFrame(f: Frame, n: nat)
    requires Fits(f) && n < |Encode(f)|
    ensures ParseOne(Encode(f)[..n]) == None
  {
    hide SerializeHeader;
    if n >= HEADER_SIZE {
      var h := Header(f.msgType, f.src, f.dst, |f.payload|);
      assert Encode(f)[..n][..HEADER_SIZE] == SerializeHeader(h);
      HeaderRoundTrip(h, SerializeHeader(h));
    }
  }

  /** How many of the frames are complete within the first `n` bytes. */
  function Complete(fs: seq<Frame>, n: nat): (k: nat)
    ensures k <= |fs|
    ensures |EncodeAll(fs[..k])| <= n
    ensures k < |fs| ==> |EncodeAll(fs[..k + 1])| > n
  {
    if fs == [] || |Encode(fs[0])| > n then
      assert fs != [] ==> fs[..1][1..] == [] && EncodeAll(fs[..1]) == Encode(fs[0]) + [];
      0
    else
      var k := Complete(fs[1..], n - |Encode(fs[0])|);
      assert fs[..k + 1][1..] == fs[1..][..k];
      assert k + 1 < |fs| ==> fs[..k + 2][1..] == fs[1..][..k + 1];
      k + 1
  }

  /** Cut an encoded stream anywhere: the parse loop recovers exactly the longest list of complete messages. */
  lemma {:induction false} ParseCutStream(fs: seq<Frame>, n: nat)
    requires n <= |EncodeAll(fs)| && forall f :: f in fs ==> Fits(f)
    ensures Parse(EncodeAll(fs)[..n]) == fs[..Complete(fs, n)]
  {
    if fs != [] {
      var f, rest := fs[0], EncodeAll(fs[1..]);
      var data := EncodeAll(fs)[..n];
      if n < |Encode(f)| {
        assert data == Encode(f)[..n];
        CutFrame(f, n);
      } else {
        var m := n - |Encode(f)|;
        assert data == Encode(f) + rest[..m];
        FrameRoundTrip(f, rest[..m]);
        ParseCutStream(fs[1..], m);
        var k := Complete(fs[1..], m);
        assert Complete(fs, n) == k + 1;
        assert fs[..k + 1] == [f] + fs[1..][..k];
      }
    }
  }

  lemma ParsedIsEncoded(data: Bytes, f: Frame)
    requires ParseOne(data) == Some(f)
    ensures Fits(f) && HEADER_SIZE + |f.payload| <= |data| && Encode(f) == data[..HEADER_SIZE + |f.payload|]
  {
    hide SerializeHeader;
    HeaderRoundTrip(DeserializeHeader(data[..HEADER_SIZE]).value, data[..HEADER_SIZE]);
  }

  /** Parsing invents nothing: what it returns re-encodes to the very bytes it consumed, and what it leaves over holds
      no complete message. */
  lemma {:induction false} ParseIsPrefix(data: Bytes)
    ensures EncodeAll(Parse(data)) <= data
    ensures ParseOne(data[|EncodeAll(Parse(data))|..]) == None
    ensures forall f :: f in Parse(data) ==> Fits(f)
    decreases |data|
  {
    hide Encode, ParseOne, Fits;
    match ParseOne(data)
    case None =>
      assert data[0..] == data;
    case Some(f) =>
      ParsedIsEncoded(data, f);
      var end := HEADER_SIZE + |f.payload|;
      var rest := data[end..];
      ParseIsPrefix(rest);
      var tail := EncodeAll(Parse(rest));
      assert Parse(data)[1..] == Parse(rest);
      assert data == Encode(f) + rest;
      assert data[|Encode(f) + tail|..] == rest[|tail|..];
  }

  lemma {:induction false} EncodeAllAppend(a: seq<Frame>, b: seq<Frame>)
    ensures EncodeAll(a + b) == EncodeAll(a) + EncodeAll(b)
  {
    hide Encode;
    if a == [] {
      assert a + b == b;
    } else {
      EncodeAllAppend(a[1..], b);
      assert (a + b)[1..] == a[1..] + b && (a + b)[0] == a[0];
      var x, y := EncodeAll(a[1..]), EncodeAll(b);
      assert Encode(a[0]) + (x + y) == (Encode(a[0]) + x) + y;
    }
  }
}
