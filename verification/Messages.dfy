/** The wire format shared by the C# reply builder and the C++ packet serializers: a 12-byte header
    (total size, code, request number) and a payload. */
module Messages {
  import opened Bytes
  import opened SlideBuffers
  import opened Framing

  const HEADER_SIZE: nat := 12

  datatype Message = Message(code: int32, reqNo: uint32, payload: seq<byte>)

  datatype Header = Header(msgSize: uint32, code: int32, reqNo: uint32)

  /** The total size fits the receiver's window. */
  predicate Sendable(m: Message) {
    |m.payload| + HEADER_SIZE <= MAX_FRAME
  }

  predicate AllSendable(ms: seq<Message>) {
    forall i :: 0 <= i < |ms| ==> Sendable(ms[i])
  }

  /** The header followed by the payload, each field little-endian. */
  function Encode(m: Message): (s: seq<byte>)
    requires |m.payload| + HEADER_SIZE < 0x1_0000_0000
    ensures |s| == HEADER_SIZE + |m.payload|
  {
    EncodeUint32((|m.payload| + HEADER_SIZE) as uint32) + EncodeUint32(ToUnsigned(m.code))
    + EncodeUint32(m.reqNo) + m.payload
  }

  /** BytesToStruct on a header. */
  function ParseHeader(s: seq<byte>): Header
    requires |s| >= HEADER_SIZE
  {
    Header(DecodeUint32(s), ToSigned(DecodeUint32(s[4..])), DecodeUint32(s[8..]))
  }

  function Decode(s: seq<byte>): Message
    requires |s| >= HEADER_SIZE
  {
    var h := ParseHeader(s);
    Message(h.code, h.reqNo, s[HEADER_SIZE..])
  }

  lemma DecodeEncodeMessage(m: Message)
    requires |m.payload| + HEADER_SIZE < 0x1_0000_0000
    ensures Decode(Encode(m)) == m
    ensures ParseHeader(Encode(m)).msgSize as nat == |Encode(m)| == PeekLength(Encode(m))
  {
    var s := Encode(m);
    var total := (|m.payload| + HEADER_SIZE) as uint32;
    var code := EncodeUint32(ToUnsigned(m.code));
    var no := EncodeUint32(m.reqNo);
    assert s == EncodeUint32(total) + (code + no + m.payload);
    DecodeEncode(total, code + no + m.payload);
    assert s[4..] == code + (no + m.payload);
    DecodeEncode(ToUnsigned(m.code), no + m.payload);
    SignedRoundTrip(m.code);
    assert s[8..] == s[4..][4..] == no + m.payload;
    DecodeEncode(m.reqNo, m.payload);
  }

  /** The layout, byte by byte: size, code and request number stand at offsets 0, 4 and 8, lowest byte first, the code
      in two's complement, and the payload behind them as it is. */
  lemma Layout(m: Message)
    requires |m.payload| + HEADER_SIZE < 0x1_0000_0000
    ensures var s := Encode(m);
            && LittleEndian(s[..4]) == |m.payload| + 12
            && (LittleEndian(s[4..8]) - m.code as int) % 0x1_0000_0000 == 0
            && LittleEndian(s[8..12]) == m.reqNo as nat
            && s[12..] == m.payload
  {
    var s, code := Encode(m), ToUnsigned(m.code);
    EncodesLittleEndian((|m.payload| + HEADER_SIZE) as uint32);
    EncodesLittleEndian(code);
    EncodesLittleEndian(m.reqNo);
    SignedRoundTrip(m.code);
    assert s[..4] == EncodeUint32((|m.payload| + HEADER_SIZE) as uint32);
    assert s[4..8] == EncodeUint32(code);
    assert s[8..12] == EncodeUint32(m.reqNo);
  }

  function EncodeAll(ms: seq<Message>): (frames: seq<seq<byte>>)
    requires AllSendable(ms)
    ensures |frames| == |ms|
    ensures forall i :: 0 <= i < |ms| ==> Sendable(ms[i]) && frames[i] == Encode(ms[i])
  {
    if ms == [] then [] else [Encode(ms[0])] + EncodeAll(ms[1..])
  }

  lemma {:induction false} DeframeEncoded(ms: seq<Message>)
    requires AllSendable(ms)
    ensures Deframe(Flatten(EncodeAll(ms))) == Deframed(EncodeAll(ms), [])
    ensures LengthsIn(Flatten(EncodeAll(ms)), MAX_FRAME)
  {
    if ms != [] {
      var frame, later := Encode(ms[0]), EncodeAll(ms[1..]);
      DeframeEncoded(ms[1..]);
      DecodeEncodeMessage(ms[0]);
      FlattenCons(frame, later);
      HeadStays(frame, Flatten(later));
    }
  }

  /** What was fed to the receive loop came out as exactly these messages. */
  ghost predicate Delivers(fed: Fed, ms: seq<Message>) {
    && fed.lossless && fed.rest == [] && |fed.frames| == |ms|
    && forall i :: 0 <= i < |ms| ==> |fed.frames[i]| >= HEADER_SIZE && Decode(fed.frames[i]) == ms[i]
  }

  /** Wire round trip: any list of messages, serialized, concatenated and cut arbitrarily by the network,
      comes back as exactly that list, with code, request number and payload intact. */
  lemma WireRoundTrip(ms: seq<Message>, chunks: seq<seq<byte>>)
    requires AllSendable(ms)
    requires IsChunking(chunks, Flatten(EncodeAll(ms)))
    ensures Delivers(Feed([], chunks), ms)
  {
    DeframeEncoded(ms);
    LegalLengthsFit(Flatten(EncodeAll(ms)));
    ChunkingIndependence(Flatten(EncodeAll(ms)), chunks);
    forall i | 0 <= i < |ms| ensures Decode(EncodeAll(ms)[i]) == ms[i] {
      DecodeEncodeMessage(ms[i]);
    }
  }
}
