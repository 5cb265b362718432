/** The length-prefixed framing of src/protocol/FrameCodec.cpp: a big-endian 32-bit length
    followed by the payload, payloads above one mebibyte being refused on both sides. */
module Frames {
  import opened Wrappers

  newtype byte = x: int | 0 <= x < 256

  type Bytes = seq<byte>

  const HEADER_SIZE := 4
  const MAX_FRAME_SIZE := 1024 * 1024
  const UINT32_LIMIT := 0x1_0000_0000

  datatype EncodeError = PayloadTooLarge

  datatype Decoding = Incomplete | Oversized | Decoded(payload: Bytes)

  // ---------------------------------------------------------------------------
  // Header
  // ---------------------------------------------------------------------------

  /** `htonl`: the four bytes of n, most significant first. */
  function BigEndian(n: nat): (header: Bytes)
    requires n < UINT32_LIMIT
    ensures |header| == HEADER_SIZE && FromBigEndian(header) == n
    ensures n == header[0] as int * 0x100_0000 + header[1] as int * 0x1_0000
                 + header[2] as int * 0x100 + header[3] as int
  {
    var high := n / 0x1_0000;
    var low := n % 0x1_0000;
    [(high / 0x100) as byte, (high % 0x100) as byte, (low / 0x100) as byte, (low % 0x100) as byte]
  }

  /** `ntohl`. */
  function FromBigEndian(header: Bytes): (n: nat)
    requires |header| == HEADER_SIZE
    ensures n < UINT32_LIMIT
    ensures n == header[0] as int * 0x100_0000 + header[1] as int * 0x1_0000
                 + header[2] as int * 0x100 + header[3] as int
  {
    ((header[0] as int * 0x100 + header[1] as int) * 0x100 + header[2] as int) * 0x100 + header[3] as int
  }

  /** No two headers announce the same length. */
  lemma HeaderIsDetermined(header: Bytes)
    requires |header| == HEADER_SIZE
    ensures BigEndian(FromBigEndian(header)) == header
  {
    var n := FromBigEndian(header);
    assert n / 0x1_0000 == header[0] as int * 0x100 + header[1] as int;
    assert n % 0x1_0000 == header[2] as int * 0x100 + header[3] as int;
  }

  // ---------------------------------------------------------------------------
  // Frames and streams of frames
  // ---------------------------------------------------------------------------

  predicate Fits(payload: Bytes) {
    |payload| <= MAX_FRAME_SIZE
  }

  predicate AllFit(messages: seq<Bytes>) {
    forall m <- messages :: Fits(m)
  }

  function Frame(payload: Bytes): (frame: Bytes)
    requires Fits(payload)
  {
    BigEndian(|payload|) + payload
  }

  function FrameAll(messages: seq<Bytes>): (stream: Bytes)
    requires AllFit(messages)
  {
    if messages == [] then [] else Frame(messages[0]) + FrameAll(messages[1..])
  }

  predicate OversizedHeader(s: Bytes) {
    HEADER_SIZE <= |s| && FromBigEndian(s[..HEADER_SIZE]) > MAX_FRAME_SIZE
  }

  /** No complete acceptable frame stands at the head of s. */
  predicate Stuck(s: Bytes) {
    || |s| < HEADER_SIZE
    || OversizedHeader(s)
    || |s| < HEADER_SIZE + FromBigEndian(s[..HEADER_SIZE])
  }

  /** What a byte stream means: the payloads of its complete leading frames, and the bytes
      that remain where no further frame can be taken. */
  ghost predicate IsParse(s: Bytes, messages: seq<Bytes>, rest: Bytes) {
    AllFit(messages) && Stuck(rest) && s == FrameAll(messages) + rest
  }

  lemma FrameHead(payload: Bytes, tail: Bytes)
    requires Fits(payload)
    ensures (Frame(payload) + tail)[..HEADER_SIZE] == BigEndian(|payload|)
    ensures !Stuck(Frame(payload) + tail)
    ensures (Frame(payload) + tail)[HEADER_SIZE..HEADER_SIZE + |payload|] == payload
    ensures (Frame(payload) + tail)[HEADER_SIZE + |payload|..] == tail
  {
  }

  /** The first message of any reading is the frame at the head of the stream. */
  lemma ParseHead(s: Bytes, messages: seq<Bytes>, rest: Bytes)
    requires IsParse(s, messages, rest)
    ensures Stuck(s) <==> messages == []
    ensures messages != [] ==>
              var end := HEADER_SIZE + |messages[0]|;
              && end <= |s|
              && s[..HEADER_SIZE] == BigEndian(|messages[0]|)
              && messages[0] == s[HEADER_SIZE..end]
              && IsParse(s[end..], messages[1..], rest)
  {
    if messages == [] {
      assert s == rest;
    } else {
      var tail := FrameAll(messages[1..]) + rest;
      assert s == Frame(messages[0]) + tail;
      FrameHead(messages[0], tail);
    }
  }

  /** Framing is prefix free, so a stream has at most one reading. */
  lemma {:induction false} ParseIsUnique(s: Bytes, m1: seq<Bytes>, r1: Bytes, m2: seq<Bytes>, r2: Bytes)
    requires IsParse(s, m1, r1) && IsParse(s, m2, r2)
    ensures m1 == m2 && r1 == r2
  {
    ParseHead(s, m1, r1);
    ParseHead(s, m2, r2);
    if Stuck(s) {
      assert s == r1 && s == r2;
    } else {
      assert |m1[0]| == FromBigEndian(s[..HEADER_SIZE]) == |m2[0]|;
      ParseIsUnique(s[HEADER_SIZE + |m1[0]|..], m1[1..], r1, m2[1..], r2);
      assert m1 == [m1[0]] + m1[1..] && m2 == [m2[0]] + m2[1..];
    }
  }

  datatype Parsed = Parsed(messages: seq<Bytes>, rest: Bytes)

  /** The reference parse of a whole stream. */
  function Parse(s: Bytes): (p: Parsed)
    decreases |s|
  {
    if Stuck(s) then
      Parsed([], s)
    else
      var end := HEADER_SIZE + FromBigEndian(s[..HEADER_SIZE]);
      var tail := Parse(s[end..]);
      Parsed([s[HEADER_SIZE..end]] + tail.messages, tail.rest)
  }

  lemma HeadFrame(s: Bytes)
    requires !Stuck(s)
    ensures var end := HEADER_SIZE + FromBigEndian(s[..HEADER_SIZE]);
            && Fits(s[HEADER_SIZE..end])
            && s == Frame(s[HEADER_SIZE..end]) + s[end..]
  {
    HeaderIsDetermined(s[..HEADER_SIZE]);
  }

  lemma FrameAllCons(payload: Bytes, messages: seq<Bytes>)
    requires Fits(payload) && AllFit(messages)
    ensures AllFit([payload] + messages)
    ensures FrameAll([payload] + messages) == Frame(payload) + FrameAll(messages)
  {
    assert ([payload] + messages)[1..] == messages;
  }

  lemma FrameAllOne(payload: Bytes)
    requires Fits(payload)
    ensures FrameAll([payload]) == Frame(payload)
  {
    assert [payload][1..] == [];
  }

  lemma ReadsNothing(s: Bytes)
    requires Stuck(s)
    ensures IsParse(s, [], s)
  {
    assert FrameAll([]) + s == s;
  }

  lemma ReadsCons(s: Bytes, payload: Bytes, after: Bytes, messages: seq<Bytes>, rest: Bytes)
    requires Fits(payload) && s == Frame(payload) + after && IsParse(after, messages, rest)
    ensures IsParse(s, [payload] + messages, rest)
  {
    hide Frame, FrameAll, Stuck, Fits;
    FrameAllCons(payload, messages);
    calc {
      s;
      Frame(payload) + (FrameAll(messages) + rest);
      FrameAll([payload] + messages) + rest;
    }
  }

  lemma {:induction false} ParseReads(s: Bytes)
    ensures IsParse(s, Parse(s).messages, Parse(s).rest)
    decreases |s|
  {
    hide Frame, IsParse;
    if Stuck(s) {
      ReadsNothing(s);
    } else {
      var end := HEADER_SIZE + FromBigEndian(s[..HEADER_SIZE]);
      var payload, tail := s[HEADER_SIZE..end], Parse(s[end..]);
      ParseReads(s[end..]);
      HeadFrame(s);
      ReadsCons(s, payload, s[end..], tail.messages, tail.rest);
    }
  }

  /** Every split of a stream parses the same: what the first part leaves over is all the
      later part needs. */
  lemma {:induction false} ParseAppend(a: Bytes, b: Bytes)
    ensures Parse(a + b).messages == Parse(a).messages + Parse(Parse(a).rest + b).messages
    ensures Parse(a + b).rest == Parse(Parse(a).rest + b).rest
  {
    hide Parse, Frame, FrameAll, Stuck;
    var p, q := Parse(a), Parse(Parse(a).rest + b);
    ParseReads(a);
    ParseReads(p.rest + b);
    ParseReads(a + b);
    FrameAllAppend(p.messages, q.messages);
    calc {
      a + b;
      (FrameAll(p.messages) + p.rest) + b;
      FrameAll(p.messages) + (p.rest + b);
      FrameAll(p.messages) + (FrameAll(q.messages) + q.rest);
      FrameAll(p.messages + q.messages) + q.rest;
    }
    ParseIsUnique(a + b, Parse(a + b).messages, Parse(a + b).rest, p.messages + q.messages, q.rest);
  }

  lemma {:induction false} FrameAllAppend(m1: seq<Bytes>, m2: seq<Bytes>)
    requires AllFit(m1) && AllFit(m2)
    ensures AllFit(m1 + m2) && FrameAll(m1 + m2) == FrameAll(m1) + FrameAll(m2)
  {
    if m1 == [] {
      assert m1 + m2 == m2;
    } else {
      hide Frame, Fits;
      FrameAllAppend(m1[1..], m2);
      assert (m1 + m2)[0] == m1[0] && (m1 + m2)[1..] == m1[1..] + m2;
      calc {
        FrameAll(m1 + m2);
        Frame(m1[0]) + FrameAll(m1[1..] + m2);
        Frame(m1[0]) + (FrameAll(m1[1..]) + FrameAll(m2));
        (Frame(m1[0]) + FrameAll(m1[1..])) + FrameAll(m2);
      }
    }
  }

  /** Reading the frames of a list of payloads gives the list back. */
  lemma ParseOfFrames(messages: seq<Bytes>, rest: Bytes)
    requires AllFit(messages) && Stuck(rest)
    ensures Parse(FrameAll(messages) + rest) == Parsed(messages, rest)
  {
    var s := FrameAll(messages) + rest;
    ParseReads(s);
    ParseIsUnique(s, Parse(s).messages, Parse(s).rest, messages, rest);
  }

  /** A frame cut short anywhere is never complete. */
  lemma CutFrameIsStuck(payload: Bytes, cut: nat)
    requires Fits(payload) && cut < |Frame(payload)|
    ensures Stuck(Frame(payload)[..cut]) && !OversizedHeader(Frame(payload)[..cut])
  {
    if HEADER_SIZE <= cut {
      assert Frame(payload)[..cut][..HEADER_SIZE] == BigEndian(|payload|);
    }
  }

  /** Past an oversized header nothing is ever read, whatever bytes follow. */
  lemma OversizedIsFinal(s: Bytes, more: Bytes)
    requires OversizedHeader(Parse(s).rest)
    ensures Parse(s + more) == Parsed(Parse(s).messages, Parse(s).rest + more)
    ensures OversizedHeader(Parse(s + more).rest)
  {
    ParseAppend(s, more);
    assert (Parse(s).rest + more)[..HEADER_SIZE] == Parse(s).rest[..HEADER_SIZE];
  }

  // ---------------------------------------------------------------------------
  // The codec itself
  // ---------------------------------------------------------------------------

  /** `FrameCodec::encode`: a buffer of the final size, filled header first. */
  method Encode(payload: Bytes) returns (r: Result<Bytes, EncodeError>)
    ensures r.Success? <==> |payload| <= 1_048_576
    ensures r == if Fits(payload) then Success(BigEndian(|payload|) + payload) else Failure(PayloadTooLarge)
  {
    if |payload| > MAX_FRAME_SIZE {
      return Failure(PayloadTooLarge);
    }
    var header := BigEndian(|payload|);
    var frame := new byte[HEADER_SIZE + |payload|];
    for i := 0 to HEADER_SIZE
      invariant frame[..i] == header[..i]
    {
      frame[i] := header[i];
    }
    for i := 0 to |payload|
      invariant frame[..HEADER_SIZE + i] == header + payload[..i]
    {
      frame[HEADER_SIZE + i] := payload[i];
    }
    assert frame[..] == frame[..HEADER_SIZE + |payload|] == header + payload;
    return Success(frame[..]);
  }

  /** A byte string that is grown and consumed in place. */
  class ByteBuffer {
    var bytes: Bytes

    constructor ()
      ensures bytes == []
    {
      bytes := [];
    }
  }

  /** `FrameCodec::tryDecode`: takes exactly one frame off the buffer, or leaves it alone. */
  method TryDecode(buffer: ByteBuffer) returns (r: Decoding)
    modifies buffer
    ensures r.Decoded? ==> Fits(r.payload) && old(buffer.bytes) == Frame(r.payload) + buffer.bytes
    ensures !r.Decoded? ==> buffer.bytes == old(buffer.bytes) && Stuck(buffer.bytes)
    ensures r.Oversized? <==> OversizedHeader(old(buffer.bytes))
    ensures r.Oversized? <==> 4 <= old(|buffer.bytes|) && FromBigEndian(old(buffer.bytes[..4])) > 1_048_576
    ensures r.Incomplete? <==>
              || old(|buffer.bytes|) < 4
              || (FromBigEndian(old(buffer.bytes[..4])) <= 1_048_576
                  && old(|buffer.bytes|) < 4 + FromBigEndian(old(buffer.bytes[..4])))
  {
    if |buffer.bytes| < HEADER_SIZE {
      return Incomplete;
    }
    var payloadLength := FromBigEndian(buffer.bytes[..HEADER_SIZE]);
    if payloadLength > MAX_FRAME_SIZE {
      return Oversized;
    }
    var completeFrameSize := HEADER_SIZE + payloadLength;
    if |buffer.bytes| < completeFrameSize {
      return Incomplete;
    }
    var payload := buffer.bytes[HEADER_SIZE..completeFrameSize];
    HeaderIsDetermined(buffer.bytes[..HEADER_SIZE]);
    buffer.bytes := buffer.bytes[completeFrameSize..];
    return Decoded(payload);
  }
}
