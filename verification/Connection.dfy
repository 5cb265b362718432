/** The receiving side of one TCP connection, src/network/TcpConnection.cpp: chunks returned by
    `recv` are appended to a buffer and complete frames are handed to the message callback.
    Closing is the last thing a connection does. */
module Connection {
  import opened Frames

  /** One return of `recv`: bytes, an interrupted call, an empty socket, end of stream, an error. */
  datatype RecvResult = Received(chunk: Bytes) | Interrupted | WouldBlock | EndOfStream | Failed

  // ---------------------------------------------------------------------------
  // Reference semantics
  // ---------------------------------------------------------------------------

  function Concat(chunks: seq<Bytes>): (stream: Bytes) {
    if chunks == [] then [] else chunks[0] + Concat(chunks[1..])
  }

  /** The bytes one readable event brings in: everything up to the first result that is
      neither data nor an interruption. */
  function Arrived(results: seq<RecvResult>): (bytes: Bytes) {
    if results == [] then []
    else match results[0]
      case Received(chunk) => chunk + Arrived(results[1..])
      case Interrupted => Arrived(results[1..])
      case _ => []
  }

  /** Whether that event ends the connection. */
  predicate Ends(results: seq<RecvResult>) {
    results != [] &&
    match results[0]
      case Received(_) => Ends(results[1..])
      case Interrupted => Ends(results[1..])
      case WouldBlock => false
      case EndOfStream => true
      case Failed => true
  }

  predicate EndsReading(r: RecvResult) {
    !r.Received? && !r.Interrupted?
  }

  /** The chunks among results. */
  function Chunks(results: seq<RecvResult>): seq<Bytes> {
    if results == [] then []
    else (if results[0].Received? then [results[0].chunk] else []) + Chunks(results[1..])
  }

  /** An event brings in every chunk before the first result that is neither data nor an interruption,
      and ends the connection exactly if that result is the end of the stream or an error. */
  lemma {:induction false} EventBringsIn(results: seq<RecvResult>, stop: nat)
    requires stop <= |results| && forall i :: 0 <= i < stop ==> !EndsReading(results[i])
    requires stop < |results| ==> EndsReading(results[stop])
    ensures Arrived(results) == Concat(Chunks(results[..stop]))
    ensures Ends(results) <==> stop < |results| && (results[stop].EndOfStream? || results[stop].Failed?)
    decreases results
  {
    if stop > 0 {
      EventBringsIn(results[1..], stop - 1);
      var first, later := results[0], results[1..][..stop - 1];
      assert results[..stop][1..] == later;
      assert Chunks(results[..stop]) == (if first.Received? then [first.chunk] else []) + Chunks(later);
      if first.Received? {
        assert ([first.chunk] + Chunks(later))[1..] == Chunks(later);
      } else {
        assert [] + Chunks(later) == Chunks(later);
      }
    }
  }

  lemma ArrivedStep(results: seq<RecvResult>, i: nat)
    requires i < |results|
    ensures Arrived(results[i..]) == match results[i]
              case Received(chunk) => chunk + Arrived(results[i + 1..])
              case Interrupted => Arrived(results[i + 1..])
              case _ => []
    ensures Ends(results[i..]) == match results[i]
              case Received(_) | Interrupted => Ends(results[i + 1..])
              case WouldBlock => false
              case _ => true
  {
    assert results[i..][0] == results[i] && results[i..][1..] == results[i + 1..];
  }

  /** The incremental decoder: what has been delivered and what is still buffered. */
  function Absorb(p: Parsed, chunk: Bytes): Parsed {
    var q := Parse(p.rest + chunk);
    Parsed(p.messages + q.messages, q.rest)
  }

  function AbsorbAll(p: Parsed, chunks: seq<Bytes>): Parsed
    decreases chunks
  {
    if chunks == [] then p else AbsorbAll(Absorb(p, chunks[0]), chunks[1..])
  }

  lemma AbsorbIsParse(before: Bytes, chunk: Bytes)
    ensures Absorb(Parse(before), chunk) == Parse(before + chunk)
  {
    hide Parse;
    ParseAppend(before, chunk);
  }

  lemma {:induction false} AbsorbAllIsParse(before: Bytes, chunks: seq<Bytes>)
    ensures AbsorbAll(Parse(before), chunks) == Parse(before + Concat(chunks))
    decreases chunks
  {
    hide Parse, Absorb;
    if chunks == [] {
      assert before + Concat(chunks) == before;
    } else {
      AbsorbIsParse(before, chunks[0]);
      AbsorbAllIsParse(before + chunks[0], chunks[1..]);
      assert before + chunks[0] + Concat(chunks[1..]) == before + Concat(chunks);
    }
  }

  /** The messages delivered do not depend on how the stream was cut into chunks: they are the
      reference parse of the whole stream, valid or not. */
  lemma ChunkingConfluence(chunks: seq<Bytes>)
    ensures AbsorbAll(Parsed([], []), chunks) == Parse(Concat(chunks))
  {
    hide Parse, AbsorbAll, Concat;
    assert Parse([]) == Parsed([], []) by {
      ParseOfFrames([], []);
      assert FrameAll([]) + [] == [];
    }
    AbsorbAllIsParse([], chunks);
    assert [] + Concat(chunks) == Concat(chunks);
  }

  /** Once a header above the cap has reached the head of the buffer, no chunk that follows
      delivers anything. */
  lemma NothingAfterOversizedHeader(chunks: seq<Bytes>, later: seq<Bytes>)
    requires OversizedHeader(AbsorbAll(Parsed([], []), chunks).rest)
    ensures AbsorbAll(Parsed([], []), chunks + later).messages == AbsorbAll(Parsed([], []), chunks).messages
  {
    hide Parse, AbsorbAll, Concat;
    ChunkingConfluence(chunks);
    ChunkingConfluence(chunks + later);
    ConcatAppend(chunks, later);
    OversizedIsFinal(Concat(chunks), Concat(later));
  }

  lemma {:induction false} ConcatAppend(a: seq<Bytes>, b: seq<Bytes>)
    ensures Concat(a + b) == Concat(a) + Concat(b)
  {
    if a == [] {
      assert a + b == b;
    } else {
      ConcatAppend(a[1..], b);
      assert (a + b)[0] == a[0] && (a + b)[1..] == a[1..] + b;
      calc {
        Concat(a + b);
        a[0] + Concat(a[1..] + b);
        a[0] + (Concat(a[1..]) + Concat(b));
        (a[0] + Concat(a[1..])) + Concat(b);
      }
    }
  }

  /** A receiver that has seen only part of what was sent has delivered only part of it. */
  lemma DeliveredIsMonotone(seen: Bytes, sent: Bytes)
    requires seen <= sent
    ensures Parse(seen).messages <= Parse(sent).messages
  {
    hide Parse;
    ParseAppend(seen, sent[|seen|..]);
    assert seen + sent[|seen|..] == sent;
  }

  // ---------------------------------------------------------------------------
  // The connection object
  // ---------------------------------------------------------------------------

  class TcpConnection {
    const pendingData: ByteBuffer
    var closing: bool
    /** The calls made so far to the close callback. */
    var closeCalls: nat
    /** The calls made so far to the message callback. */
    var delivered: seq<Bytes>
    /** Every byte read from the socket so far. */
    ghost var received: Bytes

    ghost predicate Valid()
      reads this, pendingData
    {
      && Parse(received) == Parsed(delivered, pendingData.bytes)
      && ClosedOnce()
      && (OversizedHeader(pendingData.bytes) ==> closing)
    }

    /** The close callback has been called once if the connection is closing, and else never. */
    predicate ClosedOnce()
      reads this
    {
      closeCalls == if closing then 1 else 0
    }

    constructor ()
      ensures Valid() && fresh(pendingData)
      ensures received == [] && delivered == [] && !closing && closeCalls == 0
    {
      pendingData := new ByteBuffer();
      closing, closeCalls, delivered, received := false, 0, [], [];
    }

    /** Only the first request reaches the close callback. */
    method RequestClose()
      modifies this`closing, this`closeCalls
      ensures closing && closeCalls == old(closeCalls) + if old(closing) then 0 else 1
      ensures old(ClosedOnce()) ==> ClosedOnce()
    {
      if closing {
        return;
      }
      closing := true;
      closeCalls := closeCalls + 1;
    }

    /** Delivers every complete frame of the buffer, closing on an oversized header. */
    method ProcessPendingData()
      requires ClosedOnce()
      modifies this`closing, this`closeCalls, this`delivered, pendingData
      ensures ClosedOnce()
      ensures delivered == old(delivered) + Parse(old(pendingData.bytes)).messages
      ensures pendingData.bytes == Parse(old(pendingData.bytes)).rest
      ensures closing == (old(closing) || OversizedHeader(pendingData.bytes))
    {
      ghost var all := pendingData.bytes;
      ghost var taken: seq<Bytes> := [];
      assert FrameAll([]) + all == all;
      while true
        invariant AllFit(taken) && all == FrameAll(taken) + pendingData.bytes
        invariant delivered == old(delivered) + taken && closing == old(closing) && closeCalls == old(closeCalls)
        decreases |pendingData.bytes|
      {
        ghost var before := pendingData.bytes;
        var decoding := TryDecode(pendingData);
        match decoding {
          case Incomplete =>
            ParseOfFrames(taken, pendingData.bytes);
            return;
          case Oversized =>
            RequestClose();
            ParseOfFrames(taken, pendingData.bytes);
            return;
          case Decoded(message) =>
            delivered := delivered + [message];
            TakeOne(all, taken, message, pendingData.bytes);
            taken := taken + [message];
        }
      }
    }

    /** What is done with the bytes of one `recv`. */
    method TakeIn(chunk: Bytes)
      requires Valid()
      modifies this, pendingData
      ensures Valid() && received == old(received) + chunk
      ensures closing == (old(closing) || OversizedHeader(pendingData.bytes))
      ensures old(OversizedHeader(pendingData.bytes)) ==> OversizedHeader(pendingData.bytes)
    {
      hide Parse;
      AbsorbIsParse(received, chunk);
      OversizedStays(received, chunk);
      pendingData.bytes := pendingData.bytes + chunk;
      ProcessPendingData();
      received := received + chunk;
    }

    /** The read callback: drains the socket. A connection that is closing ignores the event,
        but once inside the loop reading goes on to the end even if a frame was refused. */
    method HandleRead(results: seq<RecvResult>)
      requires Valid()
      modifies this, pendingData
      ensures Valid()
      ensures received == old(received) + if old(closing) then [] else Arrived(results)
      ensures closing == (old(closing) || Ends(results) || OversizedHeader(Parse(received).rest))
    {
      if closing {
        return;
      }
      var i := 0;
      while i < |results|
        invariant i <= |results|
        invariant Valid()
        invariant received + Arrived(results[i..]) == old(received) + Arrived(results)
        invariant Ends(results[i..]) == Ends(results)
        invariant closing == OversizedHeader(pendingData.bytes)
      {
        hide Parse;
        var result := results[i];
        ArrivedStep(results, i);
        hide Arrived, Ends;
        i := i + 1;
        match result {
          case Received(chunk) =>
            TakeIn(chunk);
          case Interrupted =>
          case WouldBlock =>
            return;
          case EndOfStream =>
            RequestClose();
            return;
          case Failed =>
            RequestClose();
            return;
        }
      }
    }
  }

  lemma TakeOne(all: Bytes, taken: seq<Bytes>, message: Bytes, rest: Bytes)
    requires AllFit(taken) && Fits(message)
    requires all == FrameAll(taken) + (Frame(message) + rest)
    ensures AllFit(taken + [message]) && all == FrameAll(taken + [message]) + rest
  {
    FrameAllAppend(taken, [message]);
    assert FrameAll([message]) == Frame(message) + FrameAll([]) == Frame(message);
  }

  lemma OversizedStays(before: Bytes, chunk: Bytes)
    ensures OversizedHeader(Parse(before).rest) ==> OversizedHeader(Parse(before + chunk).rest)
  {
    if OversizedHeader(Parse(before).rest) {
      OversizedIsFinal(before, chunk);
    }
  }
}
