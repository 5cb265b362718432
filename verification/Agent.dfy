/** The sending side: src/network/TcpClient.cpp and the reconnect, backoff and send part of the
    monitoring loop in src/agent/MonitorAgent.cpp. Sockets and clocks are inputs. */
module Agent {
  import opened Clock
  import opened Frames
  import Connection

  /** One return of `send`: room for some bytes (none when it returned zero), an interruption, an error. */
  datatype SendResult = Accepted(room: nat) | Interrupted | Failed

  /** What became of one connection: the bytes given to the socket, the samples whose `sendAll`
      returned true, and the part of the last frame that was sent before `sendAll` failed. */
  datatype Link = Link(wire: Bytes, completed: seq<nat>, partial: Bytes)

  datatype Attempt = Attempt(time: int, connected: bool)

  /** In seconds. */
  const MAX_RECONNECT_DELAY := 30

  function Min(a: nat, b: nat): nat {
    if a < b then a else b
  }

  // ---------------------------------------------------------------------------
  // TcpClient
  // ---------------------------------------------------------------------------

  /** How many of the remaining bytes a sequence of `send` calls takes. A list of results that
      ends early stands for a failure of the call after it. */
  function AcceptedBytes(remaining: nat, results: seq<SendResult>): (n: nat)
    ensures n <= remaining
    decreases results
  {
    if remaining == 0 || results == [] then 0
    else match results[0]
      case Accepted(room) =>
        var n := Min(room, remaining);
        if n == 0 then 0 else n + AcceptedBytes(remaining - n, results[1..])
      case Interrupted => AcceptedBytes(remaining, results[1..])
      case Failed => 0
  }

  class TcpClient {
    var connected: bool
    /** One entry for every connection ever made, the current one last. */
    ghost var links: seq<Link>

    ghost predicate Valid()
      reads this
    {
      connected ==> links != []
    }

    constructor ()
      ensures Valid() && !connected && links == []
    {
      connected, links := false, [];
    }

    method ConnectToServer(reachable: bool) returns (ok: bool)
      requires Valid()
      modifies this
      ensures Valid() && connected == ok == (old(connected) || reachable)
      ensures links == old(links) + if !old(connected) && reachable then [Link([], [], [])] else []
    {
      if connected {
        return true;
      }
      if !reachable {
        return false;
      }
      connected := true;
      links := links + [Link([], [], [])];
      return true;
    }

    method Disconnect()
      modifies this`connected
      ensures !connected
    {
      connected := false;
    }

    /** True exactly when every byte went out; otherwise the connection is given up. */
    method SendAll(data: Bytes, results: seq<SendResult>) returns (ok: bool)
      requires Valid()
      modifies this
      ensures Valid() && connected == ok
      ensures !old(connected) ==> !ok && links == old(links)
      ensures old(connected) ==>
                var n := AcceptedBytes(|data|, results);
                var last := |old(links)| - 1;
                && ok == (n == |data|)
                && links == old(links)[last := old(links)[last].(wire := old(links)[last].wire + data[..n])]
    {
      if !connected {
        return false;
      }
      var totalSent := 0;
      var i := 0;
      ghost var last := |links| - 1;
      assert links[last].wire + data[..0] == links[last].wire;
      while totalSent < |data|
        invariant 0 <= totalSent <= |data| && i <= |results|
        invariant connected && |links| == last + 1
        invariant totalSent + AcceptedBytes(|data| - totalSent, results[i..]) == AcceptedBytes(|data|, results)
        invariant links == old(links)[last := old(links)[last].(wire := old(links)[last].wire + data[..totalSent])]
        decreases |results| - i
      {
        if i == |results| {
          Disconnect();
          return false;
        }
        assert results[i..][0] == results[i] && results[i..][1..] == results[i + 1..];
        var result := results[i];
        i := i + 1;
        match result {
          case Accepted(room) =>
            var bytesSent := Min(room, |data| - totalSent);
            if bytesSent == 0 {
              Disconnect();
              return false;
            }
            assert data[..totalSent] + data[totalSent..totalSent + bytesSent] == data[..totalSent + bytesSent];
            ghost var wire := links[last].wire + data[totalSent..totalSent + bytesSent];
            assert wire == old(links)[last].wire + data[..totalSent + bytesSent];
            links := links[last := links[last].(wire := wire)];
            totalSent := totalSent + bytesSent;
          case Interrupted =>
          case Failed =>
            Disconnect();
            return false;
        }
      }
      return true;
    }
  }

  // ---------------------------------------------------------------------------
  // One tick of the monitoring loop
  // ---------------------------------------------------------------------------

  /** `samples` are the payloads framed so far, `attempts` the connection attempts made so far. */
  datatype AgentState = AgentState(
    connected: bool,
    reconnectDelay: nat,
    nextReconnectTime: int,
    links: seq<Link>,
    samples: seq<Bytes>,
    attempts: seq<Attempt>,
    stopped: bool)

  /** What the environment contributes to one tick: the serialized sample, the clock before the
      reconnect check and after a failed transmission, and the results of `connect` and `send`. */
  datatype TickInput = TickInput(
    payload: Bytes,
    reconnectNow: int,
    reachable: bool,
    sendResults: seq<SendResult>,
    failureTime: int)

  function Start(now: int): AgentState {
    AgentState(false, 1, now, [], [], [], false)
  }

  function Reconnect(s: AgentState, now: int, reachable: bool): AgentState {
    if s.connected || now < s.nextReconnectTime then
      s
    else if reachable then
      s.(connected := true, links := s.links + [Link([], [], [])],
         reconnectDelay := 1, nextReconnectTime := now, attempts := s.attempts + [Attempt(now, true)])
    else
      s.(nextReconnectTime := now + s.reconnectDelay * SECOND,
         reconnectDelay := Min(s.reconnectDelay * 2, MAX_RECONNECT_DELAY),
         attempts := s.attempts + [Attempt(now, false)])
  }

  function Transmit(s: AgentState, sample: nat, frame: Bytes, results: seq<SendResult>, failureTime: int): AgentState {
    if !s.connected || s.links == [] then
      s
    else
      var last := |s.links| - 1;
      var link := s.links[last];
      var n := AcceptedBytes(|frame|, results);
      if n == |frame| then
        s.(links := s.links[last := link.(wire := link.wire + frame, completed := link.completed + [sample])])
      else
        s.(connected := false,
           links := s.links[last := link.(wire := link.wire + frame[..n], partial := frame[..n])],
           reconnectDelay := 1,
           nextReconnectTime := failureTime + SECOND)
  }

  /** An oversized sample makes `encode` throw, which ends the loop. */
  function Tick(s: AgentState, t: TickInput): AgentState {
    if s.stopped || !Fits(t.payload) then
      s.(stopped := true)
    else
      var s1 := Reconnect(s.(samples := s.samples + [t.payload]), t.reconnectNow, t.reachable);
      Transmit(s1, |s.samples|, Frame(t.payload), t.sendResults, t.failureTime)
  }

  function Run(s: AgentState, ticks: seq<TickInput>): AgentState {
    if ticks == [] then s else Tick(Run(s, ticks[..|ticks| - 1]), ticks[|ticks| - 1])
  }

  /** The loop body from the reconnect check on, over a real client. */
  class MonitorAgent {
    const client: TcpClient
    var reconnectDelay: nat
    var nextReconnectTime: int
    var stopped: bool
    ghost var samples: seq<Bytes>
    ghost var attempts: seq<Attempt>

    ghost function State(): AgentState
      reads this, client
    {
      AgentState(client.connected, reconnectDelay, nextReconnectTime, client.links, samples, attempts, stopped)
    }

    constructor (now: int)
      ensures State() == Start(now) && client.Valid() && fresh(client)
    {
      client := new TcpClient();
      reconnectDelay, nextReconnectTime, stopped := 1, now, false;
      samples, attempts := [], [];
    }

    method DoTick(t: TickInput)
      requires client.Valid() && !stopped
      modifies this, client
      ensures client.Valid()
      ensures State() == Tick(old(State()), t)
    {
      var framed := Encode(t.payload);
      if framed.Failure? {
        stopped := true;
        return;
      }
      ghost var sample := |samples|;
      samples := samples + [t.payload];
      if !client.connected && t.reconnectNow >= nextReconnectTime {
        var ok := client.ConnectToServer(t.reachable);
        attempts := attempts + [Attempt(t.reconnectNow, ok)];
        if ok {
          reconnectDelay := 1;
          nextReconnectTime := t.reconnectNow;
        } else {
          nextReconnectTime := t.reconnectNow + reconnectDelay * SECOND;
          reconnectDelay := Min(reconnectDelay * 2, MAX_RECONNECT_DELAY);
        }
      }
      ghost var s1 := Reconnect(old(State()).(samples := samples), t.reconnectNow, t.reachable);
      assert State() == s1;
      if client.connected {
        ghost var last := |client.links| - 1;
        var sent := client.SendAll(framed.value, t.sendResults);
        ghost var link := client.links[last];
        assert framed.value[..|framed.value|] == framed.value;
        if sent {
          client.links := client.links[last := link.(completed := link.completed + [sample])];
        } else {
          ghost var n := AcceptedBytes(|framed.value|, t.sendResults);
          client.links := client.links[last := link.(partial := framed.value[..n])];
          reconnectDelay := 1;
          nextReconnectTime := t.failureTime + reconnectDelay * SECOND;
        }
      }
    }
  }

  // ---------------------------------------------------------------------------
  // What one tick does
  // ---------------------------------------------------------------------------

  /** A result of `send` that ends the loop: an error, or nothing taken. */
  predicate EndsSending(r: SendResult) {
    r.Failed? || r == Accepted(0)
  }

  /** The room offered by all results together. */
  function Rooms(results: seq<SendResult>): nat {
    if results == [] then 0
    else Rooms(results[..|results| - 1]) + if results[|results| - 1].Accepted? then results[|results| - 1].room else 0
  }

  lemma {:induction false} RoomsFirst(results: seq<SendResult>)
    requires results != []
    ensures Rooms(results) == (if results[0].Accepted? then results[0].room else 0) + Rooms(results[1..])
  {
    var last := |results| - 1;
    if last > 0 {
      RoomsFirst(results[..last]);
      assert results[1..][..last - 1] == results[..last][1..];
      assert results[1..][last - 1] == results[last];
    } else {
      assert results[..0] == [] && results[1..] == [];
    }
  }

  /** The socket takes what the results before the first ending one have room for, if there is that
      much to send. */
  lemma {:induction false} SendTakes(remaining: nat, results: seq<SendResult>, stop: nat)
    requires stop <= |results| && forall i :: 0 <= i < stop ==> !EndsSending(results[i])
    requires stop < |results| ==> EndsSending(results[stop])
    ensures AcceptedBytes(remaining, results) == Min(remaining, Rooms(results[..stop]))
    decreases results
  {
    if stop > 0 {
      RoomsFirst(results[..stop]);
      assert results[..stop][1..] == results[1..][..stop - 1];
      if remaining > 0 {
        var taken := if results[0].Accepted? then Min(results[0].room, remaining) else 0;
        SendTakes(remaining - taken, results[1..], stop - 1);
      }
    }
  }

  /** The client is disconnected and its time has come. */
  predicate AttemptIsDue(s: AgentState, t: TickInput) {
    !s.connected && t.reconnectNow >= s.nextReconnectTime
  }

  /** A tick attempts to connect exactly if the loop has not ended, the sample can be framed, the client
      is disconnected and the time is due; what it records is what happened. */
  lemma TickConnects(s: AgentState, t: TickInput)
    ensures var u := Tick(s, t);
            && (u.stopped <==> s.stopped || |t.payload| > 1_048_576)
            && u.samples == s.samples + (if u.stopped then [] else [t.payload])
            && u.attempts == s.attempts
                             + (if !u.stopped && AttemptIsDue(s, t) then [Attempt(t.reconnectNow, t.reachable)] else [])
            && |u.links| == |s.links| + if !u.stopped && AttemptIsDue(s, t) && t.reachable then 1 else 0
  {
    hide Frame, AcceptedBytes;
  }

  /** A tick that is connected, or gets connected, completes its sample if the results of `send` have room
      for the frame before one of them ends the loop. Otherwise it has sent what there was room for,
      gives the connection up and is to try again one second later. */
  lemma TickSends(s: AgentState, t: TickInput, stop: nat)
    requires !s.stopped && |t.payload| <= 1_048_576 && (s.connected ==> s.links != [])
    requires s.connected || (AttemptIsDue(s, t) && t.reachable)
    requires stop <= |t.sendResults| && forall i :: 0 <= i < stop ==> !EndsSending(t.sendResults[i])
    requires stop < |t.sendResults| ==> EndsSending(t.sendResults[stop])
    ensures var u, room, frame := Tick(s, t), Rooms(t.sendResults[..stop]), BigEndian(|t.payload|) + t.payload;
            var link := if s.connected then s.links[|s.links| - 1] else Link([], [], []);
            && u.links != []
            && u.links == (if s.connected then s.links[..|s.links| - 1] else s.links) + [u.links[|u.links| - 1]]
            && var after := u.links[|u.links| - 1];
               if room >= |frame| then
                 u.connected && after.wire == link.wire + frame && after.completed == link.completed + [|s.samples|]
               else
                 && !u.connected && after.wire == link.wire + frame[..room] && after.completed == link.completed
                 && u.reconnectDelay == 1 && u.nextReconnectTime == t.failureTime + SECOND
  {
    SendTakes(|Frame(t.payload)|, t.sendResults, stop);
    hide AcceptedBytes, Rooms;
    assert Frame(t.payload) == BigEndian(|t.payload|) + t.payload;
    hide Frame, BigEndian;
  }

  /** A tick that stays disconnected sends nothing, and an attempt that failed doubles the delay. */
  lemma TickWaits(s: AgentState, t: TickInput)
    requires !s.stopped && |t.payload| <= 1_048_576 && !s.connected && !(AttemptIsDue(s, t) && t.reachable)
    ensures var u := Tick(s, t);
            && !u.connected && u.links == s.links
            && (if AttemptIsDue(s, t) then
                  && u.nextReconnectTime == t.reconnectNow + s.reconnectDelay * SECOND
                  && u.reconnectDelay == (if s.reconnectDelay >= 15 then 30 else s.reconnectDelay * 2)
                else u.nextReconnectTime == s.nextReconnectTime && u.reconnectDelay == s.reconnectDelay)
  {
    hide Frame, AcceptedBytes;
  }

  /** The server can be reached, and `send` takes the whole frame. */
  predicate GoesWell(t: TickInput) {
    && |t.payload| <= 1_048_576 && t.reachable
    && (forall i :: 0 <= i < |t.sendResults| ==> !EndsSending(t.sendResults[i]))
    && Rooms(t.sendResults) >= HEADER_SIZE + |t.payload|
  }

  /** After n ticks that went well: one attempt, one connection, every sample completed on it. */
  ghost predicate AllWell(s: AgentState, n: nat) {
    && s.connected && !s.stopped && |s.samples| == n && |s.links| == 1 && |s.attempts| == 1
    && s.links[0].completed == seq(n, i => i)
  }

  lemma FirstGoesWell(now: int, t: TickInput)
    requires GoesWell(t) && t.reconnectNow >= now
    ensures AllWell(Tick(Start(now), t), 1) && Tick(Start(now), t).samples == [t.payload]
  {
    assert t.sendResults[..|t.sendResults|] == t.sendResults;
    hide Rooms, Tick, BigEndian, EndsSending;
    TickConnects(Start(now), t);
    TickSends(Start(now), t, |t.sendResults|);
    assert seq(1, i => i) == [0];
  }

  lemma NextGoesWell(s: AgentState, t: TickInput, n: nat)
    requires GoesWell(t) && AllWell(s, n)
    ensures AllWell(Tick(s, t), n + 1) && Tick(s, t).samples == s.samples + [t.payload]
  {
    assert t.sendResults[..|t.sendResults|] == t.sendResults;
    hide Rooms, Tick, BigEndian, EndsSending;
    TickConnects(s, t);
    TickSends(s, t, |t.sendResults|);
    assert seq(n + 1, i => i) == seq(n, i => i) + [n];
  }

  /** When all goes well and the first tick is not before the start, every sample is completed, on one
      connection, made by the first attempt. */
  lemma {:induction false} AllGoesWell(now: int, ticks: seq<TickInput>)
    requires ticks != [] && ticks[0].reconnectNow >= now && forall t <- ticks :: GoesWell(t)
    ensures var s := Run(Start(now), ticks);
            AllWell(s, |ticks|) && forall i :: 0 <= i < |ticks| ==> s.samples[i] == ticks[i].payload
  {
    hide GoesWell, AllWell, Tick;
    var n := |ticks| - 1;
    assert ticks[n] in ticks;
    assert Run(Start(now), ticks) == Tick(Run(Start(now), ticks[..n]), ticks[n]);
    if n == 0 {
      assert ticks[..0] == [] && Run(Start(now), []) == Start(now);
      FirstGoesWell(now, ticks[0]);
    } else {
      AllGoesWell(now, ticks[..n]);
      NextGoesWell(Run(Start(now), ticks[..n]), ticks[n], n);
      assert |Run(Start(now), ticks[..n]).samples| == n by { SamplesOfAllWell(Run(Start(now), ticks[..n]), n); }
    }
    SamplesOfAllWell(Run(Start(now), ticks), |ticks|);
  }

  lemma SamplesOfAllWell(s: AgentState, n: nat)
    requires AllWell(s, n)
    ensures |s.samples| == n
  {
  }

  // ---------------------------------------------------------------------------
  // End to end delivery
  // ---------------------------------------------------------------------------

  ghost predicate Below(completed: seq<nat>, n: nat) {
    forall k :: 0 <= k < |completed| ==> completed[k] < n
  }

  function Payloads(samples: seq<Bytes>, completed: seq<nat>): (r: seq<Bytes>)
    requires Below(completed, |samples|)
  {
    seq(|completed|, i requires 0 <= i < |completed| => samples[completed[i]])
  }

  /** The bytes of a link are the frames of its completed samples, then a frame cut short. */
  ghost predicate LinkOk(link: Link, samples: seq<Bytes>) {
    && Below(link.completed, |samples|)
    && AllFit(Payloads(samples, link.completed))
    && link.wire == FrameAll(Payloads(samples, link.completed)) + link.partial
    && Stuck(link.partial) && !OversizedHeader(link.partial)
  }

  function AllCompleted(links: seq<Link>): seq<nat> {
    if links == [] then [] else AllCompleted(links[..|links| - 1]) + links[|links| - 1].completed
  }

  ghost predicate Increasing(s: seq<nat>) {
    forall i, j :: 0 <= i < j < |s| ==> s[i] < s[j]
  }

  ghost predicate DeliveryInv(s: AgentState) {
    && (forall i :: 0 <= i < |s.links| ==> LinkOk(s.links[i], s.samples))
    && (s.connected ==> s.links != [] && s.links[|s.links| - 1].partial == [])
    && Increasing(AllCompleted(s.links))
    && Below(AllCompleted(s.links), |s.samples|)
  }

  lemma LinkGrows(link: Link, samples: seq<Bytes>, payload: Bytes)
    requires LinkOk(link, samples)
    ensures LinkOk(link, samples + [payload])
  {
    assert Payloads(samples + [payload], link.completed) == Payloads(samples, link.completed);
  }

  lemma ReconnectKeepsDelivery(s: AgentState, payload: Bytes, now: int, reachable: bool)
    requires DeliveryInv(s)
    ensures DeliveryInv(Reconnect(s.(samples := s.samples + [payload]), now, reachable))
  {
    var grown := s.(samples := s.samples + [payload]);
    var r := Reconnect(grown, now, reachable);
    forall i | 0 <= i < |r.links|
      ensures LinkOk(r.links[i], r.samples)
    {
      if i < |s.links| {
        LinkGrows(s.links[i], s.samples, payload);
      } else {
        assert Payloads(r.samples, []) == [];
      }
    }
    if |r.links| > |s.links| {
      assert r.links[..|r.links| - 1] == s.links;
      assert AllCompleted(r.links) == AllCompleted(s.links);
    }
  }

  lemma TransmitKeepsDelivery(s: AgentState, payload: Bytes, results: seq<SendResult>, failureTime: int)
    requires DeliveryInv(s) && Fits(payload)
    requires s.samples != [] && s.samples[|s.samples| - 1] == payload
    requires Below(AllCompleted(s.links), |s.samples| - 1)
    ensures DeliveryInv(Transmit(s, |s.samples| - 1, Frame(payload), results, failureTime))
  {
    hide Frame, FrameAll, Stuck, OversizedHeader;
    var sample := |s.samples| - 1;
    var r := Transmit(s, sample, Frame(payload), results, failureTime);
    if s.connected {
      var last := |s.links| - 1;
      var link, n := s.links[last], AcceptedBytes(|Frame(payload)|, results);
      assert r.links[..last] == s.links[..last];
      if n == |Frame(payload)| {
        var before := Payloads(s.samples, link.completed);
        assert Payloads(s.samples, link.completed + [sample]) == before + [payload];
        FrameAllAppend(before, [payload]);
        FrameAllOne(payload);
        assert r.links[last].wire == FrameAll(before + [payload]) + [];
        assert LinkOk(r.links[last], s.samples);
        assert AllCompleted(r.links) == AllCompleted(s.links) + [sample];
      } else {
        CutFrameIsStuck(payload, n);
        assert link.wire + Frame(payload)[..n] == FrameAll(Payloads(s.samples, link.completed)) + Frame(payload)[..n];
        assert LinkOk(r.links[last], s.samples);
      }
    }
  }

  lemma ReconnectCompletesNothing(s: AgentState, now: int, reachable: bool)
    ensures var r := Reconnect(s, now, reachable);
            r.samples == s.samples && AllCompleted(r.links) == AllCompleted(s.links)
  {
    var r := Reconnect(s, now, reachable);
    if |r.links| > |s.links| {
      assert r.links[..|r.links| - 1] == s.links;
      assert r.links[|r.links| - 1].completed == [];
    }
  }

  lemma TickKeepsDelivery(s: AgentState, t: TickInput)
    requires DeliveryInv(s)
    ensures DeliveryInv(Tick(s, t))
  {
    if !s.stopped && Fits(t.payload) {
      var grown := s.(samples := s.samples + [t.payload]);
      var s1 := Reconnect(grown, t.reconnectNow, t.reachable);
      ReconnectKeepsDelivery(s, t.payload, t.reconnectNow, t.reachable);
      ReconnectCompletesNothing(grown, t.reconnectNow, t.reachable);
      hide LinkOk, Frame, Fits, Transmit, Reconnect, AllCompleted;
      TransmitKeepsDelivery(s1, t.payload, t.sendResults, t.failureTime);
    }
  }

  lemma {:induction false} RunKeepsDelivery(now: int, ticks: seq<TickInput>)
    ensures DeliveryInv(Run(Start(now), ticks))
  {
    if ticks != [] {
      RunKeepsDelivery(now, ticks[..|ticks| - 1]);
      TickKeepsDelivery(Run(Start(now), ticks[..|ticks| - 1]), ticks[|ticks| - 1]);
    }
  }

  /** Whatever part of a connection's bytes the server sees, in whatever chunks, it delivers an
      initial segment of the samples whose `sendAll` returned true on that connection, and all
      of them once it has seen everything. The cut frame is neither delivered nor refused. */
  lemma EndToEnd(now: int, ticks: seq<TickInput>, i: nat, chunks: seq<Bytes>)
    requires i < |Run(Start(now), ticks).links|
    requires Connection.Concat(chunks) <= Run(Start(now), ticks).links[i].wire
    ensures var s := Run(Start(now), ticks);
            var link := s.links[i];
            var server := Connection.AbsorbAll(Parsed([], []), chunks);
            && Below(link.completed, |s.samples|)
            && server.messages <= Payloads(s.samples, link.completed)
            && !OversizedHeader(server.rest)
            && (Connection.Concat(chunks) == link.wire ==>
                  server == Parsed(Payloads(s.samples, link.completed), link.partial))
  {
    hide Parse, FrameAll, OversizedHeader, Stuck, Connection.AbsorbAll, Connection.Concat, Run;
    RunKeepsDelivery(now, ticks);
    var s := Run(Start(now), ticks);
    var link, seen := s.links[i], Connection.Concat(chunks);
    Connection.ChunkingConfluence(chunks);
    assert LinkOk(link, s.samples);
    ParseOfFrames(Payloads(s.samples, link.completed), link.partial);
    Connection.DeliveredIsMonotone(seen, link.wire);
    assert seen + link.wire[|seen|..] == link.wire;
    if OversizedHeader(Parse(seen).rest) {
      OversizedIsFinal(seen, link.wire[|seen|..]);
    }
  }

  /** And once the server has seen what was sent in such a run, it has delivered every sample. */
  lemma AllArrives(now: int, ticks: seq<TickInput>, chunks: seq<Bytes>)
    requires ticks != [] && ticks[0].reconnectNow >= now && forall t <- ticks :: GoesWell(t)
    requires |Run(Start(now), ticks).links| == 1
    requires Connection.Concat(chunks) == Run(Start(now), ticks).links[0].wire
    ensures var server := Connection.AbsorbAll(Parsed([], []), chunks);
            |server.messages| == |ticks| && forall i :: 0 <= i < |ticks| ==> server.messages[i] == ticks[i].payload
  {
    hide Run, GoesWell, Connection.AbsorbAll, Connection.Concat;
    AllGoesWell(now, ticks);
    EndToEnd(now, ticks, 0, chunks);
  }

  /** Over all connections together the completed samples appear in order and never twice. */
  lemma CompletedAtMostOnce(now: int, ticks: seq<TickInput>)
    ensures Increasing(AllCompleted(Run(Start(now), ticks).links))
    ensures Below(AllCompleted(Run(Start(now), ticks).links), |Run(Start(now), ticks).samples|)
  {
    RunKeepsDelivery(now, ticks);
  }

  lemma {:induction false} CompletedMonotone(links: seq<Link>, i: nat, j: nat)
    requires i <= j <= |links|
    ensures |AllCompleted(links[..i])| <= |AllCompleted(links[..j])|
  {
    if i < j {
      CompletedMonotone(links, i, j - 1);
      assert links[..j][..j - 1] == links[..j - 1];
    }
  }

  /** Where the k-th completed sample of link i stands among those of all links. */
  lemma {:induction false} CompletedAt(links: seq<Link>, i: nat, k: nat)
    requires i < |links| && k < |links[i].completed|
    ensures var p := |AllCompleted(links[..i])| + k;
            && p < |AllCompleted(links[..i + 1])| <= |AllCompleted(links)|
            && AllCompleted(links)[p] == links[i].completed[k]
  {
    var before := links[..|links| - 1];
    if i == |links| - 1 {
      assert links[..i + 1] == links;
    } else {
      CompletedAt(before, i, k);
      assert before[..i] == links[..i] && before[..i + 1] == links[..i + 1];
    }
  }

  lemma CompletedInOrder(links: seq<Link>, i: nat, k: nat, j: nat, l: nat)
    requires i < |links| && k < |links[i].completed| && j < |links| && l < |links[j].completed|
    requires Increasing(AllCompleted(links)) && (i < j || (i == j && k < l))
    ensures links[i].completed[k] < links[j].completed[l]
  {
    hide AllCompleted;
    CompletedAt(links, i, k);
    CompletedAt(links, j, l);
    if i < j {
      CompletedMonotone(links, i + 1, j);
    }
  }

  /** Each sample arrives at most once overall. Whatever the server sees of two connections of one
      run (or twice of one), in whatever chunks, a message delivered from an earlier connection, or
      earlier from the same one, is an earlier sample. */
  lemma AtMostOnce(
    now: int, ticks: seq<TickInput>, i: nat, chunksI: seq<Bytes>, k: nat, j: nat, chunksJ: seq<Bytes>, l: nat)
    requires i < |Run(Start(now), ticks).links| && j < |Run(Start(now), ticks).links|
    requires Connection.Concat(chunksI) <= Run(Start(now), ticks).links[i].wire
    requires Connection.Concat(chunksJ) <= Run(Start(now), ticks).links[j].wire
    requires k < |Connection.AbsorbAll(Parsed([], []), chunksI).messages|
    requires l < |Connection.AbsorbAll(Parsed([], []), chunksJ).messages|
    requires i < j || (i == j && k < l)
    ensures var s := Run(Start(now), ticks);
            var earlier, later := s.links[i].completed, s.links[j].completed;
            && k < |earlier| && l < |later| && earlier[k] < later[l] < |s.samples|
            && Connection.AbsorbAll(Parsed([], []), chunksI).messages[k] == s.samples[earlier[k]]
            && Connection.AbsorbAll(Parsed([], []), chunksJ).messages[l] == s.samples[later[l]]
  {
    hide Run, Increasing, AllCompleted, Connection.AbsorbAll, Connection.Concat;
    EndToEnd(now, ticks, i, chunksI);
    EndToEnd(now, ticks, j, chunksJ);
    CompletedAtMostOnce(now, ticks);
    CompletedInOrder(Run(Start(now), ticks).links, i, k, j, l);
  }

  // ---------------------------------------------------------------------------
  // Backoff
  // ---------------------------------------------------------------------------

  function Pow2(n: nat): (p: nat)
    ensures p >= 1
  {
    if n == 0 then 1 else 2 * Pow2(n - 1)
  }

  /** The delay, in seconds, after a failed attempt that k failed ones precede. */
  function Backoff(k: nat): (delay: nat) {
    Min(Pow2(k), MAX_RECONNECT_DELAY)
  }

  function TotalBackoff(n: nat): (delay: nat) {
    if n == 0 then 0 else TotalBackoff(n - 1) + Backoff(n - 1)
  }

  function TrailingFailures(attempts: seq<Attempt>): (n: nat)
    ensures n <= |attempts|
  {
    if attempts == [] || attempts[|attempts| - 1].connected then 0
    else 1 + TrailingFailures(attempts[..|attempts| - 1])
  }

  /** After every failed attempt the next one waits for the delay then in force. */
  ghost predicate Spaced(attempts: seq<Attempt>) {
    forall i :: 0 <= i < |attempts| - 1 ==> Waited(attempts, i)
  }

  predicate Waited(attempts: seq<Attempt>, i: nat)
    requires i < |attempts| - 1
  {
    !attempts[i].connected ==>
      attempts[i + 1].time - attempts[i].time >= Backoff(TrailingFailures(attempts[..i + 1]) - 1) * SECOND
  }

  ghost predicate BackoffInv(s: AgentState) {
    var failures := TrailingFailures(s.attempts);
    && s.reconnectDelay == Backoff(failures)
    && (s.connected ==> failures == 0)
    && (failures > 0 ==>
          s.nextReconnectTime == s.attempts[|s.attempts| - 1].time + Backoff(failures - 1) * SECOND)
    && Spaced(s.attempts)
  }

  lemma BackoffDoubles(k: nat)
    ensures Min(Backoff(k) * 2, MAX_RECONNECT_DELAY) == Backoff(k + 1)
  {
  }

  lemma {:induction false} Pow2Monotone(j: nat, k: nat)
    requires j <= k
    ensures Pow2(j) <= Pow2(k)
  {
    if j < k {
      Pow2Monotone(j, k - 1);
    }
  }

  lemma ReconnectKeepsBackoff(s: AgentState, now: int, reachable: bool)
    requires BackoffInv(s)
    ensures BackoffInv(Reconnect(s, now, reachable))
  {
    var r := Reconnect(s, now, reachable);
    if r != s {
      var failures := TrailingFailures(s.attempts);
      assert r.attempts[..|s.attempts|] == s.attempts;
      BackoffDoubles(failures);
      BackoffStart();
      assert Spaced(r.attempts) by {
        SpacedOneMore(s.attempts, r.attempts[|s.attempts|]);
        hide Spaced;
      }
      hide Backoff, Spaced;
    }
  }

  /** An attempt that waited for the delay keeps the attempts spaced. */
  lemma SpacedOneMore(attempts: seq<Attempt>, next: Attempt)
    requires Spaced(attempts)
    requires var failures := TrailingFailures(attempts);
             failures > 0 ==> next.time >= attempts[|attempts| - 1].time + Backoff(failures - 1) * SECOND
    ensures Spaced(attempts + [next])
  {
    hide Waited, Backoff, TrailingFailures;
    var all := attempts + [next];
    forall i | 0 <= i < |all| - 1
      ensures Waited(all, i)
    {
      if i < |attempts| - 1 {
        assert Waited(attempts, i);
        WaitedIsLocal(attempts, next, i);
      } else {
        LastWaited(attempts, next);
      }
    }
  }

  lemma WaitedIsLocal(attempts: seq<Attempt>, next: Attempt, i: nat)
    requires i < |attempts| - 1
    ensures Waited(attempts + [next], i) == Waited(attempts, i)
  {
    hide Backoff, TrailingFailures;
    assert (attempts + [next])[..i + 1] == attempts[..i + 1];
  }

  lemma LastWaited(attempts: seq<Attempt>, next: Attempt)
    requires attempts != []
    requires var failures := TrailingFailures(attempts);
             failures > 0 ==> next.time >= attempts[|attempts| - 1].time + Backoff(failures - 1) * SECOND
    ensures Waited(attempts + [next], |attempts| - 1)
  {
    hide Backoff, TrailingFailures;
    assert (attempts + [next])[..|attempts|] == attempts;
    if !attempts[|attempts| - 1].connected {
      OneFailureAtLeast(attempts);
    }
  }

  lemma OneFailureAtLeast(attempts: seq<Attempt>)
    requires attempts != [] && !attempts[|attempts| - 1].connected
    ensures TrailingFailures(attempts) > 0
  {
  }

  lemma TickKeepsBackoff(s: AgentState, t: TickInput)
    requires BackoffInv(s)
    ensures BackoffInv(Tick(s, t))
  {
    hide Frame, Backoff, Reconnect, AcceptedBytes;
    if !s.stopped && Fits(t.payload) {
      var grown := s.(samples := s.samples + [t.payload]);
      assert BackoffInv(grown);
      ReconnectKeepsBackoff(grown, t.reconnectNow, t.reachable);
      BackoffStart();
    }
  }

  lemma BackoffStart()
    ensures Backoff(0) == 1
  {
  }

  lemma {:induction false} RunKeepsBackoff(now: int, ticks: seq<TickInput>)
    ensures BackoffInv(Run(Start(now), ticks))
  {
    if ticks == [] {
      BackoffStart();
    } else {
      RunKeepsBackoff(now, ticks[..|ticks| - 1]);
      TickKeepsBackoff(Run(Start(now), ticks[..|ticks| - 1]), ticks[|ticks| - 1]);
    }
  }

  /** After k consecutive failed attempts the delay in force is min(2^k, 30) seconds. */
  lemma DelayAfterFailures(now: int, ticks: seq<TickInput>)
    ensures var s := Run(Start(now), ticks);
            s.reconnectDelay == Min(Pow2(TrailingFailures(s.attempts)), MAX_RECONNECT_DELAY)
  {
    RunKeepsBackoff(now, ticks);
  }

  ghost predicate AllFailed(attempts: seq<Attempt>, from: nat, to: nat)
    requires to <= |attempts|
  {
    forall i :: from <= i < to ==> !attempts[i].connected
  }

  lemma {:induction false} FailuresAtLeast(attempts: seq<Attempt>, from: nat)
    requires from <= |attempts| && AllFailed(attempts, from, |attempts|)
    ensures TrailingFailures(attempts) >= |attempts| - from
  {
    if from < |attempts| {
      FailuresAtLeast(attempts[..|attempts| - 1], from);
    }
  }

  /** n failed attempts in a row keep the next one away for at least the sum of their delays. */
  lemma {:induction false} AttemptsAreSpaced(s: AgentState, from: nat, n: nat)
    requires BackoffInv(s)
    requires from + n < |s.attempts| && AllFailed(s.attempts, from, from + n)
    ensures s.attempts[from + n].time - s.attempts[from].time >= TotalBackoff(n) * SECOND
  {
    if n > 0 {
      AttemptsAreSpaced(s, from, n - 1);
      var upTo := s.attempts[..from + n];
      FailuresAtLeast(upTo, from);
      Pow2Monotone(n - 1, TrailingFailures(upTo) - 1);
      var i := from + n - 1;
      assert s.attempts[..i + 1] == upTo;
      assert Waited(s.attempts, i);
    }
  }

  lemma {:induction false} TotalBackoffClosedForm(n: nat)
    requires n >= 5
    ensures TotalBackoff(n) == 31 + 30 * (n - 5)
  {
    if n == 5 {
      assert Backoff(0) == 1 && Backoff(1) == 2 && Backoff(2) == 4 && Backoff(3) == 8 && Backoff(4) == 16;
      assert TotalBackoff(2) == 3 && TotalBackoff(4) == 15;
    } else {
      TotalBackoffClosedForm(n - 1);
      Pow2Monotone(5, n - 1);
      assert Pow2(5) == 32 by { assert Pow2(3) == 8; }
    }
  }

  /** In a failure run, any window of at least 31 seconds sees at most 6 + (seconds - 31) / 30
      attempts. */
  lemma AttemptsInWindow(now: int, ticks: seq<TickInput>, from: nat, count: nat, seconds: nat)
    requires var attempts := Run(Start(now), ticks).attempts;
             && 1 <= count && from + count <= |attempts|
             && AllFailed(attempts, from, from + count - 1)
             && attempts[from + count - 1].time - attempts[from].time <= seconds * SECOND
    requires seconds >= 31
    ensures count <= 6 + (seconds - 31) / 30
  {
    hide Run, BackoffInv, TotalBackoff;
    RunKeepsBackoff(now, ticks);
    var s := Run(Start(now), ticks);
    AttemptsAreSpaced(s, from, count - 1);
    if count >= 6 {
      TotalBackoffClosedForm(count - 1);
      WindowHolds(count, seconds);
    }
  }

  lemma WindowHolds(count: nat, seconds: nat)
    requires count >= 6 && 31 + 30 * (count - 6) <= seconds
    ensures count <= 6 + (seconds - 31) / 30
  {
    assert count - 6 == 30 * (count - 6) / 30;
  }
}
