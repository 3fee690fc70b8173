/** One client connection of `Argyle.prototype.handleConnection` as a value: the
    closure state of index.js:40-173 and the effect of each event on it. These
    functions specify the methods of `Connection.Session`. */
module Machine {
  import opened Bytes
  import opened Socks

  /** `STATES` (index.js:36-39). */
  datatype Phase = Handshake | Request | Forwarding
  {
    function Index(): nat
    {
      match this
      case Handshake => 0
      case Request => 1
      case Forwarding => 2
    }
  }

  datatype Destination = Destination(host: Host, port: nat)

  /** What the session does to the outside world, in order. */
  datatype Action =
    | Write(data: seq<byte>)           // client.write(data)
    | End(data: seq<byte>)             // client.end(data); [] for a bare client.end()
    | Handoff(dest: Destination)       // self.emit('connected', client, dest)

  /** The client socket as the session sees it. */
  datatype Client = Client(
    listening: bool,                   // onClientData still attached to 'data'
    paused: bool,                      // client.pause() in effect
    ended: bool,                       // client.end() has been called
    log: seq<Action>)                  // what reached the wire and the 'connected' listeners

  /** The outbound connection started by the request handler and the state its
      callbacks share (index.js:105, 140-166). */
  datatype Dial = Dial(
    dest: Destination,                 // the port and host given to net.createConnection
    responseBuf: seq<byte>,            // the reply template
    connected: bool,                   // connected
    errorSeen: bool,                   // the once('error') listener has run
    closeSeen: bool,                   // the once('close') listener has run
    threw: bool)                       // the connect callback stopped with a ReferenceError

  datatype Conn = Conn(
    phase: Phase,                      // curState
    buffer: Option<seq<byte>>,         // buffer (null is None)
    proxyBuffers: seq<seq<byte>>,      // chunks received while forwarding
    dial: Option<Dial>,                // None until the request is decoded
    client: Client)

  const Init := Conn(Handshake, None, [], None, Client(true, false, false, []))

  /** A write after `end()` puts nothing on the wire: Node reports it on the client's
      'error' event, whose listener (index.js:50) ignores it. */
  function ClientWrite(c: Client, data: seq<byte>): (r: Client)
    ensures Grows(c, r) && r.ended == c.ended
    ensures r.listening == c.listening && r.paused == c.paused
    ensures c.ended <==> r == c
    ensures !c.ended ==> r.log == c.log + [Write(data)]
  {
    if c.ended then c else c.(log := c.log + [Write(data)])
  }

  /** `client.end(data)`: the data and the FIN go out once; a second end adds nothing. */
  function ClientEnd(c: Client, data: seq<byte>): (r: Client)
    ensures Grows(c, r) && r.ended
    ensures r.listening == c.listening && r.paused == c.paused
    ensures c.ended <==> r == c
    ensures !c.ended ==> r.log == c.log + [End(data)]
  {
    if c.ended then c else c.(log := c.log + [End(data)], ended := true)
  }

  /** The log only grows, and nothing reaches the wire after end. */
  predicate Grows(c: Client, d: Client)
  {
    c.log <= d.log && (c.ended ==> d.ended && d.log == c.log)
  }

  /** Facts every 'data' event keeps: the phase never goes back and the client only grows. */
  predicate Advances(s: Conn, r: Conn)
  {
    s.phase.Index() <= r.phase.Index() && Grows(s.client, r.client)
  }

  lemma AdvancesTrans(s: Conn, t: Conn, r: Conn)
    requires Advances(s, t) && Advances(t, r)
    ensures Advances(s, r)
  {
    assert s.client.log == t.client.log[..|s.client.log|] == r.client.log[..|t.client.log|][..|s.client.log|];
  }

  /** Before forwarding no chunk sits in `proxyBuffers`, and no dial exists. */
  predicate Wf(s: Conn)
  {
    s.phase != Forwarding ==> s.proxyBuffers == [] && s.dial.None?
  }

  /** `handlers[STATES.request]` (index.js:86-168). */
  function RequestData(s: Conn, chunk: seq<byte>): (r: Conn)
    ensures Advances(s, r)
    ensures s.phase == Request ==> r.phase != Handshake
    ensures Wf(s) ==> Wf(r)
  {
    var b := ExpandAndCopy(s.buffer, chunk);
    var s1 := s.(buffer := Some(b));
    match ParseRequest(b)
    case ReqIncomplete => s1
    case ReqBadVersion => s1.(client := ClientEnd(s.client, []))
    case ReqBadCommand => s1.(client := ClientEnd(s.client, [Version, RepGeneralFailure]))
    case ReqBadAddressType => s1.(client := ClientEnd(s.client, [Version, RepGeneralFailure]))
    case ReqConnect(_, _, _, _) => Dialing(s, ParseRequest(b))
  }

  /** The state right after the method-selection reply (index.js:69-70, with the buffer cleared). */
  function Selected(s: Conn): (r: Conn)
    requires s.phase == Handshake
    ensures Advances(s, r) && r.phase == Request
  {
    s.(buffer := None, phase := Request, client := ClientWrite(s.client, [Version, MethodNoAuth]))
  }

  /** `handlers[STATES.handshake]` (index.js:54-83), with the leftover of the greeting
      kept by the request handler; see `HandshakeDataAsWritten` for line 76 as written. */
  function HandshakeData(s: Conn, chunk: seq<byte>): (r: Conn)
    requires s.phase == Handshake
    ensures Advances(s, r)
    ensures Wf(s) ==> Wf(r)
  {
    var b := ExpandAndCopy(s.buffer, chunk);
    var s1 := s.(buffer := Some(b));
    match ParseHandshake(b)
    case HsIncomplete => s1
    case HsBadVersion => s1.(client := ClientEnd(s.client, []))
    case HsNoAcceptable => s1.(client := ClientEnd(s.client, [Version, MethodNoAcceptable]))
    case HsAccepted(rest) =>
      var t := Selected(s);
      if |rest| > 0 then AdvancesTrans(s, t, RequestData(t, rest)); RequestData(t, rest) else t
  }

  /** The handshake handler exactly as written: line 76 clears `buffer` after the
      request handler has already stored the leftover of the greeting in it. */
  function HandshakeDataAsWritten(s: Conn, chunk: seq<byte>): (r: Conn)
    requires s.phase == Handshake
    ensures Advances(s, r)
    ensures r.phase != Handshake ==> r.buffer == None
  {
    var b := ExpandAndCopy(s.buffer, chunk);
    var s1 := s.(buffer := Some(b));
    match ParseHandshake(b)
    case HsIncomplete => s1
    case HsBadVersion => s1.(client := ClientEnd(s.client, []))
    case HsNoAcceptable => s1.(client := ClientEnd(s.client, [Version, MethodNoAcceptable]))
    case HsAccepted(rest) =>
      var t := Selected(s);
      if |rest| > 0 then AdvancesTrans(s, t, RequestData(t, rest)); RequestData(t, rest).(buffer := None)
      else t.(buffer := None)
  }

  /** `handlers[STATES.forwarding]` (index.js:170-172). */
  function ForwardingData(s: Conn, chunk: seq<byte>): (r: Conn)
    ensures r.proxyBuffers == s.proxyBuffers + [chunk]
    ensures r.(proxyBuffers := s.proxyBuffers) == s
  {
    s.(proxyBuffers := s.proxyBuffers + [chunk])
  }

  /** `onClientData` (index.js:45-47): dispatch on the current phase while attached. */
  function OnData(s: Conn, chunk: seq<byte>): (r: Conn)
    ensures Advances(s, r)
    ensures Wf(s) ==> Wf(r)
    ensures !s.client.listening ==> r == s
  {
    if !s.client.listening then s
    else
      match s.phase
      case Handshake => HandshakeData(s, chunk)
      case Request => RequestData(s, chunk)
      case Forwarding => ForwardingData(s, chunk)
  }

  function OnDataAsWritten(s: Conn, chunk: seq<byte>): (r: Conn)
    ensures Advances(s, r)
  {
    if !s.client.listening then s
    else
      match s.phase
      case Handshake => HandshakeDataAsWritten(s, chunk)
      case Request => RequestData(s, chunk)
      case Forwarding => ForwardingData(s, chunk)
  }

  /** The dial's connect callback (index.js:141-157), which the dial runs at most once.
      The replay block is modelled as written: `client.emit(buffer)` emits an event
      named by the buffer's text, which normally nobody listens to, so the leftover is
      dropped; and `proxyBuffers[i]` reads an undeclared `i`, which throws as soon as a
      chunk is queued, before `proxyBuffers = []`; so the queue never changes. */
  function OnConnect(s: Conn): (r: Conn)
    ensures s.dial.Some? && !s.dial.value.connected ==>
      var d := s.dial.value;
      r.phase == s.phase &&
      r.dial == Some(d.(responseBuf := SuccessReply(d.responseBuf), connected := true,
                        threw := d.threw || s.proxyBuffers != [])) &&
      !r.client.listening && !r.client.paused && r.client.ended == s.client.ended &&
      r.client.log == (if s.client.ended then s.client.log else s.client.log + [Write(SuccessReply(d.responseBuf))])
                      + [Handoff(d.dest)] &&
      Contents(r.buffer) == [] &&
      r.proxyBuffers == s.proxyBuffers
    ensures s.dial.None? || s.dial.value.connected ==> r == s
  {
    match s.dial
    case None => s
    case Some(d) =>
      if d.connected then s
      else
        var reply := SuccessReply(d.responseBuf);
        var c := ClientWrite(s.client, reply).(listening := false, paused := false);
        var c := c.(log := c.log + [Handoff(d.dest)]);
        var buffer := if Contents(s.buffer) != [] then None else s.buffer;
        var threw := |s.proxyBuffers| > 0;
        s.(dial := Some(d.(responseBuf := reply, connected := true, threw := d.threw || threw)),
           client := c, buffer := buffer)
  }

  /** The dial's once('error') listener (index.js:158-161). */
  function OnDialError(s: Conn): (r: Conn)
    ensures s.dial.Some? && !s.dial.value.errorSeen && !s.dial.value.connected ==>
      r == s.(dial := Some(s.dial.value.(errorSeen := true)),
              client := ClientEnd(s.client, [Version, RepGeneralFailure]))
    ensures s.dial.Some? && s.dial.value.connected ==> r.client == s.client
    ensures s.dial.None? || s.dial.value.errorSeen ==> r == s
    ensures r.phase == s.phase && r.buffer == s.buffer && r.proxyBuffers == s.proxyBuffers
  {
    match s.dial
    case None => s
    case Some(d) =>
      if d.errorSeen then s
      else
        var t := s.(dial := Some(d.(errorSeen := true)));
        if !d.connected then t.(client := ClientEnd(s.client, [Version, RepGeneralFailure])) else t
  }

  /** The dial's once('close') listener (index.js:162-166). */
  function OnDialClose(s: Conn): (r: Conn)
    ensures s.dial.Some? && !s.dial.value.closeSeen && !s.dial.value.connected ==>
      r == s.(dial := Some(s.dial.value.(closeSeen := true)), client := ClientEnd(s.client, []))
    ensures s.dial.Some? && s.dial.value.connected ==> r.client == s.client
    ensures s.dial.None? || s.dial.value.closeSeen ==> r == s
    ensures r.phase == s.phase && r.buffer == s.buffer && r.proxyBuffers == s.proxyBuffers
  {
    match s.dial
    case None => s
    case Some(d) =>
      if d.closeSeen then s
      else
        var t := s.(dial := Some(d.(closeSeen := true)));
        if !d.connected then t.(client := ClientEnd(s.client, [])) else t
  }

  /** A sequence of 'data' events. */
  function FeedAll(s: Conn, chunks: seq<seq<byte>>): (r: Conn)
    ensures Advances(s, r)
    ensures Wf(s) ==> Wf(r)
    decreases |chunks|
  {
    if chunks == [] then s else FeedAll(OnData(s, chunks[0]), chunks[1..])
  }

  function FeedAllAsWritten(s: Conn, chunks: seq<seq<byte>>): (r: Conn)
    ensures Advances(s, r)
    decreases |chunks|
  {
    if chunks == [] then s else FeedAllAsWritten(OnDataAsWritten(s, chunks[0]), chunks[1..])
  }

  /** The client bytes the session holds but has not interpreted, in arrival order. */
  function Pending(s: Conn): seq<byte>
  {
    Contents(s.buffer) + Flatten(s.proxyBuffers)
  }

  /** A state with its held bytes gathered into one chunk: two states that agree
      here have said and done the same and hold the same bytes. */
  function Settled(s: Conn): Conn
  {
    s.(buffer := None, proxyBuffers := [Pending(s)])
  }

  // ---------------------------------------------------------------------------
  // How TCP splits the stream does not matter

  lemma ForwardingTwoChunks(s: Conn, c1: seq<byte>, c2: seq<byte>)
    ensures Settled(ForwardingData(ForwardingData(s, c1), c2)) == Settled(ForwardingData(s, c1 + c2))
  {
    FlattenAppend(s.proxyBuffers, [c1]);
    FlattenAppend(s.proxyBuffers + [c1], [c2]);
    FlattenAppend(s.proxyBuffers, [c1 + c2]);
    FlattenSingle(c1); FlattenSingle(c2); FlattenSingle(c1 + c2);
    assert Flatten(s.proxyBuffers + [c1] + [c2]) == Flatten(s.proxyBuffers + [c1 + c2]);
  }

  /** The state a decoded CONNECT leaves behind. */
  function Dialing(s: Conn, r: RequestResult): Conn
    requires r.ReqConnect?
  {
    s.(buffer := Some(r.rest), phase := Forwarding,
       dial := Some(Dial(Destination(HostOf(r.addr), r.port), r.template, false, false, false, false)),
       client := s.client.(paused := true))
  }

  lemma ConnectData(s: Conn, chunk: seq<byte>)
    requires s.phase == Request && s.client.listening
    requires ParseRequest(ExpandAndCopy(s.buffer, chunk)).ReqConnect?
    ensures OnData(s, chunk) == Dialing(s, ParseRequest(ExpandAndCopy(s.buffer, chunk)))
  {
  }

  /** A decoded request extended by later bytes dials the same target and keeps them. */
  lemma DialingExtends(s: Conn, c1: seq<byte>, c2: seq<byte>)
    requires ParseRequest(ExpandAndCopy(s.buffer, c1)).ReqConnect?
    ensures var r := ParseRequest(ExpandAndCopy(s.buffer, c1));
      ParseRequest(ExpandAndCopy(s.buffer, c1 + c2)).ReqConnect? &&
      Dialing(s, ParseRequest(ExpandAndCopy(s.buffer, c1 + c2))) == Dialing(s, r).(buffer := Some(r.rest + c2))
  {
    ExpandTwice(s.buffer, c1, c2);
    RequestStable(ExpandAndCopy(s.buffer, c1), c2);
  }

  lemma QueueData(s: Conn, chunk: seq<byte>)
    requires s.phase == Forwarding && s.client.listening
    ensures OnData(s, chunk) == s.(proxyBuffers := s.proxyBuffers + [chunk])
  {
  }

  /** A request decoded from the first chunk: the second one is queued. */
  lemma ConnectThenChunk(s: Conn, c1: seq<byte>, c2: seq<byte>)
    requires s.phase == Request && s.client.listening && s.proxyBuffers == []
    requires ParseRequest(ExpandAndCopy(s.buffer, c1)).ReqConnect?
    ensures Settled(OnData(OnData(s, c1), c2)) == Settled(OnData(s, c1 + c2))
  {
    var r := ParseRequest(ExpandAndCopy(s.buffer, c1));
    DialingExtends(s, c1, c2);
    ConnectData(s, c1);
    ConnectData(s, c1 + c2);
    var s1 := Dialing(s, r);
    QueueData(s1, c2);
    FlattenSingle(c2);
    var x := s1.(proxyBuffers := [c2]);
    var y := s1.(buffer := Some(r.rest + c2));
    assert s1.proxyBuffers + [c2] == [c2];
    assert OnData(OnData(s, c1), c2) == x;
    assert OnData(s, c1 + c2) == y;
    assert Pending(x) == r.rest + c2;
    assert s1.proxyBuffers == [] && Flatten([]) == [];
    assert Pending(y) == r.rest + c2;
    assert Settled(x) == Settled(y);
  }

  /** A request still incomplete after the first chunk: the second one simply extends it. */
  lemma WaitThenChunk(s: Conn, c1: seq<byte>, c2: seq<byte>)
    requires s.phase == Request && s.client.listening
    requires ParseRequest(ExpandAndCopy(s.buffer, c1)) == ReqIncomplete
    ensures OnData(OnData(s, c1), c2) == OnData(s, c1 + c2)
  {
    ExpandTwice(s.buffer, c1, c2);
    var s1 := s.(buffer := Some(ExpandAndCopy(s.buffer, c1)));
    assert OnData(s, c1) == s1;
    assert OnData(s1, c2) == RequestData(s1, c2);
  }

  /** A request refused on the first chunk: the second one changes only the buffer. */
  lemma RefuseThenChunk(s: Conn, c1: seq<byte>, c2: seq<byte>)
    requires s.phase == Request && s.client.listening
    requires ParseRequest(ExpandAndCopy(s.buffer, c1)) in {ReqBadVersion, ReqBadCommand, ReqBadAddressType}
    ensures OnData(OnData(s, c1), c2) == OnData(s, c1 + c2)
  {
    ExpandTwice(s.buffer, c1, c2);
    var b1 := ExpandAndCopy(s.buffer, c1);
    RequestStable(b1, c2);
    var s1 := OnData(s, c1);
    assert s1 == RequestData(s, c1);
    assert s1.phase == Request && s1.client.listening && s1.client.ended && s1.buffer == Some(b1);
    assert OnData(s1, c2) == RequestData(s1, c2);
  }

  lemma RequestTwoChunks(s: Conn, c1: seq<byte>, c2: seq<byte>)
    requires s.phase == Request && s.client.listening && s.proxyBuffers == []
    ensures Settled(OnData(OnData(s, c1), c2)) == Settled(OnData(s, c1 + c2))
  {
    var r := ParseRequest(ExpandAndCopy(s.buffer, c1));
    if r.ReqConnect? {
      ConnectThenChunk(s, c1, c2);
    } else if r == ReqIncomplete {
      WaitThenChunk(s, c1, c2);
    } else {
      RefuseThenChunk(s, c1, c2);
    }
  }

  lemma HandshakeTwoChunks(s: Conn, c1: seq<byte>, c2: seq<byte>)
    requires s.phase == Handshake && s.client.listening && s.proxyBuffers == []
    ensures Settled(OnData(OnData(s, c1), c2)) == Settled(OnData(s, c1 + c2))
  {
    ExpandTwice(s.buffer, c1, c2);
    var b1 := ExpandAndCopy(s.buffer, c1);
    if ParseHandshake(b1) != HsIncomplete {
      HandshakeStable(b1, c2);
    }
    match ParseHandshake(b1)
    case HsAccepted(rest) =>
      var t := Selected(s);
      assert t.phase == Request && t.client.listening && t.proxyBuffers == [] && t.buffer == None;
      if |rest| > 0 {
        RequestTwoChunks(t, rest, c2);
      } else {
        assert rest + c2 == c2;
        if c2 == [] {
          assert ParseRequest([]) == ReqIncomplete;
        }
      }
    case _ =>
  }

  /** Feeding two chunks one after the other ends in the same place as feeding
      their concatenation. */
  lemma TwoChunks(s: Conn, c1: seq<byte>, c2: seq<byte>)
    requires Wf(s)
    ensures Settled(OnData(OnData(s, c1), c2)) == Settled(OnData(s, c1 + c2))
  {
    if s.client.listening {
      match s.phase
      case Handshake => HandshakeTwoChunks(s, c1, c2);
      case Request => RequestTwoChunks(s, c1, c2);
      case Forwarding => ForwardingTwoChunks(s, c1, c2);
    }
  }

  /** The negotiation depends only on the bytes received, not on how they were
      split into 'data' events. */
  lemma {:induction false} ChunkingInvariant(s: Conn, chunks: seq<seq<byte>>)
    requires Wf(s) && chunks != []
    ensures Settled(FeedAll(s, chunks)) == Settled(OnData(s, Flatten(chunks)))
    decreases |chunks|
  {
    var s1 := OnData(s, chunks[0]);
    if |chunks| == 1 {
      assert chunks == [chunks[0]];
      FlattenSingle(chunks[0]);
      assert FeedAll(s1, chunks[1..]) == s1;
    } else {
      ChunkingInvariant(s1, chunks[1..]);
      TwoChunks(s, chunks[0], Flatten(chunks[1..]));
    }
  }

  /** `ChunkingInvariant` covers the session up to the dial's outcome. Which of `buffer`
      and `proxyBuffers` holds the bytes sent behind a request depends on the split, and
      the connect callback as written treats the two differently: bytes left in `buffer`
      are dropped, while a queued chunk makes the replay throw. */
  lemma ReplayDependsOnSplit(s: Conn, c1: seq<byte>, c2: seq<byte>)
    requires s.phase == Request && s.client.listening && s.proxyBuffers == []
    requires ParseRequest(ExpandAndCopy(s.buffer, c1)).ReqConnect? && c2 != []
    ensures Settled(OnData(OnData(s, c1), c2)) == Settled(OnData(s, c1 + c2))
    ensures var split := OnConnect(OnData(OnData(s, c1), c2));
      split.dial.Some? && split.dial.value.threw && split.proxyBuffers == [c2]
    ensures var joined := OnConnect(OnData(s, c1 + c2));
      joined.dial.Some? && !joined.dial.value.threw && joined.proxyBuffers == [] && Contents(joined.buffer) == []
  {
    ConnectThenChunk(s, c1, c2);
    var r := ParseRequest(ExpandAndCopy(s.buffer, c1));
    DialingExtends(s, c1, c2);
    ConnectData(s, c1);
    ConnectData(s, c1 + c2);
    QueueData(Dialing(s, r), c2);
  }
}
