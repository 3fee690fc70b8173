/** What a fresh session does with a whole client byte stream, however TCP splits
    it into 'data' events, and the dial outcomes that follow. */
module Outcomes {
  import opened Bytes
  import opened Format
  import opened Socks
  import opened Machine

  /** A session fed `chunks` agrees with one fed their concatenation at once, and
      holds no queued chunk before forwarding. */
  lemma FromInit(chunks: seq<seq<byte>>)
    requires chunks != []
    ensures var s := FeedAll(Init, chunks); var w := OnData(Init, Flatten(chunks));
      s.phase == w.phase && s.client == w.client && s.dial == w.dial && Pending(s) == Pending(w) &&
      (s.phase != Forwarding ==> s.proxyBuffers == [] && Contents(s.buffer) == Pending(w))
  {
    ChunkingInvariant(Init, chunks);
    SettledAgree(FeedAll(Init, chunks), OnData(Init, Flatten(chunks)));
  }

  /** What two states with the same settled form share. */
  lemma SettledAgree(x: Conn, y: Conn)
    requires Wf(x) && Settled(x) == Settled(y)
    ensures x.phase == y.phase && x.client == y.client && x.dial == y.dial && Pending(x) == Pending(y)
    ensures x.phase != Forwarding ==> x.proxyBuffers == [] && Contents(x.buffer) == Pending(y)
  {
    assert Settled(x).proxyBuffers == [Pending(x)];
    if x.phase != Forwarding {
      assert Flatten(x.proxyBuffers) == [];
    }
  }

  /** Method selection, decided on the whole stream received so far. */
  lemma HandshakeOutcome(chunks: seq<seq<byte>>)
    requires chunks != []
    ensures var s := FeedAll(Init, chunks); var h := ParseHandshake(Flatten(chunks));
      (h == HsIncomplete ==>
         s.phase == Handshake && s.client.log == [] && Contents(s.buffer) == Flatten(chunks)) &&
      (h == HsBadVersion ==>
         s.phase == Handshake && s.client.ended && s.client.log == [End([])]) &&
      (h == HsNoAcceptable ==>
         s.phase == Handshake && s.client.ended && s.client.log == [End([Version, MethodNoAcceptable])]) &&
      (h.HsAccepted? ==>
         s.phase != Handshake && |s.client.log| >= 1 && s.client.log[0] == Write([Version, MethodNoAuth]))
  {
    FromInit(chunks);
    var b := Flatten(chunks);
    match ParseHandshake(b)
    case HsAccepted(rest) =>
      var t := Selected(Init);
      assert t.client.log == [Write([Version, MethodNoAuth])];
      if |rest| > 0 {
        assert OnData(Init, b) == RequestData(t, rest);
      }
    case _ =>
  }

  /** The whole stream at once: the request handler gets what follows the greeting. */
  lemma GreetingThen(methods: seq<byte>, req: seq<byte>)
    requires |methods| < 256 && MethodNoAuth in methods
    ensures OnData(Init, Greeting(methods) + req) ==
      if |req| > 0 then RequestData(Selected(Init), req) else Selected(Init)
  {
    var b := Greeting(methods) + req;
    GreetingDecision(methods, req);
    assert ExpandAndCopy(Init.buffer, b) == b;
    AcceptedData(Init, b, req);
  }

  /** A chunk that completes an acceptable greeting selects the method and feeds the
      request handler whatever followed the greeting. */
  lemma AcceptedData(s: Conn, chunk: seq<byte>, rest: seq<byte>)
    requires s.phase == Handshake && s.client.listening
    requires ParseHandshake(ExpandAndCopy(s.buffer, chunk)) == HsAccepted(rest)
    ensures OnData(s, chunk) == if |rest| > 0 then RequestData(Selected(s), rest) else Selected(s)
  {
  }

  /** After a greeting that offers method 0, the request is decided on the bytes
      that follow the greeting. */
  lemma RequestOutcome(methods: seq<byte>, req: seq<byte>, chunks: seq<seq<byte>>)
    requires |methods| < 256 && MethodNoAuth in methods
    requires chunks != [] && Flatten(chunks) == Greeting(methods) + req
    ensures var s := FeedAll(Init, chunks); var r := ParseRequest(req);
      var selected := [Write([Version, MethodNoAuth])];
      (r == ReqIncomplete ==>
         s.phase == Request && s.client.log == selected && Contents(s.buffer) == req) &&
      (r == ReqBadVersion ==>
         s.phase == Request && s.client.log == selected + [End([])]) &&
      (r == ReqBadCommand || r == ReqBadAddressType ==>
         s.phase == Request && s.client.log == selected + [End([Version, RepGeneralFailure])]) &&
      (r.ReqConnect? ==>
         s.phase == Forwarding && s.client.log == selected && s.client.paused && !s.client.ended &&
         s.dial == Some(Dial(Destination(HostOf(r.addr), r.port), r.template, false, false, false, false)) &&
         Pending(s) == r.rest)
  {
    FromInit(chunks);
    GreetingThen(methods, req);
    var t := Selected(Init);
    assert t.phase == Request && t.buffer == None && t.client == Client(true, false, false, [Write([Version, MethodNoAuth])]);
    if req == [] {
      assert ParseRequest(req) == ReqIncomplete;
    } else {
      RequestFromSelected(req);
    }
  }

  lemma RequestFromSelected(req: seq<byte>)
    ensures var w := RequestData(Selected(Init), req); var r := ParseRequest(req);
      var selected := [Write([Version, MethodNoAuth])];
      (r == ReqIncomplete ==>
         w.phase == Request && w.client.log == selected && Pending(w) == req) &&
      (r == ReqBadVersion ==>
         w.phase == Request && w.client.log == selected + [End([])]) &&
      (r == ReqBadCommand || r == ReqBadAddressType ==>
         w.phase == Request && w.client.log == selected + [End([Version, RepGeneralFailure])]) &&
      (r.ReqConnect? ==>
         w.phase == Forwarding && w.client.log == selected && w.client.paused && !w.client.ended &&
         w.dial == Some(Dial(Destination(HostOf(r.addr), r.port), r.template, false, false, false, false)) &&
         Pending(w) == r.rest)
  {
    var t := Selected(Init);
    assert t.buffer == None && t.proxyBuffers == [] && t.client == Client(true, false, false, [Write([Version, MethodNoAuth])]);
    assert ExpandAndCopy(t.buffer, req) == req;
  }

  /** A complete CONNECT request after the greeting, split into any chunks: the session
      has replied 05 00 only, dials the requested host and port with the request as the
      reply template, and holds exactly the bytes that followed the request. */
  lemma ConnectNegotiated(methods: seq<byte>, rsv: byte, addr: Address, port: nat, extra: seq<byte>,
                          chunks: seq<seq<byte>>)
    requires |methods| < 256 && MethodNoAuth in methods
    requires ValidAddress(addr) && port < 0x1_0000
    requires chunks != [] && Flatten(chunks) == Greeting(methods) + Message(CmdConnect, rsv, addr, port) + extra
    ensures var s := FeedAll(Init, chunks);
      s.phase == Forwarding && s.client.log == [Write([Version, MethodNoAuth])] && !s.client.ended &&
      Pending(s) == extra &&
      s.dial == Some(Dial(Destination(HostOf(addr), port), Message(CmdConnect, rsv, addr, port),
                          false, false, false, false))
  {
    var m := Message(CmdConnect, rsv, addr, port);
    assert Greeting(methods) + m + extra == Greeting(methods) + (m + extra);
    RequestRoundTrip(rsv, addr, port, extra);
    RequestOutcome(methods, m + extra, chunks);
  }

  /** The three ways the dial can resolve for a session that has not ended the client. */
  lemma DialOutcomes(s: Conn)
    requires s.dial.Some? && !s.dial.value.connected && !s.dial.value.errorSeen && !s.dial.value.closeSeen
    requires !s.client.ended
    ensures var d := s.dial.value; var c := OnConnect(s);
      c.client.log == s.client.log + [Write(SuccessReply(d.responseBuf)), Handoff(d.dest)] &&
      OnDialError(c).client == c.client && OnDialClose(c).client == c.client &&
      OnDialClose(OnDialError(c)).client == c.client
    ensures OnDialError(s).client.log == s.client.log + [End([Version, RepGeneralFailure])]
    ensures OnDialClose(s).client.log == s.client.log + [End([])]
    ensures OnDialClose(OnDialError(s)).client == OnDialError(s).client
  {
  }

  /** A complete CONNECT exchange: on a successful dial the session writes the reply
      echoing the request's address with REP = 0 and hands the sockets over, and a later
      error or close writes nothing; on a dial error it ends the client with 05 01, on an
      early close with no reply. */
  lemma ConnectExchange(methods: seq<byte>, rsv: byte, addr: Address, port: nat, extra: seq<byte>,
                        chunks: seq<seq<byte>>)
    requires |methods| < 256 && MethodNoAuth in methods
    requires ValidAddress(addr) && port < 0x1_0000
    requires chunks != [] && Flatten(chunks) == Greeting(methods) + Message(CmdConnect, rsv, addr, port) + extra
    ensures var c := OnConnect(FeedAll(Init, chunks));
      c.client.log == [Write([Version, MethodNoAuth]), Write(Message(RepSucceeded, 0, addr, port)),
                       Handoff(Destination(HostOf(addr), port))] &&
      OnDialError(c).client == c.client && OnDialClose(c).client == c.client
    ensures var s := FeedAll(Init, chunks);
      OnDialError(s).client.log == [Write([Version, MethodNoAuth]), End([Version, RepGeneralFailure])] &&
      OnDialClose(s).client.log == [Write([Version, MethodNoAuth]), End([])]
  {
    ConnectNegotiated(methods, rsv, addr, port, extra, chunks);
    ReplyToRequest(rsv, addr, port);
    NegotiatedExchange(FeedAll(Init, chunks), Destination(HostOf(addr), port),
                       Message(CmdConnect, rsv, addr, port), Message(RepSucceeded, 0, addr, port));
  }

  /** The dial outcomes of a session that has written only 05 00 and dials `dest`
      with a template whose success reply is `reply`. */
  lemma NegotiatedExchange(s: Conn, dest: Destination, template: seq<byte>, reply: seq<byte>)
    requires s.client.log == [Write([Version, MethodNoAuth])] && !s.client.ended
    requires s.dial == Some(Dial(dest, template, false, false, false, false))
    requires SuccessReply(template) == reply
    ensures var c := OnConnect(s);
      c.client.log == [Write([Version, MethodNoAuth]), Write(reply), Handoff(dest)] &&
      OnDialError(c).client == c.client && OnDialClose(c).client == c.client
    ensures OnDialError(s).client.log == [Write([Version, MethodNoAuth]), End([Version, RepGeneralFailure])]
    ensures OnDialClose(s).client.log == [Write([Version, MethodNoAuth]), End([])]
  {
    DialOutcomes(s);
  }

  // ---------------------------------------------------------------------------
  // Worked exchanges

  /** A client sends `05 01 00` then a CONNECT to 127.0.0.1:80, split in any way; the
      dial succeeds. */
  lemma ConnectToLoopback(chunks: seq<seq<byte>>)
    requires Flatten(chunks) == [5, 1, 0] + [5, 1, 0, 1, 127, 0, 0, 1, 0, 80]
    ensures var c := OnConnect(FeedAll(Init, chunks));
      c.client.log == [Write([5, 0]), Write([5, 0, 0, 1, 127, 0, 0, 1, 0, 80]),
                       Handoff(Destination(HostText("127.0.0.1"), 80))]
  {
    var addr := IPv4(127, 0, 0, 1);
    assert EncodePort(80) == [0, 80];
    assert Message(CmdConnect, 0, addr, 80) == [5, 1, 0, 1, 127, 0, 0, 1, 0, 80];
    assert Message(RepSucceeded, 0, addr, 80) == [5, 0, 0, 1, 127, 0, 0, 1, 0, 80];
    assert Greeting([0]) == [5, 1, 0];
    assert Flatten(chunks) == Greeting([0]) + Message(CmdConnect, 0, addr, 80) + [];
    ConnectExchange([0], 0, addr, 80, [], chunks);
    DottedLoopback();
  }

  /** A greeting offering only method 2 is refused with 05 FF, and the bytes sent
      after it change nothing. */
  lemma NoAcceptableMethod(chunks: seq<seq<byte>>, later: seq<seq<byte>>)
    requires Flatten(chunks) == [5, 1, 2]
    ensures var s := FeedAll(Init, chunks + later);
      s.client.log == [End([5, 0xFF])] && s.client.ended && s.phase == Handshake
  {
    var b := Flatten(chunks);
    assert b[2..3] == [2];
    assert ParseHandshake(b) == HsNoAcceptable;
    HandshakeOutcome(chunks);
    FromInit(chunks);
    var first := FeedAll(Init, chunks);
    assert OnData(Init, b).buffer == Some(b) && OnData(Init, b).proxyBuffers == [];
    assert Pending(OnData(Init, b)) == b;
    assert Contents(first.buffer) == b;
    FeedAllAppend(Init, chunks, later);
    RejectedStays(first, later);
  }

  lemma {:induction false} FeedAllAppend(s: Conn, a: seq<seq<byte>>, b: seq<seq<byte>>)
    ensures FeedAll(s, a + b) == FeedAll(FeedAll(s, a), b)
    decreases |a|
  {
    if a == [] {
      assert a + b == b;
    } else {
      assert (a + b)[0] == a[0] && (a + b)[1..] == a[1..] + b;
      FeedAllAppend(OnData(s, a[0]), a[1..], b);
    }
  }

  /** An ended handshake stays where it is. */
  lemma {:induction false} RejectedStays(s: Conn, chunks: seq<seq<byte>>)
    requires s.phase == Handshake && s.client.ended
    requires ParseHandshake(Contents(s.buffer)) in {HsBadVersion, HsNoAcceptable}
    ensures FeedAll(s, chunks).phase == Handshake && FeedAll(s, chunks).client == s.client
    decreases |chunks|
  {
    if chunks != [] {
      var s1 := OnData(s, chunks[0]);
      if s.client.listening {
        HandshakeStable(Contents(s.buffer), chunks[0]);
        ExpandTwice(s.buffer, chunks[0], []);
        assert Contents(s1.buffer) == Contents(s.buffer) + chunks[0];
      }
      RejectedStays(s1, chunks[1..]);
    }
  }

  /** A CONNECT to example.com:443, split in any way (for instance right after the
      domain's length byte); the dial fails, so the client gets 05 01 and no handoff. */
  lemma DomainDialFails(name: seq<byte>, chunks: seq<seq<byte>>)
    requires name == [101, 120, 97, 109, 112, 108, 101, 46, 99, 111, 109]
    requires Flatten(chunks) == [5, 1, 0] + [5, 1, 0, 3, 11] + name + [1, 187]
    ensures var s := FeedAll(Init, chunks);
      s.phase == Forwarding && s.dial.Some? && s.dial.value.dest == Destination(HostName(name), 443) &&
      OnDialError(s).client.log == [Write([5, 0]), End([5, 1])]
  {
    DomainFails(name, chunks);
  }

  /** The same for any domain name of the length byte's size. */
  lemma DomainFails(name: seq<byte>, chunks: seq<seq<byte>>)
    requires |name| < 256
    requires Flatten(chunks) == [5, 1, 0] + [5, 1, 0, 3, |name| as byte] + name + [1, 187]
    ensures var s := FeedAll(Init, chunks);
      s.phase == Forwarding && s.dial.Some? && s.dial.value.dest == Destination(HostName(name), 443) &&
      OnDialError(s).client.log == [Write([5, 0]), End([5, 1])]
  {
    DomainBytes(name);
    ConnectExchange([0], 0, DomainName(name), 443, [], chunks);
    ConnectNegotiated([0], 0, DomainName(name), 443, [], chunks);
  }

  lemma DomainBytes(name: seq<byte>)
    requires |name| < 256
    ensures [5, 1, 0] + [5, 1, 0, 3, |name| as byte] + name + [1, 187] ==
      Greeting([0]) + Message(CmdConnect, 0, DomainName(name), 443) + []
  {
    assert EncodePort(443) == [1, 187];
    assert Greeting([0]) == [5, 1, 0];
  }

  // ---------------------------------------------------------------------------
  // index.js:76 as written

  /** The stream of the counterexample: a greeting offering method 0 plus the first
      byte of a CONNECT to 127.0.0.1:80, then the rest of that request. */
  lemma SplitBytes(c1: seq<byte>, c2: seq<byte>)
    requires c1 == [5, 1, 0, 5] && c2 == [1, 0, 1, 127, 0, 0, 1, 0, 80]
    ensures c1 == Greeting([0]) + [5]
    ensures [5] + c2 == Message(CmdConnect, 0, IPv4(127, 0, 0, 1), 80) + []
    ensures c1 + c2 == Greeting([0]) + ([5] + c2)
    ensures ParseRequest([5]) == ReqIncomplete && ParseRequest(c2) == ReqBadVersion
  {
    assert EncodePort(80) == [0, 80];
  }

  /** As written, a chunk that completes an acceptable greeting ends with `buffer` null. */
  lemma AcceptedDataAsWritten(s: Conn, chunk: seq<byte>, rest: seq<byte>)
    requires s.phase == Handshake && s.client.listening
    requires ParseHandshake(ExpandAndCopy(s.buffer, chunk)) == HsAccepted(rest)
    ensures OnDataAsWritten(s, chunk) ==
      if |rest| > 0 then RequestData(Selected(s), rest).(buffer := None) else Selected(s).(buffer := None)
  {
  }

  /** The greeting and the first byte of the request arrive together, the rest of the
      request after. As written the handshake handler discards the byte it has just
      handed to the request handler, so the request is read from its second byte and
      refused as a bad version. */
  lemma SplitRequestAsWritten(c1: seq<byte>, c2: seq<byte>)
    requires c1 == [5, 1, 0, 5] && c2 == [1, 0, 1, 127, 0, 0, 1, 0, 80]
    ensures FeedAllAsWritten(Init, [c1, c2]).client.log == [Write([5, 0]), End([])]
  {
    SplitBytes(c1, c2);
    GreetingDecision([0], [5]);
    assert ExpandAndCopy(Init.buffer, c1) == c1;
    AcceptedDataAsWritten(Init, c1, [5]);
    RequestFromSelected([5]);
    var s1 := OnDataAsWritten(Init, c1);
    assert s1 == RequestData(Selected(Init), [5]).(buffer := None);
    assert s1.phase == Request && s1.client.listening && s1.buffer == None && s1.client.log == [Write([5, 0])];
    assert !s1.client.ended;
    assert ExpandAndCopy(s1.buffer, c2) == c2;
    assert OnDataAsWritten(s1, c2) == RequestData(s1, c2);
    assert RequestData(s1, c2).client == ClientEnd(s1.client, []);
    assert [c1, c2][0] == c1 && [c1, c2][1..] == [c2] && [c2][0] == c2 && [c2][1..] == [];
    assert FeedAllAsWritten(Init, [c1, c2]) == FeedAllAsWritten(s1, [c2]);
    assert FeedAllAsWritten(s1, [c2]) == FeedAllAsWritten(OnDataAsWritten(s1, c2), []);
  }

  /** The same bytes in one chunk negotiate normally, even as written. */
  lemma OneChunkAsWritten(c1: seq<byte>, c2: seq<byte>)
    requires c1 == [5, 1, 0, 5] && c2 == [1, 0, 1, 127, 0, 0, 1, 0, 80]
    ensures OnDataAsWritten(Init, c1 + c2).phase == Forwarding
  {
    SplitBytes(c1, c2);
    var req := [5] + c2;
    GreetingDecision([0], req);
    assert ExpandAndCopy(Init.buffer, c1 + c2) == c1 + c2;
    AcceptedDataAsWritten(Init, c1 + c2, req);
    RequestRoundTrip(0, IPv4(127, 0, 0, 1), 80, []);
    RequestFromSelected(req);
  }

  /** With the leftover kept, the split stream negotiates the CONNECT. */
  lemma SplitRequestKept(c1: seq<byte>, c2: seq<byte>)
    requires c1 == [5, 1, 0, 5] && c2 == [1, 0, 1, 127, 0, 0, 1, 0, 80]
    ensures FeedAll(Init, [c1, c2]).phase == Forwarding
    ensures FeedAll(Init, [c1, c2]).client.log == [Write([5, 0])]
  {
    SplitBytes(c1, c2);
    var chunks: seq<seq<byte>> := [c1, c2];
    FlattenSingle(c2);
    assert chunks[1..] == [c2];
    assert Flatten(chunks) == c1 + Flatten([c2]);
    assert Flatten(chunks) == Greeting([0]) + Message(CmdConnect, 0, IPv4(127, 0, 0, 1), 80) + [];
    ConnectNegotiated([0], 0, IPv4(127, 0, 0, 1), 80, [], chunks);
  }

  // ---------------------------------------------------------------------------
  // Where the handler as written agrees with the corrected one

  /** The two handshake handlers differ only on a chunk that completes an accepted
      greeting with bytes behind it. */
  lemma AsWrittenAgrees(s: Conn, c: seq<byte>)
    requires !(s.client.listening && s.phase == Handshake &&
               ParseHandshake(ExpandAndCopy(s.buffer, c)).HsAccepted? &&
               ParseHandshake(ExpandAndCopy(s.buffer, c)).rest != [])
    ensures OnDataAsWritten(s, c) == OnData(s, c)
  {
  }

  /** Once past the handshake, the program as written runs exactly as the corrected model. */
  lemma {:induction false} FeedAgreesAfterHandshake(s: Conn, chunks: seq<seq<byte>>)
    requires s.phase != Handshake
    ensures FeedAllAsWritten(s, chunks) == FeedAll(s, chunks)
    decreases |chunks|
  {
    if chunks != [] {
      AsWrittenAgrees(s, chunks[0]);
      FeedAgreesAfterHandshake(OnData(s, chunks[0]), chunks[1..]);
    }
  }

  /** A greeting that arrives as a chunk of its own, followed by any chunks: the
      program as written runs exactly as the corrected model. */
  lemma GreetingAloneAsWritten(g: seq<byte>, chunks: seq<seq<byte>>)
    requires ParseHandshake(g) == HsAccepted([])
    ensures FeedAllAsWritten(Init, [g] + chunks) == FeedAll(Init, [g] + chunks)
  {
    assert ExpandAndCopy(Init.buffer, g) == g;
    AsWrittenAgrees(Init, g);
    var s1 := OnData(Init, g);
    assert s1 == Selected(Init);
    assert ([g] + chunks)[0] == g && ([g] + chunks)[1..] == chunks;
    FeedAgreesAfterHandshake(s1, chunks);
  }

  /** Worked exchange A for the program as written, when the greeting `05 01 00` comes
      in a chunk of its own and the CONNECT to 127.0.0.1:80 follows, split in any way. */
  lemma ScenarioAAsWritten(chunks: seq<seq<byte>>)
    requires Flatten(chunks) == [5, 1, 0, 1, 127, 0, 0, 1, 0, 80]
    ensures var c := OnConnect(FeedAllAsWritten(Init, [[5, 1, 0]] + chunks));
      c.client.log == [Write([5, 0]), Write([5, 0, 0, 1, 127, 0, 0, 1, 0, 80]),
                       Handoff(Destination(HostText("127.0.0.1"), 80))]
  {
    var g: seq<byte> := [5, 1, 0];
    assert Greeting([0]) == g;
    GreetingDecision([0], []);
    assert Greeting([0]) + [] == g;
    GreetingAloneAsWritten(g, chunks);
    FlattenAppend([g], chunks);
    FlattenSingle(g);
    ConnectToLoopback([g] + chunks);
  }
}
