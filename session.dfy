/** `handleConnection` as the object it is at run time: the closure variables of
    index.js:40-173 become the fields of a `Session`, each 'data' event and each dial
    callback a method that updates them in place. Every method is proved to move the
    session exactly as the corresponding function of `Machine` says, so the properties
    proved there (chunking invariance, once-only replies, the worked exchanges) hold
    of the object. */
module Connection {
  import opened Bytes
  import opened Format
  import opened Socks
  import opened Machine

  /** The scan of the method list for "no authentication required" (index.js:66-68). */
  method FindNoAuth(b: seq<byte>, nMethods: nat) returns (found: bool)
    requires nMethods + 2 <= |b|
    ensures found <==> MethodNoAuth in b[2..nMethods + 2]
  {
    var i := 0;
    while i < nMethods
      invariant 0 <= i <= nMethods
      invariant MethodNoAuth !in b[2..i + 2]
    {
      if b[i + 2] == MethodNoAuth {
        assert b[2..nMethods + 2][i] == MethodNoAuth;
        return true;
      }
      assert b[2..i + 3] == b[2..i + 2] + [b[i + 2]];
      i := i + 1;
    }
    return false;
  }

  /** The address-type table of the request handler (index.js:102-135) on a buffer whose
      version and command are acceptable: whether the type is known, whether the whole
      request has arrived, and then the host and port it names and its length. */
  method DecodeTarget(b: seq<byte>) returns (known: bool, complete: bool, host: Host, port: nat, len: nat)
    requires 4 <= |b| && b[0] == Version && b[1] == CmdConnect
    ensures !known <==> ParseRequest(b) == ReqBadAddressType
    ensures known && !complete <==> ParseRequest(b) == ReqIncomplete
    ensures complete ==>
      (known && len <= |b| &&
       ParseRequest(b) == ReqConnect(ParseRequest(b).addr, port, b[..len], b[len..]) &&
       host == HostOf(ParseRequest(b).addr))
  {
    host, port, len := HostRaw([]), 0, 0;
    known, complete := true, false;
    if b[3] == AtypIPv4 {
      if |b| < 10 {
        return;
      }
      host := HostText(Dotted(b[4], b[5], b[6], b[7]));
      port := BigEndian16(b[8], b[9]);
      len := 10;
    } else if b[3] == AtypDomain {
      if |b| < 5 {
        return;
      }
      var addrLength := b[4] as nat;
      if |b| < 5 + addrLength + 2 {
        return;
      }
      host := HostName(b[5..5 + addrLength]);
      port := BigEndian16(b[5 + addrLength], b[6 + addrLength]);
      len := 5 + addrLength + 2;
    } else if b[3] == AtypIPv6 {
      if |b| < 22 {
        return;
      }
      host := HostRaw(b[4..20]);
      port := BigEndian16(b[20], b[21]);
      len := 22;
    } else {
      known := false;
      return;
    }
    complete := true;
  }

  /** `responseBuf = new Buffer(len); buffer.copy(responseBuf, 0, 0, len)` (index.js:110-111). */
  method CopyPrefix(b: seq<byte>, len: nat) returns (a: array<byte>)
    requires len <= |b|
    ensures fresh(a) && a[..] == b[..len]
  {
    a := new byte[len];
    forall k | 0 <= k < len {
      a[k] := b[k];
    }
  }

  /** `responseBuf[1] = 0; responseBuf[2] = 0` (index.js:142-143). */
  method MarkSucceeded(a: array<byte>)
    modifies a
    ensures a[..] == SuccessReply(old(a[..]))
  {
    if 1 < a.Length {
      a[1] := RepSucceeded;
    }
    if 2 < a.Length {
      a[2] := 0;
    }
  }

  class Session {
    var phase: Phase                   // curState
    var buffer: Option<seq<byte>>      // buffer
    var proxyBuffers: seq<seq<byte>>   // proxyBuffers
    var dialing: bool                  // net.createConnection has been called
    var dest: Destination              // its port and host
    var responseBuf: array<byte>       // responseBuf, changed in place by the connect callback
    var connected: bool                // connected
    var errorSeen: bool
    var closeSeen: bool
    var threw: bool
    var listening: bool
    var paused: bool
    var ended: bool
    var log: seq<Action>

    /** The session as a `Machine.Conn`. */
    function State(): Conn
      reads this, responseBuf
    {
      Conn(phase, buffer, proxyBuffers,
           if dialing then Some(Dial(dest, responseBuf[..], connected, errorSeen, closeSeen, threw)) else None,
           Client(listening, paused, ended, log))
    }

    constructor()
      ensures State() == Init
    {
      phase := Handshake;
      buffer := None;
      proxyBuffers := [];
      dialing := false;
      dest := Destination(HostRaw([]), 0);
      responseBuf := new byte[0];
      connected, errorSeen, closeSeen, threw := false, false, false, false;
      listening, paused, ended := true, false, false;
      log := [];
    }

    /** `client.write(data)`. */
    method Send(data: seq<byte>)
      modifies this
      ensures State() == old(State()).(client := ClientWrite(old(State()).client, data))
    {
      if !ended {
        log := log + [Write(data)];
      }
    }

    /** `client.end(data)`. */
    method Close(data: seq<byte>)
      modifies this
      ensures State() == old(State()).(client := ClientEnd(old(State()).client, data))
    {
      if !ended {
        log := log + [End(data)];
        ended := true;
      }
    }

    /** `onClientData` (index.js:45-47). */
    method OnData(chunk: seq<byte>)
      modifies this
      ensures State() == Machine.OnData(old(State()), chunk)
    {
      if !listening {
        return;
      }
      match phase
      case Handshake => HandleHandshake(chunk);
      case Request => HandleRequest(chunk);
      case Forwarding => proxyBuffers := proxyBuffers + [chunk];
    }

    /** The handshake handler (index.js:54-83), keeping what the request handler
        stored when the greeting was followed by more bytes. */
    method HandleHandshake(chunk: seq<byte>)
      requires phase == Handshake
      modifies this
      ensures State() == HandshakeData(old(State()), chunk)
    {
      ghost var s0 := State();
      var b := ExpandAndCopy(buffer, chunk);
      buffer := Some(b);
      assert State() == s0.(buffer := Some(b));
      if |b| < 2 {
        return;
      }
      if b[0] != Version {
        Close([]);
        return;
      }
      var nMethods := b[1] as nat;
      if |b| < nMethods + 2 {
        return;
      }
      assert ParseHandshake(b) == if OffersNoAuth(b) then HsAccepted(b[nMethods + 2..]) else HsNoAcceptable;
      var found := FindNoAuth(b, nMethods);
      if found {
        Send([Version, MethodNoAuth]);
        phase := Request;
        buffer := None;
        assert State() == Selected(s0);
        if |b| > nMethods + 2 {
          assert HandshakeData(s0, chunk) == RequestData(Selected(s0), b[nMethods + 2..]);
          HandleRequest(b[nMethods + 2..]);
        } else {
          assert HandshakeData(s0, chunk) == Selected(s0);
        }
        return;
      }
      Close([Version, MethodNoAcceptable]);
    }

    /** The request handler (index.js:86-168), up to the start of the dial. */
    method HandleRequest(chunk: seq<byte>)
      requires phase == Request
      modifies this
      ensures State() == RequestData(old(State()), chunk)
    {
      ghost var s0 := State();
      var b := ExpandAndCopy(buffer, chunk);
      buffer := Some(b);
      assert State() == s0.(buffer := Some(b));
      if |b| < 4 {
        return;
      }
      if b[0] != Version {
        Close([]);
        return;
      }
      if b[1] != CmdConnect {
        Close([Version, RepGeneralFailure]);
        return;
      }
      var known, complete, host, port, len := DecodeTarget(b);
      if !known {
        Close([Version, RepGeneralFailure]);
      } else if complete {
        ghost var r := ParseRequest(b);
        assert RequestData(s0, chunk) ==
          s0.(buffer := Some(b[len..]), phase := Forwarding,
              dial := Some(Dial(Destination(host, port), b[..len], false, false, false, false)),
              client := s0.client.(paused := true));
        StartDial(b, host, port, len);
      }
    }

    /** The request's target once the request is known to be complete (index.js:137-167):
        copy the template into a fresh `responseBuf`, drop it from `buffer`, start the
        dial and pause the client. */
    method StartDial(b: seq<byte>, host: Host, port: nat, len: nat)
      requires len <= |b|
      modifies this
      ensures fresh(responseBuf) && responseBuf[..] == b[..len]
      ensures phase == Forwarding && buffer == Some(b[len..]) && paused
      ensures dialing && dest == Destination(host, port)
      ensures !connected && !errorSeen && !closeSeen && !threw
      ensures proxyBuffers == old(proxyBuffers) && listening == old(listening) && ended == old(ended) && log == old(log)
    {
      var rb := CopyPrefix(b, len);
      buffer, phase, paused := Some(b[len..]), Forwarding, true;
      dialing, dest := true, Destination(host, port);
      connected, errorSeen, closeSeen, threw := false, false, false, false;
      responseBuf := rb;
    }

    /** The dial's connect callback (index.js:141-157). */
    method OnConnect()
      modifies this, responseBuf
      ensures State() == Machine.OnConnect(old(State()))
    {
      if !dialing || connected {
        return;
      }
      ghost var s0 := State();
      MarkSucceeded(responseBuf);
      assert State() == s0.(dial := Some(s0.dial.value.(responseBuf := SuccessReply(s0.dial.value.responseBuf))));
      Send(responseBuf[..]);
      HandOver();
    }

    /** The rest of the connect callback (index.js:145-157): detach, resume, announce
        the handoff, then the replay as written. */
    method HandOver()
      modifies this
      ensures listening == false && paused == false && connected
      ensures log == old(log) + [Handoff(dest)]
      ensures buffer == if Contents(old(buffer)) != [] then None else old(buffer)
      ensures threw == (old(threw) || old(proxyBuffers) != [])
      ensures proxyBuffers == old(proxyBuffers)
      ensures phase == old(phase) && dialing == old(dialing) && dest == old(dest) && responseBuf == old(responseBuf)
      ensures errorSeen == old(errorSeen) && closeSeen == old(closeSeen) && ended == old(ended)
    {
      listening := false;
      paused := false;
      log := log + [Handoff(dest)];
      connected := true;
      if buffer.Some? && |buffer.value| > 0 {
        // client.emit(buffer) names an event that normally nobody listens to
        buffer := None;
      }
      if |proxyBuffers| > 0 {
        // proxyBuffers[i] reads an undeclared variable
        threw := true;
      }
      // proxyBuffers = [] (line 157) is reached only when the queue is already empty
    }

    /** The dial's once('error') listener (index.js:158-161). */
    method OnDialError()
      modifies this
      ensures State() == Machine.OnDialError(old(State()))
    {
      if !dialing || errorSeen {
        return;
      }
      errorSeen := true;
      if !connected {
        Close([Version, RepGeneralFailure]);
      }
    }

    /** The dial's once('close') listener (index.js:162-166). */
    method OnDialClose()
      modifies this
      ensures State() == Machine.OnDialClose(old(State()))
    {
      if !dialing || closeSeen {
        return;
      }
      closeSeen := true;
      if !connected {
        Close([]);
      }
    }
  }
}
