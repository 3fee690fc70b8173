/** The two SOCKS version 5 messages a client sends (section 3 and section 4 of
    RFC 1928, addresses as in section 5), as the session's handlers decide them
    from the bytes accumulated so far, and the reply that the dial outcome writes
    back (section 6 of RFC 1928). */
module Socks {
  import opened Bytes
  import opened Format

  const Version: byte := 5
  const MethodNoAuth: byte := 0x00
  const MethodNoAcceptable: byte := 0xFF
  const CmdConnect: byte := 0x01
  const AtypIPv4: byte := 0x01
  const AtypDomain: byte := 0x03
  const AtypIPv6: byte := 0x04
  const RepSucceeded: byte := 0x00
  const RepGeneralFailure: byte := 0x01

  // ---------------------------------------------------------------------------
  // Method selection: VER NMETHODS METHODS...

  datatype HandshakeResult =
    | HsIncomplete                   // wait for more bytes
    | HsBadVersion                   // close without a reply
    | HsNoAcceptable                 // reply 05 FF and close
    | HsAccepted(rest: seq<byte>)    // reply 05 00; `rest` follows the method list

  /** The announced method list is complete and contains "no authentication required". */
  predicate OffersNoAuth(b: seq<byte>)
    requires 2 <= |b| && b[1] as int + 2 <= |b|
  {
    MethodNoAuth in b[2..b[1] as int + 2]
  }

  /** The decision of the handshake handler (index.js:54-83) on the buffered bytes `b`. */
  function ParseHandshake(b: seq<byte>): (r: HandshakeResult)
    // the version is judged as soon as two bytes are there, before the method list is complete
    ensures 2 <= |b| && b[0] != Version ==> r == HsBadVersion
    ensures r == HsIncomplete <==> |b| < 2 || (b[0] == Version && |b| < b[1] as int + 2)
    ensures r.HsAccepted? ==> |r.rest| + b[1] as int + 2 == |b| && r.rest == b[b[1] as int + 2..]
  {
    if |b| < 2 then HsIncomplete
    else if b[0] != Version then HsBadVersion
    else if |b| < b[1] as int + 2 then HsIncomplete
    else if OffersNoAuth(b) then HsAccepted(b[b[1] as int + 2..])
    else HsNoAcceptable
  }

  /** The method-selection message a client sends. */
  function Greeting(methods: seq<byte>): seq<byte>
    requires |methods| < 256
  {
    [Version, |methods| as byte] + methods
  }

  /** A greeting is accepted exactly when its method list contains method 0,
      whatever else the list holds, and whatever follows it is handed on untouched. */
  lemma GreetingDecision(methods: seq<byte>, rest: seq<byte>)
    requires |methods| < 256
    ensures ParseHandshake(Greeting(methods) + rest) ==
      if MethodNoAuth in methods then HsAccepted(rest) else HsNoAcceptable
  {
    var b := Greeting(methods) + rest;
    assert b[2..|methods| + 2] == methods;
    assert b[|methods| + 2..] == rest;
  }

  /** Conversely, an accepted buffer is a greeting offering method 0 followed by its rest. */
  lemma AcceptedIsGreeting(b: seq<byte>)
    requires ParseHandshake(b).HsAccepted?
    ensures var methods := b[2..b[1] as int + 2];
      MethodNoAuth in methods && b == Greeting(methods) + ParseHandshake(b).rest
  {
    var n := b[1] as int;
    assert b == b[..2] + b[2..n + 2] + b[n + 2..];
  }

  function ExtendHandshake(r: HandshakeResult, more: seq<byte>): HandshakeResult
  {
    match r
    case HsAccepted(rest) => HsAccepted(rest + more)
    case _ => r
  }

  /** Once decided, the decision does not depend on bytes that arrive later. */
  lemma HandshakeStable(b: seq<byte>, more: seq<byte>)
    requires ParseHandshake(b) != HsIncomplete
    ensures ParseHandshake(b + more) == ExtendHandshake(ParseHandshake(b), more)
  {
    var c := b + more;
    assert c[0] == b[0] && c[1] == b[1];
    if b[0] == Version {
      var n := b[1] as int;
      assert c[2..n + 2] == b[2..n + 2];
      assert c[n + 2..] == b[n + 2..] + more;
    }
  }

  // ---------------------------------------------------------------------------
  // Request: VER CMD RSV ATYP DST.ADDR DST.PORT

  datatype Address =
    | IPv4(a: byte, b: byte, c: byte, d: byte)
    | DomainName(name: seq<byte>)      // kept as raw bytes; see README
    | IPv6(raw: seq<byte>)

  predicate ValidAddress(addr: Address)
  {
    match addr
    case IPv4(_, _, _, _) => true
    case DomainName(name) => |name| < 256
    case IPv6(raw) => |raw| == 16
  }

  /** ATYP followed by the address field. */
  function AddressBytes(addr: Address): (r: seq<byte>)
    requires ValidAddress(addr)
  {
    match addr
    case IPv4(a, b, c, d) => [AtypIPv4, a, b, c, d]
    case DomainName(name) => [AtypDomain, |name| as byte] + name
    case IPv6(raw) => [AtypIPv6] + raw
  }

  /** The layout shared by a request and a reply: VER, a code (CMD or REP), RSV,
      the address and the port. */
  function Message(code: byte, rsv: byte, addr: Address, port: nat): seq<byte>
    requires ValidAddress(addr) && port < 0x1_0000
  {
    [Version, code, rsv] + AddressBytes(addr) + EncodePort(port)
  }

  datatype RequestResult =
    | ReqIncomplete                    // wait for more bytes
    | ReqBadVersion                    // close without a reply
    | ReqBadCommand                    // reply 05 01 and close
    | ReqBadAddressType                // reply 05 01 and close
    | ReqConnect(addr: Address, port: nat, template: seq<byte>, rest: seq<byte>)

  /** The decision of the request handler (index.js:86-135) on the buffered bytes `b`.
      On success `template` is the consumed request and `rest` what follows it. */
  function ParseRequest(b: seq<byte>): (r: RequestResult)
    // the command is judged before the address type and regardless of how much has arrived
    ensures r == ReqBadVersion <==> 4 <= |b| && b[0] != Version
    ensures r == ReqBadCommand <==> 4 <= |b| && b[0] == Version && b[1] != CmdConnect
    ensures r == ReqBadAddressType <==>
      4 <= |b| && b[0] == Version && b[1] == CmdConnect && b[3] !in {AtypIPv4, AtypDomain, AtypIPv6}
    ensures r.ReqConnect? ==> b == r.template + r.rest && r.port < 0x1_0000 && ValidAddress(r.addr)
  {
    if |b| < 4 then ReqIncomplete
    else if b[0] != Version then ReqBadVersion
    else if b[1] != CmdConnect then ReqBadCommand
    else if b[3] == AtypIPv4 then
      if |b| < 10 then ReqIncomplete
      else
        assert b == b[..10] + b[10..];
        ReqConnect(IPv4(b[4], b[5], b[6], b[7]), BigEndian16(b[8], b[9]), b[..10], b[10..])
    else if b[3] == AtypDomain then
      if |b| < 5 then ReqIncomplete
      else
        var len := b[4] as int;
        if |b| < 5 + len + 2 then ReqIncomplete
        else
          assert b == b[..7 + len] + b[7 + len..];
          ReqConnect(DomainName(b[5..5 + len]), BigEndian16(b[5 + len], b[6 + len]), b[..7 + len], b[7 + len..])
    else if b[3] == AtypIPv6 then
      if |b| < 22 then ReqIncomplete
      else
        assert b == b[..22] + b[22..];
        ReqConnect(IPv6(b[4..20]), BigEndian16(b[20], b[21]), b[..22], b[22..])
    else ReqBadAddressType
  }

  /** How many bytes a request with this prefix needs before it can be decoded
      (the table of index.js:106-131); the domain-name form needs its length byte first. */
  function RequestLength(b: seq<byte>): nat
    requires 4 <= |b|
  {
    if b[3] == AtypIPv4 then 10
    else if b[3] == AtypDomain then (if |b| < 5 then 5 else 7 + b[4] as int)
    else if b[3] == AtypIPv6 then 22
    else 4
  }

  /** A request with an acceptable header waits exactly until its encoding is complete. */
  lemma RequestWaits(b: seq<byte>)
    requires 4 <= |b| && b[0] == Version && b[1] == CmdConnect
    requires b[3] in {AtypIPv4, AtypDomain, AtypIPv6}
    ensures ParseRequest(b) == ReqIncomplete <==> |b| < RequestLength(b)
    ensures ParseRequest(b).ReqConnect? ==> |ParseRequest(b).template| == RequestLength(b)
  {
  }

  /** Every well-formed CONNECT request decodes to its own address and port, its
      whole encoding is the reply template, and what follows it is the remainder. */
  lemma RequestRoundTrip(rsv: byte, addr: Address, port: nat, rest: seq<byte>)
    requires ValidAddress(addr) && port < 0x1_0000
    ensures var m := Message(CmdConnect, rsv, addr, port);
      ParseRequest(m + rest) == ReqConnect(addr, port, m, rest)
  {
    match addr
    case IPv4(x, y, z, w) => IPv4RoundTrip(rsv, x, y, z, w, port, rest);
    case DomainName(name) => DomainRoundTrip(rsv, name, port, rest);
    case IPv6(raw) => IPv6RoundTrip(rsv, raw, port, rest);
  }

  lemma IPv4RoundTrip(rsv: byte, x: byte, y: byte, z: byte, w: byte, port: nat, rest: seq<byte>)
    requires port < 0x1_0000
    ensures var m := Message(CmdConnect, rsv, IPv4(x, y, z, w), port);
      ParseRequest(m + rest) == ReqConnect(IPv4(x, y, z, w), port, m, rest)
  {
    var p := EncodePort(port);
    var m := Message(CmdConnect, rsv, IPv4(x, y, z, w), port);
    assert m == [Version, CmdConnect, rsv, AtypIPv4, x, y, z, w, p[0], p[1]];
    var b := m + rest;
    assert b[..10] == m && b[10..] == rest;
  }

  lemma DomainRoundTrip(rsv: byte, name: seq<byte>, port: nat, rest: seq<byte>)
    requires |name| < 256 && port < 0x1_0000
    ensures var m := Message(CmdConnect, rsv, DomainName(name), port);
      ParseRequest(m + rest) == ReqConnect(DomainName(name), port, m, rest)
  {
    var m := Message(CmdConnect, rsv, DomainName(name), port);
    DomainLayout(rsv, name, port, rest);
    DomainDecode(m + rest);
  }

  /** Where the fields of a domain-name request sit. */
  lemma DomainLayout(rsv: byte, name: seq<byte>, port: nat, rest: seq<byte>)
    requires |name| < 256 && port < 0x1_0000
    ensures var b := Message(CmdConnect, rsv, DomainName(name), port) + rest; var len := |name|;
      |b| >= 7 + len && b[0] == Version && b[1] == CmdConnect && b[3] == AtypDomain && b[4] as int == len &&
      b[5..5 + len] == name && BigEndian16(b[5 + len], b[6 + len]) == port &&
      b[..7 + len] == Message(CmdConnect, rsv, DomainName(name), port) && b[7 + len..] == rest
  {
    var p := EncodePort(port);
    var len := |name|;
    var h: seq<byte> := [Version, CmdConnect, rsv, AtypDomain, len as byte];
    var m := Message(CmdConnect, rsv, DomainName(name), port);
    assert m == h + name + p;
    var b := m + rest;
    assert b[5..5 + len] == name;
    assert b[5 + len] == p[0] && b[6 + len] == p[1];
    assert b[..7 + len] == m;
  }

  /** The domain-name branch of the request handler. */
  lemma DomainDecode(b: seq<byte>)
    requires |b| >= 5 && b[0] == Version && b[1] == CmdConnect && b[3] == AtypDomain && |b| >= 7 + b[4] as int
    ensures var len := b[4] as int;
      ParseRequest(b) == ReqConnect(DomainName(b[5..5 + len]), BigEndian16(b[5 + len], b[6 + len]), b[..7 + len], b[7 + len..])
  {
  }

  lemma IPv6RoundTrip(rsv: byte, raw: seq<byte>, port: nat, rest: seq<byte>)
    requires |raw| == 16 && port < 0x1_0000
    ensures var m := Message(CmdConnect, rsv, IPv6(raw), port);
      ParseRequest(m + rest) == ReqConnect(IPv6(raw), port, m, rest)
  {
    IPv6Layout(rsv, raw, port, rest);
    IPv6Decode(Message(CmdConnect, rsv, IPv6(raw), port) + rest);
  }

  /** Where the fields of an IPv6 request sit. */
  lemma IPv6Layout(rsv: byte, raw: seq<byte>, port: nat, rest: seq<byte>)
    requires |raw| == 16 && port < 0x1_0000
    ensures var b := Message(CmdConnect, rsv, IPv6(raw), port) + rest;
      |b| >= 22 && b[0] == Version && b[1] == CmdConnect && b[3] == AtypIPv6 &&
      b[4..20] == raw && BigEndian16(b[20], b[21]) == port &&
      b[..22] == Message(CmdConnect, rsv, IPv6(raw), port) && b[22..] == rest
  {
    var p := EncodePort(port);
    var m := Message(CmdConnect, rsv, IPv6(raw), port);
    assert m == [Version, CmdConnect, rsv, AtypIPv6] + raw + p;
    var b := m + rest;
    assert b[4..20] == raw;
    assert b[20] == p[0] && b[21] == p[1];
    assert b[..22] == m;
  }

  /** The IPv6 branch of the request handler. */
  lemma IPv6Decode(b: seq<byte>)
    requires |b| >= 22 && b[0] == Version && b[1] == CmdConnect && b[3] == AtypIPv6
    ensures ParseRequest(b) == ReqConnect(IPv6(b[4..20]), BigEndian16(b[20], b[21]), b[..22], b[22..])
  {
  }

  /** Conversely, a decoded request is the encoding of what it decoded to (with the
      client's RSV byte) followed by the remainder. */
  lemma ConnectIsRequest(b: seq<byte>)
    requires ParseRequest(b).ReqConnect?
    ensures var r := ParseRequest(b);
      r.template == Message(CmdConnect, b[2], r.addr, r.port) && b == r.template + r.rest
  {
    var r := ParseRequest(b);
    var p := EncodePort(r.port);
    if b[3] == AtypIPv4 {
      assert p == [b[8], b[9]];
      assert r.template == [b[0], b[1], b[2]] + [b[3], b[4], b[5], b[6], b[7]] + [b[8], b[9]];
    } else if b[3] == AtypDomain {
      DomainTemplate(b);
    } else {
      assert p == [b[20], b[21]];
      assert r.template == [b[0], b[1], b[2]] + ([b[3]] + b[4..20]) + [b[20], b[21]];
    }
  }

  lemma DomainTemplate(b: seq<byte>)
    requires ParseRequest(b).ReqConnect? && b[3] == AtypDomain
    ensures var r := ParseRequest(b); r.template == Message(CmdConnect, b[2], r.addr, r.port)
  {
    var len := b[4] as int;
    var name := b[5..5 + len];
    var port := BigEndian16(b[5 + len], b[6 + len]);
    assert ParseRequest(b) == ReqConnect(DomainName(name), port, b[..7 + len], b[7 + len..]);
    var p := EncodePort(port);
    assert p == [b[5 + len], b[6 + len]];
    assert b[..7 + len] == [b[0], b[1], b[2]] + ([b[3], b[4]] + name) + p;
  }

  function ExtendRequest(r: RequestResult, more: seq<byte>): RequestResult
  {
    match r
    case ReqConnect(addr, port, template, rest) => ReqConnect(addr, port, template, rest + more)
    case _ => r
  }

  /** Once decided, the decision does not depend on bytes that arrive later. */
  lemma RequestStable(b: seq<byte>, more: seq<byte>)
    requires ParseRequest(b) != ReqIncomplete
    ensures ParseRequest(b + more) == ExtendRequest(ParseRequest(b), more)
  {
    var r := ParseRequest(b);
    if r.ReqConnect? {
      ConnectIsRequest(b);
      assert b + more == r.template + (r.rest + more);
      RequestRoundTrip(b[2], r.addr, r.port, r.rest + more);
    } else {
      var c := b + more;
      assert c[0] == b[0] && c[1] == b[1] && c[3] == b[3];
    }
  }

  // ---------------------------------------------------------------------------
  // Replies

  /** `buf[i] = v` on a Node Buffer: an index past the end is ignored. */
  function SetByte(t: seq<byte>, i: nat, v: byte): (r: seq<byte>)
    ensures |r| == |t|
    ensures forall k :: 0 <= k < |t| ==> r[k] == (if k == i then v else t[k])
  {
    if i < |t| then t[i := v] else t
  }

  /** The success reply: the template with bytes 1 (REP) and 2 (RSV) set to zero (index.js:142-143). */
  function SuccessReply(template: seq<byte>): (r: seq<byte>)
    ensures |r| == |template|
    ensures forall k :: 0 <= k < |template| && k != 1 && k != 2 ==> r[k] == template[k]
    ensures 3 <= |template| ==> r[1] == RepSucceeded && r[2] == 0
  {
    SetByte(SetByte(template, 1, RepSucceeded), 2, 0)
  }

  /** The success reply written for a decoded request is a reply message of section 6
      of RFC 1928 that echoes the request's own address and port with REP = succeeded. */
  lemma SuccessReplyEchoes(b: seq<byte>)
    requires ParseRequest(b).ReqConnect?
    ensures var r := ParseRequest(b);
      SuccessReply(r.template) == Message(RepSucceeded, 0, r.addr, r.port)
  {
    var r := ParseRequest(b);
    ConnectIsRequest(b);
    var t := r.template;
    var m := Message(RepSucceeded, 0, r.addr, r.port);
    assert t == [Version, CmdConnect, b[2]] + AddressBytes(r.addr) + EncodePort(r.port);
    assert |m| == |t|;
    forall k | 0 <= k < |t| ensures SuccessReply(t)[k] == m[k] {
      if k >= 3 {
        assert t[k] == (AddressBytes(r.addr) + EncodePort(r.port))[k - 3] == m[k];
      }
    }
  }

  /** The success reply to a CONNECT is the reply message for the same address and port. */
  lemma ReplyToRequest(rsv: byte, addr: Address, port: nat)
    requires ValidAddress(addr) && port < 0x1_0000
    ensures SuccessReply(Message(CmdConnect, rsv, addr, port)) == Message(RepSucceeded, 0, addr, port)
  {
    var m := Message(CmdConnect, rsv, addr, port);
    RequestRoundTrip(rsv, addr, port, []);
    assert m + [] == m;
    SuccessReplyEchoes(m);
  }

  // ---------------------------------------------------------------------------
  // The host handed to the dial

  datatype Host =
    | HostText(text: string)           // "a.b.c.d"
    | HostName(bytes: seq<byte>)       // the domain name, before UTF-8 decoding
    | HostRaw(bytes: seq<byte>)        // the 16 IPv6 bytes, passed as a Buffer

  function HostOf(addr: Address): (h: Host)
    ensures addr.IPv4? ==> h.HostText? && Split(h.text) == [Decimal(addr.a as nat), Decimal(addr.b as nat), Decimal(addr.c as nat), Decimal(addr.d as nat)]
  {
    match addr
    case IPv4(a, b, c, d) => DottedRoundTrip(a, b, c, d); HostText(Dotted(a, b, c, d))
    case DomainName(name) => HostName(name)
    case IPv6(raw) => HostRaw(raw)
  }
}
