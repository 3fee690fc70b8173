# argyle: the SOCKS5 connection negotiation, in Dafny

argyle is a small SOCKS version 5 server for Node. For each accepted client,
`handleConnection` in `index.js` does three things:

- accumulates the client's bytes across 'data' events, using `expandAndCopy`;
- answers method selection (section 3 of RFC 1928), then decodes a CONNECT
  request for any of the three address types of section 5 of RFC 1928;
- dials the target, then writes the success reply of section 6 of RFC 1928 or
  ends the client, and hands the two sockets to whoever listens for 'connected'.

This project models that negotiation and proves properties of it.

Layout:

- `bytes.dfy` (`Bytes`) covers byte buffers:
  - `expandAndCopy`;
  - the stream made of a sequence of chunks;
  - the big-endian 16-bit port.
- `format.dfy` (`Format`) covers `util.format('%d.%d.%d.%d', ...)` for the
  IPv4 host, and the facts that its four fields read back as the four octets.
- `socks.dfy` (`Socks`) holds the two client messages as decisions on the
  bytes buffered so far: `ParseHandshake` and `ParseRequest`. It also holds:
  - their encoders and round trips;
  - the property that a decision, once taken, is stable under later bytes;
  - the success reply made from the request template.
- `machine.dfy` (`Machine`) is the session as a value:
  - a `Conn` holds the closure variables of `handleConnection` and what the
    client socket has seen;
  - there is one function per event: a 'data' chunk in each phase, and the
    dial's connect, error and close callbacks.

  Its main theorem is `ChunkingInvariant`: with line 76 corrected (see
  "## Findings"), up to the dial's outcome, how TCP
  splits the client's bytes into 'data' events does not change what the session
  has said and done, nor which bytes it holds and in what order. The split does
  decide whether bytes sent behind the request sit in `buffer` or in
  `proxyBuffers`, and the connect callback treats the two differently
  (`ReplayDependsOnSplit`).
- `outcomes.dfy` (`Outcomes`) states what a fresh session does with a whole
  client stream, split in any way, with line 76 corrected (see "## Findings").
  Lemmas whose names end in `AsWritten` follow the code as written. Topics:
  - a refused greeting;
  - each kind of request;
  - a negotiated CONNECT and the three ways its dial can end;
  - the worked exchanges;
  - the counterexample for the finding below.
- `session.dfy` (`Connection`) contains the `Session` class:
  - its fields are the closure variables;
  - `responseBuf` is an array that the connect callback changes in place;
  - its methods run the handlers step by step, including the method-list scan
    loop;
  - each method is proved to move `State()` exactly as its `Machine`
    function says.

How the client socket is modelled:

- `client.write` and `client.end` append to a log, together with the
  'connected' emission.
- After `end()`, Node puts nothing more on the wire. Node reports a write
  after end on the socket's 'error' event, and that listener (index.js:50)
  ignores it. The model therefore gates the log on `ended`.
- `client.pause`, `client.resume` and `removeListener` become the flags
  `paused` and `listening`.

## Model

| member | source | states |
|---|---|---|
| `Bytes.ExpandAndCopy` | index.js:175-182 | a null buffer yields the new chunk itself; otherwise the result has the combined length, the old bytes first and the new ones after |
| `Bytes.ExpandTwice` | index.js:175-182 | appending two chunks in turn equals appending their concatenation once |
| `Bytes.BigEndian16` | index.js:109 | the port is below 65536, its high byte is the first byte and its low byte the second |
| `Format.Dotted` | index.js:108 | the IPv4 host is 7 to 15 characters, each a decimal digit or '.'; `DottedRoundTrip` gives its four fields |
| `Format.Decimal` | index.js:108 | `%d` gives a non-empty string of digits that starts with '0' exactly when the number is 0 |
| `Format.DecimalRoundTrip` | index.js:108 | the digits `%d` prints read back as the number |
| `Format.DottedRoundTrip` | index.js:108 | the dotted host has exactly four '.'-separated fields, and each reads back as its octet |
| `Socks.ParseHandshake` | index.js:54-83 | the version is judged once two bytes are present, before the method list is complete; the handler waits exactly while there are fewer than two bytes, or the version is 5 and the method list is incomplete; on acceptance the leftover is whatever follows the announced method list |
| `Socks.GreetingDecision` | index.js:64-82 | a greeting is accepted exactly when its method list contains method 0, and whatever follows it is handed on untouched; otherwise the reply is 05 FF |
| `Socks.AcceptedIsGreeting` | index.js:64-79 | an accepted buffer is a greeting offering method 0, followed by the leftover |
| `Socks.HandshakeStable` | index.js:54-65 | once taken, the method-selection decision does not change as more bytes arrive, except that they join the leftover |
| `Socks.ParseRequest` | index.js:86-135 | the request is refused for its version exactly when 4 bytes are there and VER is not 5. It is refused for its command exactly when VER is 5 and CMD is not 1, whatever the address type. It is refused for its address type exactly when ATYP is not 1, 3 or 4. A decoded request splits the buffer into template and rest, with a valid address and a 16-bit port |
| `Socks.RequestWaits` | index.js:106-131 | a request with a good header waits exactly until its encoding has fully arrived, and its template has exactly that encoding length |
| `Socks.RequestRoundTrip` | index.js:86-131 | every well-formed CONNECT decodes to its own address and port, with the whole encoding as template and the following bytes as rest |
| `Socks.IPv4RoundTrip` | index.js:106-113 | an IPv4 CONNECT decodes to its four octets and port, with its 10 bytes as template |
| `Socks.DomainRoundTrip` | index.js:114-123 | a domain-name CONNECT decodes to its name and port, with its 7 + length bytes as template |
| `Socks.IPv6RoundTrip` | index.js:124-131 | an IPv6 CONNECT decodes to its 16 address bytes and port, with its 22 bytes as template |
| `Socks.ConnectIsRequest` | index.js:102-131 | conversely, a decoded template is the encoding of the decoded address and port, with the client's RSV byte |
| `Socks.RequestStable` | index.js:86-131 | once taken, the request decision does not change as more bytes arrive, except that they join the rest |
| `Socks.SetByte` | index.js:142-143 | a Buffer index store changes that one byte; an index past the end changes nothing |
| `Socks.SuccessReply` | index.js:142-143 | the reply keeps the template's length and every byte except REP and RSV, which become 0 |
| `Socks.SuccessReplyEchoes` | index.js:142-144 | the reply written for a decoded request is the reply of section 6 of RFC 1928 echoing the request's address and port, with REP = succeeded and RSV = 0 |
| `Socks.ReplyToRequest` | index.js:142-144 | the reply written for any well-formed CONNECT is the reply of section 6 of RFC 1928 for the same address and port with REP = 0 |
| `Socks.HostOf` | index.js:106-126 | the host of an IPv4 request is text whose four dotted fields are the octets' decimals |
| `Machine.ClientWrite` | index.js:69 | `client.write` (also at index.js:144): a write appends exactly that data to the log, unless the client has ended, in which case nothing changes |
| `Machine.ClientEnd` | index.js:61 | `client.end` (also at index.js:82, 93, 99, 134, 160 and 164): the first end appends its data to the log and marks the client ended; a later end changes nothing |
| `Machine.RequestData` | index.js:86-168 | a request chunk never moves the session back to the handshake. It only appends to the client's log, and nothing after end. It keeps the session well-formed: before forwarding there is no dial and no queued chunk |
| `Machine.Selected` | index.js:69-76 | accepting the method moves the session to the request phase and only adds to the client's log |
| `Machine.HandshakeData` | index.js:54-83 | a handshake chunk, including the leftover it hands to the request handler, only advances the phase, appends to the client's log, and keeps the session well-formed |
| `Machine.HandshakeDataAsWritten` | index.js:71-77 | the handler as written: whenever the greeting is accepted, `buffer` is null afterwards, even when the request handler has just stored a partial request in it |
| `Machine.ForwardingData` | index.js:170-172 | a chunk received while forwarding is appended to the queue, and nothing else changes |
| `Machine.OnData` | index.js:45-47 | a chunk only advances the phase and appends to the client's log; it keeps the well-formedness of the session; once the handler is detached, it changes nothing |
| `Machine.OnDataAsWritten` | index.js:45-47 | the as-written dispatcher only advances the phase and appends to the client's log |
| `Machine.OnConnect` | index.js:141-157 | On the first successful dial, the client gets the success reply and then the handoff, and is detached and resumed. The buffered leftover is dropped. If a chunk was queued, the replay throws. The queue never changes. Once connected, or with no dial, nothing changes |
| `Machine.OnDialError` | index.js:158-161 | an error before connecting ends the client with 05 01; a second error, or one with no dial, changes nothing; after connecting the client is untouched; the phase and the held bytes never change |
| `Machine.OnDialClose` | index.js:162-166 | a close before connecting ends the client with no data; a second close, or one with no dial, changes nothing; after connecting the client is untouched; the phase and the held bytes never change |
| `Machine.FeedAll` | index.js:45-51 | a sequence of 'data' events only advances the phase and appends to the client's log, and keeps well-formedness |
| `Machine.FeedAllAsWritten` | index.js:45-83 | a sequence of 'data' events through the as-written handshake handler only advances the phase and appends to the client's log |
| `Machine.ForwardingTwoChunks` | index.js:170-172 | queuing two chunks holds the same bytes as queuing their concatenation |
| `Machine.ConnectThenChunk` | index.js:137-172 | a chunk after the request was decoded is queued, and the session holds the same bytes as if it had come with the request |
| `Machine.ConnectData` | index.js:137-167 | a chunk that completes a CONNECT moves to forwarding with the request's dial pending, the client paused and the rest held |
| `Machine.DialingExtends` | index.js:86-135 | more bytes behind a decoded request dial the same target and are held after the rest |
| `Machine.WaitThenChunk` | index.js:86-117 | a chunk after an incomplete request acts exactly as if both had come together |
| `Machine.RefuseThenChunk` | index.js:90-100 | a chunk after a refused request adds nothing to what the client sees, and acts exactly as if both had come together |
| `Machine.RequestTwoChunks` | index.js:86-135 | in the request phase, two chunks in turn end where their concatenation does |
| `Machine.HandshakeTwoChunks` | index.js:54-83 | in the handshake phase, two chunks in turn end where their concatenation does, through both handlers |
| `Machine.TwoChunks` | index.js:45-172 | for every well-formed session, two chunks in turn end where their concatenation does |
| `Machine.ChunkingInvariant` | index.js:45-172 | feeding any non-empty sequence of chunks gives the same phase, client log, dial and held bytes (in order) as feeding their concatenation in one event |
| `Machine.ReplayDependsOnSplit` | index.js:141-172 | a CONNECT chunk followed by more bytes settles like the joined chunk, yet the connect callback then throws with the chunk still queued, whereas after the joined chunk it drops those bytes without throwing |
| `Outcomes.FromInit` | index.js:40-53 | from a fresh session, any chunking agrees with the single-chunk run; before forwarding nothing is queued and `buffer` holds every pending byte |
| `Outcomes.HandshakeOutcome` | index.js:54-83 | From a fresh session: an incomplete greeting is buffered with no reply. A bad version ends the client with no reply. A greeting without method 0 ends it with 05 FF. An accepted greeting first writes 05 00 and leaves the handshake phase |
| `Outcomes.GreetingThen` | index.js:64-75 | a whole stream made of an acceptable greeting and more arrives at the request handler as that "more" |
| `Outcomes.AcceptedData` | index.js:64-77 | a chunk that completes an acceptable greeting selects the method and feeds the request handler exactly what follows the greeting, if anything |
| `Outcomes.AcceptedDataAsWritten` | index.js:64-77 | as written, the same chunk also leaves `buffer` null, whatever the request handler stored |
| `Outcomes.RequestFromSelected` | index.js:86-168 | A request after 05 00 is handled by kind. An incomplete one is held. A bad version ends the client silently. A bad command or address type ends it with 05 01. A CONNECT pauses the client, dials its host and port with the request as template, and holds the rest |
| `Outcomes.RequestOutcome` | index.js:54-168 | the same kinds, for a whole greeting-then-request stream split into any chunks |
| `Outcomes.ConnectNegotiated` | index.js:54-167 | a well-formed greeting and CONNECT, split in any way, yield only 05 00 on the wire, a dial to the requested host and port with the request as template, and exactly the trailing bytes held |
| `Outcomes.DialOutcomes` | index.js:141-166 | A successful dial writes the reply and hands off, and a later error or close adds nothing. An error before connecting ends the client with 05 01, and a close then adds nothing. An early close ends the client with no data |
| `Outcomes.NegotiatedExchange` | index.js:141-166 | for a session that has written only 05 00 and dials with a template: a successful dial writes that template's success reply and hands off, and nothing follows; an error ends the client with 05 01; an early close ends it bare |
| `Outcomes.ConnectExchange` | index.js:54-166 | A full exchange: on success, 05 00, then the reply echoing the address with REP 0, then the handoff. On a dial error, 05 00 then 05 01 and end. On an early close, 05 00 then a bare end |
| `Outcomes.ConnectToLoopback` | index.js:106-148 | `05 01 00` + a CONNECT to 127.0.0.1:80, split in any way, yields 05 00, then `05 00 00 01 7F 00 00 01 00 50`, then a handoff to host "127.0.0.1", port 80 |
| `Outcomes.NoAcceptableMethod` | index.js:81-82 | a greeting offering only method 2 is answered with 05 FF and the client is ended; nothing sent afterwards changes that |
| `Outcomes.RejectedStays` | index.js:56-82 | a handshake refused for its version (index.js:56-62) or with 05 FF (index.js:81-82) stays refused and the client sees nothing more, whatever arrives later |
| `Outcomes.DomainDialFails` | index.js:114-160 | a CONNECT to example.com:443, split in any way, dials the name as sent and port 443; a dial error then gives 05 00, 05 01 and no handoff |
| `Outcomes.DomainFails` | index.js:114-160 | the same for any domain name the length byte can announce |
| `Outcomes.SplitRequestAsWritten` | index.js:71-77 | as written, the chunks `05 01 00 05` and `01 00 01 7F 00 00 01 00 50` end the client with no reply after 05 00 |
| `Outcomes.AsWrittenAgrees` | index.js:45-83 | the handshake handler as written acts exactly as the corrected one on every chunk except one that completes an accepted greeting with bytes behind it |
| `Outcomes.FeedAgreesAfterHandshake` | index.js:45-172 | once past the handshake, any sequence of chunks runs exactly the same through the program as written and the corrected model |
| `Outcomes.GreetingAloneAsWritten` | index.js:45-172 | as written, a stream whose first chunk is exactly an acceptable greeting runs exactly as the corrected model, whatever follows |
| `Outcomes.ScenarioAAsWritten` | index.js:54-148 | as written, `05 01 00` in a chunk of its own, then a CONNECT to 127.0.0.1:80 split in any way, yields 05 00, then `05 00 00 01 7F 00 00 01 00 50`, then a handoff to host "127.0.0.1", port 80 |
| `Outcomes.OneChunkAsWritten` | index.js:71-77 | as written, the same bytes in one chunk reach the forwarding phase |
| `Outcomes.SplitRequestKept` | index.js:71-74 | with the leftover kept, the split stream reaches forwarding with only 05 00 written |
| `Connection.FindNoAuth` | index.js:66-68 | the scan finds method 0 exactly when it is among the announced methods |
| `Connection.DecodeTarget` | index.js:102-135 | the address-type table reports an unknown type exactly when the request is refused for it, and an incomplete encoding exactly when the request must wait; otherwise it gives the decoded host and port and the template length |
| `Connection.CopyPrefix` | index.js:110-111 | the new template array is fresh and holds exactly the first `len` bytes of the buffer |
| `Connection.MarkSucceeded` | index.js:142-143 | the template array in place becomes the success reply of its old contents |
| `Connection.Session.constructor` | index.js:41-53 | a new session is the fresh state: handshake, no buffer, nothing queued, no dial, listening, nothing written |
| `Connection.Session.Send` | index.js:69 | `client.write` (also at index.js:144) moves the object exactly as `Machine.ClientWrite` moves its client |
| `Connection.Session.Close` | index.js:61 | `client.end` (also at index.js:82, 93, 99, 134, 160 and 164) moves the object exactly as `Machine.ClientEnd` moves its client |
| `Connection.Session.OnData` | index.js:45-47 | a 'data' event moves the object exactly as `Machine.OnData` |
| `Connection.Session.HandleHandshake` | index.js:54-83 | the handshake handler moves the object exactly as `Machine.HandshakeData` |
| `Connection.Session.HandleRequest` | index.js:86-168 | the request handler moves the object exactly as `Machine.RequestData` |
| `Connection.Session.StartDial` | index.js:137-167 | a fresh `responseBuf` holds the template, `buffer` holds the rest, the phase is forwarding, the client is paused, and a dial to the host and port is pending; log and queue are unchanged |
| `Connection.Session.OnConnect` | index.js:141-157 | the connect callback moves the object, and the template array it changes in place, exactly as `Machine.OnConnect` |
| `Connection.Session.HandOver` | index.js:145-157 | after the reply, the client is detached and resumed and the handoff is logged. `connected` is set. A non-empty leftover is dropped. A queued chunk sets `threw`. The queue is unchanged, because line 157 is reached only when it is already empty. Nothing else changes |
| `Connection.Session.OnDialError` | index.js:158-161 | the error listener moves the object exactly as `Machine.OnDialError` |
| `Connection.Session.OnDialClose` | index.js:162-166 | the close listener moves the object exactly as `Machine.OnDialClose` |

## Left out

- The server (index.js:8-32) is not modelled: the module export with its
  default port and host, the listening socket and its debug output. The
  session starts at `handleConnection` (index.js:40).
- `_debug` logging is not modelled. It has no effect on the session.
- The 'connected' event is a `Handoff` entry in the log. The relay that listens
  to it belongs to the embedding program, and is not part of this model.
- `net.createConnection` is not modelled. No DNS, no TCP. Its three callbacks
  are methods or functions that the environment may call, in any order and any
  number of times. `connected`, `errorSeen` and `closeSeen` carry the
  once-semantics of `once`.
- The domain name is kept as the raw bytes sent (`HostName`) rather than decoded
  from UTF-8. The IPv6 host is the 16 raw bytes (`HostRaw`), as the source passes
  a Buffer.
- `client.pause()` and `client.resume()` are the flag `paused`. Node's flow
  control around them is not modelled. In Node, no 'data' event fires while the
  client is paused (index.js:167), and the listener is removed (index.js:145)
  before `resume()` (index.js:147). So the running program never calls the
  forwarding handler during the dial, `proxyBuffers` stays empty, and the
  ReferenceError at index.js:155 is not reached; bytes sent during the dial stay
  in the socket for the 'connected' consumer. The model lets a chunk arrive while
  paused, which is what `Machine.ReplayDependsOnSplit`'s throw relies on.
- The client's 'end' and 'error' listeners are empty in the source and have no
  counterpart beyond the write-after-end gate described above.
- `Machine.OnConnect` does not model the process dying. The replay block
  (index.js:150-156) is modelled as written:
  - `client.emit(buffer)` emits an event named by the buffer's text, which
    normally no one listens for, so the leftover is dropped;
  - the loop reads `proxyBuffers[i]` with an undeclared `i`, which throws a
    ReferenceError as soon as one chunk is queued. That throw is recorded as the
    flag `threw`, with the queue left in place.

  No gapless-replay property is claimed. The comment at index.js:154 says the
  loop is meant to re-emit any leftover data for the proxy to handle; the code
  does not do so.
- `Machine.OnConnect` does not model a leftover whose bytes spell the name of an
  event that has listeners (`data`, `end`, `error` or `close`). EventEmitter looks
  up `client.emit(buffer)` under the buffer's text, so such a leftover runs those
  listeners: the empty ones at index.js:49-50, or the relay's 'data' listener
  attached at index.js:148. The model drops every leftover.
- `Machine.OnDialError` follows the code. A dial failure writes exactly
  `05 01` and ends the client. The reply of section 6 of RFC 1928 also carries
  RSV, ATYP, BND.ADDR and BND.PORT after REP; the code does not send them.
- `Machine.OnData`, and with it `Machine.FeedAll`, `Machine.TwoChunks`,
  `Machine.ChunkingInvariant` and every `Outcomes` lemma whose name does not
  end in `AsWritten`, runs the handshake handler with line 76 corrected. The
  program as written does not have their chunking properties:
  - a chunk that ends inside the request right after the greeting makes the
    request be misread (`Outcomes.SplitRequestAsWritten`);
  - bytes sent behind a CONNECT in the greeting's own chunk are lost, since
    line 76 clears the rest the request handler holds.

  Where the program as written does agree is proved too: `Outcomes.AsWrittenAgrees`
  (every chunk but one completing a greeting with bytes behind it),
  `Outcomes.FeedAgreesAfterHandshake`, `Outcomes.GreetingAloneAsWritten` (a greeting
  in a chunk of its own, then anything) and `Outcomes.ScenarioAAsWritten`.
- `Connection.Session.HandleHandshake` implements the corrected handler
  (`Machine.HandshakeData`). Line 76 as written is modelled only as the
  function `Machine.HandshakeDataAsWritten`.

## Findings

| source | as written | input that shows it | evidently intended | confidence | as-written member | corrected member |
|---|---|---|---|---|---|---|
| index.js:76 | After an accepted greeting, `buffer = null` runs even when line 74 has already passed the greeting's leftover to the request handler. That handler may have stored a partial request in `buffer`, which is then lost, so the next chunk is read as the start of the request | chunks `05 01 00 05` then `01 00 01 7F 00 00 01 00 50`: the client gets 05 00, then the request is refused for its version (`01`) and the client is ended | the leftover is kept, so the request is read from its first byte and a split stream negotiates exactly like the same bytes in one chunk | not executed | `Outcomes.SplitRequestAsWritten` | `Machine.ChunkingInvariant` |
