# Pico CAN Bridge: verified model

The firmware is a USB network adapter with a small HTTP and WebSocket server in front of a CAN
controller. This project models the parts of it that carry its guarantees and proves them with Dafny.
`dafny verify dfyconfig.toml` checks everything.

## The parts

* **Handshake digest** (`Sha1Spec`, `Sha1`, `Sha1Example`, `Base64`, `Headers`, `Accept`). `Sha1Spec` is FIPS 180-4 for
  one message; `Sha1` is the context with its 64-octet buffer, updated in place, and is proved to
  compute it; `Sha1Example` works out the digest of "abc", so that the definition itself is the
  published one. Words are 32-bit vectors, the bit counter wraps as in the code. The Base64 encoder is
  proved against an RFC 4648 decoder, the header scanner against a split into lines.
* **WebSocket engine** (`WsFrames`, `WsStream`, `WsWire`, `WsEngine`). `WsStream` says what a client's
  frames mean and how RFC 6455 lays them out, `WsFrames` what the server may write, `WsWire` what is on
  the wire when sends fail. `WsEngine` is the session: it reads from the upgrade leftover, then the
  socket, and its invariant ties acts done, octets unread, octets written and what the bridge was
  given and has answered together.
* **HTTP thread and user page** (`Net`, `HttpRequest`, `HttpReplies`, `HttpServer`, `HttpSessions`,
  `HttpClient`, `Storage`, `FsStatus`), from the accepted descriptor to its close, with short reads and
  short writes everywhere. `HttpReplies` gives every answer octet for octet; `HttpClient` is the other
  side: what the server makes of requests as clients write them, and what clients read in its answers.
* **The single-client slot** (`WsSlot`): HTTP thread, WebSocket thread and receive callback as one state
  machine with one access to shared state per step.
* **CAN bridge** (`CanFrames`, `CanMachine`, `CanRuns`, `CanBridge`, `CanJson`, `CanRx`). `CanMachine` is
  the state machine of message handler, TX worker and initialization; `CanRuns` holds the theorems about
  all its runs; `CanBridge` is the code, where every access to shared state is recorded as a step of a
  machine run and any number of steps of the other threads may come between two accesses.
* **mDNS announcement** (`DnsMessage`, `Mdns`): the packet builder with back-patched lengths against an
  RFC 1035 reader.
* **USB recovery** (`UsbMachine`, `UsbNcm`): callbacks, delayable work items and time.

`Bytes` and `Decimal` hold octet and number helpers.

## How the environment is modelled

* A socket delivers or accepts 1 to n octets, or none, at every call; ghost flags remember whether a
  call ever transferred nothing, so that "unless a send fails" can be said. The file system works the
  same way: it may read or write any number of octets and may fail at any call, and its faults are
  counted.
* The CAN driver chooses its results freely, except that a start returns -EALREADY exactly on a started
  controller and a stop exactly on a stopped one. A failing start or stop may leave either state; a
  failing `can_set_mode` or `can_set_bitrate` leaves its setting alone.
* Threads are interleaved at every access to a shared flag, queue, mutex or driver call. In the CAN
  bridge three places take several accesses in one step because no other thread can tell: recording a
  pair and setting the flag inside the mutex, leaving the mutex and answering, and reading the
  controller's state between lock and unlock. Runs are lists of enabled steps, so a claim about all
  runs is a claim about all interleavings.
* Endless loops are stopped after any number of turns, and the claim holds at that moment.
* Time passes in steps that do not jump over the due time of a pending work item.

## Where the code does not do what one would expect

* The result of sending a pong is ignored (src/http_server.c:783-787). If that send fails half-way and
  a later one works, the output is no longer a sequence of frames. `WsWire.BoundariesLostByCutPong` is
  the exact condition; `HttpSessions.RunSession` gives what holds otherwise.
* `can_config_failed` is not the same as "the recorded configuration is unchanged": a successful
  request for the recorded pair changes nothing. The two are the same, over all runs, exactly for
  requests that ask for another pair (`CanRuns.FailedIffUnchanged`). After a failure past
  `can_set_mode` the recorded pair is kept but the controller may have another one: a request is sure
  to leave the two in agreement exactly if it asks for the pair they have (`CanRuns.AgreeIffSame`);
  which failures do so is told by `CanRuns.AgreementAfterFailure`, and what the controller has by
  `CanRuns.AnswersTruthful`.
* A configuration that was applied is answered with `can_status_failed` when the controller's state
  cannot be read afterwards (src/can_bridge.c:147-150, 472). So an error answer is sure to mean that
  nothing was recorded exactly for requests that ask for the recorded pair (`CanRuns.ErrorIffSame`).
* Content-Length is accumulated in 32 bits, so 4294967296 counts as 0 (`HttpServer.LengthIsHonoured`,
  `HttpServer.WrappedLength`). An empty Content-Length value also counts as 0.
* The announcement builder does not look at the size it is given. The 384-octet packet is large enough
  exactly for host labels up to 44 octets (`Mdns.FitsPacket`); longer labels are excluded by the
  precondition of `Mdns.Packet.Build`.
* Without a default interface the network work gives up and does not converge
  (`UsbMachine.ConvergesWithInterface`).
* The watchdog asks for the ready flag, which an address event sets even while the interface is down.
  After such an event a board may be configured, have no address and have nothing pending
  (`UsbMachine.RescuedExactlyIfNotStale`, `UsbMachine.StaleExactlyBy`), which is not what
  docs/known-issues.md:16-18 promises.
* The flag is also cleared by a loss of USB, while the address goes only with the interface. If USB is
  back before the network work has taken the interface down, no address event comes, and the board is
  rebooted although it has its address (`UsbMachine.KeepsAddressExactly`,
  `UsbMachine.MistakenExactlyBy`).
* docs/known-issues.md:94-97 limits the server to text, close and ping/pong. The code takes a continuation
  frame for a text of its own, ignores FIN and the reserved bits, closes on a pong, and accepts control
  frames up to 256 octets; the model follows the code.
* docs/protocol.md:175 forbids data in remote frames; a received remote frame is nevertheless printed
  with `dlc` octets of data (`CanRx.RemoteEcho`).

## Model

| member | source | states |
|---|---|---|
| `Sha1Spec.ZerosLeast` | src/http_server.c:485-487 | the number of zero octets used in padding is the least that satisfies section 5.1.1 of FIPS 180-4, and is below 64 |
| `Sha1Spec.PadIsWhole` | src/http_server.c:476-492 | a padded message is a whole number of 64-octet blocks |
| `Sha1.OrFormsAreFips` | src/http_server.c:414-426 | the OR forms of Ch and Maj that the rounds use are the XOR forms of section 4.1.1, for all words and all 80 rounds |
| `Sha1.IndexOfCount` | src/http_server.c:456 | the buffer index computed from the 64-bit bit counter is the octet count modulo 64, even when the counter has wrapped |
| `Sha1.CountStep` | src/http_server.c:458 | the 32-bit product in the counter update loses nothing for chunks below 2^29 octets |
| `Sha1.ZeroStep` | src/http_server.c:485-487 | the padding loop is at index 56 exactly when it has written the required number of zeros |
| `Sha1.Sha1Ctx.constructor` | src/http_server.c:443-452 | a fresh context represents the empty message |
| `Sha1.Sha1Ctx.Schedule` | src/http_server.c:392-401 | the 80-word array holds the message schedule W of section 6.1.2 |
| `Sha1.Sha1Ctx.RunRounds` | src/http_server.c:403-434 | the rotating-register loop computes the recurrence of section 6.1.2 |
| `Sha1.Sha1Ctx.Transform` | src/http_server.c:383-441 | the state words become the compression of the old ones with the block |
| `Sha1.Sha1Ctx.Update` | src/http_server.c:454-474 | state, counter and buffer represent the old message followed by the chunk, whatever the old fill level |
| `Sha1.Sha1Ctx.Absorb` | src/http_server.c:460-473 | the copy loop keeps "state = hash of the whole blocks, buffer = the rest" across any cut |
| `Sha1.Sha1Ctx.CopyChunk` | src/http_server.c:464 | copying into the buffer extends the represented message by exactly the octets copied |
| `Sha1.Sha1Ctx.Flush` | src/http_server.c:469-472 | a full buffer is absorbed into the state and the represented message stays the same |
| `Sha1.Sha1Ctx.PadWithZeros` | src/http_server.c:481-487 | one 0x80 and zeros one at a time: the loop terminates and leaves exactly the padding of section 5.1.1 |
| `Sha1.Sha1Ctx.LengthBytes` | src/http_server.c:489-491 | the eight shifted octets are the big-endian bit length, and reading them back gives it |
| `Sha1.Sha1Ctx.WriteDigest` | src/http_server.c:495-500 | the 20 octets are the five state words, most significant octet first |
| `Sha1.Sha1Ctx.Final` | src/http_server.c:476-501 | the digest is the FIPS 180-4 SHA-1 of everything given to update |
| `Sha1.DigestChunks` | src/http_server.c:443-501 | for every list of chunks (each below 2^29 octets, together below 2^61), init, updates and final give the SHA-1 of the concatenation, wherever the cuts fall |
| `Sha1Example.AbcDigest` | src/http_server.c:383-501 | the definition is the one of FIPS 180-4: the digest of "abc" is a9993e36 4706816a ba3e2571 7850c26c 9cd0d89d, worked out round by round |
| `Bytes.ToBeAt` | src/http_server.c:489-491 | octet i from the right is the value shifted right by 8i bits |
| `Base64.AlphabetIsTable` | src/http_server.c:506-507 | the alphabet string is table 1 of RFC 4648 |
| `Base64.GroupRoundTrip` | src/http_server.c:511-529 | decoding an encoded group of one, two or three octets gives the group back |
| `Base64.DecodeEncode` | src/http_server.c:503-534 | an RFC 4648 section 4 decoder undoes the encoder, for every input |
| `Base64.Encode` | src/http_server.c:503-534 | the encoding of n octets has 4 * ceil(n / 3) characters |
| `Base64.Sextets` | src/http_server.c:511-529 | the four shifts and masks of a 24-bit group are its four sextets |
| `Base64.PutGroup` | src/http_server.c:511-529 | one iteration stores the four characters of its group and nothing before them |
| `Base64.EncodeSmall` | src/http_server.c:503-534 | succeeds exactly when the text and its NUL fit, and then the destination holds the Base64 text; otherwise -ENOMEM |
| `Accept.HashKey` | src/http_server.c:623-626 | the digest is the SHA-1 of the key followed by the RFC 6455 GUID |
| `Accept.AcceptLength` | src/http_server.c:628 | an accept value has 28 characters, so it always fits the 32-character buffer |
| `Accept.BuildWebsocketAccept` | src/http_server.c:606-629 | succeeds exactly for trimmed keys of 1 to 64 octets, and then the value is the one of RFC 6455 section 4.2.2 for the key of the first matching header line; otherwise -EINVAL |
| `Headers.NextCrlf` | src/http_server.c:560-578 | the search finds the first CRLF and never runs past the blank line |
| `Headers.LowerIsSame` | src/http_server.c:536-543 | lower case makes two octets equal exactly if they are equal or one letter in its two cases |
| `Headers.CaseEqual` | src/http_server.c:545-554 | true exactly when the name stands there before the end of the line, octet for octet or letter for letter in either case |
| `Headers.FieldAnyCase` | src/http_server.c:545-582 | the case in which a name is written makes no difference to what is found |
| `Headers.NamesByPrefix` | src/http_server.c:568 | "prefix equal and then a colon" says the same as "the text before the first colon is the name" |
| `Headers.FieldStep` | src/http_server.c:562-578 | one iteration of the scan is one line of the split-into-lines definition |
| `Headers.MatchLine` | src/http_server.c:568-576 | a line matches exactly when it names the field, and the pointer returned leads to its value |
| `Headers.SkipBlanks` | src/http_server.c:571-573 | leading spaces and tabs are skipped without leaving the line |
| `Headers.FindHeaderValue` | src/http_server.c:556-582 | finds a value exactly when some line of the split header section names the field, in whatever case, and then that of the first such line |
| `HttpClient.FieldLinesOf` | src/http_server.c:556-582 | splitting a section into field lines gives back the lines a client joined, for every request line and every list of lines |
| `HttpClient.FieldLineReads` | src/http_server.c:568-597 | a line written as name, colon, space and value names the field and has that value |
| `Headers.HeaderValueLen` | src/http_server.c:584-597 | the length ends the value after its last non-blank octet |
| `HttpRequest.FindBlankMeans` | src/http_server.c:1094-1097 | the blank-line search gives the first blank line that no NUL precedes, and none only if there is none |
| `HttpRequest.FindBlankGrows` | src/http_server.c:1094-1097 | octets received later do not change a blank line already found |
| `HttpRequest.SectionFound` | src/http_server.c:1094-1114 | a blank line found in the octets received so far is the first of the whole stream |
| `HttpRequest.ReceiveMore` | src/http_server.c:1077-1092 | one recv appends the next octets of the stream behind those held |
| `HttpRequest.ReadRequest` | src/http_server.c:1076-1114 | for every recv chunking: section, leftover and unread socket are the stream, cut after its first blank line; too large exactly when the first 1535 octets hold none; and the read is given up only if a recv fails |
| `Bytes.XorBit` | src/http_server.c:772-774 | a bit of the combined octet is set exactly if it is set in one of the two |
| `WsStream.MaskedTwice` | src/http_server.c:772-774 | masking twice with the same key is the identity |
| `WsStream.MaskedHello` | src/http_server.c:725-774 | the masked frame of RFC 6455 section 5.7 is read as the text "Hello" |
| `WsStream.ActOfOpcode` | src/http_server.c:776-797 | of the frames served, opcodes 0 and 1 are texts, 9 is answered, 8 is echoed; every other frame is refused |
| `WsStream.LengthOfClient` | src/http_server.c:725-757 | the reader recovers the payload length from all three length forms |
| `WsStream.FirstOfClient` | src/http_server.c:725-774 | one client frame is read as its opcode and unmasked payload, or refused exactly if unmasked, over 256 octets or in the 64-bit form |
| `WsStream.ActsAreMeant` | src/http_server.c:725-807 | for every list of client frames, any keys and length forms: the loop acts on the original payloads in order, up to and including the first frame that ends the session |
| `WsEngine.WsClient.constructor` | src/http_server.c:859-865 | a new session will read the upgrade leftover and then the socket |
| `WsEngine.WsClient.TakePending` | src/http_server.c:664-666 | octets are taken from the leftover in order, and the socket is not touched while any are left |
| `WsEngine.WsClient.FillFromSocket` | src/http_server.c:668-677 | exactly the missing octets are read, however recv cuts them |
| `WsEngine.WsClient.RecvExact` | src/http_server.c:660-680 | success gives exactly the next octets of leftover plus socket and removes them; it fails only if a recv fails |
| `WsEngine.WsClient.Unmask` | src/http_server.c:772-774 | the in-place loop computes the section 5.3 mask |
| `WsEngine.WsClient.ReadHeader` | src/http_server.c:725-757 | opcode, mask bit and length are those of the frame at the head of the stream |
| `WsEngine.WsClient.ReadBody` | src/http_server.c:760-774 | the payload buffer holds the unmasked payload and the stream continues after it |
| `WsEngine.WsClient.ReadFrame` | src/http_server.c:725-774 | one turn reads the first item of the stream and leaves the rest |
| `WsEngine.WsClient.Reply` | src/http_server.c:776-806 | each act is answered by the one frame due for it |
| `WsEngine.WsClient.Dispatch` | src/http_server.c:776-807 | the payload of a text or continuation frame is given to the bridge and its answer sent, a ping is answered by a pong with the same payload, a close is echoed, anything else is refused with an empty close; the bridge sees nothing else |
| `WsEngine.WsClient.ForwardRx` | src/http_server.c:704-711 | the frames sent are the texts the bridge handed out, in order, until it has none (or the given number); nothing is read |
| `WsEngine.WsClient.ServeFrame` | src/http_server.c:725-807 | one frame is read and acted on, unless receiving fails |
| `WsEngine.WsClient.Turn` | src/http_server.c:713-807 | a turn that goes on acts on one frame, or a poll found nothing; acts done so far plus acts of the unread octets stay the acts of the whole stream |
| `WsEngine.WsClient.EchoLoop` | src/http_server.c:682-808 | after any number of turns: the acts done are a prefix of those of the stream, and all of them once the session was closed or the stream is exhausted; the bridge was given their payloads; the answers in the output are those due; every turn has forwarded what the bridge had |
| `WsEngine.WsClient.SendParts` | src/http_server.c:652-657 | header and payload go out in order; on failure a proper prefix has |
| `WsEngine.WsClient.SendFrame` | src/http_server.c:631-658 | one frame is emitted; it is complete exactly when 0 is returned; payloads above 65535 octets are refused and nothing is sent |
| `WsFrames.FirstOfEncode` | src/http_server.c:631-658 | the frame written is a final, unmasked frame of minimal length encoding, and a reader finds its end |
| `WsFrames.EncodeOfFirst` | src/http_server.c:631-658 | whatever decodes to a frame is the encoding of that frame |
| `WsFrames.DecodeEncode` | src/http_server.c:631-658 | a stream of frames decodes to exactly those frames |
| `WsFrames.EncodeDecode` | src/http_server.c:631-658 | decoding is unique: no other octets decode to those frames |
| `WsWire.DueSays` | src/http_server.c:776-806 | the answers due, by number: a text (1) with the bridge's answer, a pong (10) with the payload of the ping, a close (8) with the payload of the close, or an empty close |
| `WsWire.OutputDecodes` | src/http_server.c:631-658 | without a send failure the output decodes to exactly the frames emitted |
| `WsWire.OutputIsPrefix` | src/http_server.c:631-658 | if nothing follows a frame cut short, the output is a prefix of the stream of frames |
| `WsWire.LoopOutputIsPrefix` | src/http_server.c:704-807 | the loop stops at every failed send but that of a pong, so without a cut pong the output is such a prefix |
| `WsWire.BoundariesLostByCutPong` | src/http_server.c:783-787 | at every moment of a session that goes on: the output is a prefix of the frame stream, whatever is sent next, if and only if no pong has been cut short |
| `WsWire.CutBreaks` | src/http_server.c:783-787 | after any frame cut short there is a next frame with which the output is no prefix of the frame stream |
| `HttpServer.Server.HandleWebsocket` | src/http_server.c:823-873 | fails exactly if the slot is taken, the key is not allowed or a send fails, and then leaves the slot as it was; otherwise the 101 response with the right accept value is out and the session will read leftover and socket, nothing truncated; if no response is due none goes out |
| `HttpServer.Server.SendUpgrade` | src/http_server.c:841-857 | the 101 response goes out whole, or an error is returned |
| `HttpClient.UpgradeAsked` | src/http_server.c:606-629 | a client that asks for /ws with a key of up to 64 octets, in a field named in any case, is due the 101 response with Base64(SHA-1(key, GUID)) |
| `HttpClient.ClientReadsUpgrade` | src/http_server.c:841-857 | a client that reads the 101 response finds Upgrade: websocket, Connection: Upgrade, and the accept value |
| `Base64.EncodeVisible` | src/http_server.c:503-534 | no encoded text holds anything a header field would trim or end at |
| `HttpServer.Server.WebsocketThread` | src/http_server.c:810-821 | the session loop runs, and ends with its descriptor closed once, streaming off and the slot free, on every way out; a poll, receive or send failure is reported only if there was one |
| `HttpSessions.RunSession` | src/http_server.c:682-821 | a whole session, also of a client that stops inside a frame: the bridge is given exactly the unmasked text payloads, in order, up to the first frame that ends it; without a send failure the output decodes to frames that, forwarded CAN frames removed, answer the client one for one, texts with what the bridge answered; without a cut pong it is a prefix of such a stream; each turn without a failure acts on one frame or finds nothing to read |
| `WsSlot.SlotKept` | src/http_server.c:810-873 | every step keeps: the slot is taken exactly while the HTTP thread is setting a session up or a WebSocket thread is awake, never both |
| `WsSlot.StreamKept` | src/http_server.c:810-873 | every step keeps: streaming is on only while a session owns the slot, and outside it the queue is empty |
| `WsSlot.SessionsKept` | src/can_bridge.c:168-193 | every step keeps: delivered plus queued frames are the kept arrivals of the session |
| `WsSlot.DescriptorKept` | src/http_server.c:1070-1341 | every step keeps: each accepted descriptor is closed once or owned by one thread |
| `WsSlot.InvAlways` | src/http_server.c:810-873 | all of these hold after every interleaving of HTTP thread, WebSocket thread and receive callback |
| `WsSlot.OneOwner` | src/http_server.c:823-873 | while a WebSocket thread is awake nobody else can claim the slot, overwrite the client or start a thread; a free slot has streaming off and an empty queue |
| `WsSlot.SessionsIsolated` | src/can_bridge.c:168-193 | every session has delivered, in order, only frames that arrived while it streamed and found fewer than eight waiting; no frame of an earlier session is delivered |
| `WsSlot.ClosedOnce` | src/http_server.c:1070-1341 | every accepted descriptor is closed at most once, and is unclosed exactly while one thread owns it |
| `Net.Socket.Recv` | src/http_server.c:356 | environment: the next 1 to max octets of the peer, or none |
| `Net.Socket.Send` | src/http_server.c:295 | environment: the next 1 to max octets are accepted, or none |
| `Net.Socket.SendAll` | src/http_server.c:287-309 | returns 0 exactly when all octets were accepted; otherwise a proper prefix was, and a send failed |
| `HttpReplies.HeadAnnounces` | src/http_server.c:319-328 | the printed header announces exactly the length given |
| `HttpReplies.PageHeadFits` | src/http_server.c:1282-1293 | the headers of a page and of the status always fit their 128-character buffers, for every length a size_t can hold |
| `HttpReplies.TextHeadFits` | src/http_server.c:319-328 | the header of a text response always fits its buffer for the statuses in use |
| `HttpReplies.OnlyCreatedSays201` | src/http_server.c:1198-1201 | no other answer, whole or cut short, puts on the wire what says 201 Created |
| `HttpClient.ClientReadsHead` | src/http_server.c:319-328 | a client that reads the header of any response finds its status, type and length |
| `HttpClient.ClientReadsBare` | src/http_server.c:1208-1211 | a response without a body has its status and one field |
| `HttpClient.ClientReadsPage` | src/http_server.c:1282-1293 | in front of a page a client finds 200, the HTML type, and the length of what follows |
| `HttpServer.Server.SendText` | src/http_server.c:311-335 | 0 means header and body went out whole; -ENOMEM means the header does not fit and nothing went out; -EIO means a send failed, and a prefix went out |
| `HttpServer.Server.Say` | src/http_server.c:1142-1201 | the text answer of an outcome goes out, or a prefix of it if a send fails |
| `HttpServer.ParseLength` | src/http_server.c:1150-1161 | accepts exactly digit strings, and gives their decimal value modulo 2^32 |
| `HttpServer.WrapStep` | src/http_server.c:1160 | the wrapping accumulator is the unbounded one modulo 2^32 |
| `HttpServer.LengthIsHonoured` | src/http_server.c:1160-1163 | the length used is the length declared if and only if the declared one is below 2^32 |
| `HttpServer.WrappedLength` | src/http_server.c:1160-1163 | a body declared as 4294967296 octets is taken to be empty |
| `HttpServer.Server.CheckLength` | src/http_server.c:1142-1184 | the first failing test decides the refusal, in order: header missing, not digits, too large, body longer than declared; otherwise the length is the declared one modulo 2^32 |
| `HttpServer.Server.Upload` | src/http_server.c:1132-1201 | refused by the first failing test, or 201 with the page being the declared number of octets after the blank line, or a failed write with its cause |
| `HttpServer.Server.StoreBody` | src/http_server.c:1186-1201 | the 201 text goes out only with the whole body stored; after a failure the 500 text does, the page is the old one or a prefix of the body, and the failure has its cause |
| `HttpServer.Server.SendPage` | src/http_server.c:1251-1301 | the page goes out as header with its length and stored octets; every refusal has its cause and its text |
| `HttpServer.Server.SendHeadAndPage` | src/http_server.c:1276-1300 | header and page go out whole, or a prefix of them, and then something failed |
| `HttpServer.Server.SendConstant` | src/http_server.c:1203-1341 | each remaining route has its own answer: the 204, the file system status as it is, the root page, the 404; whole unless a send fails |
| `HttpServer.Server.Respond` | src/http_server.c:1132-1340 | the route decides the answer; only uploads change the page |
| `HttpClient.ClientSees` | src/http_server.c:1116-1341 | each kind of answer is given exactly to requests that begin with its paths, whatever the order of the tests; an upgrade only with a key |
| `HttpClient.UploaderSees` | src/http_server.c:1132-1184 | what an upload is told, exactly by its Content-Length: missing, not digits, above 524288 modulo 2^32, or less than what came with the header |
| `HttpClient.UploadAsked` | src/http_server.c:1132-1201 | a client that announces up to 524288 octets, in a field named in any case, is not refused |
| `HttpServer.Server.TurnAway` | src/http_server.c:1081-1113 | a request too large is answered with the 431 text, one never completed with nothing, and the descriptor closed once |
| `HttpServer.Server.Answer` | src/http_server.c:1116-1341 | the descriptor is closed once unless the upgrade succeeds; refusals have their causes |
| `HttpServer.Server.HandleClient` | src/http_server.c:1070-1341 | for every recv and send chunking: the request is the stream up to its first blank line, its route decides the answer, the answer goes out octet for octet or as a prefix if something fails, a refusal has a cause the client or the environment gave, and the descriptor is closed exactly once unless handed to the WebSocket thread |
| `HttpSessions.PageKept` | src/http_server.c:1373-1383 | the page stays the same over any visits without an upload |
| `HttpSessions.StaysMounted` | src/storage.c:60-86 | a volume mounted at one visit is mounted at every later one |
| `HttpSessions.PutThenGet` | src/http_server.c:1132-1301 | a page answered 201 is the body the client sent, and what a later GET without an upload between delivers, octet for octet and announced with its length; and that GET does deliver it unless something fails in it, whatever failed before |
| `HttpSessions.VisitOne` | src/http_server.c:1070-1341 | the visit recorded is the one that took place: request, answer on the wire, page, failures and close are those of this socket and this server; a GET of a stored page is served unless something fails during the visit, and refusals have their causes |
| `HttpSessions.ServeAll` | src/http_server.c:1373-1383 | over every list of clients: every visit recorded took place, is answered on the wire and closed once or handed over; the page changes only in uploads, and no fault of the file system is left out |
| `HttpSessions.ServeClients` | src/http_server.c:1373-1383 | and what PutThenGet says holds of every PUT and later GET |
| `Storage.UserStorage.constructor` | src/storage.c:60-86 | nothing is mounted before the first use |
| `Storage.UserStorage.MountOnce` | src/storage.c:60-86 | at most one mount is ever attempted, and its result is the one reported from then on |
| `Storage.StatusFits` | src/storage.c:100-117 | the status text always fits its 192-character buffer |
| `Storage.UserStorage.FormatStatusJson` | src/storage.c:100-117 | the mount is attempted and the text tells the state of the mount and the figures |
| `FsStatus.StatusReads` | src/storage.c:100-117 | a reader of the status text finds the flags, the mount result and both figures |
| `Storage.UserStorage.UpdateSpace` | src/storage.c:36-58 | the figures are words of 32 bits, and 0 without a mounted volume |
| `Storage.UserStorage.UserIndexSize` | src/storage.c:119-144 | gives the length of the stored page, and fails only if there is none or the file system fails |
| `Storage.UserStorage.StreamUserIndex` | src/storage.c:146-188 | 0 means that the whole file went out; otherwise a prefix of it did |
| `Storage.UserStorage.SendFile` | src/storage.c:166-184 | the loop sends the file in order under short reads and short sends |
| `Storage.UserStorage.WriteUserIndexStream` | src/storage.c:190-288 | 0 means that the file is the first len octets of the body; after any failure past the open it is a prefix of the body; at most len octets are consumed; before the open the page is untouched |
| `Storage.UserStorage.PrepareDir` | src/storage.c:203-218 | 0 means that the directory is there, made if it was missing |
| `Storage.UserStorage.CopyBody` | src/storage.c:227-264 | the nested loop terminates with file equal to the octets taken, under short reads and short writes |
| `Storage.UserStorage.WriteChunk` | src/storage.c:242-257 | all of a chunk is appended in order under short writes, or a prefix of it |
| `Storage.BodyReader.Read` | src/http_server.c:337-363 | gives the next 1 to max octets of leftover plus socket |
| `Storage.BodyReader.CopyPending` | src/http_server.c:347-354 | the leftover is used up before the socket is read |
| `Mdns.Packet.PutU16` | src/http_server.c:875-879 | appends two octets, most significant first |
| `Mdns.Packet.PutU32` | src/http_server.c:881-887 | appends four octets, most significant first |
| `Mdns.Packet.PutBytes` | src/http_server.c:889-893 | appends the octets |
| `Mdns.Packet.PutLabel` | src/http_server.c:895-901 | appends a length octet and the label |
| `Mdns.Packet.PutName` | src/http_server.c:903-925 | appends the labels and the zero octet of RFC 1035 section 3.1 |
| `Mdns.Packet.PutRrHeader` | src/http_server.c:927-934 | appends type, class, time to live and length |
| `Mdns.Packet.Patch` | src/http_server.c:987 | overwrites one length field and nothing else |
| `Mdns.Packet.PutService` | src/http_server.c:1000-1004 | appends priority, weight, port and target |
| `Mdns.Packet.PutData` | src/http_server.c:986-1005 | appends the record data |
| `Mdns.Packet.PutCountedData` | src/http_server.c:983-1005 | appends the data behind a zero length and patches the length in; what stands before is untouched |
| `Mdns.Packet.PutRecord` | src/http_server.c:982-1006 | appends the whole record; the back-patched RDLENGTH is the length of its data |
| `Mdns.Packet.PutAddress` | src/http_server.c:1008-1011 | appends the address record, whose length is written beforehand |
| `Mdns.Packet.Build` | src/http_server.c:965-1014 | the packet is the layout of the intended announcement, and the offset returned is 160 + 5 times the length of the label |
| `Mdns.PatchedLength` | src/http_server.c:983-987 | patching turns the zero length into the right one in place |
| `Mdns.AnnouncementIsGood` | src/http_server.c:965-1014 | labels of 1 to 63 octets make a well-formed message |
| `Mdns.Layout` | src/http_server.c:965-1014 | the four records have the stated lengths and follow each other after the six header words |
| `Mdns.AnnouncementReads` | src/http_server.c:965-1014 | an RFC 1035 section 4.1 reader gets back exactly the intended header with ANCOUNT 4 and the PTR, TXT, SRV and A records |
| `Mdns.AnnouncementSays` | src/http_server.c:965-1014 | what it gets, label by label and number by number: names, classes, times to live, port 80, target and address |
| `Mdns.AnnouncementOctets` | src/http_server.c:973-1011 | on the wire: the flags and counts of the header, and the address octets in order at the end |
| `Mdns.FitsPacket` | src/http_server.c:1023 | the announcement fits the 384-octet packet if and only if the label has at most 44 octets |
| `DnsMessage.ReadNameOf` | src/http_server.c:903-925 | the reader recovers every name |
| `DnsMessage.TypeOnWire` | src/http_server.c:927-934 | the type field is 12, 16, 33 or 1 for the four kinds of data |
| `DnsMessage.ReadDataOf` | src/http_server.c:965-1014 | the reader recovers the data of all four record types |
| `DnsMessage.ReadRecordOf` | src/http_server.c:927-1011 | the reader recovers every record, using its RDLENGTH, and what follows it |
| `DnsMessage.ReadMessageOf` | src/http_server.c:965-1014 | the reader recovers every well-formed message |
| `CanFrames.Validate` | src/can_bridge.c:345-400 | a message passes exactly when it follows the field rules; otherwise the code names the first rule broken, in the order of the tests |
| `CanFrames.BuildFrame` | src/can_bridge.c:527-534 | the frame carries every field of the message and zeros beyond its data |
| `CanFrames.CarriesAll` | src/can_bridge.c:527-534 | two messages carried by the same frame agree in every field sent |
| `CanMachine.ApplyInit` | src/can_bridge.c:223-265 | initialization keeps the lock, ready and frame invariants and answers nothing |
| `CanMachine.ApplyText` | src/can_bridge.c:475-522 | taking a message keeps them |
| `CanMachine.ApplyTransmit` | src/can_bridge.c:539-547 | queueing and answering a frame keeps them |
| `CanMachine.ApplyCall` | src/can_bridge.c:431-449 | the four driver calls keep them and move no frame |
| `CanMachine.ApplyConfig` | src/can_bridge.c:402-473 | the success path keeps them and moves no frame |
| `CanMachine.ApplyRestart` | src/can_bridge.c:455-468 | the error path keeps them and moves no frame |
| `CanMachine.ApplyStatus` | src/can_bridge.c:138-166 | reading the controller and answering keeps them and moves no frame |
| `CanMachine.ApplyWorker` | src/can_bridge.c:195-221 | the worker keeps them and touches only queue, lock and its own frame |
| `CanMachine.OthersSameFrames` | src/can_bridge.c:195-548 | only taking, handing over, putting and answering a frame move one |
| `CanMachine.FifoKept` | src/can_bridge.c:195-548 | every step keeps: frames answered ok are those handed over, held and queued, in order |
| `CanMachine.RepliesKept` | src/can_bridge.c:475-548 | every step keeps: the frames answered ok are those of the ok answers |
| `CanMachine.InvKept` | src/can_bridge.c:195-548 | every step of every thread keeps the whole invariant |
| `CanMachine.InvAlways` | src/can_bridge.c:195-548 | the invariant holds after every interleaving of initialization, message handler and TX worker, with every driver result |
| `CanRuns.FramesConserved` | src/can_bridge.c:195-221 | in every run: frames answered ok = handed to the driver, then held by the worker, then queued, in FIFO order; at most eight are queued; every one of these frames obeys the id, dlc, RTR and data rules |
| `CanRuns.SectionsExclude` | src/can_bridge.c:211-213 | in every run: no frame is handed over inside a reconfiguration section, and the ready flag set means a started controller |
| `CanRuns.StartNeverAlready` | src/can_bridge.c:446-449 | in every run: the start of a reconfiguration never returns -EALREADY |
| `CanRuns.ConfigKept` | src/can_bridge.c:402-473 | every step keeps the account of recorded and controller pair |
| `CanRuns.ConfigAlways` | src/can_bridge.c:402-473 | that account holds after every run |
| `CanRuns.AnswersTruthful` | src/can_bridge.c:402-473 | in every run, of every answer: it starts from the pair of the last success before it; success means that the requested pair is recorded and is the controller's; `can_config_failed` means that the recorded pair is untouched and the controller has what the calls that succeeded made of the pair it really had before |
| `CanRuns.RecordedIsLastApplied` | src/can_bridge.c:451-453 | in every run the recorded pair is that of the last request answered as applied, or the initial one, but for the moment between recording and answering; between requests the controller has the pair that all calls so far left it with |
| `CanRuns.AgreementAfterFailure` | src/can_bridge.c:431-449 | in every run, if the two pairs agreed before a failed request, they still agree if and only if it failed no later than the mode call, or the calls that succeeded changed nothing |
| `CanRuns.ServedAlways` | src/can_bridge.c:402-473 | a request taken is worked on until it is answered, and no other answer comes between |
| `CanRuns.AnswerRecords` | src/can_bridge.c:402-473 | in every run the answer to a request is about the requested pair; the pair recorded with it is the old one after `can_config_failed`, the requested one otherwise; and the controller's is the one reached from what it had |
| `CanRuns.FailedIffUnchanged` | src/can_bridge.c:451-467 | for every reachable state in which a request can be taken: in all runs that go on with it, `can_config_failed` is answered exactly if the recorded pair is unchanged, if and only if the request asks for another pair than the recorded one |
| `CanRuns.AgreeIffSame` | src/can_bridge.c:431-467 | for every such state in which the two pairs agree: all runs that go on with the request leave them in agreement, if and only if it asks for the pair they have |
| `CanRuns.ErrorIffSame` | src/can_bridge.c:147-150 | for every such state: in all runs that go on with the request an error answer means that the recorded pair is unchanged, if and only if it asks for the recorded pair |
| `CanRuns.RequestApplied` | src/can_bridge.c:402-473 | from every such state there is a run in which any request is applied, with its status shown or reported as unreadable |
| `CanRuns.StartMayFail` | src/can_bridge.c:446-467 | from every such state there is a run in which any request fails and leaves the controller with the requested pair |
| `CanRuns.ReadyReached` | src/can_bridge.c:223-265 | such states are reached: by an initialization whose calls succeed, with the recorded pair the controller's |
| `CanRuns.DeadStays` | src/can_bridge.c:484-487 | with the ready flag clear between two messages no step sets it, changes a pair, answers ok or queues a frame: the queue can only lose its first frames |
| `CanRuns.DeadForEver` | src/can_bridge.c:484-487 | the same over every further run |
| `CanRuns.DeadExactlyBy` | src/can_bridge.c:457-468 | that state is entered exactly by a failed initialization or by a failed reconfiguration whose restart failed too |
| `CanBridge.Bridge.constructor` | src/can_bridge.c:223-265 | the bridge starts with an empty run, not ready |
| `CanBridge.Bridge.WorkerAccess` | src/can_bridge.c:195-221 | one access of the TX worker is one worker step, taken exactly if enabled |
| `CanBridge.Bridge.InitAccess` | src/can_bridge.c:223-265 | one access of the initialization is one step of the machine |
| `CanBridge.Bridge.AwaitLock` | src/can_bridge.c:429 | the mutex becomes free: the worker, if inside, leaves its section |
| `CanBridge.Bridge.TakeLock` | src/can_bridge.c:429 | the handler enters its section, or enters it again to restart |
| `CanBridge.Bridge.ReleaseLock` | src/can_bridge.c:456 | the handler leaves its section |
| `CanBridge.Bridge.ClearReady` | src/can_bridge.c:428 | the ready flag is cleared before the mutex is taken |
| `CanBridge.Bridge.EnterSection` | src/can_bridge.c:428-429 | the flag is cleared first, then the section entered |
| `CanBridge.Bridge.CallStop` | src/can_bridge.c:431-434 | an error other than -EALREADY goes to the error exit |
| `CanBridge.Bridge.CallSetMode` | src/can_bridge.c:436-439 | the controller's mode is set, or the error exit is taken |
| `CanBridge.Bridge.CallSetBitrate` | src/can_bridge.c:441-444 | the controller's bitrate is set, or the error exit is taken |
| `CanBridge.Bridge.CallStart` | src/can_bridge.c:446-449 | the controller is started, or the error exit is taken |
| `CanBridge.Bridge.Reconfigure` | src/can_bridge.c:431-449 | the calls are made in order until one fails, with the other threads running in between |
| `CanBridge.Bridge.Publish` | src/can_bridge.c:451-453 | the requested pair is recorded and the flag set inside the section |
| `CanBridge.Bridge.ReportStatus` | src/can_bridge.c:138-166 | the controller is read under the mutex; the answer is a status, or `can_status_failed`, on request or for the applied pair |
| `CanBridge.Bridge.Commit` | src/can_bridge.c:451-472 | success is answered with the pair recorded, shown or reported as unreadable |
| `CanBridge.Bridge.LeaveAndReturn` | src/can_bridge.c:456-460 | the section is left and entered again for the restart |
| `CanBridge.Bridge.CallRestart` | src/can_bridge.c:460-461 | the restart is made in a section of its own |
| `CanBridge.Bridge.Leave` | src/can_bridge.c:461-467 | the flag is set exactly if the restart worked; the answer is `can_config_failed` |
| `CanBridge.Bridge.Recover` | src/can_bridge.c:455-468 | the error exit answers with the recorded pair untouched |
| `CanBridge.Bridge.HandleConfigSet` | src/can_bridge.c:402-473 | one answer: applied means recorded = wanted = the controller's pair; failed means recorded as before and the controller with what the calls before the failure set; no frame is answered |
| `CanBridge.Bridge.LastAnswerTruthful` | src/can_bridge.c:402-473 | the account of all runs applies to the answer just given |
| `CanBridge.Bridge.ActualIsLast` | src/can_bridge.c:402-428 | when a request begins the controller has the pair that all calls so far left it with |
| `CanBridge.Bridge.Enqueue` | src/can_bridge.c:539-547 | ok is answered exactly if the queue had room, and then this frame is in it |
| `CanBridge.Bridge.AnswerQueued` | src/can_bridge.c:547 | the answer names the frame that was queued |
| `CanBridge.Bridge.Send` | src/can_bridge.c:522-547 | refused exactly if the rules are broken, with the broken rule; ok only with a frame that carries the message |
| `CanBridge.Bridge.Serve` | src/can_bridge.c:504-548 | a parsed message is served by its type |
| `CanBridge.WantedIs` | src/can_bridge.c:409-426 | a setting is refused exactly for a bitrate that is not positive or a fourth mode name; otherwise each name means its mode, and absent fields keep what was recorded |
| `CanBridge.Bridge.HandleWsText` | src/can_bridge.c:475-548 | exactly one answer, of the kind that ready flag, length, parse result, type and rules call for, and it says what was done; after success the recorded pair is, mode name by mode name, the one asked for |
| `CanBridge.FormatTxResponse` | src/can_bridge.c:309-343 | for every validated message the text fits 512 characters, so -ENOMEM cannot be returned, and a reader of the schema finds id, both flags, dlc, data and time of the message |
| `CanJson.Snprintk` | src/can_bridge.c:273-277 | stores as much as fits and returns the whole length |
| `CanJson.AppendItems` | src/can_bridge.c:286-297 | all items are appended with commas between them, exactly if they fit |
| `CanJson.Print` | src/can_bridge.c:267-343 | the append-style printer succeeds exactly if the whole text fits, and then the buffer holds it; otherwise -ENOMEM |
| `CanJson.ReadText` | src/can_bridge.c:267-343 | reading inverts printing for every record, so distinct records never share a text |
| `CanJson.TextFits` | src/can_bridge.c:267-343 | every text for a frame or validated message is below 512 characters |
| `Decimal.ReadDec` | src/can_bridge.c:267-343 | a printed number is read back whatever non-digit follows |
| `CanRx.RecordIsSmall` | src/can_bridge.c:278-307 | every received frame makes a record that fits |
| `CanRx.TextsTellFramesApart` | src/can_bridge.c:267-307 | received frames with equal texts at equal times are equal in id, flags, dlc and data, remote frames included |
| `CanRx.RemoteEcho` | src/can_bridge.c:290-297 | the answer to a remote frame and its reception list the same data exactly if dlc is 0 |
| `CanRx.RxBridge.Callback` | src/can_bridge.c:168-181 | a frame is queued exactly if streaming is on and fewer than eight are waiting |
| `CanRx.RxBridge.SetStreaming` | src/can_bridge.c:183-193 | the switch leaves an empty queue either way |
| `CanRx.RxBridge.FormatNextRx` | src/can_bridge.c:267-307 | the oldest frame is taken and always printed whole: a reader finds its id, both flags, dlc, that many octets of data, and the time; -EAGAIN exactly if none waits |
| `UsbMachine.OnUsb` | src/main.c:132-169 | every message keeps "interface follows the flag or its work is pending" and "solid LED means address" |
| `UsbMachine.OnNetworkWork` | src/main.c:56-85 | so does the network work |
| `UsbMachine.OnWatchdog` | src/main.c:100-112 | so does the watchdog |
| `UsbMachine.RecoveryKept` | src/main.c:100-169 | every step keeps: should-run and not ready means watchdog pending |
| `UsbMachine.InvAlways` | src/main.c:56-234 | all of these hold after every run of callbacks, work items and time |
| `UsbMachine.NeverStuck` | src/main.c:132-169 | in every run: should-run, not flagged ready and no reboot means that the watchdog is due exactly 6 s after the last configuration, resume or VBUS-ready message, and that time has not passed |
| `UsbMachine.TimePasses` | src/main.c:100-112 | in every reachable state without a reboot due work can run or time can pass, so the 6 s do end |
| `UsbMachine.RebootOnlyInNeed` | src/main.c:100-112 | a reboot happens exactly when the watchdog fires on a board that should run and is not flagged ready, 6 s after the last such message |
| `UsbMachine.ForgottenExactlyBy` | src/main.c:141-157 | the flag is cleared on a board that keeps its address exactly by a loss of USB, and the network work ends that by taking the interface down |
| `UsbMachine.MistakenExactlyBy` | src/main.c:132-169 | such a board comes to be up without knowing its address exactly by a configuration, resume or VBUS-ready message before the network work |
| `UsbMachine.KeepsAddressExactly` | src/main.c:100-169 | in every reachable state: left alone, a board is never rebooted while it has its address, if and only if it is not in that state |
| `UsbMachine.MistakenIsRebooted` | src/main.c:100-112 | from every such state there is a run without any message that reboots the board with its address |
| `UsbMachine.ConvergesWithInterface` | src/main.c:56-98 | over all runs "nothing pending" implies "interface is as asked" if and only if there is a default interface |
| `UsbMachine.NoInterfaceRun` | src/main.c:63-67 | a concrete run without a default interface that does not converge |
| `UsbMachine.StaleExactlyBy` | src/main.c:202-234 | the ready flag stops telling of an address since the interface went up exactly by an address event handled while the interface is down |
| `UsbMachine.RescuedExactlyIfNotStale` | src/main.c:56-112 | in every reachable state: whatever comes but another address, a board that should run and has had no address since its interface went up has its watchdog pending, if and only if the flag is not stale |
| `UsbMachine.StaleIsForgotten` | src/main.c:100-112 | from every state with a stale flag there is a run after which the board should run, has no address and nothing pending |
| `UsbMachine.SolidMeansReady` | src/main.c:202-234 | in every run a solid LED means the ready flag, and the HTTP server started or about to be |
| `UsbNcm.Board.constructor` | src/main.c:23-30 | the board starts down, blinking, with nothing pending and an empty run |
| `UsbNcm.Board.Promises` | src/main.c:56-234 | at every moment of every run: reboot due within 6 s if not ready, solid LED only if ready, and with an interface nothing pending only if it is as asked |
| `UsbNcm.Board.Wait` | src/main.c:100-112 | time passes, but not past the due time of a pending work |
| `UsbNcm.Board.SetNetworkState` | src/main.c:87-98 | scheduling does not move a pending work; going down cancels, reschedules at once and drops the watchdog |
| `UsbNcm.Board.React` | src/main.c:132-169 | the body of usbd_msg_cb: what each kind of message does to flags, LED and both works |
| `UsbNcm.Board.OnMessage` | src/main.c:132-169 | configuration, resume and VBUS-ready ask for the network and set the watchdog to 6 s; errors, reset, suspend and VBUS loss clear the flags, drop the watchdog and take the network down at once; other messages do nothing; each is a step of the machine |
| `UsbNcm.Board.Down` | src/main.c:143-157 | the address is forgotten and the network taken down |
| `UsbNcm.Board.Resume` | src/main.c:158-164 | the network is brought up and the watchdog restarted |
| `UsbNcm.Board.OnAddress` | src/main.c:202-234 | any number of autoconfigured addresses has the effect of one; none has no effect |
| `UsbNcm.Board.FollowFlag` | src/main.c:56-85 | the body of the network work is its step of the machine |
| `UsbNcm.Board.RunNetworkWork` | src/main.c:56-85 | the interface is brought to what the flag asks for, or the alarm is raised if there is none |
| `UsbNcm.Board.RunWatchdog` | src/main.c:100-112 | reboots exactly if should-run and not ready |
| `UsbNcm.Board.RunHttpWork` | src/main.c:114-130 | the HTTP server is started once |

## Left out

- HttpServer.Server.SendPage: does not repeat the check of the header length, which `HttpReplies.PageHeadFits` shows never to fail; the same goes for the root page and the status.
- Storage.UserStorage.UpdateSpace: what the file system reports as block size and counts is not tied to its contents.
- WsEngine.WsClient.ForwardRx: the loop that drains the receive queue is stopped after a given number of frames, because frames may keep arriving.
- WsEngine.WsClient.EchoLoop: the bridge it talks to remembers what it was given and answers with arbitrary texts below 512 octets; the contents of the answers are the subject of `CanBridge` and `CanJson`.
- CanBridge.Bridge.HandleWsText: error answers are modelled by their code, without message and error number, and a status by whether it could be read, without its figures.
- CanBridge.Bridge.ReportStatus: the same for the status after an applied configuration.
- CanBridge.Bridge.Commit: the same for the status after an applied configuration.
- Sha1.DigestChunks: nothing is said of chunks of 2^29 octets and more, for which the code's 32-bit product wraps, or messages of 2^61 and more, for which FIPS 180-4 defines no digest.
- Base64.EncodeSmall: the call with an empty source and an empty destination, which no caller makes, is excluded.
- Mdns.Packet.Build: labels above 44 octets with the 384-octet packet are excluded, as no run with the configured host name has them.
- The slot protocol (`WsSlot`) and the one-thread view of it (`HttpServer.Server`) are two models of the same lines; the first has the interleavings, the second the data.
- Preemption of the receive callback between its check and its put, and reuse of the thread object while a WebSocket thread is exiting.
- The receive callback is given frames of at most eight octets with a 32-bit identifier, as the driver promises; CAN FD is not configured.
- Zephyr itself: JSON parser (its result is an input: the fields found, absent ones zero, at most eight data numbers), littlefs, TCP/IP, work queues, priorities, stacks, time stamps, logging.
- Files are what was written to them; power loss, and what `fs_close` does after an error, are not modelled.
- Callbacks and work handlers of main.c are atomic; the 250 ms between alarm and cold reboot and the LED blinking itself are not modelled.
- The choice of the address to announce and the timing of announcements; socket set-up of the HTTP thread.
- USB descriptors, the web page, the example scripts, and the Zephyr patch.
- RFC 6455 fragmentation and the rules for control frames, which the code does not implement.
