# tunnel-lab: a Dafny model

tunnel-lab carries IP packets between one client and one server over WebRTC media, a
TLS stream or SIP messages. This project models the parts of it that are hand-written
protocol or state logic and proves their properties for all inputs and all runs.
`dafny verify dfyconfig.toml` checks everything.

The model has four parts.

**The SIP transport.** `SipText`, `SipWire`, `SipRoundTrip`, `SipGrammar`, `SipRequests`,
`SipExchange` and `SipTransactions` model the bytes: printing a header map in any
enumeration order, reading it back from the stream that has arrived and will arrive, the
grammar of what is read, and the requests and replies built on that (sections 7.3.1, 8.2.6.2 and 18.3 of RFC 3261,
MESSAGE from RFC 3428). `SipAuthentication` is the OPTIONS exchange that makes the
directional keys, over the same bytes and a connection that may break after any message.
`SipDuplex` and `SipDuplexRuns` model the protocol: two endpoints, each with a writer, a
reader and a responder over bounded queues, a wire lock and a pipe of any capacity, zero
included, over a connection that either end may close and that may break at any time. An
endpoint's sealed packet is modelled as the packet.

**Fragments.** `Fragments` is the splitter and the assembler as a class over two maps
with an explicit clock, and with any choice of the evicted id. `FragmentRuns` is its
whole-run theory against the history of arrivals. `MediaPath` is the sender's numbering
and the receive loop around the assembler. The network loses, repeats, delays and reorders.

**The network setup.** `Host` is the machine: routes with longest-prefix match, name
servers, kernel settings and firewall chains. Every command may fail, and then changes
nothing; cancellation may strike during any command. `UndoLog` is `add` and `Close`,
`MacSetup` and `LinuxSetup` are the two transactions, `NetworkSetup` chooses and undoes.
`Restoration` says what a log of undos owes to the original machine, part by part, so that
undos commute: every lasting route that is not the tunnel's, every route that leads to the
tunnel and did not come with its addresses, name servers, settings and chains; `UndoRuns`
and `NetworkRuns` are whole runs; `SplitRoutes` is what pins and split routes do to
longest-prefix match.

**Sessions.** `Errors` is the tree of wrapped and joined errors. `Session` is one tunnel
session and the reconnecting client. `ServeStream` and `ServeWebRTC` are the two servers
as step machines, `Bridge` is the packet bridge, `IpPackets` its length rules, `Device`
the TUN batch reader, `Streams` and `Framing` the length-prefixed stream.

Code that changes things step by step is a class or a method here, proved against a
specification function; concurrent code is a step machine whose runs are all
interleavings.

## What the proofs say that the code does not show

- **SIP delivery.** A write that returned nil can lack its packet in the peer's `rx` in one
  more way than a full `rx`: the endpoint is closed while its reader stands between the
  enqueue to `responses` and the enqueue to `rx`. `SipDuplexRuns.ReturnedWithoutDelivery`
  is the exact condition over whole runs, `SipDuplexRuns.AcknowledgedThenLost` a run that
  does it with an empty `rx`.
- **SIP replies.** The parser lets a lone carriage return inside a header value through
  and the printer refuses it, so `reply` fails on exactly the messages in which one of the
  five copied fields holds one (`SipTransactions.ReplyRefusedIff`); such a message is
  `SipTransactions.TaintedIsRead`. No message printed by `request` is one.
- **Id reuse.** A push goes wrong exactly when it meets an entry of its id that an earlier
  push opened, that is not over two seconds old, and that it does not fit
  (`FragmentRuns.IntegrityIff`). Before the 32-bit counter wraps that cannot happen. After
  it, a gap of two seconds between the fragments of two packets with one id is enough, and
  without it the sender's packets `no` and `no + 2^32` can be glued together
  (`FragmentRuns.UnsafeReuseMixes`).
- **WebRTC shutdown.** If the offers in progress return within three seconds, the server
  returns after its last session (`ServeWebRTC.ReturnJoins`). If they do not, a session can
  begin after the server has returned: exactly when some offer is then still in its request
  handler and not being dropped (`ServeWebRTC.LateSessionIff`), as in the run
  `ServeWebRTC.LateSession`. It issues no command (`ServeWebRTC.NoCommandAfterReturn`).
- **POSTROUTING.** `-A` then `-D` gives the chain back exactly when every copy of the rule
  already in it stood at its end (`NetworkRuns.MasqueradeAndBack`); it is always the same
  multiset. FORWARD is always exact, in whatever order the deletes succeed.
- **Pins.** A pin that took the place of an entry the kernel had cloned does not bring that
  entry back when it is undone (`NetworkRuns.PinAndUnpin`). "Restored" therefore speaks of
  lasting routes, and of the tunnel's. Without cloned entries the table is the original one
  but for the routes of the tunnel's own addresses, which go away with the interface
  (`NetworkRuns.RoutesExact`); no split route is left.
- **Stream framing.** After a write that stopped half way, the next packet can be taken for
  the rest of the cut one (`Framing.WrittenBehindCut`), so the promise of the stream ends with
  the first failing call (`Framing.SentAreRead`). The bridge makes no further one.
- **Retrying.** `Close` keeps failed undos for a later call (`network.go:81`), and the log
  theorems hold for any number of calls. But a failed `Setup` returns no manager
  (`network.go:108`), and a session calls `Close` once, so in the program nobody retries:
  what is left is what the error reports (`NetworkSetup.Setup`, `Session.RunTun`).

## Model

| member | source | states |
|---|---|---|
| Fragments.SplitPacket | internal/transport/fragments.go:12-26 | One fragment for each started 900 bytes, each with magic, id, index, count and its slice of the packet. |
| Fragments.SplitIs | internal/transport/fragments.go:12-26 | Up to 900 bytes are one part; up to 1280 are the first 900 and the rest. |
| Fragments.DecodeEncode | internal/transport/fragments.go:39-48 | The header checks accept exactly what the splitter writes and read its fields back. |
| Fragments.DecodeIff | internal/transport/fragments.go:39-48 | By the bytes: TL01, id, index and count with the high byte first, and the only part of 1 to 900 bytes, the first of two of 900, or the second of two of 1 to 380. |
| Fragments.Assembler.ExpireEntries | internal/transport/fragments.go:53-62 | Both loops together drop exactly the entries older than two seconds, in any order of visiting. |
| Fragments.Assembler.AcceptFragment | internal/transport/fragments.go:63-96 | The new maps and the result are the specification's, for some id that the full filter may drop. |
| Fragments.Assembler.Push | internal/transport/fragments.go:38-97 | Every call is one step of the history machine, error cases included. |
| FragmentRuns.RunInvariant | internal/transport/fragments.go:28-97 | After every push: at most 64 pending entries, each of two parts with one present; at most 4096 completed ids; disjoint keys; nothing older than two seconds after a push that passed the checks; emitted packets of 1 to 1280 bytes. |
| FragmentRuns.AtMostOnce | internal/transport/fragments.go:58-65 | With a clock that does not go back, an id is emitted twice only after two seconds, or after the full filter dropped that id in between. |
| FragmentRuns.EvictsWhenFull | internal/transport/fragments.go:88-94 | An id is dropped only from a filter of 4096. |
| FragmentRuns.EmissionIff | internal/transport/fragments.go:53-86 | A push emits if and only if it is an admitted one-part packet, or some earlier push opened its entry, nothing closed it since, and this is the other part within two seconds. |
| FragmentRuns.CompletionEmits | internal/transport/fragments.go:80-96 | The emitted bytes are the two parts in index order, whichever came first. |
| FragmentRuns.SilentWhileOpen | internal/transport/fragments.go:63-85 | Between opening and completion nothing is emitted for the id. |
| FragmentRuns.OpenIsPending | internal/transport/fragments.go:66-85 | The entry of an opened packet stays as it was opened until its other part arrives or it expires. |
| FragmentRuns.PendingIsOpen | internal/transport/fragments.go:66-85 | Every pending entry was opened by a push in the history and has been left alone since. |
| FragmentRuns.FirstIsAdmitted | internal/transport/fragments.go:63-78 | The first fragment of an id is taken if and only if fewer than 64 packets are waiting, and changes nothing otherwise. |
| FragmentRuns.SentArrives | internal/transport/fragments.go:12-97 | A sent packet is delivered when its parts arrive within two seconds, the first of its id, with fewer than 64 packets waiting. |
| FragmentRuns.IntegrityIff | internal/transport/fragments.go:12-97 | Under any loss, reordering, repetition and delay of the fragments of sent packets and any reuse of ids, a push neither fails nor delivers another packet if and only if it does not clash with an entry an earlier push opened. |
| FragmentRuns.Integrity | internal/transport/fragments.go:12-97 | In particular no push fails and every emitted string is the sent packet, if ids are reused only two seconds apart. |
| FragmentRuns.IntegrityBeforeWrap | internal/transport/webrtc.go:162-163 | For the first 2^32 packets nothing need be assumed about time. |
| FragmentRuns.UnsafeReuseMixes | internal/transport/webrtc.go:162-163 | The halves of packets no and no + 2^32, which the sender gives one id, are glued together when they arrive within two seconds. |
| MediaPath.NumberedAll | internal/transport/webrtc.go:177-179 | Media packets carry consecutive 16-bit numbers, the marker on the last one only. |
| MediaPath.Sender.SendLocked | internal/transport/webrtc.go:170-184 | What is on the track is the earlier track and a prefix of the numbered packets; all of them if and only if it returns without error, which it does if and only if the peer is open and the track takes every one. |
| MediaPath.Sender.WritePacket | internal/transport/webrtc.go:156-164 | The packet counter moves with every packet of legal size, and a write puts exactly the packet's fragments, under its id, on the track, if and only if the size is legal, the peer open and the track takes them. |
| MediaPath.ReceiveLoop | internal/transport/webrtc.go:88-113 | The loop's run of the assembler is the arrivals without keepalives; the queue and the drop counter are its emissions; it ends exactly at the first rejected fragment, at the first delivered packet that finds the peer closed, or with the track. |
| MediaPath.QueueHoldsSentPackets | internal/transport/webrtc.go:88-113 | A run of the assembler over fragments of sent packets has no failure, and only sent packets are queued. |
| MediaPath.ReceiveSent | internal/transport/webrtc.go:88-113 | On a track that carries keepalives and fragments of sent packets, lost, repeated, delayed and reordered, the loop never ends for a bad fragment and the queue holds only sent packets, if ids are reused only two seconds apart. |
| Streams.WriteAll | internal/transport/transport.go:193-205 | For any cutting of the writes it ends, having sent all bytes if and only if no write failed or took nothing, and otherwise a prefix. |
| Streams.ReadFull | internal/transport/transport.go:169-177 | For any cutting of the reads it returns exactly n items, or drains a shorter stream and fails. |
| Framing.Framed.ReadPacket | internal/transport/transport.go:167-179 | Succeeds exactly when the stream starts with a whole legal frame, and leaves what follows it. |
| Framing.Framed.WritePacket | internal/transport/transport.go:180-192 | Refuses empty and oversized packets untouched; otherwise a prefix of the frame goes out, all of it if it succeeds, which it does if and only if no write fails. |
| Framing.ReadOne | internal/transport/transport.go:167-192 | A written frame is read back, whatever follows. |
| Framing.ReadFrameIff | internal/transport/transport.go:167-179 | By the bytes: a packet is read exactly if its length, high byte first, is 1 to 1280 and all of it is there. |
| Framing.CutFrame | internal/transport/transport.go:169-178 | A frame cut short is never taken for a packet. |
| Framing.ReadsPrefix | internal/transport/transport.go:167-192 | Wherever the stream of frames is cut off, the packets read are the first packets written; uncut, all of them. |
| Framing.SendAll | internal/transport/transport.go:180-192 | Write calls up to the first failure put the whole frames of the successful calls on the stream, and a prefix of the next one if the failing packet is of legal size. |
| Framing.SentAreRead | internal/transport/transport.go:167-192 | Whatever part of that has arrived, the packets read are the first ones handed over; when all has, those of the successful calls and at most the one of the failed call. |
| Framing.WrittenBehindCut | internal/transport/transport.go:180-192 | A packet written behind a frame cut after its length, and long enough to fill it, is read as the rest of that frame. |
| SipWire.Reader.NextLine | internal/transport/sip.go:32-42 | Takes the line the data starts with, without its CRLF; fails only if every such line would exceed the 8192 header bytes. |
| SipWire.Reader.Next | internal/transport/sip.go:29-81 | The loop computes the parser function on what has arrived and will arrive, and leaves exactly what follows the message. |
| SipWire.Send | internal/transport/sip.go:113-128 | For whatever enumeration order: a line break in any field writes nothing; otherwise a prefix of the printed message goes out; it succeeds if and only if there is no line break and no write fails, and then all of it is out. |
| SipWire.InjectsIff | internal/transport/sip.go:116-121 | Refused are exactly the maps with a carriage return or a newline in a name or a value. |
| SipRoundTrip.RoundTrip | internal/transport/sip.go:29-81 | For every enumeration order and any following bytes, a sound message is read back if and only if its head fits 8192 bytes: same start line, lower-cased fields and Content-Length, same body, exactly the following bytes left. |
| SipRoundTrip.StreamRoundTrip | internal/transport/sip.go:29-128 | Any sequence of printed messages parses back to itself, message by message. |
| SipGrammar.ReadIff | internal/transport/sip.go:29-81 | A message is read if and only if the data starts with a whole one: a start line with SIP/2.0, header lines with different names and the five required fields, at most 8192 bytes of head, and a body of the announced length, up to 2048 bytes. |
| SipGrammar.ReadIsWhole | internal/transport/sip.go:29-81 | What was read is exactly that message, with the fields of its lines and no others, and what is left is what followed it. |
| SipGrammar.MoreIsLeft | internal/transport/sip.go:29-81 | More data changes nothing in what was read. |
| SipGrammar.CutMessage | internal/transport/sip.go:78-80 | A message that does not arrive whole is never read, wherever it is cut, in its head or in its body. |
| SipGrammar.CutPrint | internal/transport/sip.go:78-128 | So no printed message that fits is ever read in part. |
| SipGrammar.BodyIsWhole | internal/transport/sip.go:70-80 | Whatever the data, a message that was read has a body of exactly the length of its Content-Length, at most 2048. |
| SipRequests.SipConn.Request | internal/transport/sip.go:129-137 | Takes the next number whether or not it can be sent, and sends the base fields overlaid with the extra ones; it succeeds if and only if no field holds a line break and no write fails. |
| SipRequests.RequestText | internal/transport/sip.go:129-137 | A request on the wire, character by character, in one of its orders. |
| SipRequests.SipConn.Reply | internal/transport/sip.go:138-150 | Sends the five copied fields, a To with a tag, and the extra fields, or nothing if one of them holds a line break. |
| SipTransactions.RequestIsFieldMap | internal/transport/sip.go:129-137 | Every request the transport builds, authentication fields included, meets the conditions of the round trip on fields and sizes. |
| SipExchange.FieldMapIsSound | internal/transport/sip.go:56-77 | Such field maps are what the parser accepts: trimmed values, no two spellings of one name, the five required fields. |
| SipExchange.FieldMapFits | internal/transport/sip.go:38-40 | Such field maps stay within the header limit in every order. |
| SipTransactions.ParsedFields | internal/transport/sip.go:59-77 | In every message that parses, the five required fields are present, trimmed and without newline. |
| SipTransactions.TaintedIsRead | internal/transport/sip.go:59-67 | A request with a carriage return in its Via field is read, and no reply to it can be sent. |
| SipTransactions.ReplyRefusedIff | internal/transport/sip.go:138-150 | A reply to a message that parsed is refused if and only if a copied field holds a carriage return. |
| SipTransactions.ReplyRead | internal/transport/sip.go:138-150 | Otherwise the other end reads the reply if and only if its head fits, and then gets back the copied fields, a tagged To and the extra fields. |
| SipTransactions.ReplyMeans | internal/transport/sip.go:138-150 | Field by field: via, from, call-id and cseq of the request, its To with the tag added exactly if it had none, and the authentication fields given. |
| SipTransactions.RequestAnswered | internal/transport/sip.go:138-150 | A reply to a request of the transport, with any authentication fields, is never refused, always fits, and is read back with the request's CSeq and its own fields. |
| SipTransactions.RequestRead | internal/transport/sip.go:249-277 | A request in any order is read back whole; a MESSAGE is classified by the read loop as carrying exactly its number. |
| SipTransactions.ClassifyIff | internal/transport/sip.go:255-280 | Any message is an acknowledgement exactly if it is a 200 OK, and carries packet k exactly if it is a MESSAGE request with the number k, below 2^64, and the content type of the transport. |
| SipTransactions.Exchange | internal/transport/sip.go:232-262 | The responder's reply to a MESSAGE is never refused, fits, and is read back as the acknowledgement of exactly that CSeq. |
| SipAuthentication.RequestArrives | internal/transport/sip.go:181-196 | An authentication request, in any order of its fields, is read back with its number and exactly its fields. |
| SipAuthentication.ReplyArrives | internal/transport/sip.go:216-229 | So is the reply to it. |
| SipAuthentication.Handshake | internal/transport/sip.go:177-231 | The client gets keys if and only if the tokens give the same two proofs and all four messages arrive; the server if and only if they do, three arrive, and it can write the fourth; each side's two keys are the hashes of the two key labels. |
| SipAuthentication.ServerAdmitsIff | internal/transport/sip.go:207-231 | Whatever a peer sends, the server answers and admits exactly OPTIONS requests of version 1 with a nonce of 64 characters and then the proof of its own token over both nonces. |
| SipAuthentication.ClientAcceptsIff | internal/transport/sip.go:187-205 | Whatever a peer sends, the client takes keys exactly after two acceptances of its own requests, the first with a nonce of 64 characters and the right proof; and it sends and receives with different labels. |
| SipAuthentication.KeysAgree | internal/transport/sip.go:156-176 | With one token a client with keys has a server with keys, and each receives with the key the other sends with. |
| SipAuthentication.RefusedIff | internal/transport/sip.go:177-231 | Neither side gets keys if and only if the two tokens differ in one of the two proofs over these nonces, or fewer than three messages arrive, or the server cannot write the fourth. |
| SipAuthentication.WrongTokenIsRefused | internal/transport/sip.go:190-226 | Two tokens that differ in one of the two proofs over these nonces give neither side keys, whatever arrives and is written. |
| SipAuthentication.WrongTokensExist | internal/transport/sip.go:177-231 | There are such tokens, with an exchange that meets every condition of these theorems. |
| SipDuplex.ActionKeepsInv | internal/transport/sip.go:232-338 | Every action of an endpoint, failures and closing included, keeps order up to the application, counts, the order of answers and the single place of each outstanding request. |
| SipDuplex.HandledIff | internal/transport/sip.go:249-299 | The reader accepts a request exactly if its number is new and fewer than 8 wait to be answered, queues a packet exactly if fewer than 256 wait, and otherwise stops. |
| SipDuplexRuns.ReachableInv | internal/transport/sip.go:232-338 | The invariant holds in every reachable state. |
| SipDuplexRuns.Conservation | internal/transport/sip.go:232-338 | While both ends are open, each direction's outstanding request is in exactly one of pipe, reader, responses, responder, reply in flight or ack; neither queue holds more than one. |
| SipDuplexRuns.NoTransactionFault | internal/transport/sip.go:269-296 | No stale number, no full response queue, no acknowledgement of another request. |
| SipDuplexRuns.Delivery | internal/transport/sip.go:267-331 | In every state, closed or not, what reached the peer's rx is a prefix of what was sent; n successful writes mean at least n-1 packets there, and n unless the reader is or stopped between its enqueues. |
| SipDuplexRuns.EndToEnd | internal/transport/sip.go:286-331 | In every state, closed or not, the packets ReadPacket returned at one end are the first ones WritePacket sent at the other, in order, and the rest of what arrived waits in rx, of 256 places. |
| SipDuplexRuns.AnswersInOrder | internal/transport/sip.go:232-247 | In every state requests wait to be answered in the order of their numbers, none twice, and writer and responder are never on the wire together. |
| SipDuplexRuns.ReturnedWithoutDelivery | internal/transport/sip.go:286-331 | In every reachable state a write returned nil without its packet in rx if and only if every accepted packet was acknowledged and the reader is between its enqueues, or stopped there on a full rx or because its endpoint was closed. |
| SipDuplexRuns.LostIff | internal/transport/sip.go:286-297 | A reader has lost its packet if and only if some step of the run made it stop between its enqueues. |
| SipDuplexRuns.AcknowledgedThenLost | internal/transport/sip.go:286-297 | A run in which closing loses an acknowledged packet with rx empty. |
| SipDuplexRuns.AcknowledgedAndRead | internal/transport/sip.go:249-331 | A run in which a packet is acknowledged and read by the other application. |
| SipDuplexRuns.DeadlockFree | internal/transport/sip.go:113-128 | While both ends are open and some write is pending, a protocol step is enabled, for any pipe capacity and both ends writing. |
| SipDuplexRuns.ActionUsesWork | internal/transport/sip.go:232-338 | Every protocol step, a closing one included, lowers the measure of work in both directions. |
| SipDuplexRuns.RunIsBounded | internal/transport/sip.go:308-338 | Without new writes a run of protocol steps is no longer than the initial measure. |
| SipDuplexRuns.StuckMeansReturned | internal/transport/sip.go:308-338 | A state in which no protocol step is enabled has no pending write. |
| SipDuplexRuns.ClosesOnlyWhen | internal/transport/sip.go:249-299 | By itself the protocol closes an end only on a full rx or on the rest of a write that stopped half way. |
| SipDuplexRuns.ClosedComesToRest | internal/transport/sip.go:232-338 | In every reachable state a closed end whose writer, responder or reader is still about can take a step that leads to its end. |
| SipDuplexRuns.MayBreak | internal/transport/sip.go:249-254 | An end may be closed and its connection may break in any state; a reader that waits then closes its end. |
| Host.LookupIsLongest | internal/network/macos_routes.go:16-30 | The looked-up entry covers the address and no covering entry is longer. |
| UndoLog.Manager.Add | internal/network/network.go:48-65 | Nothing runs after cancellation; a command that ran is recorded with its undo even if cancellation struck meanwhile; a failed one changes nothing; the log stays exactly what is owed, an undo for every added route to the tunnel included. |
| UndoLog.Manager.Close | internal/network/network.go:66-90 | Runs every undo once, last first, whatever fails; keeps exactly the ones neither done nor tolerated, in original order; fails if and only if some are kept; what is kept is what is still owed; no route appears. |
| UndoRuns.Conservation | internal/network/network.go:48-90 | For any interleaving of add and Close and all outcomes: the log is exactly the recorded undos no try has settled, in original order; none is run again after it settled; the tries are the calls Close made. |
| UndoRuns.LaterFirst | internal/network/network.go:69-80 | Within one Close later undos are tried first. |
| Restoration.DoingKeepsClean | internal/network/network.go:48-65 | A successful command with its recorded undo adds exactly that undo's part to what is owed. |
| Restoration.SettlingKeepsDebt | internal/network/network.go:69-76 | Whichever undo settles, in whatever order, the rest is exactly what is still owed. |
| Restoration.DoingTunnel | internal/network/network.go:198-209 | After a command every route to the tunnel that did not come with its addresses has its undo in the log. |
| Restoration.SettlingTunnel | internal/network/network.go:69-76 | An undo that settled took its route to the tunnel away, deleted or found gone. |
| Restoration.VanishingKeepsDebt | internal/network/network.go:72-75 | Routes that go away with the tunnel change nothing in what is owed. |
| Restoration.InsertedRemoved | internal/network/network.go:258-270 | Delete-first-match of one inserted rule takes out that rule only, wherever the others are. |
| Restoration.AppendDelete | internal/network/network.go:258-270 | Append and delete-first-match give the chain back if and only if every copy of the rule stands at the end, and always the same multiset. |
| Restoration.NothingOwed | internal/network/network.go:66-90 | An empty log means a restored machine, on which no route leads to the tunnel but those of its own addresses or from before. |
| NetworkRuns.RunKeepsOwed | internal/network/network.go:48-111 | At every point of every run of commands, undos in any order, failures and vanishing routes, the log is exactly what the machine owes. |
| NetworkRuns.RunRestores | internal/network/network.go:107-111 | Whenever the log is empty no split route is left, and all lasting routes, name servers, settings and FORWARD rules are the original ones; POSTROUTING is the same multiset, and equal unless the rule stood in it before its end. |
| NetworkRuns.RoutesExact | internal/network/network.go:198-209 | Without cloned entries, and with a tunnel that is new, the route table of a restored machine is the original one but for the tunnel's own addresses, and equal if and only if no route leads to the tunnel. |
| NetworkRuns.SplitRouteIsOwed | internal/network/network.go:198-209 | While a split route leads to the tunnel, its deletion is in the log. |
| NetworkRuns.PinAndUnpin | internal/network/macos_routes.go:69-76 | A pin and its undo restore the table if and only if nothing stood in its place. |
| NetworkRuns.MasqueradeAndBack | internal/network/network.go:259-267 | The masquerading chain comes back exactly if and only if the rule stood in it at most at its end. |
| SplitRoutes.ResolveIsBest | internal/network/macos_routes.go:35-40 | Lookup finds an entry if and only if it is the best covering one. |
| SplitRoutes.OriginalRoute | internal/network/macos_routes.go:42-49 | The route read for a server before it is pinned is the one it had before the setup. |
| SplitRoutes.DefaultGoesToTunnel | internal/network/network.go:198-209 | Every unpinned address with at most a default route leads to the tunnel once its halves are up. |
| SplitRoutes.SpecificStays | internal/network/network.go:198-209 | Every unpinned address with a route longer than /1 keeps it, unless the tunnel's own subnet covers it. |
| MacSetup.PinRoute | internal/network/macos_routes.go:42-76 | Refuses unusable routes, runs nothing for persistent and connected ones, pins every other by its gateway or else its interface, and records the undo. |
| MacSetup.PreservedFlags | internal/network/macos_routes.go:32-40 | By the flags: which routes are left as they are. |
| MacSetup.LoopbackIff | internal/network/network.go:170-173 | The addresses left out are exactly 127.0.0.0 to 127.255.255.255, as numbers, and ::1. |
| MacSetup.VerifyRoutes | internal/network/macos_routes.go:78-101 | Succeeds only if every server's route now has the original interface and gateway, is usable, and is a persistent host route where one is required. |
| MacSetup.KeptIff | internal/network/macos_routes.go:78-101 | What is demanded of a route is exactly that the server is reached by the original interface and gateway, usably, and by a static host route unless it is a neighbour. |
| MacSetup.Gather | internal/network/network.go:149-162 | The set of all servers' addresses, or a failure exactly when a name has no answer. |
| MacSetup.PinAll | internal/network/network.go:168-179 | Every address outside 127.0.0.0 to 127.255.255.255 and ::1 has a wanted route, pinned by its gateway or else its interface with the undo in the log, unless its flags make it a static host route or a neighbour; it fails only if a command or an answer fails or an address has no usable route. |
| MacSetup.SetServers | internal/network/network.go:180-197 | Name servers change only together with a recorded undo that gives back the old ones, all of which are addresses; otherwise they stay, and then for a reason. |
| MacSetup.RaiseHalves | internal/network/network.go:198-209 | Both halves of a family lead to the tunnel, or the log owes exactly what was done. |
| MacSetup.RaiseAll | internal/network/network.go:198-209 | After the pins, the halves of all configured families lead to the tunnel, and none of IPv6 is there without IPv6. |
| MacSetup.Mac | internal/network/network.go:121-211 | At every exit the log is exactly what is owed and no split route was tried before the last pin; on success servers are reached as before and not through the tunnel, other default-routed addresses go to it, more specific routes stay, the addresses were set first, name servers are set if configured and only then, and no IPv6 half is there without IPv6. It fails only if cancelled, if a command or an answer fails, if a name has no answer or a present name server is no address, or if a server is not reached as before. |
| MacSetup.SplitHolds | internal/network/network.go:168-210 | The two longest-prefix properties for all addresses of the configured families. |
| LinuxSetup.Forwarding | internal/network/network.go:249-257 | Forwarding is on afterwards; if it was on, nothing runs and nothing is recorded, otherwise the undo has the old value. |
| LinuxSetup.AddRules | internal/network/network.go:258-270 | The three rules are added in order, each with its deletion as the undo; at every exit the log is what is owed. |
| LinuxSetup.OpenFamily | internal/network/network.go:241-270 | Forwarding is on, the masquerading rule appended and the two forwarding rules inserted, the other family untouched. |
| LinuxSetup.ForwardsMeans | internal/network/network.go:225-257 | By the words of the commands: the setting of the family is 1, and the three rules stand in their chains, for the configured interface or else that of the default route. |
| LinuxSetup.Linux | internal/network/network.go:212-273 | At every exit the log is exactly what is owed; on success every configured family forwards; a client or a missing egress fails before anything that needs an undo. It fails for no other reason than these, cancellation and failing commands. |
| NetworkSetup.Setup | internal/network/network.go:91-111 | A failed setup is undone before it returns and shows a cleanup failure if and only if undos are left; a successful one has established its routes or rules; a cancelled one runs nothing. It fails only if cancelled, if a command or an answer fails, or if the machine or configuration cannot have the setup. |
| NetworkSetup.CloseManager | internal/network/network.go:86-89 | A cleanup error if and only if undos are left. |
| NetworkSetup.TransactAndClose | internal/network/network.go:66-109 | A transaction and any number of Close calls: the log is what is owed and holds exactly the unsettled undos, and once it is empty the machine is restored. |
| Errors.JoinKeepsCleanup | internal/network/network.go:28-33 | A join shows a cleanup failure if and only if one of its errors does, and is nil only if all are. |
| Errors.FailedIff | internal/network/network.go:28-33 | A cleanup failure is seen if and only if a cleanup error is somewhere inside, through any wrapping and joining. |
| Session.RunTun | cmd/tunnel-lab/main.go:132-171 | The result shows a cleanup failure if and only if undos are left or the interface could not be closed; without one the machine is restored and, if anything changed, no route leads to the tunnel; packets are copied only with the setup established; a cancelled session runs nothing. Without cancellation, failing commands or a refused setup it gets to copying. |
| Session.Client | cmd/tunnel-lab/main.go:90-119 | Over any number of reconnects, each with its own names and their addresses, only the last session's cleanup can have failed; its error is returned and no command follows; without one the machine is as before the first. It ends before the given number of rounds only if cancelled, after a failed cleanup, or if it is not to reconnect, and every round with a connection copies packets unless the session is refused. |
| ServeStream.RunKeepsInv | internal/transport/transport.go:116-160 | In every interleaving only the latest session can hold the gate, and after a failed cleanup no session works or can start to. |
| ServeStream.OneClient | internal/transport/transport.go:134-158 | At most one handler runs, and every earlier session has returned, closed its connection and freed the gate. |
| ServeStream.AdmittedIff | internal/transport/transport.go:134-141 | In every reachable state of an accepting server a connection begins one more session if and only if every earlier one has freed the gate; otherwise nothing changes. |
| ServeStream.SecondClient | internal/transport/transport.go:134-158 | A run in which a client works and leaves, another is turned away meanwhile, and a next one works. |
| ServeStream.GateIsTaken | internal/transport/transport.go:143 | Freeing the gate never blocks. |
| ServeStream.NoCommandAfterFailure | cmd/tunnel-lab/main.go:74-88 | After a failed cleanup no session issues a setup command, and the server's result shows a failure if and only if there was one. |
| ServeStream.WaitGroupHolds | internal/transport/transport.go:140-142 | The wait group counts the unfinished sessions and never falls below zero. |
| ServeStream.ReturnJoins | internal/transport/transport.go:124-125 | Waiting for the counter to be zero, the server returns only with the context cancelled and every session finished. |
| ServeStream.NeverStuck | internal/transport/transport.go:124-133 | In every reachable state some step brings the return nearer. |
| ServeStream.StepsToTheEnd | internal/transport/transport.go:116-160 | Every step but a signal, a setup command and an admission lowers the measure of what remains. |
| ServeStream.ShutdownIsBounded | internal/transport/transport.go:116-160 | Once the loop has stopped, the number of such steps in any run is bounded by what remained. |
| ServeWebRTC.RunKeepsInv | internal/transport/webrtc.go:302-389 | In every interleaving busy is set exactly while one offer, and only one, has it to give back; the wait group counts the sessions; after a failed cleanup none works or can start to. |
| ServeWebRTC.OneClient | internal/transport/webrtc.go:314-368 | At most one handler runs and at most one peer is open. |
| ServeWebRTC.AdmittedIff | internal/transport/webrtc.go:305-318 | In every reachable state an offer with the right method and token takes busy if and only if no other offer has it; every other one is refused. |
| ServeWebRTC.SecondClient | internal/transport/webrtc.go:303-368 | A run in which a client works and leaves, another offer is refused meanwhile, and a next client works. |
| ServeWebRTC.HolderMovesOn | internal/transport/webrtc.go:318-369 | While busy is set, its holder has a move other than a setup command. |
| ServeWebRTC.BusyIsGivenBack | internal/transport/webrtc.go:318-369 | In every run the moves of an offer are bounded, setup commands apart: whoever holds busy has given it back after at most nine. |
| ServeWebRTC.NeverStuck | internal/transport/webrtc.go:370-389 | In every reachable state some step brings the return nearer. |
| ServeWebRTC.ShutdownIsBounded | internal/transport/webrtc.go:370-389 | Once the shutdown has begun, the number of steps of any run, signals and setup commands apart, is bounded by what remained. |
| ServeWebRTC.NoCommandAfterFailure | cmd/tunnel-lab/main.go:74-88 | After a failed cleanup no session issues a setup command, and the server's result shows a failure if and only if there was one. |
| ServeWebRTC.WaitGroupHolds | internal/transport/webrtc.go:354-356 | The counter of the wait group never falls below zero. |
| ServeWebRTC.ReturnJoins | internal/transport/webrtc.go:370-389 | If the offers in progress returned in time, the server returns only after every offer and session is finished. |
| ServeWebRTC.PatientStop | internal/transport/webrtc.go:370-389 | A run in which the server returns after its session. |
| ServeWebRTC.LateSessionIff | internal/transport/webrtc.go:314-389 | When the server returns every session it had is finished; some continuation has another session if and only if some offer is then still in its request handler and not being dropped. |
| ServeWebRTC.LateSession | internal/transport/webrtc.go:372-389 | A run from the start in which a session begins after the server has returned. |
| ServeWebRTC.NoCommandAfterReturn | internal/transport/webrtc.go:370-389 | In any case no setup command is issued after the server has returned. |
| IpPackets.PrintedIsValid | internal/tunnel/bridge.go:15-38 | Every packet with the field sizes of section 3.1 of RFC 791 or section 3 of RFC 8200 passes, and its source is the source field. |
| IpPackets.ValidIsPrinted | internal/tunnel/bridge.go:15-38 | Only such packets pass; Source stays within them. |
| IpPackets.SmallestV4 | internal/tunnel/bridge.go:15-38 | The smallest packet from 10.0.0.2 to 10.0.0.1, byte by byte, passes with the source 10.0.0.2. |
| Bridge.Forwarding | internal/tunnel/bridge.go:50-87 | In every run what went out is a prefix of what the device gave, what came in a prefix of the allowed packets the remote end gave, and every written packet keeps the length rules. |
| Bridge.SourceFilter | internal/tunnel/bridge.go:62-75 | In every run with allowed addresses only packets from one of them are written to the device; a copier that waits for a packet has written exactly those it read, in order. |
| Bridge.PacketPasses | internal/tunnel/bridge.go:58-87 | A valid packet from an allowed address is written and counted in three steps, none of which is blocked while the other end is open. |
| Bridge.ReportNeverBlocks | internal/tunnel/bridge.go:47-60 | A copier always finds room for its error. |
| Bridge.WaitGroupHolds | internal/tunnel/bridge.go:48-51 | The wait group counts the copiers that have not exited and never falls below zero. |
| Bridge.OnReturn | internal/tunnel/bridge.go:108-113 | Waiting for the counter to be zero, the bridge returns with both ends closed, both copiers exited, and the counters equal to the packets and bytes written. |
| Bridge.InterruptCloses | internal/tunnel/bridge.go:45-46 | In every reachable state an interrupt closes both ends in two steps. |
| Bridge.StepsToTheEnd | internal/tunnel/bridge.go:50-111 | With both ends closed every step lowers the measure of what remains. |
| Bridge.ShutdownIsBounded | internal/tunnel/bridge.go:50-113 | From then on the number of steps of any run, signals apart, is bounded by it. |
| Bridge.NeverStuck | internal/tunnel/bridge.go:96-113 | Once an error is reported or the context is done, some step always leads on until the bridge has returned. |
| Device.Device.TakeBatch | internal/tun/device.go:68-74 | The packets of 1 to 1280 bytes are copied out of the buffers in order. |
| Device.InRangeOne | internal/tun/device.go:68-74 | A packet counts exactly if it has 1 to 1280 bytes. |
| Device.Device.ReadPacket | internal/tun/device.go:57-76 | One packet a call, exactly the in-range packets of all batches in order, whatever the buffers hold later; a failing read is reported after the packets before it, and later calls go on with the reads after it. |
| Device.ComingBatches | internal/tun/device.go:57-76 | What comes before a failing read is the in-range packets of its batches, and what is beyond it is the rest. |
| Device.BatchingDoesNotMatter | internal/tun/device.go:57-76 | How the driver cuts its packets into batches does not matter. |
| Device.Device.WritePacket | internal/tun/device.go:77-89 | The driver gets exactly the packet, with 16 bytes of room before it; it succeeds if and only if the packet has 1 to 1280 bytes and the driver takes it. |
| Device.Device.Close | internal/tun/device.go:90-100 | The driver is closed once, and every call reports how that went. |

## Left out

- Cryptography: the keyed hash is any function, a key is the hash it is made from, and a sealed body is the packet; sealing under the CSeq, nonces and the body length checks of the read loop are not modelled.
- `authStream`: the token check of the stream transports is straight-line code over the modelled frames.
- Text: a character stands for one byte, and trimming and lower-casing are those of ASCII; the wrap of the 64-bit SIP and traffic counters is not modelled.
- Fragments.Assembler.Push: an entry is a value in the map instead of a shared pointer, and the two maps exist from the start instead of from the first good fragment.
- SipDuplex.ActionKeepsInv: deadlines and the 15-second transaction timer are a close or a failure at any time; the authentication messages come before the first state. A reader whose own connection is closed or broken reads no more, although its buffer may still hold whole messages. The rest of a message whose write stopped half way is always unreadable; in the source a cut inside a start line or a header name can join with the next message into one that parses.
- Pion, Xray, HTTP, SDP, TLS, listeners and dialling: foreign code. The media path loses, repeats and reorders; dialling succeeds or fails.
- The text of command lines and of `route get`, `networksetup`, `sysctl` and `ip -j` output, with `field`: commands and answers are values. Which routes come with the tunnel's addresses is a parameter. Address parsing and name resolution are parameters, and addresses are taken in any order instead of sorted.
- The kernel by itself: cloning, expiry and changes to routes by others during a session. A command that fails is taken to have changed nothing, and a route entry scoped to an interface comes after an unscoped one of its length.
- Session.RunTun: the interface keeps one name and one set of own destinations over reconnects, and the bridge and the two ends are represented by their outcome, their own machines being `Bridge` and `Device`. The state of the machine in which a setup was refused is told by `NetworkSetup.Setup` only.
- Session.Client: the loop is followed for any given number of rounds, because it need not end.
- `generate`, configuration loading and validation, flags, `probe`, `echo`, logging and reporting: straight-line checks and input or output. A validated configuration is assumed.
