# HiveMind client protocol: a verified model

The HiveMind client connects a satellite to a hive of voice assistants over a websocket. This project models its
protocol layer in Dafny and proves what that layer keeps over every run: the Noise negotiation and the session it
establishes, the two clients (threading and asyncio), the bit-level wire frame, messages and their nesting, PING
floods and the topology map, and the aggregation of CASCADE responses.

`dafny verify dfyconfig.toml` checks everything.

## What is modelled

| part | files |
|---|---|
| JSON text, UTF-8, canonical JSON and the Noise prologue | `Json`, `JsonText`, `Utf8`, `Noise`, `Shortest` |
| An ideal Noise handshake and transport (Noise Protocol Framework revision 34, sections 5.1 and 6) | `Handshakes`, `Transport` |
| The clients and the handshake machine as classes, each proved equal to a function on states | `BusClient`, `Protocol` |
| What parameters, replies and envelopes lead to, read off the JSON they arrive in | `Negotiation`, `Completion` |
| Runs of a client: HELLO, pinned keys, the established flag, reconnects | `Session` |
| What a step decides and asks of the connection; what the threading and the asyncio client put on the wire | `Effects`, `Framing`, `Emission`, `TwoClients` |
| A client, any number of responders and other satellites with the password over a network that drops, repeats, reorders and forges | `Agreement`, `Held` |
| Bit streams, the frame, message encoding and decoding, the bytes spelled out | `Bits`, `Wire`, `Serialization`, `Layout` |
| HiveMessage: construction, dictionary form, nesting, the two send paths, deserialization, hops | `Message`, `Wrapping`, `SendPaths`, `Relay` |
| The flood id cache, the topology graph, tree rendering, when it ends, the mapper class, a flooding hive | `FloodCache`, `Topology`, `TreeView`, `Cycles`, `HiveMap`, `Flood` |
| The CASCADE aggregator under its lock and among threads | `Cascade` |

State that the source updates in place is a class here (`BusClient`, `SlaveProtocol`, `NoiseTransport`, `Receiver`,
`BitStream`, `HiveMapper`, `Satellite`, `CascadeAggregator`, `CascadeReceiver`, `Envelope`). Each method is proved to
do what a function on values does, and the theorems are about runs of those functions.

Foreign code is idealized. Only a party with the same protocol name, prologue, pre-shared key and transcript can read
a handshake message; only a holder of the password can make one that depends on it; a transport ciphertext opens only
under its own key and nonce. zlib is any pair of inverse functions. Decoding a handshake message from hex and verifying
a legacy envelope are parameters.

## Promises that hold only under a condition

- **Held and bound payloads.** The prologue binds the payloads a handshake started with. A HANDSHAKE with neither a
  `noise` nor an `envelope` key that arrives meanwhile replaces the stored parameters, and a HELLO replaces the stored
  one as long as none has named the server; the handshake goes on either way (`Held.ReplacedParamsAreNotBound`,
  `Held.ReplacedHelloIsNotBound`). In runs with neither, a finished client holds what a responder wrote its reply under
  (`Held.HeldPayloadsAgree`).
- **Reconnecting.** Closing does not clear `noise_handshake`. After a connection lost in mid-handshake, parameters with
  Noise options are taken for a malformed Noise reply and the new connection is refused
  (`Session.ReconnectRefusedWhenInFlight`); parameters without are recorded, but no retry starts another handshake
  while the old one is in flight (`Session.ReconnectWaitsWithoutNoise`).
- **Asyncio loop.** When the receive loop's iteration runs out or is cancelled, nothing is reset
  (`Session.EndedLeavesNothing`).
- **Abort.** Between an abort and the close it requests, `handshake_event` may be set with neither key nor transport
  (`Session.BackedAfterAbort`); the close is then under way (`Session.BackedOrClosing`).
- **Pins.** The asyncio client pins under the node id, or under "unknown" until a HELLO has named the server. A transport
  installed before that keeps a key that is no longer the pinned one (`Session.UnknownPinLapses`); this is the only way
  (`Session.TransportPinnedUnlessLapsed`).
- **Threading and asyncio client.** The asyncio client queues what it sends, and its loop takes a turn at any time; the
  two pin under different identifiers. They hand over the same messages in the same order, no HANDSHAKE lost or moved,
  exactly when both decide alike whenever they look up a pin (`TwoClients.SameMessages`, `TwoClients.SameHandshakes`), as
  they always do once HELLO has named the server and their stores hold the same key or none
  (`TwoClients.NamedClientsAgree`). Whenever the loop takes its turn the frames are the same too exactly when, besides, no
  message queued ahead of a close comes to be framed differently because a key or a transport changes, no HANDSHAKE is
  handed over under a transport, and no message behind a queued close while there is a key or a transport
  (`TwoClients.AsyncRefinesSync`). If the loop takes its turn after every event only the second of these remains
  (`TwoClients.SettledRefines`, `TwoClients.NamedClientsRefine`). Wires set apart by the same messages stay apart
  (`TwoClients.DifferentForGood`). Inputs that set them apart: an offer still queued when an envelope brings a key goes
  out encrypted (`TwoClients.QueuedOfferIsEncrypted`); parameters over an established session make the threading client
  seal its offer (`TwoClients.RenegotiationSetsApart`); with a key under the endpoint only, one proposes KK and the other
  XX (`TwoClients.PinsUnderDifferentIds`); messages queued before HELLO take its nonce 0 (`Emission.HelloNonce`).
  These runs leave out two kinds of events: asyncio loops that end without an exception, which reset nothing (as said above),
  and, once a connection has ended, anything received or opened before the loop has run a close that is still queued: by
  then the receive loop is over, and opening awaits the network.
- **Send paths.** Frame and text deliver the same for BUS always, for SHARED_BUS exactly when the payload has the shape
  of a bus message, for wrapper types exactly when it has the shape of `as_dict`, for the other types always, except that
  INTERCOM has no type code. The frame path raises where the payload cannot be read or the metadata does not fit,
  with automatic compression in either form (`SendPaths.PathsAgreeWhen`).
- **Rendering.** `to_ascii` ends exactly when no cycle can be reached from where it starts (`HiveMap.RootedEndsWhen`,
  `HiveMap.RawEndsWhen`). Two PINGs can make a cycle (`HiveMap.TwoPingsMakeACycle`). The raw view shows every endpoint
  exactly when there is no cycle at all (`HiveMap.RawLines`).
- **One open aggregator.** At most one aggregator is unresolved exactly when every thread that decided to replace it
  still finds that called for (`Cascade.OneOpenWhenTimely`); two threads in `handle_cascade` can each install one
  (`Cascade.TwoCheckersTwoOpen`).
- **Flooding.** A flood ends with at most 1000 distinct ids; with 1001 it need not (`Flood.OneIdTooManyFloods`).
- **Full delivery.** Encrypting and sending are not one step; everything arrives exactly when frames reach the wire in
  encryption order (`Transport.FullDeliveryNeedsEncryptionOrder`).

## Where code and documentation differ

The code is followed.

- `identity.py:175-181` describes pins as kept by node id; the handshake keeps them by endpoint (`host:port`), and by
  node id only for a client without a `config`, which the asyncio client is.
- `async_client.py:549-554` calls the type check and the threading client's timing equivalent and HANDSHAKE frames always
  cleartext; the two differ once a transport is set, and a HANDSHAKE still queued when a legacy key is set goes out
  encrypted.
- `noise.py:126-128` asks that encryption order match send order; nothing in `client.py:476-479` ensures it.
- `client.py:335-337` says the receive counter is out of sync after a rejected frame; a failed decryption leaves the
  counter where it was, and only an opened frame with an unknown marker moves it.
- `serialization.py:49` speaks of 12 message types; 13 have codes.

## Model

| member | source | states |
|---|---|---|
| Utf8.DecodeEncode | hivemind_bus_client/noise.py:153-156 | Decoding UTF-8 undoes encoding, for every string. |
| Utf8.EncodeDecode | hivemind_bus_client/noise.py:176-178 | Decoding is strict: only the encoding of a text decodes to it, so no overlong forms and no surrogates. |
| Utf8.EncodeInjective | hivemind_bus_client/noise.py:75-76 | Two strings with the same bytes are the same. |
| Utf8.LengthsSpelledOut | hivemind_bus_client/noise.py:75-76 | The bytes of one character of each of the four lengths. |
| JsonText.ParsePrint | hivemind_bus_client/noise.py:75-76 | A printed value followed by any remainder parses to that value and that remainder, in every style (a number's remainder must not go on with a digit). |
| JsonText.LoadsDumps | hivemind_bus_client/message.py:196-197 | json.loads undoes json.dumps, escaped or not, spaced or compact. |
| Json.SortKeysKeepsMeaning | hivemind_bus_client/noise.py:71-76 | Sorting keys at every depth gives a sorted document that means the same. |
| Json.CanonicalUnique | hivemind_bus_client/noise.py:71-76 | Two sorted documents that mean the same are equal. |
| Json.LessIsPrecedes | hivemind_bus_client/noise.py:75-76 | The key order: at the leftmost difference the smaller code point is first, and a prefix comes before what goes on from it. |
| Json.GetMeans | hivemind_bus_client/protocol.py:300-324 | A lookup gives the value of a field that has the key, and None when there is no such field. |
| Noise.CanonicalJsonDecidesSame | hivemind_bus_client/noise.py:68-76 | Canonical bytes are equal exactly for documents that differ in key order only, at any depth. |
| Shortest.CanonicalIsShortest | hivemind_bus_client/noise.py:68-76 | No text that loads as the document with its keys sorted takes fewer bytes than its canonical JSON: no spaces, no escape that is not needed. |
| Shortest.ControlCharacters | hivemind_bus_client/noise.py:75-76 | The escapes that are needed: a control character without a short form is four hexadecimal digits in lower case. |
| Shortest.SeparatorsSpelledOut | hivemind_bus_client/message.py:196-197 | The separators of the compact and of the two spaced styles, in arrays and dictionaries. |
| Shortest.CharactersSpelledOut | hivemind_bus_client/message.py:196-197 | Of the three styles one escapes what is outside ASCII, two leave it as it is. |
| Noise.SelectionMeaning | hivemind_bus_client/noise.py:84-103 | One of our patterns and suites that the server offers: ChaCha20 whenever offered, KK exactly when a key is pinned and KK is offered, nothing exactly when no option is shared. |
| Noise.ProtocolNameInjective | hivemind_bus_client/noise.py:79-81 | The protocol name determines pattern and suite. |
| Noise.ProtocolNames | hivemind_bus_client/noise.py:79-103 | The names a selection leads to, spelled out by what was offered and pinned. |
| Noise.PrologueReadsInOrder | hivemind_bus_client/noise.py:106-119 | Read from the front the prologue gives the HELLO payload, then the parameter payload, each with sorted keys; the name is left. |
| Noise.PrologueInjective | hivemind_bus_client/noise.py:106-119 | Prologues are equal exactly when HELLO, parameters and name are, although nothing separates them. |
| Transport.NoiseTransport.EncryptFrame | hivemind_bus_client/noise.py:143-158 | The ciphertext holds the marked payload under the next nonce; the counter advances by one. |
| Transport.NoiseTransport.DecryptFrame | hivemind_bus_client/noise.py:160-181 | Opens under the expected nonce only; the counter moves exactly when the ciphertext opened; unknown markers and undecodable text are different failures. |
| Transport.UnmarkMark | hivemind_bus_client/noise.py:51-54 | The receiver gets the payload back as the text or the bytes it was; text is marked 0 and bytes 1. |
| Transport.UnmarkWhen | hivemind_bus_client/noise.py:175-181 | Exactly what a sender marked is read; an unknown first byte is rejected, text that is no UTF-8 is another failure. |
| Transport.Receiver.HandleMessage | hivemind_bus_client/client.py:326-341 | While a transport is set: text is dropped, a rejected frame closes, an opened one is dispatched. |
| Transport.MessageLeadsTo | hivemind_bus_client/client.py:326-341 | What each message leads to, read off its bytes: dropped, closing, dispatched or lost, and when the counter moves. |
| Transport.PrefixSafety | hivemind_bus_client/noise.py:122-130 | Over any network, what is dispatched is a prefix of what the peer encrypted. |
| Transport.ClosesOnFirstReject | hivemind_bus_client/client.py:335-341 | The session is being closed exactly when some delivered frame did not open. |
| Transport.FullDeliveryNeedsEncryptionOrder | hivemind_bus_client/client.py:476-479 | When each frame arrives once, all is dispatched exactly when frames were written in encryption order. |
| Handshakes.BoundAlikeAgree | hivemind_bus_client/protocol.py:341-351 | Bound to one name and prologue means the same HELLO, parameters, pattern and suite, and conversely. |
| Handshakes.ExchangeCompletesWhen | hivemind_bus_client/noise.py:184-229 | Two parties complete a handshake exactly when they agree on the negotiation, derive the same key from password and node id and, in KK, expect each other's static key; both then know the other's key. |
| Handshakes.FirstMessageReads | hivemind_bus_client/noise.py:184-229 | Message 1 can be read without the password in XX, and in KK exactly with the same pre-shared key. |
| BusClients.BusClient.Send | hivemind_bus_client/client.py:465-484 | What goes on the socket: sealed, legacy-encrypted or clear; the asyncio client does not seal a HANDSHAKE. |
| BusClients.BusClient.EmitMessage | hivemind_bus_client/protocol.py:283-298 | The threading client sends at once, the asyncio client queues. |
| BusClients.BusClient.HandleClose | hivemind_bus_client/client.py:247-259 | The state after on_close and on_error. |
| BusClients.BusClient.CloseNow | hivemind_bus_client/async_client.py:323-328 | The state after the asyncio close has reset its fields. |
| BusClients.BusClient.LoopEnded | hivemind_bus_client/async_client.py:380-403 | Resets exactly when the loop ends with an exception. |
| BusClients.BusClient.RunTasks | hivemind_bus_client/async_client.py:547-565 | Running the queue is running its tasks first in, first out. |
| Protocol.SlaveProtocol.OnHello | hivemind_bus_client/protocol.py:255-267 | HELLO is recorded only while no node id is known. |
| Protocol.SlaveProtocol.StartNoiseHandshake | hivemind_bus_client/protocol.py:323-363 | Starts Noise as `Negotiation.RetryLeadsTo` and `Negotiation.ParamsLeadTo` describe: message 1, the legacy fallback, or an abort. |
| Protocol.SlaveProtocol.ReceiveNoiseHandshake | hivemind_bus_client/protocol.py:365-394 | Malformed or unauthenticated replies abort; message 3 is sent in the three-message pattern. |
| Protocol.SlaveProtocol.FinishNoiseHandshake | hivemind_bus_client/protocol.py:396-425 | Pin check and pinning, then transport, HELLO and the event, as `Completion.ReplyLeadsTo` describes; an unreadable selection stops before the transport. |
| Protocol.SlaveProtocol.AbortNoise | hivemind_bus_client/protocol.py:427-437 | Clears handshake and transport and requests the close. |
| Protocol.SlaveProtocol.ReceiveHandshake | hivemind_bus_client/protocol.py:465-488 | A verified envelope sets the key, sends HELLO, sets the event. |
| Protocol.SlaveProtocol.OnHandshake | hivemind_bus_client/protocol.py:490-540 | Which of the three kinds of HANDSHAKE a payload is; what follows is `Negotiation.ParamsLeadTo`, `Completion.ReplyLeadsTo` and `Completion.EnvelopeLeadsTo`. |
| Protocol.SlaveProtocol.Retry | hivemind_bus_client/protocol.py:439-447 | A retry waits for a Noise handshake in flight, else starts one or the legacy one. |
| Negotiation.ParamsLeadTo | hivemind_bus_client/protocol.py:507-540 | Parameters lead to a proposal exactly when the client is able to, their version is an integer of at least 3 and their lists hold one of our suites and XXpsk2, or KKpsk0 while a key is pinned. The proposal is one of the server's, bound to HELLO, parameters, name and password, and carries the client's capabilities; a node id that is no string aborts. Otherwise the password exchange starts if asked for, or nothing happens. |
| Negotiation.RetryLeadsTo | hivemind_bus_client/protocol.py:439-463 | A retry with no handshake in flight proposes under the same condition on the kept parameters, and else sends the legacy offer. |
| Completion.ReplyLeadsTo | hivemind_bus_client/protocol.py:365-425 | For every reply to message 1: missing, not hex or not authentic closes; a key other than the pinned one closes; otherwise the key is pinned, message 3 goes out in XX, and unless the payload is the text of something that is no dictionary a transport of the whole transcript is installed, HELLO handed over and the event set. |
| Completion.LateReplyCloses | hivemind_bus_client/protocol.py:376-394 | A reply to a handshake that has all its messages closes the connection. |
| Completion.PayloadsThatSelect | hivemind_bus_client/protocol.py:407-412 | Payloads that install a transport: any dictionary in any style, nothing at all, no UTF-8, no JSON. |
| Completion.PayloadsThatDoNot | hivemind_bus_client/protocol.py:407-412 | Payloads that do not: any other JSON value in any style. |
| Completion.EnvelopeLeadsTo | hivemind_bus_client/protocol.py:465-503 | An envelope that opens sets the key, hands over HELLO and sets the event; one that does not changes nothing. |
| Session.FirstHelloKept | hivemind_bus_client/protocol.py:255-267 | Over every run and reconnect the client keeps the first HELLO that named its sender; until there is one it has what the last HELLO said. |
| Session.PinsWriteOnce | hivemind_bus_client/protocol.py:396-405 | Once pinned, a key never changes. |
| Session.TransportHasPinnedKey | hivemind_bus_client/protocol.py:396-414 | While the pin identifier stays, the transport in use has exactly the pinned key, which is the one pinned first. |
| Session.PinIdChangesWhen | hivemind_bus_client/protocol.py:271-281 | The pin identifier changes exactly when a client without an endpoint hears the first HELLO that names the server. |
| Session.TransportPinnedUnlessLapsed | hivemind_bus_client/protocol.py:271-281 | For every client and run: the transport in use has the pinned key, unless the client was named after it was installed; then its key is pinned under the placeholder. |
| Session.UnknownPinLapses | hivemind_bus_client/protocol.py:271-281 | A run in which that happens: a handshake finished before any named HELLO, then a named one. |
| Session.StatementsMakeHandlers | hivemind_bus_client/client.py:254-258 | The listed assignments, one after the other, are the close handlers and the ends of both handshakes. |
| Session.BackedAtEveryStatement | hivemind_bus_client/protocol.py:414-425 | Between any two of those statements, established still implies a key or a transport. |
| Session.BackedAfterAbort | hivemind_bus_client/protocol.py:427-437 | After the abort's statements that holds exactly when nothing was established or a legacy key is set. |
| Session.EstablishedIsBacked | hivemind_bus_client/protocol.py:414-488 | Over every run, an abort and its close taken as one step, established implies a key or a transport. |
| Session.BackedOrClosing | hivemind_bus_client/protocol.py:427-437 | After every step of every run, established implies a key or a transport, or the close is under way. |
| Session.EndedLeavesNothing | hivemind_bus_client/async_client.py:380-403 | An ended connection leaves event, key and transport unset, except when the asyncio loop ends without an exception. |
| Session.ReconnectRefusedWhenInFlight | hivemind_bus_client/client.py:254-259 | After losing a connection, parameters with Noise options are recorded when no handshake was in flight, else that connection is refused. |
| Session.ReconnectWaitsWithoutNoise | hivemind_bus_client/protocol.py:439-447 | Parameters without Noise options are recorded, the old handshake stays in flight, and no retry does anything. |
| Emission.AsyncNeverSealsHandshake | hivemind_bus_client/async_client.py:549-558 | Over every interleaving of handlers and queued sends no HANDSHAKE is sealed. |
| Emission.SealedAreNoHandshake | hivemind_bus_client/async_client.py:547-565 | What is sealed is HELLO or lies outside the handshake. |
| Effects.StepIsAct | hivemind_bus_client/protocol.py:283-298 | What a step does to the connection is an act that does not depend on the kind of client, done in the client's own way. |
| Effects.StepKin | hivemind_bus_client/protocol.py:300-363 | Clients that decide alike by their pins do the same act and change alike in all but connection and pins, whatever their kind, endpoint, nonces and queue. |
| Framing.DrainFrames | hivemind_bus_client/async_client.py:547-558 | What a turn writes: each queued message framed by the key and transport of its time, a close resetting both. |
| Effects.DifferentDecisionsShow | hivemind_bus_client/protocol.py:271-281 | If the pins decide differently in a step, different messages or closes are handed over. |
| Framing.ActFramed | hivemind_bus_client/async_client.py:547-565 | For each act, with any queue: both kinds frame queue and act alike exactly when the act leaves the queue's framing alone, hands over no HANDSHAKE under a transport and nothing behind a close while a key or transport is set. |
| TwoClients.SameMessages | hivemind_bus_client/protocol.py:283-298 | With turns of the loop anywhere: what the threading client has sent is, in order, what the asyncio client has sent followed by what it has queued, exactly when both decide alike at every lookup of a pin. |
| TwoClients.SameHandshakes | hivemind_bus_client/protocol.py:283-298 | In particular for HANDSHAKE messages: none lost, added or moved. |
| TwoClients.AsyncRefinesSync | hivemind_bus_client/async_client.py:547-565 | With turns of the loop anywhere: whenever it takes one, both wires hold the same frames exactly when every step is guarded. |
| TwoClients.SettledRefines | hivemind_bus_client/async_client.py:547-565 | With a turn after every event the guard is that no HANDSHAKE is handed over under a transport and the pins decide alike; the states then differ in pins only. |
| TwoClients.DifferentForGood | hivemind_bus_client/async_client.py:547-565 | Wires that hold the same messages in different frames never become the same again. |
| TwoClients.KKNeedsSameLookup | hivemind_bus_client/protocol.py:318-336 | Where a server offers KK, both make the same proposal exactly when they look up the same key. |
| TwoClients.NamedClientsAgree | hivemind_bus_client/protocol.py:396-405 | Once the pin identifiers are settled and the lookups agree, the pins decide alike throughout, with turns anywhere. |
| TwoClients.NamedClientsRefine | hivemind_bus_client/protocol.py:396-405 | With a turn after every event, only a HANDSHAKE under a transport then sets the wires apart, and for good. |
| TwoClients.EmptyStoresLookAlike | hivemind_bus_client/identity.py:174-186 | With nothing pinned the two look alike, whatever they pin under. |
| TwoClients.PinsUnderDifferentIds | hivemind_bus_client/protocol.py:271-281 | One store with a key under the endpoint only: the threading client proposes KK, the asyncio client XX. |
| TwoClients.QueuedOfferIsEncrypted | hivemind_bus_client/async_client.py:549-565 | A retry, a legacy envelope, then a turn: the threading client sent its offer in the clear, the asyncio client sends it encrypted. |
| TwoClients.RenegotiationSetsApart | hivemind_bus_client/client.py:475-480 | Parameters over an established session that lead to a proposal set the wires apart for good. |
| Emission.HelloNonce | hivemind_bus_client/protocol.py:414-424 | HELLO has nonce 0 on the threading client and, on the asyncio client, the number of queued sealable messages before it. |
| Agreement.DrainWrites | hivemind_bus_client/protocol.py:283-298 | Running the queue loses and invents no handshake message. |
| Agreement.StartFacts | hivemind_bus_client/protocol.py:331-363 | A handshake just started is bound to the payloads and the selection the client holds. |
| Agreement.ReceiveFacts | hivemind_bus_client/protocol.py:375-415 | A transport is installed only after an authenticated reply, which is the second message of its transcript. |
| Agreement.AuthenticatedAgrees | hivemind_bus_client/protocol.py:380-394 | A message that can be read was written by an honest party of the other side that agrees with the reader. |
| Agreement.InvKept | hivemind_bus_client/protocol.py:323-425 | Every step of client, responders, other satellites with the password and network keeps the binding of handshakes, log and results. |
| Agreement.FinishedSidesAgree | hivemind_bus_client/protocol.py:323-425 | In every run, sides that finished one handshake agree on HELLO, parameters, pattern and suite, and each finished side was answered by one that agrees. |
| Held.StepKeepsPayloads | hivemind_bus_client/protocol.py:490-533 | In flight, only new parameters or a first named HELLO change the held payloads. |
| Held.HeldPayloadsAgree | hivemind_bus_client/protocol.py:323-425 | In an undisturbed run a finished client holds the payloads a responder wrote its reply under. |
| Held.ReplacedParamsAreNotBound | hivemind_bus_client/protocol.py:507-540 | Parameters replaced in flight leave the handshake as it is; they agree with the responder's exactly when they equal the bound ones. |
| Held.ReplacedHelloIsNotBound | hivemind_bus_client/protocol.py:255-267 | A HELLO that replaces an unnamed one in flight leaves the handshake as it is; it agrees with the responder's exactly when it equals the bound one. |
| Bits.FromToBits | hivemind_bus_client/serialization.py:54-63 | Reading a field of a width gives the number that fits it. |
| Bits.BytesBitsBytes | hivemind_bus_client/serialization.py:85-86 | Bytes survive the way through bits. |
| Bits.BitStream.Read | hivemind_bus_client/serialization.py:88-92 | Reads the next bits and moves the cursor past them, or fails and stays. |
| Wire.PaddingByType | hivemind_bus_client/serialization.py:78-80 | Four bits of padding for BINARY, none otherwise, for all contents. |
| Wire.Pad | hivemind_bus_client/serialization.py:78-80 | The loop puts exactly the zeros in front that make whole bytes. |
| Wire.DecodeFrame | hivemind_bus_client/serialization.py:85-97 | The cursor-driven decoder computes the parse function, errors included. |
| Wire.ParseEncode | hivemind_bus_client/serialization.py:46-126 | Parsing an encoded frame, with any more zeros in front, gives its fields. |
| Wire.EncodeParse | hivemind_bus_client/serialization.py:85-126 | Accepted bytes have a zero run of 4 mod 8 for BINARY and 0 mod 8 otherwise, and encode back to themselves without leading zero bytes. |
| Layout.VersionedFrame | hivemind_bus_client/serialization.py:46-82 | The bytes of a frame with a version: two header bytes, then length, metadata, payload. |
| Serialization.GetBitstringV1 | hivemind_bus_client/serialization.py:46-82 | Appending field by field and padding makes exactly the frame of the fields, or raises. |
| Serialization.GetBitstring | hivemind_bus_client/serialization.py:31-43 | Version check, given choice or the shorter of both. |
| Layout.CodeByName | hivemind_bus_client/serialization.py:15-27 | The code of a type is the place of its name among the thirteen; INTERCOM has the code of 3rdparty. |
| Layout.TextMessageBytes | hivemind_bus_client/serialization.py:46-82 | The very bytes of a message with a text payload: header byte by code and compression, length of the metadata, metadata, payload. |
| Layout.BinaryMessageNibbles | hivemind_bus_client/serialization.py:46-82 | The half bytes of a BINARY message: padding, header, metadata, content type, content as it is; content types other than the seven go out as 0. |
| Serialization.DecodeBitstring | hivemind_bus_client/serialization.py:85-126 | The message a frame stands for, or an error. |
| Serialization.RoundTrip | hivemind_bus_client/serialization.py:46-126 | Type, metadata, subtype and payload come back for every type, versioned or not, compressed or not; INTERCOM as THIRDPRTY. |
| Serialization.EncodableWhen | hivemind_bus_client/serialization.py:61-76 | Encoding works exactly for metadata of at most 255 bytes and payloads of the type's kind. |
| Serialization.AutoIsOptimalAndTransparent | hivemind_bus_client/serialization.py:36-41 | Automatic choice exists exactly when both forms do, is no longer than either, uncompressed if they are as long, and decodes like both. |
| Serialization.ReencodesDecodedFields | hivemind_bus_client/serialization.py:85-126 | For defined codes, re-encoding what was decoded gives the input without leading zero bytes. |
| Message.TypeNamesKnown | hivemind_bus_client/message.py:59-64 | Every type is found by its own name. |
| Message.MakeMade | hivemind_bus_client/message.py:59-90 | Constructed messages have no empty metadata or payload but {}, and a subtype in BINARY only. |
| Json.FalseValues | hivemind_bus_client/message.py:68-90 | What `or` replaces: None, False, zero and whatever is empty, and nothing else. |
| Message.RecordsIdempotent | hivemind_bus_client/message.py:122-124 | Filtering a route twice is filtering it once. |
| Message.RecordsConcat | hivemind_bus_client/message.py:122-124 | A route is filtered record by record, in order. |
| Message.RecordsOfOne | hivemind_bus_client/message.py:122-124 | A record stays exactly when it is a dictionary with source and targets. |
| Wrapping.AsDictIsFixpoint | hivemind_bus_client/message.py:173-194 | Rebuilding from the dictionary form succeeds and gives the same dictionary form. |
| Wrapping.NestedWrappingUndoesItself | hivemind_bus_client/message.py:126-146 | n wraps and n payload reads give the message back, route filter included. |
| SendPaths.PathsAgreeWhen | hivemind_bus_client/client.py:431-484 | For every message with a dictionary payload: when each path delivers, and that both deliver the same exactly when the type has a code and the payload is kept: BUS always, SHARED_BUS in the shape of a bus message, wrappers in the shape of as_dict, other types always. |
| SendPaths.SettingsDoNotMatterWhen | hivemind_bus_client/client.py:453-484 | What is delivered is the same whatever both sides have set about frames, exactly for HELLO, HANDSHAKE, messages that cannot be prepared, and messages that both ways deliver alike. |
| SendPaths.BinaryArrives | hivemind_bus_client/client.py:454-463 | BINARY content goes as a frame whatever the settings; it arrives as it was with its content type exactly when its metadata fits, and else sending raises. |
| SendPaths.PreparedWhen | hivemind_bus_client/client.py:435-447 | A BUS message is rewritten exactly when it has a type and its context and session are dictionaries; its payload then has the shape of a bus message. |
| SendPaths.RoutedSays | hivemind_bus_client/client.py:435-447 | Under every key of the context that goes out: the session has this client's session and site id whatever it held, its other entries and the rest of the context stay, and source, platform and destination are filled in if missing. |
| SendPaths.FrameDelivers | hivemind_bus_client/client.py:459-473 | For every compression setting a frame delivers the payload dictionary of the getter, or raises: exactly when that cannot be read or the metadata does not fit, with automatic compression in either form. |
| SendPaths.HivePayloadsAreKept | hivemind_bus_client/message.py:140-145 | Payloads built from a HiveMessage are sent alike. |
| SendPaths.HivePayloadKept | hivemind_bus_client/message.py:140-145 | What the getter of a wrapper gives equals what is stored exactly for payloads with the eight keys of as_dict and values the constructor keeps. |
| SendPaths.BusPayloadsAreKept | hivemind_bus_client/message.py:136-139 | Payloads built from a bus message have its shape. |
| SendPaths.BusPayloadKept | hivemind_bus_client/message.py:136-139 | What the getter of a bus message gives equals what is stored exactly for the three keys of a Message with no replaced data or context. |
| SendPaths.SparseSharedBusDiffers | hivemind_bus_client/client.py:453-484 | SHARED_BUS from a type alone: both paths deliver, and not the same. |
| SendPaths.SparseBusAgrees | hivemind_bus_client/client.py:435-447 | BUS from the same dictionary: both deliver the same. |
| SendPaths.SparseWrapperDiffers | hivemind_bus_client/message.py:140-145 | BROADCAST from a dictionary with a msg_type alone: both paths deliver, and not the same. |
| SendPaths.OnlyTextDelivers | hivemind_bus_client/message.py:136-139 | SHARED_BUS without a type: only the text path delivers. |
| Relay.DeserializeTotal | hivemind_bus_client/message.py:203-232 | Every dictionary is read as some well-formed message. |
| Relay.DeserializeAs | hivemind_bus_client/message.py:203-232 | What a dictionary is read as: a hive message exactly when its type, payload and text allow, else a bus message if the bus library reads it, else THIRDPRTY holding all of it. |
| Relay.DeserializeSerialized | hivemind_bus_client/message.py:203-232 | A serialized message deserializes to itself exactly when it has neither node nor source peer; else only those are lost. |
| Relay.Envelope.UpdateHopData | hivemind_bus_client/message.py:250-253 | A hop is added exactly when the last one has another source; a last record without source raises. |
| Relay.Envelope.RemoveTargetPeer | hivemind_bus_client/message.py:267-269 | Removes the first occurrence, or nothing. |
| Relay.RouteIsTrail | hivemind_bus_client/message.py:116-124 | After any relays the route names them in order, repeats in a row once, each with the targets or, without any, itself; the filter drops none. |
| FloodCache.CacheIsWindow | hivemind_bus_client/hive_map.py:261-284 | After any calls the cache is the last max_size accepted ids in order. |
| FloodCache.SeenMeansInWindow | hivemind_bus_client/hive_map.py:276-284 | The answer is True exactly for the empty id and ids in that window. |
| FloodCache.AcceptancesAreSpaced | hivemind_bus_client/hive_map.py:280-283 | Between two acceptances of an id lie at least max_size others. |
| FloodCache.FewIdsAcceptedOnce | hivemind_bus_client/hive_map.py:261-284 | With at most max_size ids in circulation none is accepted twice. |
| FloodCache.OneIdTooMany | hivemind_bus_client/hive_map.py:280-283 | With one id more, an id is accepted again. |
| FloodCache.FullCacheForgetsFirst | hivemind_bus_client/hive_map.py:280-284 | A full cache takes a new id and forgets its oldest. |
| Flood.Satellite.HandlePing | hivemind_bus_client/protocol.py:637-677 | Exactly the ids not seen before are answered; the mapper is made on the first PING. |
| Flood.FloodIdIsRead | hivemind_bus_client/protocol.py:646-649 | The id of a PING is what its dictionary has under flood_id. |
| Flood.FloodEnds | hivemind_bus_client/protocol.py:637-677 | With at most 1000 ids no satellite answers an id twice, answers number at most satellites times ids, and every run is bounded. |
| Flood.OneIdTooManyFloods | hivemind_bus_client/protocol.py:637-677 | With 1001 ids there are runs of every length. |
| Topology.OnPingEdges | hivemind_bus_client/hive_map.py:71-120 | A PING adds exactly the hops of its route, and only when accepted. |
| Topology.EdgesAreFirstPings | hivemind_bus_client/hive_map.py:63-120 | The edges are exactly the hops of the first accepted PING per flood and peer since the last reset. |
| Topology.NodesAreLastAnnounced | hivemind_bus_client/hive_map.py:88-107 | A peer is known exactly when an accepted PING announced it since the last clear, and by what the last such PING said. |
| Topology.OrderDoesNotMatter | hivemind_bus_client/hive_map.py:71-120 | Every order of a batch with distinct (flood, peer) gives the same edges, dedup sets and node keys. |
| HiveMap.HiveMapper.OnPing | hivemind_bus_client/hive_map.py:71-120 | The in-place update is the graph function; True exactly for new PINGs. |
| HiveMap.HiveMapper.StartPing | hivemind_bus_client/hive_map.py:63-69 | Forgets who was heard in one flood, nothing else. |
| HiveMap.HiveMapper.CheckFloodId | hivemind_bus_client/hive_map.py:261-284 | The eviction loop computes the cache function, the failure for a size of none included. |
| HiveMap.HiveMapper.Clear | hivemind_bus_client/hive_map.py:286-291 | Back to the empty state. |
| HiveMap.HiveMapper.ToAscii | hivemind_bus_client/hive_map.py:177-259 | Wherever the recursion ends: cut at its newlines, the text is the rooted or raw view line by line, unless a name has a newline in it; or the placeholder for nothing known. |
| HiveMap.RootedLines | hivemind_bus_client/hive_map.py:197-224 | One line per walk outward from the root, each once, in reading order with children as iteration meets them, the root first. |
| HiveMap.OneLinePerPeer | hivemind_bus_client/hive_map.py:197-224 | In a forest each reachable peer has exactly one line. |
| HiveMap.RawLines | hivemind_bus_client/hive_map.py:226-257 | One line per walk along the edges from each displayed root, in reading order and root after root; every endpoint of an edge has a line exactly when the edges have no cycle. |
| HiveMap.SplitJoin | hivemind_bus_client/hive_map.py:259-259 | Joined lines without newlines can be told apart again, in order. |
| HiveMap.LabelSpelledOut | hivemind_bus_client/hive_map.py:207-213 | A peer's label: its name, its site unless that is empty, its latency if there is one. |
| Cycles.EndsWhenLoopFree | hivemind_bus_client/hive_map.py:239-249 | The recursion from a peer ends at some depth exactly when no cycle can be reached from it. |
| Cycles.RankedWhenLoopFree | hivemind_bus_client/hive_map.py:239-249 | A measure for the recursion from a peer exists exactly when no cycle can be reached from it. |
| HiveMap.RootedEndsWhen | hivemind_bus_client/hive_map.py:197-224 | The rooted view ends exactly when no cycle can be reached from the root against the stored edges; otherwise it follows walks of every length. |
| HiveMap.RawEndsWhen | hivemind_bus_client/hive_map.py:226-257 | The same along the stored edges for a displayed root of the raw view. |
| HiveMap.TwoPingsMakeACycle | hivemind_bus_client/hive_map.py:109-118 | Two PINGs with opposite routes make a cycle that neither view of either peer survives. |
| HiveMap.CycleOutOfReach | hivemind_bus_client/hive_map.py:197-224 | Cyclic edges whose cycle is out of the root's reach do no harm. |
| HiveMap.SomeRoot | hivemind_bus_client/hive_map.py:236-237 | An acyclic graph with edges has a root, so the fallback is never needed. |
| TreeView.Render | hivemind_bus_client/hive_map.py:239-249 | The recursive renderer appends exactly the lines of the subtree. |
| TreeView.WalksComplete | hivemind_bus_client/hive_map.py:239-249 | The rendered walks are exactly all walks below the start. |
| TreeView.TreeShowsWalks | hivemind_bus_client/hive_map.py:239-249 | Each line shows its walk: indentation, connector and label, root first. |
| TreeView.WalksTopDown | hivemind_bus_client/hive_map.py:239-249 | A walk stands above those that go on from it and above those that turn to a later child. |
| TreeView.LineReads | hivemind_bus_client/hive_map.py:207-217 | A line by its columns: a bar or blank per ancestor as it has siblings to come or not, the branch, the label. |
| TreeView.ForestWalksUnique | hivemind_bus_client/hive_map.py:207-217 | In a forest one walk leads to each peer. |
| Cascade.CascadeAggregator.AddResponse | hivemind_bus_client/protocol.py:81-104 | Buffers, starts the timer, resolves early at the expected number; ignores what comes after. |
| Cascade.CascadeAggregator.DoResolve | hivemind_bus_client/protocol.py:111-122 | Takes the whole buffer once and asks for a choice only when there is one to make. |
| Cascade.CascadeReceiver.HandleCascade | hivemind_bus_client/protocol.py:709-740 | Ends of stream are skipped, other messages than bus messages fail; a missing or resolved aggregator is replaced first. |
| Cascade.AggregatorSafety | hivemind_bus_client/protocol.py:81-130 | Under every interleaving at most one emission, the callback's choice from exactly the responses buffered at resolution; each response is in exactly one of buffered, selected, cancelled, late; the timer runs exactly while responses wait. |
| Cascade.TimerResolves | hivemind_bus_client/protocol.py:93-122 | Whatever has happened, an unresolved aggregator with responses has its timer running, and when it fires exactly those are the batch; without responses none was started. |
| Cascade.TimerIsNeverBlocked | hivemind_bus_client/protocol.py:93-109 | Among any threads the timer of such an aggregator can always take its lock. |
| Cascade.ReceivesInBatches | hivemind_bus_client/protocol.py:709-740 | With a mapper that knows e nodes every max(1, e)-th answer resolves an aggregator with the last so many as its batch, and the next starts another. |
| Cascade.OnlyAnswersCount | hivemind_bus_client/protocol.py:709-740 | A receiver is left as if the ends of streams and the foreign messages had not come; only a foreign one raises. |
| Cascade.EmitsOneOfTheBatch | hivemind_bus_client/protocol.py:111-130 | With a callback that picks a member, a resolved aggregator with a batch emitted one of it. |
| Cascade.ResolvesAtThreshold | hivemind_bus_client/protocol.py:97-104 | Responses alone resolve at exactly max(1, expected), with that many in the batch; without expectation never. |
| Cascade.LocksTakenInOrder | hivemind_bus_client/protocol.py:730-740 | Among any threads, re-entrant ones included, a thread about to take a lock holds older ones only, also when its aggregator has been replaced meanwhile. |
| Cascade.NeverStuck | hivemind_bus_client/protocol.py:730-740 | As long as some thread is busy, some busy thread can move. |
| Cascade.OneOpenWhenTimely | hivemind_bus_client/protocol.py:730-740 | Throughout a run at most one aggregator is unresolved exactly when each thread that decided to replace it still finds none or a resolved one. |
| Cascade.OneOpenWhenExclusive | hivemind_bus_client/protocol.py:730-740 | Checks that do not overlap are enough. |
| Cascade.TwoCheckersTwoOpen | hivemind_bus_client/protocol.py:730-740 | Two overlapping checks leave two unresolved aggregators. |

## Left out

- Websocket and HTTP transport, TLS, reconnect timers, keepalive, the command line, waiters and decorators: plumbing around the protocol.
- AES-GCM, RSA, password handshakes, zlib and hex: abstract functions or parameters, as described above. The chosen cipher and encoding of the legacy session are not tracked.
- The Noise primitives: computational security is not modelled, only the ideal behaviour.
- hivemind-core: it is not in this repository; it appears as responders that bind what they announced, and as a network that delivers finitely often.
- TwoClients.AsyncRefinesSync: two kinds of events are left out, as said above under "Threading and asyncio client"; messages handed to a socket after a close frame count as written.
- Threads inside the handshake: handlers run to completion. A threading client whose retry runs on another thread while a reply is being handled is not modelled, nor is an emit that waits for the connection to open or a socket that fails in mid-send.
- The counting loop of wait_for_handshake: its retries are events that may happen at any time while connected.
- HELLO and HANDSHAKE payloads that are not dictionaries; offers of patterns or suites that are not lists; node ids that cannot be dictionary keys.
- Floats, non-finite numbers, lone surrogates and non-string dictionary keys in JSON, and texts with a key twice in one dictionary: a dictionary is what loading gave, each key once. A bare float as the server's selection would be taken for unreadable text.
- INTERCOM handling, trust marking, QUERY, BROADCAST and the injection of bus messages: single decisions on fields.
- Bus messages: the bus library is taken to store {} for missing data and context and to serialize, and give as its dictionary, type, data and context; its own reader is a parameter of Deserialize.
- Empty BINARY payloads: the constructor turns them into an empty dictionary, so the round trip asks for a non-empty one.
- update_hop_data with extra data: the merge belongs to another library. Recorded hops share their target list with the message in the source; here a record holds the list as it was.
- Peers, targets and flood ids that are not strings; timestamps, latency computation and rounding: labels take a node's site and its printed latency as given.
- Iteration order of dictionaries and sets: a parameter of rendering, constrained to list each entry once.
- HiveMap.HiveMapper.ToAscii: inputs on which the source's recursion does not end are excluded, as `HiveMap.RootedEndsWhen` and `HiveMap.RawEndsWhen` decide them; Python's limit on nested calls is not modelled.
- Session.TransportHasPinnedKey: asks that the pin identifier be fixed, by an endpoint or a known node id; `Session.TransportPinnedUnlessLapsed` covers the other clients.
- Protocol.SlaveProtocol.StartNoiseHandshake: a node id that is no string is taken to make the Noise library's initialization fail; the library is not part of this model.
- Callbacks that raise in the aggregator: select and emit are taken to return.
- Transport.Receiver.HandleMessage: what dispatch does with a payload, and messages without a transport, are modelled by the send paths and not in this class.
