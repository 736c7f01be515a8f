# A verified model of the PeerCore connection stack

PeerCore is a small libp2p stack: a TCP connection is upgraded by multistream-select, secured by
Noise XX, and multiplexed by yamux. This project models that stack in Dafny, from the bytes on the
socket to the streams of the applications, and proves what it guarantees.

Layers, bottom up:

* `bytes`, `varint`, `base58`, `routing_table`, `routing_bits`: bounded integers, varints, peer ids as
  text, and the XOR nearest-peer table, down to the single bits that decide it.
* `multistream`, `multistream_laws`, `negotiating_stream`: the negotiation messages, the scanner that
  waits for them, exactly what either side accepts, and the stream wrapper that is transparent after
  negotiation.
* `octets`, `noise_payload`, `payload_laws`, `noise`, `noise_reference`, `noise_session`,
  `noise_theorems`, `transport`: cryptography as free terms at the granularity of single octets, the
  handshake payload and exactly what is accepted of it, the four message functions, an interpreter of
  Noise message patterns that they agree with, the object they update, agreement, transcript binding
  and nonce freshness, and the channel of encrypted frames.
* `yamux_frame`, `yamux_mux`, `yamux_session`, `yamux_classes`, `yamux_net`, `yamux_safety`,
  `yamux_theorems`, `yamux_effects`, `yamux_ids`, `yamux_byte_net`, `yamux_replies`: the frame codec,
  the session on values and as objects, two sessions over frame queues with credit conservation,
  delivery, resets and the exact life of stream ids, the same over byte pipes, and why answers end.
* `wire_layout`: the bytes of all of these, spelled out.
* `connection`, `connection_session`, `connection_events`, `connection_laws`, `muxer_choice`,
  `direct_stream`, `stream_events`, `yamux_events`: one connection through all stages, the object, the
  grammar of its events, what each entry point does, how a muxer is chosen, and that announced streams
  are the ones handed out.
* `secure_link`, `secure_pair`, `stack_handshake`, `stack`, `stack_theorems`, `stack_progress`,
  `stack_streams`, `oversize_writes`, `mixed_lists`: two connections over sockets that deliver octets
  in any segmentation, from the first byte of the upgrade on. Every run is a run of the two yamux
  sessions over plain byte pipes, so the delivery results hold end to end.

Functions on values say what each operation computes; classes update their fields step by step and
are proved against those functions; lemmas about the functions state what the program promises.

Cryptography is symbolic. A hash, a MAC, a public key, a shared secret, a ciphertext and a signature
are free constructors applied to their inputs, so collision resistance, commutativity of the key
agreement, and "decrypts only what was encrypted under this key, nonce and associated data" are
theorems of the model. Where the program does arithmetic on such an octet, it reads as 0.

Where the code and its documentation differ, the model follows the code:

* a read from an open stream with nothing to read reports EAGAIN, not 0 bytes;
* `leading_zeros` returns 255 also for two peers that differ in the last bit only;
* a proposal "na", or one that ends in a newline, can be misunderstood by the two negotiating sides;
* the empty byte string encodes to "1", which decodes to one zero byte;
* stream ids wrap around: after its last id a server uses 0 and a client uses 1 again;
* two sides that list the same muxers in different orders can choose differently; the one that then
  negotiates is ended by the first message of the other;
* a write of which more than 65507 bytes are accepted is dropped, and the next message then ends the
  peer's connection.

## Model

| member | source | states |
|---|---|---|
| `StackTheorems.UpgradeNeverFails` | src/connection_session.cpp:498-699 | for two compatible sides, no schedule of segmented deliveries, early use of streams and writes that get at most 65507 bytes accepted drives either side to Failed or Closed |
| `StackTheorems.DrainedMeansReady` | src/connection_session.cpp:759-811 | in every such run, whenever both sockets are drained both sides are Ready with yamux active and the ciphers of either direction equal, key and nonce |
| `StackTheorems.UpgradeCompletes` | src/connection_session.cpp:394-421 | five alternate deliveries of everything under way lead from the begun upgrade to that state |
| `StackProgress.NoStateIsStuck` | src/connection_session.cpp:344-375 | from every state such a run can reach, delivering everything under way seven times in turn, and nothing else, makes both sides ready and leaves nothing under way, unless a cipher runs out of nonces meanwhile |
| `StackProgress.TurnsAdvance` | src/connection_session.cpp:498-550 | each such delivery takes the upgrade to the next of its six phases or leaves it where it is, so five of them always reach the last |
| `StackProgress.DrainHushed` | src/connection_session.cpp:526-541 | what a side sends only in answer makes the other side send nothing, so the exchange of answers ends |
| `StackTheorems.LayersRefineByteNet` | src/connection_session.cpp:526-541 | in every run the two yamux sessions, and the plaintext bytes inside the octets under way, are a state of two sessions joined by plain byte pipes: encryption, framing and segmentation neither lose, repeat nor reorder a byte |
| `StackTheorems.StreamsAreDelivered` | src/connection_session.cpp:813-818 | end to end and in both directions: bytes read from a stream are a prefix of the bytes written to it by the other application; of an un-reset stream at most 256 KiB are ever buffered, and once nothing is under way all written bytes are read or buffered |
| `Stack.ApplyKeeps` | src/connection_session.cpp:344-375 | every delivery and every stream operation keeps the six-phase invariant of the two-party upgrade (greeting, its answer, messages 1 to 3, both ready) |
| `Stack.ResponderJoins` | src/connection_session.cpp:654-660 | the responder that completes message 3 joins the encrypted exchange even when the initiator's first frames arrived with it, in whole or in part |
| `StackHandshake.OnlyCommonEntry` | src/connection_session.cpp:242-256 | if yamux is the only name common to both lists, the first prefers it, whatever the order of either list |
| `StackHandshake.Message2Fits` | src/protocol/noise/noise.cpp:446-501 | the reply of a compatible responder fits one wire frame |
| `StackHandshake.Message3Fits` | src/protocol/noise/noise.cpp:542-579 | message 3 of a compatible initiator fits one wire frame |
| `StackHandshake.HandshakeOutcome` | src/connection_session.cpp:635-671 | over the connection the honest handshake succeeds on both sides, each learning the other's identity and muxer list |
| `StackHandshake.PartOfHello` | src/connection_session.cpp:161-203 | every strict prefix of the greeting is reported incomplete, so a segmented greeting never fails |
| `StackHandshake.ResponderGreets` | src/connection_session.cpp:572-599 | the complete greeting, and nothing less, takes the responder to awaiting message 1 |
| `StackHandshake.InitiatorStartsNoise` | src/connection_session.cpp:552-610 | the complete answer takes the initiator to awaiting message 2, with message 1 on the wire |
| `StackHandshake.ResponderReplies` | src/connection_session.cpp:637-644 | message 1 takes the responder to awaiting message 3, with message 2 on the wire |
| `StackHandshake.InitiatorFinishes` | src/connection_session.cpp:645-653 | message 2 makes the initiator ready, with message 3 on the wire and yamux chosen |
| `StackHandshake.ResponderFinishes` | src/connection_session.cpp:498-550 | message 3 makes the responder ready, after which whatever follows it in the buffer is drained as encrypted frames |
| `StackTheorems.ExampleIsCompatible` | src/connection_session.cpp:877-903 | two fresh sessions with identities that both offer yamux meet all these conditions, and their upgrade completes |
| `ConnectionEvents.EventsFollowTheGrammar` | src/connection_session.cpp:461-482 | over every sequence of inputs, hostile ones and repeated upgrades included, the events are a prefix of (Secured MultiplexerReady stream-events)? Error? Closed; the state is Closed exactly when the sequence is complete and Ready exactly when streams may be announced |
| `ConnectionEvents.ReadyMeansSecured` | src/connection_session.cpp:612-633 | a Ready connection has completed its handshake and holds both keys, and an outbound one with a readable dialed peer id reached exactly that peer |
| `ConnectionEvents.ReactKeepsGood` | src/connection_session.cpp:344-445 | each single entry point keeps the invariant behind these two results |
| `ConnectionEvents.ProcessKeepsAlive` | src/connection_session.cpp:498-550 | processing input, through every stage and error, emits no event out of order and never marks a connection secured before the handshake is complete and the peer validated |
| `ConnectionEvents.DrainKeepsReady` | src/connection_session.cpp:526-547 | draining a ready connection only ever adds stream events |
| `ConnectionEvents.FinishKeepsAlive` | src/connection_session.cpp:673-699 | finishing the secure upgrade with a mismatched peer leaves the connection not ready |
| `ConnectionEvents.AbandonIsGood` | src/connection_session.cpp:820-828 | an error is reported once and followed by exactly one closing event |
| `ConnectionSessions.ConnectionSession.constructor` | src/connection_session.cpp:313-328 | a new session is in its initial state with empty buffers |
| `ConnectionSessions.ConnectionSession.FlushWire` | src/connection_session.cpp:93-112 | whatever part of the buffer the kernel takes, in any number of sends, nothing queued is lost or reordered; an error of the socket is reported |
| `ConnectionSessions.ConnectionSession.QueueWireMessage` | src/connection_session.cpp:79-86 | queues the message behind its two-byte length and flushes, or reports that it is longer than 65535 |
| `ConnectionSessions.ConnectionSession.QueueEncryptedMessage` | src/connection_session.cpp:229-240 | one nonce is used per call, even when the frame is then refused for its size |
| `ConnectionSessions.ConnectionSession.FlushYamuxOutgoing` | src/connection_session.cpp:813-818 | everything the yamux session has to send leaves as one encrypted message |
| `ConnectionSessions.ConnectionSession.ReceiveYamux` | src/connection_session.cpp:533-537 | decrypted bytes are appended to the yamux buffer and every complete frame is handled |
| `ConnectionSessions.ConnectionSession.CreateStream` | src/connection_session.cpp:836-857 | creates the single stream of a connection without a muxer, numbers it and announces it |
| `ConnectionSessions.ConnectionSession.CompleteReadyState` | src/connection_session.cpp:759-788 | Secured and MultiplexerReady, in this order, and the inbound stream of a muxer-less responder |
| `ConnectionSessions.ConnectionSession.FinishSecureUpgrade` | src/connection_session.cpp:673-699 | reaches the specified state: a stranger is refused, and the two muxer lists decide between yamux, no muxer and a negotiation; `ConnectionLaws.StrangersAreRefused` and `MuxerChoice.FinishMeans` say which |
| `ConnectionSessions.ConnectionSession.ValidateExpectedPeer` | src/connection_session.cpp:612-633 | fails exactly for a missing or different authenticated peer of an outbound connection whose dialed id can be read |
| `ConnectionSessions.ConnectionSession.ProcessProtocolNegotiation` | src/connection_session.cpp:552-599 | waits for a complete exchange, then answers or reads it, and consumes exactly it |
| `ConnectionSessions.ConnectionSession.ProcessHandshakeFrame` | src/connection_session.cpp:635-671 | the message is handed to the handshake function that the current state awaits; a message in any other state is an error |
| `ConnectionSessions.ConnectionSession.ProcessHandshake` | src/connection_session.cpp:504-519 | pops and handles handshake frames until the channel is secure, the stage changes or no complete frame is left |
| `ConnectionSessions.ConnectionSession.CollectMuxerNegotiation` | src/connection_session.cpp:701-714 | decrypts every complete frame into the negotiation buffer |
| `ConnectionSessions.ConnectionSession.ProcessMuxerNegotiation` | src/connection_session.cpp:701-757 | settles the muxer over the secure channel once a complete exchange is there, then becomes ready |
| `ConnectionSessions.ConnectionSession.DrainInput` | src/connection_session.cpp:526-547 | every complete frame is decrypted and handed on; the loop ends in the state of the recursive definition |
| `ConnectionSessions.ConnectionSession.ProcessPendingInput` | src/connection_session.cpp:498-550 | one pass through the stages brings the fields to the specified state, errors included |
| `ConnectionSessions.ConnectionSession.CloseSocket` | src/connection_session.cpp:69-77 | empties both wire buffers; what was still to be transmitted is recorded as discarded |
| `ConnectionSessions.ConnectionSession.Close` | src/connection_session.cpp:461-482 | closing keeps the event grammar |
| `ConnectionSessions.ConnectionSession.OnSocketReadable` | src/connection_session.cpp:344-375 | input, end of file, reset and error each lead to the specified state, keeping the event grammar |
| `ConnectionSessions.ConnectionSession.OnSocketWritable` | src/connection_session.cpp:377-385 | a failed flush abandons the connection, keeping the event grammar |
| `ConnectionSessions.ConnectionSession.OnTimeout` | src/connection_session.cpp:387-392 | only a connection that is not ready is abandoned |
| `ConnectionSessions.ConnectionSession.BeginOutboundUpgrade` | src/connection_session.cpp:394-409 | starts the upgrade of an outbound connection, and refuses in the wrong role or state |
| `ConnectionSessions.ConnectionSession.BeginInboundUpgrade` | src/connection_session.cpp:411-421 | starts the upgrade of an inbound connection, and refuses in the wrong role or state |
| `ConnectionSessions.ConnectionSession.RequestOpenStream` | src/connection_session.cpp:423-445 | the application gets the id that the one new event announces, which happens only if the opening could be sent; otherwise the reason and no event |
| `ConnectionSessions.ConnectionSession.AcceptInboundStream` | src/connection_session.cpp:447-452 | hands out the oldest stream of the list that `StreamEvents.AcceptedAreHandedOut` ties to the announced ones, or nothing when the list is empty |
| `ConnectionSessions.ConnectionSession.ResetDirectStream` | src/connection_session.cpp:293-300 | a reset of the single stream closes the socket and emits no event |
| `ConnectionSessions.ConnectionSession.NextEvent` | src/connection_session.cpp:454-459 | events come out in the order they were emitted, none lost |
| `SecureLink.DrainLinks` | src/connection_session.cpp:526-541 | draining a running connection never fails and hands on exactly the batches whose frames have arrived, the rest staying under way |
| `SecureLink.PumpExtends` | src/connection_session.cpp:794-802 | flushing after every handled frame sends, as separate encrypted messages, the same bytes as handling all frames at once |
| `SecureLink.OperationLinks` | src/connection_session.cpp:813-818 | one stream operation is at most one encrypted message, and leaves the pipe in step |
| `SecureLink.OversizeBatchIsLost` | src/connection_session.cpp:229-240 | a batch too large for one message is taken from the session, uses a nonce and never reaches the wire |
| `OversizeWrites.WriteFailsExactly` | src/connection_session.cpp:229-240 | a write on a flushed ready connection with nonces left reports an error if and only if more than 65507 bytes of it were accepted by the stream |
| `OversizeWrites.FailedWriteIsLost` | src/connection_session.cpp:813-818 | such a write adds nothing to the wire, uses up a nonce, and its bytes count as written |
| `OversizeWrites.OversizeWriteEndsConnection` | src/protocol/noise/noise.cpp:640-658 | in every reachable state with both sides ready: after such a write, whatever the writer sends next makes the peer report a problem and close |
| `OversizeWrites.BigWriteEndsConnection` | src/connection_session.cpp:813-818 | and it happens: every compatible pair of fresh sides has an ordinary run after which a write of 65508 bytes fails and the next message ends the connection |
| `SecurePair.PairGets` | src/connection_session.cpp:344-375 | deliveries of any size keep both directions of a ready pair in step |
| `Transport.Lockstep` | src/protocol/noise/noise.cpp:620-658 | over every run of sends, partial moves, arrivals and pops in which no send failed, sender nonce minus receiver nonce is the number of frames under way, and what was received is a prefix of what was sent |
| `Transport.FailsOnlyBySending` | src/protocol/noise/noise.cpp:763-775 | a channel fails if and only if some send exceeds 65519 bytes of plaintext or finds its nonces used up; receiving never fails |
| `Transport.NoncesAreNotRepeated` | src/protocol/noise/noise.cpp:620-638 | over every run, failed sends included, of any two sealed messages the later has the larger nonce under the same key, and they differ |
| `Transport.DrainedMeansReceived` | src/connection_session.cpp:140-159 | with nothing under way every sent plaintext has been received |
| `Transport.OversizeBreaksStep` | src/protocol/noise/noise.cpp:620-638 | one oversized message makes the receiver refuse the next message: the size bound is necessary |
| `Transport.PopInvertsEncode` | src/connection_session.cpp:140-159 | a frame is popped as it was encoded whatever follows, and decodes to its message |
| `Transport.PoppedDecodes` | src/connection_session.cpp:150-154 | what is popped always decodes, so the error branch of popping cannot be taken |
| `Transport.PrefixIsNotPopped` | src/connection_session.cpp:143-147 | nothing is popped before the whole frame has arrived |
| `Transport.PopIsStable` | src/connection_session.cpp:140-159 | more octets do not change what is popped |
| `NoiseTheorems.HandshakeAgrees` | src/protocol/noise/noise.cpp:427-618 | an honest run succeeds and ends with equal handshake hash and chaining key, crossed transport keys at nonce zero, and each side holding the other's static key, identity and muxer list |
| `NoiseTheorems.Message2IsBound` | src/protocol/noise/noise.cpp:503-541 | a message 2 whose payload field any honest responder wrote, in any run, is accepted only as that responder's whole reply to this initiator's own message 1; the two then share hash, chaining key and cipher |
| `NoiseTheorems.Message3IsBound` | src/protocol/noise/noise.cpp:581-618 | a message 3 whose payload field any honest initiator wrote is accepted only if the whole three-message transcripts of both sides are equal; the transport keys then cross |
| `NoiseTheorems.InitiatorNeverRepeatsANonce` | src/protocol/noise/noise.cpp:241-275 | whatever message 2 is, no two cipher calls of the initiator's handshake share key and nonce, and the transport keys differ from each other and from every handshake key |
| `NoiseTheorems.ResponderNeverRepeatsANonce` | src/protocol/noise/noise.cpp:241-290 | the same for the responder, whatever messages 1 and 3 are |
| `NoiseTheorems.SplitMakesNewKeys` | src/protocol/noise/noise.cpp:277-290 | the two transport keys are distinct and new |
| `NoiseTheorems.AuthAgrees` | src/protocol/noise/noise.cpp:241-275 | what one side writes to authenticate itself the other accepts, learning exactly the writer's static key, identity and muxers |
| `NoiseTheorems.AuthBinds` | src/protocol/noise/noise.cpp:259-275 | accepting only the payload field of an honest message forces the static field, the earlier transcript and the keys to be the writer's |
| `NoiseTheorems.TranscriptInjective` | src/protocol/noise/noise.cpp:135-141 | equal handshake hashes mean equal lists of hashed messages |
| `NoiseTheorems.SealedIsOpened` | src/protocol/noise/noise.cpp:241-275 | decrypt-and-hash undoes encrypt-and-hash between equal states and leaves equal states |
| `NoiseTheorems.MixDhAgrees` | src/protocol/noise/noise.cpp:233-239 | both ends of a key agreement derive the same chaining key and cipher |
| `NoiseTheorems.SplitsCross` | src/protocol/noise/noise.cpp:277-290 | equal chaining keys split into crossed ciphers |
| `Octets.HkdfGoesDeeper` | src/protocol/noise/noise.cpp:106-133 | the two derived keys differ and nest strictly deeper than the chaining key, so no key recurs |
| `Octets.SharedSecretCommutes` | src/protocol/noise/noise.cpp:75-84 | both secrets of two honest key pairs agree |
| `Octets.SharedSecretIsPrivate` | src/protocol/noise/noise.cpp:75-84 | and no other pair of scalars shares that secret |
| `Octets.ZeroIsRefused` | src/protocol/noise/noise.cpp:75-84 | a key agreement fails exactly on the all-zero point |
| `Octets.SignInjective` | src/protocol/noise/noise.cpp:743-761 | a signature determines its signer and what was signed |
| `Octets.UnsealInvertsSeal` | src/protocol/noise/noise.cpp:193-220 | decryption returns what was encrypted under the same key, nonce and associated data |
| `Octets.SealInjective` | src/protocol/noise/noise.cpp:168-191 | a ciphertext determines key, nonce, associated data and plaintext |
| `NoiseSessions.NoiseSession.InitializeSymmetric` | src/protocol/noise/noise.cpp:143-166 | every field of an earlier handshake is cleared and the hash restarts from the protocol name |
| `NoiseSessions.NoiseSession.MixKey` | src/protocol/noise/noise.cpp:222-231 | the session holds the derived chaining key and a fresh cipher at nonce zero |
| `NoiseSessions.NoiseSession.MixKeyDh` | src/protocol/noise/noise.cpp:233-239 | a failed key agreement leaves the session unchanged |
| `NoiseSessions.NoiseSession.EncryptAndHash` | src/protocol/noise/noise.cpp:241-257 | before any key the plaintext passes through; afterwards it is sealed under the current hash and the nonce advances |
| `NoiseSessions.NoiseSession.DecryptAndHash` | src/protocol/noise/noise.cpp:259-275 | a message that does not open changes neither hash nor nonce |
| `NoiseSessions.NoiseSession.SplitTransport` | src/protocol/noise/noise.cpp:277-290 | the roles take the two keys crosswise |
| `NoiseSessions.NoiseSession.WriteMsg1` | src/protocol/noise/noise.cpp:427-444 | the fields and the message are those of the specified function |
| `NoiseSessions.NoiseSession.ProcessMsg1` | src/protocol/noise/noise.cpp:446-501 | fields and reply as specified on every path; an error keeps the part already done |
| `NoiseSessions.NoiseSession.ProcessMsg2` | src/protocol/noise/noise.cpp:503-579 | fields and message 3 as specified on every path |
| `NoiseSessions.NoiseSession.ProcessMsg3` | src/protocol/noise/noise.cpp:581-618 | fields as specified on every path; complete only on success |
| `NoisePayload.PayloadRoundTrip` | src/protocol/noise/noise.cpp:660-741 | parsing a made payload gives back key, signature and the muxer list in order, also none and empty names |
| `NoisePayload.IdentityRoundTrip` | src/protocol/noise/noise.cpp:386-406 | a side's payload is believed by its peer, with exactly its identity and muxers |
| `NoisePayload.AcceptedPeerSigned` | src/protocol/noise/noise.cpp:743-761 | an accepted identity has signed this static key, and the same payload is accepted with no other static key |
| `NoisePayload.PublicKeyRoundTrip` | src/protocol/noise/noise.cpp:292-334 | the identity key survives its protobuf form |
| `NoisePayload.ExtensionsRoundTrip` | src/protocol/noise/noise.cpp:342-375 | any list of muxer names survives its protobuf form |
| `NoisePayload.ReadFieldOfBytes` | src/protocol/noise/noise.cpp:54-60 | a written length-delimited field is read back whatever follows it |
| `NoisePayload.ParsePublicKeyLoop` | src/protocol/noise/noise.cpp:299-334 | the parsing loop meets its recursive definition, errors included |
| `NoisePayload.ParseExtensionsLoop` | src/protocol/noise/noise.cpp:351-375 | the parsing loop meets its recursive definition, errors included |
| `NoisePayload.ParsePayloadLoop` | src/protocol/noise/noise.cpp:695-741 | the parsing loop meets its recursive definition, errors included |
| `NoisePayload.WriteExtensions` | src/protocol/noise/noise.cpp:342-349 | the writing loop meets its recursive definition |
| `Varint.RoundTrip` | src/protocol/multistream_select.cpp:9-39 | decoding undoes encoding for every 64-bit value, whatever bytes follow |
| `Varint.DecodeStable` | src/protocol/multistream_select.cpp:20-39 | a decided decoding is not changed by more bytes |
| `Varint.DecodePrefix` | src/protocol/multistream_select.cpp:20-39 | an encoding cut short is incomplete, never invalid |
| `Varint.EncodeUvarint` | src/protocol/multistream_select.cpp:9-18 | the loop produces the seven-bit groups of the value |
| `Varint.DecodeUvarint` | src/protocol/multistream_select.cpp:20-39 | the loop computes the 64-bit value, reports an eleventh byte as invalid and a cut encoding as incomplete |
| `Multistream.SpanIsStable` | src/connection_session.cpp:195-203 | once the scanner delimits an exchange, every extension of the buffer is delimited at the same place |
| `Multistream.ParserUsesTheSpan` | src/connection_session.cpp:195-203 | on the delimited bytes the parser never reports incomplete, and on success consumes all of them |
| `Multistream.PrefixIsIncomplete` | src/swarm.cpp:20-62 | every strict prefix of a complete exchange is reported incomplete |
| `Multistream.SpanIsNext` | src/connection_session.cpp:185-193 | scanner and parser see the same message or the same obstacle |
| `Multistream.InvalidIsStable` | src/connection_session.cpp:161-178 | an invalid length stays invalid when more bytes arrive |
| `Multistream.RoundTrip` | src/protocol/multistream_select.cpp:112-135 | a written message is read back up to its newline, whatever follows |
| `Multistream.NegotiationAgrees` | src/protocol/multistream_select.cpp:48-110 | the two sides agree on a proposal, or on its refusal, if and only if it is not an unsupported "na" and does not end in a newline that makes a supported name of it |
| `Multistream.NaIsMisread` | src/protocol/multistream_select.cpp:64-81 | an unsupported proposal "na" is taken for a success by the initiator: the exception is real |
| `Multistream.EncodeMessage` | src/protocol/multistream_select.cpp:112-117 | writes the length of the line and the line |
| `Multistream.DecodeNext` | src/protocol/multistream_select.cpp:119-135 | the message, or the precise reason why there is none |
| `Multistream.AnswerInbound` | src/protocol/multistream_select.cpp:83-110 | the loop gives the specified answer, which `MultistreamLaws.InboundMeans` and `InboundAnswers` pin for every input: the header is checked, a supported name is echoed, any other gets "na" |
| `NegotiatingStream.ProtocolNegotiatingStream.Transparent` | src/swarm.cpp:246-275 | after negotiation the bytes read, held and still to come are exactly the inner bytes behind the exchange, for every chunking |
| `NegotiatingStream.ProtocolNegotiatingStream.Poll` | src/swarm.cpp:143-219 | the outcome is the one that the bytes read so far call for: to wait for an incomplete exchange, to be ready with the protocol it settles, or to fail with its error; the only other failures are a refused write, a failed read and a closed inner stream |
| `NegotiatingStream.ProtocolNegotiatingStream.ReadResponse` | src/swarm.cpp:171-178 | ready with exactly the protocol that the response confirms, or failed with the parser's error |
| `NegotiatingStream.ProtocolNegotiatingStream.AnswerProposal` | src/swarm.cpp:190-217 | the answer is written once; ready with exactly the protocol it names, or failed with the parser's error, the refused write, or the lack of a supported protocol |
| `NegotiatingStream.ProtocolNegotiatingStream.ReadIntoNegotiationBuffer` | src/swarm.cpp:246-264 | reads until nothing is ready, losing nothing |
| `NegotiatingStream.ProtocolNegotiatingStream.FinishNegotiation` | src/swarm.cpp:266-275 | bytes that came with the exchange are kept for the application |
| `NegotiatingStream.ProtocolNegotiatingStream.TryRead` | src/swarm.cpp:87-105 | a read returns the next application bytes, those that came with the exchange first |
| `NegotiatingStream.ProtocolNegotiatingStream.TryWrite` | src/swarm.cpp:107-116 | the inner stream is given the bytes if and only if the protocol is settled; before that it has been given nothing but the one message of the negotiation |
| `NegotiatingStream.ProtocolNegotiatingStream.CloseWrite` | src/swarm.cpp:118-125 | closing for writing reaches the inner stream only once the protocol is settled |
| `NegotiatingStream.ProtocolNegotiatingStream.Reset` | src/swarm.cpp:127-133 | a local reset fails the stream, keeps an earlier reason or records its own, and resets the inner stream |
| `YamuxTheorems.CreditIsConserved` | src/protocol/yamux/yamux.cpp:213-237 | in every reachable state of two sessions, for every un-reset stream, window plus payload under way plus unread bytes plus credit under way is 256 KiB, and no buffer exceeds that |
| `YamuxTheorems.CreditNeverSaturates` | src/protocol/yamux/yamux.cpp:400-410 | hence the clamp at the largest 32-bit value is never reached |
| `YamuxTheorems.BytesAreDelivered` | src/protocol/yamux/yamux.cpp:61-97 | every accepted byte is read, buffered or under way, once and in order; reads stay a prefix of writes even across resets |
| `YamuxTheorems.NoDataAfterFin` | src/protocol/yamux/yamux.cpp:251-264 | no payload follows a FIN of its stream on the wire |
| `YamuxTheorems.NothingAfterFin` | src/protocol/yamux/yamux.cpp:361-424 | once a FIN has been received no payload and no second FIN of that stream is ever under way, and all written bytes have arrived |
| `YamuxTheorems.EndOfStreamIsTrue` | src/protocol/yamux/yamux.cpp:61-76 | a read of an un-reset stream reports its end if and only if the peer closed it, all bytes were read and the FIN has arrived |
| `YamuxTheorems.StreamsAreAcceptedOnce` | src/protocol/yamux/yamux.cpp:377-398 | streams are accepted and acknowledged once each, in the order they were opened |
| `YamuxTheorems.StreamIdsAreDisjoint` | src/protocol/yamux/yamux.cpp:322-326 | the ids of the two sides never meet and are never 0 |
| `YamuxTheorems.TablesAgree` | src/protocol/yamux/yamux.cpp:190-211 | both tables of a session always hold the same streams |
| `YamuxTheorems.NoGoAway` | src/protocol/yamux/yamux.cpp:377-382 | two such sessions never send each other a go-away, so opening always succeeds |
| `YamuxIds.IdsAreCounted` | src/protocol/yamux/yamux.cpp:154-176 | over every run, without bound, the id of each opened stream and the next one are first id plus twice the index, modulo 2^32 |
| `YamuxIds.IdsAreNewUntilExhausted` | src/protocol/yamux/yamux.cpp:154-176 | over every run, the next id of a side is non-zero and unused if and only if it has opened fewer than 2^31 streams as a client, or 2^31 - 1 as a server |
| `YamuxIds.ServerRunsOut` | src/protocol/yamux/yamux.cpp:154-176 | a run reaches that bound, and the next stream of the server gets id 0: its SYN is dropped by any peer, so it is never accepted |
| `YamuxIds.ClientRunsOut` | src/protocol/yamux/yamux.cpp:154-176 | a run reaches that bound, and the next stream of the client gets id 1 again: a peer that still holds stream 1 neither accepts nor acknowledges it |
| `YamuxSafety.RunHolds` | src/protocol/yamux/yamux.cpp:361-424 | the invariant behind these results holds after every run in which no side opened more streams than it has ids |
| `YamuxSafety.ReceiveKeeps` | src/protocol/yamux/yamux.cpp:361-424 | handling any frame the peer can have sent keeps the invariant |
| `YamuxByteNet.BytesRefineFrames` | src/protocol/yamux/yamux.cpp:328-359 | every run on bytes, however they are cut up, is matched by a run on frames |
| `YamuxByteNet.ByteStreamsAreDelivered` | src/protocol/yamux/yamux.cpp:144-152 | over byte pipes reads are a prefix of writes, and all of them once nothing is under way |
| `YamuxByteNet.HandedIsPrefix` | src/protocol/yamux/yamux.cpp:144-152 | over every run on bytes, what one end was handed is a prefix of what the other flushed, the rest being under way |
| `YamuxReplies.RepliesAreQuiet` | src/protocol/yamux/yamux.cpp:361-398 | whatever the session and the frame, there is at most one answer, and it is well formed and of a kind that is not answered |
| `YamuxReplies.QuietIsNotAnswered` | src/protocol/yamux/yamux.cpp:361-424 | no session in any state answers a frame of that kind |
| `YamuxReplies.AlwaysInFrames` | src/protocol/yamux/yamux.cpp:328-359 | over every run on bytes, whatever the ids, what is held, under way and pending in a direction is whole frames, of which the receiver never holds a complete one unhandled |
| `YamuxByteNet.CutFrames` | src/protocol/yamux/yamux.cpp:337-359 | any cut of a byte stream of frames is some whole frames and an unparsable rest |
| `YamuxByteNet.PumpIsReceive` | src/protocol/yamux/yamux.cpp:328-335 | delivering bytes to an end is exactly what its session does on receiving them |
| `YamuxSession.ChunksDoNotMatter` | src/protocol/yamux/yamux.cpp:144-148 | any splitting of the input into receive calls gives the same state and output |
| `YamuxSession.ParsingMakesProgress` | src/protocol/yamux/yamux.cpp:337-359 | each handled frame takes at least twelve bytes off the buffer |
| `YamuxSession.ProcessFrames` | src/protocol/yamux/yamux.cpp:328-335 | a session handles all complete frames in order and leaves the rest |
| `YamuxFrame.ParseInvertsWrite` | src/protocol/yamux/yamux.cpp:337-359 | the parser returns every well-formed written frame, whatever follows it |
| `YamuxFrame.WriteInvertsParse` | src/protocol/yamux/yamux.cpp:426-433 | writing a parsed frame gives its bytes back |
| `YamuxFrame.ParseIsStable` | src/protocol/yamux/yamux.cpp:337-359 | a parsed frame is not changed by more bytes |
| `YamuxFrame.HeaderRoundTrip` | src/protocol/yamux/yamux.cpp:15-37 | every header survives its twelve bytes |
| `Yamux.YamuxStream.TryRead` | src/protocol/yamux/yamux.cpp:61-76 | copies the front of the buffer, returns that much credit, and distinguishes end of stream from nothing yet |
| `Yamux.YamuxStream.TryWrite` | src/protocol/yamux/yamux.cpp:78-83 | accepts what the window allows, or reports why not |
| `Yamux.YamuxStream.CloseWrite` | src/protocol/yamux/yamux.cpp:85-89 | one FIN, once |
| `Yamux.YamuxStream.Reset` | src/protocol/yamux/yamux.cpp:91-97 | the stream leaves both tables and its handle reads as ended |
| `Yamux.YamuxSession.OpenStream` | src/protocol/yamux/yamux.cpp:154-176 | a new id, one SYN, both tables extended; refused after a go-away |
| `Yamux.YamuxSession.GetOrCreateStream` | src/protocol/yamux/yamux.cpp:190-211 | finds the stream or adds it to both tables, leaving all others |
| `Yamux.YamuxSession.WriteStreamData` | src/protocol/yamux/yamux.cpp:213-237 | takes from the window exactly what is framed |
| `Yamux.YamuxSession.UpdateReceiveWindow` | src/protocol/yamux/yamux.cpp:279-291 | credit for what was read, none for zero |
| `Yamux.YamuxSession.CloseStreamWrite` | src/protocol/yamux/yamux.cpp:251-264 | the FIN is sent and the stream marked |
| `Yamux.YamuxSession.ResetStream` | src/protocol/yamux/yamux.cpp:266-277 | the RST is sent and the stream erased |
| `Yamux.YamuxSession.TryParseFrame` | src/protocol/yamux/yamux.cpp:337-359 | pops the front frame, or leaves the buffer untouched |
| `Yamux.YamuxSession.HandleFrame` | src/protocol/yamux/yamux.cpp:361-424 | the fields and the frames written are those of the specified step for every frame; `YamuxEffects` says what that step is, kind by kind |
| `Yamux.YamuxSession.ProcessFrames` | src/protocol/yamux/yamux.cpp:328-335 | the erasing loop meets the recursive definition |
| `Yamux.YamuxSession.Receive` | src/protocol/yamux/yamux.cpp:144-148 | the session after receiving is the specified one |
| `Yamux.YamuxSession.DrainOutgoing` | src/protocol/yamux/yamux.cpp:150-152 | hands out and empties the send buffer |
| `Base58.DecodeEncode` | src/types.cpp:68-132 | decoding undoes encoding for every byte string but the empty one, which alone does not come back |
| `Base58.EncodeDecode` | src/types.cpp:68-132 | an accepted text is what its bytes encode to if and only if it is not empty: no two non-empty texts decode alike |
| `Base58.DecodeAccepts` | src/types.cpp:100-115 | accepted are exactly the strings over the alphabet |
| `Base58.RebaseRoundTrip` | src/types.cpp:68-132 | radix conversion with preserved leading zeros is its own inverse in the other direction |
| `Base58.ConvertIsDigits` | src/types.cpp:76-88 | the in-place passes compute the positional digits of the number |
| `Base58.CarryBound` | src/types.cpp:78-84 | no intermediate carry overflows |
| `Base58.EncodeBase58` | src/types.cpp:68-98 | the loops compute the conversion, writing "1" for the empty input |
| `Base58.DecodeBase58` | src/types.cpp:100-132 | the loops compute the conversion, or refuse a foreign character |
| `Base58.PeerIdRoundTrip` | src/types.cpp:138-172 | reading a written peer id gives it back |
| `Base58.PeerIdTextIsCanonical` | src/types.cpp:153-172 | every accepted text is the one that would be written |
| `RoutingTable.RoutingTable.Insert` | src/routing_table.cpp:11-17 | adds an unknown foreign peer at the end, otherwise nothing; no repetition and never the local peer |
| `RoutingTable.RoutingTable.Remove` | src/routing_table.cpp:19-21 | removes exactly the given peer and keeps the order of the others |
| `RoutingTable.RoutingTable.ClosestPeers` | src/routing_table.cpp:23-38 | the strictly ascending list of min(k, size) peers such that every omitted one is strictly farther, in the order that `RoutingBits.FirstBitDecides` describes |
| `RoutingTable.RoutingTable.Size` | src/routing_table.cpp:40 | the number of distinct peers |
| `RoutingTable.ClosestAreUnique` | src/routing_table.cpp:23-38 | only one list meets that description |
| `RoutingTable.ClosestDependsOnTheSet` | src/routing_table.cpp:23-38 | so the answer depends on which peers are known, not on the order of inserts and removes |
| `RoutingTable.CloserIsStrictTotal` | src/routing_table.cpp:25-35 | XOR distance to a target is a strict total order on peers |
| `RoutingTable.MoreZerosIsCloser` | src/routing_table.cpp:42-48 | strictly more leading zeros means strictly smaller distance |
| `RoutingTable.LeadingZeros` | src/routing_table.cpp:42-48 | the loop computes the specified count, which `RoutingBits.LeadingZerosIsIndex` shows to be the index of the first differing bit |
| `RoutingTable.SentinelMeans` | src/routing_table.cpp:42-48 | 255 is returned if and only if the peers differ in nothing but possibly the last bit |
| `RoutingTable.SentinelIsAmbiguous` | src/routing_table.cpp:47 | so 255 does not imply equal peers, as its comment says: two different peers with it |
| `ConnectionLaws.ResponderChecks` | src/connection_session.cpp:572-599 | the responder goes on to the handshake exactly on a complete exchange of the header and "/noise"; it then answers with the same two names and takes nothing more from its buffer; anything else is refused with nothing sent |
| `ConnectionLaws.InitiatorChecks` | src/connection_session.cpp:601-610 | the initiator sends message 1 exactly when the exchange confirms "/noise" |
| `ConnectionLaws.GreetingIsAwaited` | src/connection_session.cpp:552-570 | an incomplete greeting changes nothing; the one other obstacle is an impossible length, and it is an error |
| `ConnectionLaws.TakesMessage1` | src/connection_session.cpp:637-644 | a bad message 1 is an error that sends nothing; a good one is answered with message 2, and message 3 is awaited |
| `ConnectionLaws.TakesMessage2` | src/connection_session.cpp:645-653 | a bad message 2 is an error that sends nothing; a good one is answered with message 3, and then the peer is looked at |
| `ConnectionLaws.TakesMessage3` | src/connection_session.cpp:654-660 | a bad message 3 is an error; a good one completes the handshake with nothing sent |
| `ConnectionLaws.UnawaitedMessage` | src/connection_session.cpp:662-666 | a handshake message that is not awaited is an error and changes nothing |
| `ConnectionLaws.StrangersAreRefused` | src/connection_session.cpp:612-633 | a dialed connection ends exactly if nobody was authenticated or the dialed id can be read and names somebody else |
| `ConnectionLaws.ForgeriesAreErrors` | src/connection_session.cpp:701-714 | an encrypted frame that does not open is an error while a muxer is chosen and on a ready connection |
| `ConnectionLaws.ProcessTakesAll` | src/connection_session.cpp:498-550 | input that is processed without an error leaves no whole frame waiting, in any stage after the greeting |
| `ConnectionLaws.FrameIsAnnounced` | src/connection_session.cpp:790-811 | the events of any stream frame: a new stream is announced before any end of it, and each reported end once |
| `ConnectionLaws.CollectsAll` | src/connection_session.cpp:701-714 | whatever encrypted messages have arrived are put into the negotiation buffer, all of them and in order |
| `ConnectionLaws.InputEnds` | src/connection_session.cpp:344-366 | end of file and a reset by the peer end the connection without a problem, a socket error with one; nothing that has just arrived is looked at |
| `ConnectionLaws.InputFails` | src/connection_session.cpp:370-374 | otherwise reading ends the connection exactly when the input cannot be processed, and reports it |
| `ConnectionLaws.InactiveIgnores` | src/connection_session.cpp:344-392 | a connection that has ended ignores readable, writable and timeout |
| `ConnectionLaws.TimeoutMeans` | src/connection_session.cpp:387-392 | a timeout ends a connection that is not ready, as a problem, and leaves a ready one unchanged |
| `ConnectionLaws.WritableMeans` | src/connection_session.cpp:377-385 | becoming writable ends the connection only if the socket then fails |
| `ConnectionLaws.CloseMeans` | src/connection_session.cpp:461-482 | closing ends an open connection once: one event, an empty input buffer, a closed single stream |
| `ConnectionLaws.AbandonMeans` | src/connection_session.cpp:820-828 | giving up does the same after reporting one problem |
| `ConnectionLaws.ResetMeans` | src/connection_session.cpp:293-300 | resetting the single stream closes the socket without an event and keeps the state |
| `ConnectionLaws.BeginMeans` | src/connection_session.cpp:394-421 | an upgrade begins only in the right role on an open, unsecured connection; the initiator sends the header and "/noise", the responder nothing |
| `ConnectionLaws.HinderedOpening` | src/connection_session.cpp:423-437 | why a stream cannot be opened is reported, and nothing else happens |
| `ConnectionLaws.DirectOpening` | src/connection_session.cpp:440-445 | without a muxer the one stream of the connection is opened, with the next number |
| `ConnectionLaws.YamuxOpening` | src/connection_session.cpp:428-436 | over yamux one SYN is sent, and the event names its stream exactly if it could be sent |
| `DirectStream.DrainReceives` | src/connection_session.cpp:538-547 | without a muxer every message that arrives goes, in order, to the single stream, which is accepted for the first of them |
| `MuxerChoice.SelectMeans` | src/connection_session.cpp:242-256 | a name is selected if and only if it is the first of the local list that the remote list contains; none exactly if they share none |
| `MuxerChoice.FinishMeans` | src/connection_session.cpp:673-699 | with an accepted peer: ready over yamux exactly if yamux is the first common name; ready without a muxer if none is wanted; otherwise a negotiation that the initiator opens with its first name |
| `MuxerChoice.ReadyMeans` | src/connection_session.cpp:759-788 | becoming ready emits the two events in order, and gives a responder without a muxer its inbound stream unless one is already waiting |
| `MuxerChoice.InitiatorReads` | src/connection_session.cpp:728-738 | the initiator ends the negotiation with its name exactly if that is confirmed, without it exactly on "na", and with an error on anything else |
| `MuxerChoice.ResponderReads` | src/connection_session.cpp:739-751 | the responder answers exactly what begins with the header, and ends with the proposed name exactly if it has it |
| `MuxerChoice.FallbackAgrees` | src/connection_session.cpp:701-757 | both sides end the negotiation alike, and both run yamux exactly if the initiator's first name is yamux and the responder has it |
| `MuxerChoice.FallbackMessages` | src/connection_session.cpp:684-692 | proposal and answer are each one whole exchange for the scanner |
| `MuxerChoice.SettleWaits` | src/connection_session.cpp:716-723 | an incomplete exchange changes nothing, an impossible length is an error |
| `MixedLists.YamuxOnBothExactly` | src/connection_session.cpp:673-699 | of two sides that reach the secure channel both run yamux if and only if each one's list prefers it, and the negotiation never adds a case |
| `MixedLists.OrderMatters` | src/connection_session.cpp:242-256 | the condition is real: two lists with the same two names in different orders, of which one selects yamux and the other does not |
| `MixedLists.NegotiationMeetsYamux` | src/connection_session.cpp:716-751 | a side that negotiates with a peer that already runs yamux never becomes ready, however the messages arrive: the first whole one ends it with a problem |
| `MixedLists.SessionsSendYamux` | src/protocol/yamux/yamux.cpp:426-433 | what a session sends always begins with version 0 and a known type, whatever caused it |
| `StackHandshake.PreferenceMeans` | src/connection_session.cpp:242-256 | preferring yamux is exactly what makes the selection give it |
| `StreamEvents.AcceptedAreHandedOut` | src/connection_session.cpp:447-452 | over every sequence of inputs, the streams announced as accepted are, in order, those handed out followed by those still in the list: none lost, repeated or invented |
| `StreamEvents.ReactLists` | src/connection_session.cpp:790-811 | each single input puts exactly the streams that it announces at the end of the list |
| `YamuxEvents.EventsAreCallbacks` | src/connection_session.cpp:790-811 | over every sequence of inputs, a connection over yamux has announced as accepted and as closed exactly what its session reported, in that order |
| `StackStreams.StreamsAreAnnounced` | src/connection_session.cpp:790-811 | over every run of two compatible sides, the streams that one application is told of and can take are a prefix of those the other opened, all of them once nothing is under way, and then every reset has been reported too |
| `YamuxEffects.StreamFrameMeans` | src/protocol/yamux/yamux.cpp:377-424 | everything a stream frame does to a session in any state: acknowledgement, announcement, payload, FIN, saturating credit, RST, and which closes are reported |
| `YamuxEffects.OtherStreamsAreUntouched` | src/protocol/yamux/yamux.cpp:361-424 | a frame changes no stream but its own |
| `YamuxEffects.IgnoredFrames` | src/protocol/yamux/yamux.cpp:361-391 | another version, an unknown kind, stream 0 and an unknown stream without SYN change nothing and are not answered |
| `YamuxEffects.OwnIdIsRefused` | src/protocol/yamux/yamux.cpp:377-382 | a SYN with an id of the session's own parity is answered with a go-away of code 1 and changes nothing |
| `YamuxEffects.PingIsAnswered` | src/protocol/yamux/yamux.cpp:365-370 | received as bytes by any session: a ping gets exactly one acknowledged ping of the same value on stream 0, an acknowledged ping gets nothing |
| `YamuxEffects.GoAwayIsTaken` | src/protocol/yamux/yamux.cpp:372-375 | received as bytes by any session: a go-away changes nothing but that no stream can be opened any more |
| `YamuxEffects.GoAwayIsFinal` | src/protocol/yamux/yamux.cpp:154-158 | no operation or frame takes that back |
| `YamuxEffects.GoAwayHasACause` | src/protocol/yamux/yamux.cpp:372-375 | and only a received go-away causes it |
| `YamuxEffects.ResetsArrive` | src/protocol/yamux/yamux.cpp:417-423 | over every run of two sessions: once a reset by the peer has arrived the stream is in neither table, was reported as reset by the peer unless this end reset it too, reads as ended and refuses writes |
| `YamuxEffects.ReportedResetsAreReal` | src/protocol/yamux/yamux.cpp:417-423 | over every run, only what the peer reset is reported as reset by it |
| `YamuxEffects.HeldUntilReset` | src/protocol/yamux/yamux.cpp:239-249 | over every run, a known stream stays held until one of the ends resets it |
| `YamuxEffects.FinIsReported` | src/protocol/yamux/yamux.cpp:411-416 | over every run, an arriving FIN is reported as a close exactly if this end has closed the stream too and read it out |
| `YamuxEffects.WriteMeans` | src/protocol/yamux/yamux.cpp:213-237 | over every run, a write on an un-reset stream accepts exactly the smaller of its length and what 256 KiB leave beyond what is outstanding |
| `YamuxEffects.ReadMeans` | src/protocol/yamux/yamux.cpp:61-76 | a read takes the oldest bytes, as many as asked for and there are, and sends exactly that much credit |
| `YamuxEffects.ClosingMeans` | src/protocol/yamux/yamux.cpp:251-264 | one FIN for a held stream that was not closed yet, and from then on writes are refused |
| `YamuxEffects.ResettingMeans` | src/protocol/yamux/yamux.cpp:266-277 | an RST in any case; after it the stream reads as ended, and writes and closes do nothing |
| `MultistreamLaws.VarintMeans` | src/protocol/multistream_select.cpp:20-39 | for every buffer: the number is the sum of the seven-bit groups up to the first byte below 128, modulo 2^64; ten bytes without one are invalid, fewer incomplete |
| `MultistreamLaws.EncodingMeans` | src/protocol/multistream_select.cpp:9-18 | an encoding spells its number and has no needless last group |
| `MultistreamLaws.NextMeans` | src/protocol/multistream_select.cpp:119-135 | a message is read if and only if the buffer begins with its length, its text and a newline |
| `MultistreamLaws.NextFails` | src/protocol/multistream_select.cpp:119-135 | for every buffer, which obstacle is reported when there is no message |
| `MultistreamLaws.InboundMeans` | src/protocol/multistream_select.cpp:83-110 | for every buffer and list: success if and only if the first message is the header and a second one can be read; the protocol is that second text if the list has it; a wrong header is reported exactly when the first message is another one |
| `MultistreamLaws.InboundAnswers` | src/protocol/multistream_select.cpp:92-109 | the answer is the header and the settled name, or the header and "na" |
| `MultistreamLaws.OutboundMeans` | src/protocol/multistream_select.cpp:64-81 | for every buffer and proposal: success if and only if the header and the proposal are read; "na", another answer, another header and unreadable input are each reported as such |
| `MultistreamLaws.ProposalMeans` | src/protocol/multistream_select.cpp:48-62 | a proposal is the header and the first name of the list |
| `MultistreamLaws.ScanErrors` | src/connection_session.cpp:161-203 | the scanner reports only incomplete or impossible lengths |
| `NegotiatingStream.SettledMeans` | src/swarm.cpp:165-219 | for every exchange: an outbound stream is ready exactly if its protocol is confirmed, an inbound one exactly if the header is followed by a name of its list and the answer could be written; otherwise the reason |
| `NoiseReference.Message1IsPattern` | src/protocol/noise/noise.cpp:427-444 | message 1 is what the interpreter of message patterns writes for the first pattern of XX |
| `NoiseReference.Message2IsPattern` | src/protocol/noise/noise.cpp:446-501 | reading message 1 and writing message 2 is what the interpreter does with the first two patterns; it succeeds exactly when the interpreter does |
| `NoiseReference.Message3IsPattern` | src/protocol/noise/noise.cpp:503-579 | message 2 is accepted exactly if the second pattern reads it and its payload proves its sender; message 3 is then the third pattern, and the transport keys are the two outputs of the final split |
| `NoiseReference.HandshakeEndsAsPattern` | src/protocol/noise/noise.cpp:581-618 | message 3 is accepted exactly if the third pattern reads it and its payload proves its sender; the keys are the same two, crosswise |
| `PayloadLaws.RemoteMeans` | src/protocol/noise/noise.cpp:386-406 | for every payload: believed if and only if it is empty, and then nobody is named, or its fields name a key that signed this static key; the muxers are those of the last list in it |
| `PayloadLaws.PayloadMeans` | src/protocol/noise/noise.cpp:695-741 | for every input: what is read of a payload is the last field of each known number, fields of other numbers are skipped, and any other wire type is refused |
| `PayloadLaws.ExtensionsMean` | src/protocol/noise/noise.cpp:351-375 | for every input: the muxer names are the fields numbered 2, in order, whatever other fields there are |
| `PayloadLaws.PublicKeyMeans` | src/protocol/noise/noise.cpp:299-334 | for every input: a key is read exactly from fields that are a type or 32 octets, of which the last type is Ed25519, and it is the last key |
| `PayloadLaws.HandshakeFields` | src/protocol/noise/noise.cpp:660-693 | a payload is written as the fields key, signature and, unless there are none, muxers, in this order |
| `PayloadLaws.ExtensionFields` | src/protocol/noise/noise.cpp:342-349 | muxers are written as fields numbered 2, one a name, in order |
| `PayloadLaws.FieldMeans` | src/protocol/noise/noise.cpp:351-368 | for every input: a field is read if and only if the buffer begins with a tag of wire type 2, a length, and that many octets |
| `WireLayout.PopMeans` | src/connection_session.cpp:140-159 | a frame is popped if and only if the buffer begins with a big-endian length and that many octets |
| `WireLayout.DecodeMeans` | src/protocol/noise/noise.cpp:777-789 | a whole frame is decoded exactly to the message behind its length |
| `WireLayout.EncodeMeans` | src/protocol/noise/noise.cpp:763-775 | a message of at most 65535 octets is put behind its big-endian length, a longer one refused |
| `WireLayout.HandshakeName` | src/protocol/noise/noise.cpp:143-166 | the handshake starts from the name "Noise_XX_25519_ChaChaPoly_SHA256" |
| `WireLayout.SignaturePrefix` | src/protocol/noise/noise.cpp:336-340 | what is signed begins with "noise-libp2p-static-key:" |
| `WireLayout.HeaderName` | src/protocol/multistream_select.cpp:83-91 | the header is "/multistream/1.0.0" |
| `WireLayout.ProtocolNames` | src/connection_session.cpp:678-681 | the names are "/noise", "/yamux/1.0.0" and "na" |
| `WireLayout.HeaderBytes` | src/protocol/yamux/yamux.cpp:15-37 | the twelve bytes of a header are version, type, flags, stream id and length, big-endian |
| `WireLayout.ParseMeans` | src/protocol/yamux/yamux.cpp:337-359 | a frame is parsed if and only if the buffer begins with its bytes |
| `RoutingBits.BitOfXor` | src/routing_table.cpp:27 | a bit of the distance is set if and only if the two bits differ |
| `RoutingBits.XorIsInvolution` | src/routing_table.cpp:27 | distance is symmetric and undoes itself |
| `RoutingBits.FirstBitDecides` | src/routing_table.cpp:25-35 | of two peers the closer one is the one that agrees with the target in the first bit in which the two differ |
| `RoutingBits.LeadingZerosIsIndex` | src/routing_table.cpp:42-48 | the count is the index of the first bit in which the two peers differ |
| `Base58.EncodeMeans` | src/types.cpp:68-98 | the text spells the same number in base 58 as the bytes in base 256, with as many leading ones as they have leading zeros |
| `Base58.DecodeMeans` | src/types.cpp:100-132 | and the bytes of an accepted text spell the same number as the text |

## Left out

- StreamsAreDelivered: bounds each write to 65507 accepted bytes, because the code loses larger ones; `OversizeWrites` proves that this bound is exact and what happens beyond it.
- NoStateIsStuck: asks that no cipher uses up its 2^64 - 1 nonces during the seven deliveries.
- UpgradeNeverFails: holds for valid key pairs, identities present on both sides, payloads that fit one frame, and lists that prefer yamux on both sides, because otherwise it is false; `MixedLists` proves that this condition on the lists is exact and what happens beyond it.
- FallbackAgrees: speaks of the two buffers once both exchanges have arrived; the negotiation is not followed through every delivery order as the upgrade with early selection is.
- StreamsAreAnnounced: the two-party runs contain no handing out, so the list holds all accepted streams; `AcceptedAreHandedOut` adds the handing out for each side.
- EventsFollowTheGrammar: the texts of events and errors are not modelled, only their kinds.
- TryRead: an error of the outgoing callback after a read is not modelled on the stream object; the connection model ignores or reports flush errors as the code does.
- OnSocketWritable: the half-close of the single stream, which the code postpones until its buffer is flushed, is not modelled.
- RequestOpenStream: the protocol name that the caller attaches to the new stream is not modelled; the stream is returned as its id.
- FlushWire: all sends of one flush end in success or in one error after a chosen number of flushes; which error number it was is not modelled.
- ReceiveYamux: the connection object keeps the yamux session, with its history, and the handshake state as values that it reassigns, not as further objects; the stand-alone objects are `YamuxSession` and `NoiseSession`.
- AcceptedPeerSigned: a signature field shorter than 64 octets is refused; what the library reads behind it is not modelled.
- SharedSecretCommutes: of the points that the library refuses only the all-zero one is refused.
- ClosestPeers: `std::sort` is modelled by insertion, which gives the same list because the order is total.
- HasFlag: flag bits are read by division rather than by masking, and exclusive or is written bit by bit; both are the same on the ranges used.
- Real cryptography, random numbers, libsodium initialisation and secrecy arguments: symbolic terms and parameters stand for them.
- Sockets, event loops, timers and file descriptors: a socket is a history of queued octets of which any prefix may have arrived.
- The post-Noise muxer negotiation as a lossless channel: it is modelled on the connection, but bytes behind the exchange stay in its buffer and do not reach yamux, so the two-party results use the early selection.
- The single stream of a connection without a muxer: creation, input and reset are modelled; its own reads, writes and half-close are not.
- `is_open` and the id accessors of the negotiating stream, and how much of a message its inner stream accepts.
- The rest of `Swarm`: dialing, listening, handler dispatch and connection maps.
- `Multiaddr` parsing: the peer id text of a dialed address is a parameter.
- Services, controller, peer store, node facade and logging.
