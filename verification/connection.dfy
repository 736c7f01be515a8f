/**
 * A connection from the accepted socket to the multiplexed channel: multistream-select, the Noise handshake, the
 * choice of a muxer, and then encrypted yamux. Functions on values; module ConnectionSessions holds the class.
 */
module Connection {
  import opened Bytes
  import opened Octets
  import B = Base58
  import BN = YamuxByteNet
  import F = YamuxFrame
  import M = YamuxMux
  import MS = Multistream
  import N = Noise
  import NP = NoisePayload
  import T = Transport
  import Y = YamuxNet

  type Name = t: MS.Text | MS.Sized(t) witness []

  /** "/noise" */
  const NOISE: Name := [0x2F, 0x6E, 0x6F, 0x69, 0x73, 0x65]

  /** "/yamux/1.0.0" */
  const YAMUX: Name := [0x2F, 0x79, 0x61, 0x6D, 0x75, 0x78, 0x2F, 0x31, 0x2E, 0x30, 0x2E, 0x30]

  datatype ConnectionState = TcpAccepted | Securing | SecureReady | Multiplexing | Ready | Failed | Closed

  datatype Stage = NegotiatingProtocol | NoiseHandshake | MuxerNegotiation | Established

  datatype Handshake = Idle | AwaitingMsg1 | AwaitingMsg2 | AwaitingMsg3 | Complete

  datatype Event =
    | Secured | MultiplexerReady
    | StreamOpened(id: nat) | StreamAccepted(id: nat) | StreamClosed(id: nat)
    | Problem | Ended

  datatype Failure =
    | NotNegotiated(why: MS.Error) | NotSecured(reason: NP.Error) | NoiseRefused | NotStarted | ExtraFrame
    | MissingPeer | WrongPeer | SocketFailed | NotActive | NotReady | WrongRole | OneStreamOnly | ShuttingDown

  /** The single stream of a connection without a muxer. */
  datatype Direct = Direct(id: nat, isOpen: bool, rx: seq<Octet>)

  /**
   * `sent` is everything ever queued for the wire and `events` every event ever emitted, both in order. `dialed` is
   * the peer id text of the dialed address, if it has one. `patience` is how many more flushes the socket serves
   * before it reports an error, without bound when absent. A yamux session is held together with its history.
   */
  datatype Conn = Conn(
    state: ConnectionState, stage: Stage, handshake: Handshake, secureReady: bool,
    isInitiator: bool, dialed: Option<string>, muxers: seq<Name>, noise: N.State,
    socketOpen: bool, patience: Option<nat>, rx: seq<Octet>, sent: seq<Octet>,
    muxer: Option<MS.Text>, yamux: Option<BN.End>, muxerBuffer: seq<Octet>,
    direct: Option<Direct>, pending: seq<nat>, nextStreamId: nat, createInbound: bool,
    events: seq<Event>)

  datatype Outcome = Outcome(c: Conn, error: Option<Failure>)

  function Fine(c: Conn): Outcome { Outcome(c, None) }

  function Fail(c: Conn, f: Failure): Outcome { Outcome(c, Some(f)) }

  // ---------- the wire ----------

  /** A flush; how much the kernel takes is decided elsewhere. */
  function Flush(c: Conn): Outcome {
    if !c.socketOpen || c.patience == Some(0) then Fail(c, SocketFailed)
    else Fine(c.(patience := if c.patience.Some? then Some(c.patience.value - 1) else None))
  }

  function Queue(c: Conn, octets: seq<Octet>): Conn { c.(sent := c.sent + octets) }

  /** Sending touches the wire, the send cipher and the socket, and nothing else. */
  predicate SentOnly(before: Conn, after: Conn) {
    && before.sent <= after.sent
    && after == before.(sent := after.sent, patience := after.patience,
                        noise := before.noise.(send := before.noise.send.(nonce := after.noise.send.nonce)))
  }

  function SendFrame(c: Conn, message: seq<Octet>): (r: Outcome)
    ensures SentOnly(c, r.c) && r.c.noise == c.noise
  {
    match T.EncodeFrame(message)
    case Err(e) => Fail(c, NotSecured(e))
    case Ok(frame) => Flush(Queue(c, frame))
  }

  /** The nonce is used up even when the frame is too large to be queued. */
  function SendEncrypted(c: Conn, plain: seq<Octet>): (r: Outcome)
    ensures SentOnly(c, r.c)
  {
    match T.Encrypt(c.noise.send, plain)
    case Err(e) => Fail(c, NotSecured(e))
    case Ok(sealed) => SendFrame(c.(noise := c.noise.(send := sealed.next)), sealed.message)
  }

  // ---------- yamux over the secure channel ----------

  /** Everything the session has to send goes out as one encrypted message. */
  function FlushYamux(c: Conn): Outcome {
    if c.yamux.None? || c.yamux.value.sendBuf == [] then Fine(c)
    else SendEncrypted(c.(yamux := Some(c.yamux.value.(sendBuf := []))), Lits(c.yamux.value.sendBuf))
  }

  function Since<A>(before: seq<A>, after: seq<A>): seq<A> {
    if |before| <= |after| then after[|before|..] else []
  }

  function Accepted(ids: seq<F.StreamId>): seq<Event> {
    seq(|ids|, i requires 0 <= i < |ids| => StreamAccepted(ids[i]))
  }

  function Finished(closed: seq<(F.StreamId, M.CloseReason)>): seq<Event> {
    seq(|closed|, i requires 0 <= i < |closed| => StreamClosed(closed[i].0))
  }

  /** The callbacks of one frame: the accept callback comes before the close callbacks. */
  function Announce(c: Conn, before: M.Mux, after: M.Mux): Conn {
    var accepted := Since(before.accepted, after.accepted);
    c.(events := c.events + Accepted(accepted) + Finished(Since(before.closed, after.closed)),
       pending := c.pending + accepted)
  }

  /**
   * One frame at the front of the receive buffer is handled; what it makes the session send is flushed, errors
   * ignored.
   */
  function HandleFrame(c: Conn): (r: Conn)
    requires c.yamux.Some? && F.TryParse(c.yamux.value.recvBuf).Some?
    ensures r.yamux.Some? && |r.yamux.value.recvBuf| < |c.yamux.value.recvBuf| && r.rx == c.rx
  {
    var e := c.yamux.value;
    var f := F.TryParse(e.recvBuf).value;
    var e' := BN.Operate(e.(recvBuf := e.recvBuf[F.FrameSize(f)..]), Y.Receiving, [f]);
    FlushYamux(Announce(c.(yamux := Some(e')), e.party.mux, e'.party.mux)).c
  }

  function PumpYamux(c: Conn): (r: Conn)
    requires c.yamux.Some?
    ensures r.rx == c.rx
    decreases |c.yamux.value.recvBuf|
  {
    if F.TryParse(c.yamux.value.recvBuf).None? then c else PumpYamux(HandleFrame(c))
  }

  /** An operation of the application on one of its streams, or the opening of a stream. */
  function Operate(c: Conn, a: Y.Action): Outcome
    requires c.yamux.Some?
  {
    FlushYamux(c.(yamux := Some(BN.Operate(c.yamux.value, a, []))))
  }

  // ---------- the single stream without a muxer ----------

  function CreateStream(c: Conn, inbound: bool): Conn {
    var id := c.nextStreamId;
    c.(direct := Some(Direct(id, true, [])), nextStreamId := id + 1,
       events := c.events + [if inbound then StreamAccepted(id) else StreamOpened(id)],
       pending := if inbound then c.pending + [id] else c.pending)
  }

  function EnsureInbound(c: Conn): (r: Conn)
    ensures r.direct.Some?
  {
    if c.direct.Some? && c.direct.value.isOpen then c else CreateStream(c, true)
  }

  // ---------- becoming ready ----------

  /** The peer that the handshake authenticated is the one that was dialed, as far as the address tells. */
  function WrongIdentity(c: Conn): Option<Failure> {
    if !c.isInitiator || c.dialed.None? then None
    else if c.noise.remotePeer.None? then Some(MissingPeer)
    else
      match B.PeerIdFromString(c.dialed.value)
      case Err(_) => None
      case Ok(p) => if Lits(p) == c.noise.remotePeer.value then None else Some(WrongPeer)
  }

  /** The first local name that the remote list contains. */
  function SelectMuxer(local: seq<Name>, remote: seq<seq<Octet>>): Option<MS.Text> {
    if local == [] then None
    else if Lits(local[0]) in remote then Some(local[0])
    else SelectMuxer(local[1..], remote)
  }

  function ActivateIfYamux(c: Conn): Conn {
    if c.muxer == Some(YAMUX) then c.(yamux := Some(BN.NewEnd(c.isInitiator)), createInbound := false) else c
  }

  function CompleteReady(c: Conn): Conn {
    var ready := c.(stage := Established, secureReady := true, state := Ready,
                    events := c.events + [Secured, MultiplexerReady]);
    if c.yamux.None? && c.createInbound && c.pending == [] then CreateStream(ready, true).(createInbound := false)
    else ready
  }

  /** With yamux chosen, or no muxer wanted, the connection is ready; otherwise the two sides negotiate one. */
  function Choose(c: Conn, name: Option<MS.Text>): (r: Outcome)
    ensures r.c.rx == c.rx
  {
    var chosen := c.(muxer := name);
    if name == Some(YAMUX) then Fine(CompleteReady(ActivateIfYamux(chosen)))
    else if c.muxers == [] then Fine(CompleteReady(chosen))
    else AskForMuxer(chosen)
  }

  /** The initiator proposes its first muxer over the secure channel; the responder waits for that. */
  function AskForMuxer(c: Conn): (r: Outcome)
    requires c.muxers != []
    ensures r.c.rx == c.rx
  {
    if !c.isInitiator then Fine(c.(stage := MuxerNegotiation))
    else SendEncrypted(c.(stage := MuxerNegotiation), Lits(MS.PrepareOutbound(c.muxers).value))
  }

  function FinishSecure(c: Conn): (r: Outcome)
    ensures r.c.rx == c.rx
  {
    if c.secureReady then Fine(c)
    else if WrongIdentity(c).Some? then Outcome(c, WrongIdentity(c))
    else
      Choose(c, SelectMuxer(c.muxers, c.noise.remoteMuxers))
  }

  // ---------- input, stage by stage ----------

  function SendFirst(c: Conn, first: (N.State, seq<Octet>)): Outcome {
    SendFrame(c.(noise := first.0, stage := NoiseHandshake, handshake := AwaitingMsg2), first.1)
  }

  function StartNoise(c: Conn, g: N.Generated): Outcome { SendFirst(c, N.WriteMsg1(c.noise, g)) }

  /** The initiator has read the answer to its greeting, which takes `n` octets. */
  function TakeAnswer(c: Conn, n: nat, selected: Result<MS.Text, MS.Error>, g: N.Generated): Outcome
    requires n <= |c.rx|
  {
    match selected
    case Err(e) => Fail(c, NotNegotiated(e))
    case Ok(_) => StartNoise(c.(rx := c.rx[n..]), g)
  }

  function TakeProposal(c: Conn, n: nat, negotiated: Result<MS.Negotiation, MS.Error>): Outcome
    requires n <= |c.rx|
  {
    match negotiated
    case Err(e) => Fail(c, NotNegotiated(e))
    case Ok(answer) =>
      if answer.protocol != Some(NOISE) then Fail(c, NoiseRefused) else AcceptNoise(c, n, Lits(answer.outbound))
  }

  /** The greeting is taken off the buffer only after the answer could be flushed. */
  function AcceptNoise(c: Conn, n: nat, answer: seq<Octet>): Outcome
    requires n <= |c.rx|
  {
    var flushed := Flush(Queue(c, answer));
    if flushed.error.Some? then flushed
    else Fine(flushed.c.(rx := c.rx[n..], stage := NoiseHandshake, handshake := AwaitingMsg1))
  }

  function NegotiateProtocol(c: Conn, g: N.Generated): Outcome {
    match MS.ExchangeSpan(Vals(c.rx))
    case Err(e) => if MS.IsIncomplete(e) then Fine(c) else Fail(c, NotNegotiated(e))
    case Ok(n) =>
      if c.isInitiator then TakeAnswer(c, n, MS.ReadOutboundResponse(Vals(c.rx)[..n], NOISE), g)
      else TakeProposal(c, n, MS.NegotiateInbound(Vals(c.rx)[..n], [NOISE]))
  }

  /** What the outcome of reading a handshake message does to the connection. */
  function TakeMsg1(c: Conn, reply: N.Reply<seq<Octet>>): (r: Outcome)
    ensures r.c.rx == c.rx
  {
    match reply
    case Reply(s, Err(e)) => Fail(c.(noise := s), NotSecured(e))
    case Reply(s, Ok(msg2)) => SendFrame(c.(noise := s, handshake := AwaitingMsg3), msg2)
  }

  function TakeMsg2(c: Conn, reply: N.Reply<seq<Octet>>): (r: Outcome)
    ensures r.c.rx == c.rx
  {
    match reply
    case Reply(s, Err(e)) => Fail(c.(noise := s), NotSecured(e))
    case Reply(s, Ok(msg3)) =>
      var flushed := SendFrame(c.(noise := s, handshake := Complete), msg3);
      if flushed.error.Some? then flushed else FinishSecure(flushed.c)
  }

  function TakeMsg3(c: Conn, reply: N.Reply<()>): (r: Outcome)
    ensures r.c.rx == c.rx
  {
    match reply
    case Reply(s, Err(e)) => Fail(c.(noise := s), NotSecured(e))
    case Reply(s, Ok(_)) => FinishSecure(c.(noise := s, handshake := Complete))
  }

  function OnMsg1(c: Conn, message: seq<Octet>, g: N.Generated): (r: Outcome)
    ensures r.c.rx == c.rx
  {
    TakeMsg1(c, N.ProcessMsg1(c.noise, message, g))
  }

  function OnMsg2(c: Conn, message: seq<Octet>): (r: Outcome)
    ensures r.c.rx == c.rx
  {
    TakeMsg2(c, N.ProcessMsg2(c.noise, message))
  }

  function OnMsg3(c: Conn, message: seq<Octet>): (r: Outcome)
    ensures r.c.rx == c.rx
  {
    TakeMsg3(c, N.ProcessMsg3(c.noise, message))
  }

  function HandshakeFrame(c: Conn, message: seq<Octet>, g: N.Generated): (r: Outcome)
    ensures r.c.rx == c.rx
  {
    match c.handshake
    case AwaitingMsg1 => OnMsg1(c, message, g)
    case AwaitingMsg2 => OnMsg2(c, message)
    case AwaitingMsg3 => OnMsg3(c, message)
    case Idle => Fail(c, NotStarted)
    case Complete => Fail(c, ExtraFrame)
  }

  function HandshakeFrames(c: Conn, g: N.Generated): Outcome
    decreases |c.rx|
  {
    if c.secureReady || c.stage != NoiseHandshake then Fine(c)
    else
      match T.PopFrame(c.rx)
      case None => Fine(c)
      case Some(p) =>
        var step := HandshakeFrame(c.(rx := p.rest), p.message, g);
        if step.error.Some? then step else HandshakeFrames(step.c, g)
  }

  /** Every complete frame is decrypted into the negotiation buffer. */
  function CollectNegotiation(c: Conn): Outcome
    decreases |c.rx|
  {
    match T.PopFrame(c.rx)
    case None => Fine(c)
    case Some(p) =>
      var step := Collect(c.(rx := p.rest), T.Decrypt(c.noise.recv, p.message));
      if step.error.Some? then step else CollectNegotiation(step.c)
  }

  function Collect(c: Conn, opened_: Result<T.Sealed, NP.Error>): (r: Outcome)
    ensures r.c.rx == c.rx
  {
    match opened_
    case Err(e) => Fail(c, NotSecured(e))
    case Ok(plain) => Fine(c.(noise := c.noise.(recv := plain.next), muxerBuffer := c.muxerBuffer + plain.message))
  }

  /** The initiator reads the answer to its first muxer; a refusal leaves the connection without a muxer. */
  function ReadMuxerAnswer(c: Conn, exchange: seq<Byte>): Outcome {
    TakeMuxer(c, MS.ReadOutboundResponse(exchange, if c.muxers == [] then [] else c.muxers[0]))
  }

  function TakeMuxer(c: Conn, selected: Result<MS.Text, MS.Error>): Outcome {
    match selected
    case Ok(name) => Fine(ActivateIfYamux(c.(muxer := Some(name))))
    case Err(e) => if e == MS.NotSupported then Fine(c) else Fail(c, NotNegotiated(e))
  }

  function AnswerMuxer(c: Conn, exchange: seq<Byte>): Outcome { SendAnswer(c, MS.NegotiateInbound(exchange, c.muxers)) }

  function SendAnswer(c: Conn, negotiated: Result<MS.Negotiation, MS.Error>): Outcome {
    match negotiated
    case Err(e) => Fail(c, NotNegotiated(e))
    case Ok(answer) =>
      var queued := SendEncrypted(c, Lits(answer.outbound));
      if queued.error.Some? || answer.protocol.None? then queued
      else Fine(ActivateIfYamux(queued.c.(muxer := answer.protocol)))
  }

  function NegotiateMuxer(c: Conn): Outcome {
    var collected := CollectNegotiation(c);
    if collected.error.Some? then collected else SettleMuxer(collected.c)
  }

  /** Once the buffer holds a complete exchange the muxer is settled and the connection ready. */
  function SettleMuxer(c: Conn): Outcome {
    match MS.ExchangeSpan(Vals(c.muxerBuffer))
    case Err(e) => if MS.IsIncomplete(e) then Fine(c) else Fail(c, NotNegotiated(e))
    case Ok(n) => Settle(c, Vals(c.muxerBuffer)[..n], c.muxerBuffer[n..])
  }

  function MuxerStep(c: Conn, exchange: seq<Byte>): Outcome {
    if c.isInitiator then ReadMuxerAnswer(c, exchange) else AnswerMuxer(c, exchange)
  }

  function Settle(c: Conn, exchange: seq<Byte>, rest: seq<Octet>): Outcome {
    var step := MuxerStep(c, exchange);
    if step.error.Some? then step else Fine(CompleteReady(step.c.(muxerBuffer := rest)))
  }

  /** Every complete frame of a ready connection is decrypted and handed on. */
  function Drain(c: Conn): Outcome
    decreases |c.rx|
  {
    match T.PopFrame(c.rx)
    case None => Fine(c)
    case Some(p) =>
      var step := TakeOpened(c.(rx := p.rest), T.Decrypt(c.noise.recv, p.message));
      if step.error.Some? then step else Drain(step.c)
  }

  function TakeOpened(c: Conn, opened_: Result<T.Sealed, NP.Error>): (r: Outcome)
    ensures r.c.rx == c.rx
  {
    match opened_
    case Err(e) => Fail(c, NotSecured(e))
    case Ok(plain) => Fine(HandOn(c.(noise := c.noise.(recv := plain.next)), plain.message))
  }

  function HandOn(c: Conn, plain: seq<Octet>): (r: Conn)
    ensures r.rx == c.rx
  {
    if c.yamux.Some? then
      PumpYamux(c.(yamux := Some(c.yamux.value.(recvBuf := c.yamux.value.recvBuf + Vals(plain)))))
    else
      var c1 := EnsureInbound(c);
      c1.(direct := Some(c1.direct.value.(rx := c1.direct.value.rx + plain)))
  }

  function Process(c: Conn, g: N.Generated): Outcome {
    var first := if c.stage == NegotiatingProtocol then NegotiateProtocol(c, g) else Fine(c);
    if first.error.Some? then first
    else
      var second := HandshakeFrames(first.c, g);
      if second.error.Some? then second
      else
        var third :=
          if !second.c.secureReady && second.c.stage == MuxerNegotiation then NegotiateMuxer(second.c) else second;
        if third.error.Some? || !third.c.secureReady then third else Drain(third.c)
  }

  // ---------- entry points ----------

  predicate IsActive(c: Conn) { c.socketOpen && c.state != Closed && c.state != Failed }

  function CloseSocket(c: Conn): Conn { if c.socketOpen then c.(socketOpen := false, rx := []) else c }

  function Close(c: Conn): Conn {
    if c.state == Closed then c
    else
      CloseSocket(c).(state := Closed, events := c.events + [Ended],
                      direct := if c.direct.Some? then Some(c.direct.value.(isOpen := false, rx := [])) else None)
  }

  function EmitError(c: Conn): Conn {
    if c.state == Failed || c.state == Closed then c else c.(state := Failed, events := c.events + [Problem])
  }

  function Abandon(c: Conn): Conn { Close(EmitError(c)) }

  /** How reading the socket ended. */
  datatype RecvEnd = WouldBlock | EndOfFile | ConnectionReset | RecvError

  function OnReadable(c: Conn, data: seq<Octet>, end: RecvEnd, g: N.Generated): Conn {
    if !IsActive(c) then c
    else
      var c1 := c.(rx := c.rx + data);
      match end
      case EndOfFile => Close(c1)
      case ConnectionReset => Close(c1)
      case RecvError => Abandon(c1)
      case WouldBlock =>
        var step := Process(c1, g);
        if step.error.Some? then Abandon(step.c) else step.c
  }

  function OnWritable(c: Conn): Conn {
    if !IsActive(c) then c
    else
      var flushed := Flush(c);
      if flushed.error.Some? then Abandon(flushed.c) else flushed.c
  }

  function OnTimeout(c: Conn): Conn {
    if !IsActive(c) || c.state == Ready then c else Abandon(c)
  }

  function Restart(c: Conn, createInbound: bool): Conn {
    c.(state := Securing, createInbound := createInbound, stage := NegotiatingProtocol, handshake := Idle)
  }

  function BeginOutbound(c: Conn): Outcome {
    if !IsActive(c) then Fail(c, NotActive)
    else if c.state == Ready || c.secureReady then Fine(c)
    else if !c.isInitiator then Fail(c, WrongRole)
    else Flush(Queue(Restart(c, false), Lits(MS.PrepareOutbound([NOISE]).value)))
  }

  function BeginInbound(c: Conn): Outcome {
    if !IsActive(c) then Fail(c, NotActive)
    else if c.state == Ready || c.secureReady then Fine(c)
    else if c.isInitiator then Fail(c, WrongRole)
    else Fine(Restart(c, true))
  }

  /** An event is emitted only when the opening frame could be sent. */
  function OpenYamux(c: Conn): Outcome
    requires c.yamux.Some?
  {
    if c.yamux.value.party.mux.goAway then Fail(c, ShuttingDown)
    else
      var opened_ := Operate(c, Y.Opening);
      if opened_.error.Some? then opened_
      else Fine(opened_.c.(events := opened_.c.events + [StreamOpened(c.yamux.value.party.mux.nextId)]))
  }

  function OpenStream(c: Conn): Outcome {
    if !IsActive(c) then Fail(c, NotActive)
    else if c.state != Ready then Fail(c, NotReady)
    else if c.yamux.Some? then OpenYamux(c)
    else if c.direct.Some? && c.direct.value.isOpen then Fail(c, OneStreamOnly)
    else Fine(CreateStream(c, false))
  }

  /** Resetting the single stream closes the socket under the connection. */
  function ResetDirect(c: Conn): Conn {
    if c.direct.None? then c
    else CloseSocket(c).(direct := Some(c.direct.value.(isOpen := false, rx := [])))
  }

  function AcceptInbound(c: Conn): Conn { if c.pending == [] then c else c.(pending := c.pending[1..]) }

  function New(isInitiator: bool, dialed: Option<string>, muxers: seq<Name>, noise: N.State): Conn {
    Conn(TcpAccepted, NegotiatingProtocol, Idle, false, isInitiator, dialed, muxers, noise, true, None, [], [],
         None, None, [], None, [], 1, false, [])
  }
}
