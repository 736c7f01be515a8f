/**
 * The connection session object: its methods bring the fields to the states that module Connection names, and keep
 * its event grammar.
 */
module ConnectionSessions {
  import opened Bytes
  import opened Octets
  import opened Connection
  import B = Base58
  import BN = YamuxByteNet
  import CE = ConnectionEvents
  import F = YamuxFrame
  import M = YamuxMux
  import MS = Multistream
  import N = Noise
  import NP = NoisePayload
  import T = Transport
  import Y = YamuxNet

  class ConnectionSession {
    const isInitiator: bool
    const dialed: Option<string>
    const muxers: seq<Name>
    var state: ConnectionState
    var stage: Stage
    var handshake: Handshake
    var secureReady: bool
    var noise: N.State
    var socketOpen: bool
    var patience: Option<nat>
    var wireRx: seq<Octet>
    var wireTx: seq<Octet>
    var muxer: Option<MS.Text>
    var yamux: Option<BN.End>
    var muxerBuffer: seq<Octet>
    var direct: Option<Direct>
    var pending: seq<nat>
    var nextStreamId: nat
    var createInbound: bool
    var eventQueue: seq<Event>
    ghost var sent: seq<Octet>
    /** What has left the transmit buffer, and what of that was dropped when the socket was closed. */
    ghost var left: seq<Octet>
    ghost var discarded: seq<Octet>
    ghost var emitted: seq<Event>
    ghost var delivered: seq<Event>

    ghost function View(): Conn
      reads this
    {
      Conn(state, stage, handshake, secureReady, isInitiator, dialed, muxers, noise, socketOpen, patience, wireRx, sent,
           muxer, yamux, muxerBuffer, direct, pending, nextStreamId, createInbound, emitted)
    }

    /** What was queued has left the buffer or is still in it, in order, and so have the events. */
    ghost predicate Buffers()
      reads this
    {
      sent == left + wireTx && emitted == delivered + eventQueue
    }

    ghost predicate Valid()
      reads this
    {
      Buffers() && CE.Good(View())
    }

    constructor (isInitiator: bool, dialed: Option<string>, muxers: seq<Name>, noise: N.State)
      ensures Valid() && View() == New(isInitiator, dialed, muxers, noise) && eventQueue == []
    {
      this.isInitiator, this.dialed, this.muxers, this.noise := isInitiator, dialed, muxers, noise;
      state, stage, handshake, secureReady := TcpAccepted, NegotiatingProtocol, Idle, false;
      socketOpen, patience, wireRx, wireTx := true, None, [], [];
      muxer, yamux, muxerBuffer, direct := None, None, [], None;
      pending, nextStreamId, createInbound, eventQueue := [], 1, false, [];
      sent, left, discarded, emitted, delivered := [], [], [], [], [];
    }

    method Emit(e: Event)
      requires Buffers()
      modifies this`eventQueue, this`emitted
      ensures Buffers() && View() == old(View()).(events := old(emitted) + [e]) && eventQueue == old(eventQueue) + [e]
    {
      Assoc(delivered, eventQueue, [e]);
      eventQueue := eventQueue + [e];
      emitted := emitted + [e];
    }

    method QueueRaw(octets: seq<Octet>)
      requires Buffers()
      modifies this`wireTx, this`sent
      ensures Buffers() && View() == Queue(old(View()), octets)
    {
      Assoc(left, wireTx, octets);
      wireTx := wireTx + octets;
      sent := sent + octets;
    }

    /** The kernel takes any part of the buffer, or reports an error. */
    method FlushWire() returns (r: Option<Failure>)
      requires Buffers()
      modifies this`wireTx, this`left, this`patience
      ensures Buffers() && Outcome(View(), r) == Flush(old(View()))
    {
      if !socketOpen || patience == Some(0) { return Some(SocketFailed); }
      if patience.Some? { patience := Some(patience.value - 1); }
      ghost var after := View();
      while wireTx != []
        invariant View() == after && Buffers()
        decreases |wireTx|
      {
        var n: nat :| n <= |wireTx|;
        if n == 0 { break; }
        assert wireTx == wireTx[..n] + wireTx[n..];
        Assoc(left, wireTx[..n], wireTx[n..]);
        left := left + wireTx[..n];
        wireTx := wireTx[n..];
      }
      r := None;
    }

    method QueueWireMessage(message: seq<Octet>) returns (r: Option<Failure>)
      requires Buffers()
      modifies this`wireTx, this`left, this`sent, this`patience
      ensures Buffers() && Outcome(View(), r) == SendFrame(old(View()), message)
    {
      var framed := T.EncodeFrame(message);
      if framed.Err? { return Some(NotSecured(framed.error)); }
      QueueRaw(framed.value);
      r := FlushWire();
    }

    method QueueEncryptedMessage(plain: seq<Octet>) returns (r: Option<Failure>)
      requires Buffers()
      modifies this`wireTx, this`left, this`sent, this`patience, this`noise
      ensures Buffers() && Outcome(View(), r) == SendEncrypted(old(View()), plain)
    {
      var sealed := T.Encrypt(noise.send, plain);
      if sealed.Err? { return Some(NotSecured(sealed.error)); }
      noise := noise.(send := sealed.value.next);
      r := QueueWireMessage(sealed.value.message);
    }

    method FlushYamuxOutgoing() returns (r: Option<Failure>)
      requires Buffers()
      modifies this`wireTx, this`left, this`sent, this`patience, this`noise, this`yamux
      ensures Buffers() && Outcome(View(), r) == FlushYamux(old(View()))
    {
      if yamux.None? || yamux.value.sendBuf == [] { return None; }
      var plaintext := yamux.value.sendBuf;
      yamux := Some(yamux.value.(sendBuf := []));
      r := QueueEncryptedMessage(Lits(plaintext));
    }

    method AnnounceStreams(before: M.Mux, after: M.Mux)
      requires Buffers()
      modifies this`eventQueue, this`emitted, this`pending
      ensures Buffers() && View() == Announce(old(View()), before, after)
    {
      var accepted := Since(before.accepted, after.accepted);
      var events := Accepted(accepted) + Finished(Since(before.closed, after.closed));
      Assoc(delivered, eventQueue, events);
      Assoc(emitted, Accepted(accepted), Finished(Since(before.closed, after.closed)));
      eventQueue := eventQueue + events;
      emitted := emitted + events;
      pending := pending + accepted;
    }

    /** One yamux frame is handled, and what it makes the session send is flushed. */
    method HandleOneFrame()
      requires Buffers() && yamux.Some? && F.TryParse(yamux.value.recvBuf).Some?
      modifies this
      ensures Buffers() && View() == HandleFrame(old(View()))
    {
      var e := yamux.value;
      var f := F.TryParse(e.recvBuf).value;
      var e' := BN.Operate(e.(recvBuf := e.recvBuf[F.FrameSize(f)..]), Y.Receiving, [f]);
      yamux := Some(e');
      AnnounceStreams(e.party.mux, e'.party.mux);
      var ignored := FlushYamuxOutgoing();
    }

    method ReceiveYamux(data: seq<Byte>)
      requires Buffers() && yamux.Some?
      modifies this
      ensures Buffers()
      ensures View()
        == PumpYamux(old(View()).(yamux := Some(old(yamux).value.(recvBuf := old(yamux).value.recvBuf + data))))
    {
      yamux := Some(yamux.value.(recvBuf := yamux.value.recvBuf + data));
      ghost var start := View();
      while F.TryParse(yamux.value.recvBuf).Some?
        invariant Buffers() && yamux.Some? && PumpYamux(View()) == PumpYamux(start)
        decreases |yamux.value.recvBuf|
      {
        HandleOneFrame();
      }
    }

    method CreateStream(inbound: bool)
      requires Buffers()
      modifies this`direct, this`nextStreamId, this`eventQueue, this`emitted, this`pending
      ensures Buffers() && View() == Connection.CreateStream(old(View()), inbound)
    {
      var id := nextStreamId;
      direct := Some(Direct(id, true, []));
      nextStreamId := id + 1;
      Emit(if inbound then StreamAccepted(id) else StreamOpened(id));
      if inbound { pending := pending + [id]; }
    }

    method ActivateYamuxIfChosen()
      modifies this`yamux, this`createInbound
      ensures View() == ActivateIfYamux(old(View()))
    {
      if muxer == Some(YAMUX) {
        yamux := Some(BN.NewEnd(isInitiator));
        createInbound := false;
      }
    }

    method AnnounceReady()
      requires Buffers()
      modifies this`state, this`eventQueue, this`emitted
      ensures Buffers() && View() == old(View()).(state := Ready, events := old(emitted) + [Secured, MultiplexerReady])
    {
      Assoc(emitted, [Secured], [MultiplexerReady]);
      assert [Secured] + [MultiplexerReady] == [Secured, MultiplexerReady];
      state := ConnectionState.SecureReady;
      Emit(Secured);
      state := ConnectionState.Multiplexing;
      Emit(MultiplexerReady);
      state := Ready;
    }

    method BecomeReady()
      requires Buffers()
      modifies this`stage, this`secureReady, this`state, this`eventQueue, this`emitted
      ensures Buffers()
      ensures View() == old(View()).(stage := Established, secureReady := true, state := Ready,
                                     events := old(emitted) + [Secured, MultiplexerReady])
    {
      stage, secureReady := Established, true;
      AnnounceReady();
    }

    method CompleteReadyState()
      requires Buffers()
      modifies this`stage, this`secureReady, this`state, this`createInbound, this`direct, this`nextStreamId,
        this`eventQueue, this`emitted, this`pending
      ensures Buffers() && View() == CompleteReady(old(View()))
    {
      BecomeReady();
      if yamux.None? && createInbound && pending == [] {
        CreateStream(true);
        createInbound := false;
      }
    }

    method FinishSecureUpgrade() returns (r: Option<Failure>)
      requires Buffers()
      modifies this
      ensures Buffers() && Outcome(View(), r) == FinishSecure(old(View()))
    {
      if secureReady { return None; }
      r := ValidateExpectedPeer();
      if r.Some? { return; }
      r := ChooseMuxer(SelectMuxer(muxers, noise.remoteMuxers));
    }

    method ChooseMuxer(name: Option<MS.Text>) returns (r: Option<Failure>)
      requires Buffers()
      modifies this
      ensures Buffers() && Outcome(View(), r) == Choose(old(View()), name)
    {
      muxer := name;
      if name == Some(YAMUX) {
        ActivateYamuxIfChosen();
        CompleteReadyState();
        return None;
      }
      if muxers == [] {
        CompleteReadyState();
        return None;
      }
      r := StartMuxerNegotiation();
    }

    method StartMuxerNegotiation() returns (r: Option<Failure>)
      requires Buffers() && muxers != []
      modifies this
      ensures Buffers() && Outcome(View(), r) == AskForMuxer(old(View()))
    {
      stage := MuxerNegotiation;
      if !isInitiator { return None; }
      r := QueueEncryptedMessage(Lits(MS.PrepareOutbound(muxers).value));
    }

    method ValidateExpectedPeer() returns (r: Option<Failure>)
      ensures r == WrongIdentity(View())
    {
      if !isInitiator || dialed.None? { return None; }
      if noise.remotePeer.None? { return Some(MissingPeer); }
      var expected := B.PeerIdFromString(dialed.value);
      if expected.Err? { return None; }
      r := if Lits(expected.value) == noise.remotePeer.value then None else Some(WrongPeer);
    }

    method StartNoiseHandshake(g: N.Generated) returns (r: Option<Failure>)
      requires Buffers()
      modifies this`wireTx, this`left, this`sent, this`patience, this`noise, this`stage, this`handshake
      ensures Buffers() && Outcome(View(), r) == StartNoise(old(View()), g)
    {
      r := SendFirstMessage(N.WriteMsg1(noise, g));
    }

    method SendFirstMessage(first: (N.State, seq<Octet>)) returns (r: Option<Failure>)
      requires Buffers()
      modifies this`wireTx, this`left, this`sent, this`patience, this`noise, this`stage, this`handshake
      ensures Buffers() && Outcome(View(), r) == SendFirst(old(View()), first)
    {
      noise, stage, handshake := first.0, NoiseHandshake, AwaitingMsg2;
      assert View() == old(View()).(noise := first.0, stage := NoiseHandshake, handshake := AwaitingMsg2);
      r := QueueWireMessage(first.1);
    }

    method ProcessProtocolNegotiation(g: N.Generated) returns (r: Option<Failure>)
      requires Buffers()
      modifies this
      ensures Buffers() && Outcome(View(), r) == NegotiateProtocol(old(View()), g)
    {
      var span := MS.ExchangeSpan(Vals(wireRx));
      if span.Err? { return if MS.IsIncomplete(span.error) then None else Some(NotNegotiated(span.error)); }
      var incoming := Vals(wireRx)[..span.value];
      if isInitiator {
        r := AcceptAnswer(span.value, MS.ReadOutboundResponse(incoming, NOISE), g);
      } else {
        r := AcceptProposal(span.value, MS.NegotiateInbound(incoming, [NOISE]));
      }
    }

    method AcceptAnswer(n: nat, selected: Result<MS.Text, MS.Error>, g: N.Generated) returns (r: Option<Failure>)
      requires Buffers() && n <= |wireRx|
      modifies this`wireTx, this`left, this`sent, this`patience, this`noise, this`stage, this`handshake, this`wireRx
      ensures Buffers() && Outcome(View(), r) == TakeAnswer(old(View()), n, selected, g)
    {
      if selected.Err? { return Some(NotNegotiated(selected.error)); }
      wireRx := wireRx[n..];
      r := StartNoiseHandshake(g);
    }

    method AcceptProposal(n: nat, negotiated: Result<MS.Negotiation, MS.Error>) returns (r: Option<Failure>)
      requires Buffers() && n <= |wireRx|
      modifies this`wireTx, this`left, this`sent, this`patience, this`stage, this`handshake, this`wireRx
      ensures Buffers() && Outcome(View(), r) == TakeProposal(old(View()), n, negotiated)
    {
      if negotiated.Err? { return Some(NotNegotiated(negotiated.error)); }
      if negotiated.value.protocol != Some(NOISE) { return Some(NoiseRefused); }
      r := AnswerProposal(n, Lits(negotiated.value.outbound));
    }

    method AnswerProposal(n: nat, answer: seq<Octet>) returns (r: Option<Failure>)
      requires Buffers() && n <= |wireRx|
      modifies this`wireTx, this`left, this`sent, this`patience, this`stage, this`handshake, this`wireRx
      ensures Buffers() && Outcome(View(), r) == AcceptNoise(old(View()), n, answer)
    {
      QueueRaw(answer);
      r := FlushWire();
      if r.Some? { return; }
      wireRx := wireRx[n..];
      stage, handshake := NoiseHandshake, AwaitingMsg1;
    }

    method ProcessMsg1(reply: N.Reply<seq<Octet>>) returns (r: Option<Failure>)
      requires Buffers()
      modifies this`wireTx, this`left, this`sent, this`patience, this`noise, this`handshake
      ensures Buffers() && Outcome(View(), r) == TakeMsg1(old(View()), reply)
    {
      noise := reply.s;
      if reply.r.Err? { return Some(NotSecured(reply.r.error)); }
      handshake := AwaitingMsg3;
      r := QueueWireMessage(reply.r.value);
    }

    method ProcessMsg2(reply: N.Reply<seq<Octet>>) returns (r: Option<Failure>)
      requires Buffers()
      modifies this
      ensures Buffers() && Outcome(View(), r) == TakeMsg2(old(View()), reply)
    {
      noise := reply.s;
      if reply.r.Err? { return Some(NotSecured(reply.r.error)); }
      handshake := Complete;
      r := QueueWireMessage(reply.r.value);
      if r.Some? { return; }
      r := FinishSecureUpgrade();
    }

    method ProcessMsg3(reply: N.Reply<()>) returns (r: Option<Failure>)
      requires Buffers()
      modifies this
      ensures Buffers() && Outcome(View(), r) == TakeMsg3(old(View()), reply)
    {
      noise := reply.s;
      if reply.r.Err? { return Some(NotSecured(reply.r.error)); }
      handshake := Complete;
      r := FinishSecureUpgrade();
    }

    method ProcessHandshakeFrame(message: seq<Octet>, g: N.Generated) returns (r: Option<Failure>)
      requires Buffers()
      modifies this
      ensures Buffers() && Outcome(View(), r) == HandshakeFrame(old(View()), message, g)
    {
      match handshake {
        case AwaitingMsg1 => r := ProcessMsg1(N.ProcessMsg1(noise, message, g));
        case AwaitingMsg2 => r := ProcessMsg2(N.ProcessMsg2(noise, message));
        case AwaitingMsg3 => r := ProcessMsg3(N.ProcessMsg3(noise, message));
        case Idle => r := Some(NotStarted);
        case Complete => r := Some(ExtraFrame);
      }
    }

    method ProcessHandshake(g: N.Generated) returns (r: Option<Failure>)
      requires Buffers()
      modifies this
      ensures Buffers() && Outcome(View(), r) == HandshakeFrames(old(View()), g)
    {
      while !secureReady && stage == NoiseHandshake
        invariant Buffers() && HandshakeFrames(View(), g) == HandshakeFrames(old(View()), g)
        decreases |wireRx|
      {
        var frame := T.PopFrame(wireRx);
        if frame.None? { return None; }
        wireRx := frame.value.rest;
        r := ProcessHandshakeFrame(frame.value.message, g);
        if r.Some? { return; }
      }
      r := None;
    }

    method CollectPlaintext(plaintext: Result<T.Sealed, NP.Error>) returns (r: Option<Failure>)
      requires Buffers()
      modifies this`noise, this`muxerBuffer
      ensures Buffers() && Outcome(View(), r) == Collect(old(View()), plaintext)
    {
      if plaintext.Err? { return Some(NotSecured(plaintext.error)); }
      noise := noise.(recv := plaintext.value.next);
      muxerBuffer := muxerBuffer + plaintext.value.message;
      r := None;
    }

    method CollectMuxerNegotiation() returns (r: Option<Failure>)
      requires Buffers()
      modifies this
      ensures Buffers() && Outcome(View(), r) == CollectNegotiation(old(View()))
    {
      while true
        invariant Buffers() && CollectNegotiation(View()) == CollectNegotiation(old(View()))
        decreases |wireRx|
      {
        var frame := T.PopFrame(wireRx);
        if frame.None? { return None; }
        wireRx := frame.value.rest;
        r := CollectPlaintext(T.Decrypt(noise.recv, frame.value.message));
        if r.Some? { return; }
      }
    }

    method SetMuxer(name: Option<MS.Text>)
      modifies this`muxer, this`yamux, this`createInbound
      ensures View() == ActivateIfYamux(old(View()).(muxer := name))
    {
      muxer := name;
      ActivateYamuxIfChosen();
    }

    method ReadMuxerAnswer(exchange: seq<Byte>) returns (r: Option<Failure>)
      requires Buffers()
      modifies this`muxer, this`yamux, this`createInbound
      ensures Buffers() && Outcome(View(), r) == Connection.ReadMuxerAnswer(old(View()), exchange)
    {
      r := AcceptMuxer(MS.ReadOutboundResponse(exchange, if muxers == [] then [] else muxers[0]));
    }

    method AcceptMuxer(selected: Result<MS.Text, MS.Error>) returns (r: Option<Failure>)
      requires Buffers()
      modifies this`muxer, this`yamux, this`createInbound
      ensures Buffers() && Outcome(View(), r) == TakeMuxer(old(View()), selected)
    {
      if selected.Err? {
        return if selected.error == MS.NotSupported then None else Some(NotNegotiated(selected.error));
      }
      SetMuxer(Some(selected.value));
      r := None;
    }

    method AnswerMuxer(exchange: seq<Byte>) returns (r: Option<Failure>)
      requires Buffers()
      modifies this`wireTx, this`left, this`sent, this`patience, this`noise, this`muxer, this`yamux, this`createInbound
      ensures Buffers() && Outcome(View(), r) == Connection.AnswerMuxer(old(View()), exchange)
    {
      r := SendMuxerAnswer(MS.NegotiateInbound(exchange, muxers));
    }

    method SendMuxerAnswer(negotiated: Result<MS.Negotiation, MS.Error>) returns (r: Option<Failure>)
      requires Buffers()
      modifies this`wireTx, this`left, this`sent, this`patience, this`noise, this`muxer, this`yamux, this`createInbound
      ensures Buffers() && Outcome(View(), r) == SendAnswer(old(View()), negotiated)
    {
      if negotiated.Err? { return Some(NotNegotiated(negotiated.error)); }
      r := QueueEncryptedMessage(Lits(negotiated.value.outbound));
      if r.Some? { return; }
      if negotiated.value.protocol.Some? { SetMuxer(negotiated.value.protocol); }
    }

    method ProcessMuxerNegotiation() returns (r: Option<Failure>)
      requires Buffers()
      modifies this
      ensures Buffers() && Outcome(View(), r) == NegotiateMuxer(old(View()))
    {
      r := CollectMuxerNegotiation();
      if r.Some? { return; }
      r := SettleMuxerNegotiation();
    }

    method SettleMuxerNegotiation() returns (r: Option<Failure>)
      requires Buffers()
      modifies this
      ensures Buffers() && Outcome(View(), r) == SettleMuxer(old(View()))
    {
      var span := MS.ExchangeSpan(Vals(muxerBuffer));
      if span.Err? { return if MS.IsIncomplete(span.error) then None else Some(NotNegotiated(span.error)); }
      r := SettleExchange(Vals(muxerBuffer)[..span.value], muxerBuffer[span.value..]);
    }

    method ExchangeMuxer(exchange: seq<Byte>) returns (r: Option<Failure>)
      requires Buffers()
      modifies this
      ensures Buffers() && Outcome(View(), r) == MuxerStep(old(View()), exchange)
    {
      if isInitiator {
        r := ReadMuxerAnswer(exchange);
      } else {
        r := AnswerMuxer(exchange);
      }
    }

    method SettleExchange(exchange: seq<Byte>, rest: seq<Octet>) returns (r: Option<Failure>)
      requires Buffers()
      modifies this
      ensures Buffers() && Outcome(View(), r) == Settle(old(View()), exchange, rest)
    {
      r := ExchangeMuxer(exchange);
      if r.Some? { return; }
      ReadyWithRest(rest);
    }

    method ReadyWithRest(rest: seq<Octet>)
      requires Buffers()
      modifies this
      ensures Buffers() && View() == CompleteReady(old(View()).(muxerBuffer := rest))
    {
      muxerBuffer := rest;
      CompleteReadyState();
    }

    method HandOnPlaintext(plain: seq<Octet>)
      requires Buffers()
      modifies this
      ensures Buffers() && View() == HandOn(old(View()), plain)
    {
      if yamux.Some? {
        ReceiveYamux(Vals(plain));
        return;
      }
      if direct.None? || !direct.value.isOpen { CreateStream(true); }
      direct := Some(direct.value.(rx := direct.value.rx + plain));
    }

    method TakePlaintext(plaintext: Result<T.Sealed, NP.Error>) returns (r: Option<Failure>)
      requires Buffers()
      modifies this
      ensures Buffers() && Outcome(View(), r) == TakeOpened(old(View()), plaintext)
    {
      if plaintext.Err? { return Some(NotSecured(plaintext.error)); }
      noise := noise.(recv := plaintext.value.next);
      HandOnPlaintext(plaintext.value.message);
      r := None;
    }

    method TakeFrame(frame: T.Popped) returns (r: Option<Failure>)
      requires Buffers()
      modifies this
      ensures Buffers()
      ensures Outcome(View(), r)
        == TakeOpened(old(View()).(rx := frame.rest), T.Decrypt(old(noise).recv, frame.message))
    {
      wireRx := frame.rest;
      r := TakePlaintext(T.Decrypt(noise.recv, frame.message));
    }

    method DrainInput() returns (r: Option<Failure>)
      requires Buffers()
      modifies this
      ensures Buffers() && Outcome(View(), r) == Drain(old(View()))
    {
      ghost var start := View();
      while true
        invariant Buffers() && Drain(View()) == Drain(start)
        decreases |wireRx|
      {
        var frame := T.PopFrame(wireRx);
        if frame.None? { return None; }
        r := TakeFrame(frame.value);
        if r.Some? { return; }
      }
    }

    method ProcessPendingInput(g: N.Generated) returns (r: Option<Failure>)
      requires Buffers()
      modifies this
      ensures Buffers() && Outcome(View(), r) == Process(old(View()), g)
    {
      if stage == NegotiatingProtocol {
        r := ProcessProtocolNegotiation(g);
        if r.Some? { return; }
      }
      r := ProcessHandshake(g);
      if r.Some? { return; }
      if !secureReady && stage == MuxerNegotiation {
        r := ProcessMuxerNegotiation();
        if r.Some? { return; }
      }
      if !secureReady { return None; }
      r := DrainInput();
    }

    // ---------- entry points ----------

    method CloseSocket()
      requires Buffers()
      modifies this`socketOpen, this`wireRx, this`wireTx, this`left, this`discarded
      ensures Buffers() && View() == Connection.CloseSocket(old(View())) && eventQueue == old(eventQueue)
      ensures old(socketOpen) ==> wireTx == [] && discarded == old(discarded) + old(wireTx)
      ensures !old(socketOpen) ==> wireTx == old(wireTx) && discarded == old(discarded)
    {
      if socketOpen {
        left, discarded := left + wireTx, discarded + wireTx;
        assert left + [] == left;
        socketOpen, wireRx, wireTx := false, [], [];
      }
    }

    method CloseNow()
      requires Buffers()
      modifies this
      ensures Buffers() && View() == Connection.Close(old(View()))
    {
      if state == Closed { return; }
      CloseSocket();
      if direct.Some? { direct := Some(direct.value.(isOpen := false, rx := [])); }
      state := Closed;
      Emit(Ended);
    }

    method AbandonNow()
      requires Buffers()
      modifies this
      ensures Buffers() && View() == Abandon(old(View()))
    {
      if state != Failed && state != Closed {
        state := Failed;
        Emit(Problem);
      }
      CloseNow();
    }

    method Close()
      requires Valid()
      modifies this
      ensures Valid() && View() == CE.React(old(View()), CE.Closing)
    {
      CE.ReactKeepsGood(View(), CE.Closing);
      CloseNow();
    }

    method OnSocketReadable(data: seq<Octet>, end: RecvEnd, g: N.Generated)
      requires Valid()
      modifies this
      ensures Valid() && View() == CE.React(old(View()), CE.Readable(data, end, g))
    {
      CE.ReactKeepsGood(View(), CE.Readable(data, end, g));
      Read(data, end, g);
    }

    method Read(data: seq<Octet>, end: RecvEnd, g: N.Generated)
      requires Buffers()
      modifies this
      ensures Buffers() && View() == OnReadable(old(View()), data, end, g)
    {
      if !socketOpen || state == Closed || state == Failed { return; }
      wireRx := wireRx + data;
      match end {
        case EndOfFile => CloseNow();
        case ConnectionReset => CloseNow();
        case RecvError => AbandonNow();
        case WouldBlock =>
          var drain := ProcessPendingInput(g);
          if drain.Some? { AbandonNow(); }
      }
    }

    method OnSocketWritable()
      requires Valid()
      modifies this
      ensures Valid() && View() == CE.React(old(View()), CE.Writable)
    {
      CE.ReactKeepsGood(View(), CE.Writable);
      if !socketOpen || state == Closed || state == Failed { return; }
      var flush := FlushWire();
      if flush.Some? { AbandonNow(); }
    }

    method OnTimeout()
      requires Valid()
      modifies this
      ensures Valid() && View() == CE.React(old(View()), CE.TimedOut)
    {
      CE.ReactKeepsGood(View(), CE.TimedOut);
      if !socketOpen || state == Closed || state == Failed || state == Ready { return; }
      AbandonNow();
    }

    method RestartUpgrade(inbound: bool)
      requires Buffers()
      modifies this`state, this`createInbound, this`stage, this`handshake
      ensures Buffers() && View() == Restart(old(View()), inbound)
    {
      state, createInbound, stage, handshake := Securing, inbound, NegotiatingProtocol, Idle;
    }

    method StartOutbound() returns (r: Option<Failure>)
      requires Buffers()
      modifies this
      ensures Buffers() && Outcome(View(), r) == BeginOutbound(old(View()))
    {
      if !socketOpen || state == Closed || state == Failed { return Some(NotActive); }
      if state == Ready || secureReady { return None; }
      if !isInitiator { return Some(WrongRole); }
      RestartUpgrade(false);
      QueueRaw(Lits(MS.PrepareOutbound([NOISE]).value));
      r := FlushWire();
    }

    method StartInbound() returns (r: Option<Failure>)
      requires Buffers()
      modifies this
      ensures Buffers() && Outcome(View(), r) == BeginInbound(old(View()))
    {
      if !socketOpen || state == Closed || state == Failed { return Some(NotActive); }
      if state == Ready || secureReady { return None; }
      if isInitiator { return Some(WrongRole); }
      RestartUpgrade(true);
      r := None;
    }

    method BeginOutboundUpgrade() returns (r: Option<Failure>)
      requires Valid()
      modifies this
      ensures Valid() && View() == CE.React(old(View()), CE.BeginningOutbound) && r == BeginOutbound(old(View())).error
    {
      CE.ReactKeepsGood(View(), CE.BeginningOutbound);
      r := StartOutbound();
    }

    method BeginInboundUpgrade() returns (r: Option<Failure>)
      requires Valid()
      modifies this
      ensures Valid() && View() == CE.React(old(View()), CE.BeginningInbound) && r == BeginInbound(old(View())).error
    {
      CE.ReactKeepsGood(View(), CE.BeginningInbound);
      r := StartInbound();
    }

    method OpenYamuxStream() returns (id: nat, r: Option<Failure>)
      requires Buffers() && yamux.Some?
      modifies this
      ensures Buffers() && Outcome(View(), r) == OpenYamux(old(View()))
      ensures r.None? ==> emitted == old(emitted) + [StreamOpened(id)]
    {
      id := yamux.value.party.mux.nextId;
      if yamux.value.party.mux.goAway { return id, Some(ShuttingDown); }
      yamux := Some(BN.Operate(yamux.value, Y.Opening, []));
      r := FlushYamuxOutgoing();
      if r.None? { Emit(StreamOpened(id)); }
    }

    method OpenAnyStream() returns (id: nat, r: Option<Failure>)
      requires Buffers()
      modifies this
      ensures Buffers() && Outcome(View(), r) == OpenStream(old(View()))
      ensures r.None? ==> emitted == old(emitted) + [StreamOpened(id)]
    {
      id := nextStreamId;
      if !socketOpen || state == Closed || state == Failed { return id, Some(NotActive); }
      if state != Ready { return id, Some(NotReady); }
      if yamux.Some? {
        id, r := OpenYamuxStream();
        return;
      }
      if direct.Some? && direct.value.isOpen { return id, Some(OneStreamOnly); }
      CreateStream(false);
      r := None;
    }

    /** The application gets the stream that the event announces, or the reason why there is none. */
    method RequestOpenStream() returns (r: Result<nat, Failure>)
      requires Valid()
      modifies this
      ensures Valid() && View() == CE.React(old(View()), CE.OpeningStream)
      ensures match r
        case Ok(id) => OpenStream(old(View())).error.None? && emitted == old(emitted) + [StreamOpened(id)]
        case Err(e) => OpenStream(old(View())).error == Some(e)
    {
      CE.ReactKeepsGood(View(), CE.OpeningStream);
      var id, failure := OpenAnyStream();
      r := if failure.Some? then Err(failure.value) else Ok(id);
    }

    /** Accepted streams are handed out in the order in which they were announced. */
    method AcceptInboundStream() returns (id: Option<nat>)
      requires Valid()
      modifies this`pending
      ensures Valid() && View() == CE.React(old(View()), CE.AcceptingStream)
      ensures id == if old(pending) == [] then None else Some(old(pending)[0])
    {
      CE.ReactKeepsGood(View(), CE.AcceptingStream);
      if pending == [] { return None; }
      id := Some(pending[0]);
      pending := pending[1..];
    }

    /** Resetting the single stream closes the socket under the connection, without an event. */
    method ResetDirectStream()
      requires Valid()
      modifies this
      ensures Valid() && View() == CE.React(old(View()), CE.ResettingDirect)
    {
      CE.ReactKeepsGood(View(), CE.ResettingDirect);
      if direct.None? { return; }
      CloseSocket();
      direct := Some(direct.value.(isOpen := false, rx := []));
    }

    /** Events come out in the order in which they were emitted. */
    method NextEvent() returns (e: Option<Event>)
      requires Valid()
      modifies this`eventQueue, this`delivered
      ensures Valid() && View() == old(View())
      ensures e == None ==> old(eventQueue) == [] && eventQueue == []
      ensures e.Some? ==> old(eventQueue) == [e.value] + eventQueue
    {
      if eventQueue == [] { return None; }
      e := Some(eventQueue[0]);
      assert eventQueue == [eventQueue[0]] + eventQueue[1..];
      Assoc(delivered, [eventQueue[0]], eventQueue[1..]);
      delivered := delivered + [eventQueue[0]];
      eventQueue := eventQueue[1..];
    }
  }
}
