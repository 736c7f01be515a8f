/** What each entry point of a connection does to it, and what it accepts, for every state and every input. */
module ConnectionLaws {
  import opened Bytes
  import opened Octets
  import opened Connection
  import B = Base58
  import BN = YamuxByteNet
  import F = YamuxFrame
  import M = YamuxMux
  import MC = MuxerChoice
  import ML = MultistreamLaws
  import MS = Multistream
  import N = Noise
  import SL = SecureLink
  import T = Transport
  import Y = YamuxNet
  import YE = YamuxEffects

  // ---------- the greeting ----------

  /** Nothing was sent and nothing taken from the buffer. */
  predicate Refused(c: Conn, o: Outcome) { o.error.Some? && o.c == c }

  /**
   * The responder goes on to the handshake exactly on a complete exchange of the header and the name of the secure
   * channel. It then answers with the same two names, and takes the exchange and nothing more from its buffer.
   */
  lemma ResponderChecks(c: Conn, g: N.Generated)
    requires !c.isInitiator && c.socketOpen && c.patience == None && MS.ExchangeSpan(Vals(c.rx)).Ok?
    ensures var n := MS.ExchangeSpan(Vals(c.rx)).value;
      var o := NegotiateProtocol(c, g);
      if ML.Proposes(Vals(c.rx)[..n], NOISE) then
        && o.error.None? && o.c.stage == NoiseHandshake && o.c.handshake == AwaitingMsg1 && o.c.rx == c.rx[n..]
        && o.c.noise == c.noise && Answered(c, o.c)
      else Refused(c, o)
  {
    var n := MS.ExchangeSpan(Vals(c.rx)).value;
    var exchange := Vals(c.rx)[..n];
    ML.InboundMeans(exchange, [NOISE]);
    var negotiated := MS.NegotiateInbound(exchange, [NOISE]);
    if negotiated.Ok? {
      ML.InboundAnswers(exchange, [NOISE]);
      ResponderTakes(c, n, negotiated.value);
    }
  }

  /** What was sent is the header and the name of the secure channel. */
  ghost predicate Answered(c: Conn, c': Conn) {
    exists answer :: c'.sent == c.sent + Lits(answer) && MS.Exchange(answer) == Ok((MS.HEADER, MS.Token(NOISE, [])))
  }

  lemma ResponderTakes(c: Conn, n: nat, negotiated: MS.Negotiation)
    requires c.socketOpen && c.patience == None && n <= |c.rx|
    requires negotiated.protocol == Some(NOISE) ==>
      MS.Exchange(negotiated.outbound) == Ok((MS.HEADER, MS.Token(MS.Strip(NOISE), [])))
    ensures var o := TakeProposal(c, n, Ok(negotiated));
      if negotiated.protocol == Some(NOISE) then
        && o.error.None? && o.c.stage == NoiseHandshake && o.c.handshake == AwaitingMsg1 && o.c.rx == c.rx[n..]
        && o.c.noise == c.noise && Answered(c, o.c)
      else Refused(c, o)
  {
    assert MS.Strip(NOISE) == NOISE;
    if negotiated.protocol == Some(NOISE) {
      assert TakeProposal(c, n, Ok(negotiated)).c.sent == c.sent + Lits(negotiated.outbound);
    }
  }

  /** The initiator goes on exactly when its proposal was confirmed, and then sends the first handshake message. */
  lemma InitiatorChecks(c: Conn, g: N.Generated)
    requires c.isInitiator && MS.ExchangeSpan(Vals(c.rx)).Ok?
    ensures var n := MS.ExchangeSpan(Vals(c.rx)).value;
      var o := NegotiateProtocol(c, g);
      if ML.Proposes(Vals(c.rx)[..n], NOISE) then o == StartNoise(c.(rx := c.rx[n..]), g) else Refused(c, o)
  {
    var n := MS.ExchangeSpan(Vals(c.rx)).value;
    ML.OutboundMeans(Vals(c.rx)[..n], NOISE);
  }

  /** An incomplete greeting is waited for; an impossible length is refused. */
  lemma GreetingIsAwaited(c: Conn, g: N.Generated)
    requires MS.ExchangeSpan(Vals(c.rx)).Err?
    ensures NegotiateProtocol(c, g).c == c
    ensures NegotiateProtocol(c, g).error.Some? <==> MS.ExchangeSpan(Vals(c.rx)) == Err(MS.InvalidLength)
  {
    ML.ScanErrors(Vals(c.rx));
  }

  /** A handshake message that is not awaited is an error and changes nothing. */
  lemma UnawaitedMessage(c: Conn, message: seq<Octet>, g: N.Generated)
    requires c.handshake == Idle || c.handshake == Complete
    ensures Refused(c, HandshakeFrame(c, message, g))
  {
  }

  // ---------- handshake messages ----------

  /** What is wrong with a message is reported; nothing is sent, and the connection is as far as it was. */
  predicate Rejected(c: Conn, o: Outcome, noise: N.State) {
    o.error.Some? && o.c == c.(noise := noise)
  }

  /** The outcome and the wire are those of sending this message. */
  predicate SendsMessage(c: Conn, o: Outcome, message: seq<Octet>) {
    var s := SendFrame(c, message);
    o.error == s.error && o.c.sent == s.c.sent
  }

  lemma AnswersMessage1(c: Conn, reply: N.Reply<seq<Octet>>)
    ensures var o := TakeMsg1(c, reply);
      if reply.r.Err? then Rejected(c, o, reply.s)
      else
        && o.c.handshake == AwaitingMsg3 && o.c.noise == reply.s && o.c.stage == c.stage && o.c.state == c.state
        && SendsMessage(c.(noise := reply.s), o, reply.r.value)
  {
    if reply.r.Ok? {
      MC.FramesAlike(c.(noise := reply.s, handshake := AwaitingMsg3), c.(noise := reply.s), reply.r.value);
    }
  }

  /** The responder answers a good message 1 with message 2, and then awaits message 3. */
  lemma TakesMessage1(c: Conn, message: seq<Octet>, g: N.Generated)
    requires c.handshake == AwaitingMsg1
    ensures var reply := N.ProcessMsg1(c.noise, message, g);
      var o := HandshakeFrame(c, message, g);
      if reply.r.Err? then Rejected(c, o, reply.s)
      else
        && o.c.handshake == AwaitingMsg3 && o.c.noise == reply.s && o.c.stage == c.stage && o.c.state == c.state
        && SendsMessage(c.(noise := reply.s), o, reply.r.value)
  {
    AnswersMessage1(c, N.ProcessMsg1(c.noise, message, g));
  }

  /** The initiator answers a good message 2 with message 3, and then looks at who the peer is. */
  lemma TakesMessage2(c: Conn, message: seq<Octet>, g: N.Generated)
    requires c.handshake == AwaitingMsg2
    ensures var reply := N.ProcessMsg2(c.noise, message);
      var o := HandshakeFrame(c, message, g);
      if reply.r.Err? then Rejected(c, o, reply.s)
      else
        var s := SendFrame(c.(noise := reply.s, handshake := Complete), reply.r.value);
        o == if s.error.Some? then s else FinishSecure(s.c)
  {
  }

  /** The responder has nothing to answer to message 3. */
  lemma TakesMessage3(c: Conn, message: seq<Octet>, g: N.Generated)
    requires c.handshake == AwaitingMsg3
    ensures var reply := N.ProcessMsg3(c.noise, message);
      var o := HandshakeFrame(c, message, g);
      if reply.r.Err? then Rejected(c, o, reply.s)
      else o == FinishSecure(c.(noise := reply.s, handshake := Complete))
  {
  }

  /**
   * The peer is not the one that was dialed: nobody was authenticated, or somebody whose id the address does not
   * give.
   */
  ghost predicate Stranger(c: Conn) {
    c.isInitiator && c.dialed.Some?
    && (c.noise.remotePeer.None?
        || exists p :: B.PeerIdFromString(c.dialed.value) == Ok(p) && Lits(p) != c.noise.remotePeer.value)
  }

  /** A stranger is refused, and nobody else. */
  lemma StrangersAreRefused(c: Conn)
    requires !c.secureReady
    ensures Stranger(c) <==> WrongIdentity(c).Some?
    ensures Stranger(c) ==> FinishSecure(c) == Outcome(c, WrongIdentity(c))
  {
  }

  /** A frame that does not open ends the choice of a muxer, and a ready connection, with an error. */
  lemma ForgeriesAreErrors(c: Conn)
    requires T.PopFrame(c.rx).Some? && T.Decrypt(c.noise.recv, T.PopFrame(c.rx).value.message).Err?
    ensures NegotiateMuxer(c).error.Some? && Drain(c).error.Some?
    ensures NegotiateMuxer(c).c == Drain(c).c == c.(rx := T.PopFrame(c.rx).value.rest)
  {
  }

  /** The first of the messages under way goes into the buffer of the negotiation. */
  lemma CollectsFirst(c: Conn, tx: N.Cipher, batches: seq<seq<Byte>>) returns (c': Conn)
    requires SL.Pipe(tx, c.noise.recv, c.rx, batches) && batches != []
    ensures CollectNegotiation(c) == CollectNegotiation(c') && SL.Pipe(tx, c'.noise.recv, c'.rx, batches[1..])
    ensures c' == c.(rx := c'.rx, noise := c.noise.(recv := c'.noise.recv), muxerBuffer := c.muxerBuffer
      + Lits(batches[0]))
  {
    SL.FirstBatchPops(tx, c.noise.recv, c.rx, batches);
    assert c.rx + [] == c.rx;
    SL.PipeReceive(tx, c.noise.recv, c.rx, [], batches);
    var p := T.PopFrame(c.rx).value;
    var sealed := T.Decrypt(c.noise.recv, p.message).value;
    assert p.rest + [] == p.rest;
    c' := c.(rx := p.rest, noise := c.noise.(recv := sealed.next), muxerBuffer := c.muxerBuffer + sealed.message);
  }

  /** All messages that have arrived are collected, in order. */
  lemma {:induction false} CollectsAll(c: Conn, tx: N.Cipher, batches: seq<seq<Byte>>)
    requires SL.Pipe(tx, c.noise.recv, c.rx, batches)
    ensures var o := CollectNegotiation(c);
      && o.error.None? && o.c.rx == [] && o.c.muxerBuffer == c.muxerBuffer + Concat(SL.LitsEach(batches))
      && o.c.sent == c.sent && o.c.events == c.events && o.c.stage == c.stage
    decreases |batches|
  {
    if batches == [] {
      assert T.FrameList(tx.key, c.noise.recv.nonce, SL.LitsEach([])) == [];
      assert c.muxerBuffer + [] == c.muxerBuffer;
    } else {
      var c' := CollectsFirst(c, tx, batches);
      CollectsAll(c', tx, batches[1..]);
      assert SL.LitsEach(batches)[1..] == SL.LitsEach(batches[1..]);
      Assoc(c.muxerBuffer, Lits(batches[0]), Concat(SL.LitsEach(batches[1..])));
    }
  }

  // ---------- nothing is left waiting ----------

  /** No whole frame waits in the buffer. */
  predicate TookAll(c: Conn) { T.PopFrame(c.rx).None? }

  lemma {:induction false} HandshakeTakesAll(c: Conn, g: N.Generated)
    ensures var o := HandshakeFrames(c, g);
      o.error.None? && !o.c.secureReady && o.c.stage == NoiseHandshake ==> TookAll(o.c)
    decreases |c.rx|
  {
    if !c.secureReady && c.stage == NoiseHandshake && T.PopFrame(c.rx).Some? {
      var p := T.PopFrame(c.rx).value;
      var step := HandshakeFrame(c.(rx := p.rest), p.message, g);
      if step.error.None? { HandshakeTakesAll(step.c, g); }
    }
  }

  lemma {:induction false} CollectTakesAll(c: Conn)
    ensures CollectNegotiation(c).error.None? ==> TookAll(CollectNegotiation(c).c)
    decreases |c.rx|
  {
    if T.PopFrame(c.rx).None? {
    } else {
      var p := T.PopFrame(c.rx).value;
      var step := Collect(c.(rx := p.rest), T.Decrypt(c.noise.recv, p.message));
      if step.error.None? { CollectTakesAll(step.c); }
    }
  }

  lemma {:induction false} DrainTakesAll(c: Conn)
    ensures Drain(c).error.None? ==> TookAll(Drain(c).c)
    decreases |c.rx|
  {
    if T.PopFrame(c.rx).None? {
    } else {
      var p := T.PopFrame(c.rx).value;
      var step := TakeOpened(c.(rx := p.rest), T.Decrypt(c.noise.recv, p.message));
      if step.error.None? { DrainTakesAll(step.c); }
    }
  }

  lemma TakingKeepsInput(c: Conn, selected: Result<MS.Text, MS.Error>)
    ensures TakeMuxer(c, selected).c.rx == c.rx
  {
  }

  lemma AnsweringKeepsInput(c: Conn, negotiated: Result<MS.Negotiation, MS.Error>)
    ensures SendAnswer(c, negotiated).c.rx == c.rx
  {
  }

  lemma MuxerStepKeepsInput(c: Conn, exchange: seq<Byte>)
    ensures MuxerStep(c, exchange).c.rx == c.rx
  {
    if c.isInitiator {
      TakingKeepsInput(c, MS.ReadOutboundResponse(exchange, if c.muxers == [] then [] else c.muxers[0]));
    } else {
      AnsweringKeepsInput(c, MS.NegotiateInbound(exchange, c.muxers));
    }
  }

  lemma ReadyKeepsInput(c: Conn)
    ensures CompleteReady(c).rx == c.rx
  {
  }

  lemma SettleKeepsInput(c: Conn, exchange: seq<Byte>, rest: seq<Octet>)
    ensures Settle(c, exchange, rest).c.rx == c.rx
  {
    MuxerStepKeepsInput(c, exchange);
    ReadyKeepsInput(MuxerStep(c, exchange).c.(muxerBuffer := rest));
  }

  lemma SettlingKeepsInput(c: Conn)
    ensures SettleMuxer(c).c.rx == c.rx
  {
    var span := MS.ExchangeSpan(Vals(c.muxerBuffer));
    if span.Ok? { SettleKeepsInput(c, Vals(c.muxerBuffer)[..span.value], c.muxerBuffer[span.value..]); }
  }

  /** The two stages after the handshake. */
  function LaterStages(c: Conn): Outcome {
    var muxed := if !c.secureReady && c.stage == MuxerNegotiation then NegotiateMuxer(c) else Fine(c);
    if muxed.error.Some? || !muxed.c.secureReady then muxed else Drain(muxed.c)
  }

  lemma LaterStagesAreLast(c: Conn, g: N.Generated, first: Outcome, second: Outcome)
    requires first == if c.stage == NegotiatingProtocol then NegotiateProtocol(c, g) else Fine(c)
    requires first.error.None? && second == HandshakeFrames(first.c, g) && second.error.None?
    ensures Process(c, g) == LaterStages(second.c)
  {
  }

  /** The connection has got past its greeting. */
  predicate PastGreeting(c: Conn) { c.secureReady || c.stage == NoiseHandshake || c.stage == MuxerNegotiation }

  lemma LaterStagesTakeAll(c: Conn)
    requires !c.secureReady && c.stage == NoiseHandshake ==> TookAll(c)
    ensures LaterStages(c).error.None? && PastGreeting(LaterStages(c).c) ==> TookAll(LaterStages(c).c)
  {
    CollectTakesAll(c);
    SettlingKeepsInput(CollectNegotiation(c).c);
    DrainTakesAll(c);
    DrainTakesAll(NegotiateMuxer(c).c);
  }

  /** Input that is processed without an error is processed as far as it goes: no whole frame is left waiting. */
  lemma ProcessTakesAll(c: Conn, g: N.Generated)
    ensures var o := Process(c, g); o.error.None? && PastGreeting(o.c) ==> TookAll(o.c)
  {
    var first := if c.stage == NegotiatingProtocol then NegotiateProtocol(c, g) else Fine(c);
    if first.error.None? {
      var second := HandshakeFrames(first.c, g);
      if second.error.None? {
        HandshakeTakesAll(first.c, g);
        LaterStagesTakeAll(second.c);
        LaterStagesAreLast(c, g, first, second);
      }
    }
  }

  // ---------- what a frame of yamux announces ----------

  lemma HandledEvents(c: Conn, f: F.Frame, e: BN.End, e': BN.End)
    requires c.yamux == Some(e) && F.TryParse(e.recvBuf) == Some(f)
    requires e' == BN.Operate(e.(recvBuf := e.recvBuf[F.FrameSize(f)..]), Y.Receiving, [f])
    ensures HandleFrame(c).events == Announce(c.(yamux := Some(e')), e.party.mux, e'.party.mux).events
    ensures e'.party.mux == M.Handle(e.party.mux, f).mux
  {
  }

  /** The events of a frame that a session looks at: a new stream is announced before any end of it. */
  lemma FrameIsAnnounced(c: Conn, f: F.Frame, m: M.Mux)
    requires c.yamux.Some? && c.yamux.value.party.mux == m && F.TryParse(c.yamux.value.recvBuf) == Some(f)
    requires YE.Admitted(m, f) && m.streams.Keys == m.windows.Keys
    ensures var sid := f.hdr.streamId;
      HandleFrame(c).events
        == c.events + (if sid in m.streams then [] else [StreamAccepted(sid)])
           + seq(|YE.Reported(YE.Found(m, sid), f)|, _ => StreamClosed(sid))
  {
    var e := c.yamux.value;
    var e' := BN.Operate(e.(recvBuf := e.recvBuf[F.FrameSize(f)..]), Y.Receiving, [f]);
    HandledEvents(c, f, e, e');
    YE.StreamFrameMeans(m, f);
    var sid := f.hdr.streamId;
    AnnouncedEvents(c.(yamux := Some(e')), m, e'.party.mux, sid, YE.Reported(YE.Found(m, sid), f));
  }

  lemma AnnouncedEvents(c: Conn, m: M.Mux, m': M.Mux, sid: F.StreamId, closed: seq<(F.StreamId, M.CloseReason)>)
    requires m'.accepted == m.accepted + (if sid in m.streams then [] else [sid]) && m'.closed == m.closed + closed
    requires forall i :: 0 <= i < |closed| ==> closed[i].0 == sid
    ensures Announce(c, m, m').events
      == c.events + (if sid in m.streams then [] else [StreamAccepted(sid)]) + seq(|closed|, _ => StreamClosed(sid))
  {
    assert Since(m.closed, m'.closed) == closed;
    assert Since(m.accepted, m'.accepted) == if sid in m.streams then [] else [sid];
    assert Finished(closed) == seq(|closed|, _ => StreamClosed(sid));
  }

  // ---------- closing ----------

  /** The connection has ended, without a problem or after reporting one; nothing it had received is kept. */
  predicate Ends(c: Conn, c': Conn, problem: bool) {
    && c'.state == Closed && !c'.socketOpen && (c.socketOpen ==> c'.rx == [])
    && c'.events == c.events + (if problem then [Problem, Ended] else [Ended])
    && c'.sent == c.sent && c'.noise == c.noise && c'.yamux == c.yamux && c'.stage == c.stage && c'.pending == c.pending
    && (c.direct.Some? <==> c'.direct.Some?) && (c'.direct.Some? ==> !c'.direct.value.isOpen)
  }

  lemma CloseMeans(c: Conn)
    ensures c.state == Closed ==> Close(c) == c
    ensures c.state != Closed ==> Ends(c, Close(c), false)
  {
  }

  lemma AbandonMeans(c: Conn)
    requires c.state != Closed && c.state != Failed
    ensures Ends(c, Abandon(c), true)
  {
    assert c.events + [Problem] + [Ended] == c.events + [Problem, Ended];
  }

  /** Resetting the single stream closes the socket without an event; the connection keeps its state. */
  lemma ResetMeans(c: Conn)
    ensures c.direct.None? ==> ResetDirect(c) == c
    ensures c.direct.Some? ==>
      var r := ResetDirect(c);
      && !r.socketOpen && (c.socketOpen ==> r.rx == []) && r.events == c.events && r.state == c.state
      && r.direct == Some(Direct(c.direct.value.id, false, [])) && r.pending == c.pending && r.sent == c.sent
  {
  }

  // ---------- the socket ----------

  /** A connection that has ended, or whose socket is closed, ignores the socket. */
  lemma InactiveIgnores(c: Conn, data: seq<Octet>, end: RecvEnd, g: N.Generated)
    requires !IsActive(c)
    ensures OnReadable(c, data, end, g) == c && OnWritable(c) == c && OnTimeout(c) == c
  {
  }

  /**
   * The end of the input and a reset by the peer end the connection without a problem, an error of the socket with
   * one; in none of these cases is anything that has just arrived looked at.
   */
  lemma InputEnds(c: Conn, data: seq<Octet>, end: RecvEnd, g: N.Generated)
    requires IsActive(c) && end != WouldBlock
    ensures Ends(c, OnReadable(c, data, end, g), end == RecvError)
  {
    var c1 := c.(rx := c.rx + data);
    CloseMeans(c1);
    AbandonMeans(c1);
  }

  /** Input that cannot be processed is the only other reason to end on reading, and it is reported as a problem. */
  lemma InputFails(c: Conn, data: seq<Octet>, g: N.Generated)
    requires IsActive(c)
    ensures var o := Process(c.(rx := c.rx + data), g);
      var c' := OnReadable(c, data, WouldBlock, g);
      && (o.error.None? ==> c' == o.c)
      && (o.error.Some? && o.c.state != Closed && o.c.state != Failed ==> Ends(o.c, c', true))
  {
    var o := Process(c.(rx := c.rx + data), g);
    if o.error.Some? && o.c.state != Closed && o.c.state != Failed { AbandonMeans(o.c); }
  }

  /** A timeout ends a connection that is not ready yet, as a problem, and leaves a ready one alone. */
  lemma TimeoutMeans(c: Conn)
    requires IsActive(c)
    ensures if c.state == Ready then OnTimeout(c) == c else Ends(c, OnTimeout(c), true)
  {
    AbandonMeans(c);
  }

  /** A socket that can be written to again ends the connection only if it then fails. */
  lemma WritableMeans(c: Conn)
    requires IsActive(c)
    ensures if c.patience == Some(0) then Ends(c, OnWritable(c), true)
            else OnWritable(c) == c.(patience := OnWritable(c).patience)
  {
    AbandonMeans(c);
  }

  // ---------- beginning ----------

  /** Why an upgrade is not begun. */
  function Objection(c: Conn, outbound: bool): Option<Failure> {
    if !IsActive(c) then Some(NotActive) else if c.isInitiator != outbound then Some(WrongRole) else None
  }

  /**
   * An upgrade begins in the right role only, and only on a connection that is open and not secured. The initiator
   * sends the header and the name of the secure channel; the responder sends nothing and will want an inbound stream.
   */
  lemma BeginMeans(c: Conn)
    ensures c.state == Ready || c.secureReady ==>
      && BeginOutbound(c) == (if IsActive(c) then Fine(c) else Fail(c, NotActive))
      && BeginInbound(c) == (if IsActive(c) then Fine(c) else Fail(c, NotActive))
    ensures c.state != Ready && !c.secureReady ==>
      && (Objection(c, true).Some? ==> BeginOutbound(c) == Outcome(c, Objection(c, true)))
      && (Objection(c, false).Some? ==> BeginInbound(c) == Outcome(c, Objection(c, false)))
    ensures c.state != Ready && !c.secureReady && Objection(c, true).None? && c.patience == None ==>
      var o := BeginOutbound(c);
      && o.error.None? && Begins(c, o.c) && !o.c.createInbound && Answered(c, o.c)
    ensures c.state != Ready && !c.secureReady && Objection(c, false).None? ==>
      var o := BeginInbound(c);
      o.error.None? && Begins(c, o.c) && o.c.createInbound && o.c.sent == c.sent
  {
    ML.ProposalMeans([NOISE]);
    assert MS.Strip(NOISE) == NOISE;
    if c.state != Ready && !c.secureReady && Objection(c, true).None? && c.patience == None {
      assert BeginOutbound(c).c.sent == c.sent + Lits(MS.PrepareOutbound([NOISE]).value);
    }
  }

  predicate Begins(c: Conn, c': Conn) {
    && c'.state == Securing && c'.stage == NegotiatingProtocol && c'.handshake == Idle
    && c'.events == c.events && c'.noise == c.noise && c'.rx == c.rx && !c'.secureReady
  }

  // ---------- opening a stream ----------

  /** Why no stream is opened. */
  function Hindrance(c: Conn): Option<Failure> {
    if !IsActive(c) then Some(NotActive)
    else if c.state != Ready then Some(NotReady)
    else if c.yamux.Some? && c.yamux.value.party.mux.goAway then Some(ShuttingDown)
    else if c.yamux.None? && c.direct.Some? && c.direct.value.isOpen then Some(OneStreamOnly)
    else None
  }

  /** What hinders an opening is reported, and nothing else happens. */
  lemma HinderedOpening(c: Conn)
    requires Hindrance(c).Some?
    ensures OpenStream(c) == Outcome(c, Hindrance(c))
  {
  }

  /** Without a muxer the opening gives the one stream of the connection, numbered in order of creation. */
  lemma DirectOpening(c: Conn)
    requires Hindrance(c).None? && c.yamux.None?
    ensures var o := OpenStream(c);
      && o.error.None? && o.c.events == c.events + [StreamOpened(c.nextStreamId)] && o.c.pending == c.pending
      && o.c.direct == Some(Direct(c.nextStreamId, true, [])) && o.c.nextStreamId == c.nextStreamId + 1
      && o.c.sent == c.sent
  {
  }

  /** Over yamux the session opens its next stream, and the event names it exactly if its SYN could be sent. */
  lemma YamuxOpening(c: Conn)
    requires Hindrance(c).None? && c.yamux.Some? && c.yamux.value.sendBuf == []
    ensures var o := OpenStream(c);
      var (p, id) := (c.yamux.value.party, c.yamux.value.party.mux.nextId);
      var s := SendEncrypted(c, Lits(F.Encode(M.DataFrame(id, F.SYN))));
      && o.c.yamux.Some? && o.c.yamux.value.party.opens == p.opens + [id]
      && o.error == s.error && o.c.sent == s.c.sent && o.c.noise == s.c.noise
      && o.c.events == c.events + (if s.error.None? then [StreamOpened(id)] else [])
  {
    var e := BN.Operate(c.yamux.value, Y.Opening, []);
    SynIsSent(c.yamux.value);
    FlushSends(c.(yamux := Some(e)));
    MC.SendsAlike(c, c.(yamux := Some(e)), Lits(e.sendBuf));
    assert c.events + [] == c.events;
  }

  /** A flush of pending bytes sends them as one message, whatever the session is. */
  lemma FlushSends(c: Conn)
    requires c.yamux.Some? && c.yamux.value.sendBuf != []
    ensures var (o, s) := (FlushYamux(c), SendEncrypted(c, Lits(c.yamux.value.sendBuf)));
      && o.error == s.error && o.c.sent == s.c.sent && o.c.noise == s.c.noise && o.c.events == c.events
      && o.c.yamux == Some(c.yamux.value.(sendBuf := []))
  {
    MC.SendsAlike(c, c.(yamux := Some(c.yamux.value.(sendBuf := []))), Lits(c.yamux.value.sendBuf));
  }

  lemma SynIsSent(e: BN.End)
    requires !e.party.mux.goAway && e.sendBuf == []
    ensures var e' := BN.Operate(e, Y.Opening, []);
      && e'.sendBuf == F.Encode(M.DataFrame(e.party.mux.nextId, F.SYN))
      && e'.party.opens == e.party.opens + [e.party.mux.nextId]
  {
    var f := M.DataFrame(e.party.mux.nextId, F.SYN);
    F.EncodeAllOne(f);
    assert BN.Do(e.party, Y.Opening, []).out == [f];
    assert [] + F.Encode(f) == F.Encode(f);
  }
}
