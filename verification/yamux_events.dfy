/**
 * The events of a connection over yamux are the callbacks of its session: the streams announced as accepted and as
 * ended are those that the session accepted and closed, in order, over every sequence of inputs.
 */
module YamuxEvents {
  import opened Bytes
  import opened Octets
  import opened Connection
  import opened ConnectionEvents
  import opened StreamEvents
  import BN = YamuxByteNet
  import F = YamuxFrame
  import M = YamuxMux
  import MS = Multistream
  import N = Noise
  import NP = NoisePayload
  import T = Transport
  import Y = YamuxNet

  /** The connection has announced exactly what its session reported; before it is ready there is nothing of either. */
  predicate Tied(c: Conn) {
    && (!c.secureReady ==> c.yamux.None? && AcceptedIn(c.events) == [] && ClosedIn(c.events) == [])
    && (c.yamux.Some? ==> Announced(c.events, c.yamux.value.party.mux))
  }

  predicate Announced(events: seq<Event>, m: M.Mux) {
    AcceptedIn(events) == m.accepted && ClosedIn(events) == IdsOf(m.closed)
  }

  /** Nothing that the tie depends on has changed. */
  predicate Even(c: Conn, c': Conn) {
    && c'.secureReady == c.secureReady && c'.events == c.events && c'.yamux.Some? == c.yamux.Some?
    && (c.yamux.Some? ==> Reported(c'.yamux.value.party.mux, c.yamux.value.party.mux))
  }

  predicate Reported(m: M.Mux, m': M.Mux) { m.accepted == m'.accepted && m.closed == m'.closed }

  // ---------- the session ----------

  predicate Grown(m: M.Mux, m': M.Mux) { m.accepted <= m'.accepted && m.closed <= m'.closed }

  lemma DeliverReports(m: M.Mux, f: F.Frame)
    requires f.hdr.streamId in m.streams
    ensures Grown(m, M.Deliver(m, f))
  {
    var sid := f.hdr.streamId;
    var m1 := if f.hdr.kind == F.WINDOW_UPDATE && f.hdr.length > 0 then M.AddCredit(m, sid, f.hdr.length) else m;
    var m2 := M.Append(m1, sid, f.payload);
    assert Grown(m, m2);
    var m3 := if F.HasFlag(f.hdr.flags, F.FIN) then M.Finish(m2, sid) else m2;
    assert Grown(m2, m3);
    assert Grown(m3, M.Abort(m3, sid));
  }

  lemma EnterReports(m: M.Mux, sid: F.StreamId, syn: bool)
    ensures M.Enter(m, sid, syn).Some? ==> Grown(m, M.Enter(m, sid, syn).value.mux)
  {
  }

  lemma CallbacksGrow(m: M.Mux, f: F.Frame)
    ensures Grown(m, M.Handle(m, f).mux)
  {
    var entered := M.Enter(m, f.hdr.streamId, F.HasFlag(f.hdr.flags, F.SYN));
    EnterReports(m, f.hdr.streamId, F.HasFlag(f.hdr.flags, F.SYN));
    if entered.Some? { DeliverReports(entered.value.mux, f); }
  }

  lemma OperationsReportNothing(p: Y.Party, a: Y.Action)
    ensures Reported(BN.Do(p, a, []).near.mux, p.mux)
  {
  }

  lemma IdsAppend(a: seq<(F.StreamId, M.CloseReason)>, b: seq<(F.StreamId, M.CloseReason)>)
    ensures IdsOf(a + b) == IdsOf(a) + IdsOf(b)
  {
  }

  /** Announcing what a session has newly reported keeps events and reports together. */
  lemma AnnounceTies(c: Conn, before: M.Mux, after: M.Mux)
    requires Announced(c.events, before) && before.accepted <= after.accepted && before.closed <= after.closed
    ensures Announced(Announce(c, before, after).events, after)
  {
    var a, f := Since(before.accepted, after.accepted), Since(before.closed, after.closed);
    AcceptedEvents(a);
    FinishedEvents(f);
    AppendedEvents(c.events, Accepted(a));
    AppendedEvents(c.events + Accepted(a), Finished(f));
    IdsAppend(before.closed, f);
    assert after.accepted == before.accepted + a && after.closed == before.closed + f;
    assert AcceptedIn(c.events) + a + [] == AcceptedIn(c.events) + a;
    assert ClosedIn(c.events) + [] == ClosedIn(c.events);
  }

  lemma FlushIsEven(c: Conn)
    ensures Even(c, FlushYamux(c).c)
  {
  }

  lemma HandleTies(c: Conn)
    requires Tied(c) && c.secureReady && c.yamux.Some? && F.TryParse(c.yamux.value.recvBuf).Some?
    ensures Tied(HandleFrame(c)) && HandleFrame(c).secureReady
  {
    var e := c.yamux.value;
    var f := F.TryParse(e.recvBuf).value;
    var e' := BN.Operate(e.(recvBuf := e.recvBuf[F.FrameSize(f)..]), Y.Receiving, [f]);
    var c1 := c.(yamux := Some(e'));
    CallbacksGrow(e.party.mux, f);
    AnnounceTies(c1, e.party.mux, e'.party.mux);
    FlushIsEven(Announce(c1, e.party.mux, e'.party.mux));
  }

  lemma {:induction false} PumpTies(c: Conn)
    requires Tied(c) && c.secureReady && c.yamux.Some?
    ensures Tied(PumpYamux(c)) && PumpYamux(c).secureReady
    decreases |c.yamux.value.recvBuf|
  {
    if F.TryParse(c.yamux.value.recvBuf).None? {
    } else {
      HandleTies(c);
      PumpTies(HandleFrame(c));
    }
  }

  lemma TakeTies(c: Conn, plain: Result<T.Sealed, NP.Error>)
    requires Tied(c) && c.secureReady
    ensures Tied(TakeOpened(c, plain).c) && TakeOpened(c, plain).c.secureReady
  {
    if plain.Ok? && c.yamux.Some? {
      var c1 := c.(noise := c.noise.(recv := plain.value.next));
      PumpTies(c1.(yamux := Some(c1.yamux.value.(recvBuf := c1.yamux.value.recvBuf + Vals(plain.value.message)))));
    }
  }

  lemma {:induction false} DrainTies(c: Conn)
    requires Tied(c) && c.secureReady
    ensures Tied(Drain(c).c)
    decreases |c.rx|
  {
    var p := T.PopFrame(c.rx);
    if p.None? {
    } else {
      var c0, plain := c.(rx := p.value.rest), T.Decrypt(c.noise.recv, p.value.message);
      TakeTies(c0, plain);
      if TakeOpened(c0, plain).error.None? { DrainTies(TakeOpened(c0, plain).c); }
    }
  }

  // ---------- becoming ready ----------

  /** A connection that has just chosen its muxer, and yamux if that is it, becomes ready. */
  lemma ReadyTies(c: Conn)
    requires AcceptedIn(c.events) == [] && ClosedIn(c.events) == []
    requires c.yamux.Some? ==> c.yamux.value.party.mux.accepted == [] && c.yamux.value.party.mux.closed == []
    ensures Tied(CompleteReady(c))
  {
    var two := [Secured, MultiplexerReady];
    AppendedEvents(c.events, two);
    assert two[1..] == [MultiplexerReady] && two[1..][1..] == [];
    assert AcceptedIn(two) == AcceptedIn(two[1..]) == AcceptedIn(two[1..][1..]);
    assert ClosedIn(two) == ClosedIn(two[1..]) == ClosedIn(two[1..][1..]);
  }

  lemma ActivatedIsFresh(c: Conn)
    requires c.yamux.None?
    ensures var y := ActivateIfYamux(c).yamux;
      y.Some? ==> y.value.party.mux.accepted == [] && y.value.party.mux.closed == []
  {
  }

  lemma FinishTies(c: Conn)
    requires Tied(c)
    ensures Tied(FinishSecure(c).c)
  {
    if !c.secureReady && WrongIdentity(c).None? { ChooseTies(c, SelectMuxer(c.muxers, c.noise.remoteMuxers)); }
  }

  lemma ChooseTies(c: Conn, name: Option<MS.Text>)
    requires Tied(c) && !c.secureReady
    ensures Tied(Choose(c, name).c)
  {
    var chosen := c.(muxer := name);
    ActivatedIsFresh(chosen);
    ReadyTies(ActivateIfYamux(chosen));
    ReadyTies(chosen);
    if name != Some(YAMUX) && c.muxers != [] { AskIsEven(chosen); }
  }

  lemma AskIsEven(c: Conn)
    requires c.muxers != []
    ensures Even(c, AskForMuxer(c).c)
  {
  }

  lemma EvenTies(c: Conn, c': Conn)
    requires Even(c, c') && Tied(c)
    ensures Tied(c')
  {
  }

  lemma FrameIsEven(c: Conn, message: seq<Octet>)
    ensures Even(c, SendFrame(c, message).c)
  {
  }

  lemma SealedIsEven(c: Conn, plain: seq<Octet>)
    ensures Even(c, SendEncrypted(c, plain).c)
  {
  }

  lemma NegotiationIsEven(c: Conn, g: N.Generated)
    ensures Even(c, NegotiateProtocol(c, g).c)
  {
    match MS.ExchangeSpan(Vals(c.rx)) {
      case Err(_) =>
      case Ok(n) =>
        AnswerIsEven(c, n, MS.ReadOutboundResponse(Vals(c.rx)[..n], NOISE), g);
        ProposalIsEven(c, n, MS.NegotiateInbound(Vals(c.rx)[..n], [NOISE]));
    }
  }

  lemma AnswerIsEven(c: Conn, n: nat, selected: Result<MS.Text, MS.Error>, g: N.Generated)
    requires n <= |c.rx|
    ensures Even(c, TakeAnswer(c, n, selected, g).c)
  {
  }

  lemma ProposalIsEven(c: Conn, n: nat, negotiated: Result<MS.Negotiation, MS.Error>)
    requires n <= |c.rx|
    ensures Even(c, TakeProposal(c, n, negotiated).c)
  {
  }

  lemma TakeMsg2Ties(c: Conn, reply: N.Reply<seq<Octet>>)
    requires Tied(c)
    ensures Tied(TakeMsg2(c, reply).c)
  {
    match reply
    case Reply(_, Err(_)) =>
    case Reply(s, Ok(msg3)) =>
      var c1 := c.(noise := s, handshake := Complete);
      FrameIsEven(c1, msg3);
      EvenTies(c1, SendFrame(c1, msg3).c);
      FinishTies(SendFrame(c1, msg3).c);
  }

  lemma TakeMsg3Ties(c: Conn, reply: N.Reply<()>)
    requires Tied(c)
    ensures Tied(TakeMsg3(c, reply).c)
  {
    match reply
    case Reply(_, Err(_)) =>
    case Reply(s, Ok(_)) => FinishTies(c.(noise := s, handshake := Complete));
  }

  lemma HandshakeFrameTies(c: Conn, message: seq<Octet>, g: N.Generated)
    requires Tied(c)
    ensures Tied(HandshakeFrame(c, message, g).c)
  {
    match c.handshake
    case AwaitingMsg1 => EvenTies(c, TakeMsg1(c, N.ProcessMsg1(c.noise, message, g)).c);
    case AwaitingMsg2 => TakeMsg2Ties(c, N.ProcessMsg2(c.noise, message));
    case AwaitingMsg3 => TakeMsg3Ties(c, N.ProcessMsg3(c.noise, message));
    case _ =>
  }

  lemma {:induction false} HandshakeFramesTie(c: Conn, g: N.Generated)
    requires Tied(c)
    ensures Tied(HandshakeFrames(c, g).c)
    decreases |c.rx|
  {
    if c.secureReady || c.stage != NoiseHandshake || T.PopFrame(c.rx).None? {
    } else {
      var p := T.PopFrame(c.rx).value;
      HandshakeFrameTies(c.(rx := p.rest), p.message, g);
      var step := HandshakeFrame(c.(rx := p.rest), p.message, g);
      if step.error.None? { HandshakeFramesTie(step.c, g); }
    }
  }

  lemma {:induction false} CollectIsEven(c: Conn)
    ensures Even(c, CollectNegotiation(c).c)
    decreases |c.rx|
  {
    var p := T.PopFrame(c.rx);
    if p.None? {
    } else {
      var step := Collect(c.(rx := p.value.rest), T.Decrypt(c.noise.recv, p.value.message));
      if step.error.None? { CollectIsEven(step.c); }
    }
  }

  /** Nothing was announced, and yamux is not active or has just been started. */
  predicate JustStarted(c: Conn, o: Outcome) {
    && o.c.events == c.events && o.c.secureReady == c.secureReady
    && (o.error.Some? ==> o.c.yamux.None?)
    && (o.c.yamux.Some? ==> o.c.yamux.value.party.mux.accepted == [] && o.c.yamux.value.party.mux.closed == [])
  }

  lemma TakeMuxerIsFresh(c: Conn, selected: Result<MS.Text, MS.Error>)
    requires c.yamux.None?
    ensures JustStarted(c, TakeMuxer(c, selected))
  {
  }

  lemma SendAnswerIsFresh(c: Conn, negotiated: Result<MS.Negotiation, MS.Error>)
    requires c.yamux.None?
    ensures JustStarted(c, SendAnswer(c, negotiated))
  {
    if negotiated.Ok? {
      var queued := SendEncrypted(c, Lits(negotiated.value.outbound));
      SealedIsEven(c, Lits(negotiated.value.outbound));
      ActivatedIsFresh(queued.c.(muxer := negotiated.value.protocol));
    }
  }

  /** Settling the muxer either fails before yamux is active, or leaves a fresh session or none. */
  lemma MuxerStepIsFresh(c: Conn, exchange: seq<Byte>)
    requires c.yamux.None?
    ensures JustStarted(c, MuxerStep(c, exchange))
  {
    if c.isInitiator {
      TakeMuxerIsFresh(c, MS.ReadOutboundResponse(exchange, if c.muxers == [] then [] else c.muxers[0]));
    } else {
      SendAnswerIsFresh(c, MS.NegotiateInbound(exchange, c.muxers));
    }
  }

  lemma SettleTies(c: Conn, exchange: seq<Byte>, rest: seq<Octet>)
    requires Tied(c) && !c.secureReady
    ensures Tied(Settle(c, exchange, rest).c)
  {
    MuxerStepIsFresh(c, exchange);
    var step := MuxerStep(c, exchange);
    if step.error.None? { ReadyTies(step.c.(muxerBuffer := rest)); }
  }

  lemma NegotiateMuxerTies(c: Conn)
    requires Tied(c) && !c.secureReady
    ensures Tied(NegotiateMuxer(c).c)
  {
    CollectIsEven(c);
    var c1 := CollectNegotiation(c).c;
    EvenTies(c, c1);
    if CollectNegotiation(c).error.None? { SettleMuxerTies(c1); }
  }

  lemma SettleMuxerTies(c: Conn)
    requires Tied(c) && !c.secureReady
    ensures Tied(SettleMuxer(c).c)
  {
    match MS.ExchangeSpan(Vals(c.muxerBuffer))
    case Err(_) =>
    case Ok(n) => SettleTies(c, Vals(c.muxerBuffer)[..n], c.muxerBuffer[n..]);
  }

  // ---------- every input ----------

  lemma LastStagesTie(c: Conn)
    requires Tied(c)
    ensures Tied(LastStages(c).c)
  {
    if !c.secureReady && c.stage == MuxerNegotiation { NegotiateMuxerTies(c); }
    var third := if !c.secureReady && c.stage == MuxerNegotiation then NegotiateMuxer(c) else Fine(c);
    if third.c.secureReady { DrainTies(third.c); }
  }

  lemma ProcessTies(c: Conn, g: N.Generated)
    requires Tied(c)
    ensures Tied(Process(c, g).c)
  {
    var first := if c.stage == NegotiatingProtocol then NegotiateProtocol(c, g) else Fine(c);
    NegotiationIsEven(c, g);
    EvenTies(c, NegotiateProtocol(c, g).c);
    if first.error.None? {
      HandshakeFramesTie(first.c, g);
      if HandshakeFrames(first.c, g).error.None? { LastStagesTie(HandshakeFrames(first.c, g).c); }
    }
  }

  /** One more event that is about no stream of the session. */
  lemma OtherEvent(c: Conn, c': Conn, e: Event)
    requires Tied(c) && Even(c, c'.(events := c.events)) && c'.events == c.events + [e]
    requires !e.StreamAccepted? && !e.StreamClosed?
    ensures Tied(c')
  {
    AppendedEvents(c.events, [e]);
    assert [e][1..] == [] && AcceptedIn([e]) == AcceptedIn([e][1..]) && ClosedIn([e]) == ClosedIn([e][1..]);
  }

  lemma CloseTies(c: Conn)
    requires Tied(c)
    ensures Tied(Close(c)) && Tied(EmitError(c)) && Tied(Abandon(c))
  {
    CloseTiesOne(c);
    if c.state != Failed && c.state != Closed { OtherEvent(c, EmitError(c), Problem); }
    CloseTiesOne(EmitError(c));
  }

  lemma CloseTiesOne(c: Conn)
    requires Tied(c)
    ensures Tied(Close(c))
  {
    if c.state != Closed { OtherEvent(c, Close(c), Ended); }
  }

  lemma ReadableTies(c: Conn, data: seq<Octet>, end: RecvEnd, g: N.Generated)
    requires Tied(c)
    ensures Tied(OnReadable(c, data, end, g))
  {
    if IsActive(c) {
      var c1 := c.(rx := c.rx + data);
      CloseTies(c1);
      ProcessTies(c1, g);
      CloseTies(Process(c1, g).c);
    }
  }

  lemma UsingTies(c: Conn, a: Y.Action)
    requires Tied(c) && c.yamux.Some?
    ensures Tied(Operate(c, a).c) && Operate(c, a).c.secureReady == c.secureReady && Even(c, Operate(c, a).c)
  {
    OperationsReportNothing(c.yamux.value.party, a);
    FlushIsEven(c.(yamux := Some(BN.Operate(c.yamux.value, a, []))));
  }

  lemma OpeningTies(c: Conn)
    requires Tied(c) && (c.state == Ready ==> c.secureReady)
    ensures Tied(OpenStream(c).c)
  {
    if c.yamux.Some? && !c.yamux.value.party.mux.goAway {
      UsingTies(c, Y.Opening);
      var c1, id := Operate(c, Y.Opening).c, c.yamux.value.party.mux.nextId;
      OtherEvent(c1, c1.(events := c1.events + [StreamOpened(id)]), StreamOpened(id));
    }
  }

  lemma WritableTies(c: Conn)
    requires Tied(c)
    ensures Tied(OnWritable(c)) && Tied(OnTimeout(c))
  {
    CloseTies(c);
    CloseTies(Flush(c).c);
  }

  lemma OthersAreEven(c: Conn, i: Input)
    requires i.BeginningOutbound? || i.BeginningInbound? || i.ResettingDirect? || i.Changing? || i.AcceptingStream?
    ensures Even(c, React(c, i))
  {
  }

  lemma ReactTies(c: Conn, i: Input)
    requires Tied(c) && (c.state == Ready ==> c.secureReady)
    ensures Tied(React(c, i))
  {
    match i
    case Readable(data, end, random) => ReadableTies(c, data, end, random);
    case Writable => WritableTies(c);
    case TimedOut => WritableTies(c);
    case OpeningStream => OpeningTies(c);
    case UsingStream(a) => if c.yamux.Some? { UsingTies(c, a); }
    case Closing => CloseTies(c);
    case _ =>
      OthersAreEven(c, i);
      EvenTies(c, React(c, i));
  }

  /**
   * Over every sequence of inputs: a connection over yamux has announced as accepted exactly the streams that its
   * session accepted, and as ended exactly those that its session reported closed, each in that order.
   */
  lemma {:induction false} EventsAreCallbacks(isInitiator: bool, dialed: Option<string>, muxers: seq<Name>,
                                              noise: N.State, inputs: seq<Input>)
    ensures var c := Run(New(isInitiator, dialed, muxers, noise), inputs);
      Tied(c) && (c.yamux.Some? ==> Announced(c.events, c.yamux.value.party.mux))
  {
    if inputs == [] {
    } else {
      var before := inputs[..|inputs| - 1];
      EventsAreCallbacks(isInitiator, dialed, muxers, noise, before);
      RunIsGood(isInitiator, dialed, muxers, noise, before);
      ReactTies(Run(New(isInitiator, dialed, muxers, noise), before), inputs[|inputs| - 1]);
    }
  }
}
