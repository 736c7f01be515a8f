/** Which events a connection can ever emit, and what being ready means, over every sequence of inputs. */
module ConnectionEvents {
  import opened Bytes
  import opened Octets
  import opened Connection
  import B = Base58
  import BN = YamuxByteNet
  import F = YamuxFrame
  import M = YamuxMux
  import MS = Multistream
  import N = Noise
  import T = Transport
  import Y = YamuxNet

  /** Everything that can happen to a connection; `Changing` lets the socket serve a number of flushes from now on. */
  datatype Input =
    | Readable(data: seq<Octet>, end: RecvEnd, random: N.Generated)
    | Writable
    | TimedOut
    | BeginningOutbound
    | BeginningInbound
    | OpeningStream
    | UsingStream(action: Y.Action)
    | ResettingDirect
    | AcceptingStream
    | Closing
    | Changing(patience: Option<nat>)

  function React(c: Conn, i: Input): Conn {
    match i
    case Readable(data, end, random) => OnReadable(c, data, end, random)
    case Writable => OnWritable(c)
    case TimedOut => OnTimeout(c)
    case BeginningOutbound => BeginOutbound(c).c
    case BeginningInbound => BeginInbound(c).c
    case OpeningStream => OpenStream(c).c
    case UsingStream(a) => if c.yamux.Some? then Operate(c, a).c else c
    case ResettingDirect => ResetDirect(c)
    case AcceptingStream => AcceptInbound(c)
    case Closing => Close(c)
    case Changing(p) => c.(patience := p)
  }

  function Run(c: Conn, inputs: seq<Input>): Conn {
    if inputs == [] then c else React(Run(c, inputs[..|inputs| - 1]), inputs[|inputs| - 1])
  }

  // ---------- the grammar ----------

  /** (Secured MultiplexerReady (StreamOpened | StreamAccepted | StreamClosed)*)? Problem? Ended */
  datatype Grammar = Start | AfterSecured | Streaming | AfterProblem | Over | Illegal

  function Next(g: Grammar, e: Event): Grammar {
    match (g, e)
    case (Start, Secured) => AfterSecured
    case (AfterSecured, MultiplexerReady) => Streaming
    case (Streaming, StreamOpened(_)) => Streaming
    case (Streaming, StreamAccepted(_)) => Streaming
    case (Streaming, StreamClosed(_)) => Streaming
    case (Start, Problem) => AfterProblem
    case (Streaming, Problem) => AfterProblem
    case (Start, Ended) => Over
    case (Streaming, Ended) => Over
    case (AfterProblem, Ended) => Over
    case _ => Illegal
  }

  function Scan(g: Grammar, events: seq<Event>): Grammar
    decreases |events|
  {
    if events == [] then g else Scan(Next(g, events[0]), events[1..])
  }

  lemma {:induction false} ScanAppend(g: Grammar, a: seq<Event>, b: seq<Event>)
    ensures Scan(g, a + b) == Scan(Scan(g, a), b)
    decreases |a|
  {
    if a == [] {
      assert a + b == b;
    } else {
      assert (a + b)[1..] == a[1..] + b;
      ScanAppend(Next(g, a[0]), a[1..], b);
    }
  }

  predicate IsStreamEvent(e: Event) { e.StreamOpened? || e.StreamAccepted? || e.StreamClosed? }

  lemma {:induction false} StreamEventsKeepStreaming(events: seq<Event>)
    requires forall i :: 0 <= i < |events| ==> IsStreamEvent(events[i])
    ensures Scan(Streaming, events) == Streaming
  {
    if events == [] {
    } else {
      StreamEventsKeepStreaming(events[1..]);
    }
  }

  // ---------- the invariant ----------

  /** The handshake is complete, both transport keys are set, and the peer is the one that was dialed. */
  predicate Proven(c: Conn) {
    c.noise.complete && c.noise.send.hasKey && c.noise.recv.hasKey && WrongIdentity(c).None?
  }

  predicate Good(c: Conn) {
    && (c.secureReady <==> c.stage == Established)
    && (c.stage == MuxerNegotiation || c.stage == Established ==> Proven(c))
    && match c.state
       case TcpAccepted => Scan(Start, c.events) == Start && !c.secureReady
       case Securing => Scan(Start, c.events) == Start && !c.secureReady
       case Ready => Scan(Start, c.events) == Streaming && c.secureReady
       case Closed => Scan(Start, c.events) == Over
       case _ => false
  }

  /** Good and not closed. */
  predicate Alive(c: Conn) { Good(c) && c.state != Closed }

  /** What Good looks at is unchanged. */
  predicate Same(a: Conn, b: Conn) {
    && a.state == b.state && a.stage == b.stage && a.secureReady == b.secureReady
    && a.isInitiator == b.isInitiator && a.dialed == b.dialed && a.events == b.events
    && a.noise.complete == b.noise.complete && a.noise.remotePeer == b.noise.remotePeer
    && a.noise.send.hasKey == b.noise.send.hasKey && a.noise.recv.hasKey == b.noise.recv.hasKey
  }

  lemma SameIsGood(a: Conn, b: Conn)
    requires Same(a, b)
    ensures Good(a) <==> Good(b)
  {
  }

  /** Only stream events were added. */
  predicate OnlyStreams(a: Conn, b: Conn) {
    && a.events <= b.events && Same(a.(events := b.events), b)
    && forall i :: |a.events| <= i < |b.events| ==> IsStreamEvent(b.events[i])
  }

  lemma StreamsKeepReady(a: Conn, b: Conn)
    requires Good(a) && a.state == Ready && OnlyStreams(a, b)
    ensures Good(b) && b.state == Ready
  {
    var more := b.events[|a.events|..];
    assert b.events == a.events + more;
    ScanAppend(Start, a.events, more);
    StreamEventsKeepStreaming(more);
    SameIsGood(a.(events := b.events), b);
  }

  // ---------- ready connections stay ready ----------

  lemma SentIsSame(a: Conn, b: Conn)
    requires SentOnly(a, b)
    ensures Same(a, b)
  {
  }

  lemma FlushYamuxIsSame(c: Conn)
    ensures Same(c, FlushYamux(c).c)
  {
    if c.yamux.Some? {
      var c1 := c.(yamux := Some(c.yamux.value.(sendBuf := [])));
      SentIsSame(c1, SendEncrypted(c1, Lits(c.yamux.value.sendBuf)).c);
    }
  }

  lemma AnnounceAddsStreams(c: Conn, before: M.Mux, after: M.Mux)
    ensures OnlyStreams(c, Announce(c, before, after))
  {
    var c' := Announce(c, before, after);
    assert c'.events
      == c.events + (Accepted(Since(before.accepted, after.accepted)) + Finished(Since(before.closed, after.closed)));
  }

  lemma HandleFrameKeepsReady(c: Conn)
    requires Good(c) && c.state == Ready && c.yamux.Some? && F.TryParse(c.yamux.value.recvBuf).Some?
    ensures Good(HandleFrame(c)) && HandleFrame(c).state == Ready
  {
    var e := c.yamux.value;
    var f := F.TryParse(e.recvBuf).value;
    var e' := BN.Operate(e.(recvBuf := e.recvBuf[F.FrameSize(f)..]), Y.Receiving, [f]);
    var c1 := c.(yamux := Some(e'));
    AnnounceAddsStreams(c1, e.party.mux, e'.party.mux);
    StreamsKeepReady(c1, Announce(c1, e.party.mux, e'.party.mux));
    FlushYamuxIsSame(Announce(c1, e.party.mux, e'.party.mux));
  }

  lemma {:induction false} PumpKeepsReady(c: Conn)
    requires Good(c) && c.state == Ready && c.yamux.Some?
    ensures Good(PumpYamux(c)) && PumpYamux(c).state == Ready
    decreases |c.yamux.value.recvBuf|
  {
    if F.TryParse(c.yamux.value.recvBuf).None? {
    } else {
      HandleFrameKeepsReady(c);
      PumpKeepsReady(HandleFrame(c));
    }
  }

  lemma CreateStreamKeepsReady(c: Conn, inbound: bool)
    requires Good(c) && c.state == Ready
    ensures Good(CreateStream(c, inbound)) && CreateStream(c, inbound).state == Ready
  {
    StreamsKeepReady(c, CreateStream(c, inbound));
  }

  lemma HandOnKeepsReady(c: Conn, plain: seq<Octet>)
    requires Good(c) && c.state == Ready
    ensures Good(HandOn(c, plain)) && HandOn(c, plain).state == Ready
  {
    if c.yamux.Some? {
      PumpKeepsReady(c.(yamux := Some(c.yamux.value.(recvBuf := c.yamux.value.recvBuf + Vals(plain)))));
    } else {
      CreateStreamKeepsReady(c, true);
      SameIsGood(EnsureInbound(c), HandOn(c, plain));
    }
  }

  lemma {:induction false} DrainKeepsReady(c: Conn)
    requires Good(c) && c.state == Ready
    ensures Good(Drain(c).c) && Drain(c).c.state == Ready
    decreases |c.rx|
  {
    var p := T.PopFrame(c.rx);
    if p.None? {
    } else {
      var plain := T.Decrypt(c.noise.recv, p.value.message);
      if plain.Ok? {
        var c1 := c.(rx := p.value.rest, noise := c.noise.(recv := plain.value.next));
        SameIsGood(c, c1);
        HandOnKeepsReady(c1, plain.value.message);
        DrainKeepsReady(HandOn(c1, plain.value.message));
      }
    }
  }

  // ---------- becoming ready ----------

  /** Good, and not yet ready. */
  predicate Early(c: Conn) { Good(c) && (c.state == TcpAccepted || c.state == Securing) }

  lemma CompleteReadyIsGood(c: Conn)
    requires Early(c) && Proven(c)
    ensures Good(CompleteReady(c)) && CompleteReady(c).state == Ready
  {
    var ready := c.(stage := Established, secureReady := true, state := Ready,
                    events := c.events + [Secured, MultiplexerReady]);
    ScanAppend(Start, c.events, [Secured, MultiplexerReady]);
    assert [Secured, MultiplexerReady][1..] == [MultiplexerReady];
    assert Good(ready);
    CreateStreamKeepsReady(ready, true);
    SameIsGood(CreateStream(ready, true), CreateStream(ready, true).(createInbound := false));
  }

  lemma ActivateIsSame(c: Conn)
    ensures Same(c, ActivateIfYamux(c))
  {
  }

  lemma AwaitingMuxerIsEarly(c: Conn)
    requires Early(c) && Proven(c)
    ensures Early(c.(stage := MuxerNegotiation))
  {
  }

  lemma FinishKeepsAlive(c: Conn)
    requires Early(c) && c.noise.complete && c.noise.send.hasKey && c.noise.recv.hasKey
    ensures Alive(FinishSecure(c).c)
  {
    if WrongIdentity(c).None? {
      var chosen := c.(muxer := SelectMuxer(c.muxers, c.noise.remoteMuxers));
      SameIsGood(c, chosen);
      ActivateIsSame(chosen);
      SameIsGood(chosen, ActivateIfYamux(chosen));
      ReadyAfterChoice(chosen);
    }
  }

  lemma ReadyAfterChoice(c: Conn)
    requires Early(c) && Proven(c) && Early(ActivateIfYamux(c))
    ensures Alive(CompleteReady(ActivateIfYamux(c))) && Alive(CompleteReady(c))
    ensures Alive(c.(stage := MuxerNegotiation))
    ensures c.muxers != [] ==>
      Alive(SendEncrypted(c.(stage := MuxerNegotiation), Lits(MS.PrepareOutbound(c.muxers).value)).c)
  {
    CompleteReadyIsGood(ActivateIfYamux(c));
    CompleteReadyIsGood(c);
    AwaitingMuxerIsEarly(c);
    if c.muxers != [] {
      var c1 := c.(stage := MuxerNegotiation);
      var plain := Lits(MS.PrepareOutbound(c.muxers).value);
      SentIsSame(c1, SendEncrypted(c1, plain).c);
      SameIsGood(c1, SendEncrypted(c1, plain).c);
    }
  }

  lemma NegotiateProtocolKeepsEarly(c: Conn, g: N.Generated)
    requires Early(c) && c.stage == NegotiatingProtocol
    ensures Early(NegotiateProtocol(c, g).c)
  {
  }

  lemma OnMsg1KeepsAlive(c: Conn, message: seq<Octet>, g: N.Generated)
    requires Early(c) && c.stage == NoiseHandshake
    ensures Alive(OnMsg1(c, message, g).c)
  {
  }

  lemma OnMsg2KeepsAlive(c: Conn, message: seq<Octet>)
    requires Early(c) && c.stage == NoiseHandshake
    ensures Alive(OnMsg2(c, message).c)
  {
    var r := N.ProcessMsg2(c.noise, message);
    if r.r.Ok? {
      var c1 := c.(noise := r.s, handshake := Complete);
      var flushed := SendFrame(c1, r.r.value).c;
      SentIsSame(c1, flushed);
      SameIsGood(c1, flushed);
      FinishKeepsAlive(flushed);
    }
  }

  lemma OnMsg3KeepsAlive(c: Conn, message: seq<Octet>)
    requires Early(c) && c.stage == NoiseHandshake
    ensures Alive(OnMsg3(c, message).c)
  {
    var r := N.ProcessMsg3(c.noise, message);
    if r.r.Ok? { FinishKeepsAlive(c.(noise := r.s, handshake := Complete)); }
  }

  lemma HandshakeFrameKeepsAlive(c: Conn, message: seq<Octet>, g: N.Generated)
    requires Early(c) && c.stage == NoiseHandshake
    ensures Alive(HandshakeFrame(c, message, g).c)
  {
    match c.handshake
    case AwaitingMsg1 => OnMsg1KeepsAlive(c, message, g);
    case AwaitingMsg2 => OnMsg2KeepsAlive(c, message);
    case AwaitingMsg3 => OnMsg3KeepsAlive(c, message);
    case _ =>
  }

  lemma {:induction false} HandshakeFramesKeepAlive(c: Conn, g: N.Generated)
    requires Alive(c)
    ensures Alive(HandshakeFrames(c, g).c)
    decreases |c.rx|
  {
    if !c.secureReady && c.stage == NoiseHandshake {
      var p := T.PopFrame(c.rx);
      if p.Some? {
        var c1 := c.(rx := p.value.rest);
        SameIsGood(c, c1);
        HandshakeFrameKeepsAlive(c1, p.value.message, g);
        if HandshakeFrame(c1, p.value.message, g).error.None? {
          HandshakeFramesKeepAlive(HandshakeFrame(c1, p.value.message, g).c, g);
        }
      }
    }
  }

  lemma {:induction false} CollectIsSame(c: Conn)
    ensures Same(c, CollectNegotiation(c).c)
    decreases |c.rx|
  {
    var p := T.PopFrame(c.rx);
    if p.None? {
    } else {
      var plain := T.Decrypt(c.noise.recv, p.value.message);
      if plain.Ok? {
        CollectIsSame(c.(rx := p.value.rest, noise := c.noise.(recv := plain.value.next),
                         muxerBuffer := c.muxerBuffer + plain.value.message));
      }
    }
  }

  lemma ReadMuxerAnswerIsSame(c: Conn, exchange: seq<Byte>)
    ensures Same(c, ReadMuxerAnswer(c, exchange).c)
  {
  }

  lemma AnswerMuxerIsSame(c: Conn, exchange: seq<Byte>)
    ensures Same(c, AnswerMuxer(c, exchange).c)
  {
    var answer := MS.NegotiateInbound(exchange, c.muxers);
    if answer.Ok? {
      var queued := SendEncrypted(c, Lits(answer.value.outbound)).c;
      SentIsSame(c, queued);
      ActivateIsSame(queued.(muxer := answer.value.protocol));
    }
  }

  lemma NegotiateMuxerKeepsAlive(c: Conn)
    requires Early(c) && c.stage == MuxerNegotiation
    ensures Alive(NegotiateMuxer(c).c)
  {
    CollectIsSame(c);
    var c1 := CollectNegotiation(c).c;
    SameIsGood(c, c1);
    var span := MS.ExchangeSpan(Vals(c1.muxerBuffer));
    if CollectNegotiation(c).error.None? && span.Ok? {
      var exchange := Vals(c1.muxerBuffer)[..span.value];
      ReadMuxerAnswerIsSame(c1, exchange);
      AnswerMuxerIsSame(c1, exchange);
      var step := if c1.isInitiator then ReadMuxerAnswer(c1, exchange) else AnswerMuxer(c1, exchange);
      SameIsGood(c1, step.c);
      var c2 := step.c.(muxerBuffer := c1.muxerBuffer[span.value..]);
      SameIsGood(step.c, c2);
      CompleteReadyIsGood(c2);
    }
  }

  lemma ProcessKeepsAlive(c: Conn, g: N.Generated)
    requires Alive(c)
    ensures Alive(Process(c, g).c)
  {
    var first := if c.stage == NegotiatingProtocol then NegotiateProtocol(c, g) else Fine(c);
    if c.stage == NegotiatingProtocol { NegotiateProtocolKeepsEarly(c, g); }
    if first.error.None? {
      HandshakeFramesKeepAlive(first.c, g);
      var second := HandshakeFrames(first.c, g);
      if second.error.None? { LastStagesKeepAlive(second.c); }
    }
  }

  lemma LastStagesKeepAlive(c: Conn)
    requires Alive(c)
    ensures var third := if !c.secureReady && c.stage == MuxerNegotiation then NegotiateMuxer(c) else Fine(c);
      Alive(third.c) && (third.error.None? && third.c.secureReady ==> Alive(Drain(third.c).c))
  {
    if !c.secureReady && c.stage == MuxerNegotiation { NegotiateMuxerKeepsAlive(c); }
    var third := if !c.secureReady && c.stage == MuxerNegotiation then NegotiateMuxer(c) else Fine(c);
    if third.c.secureReady { DrainKeepsReady(third.c); }
  }

  // ---------- every input ----------

  lemma ClosedIsGood(c: Conn)
    requires c.secureReady <==> c.stage == Established
    requires c.stage == MuxerNegotiation || c.stage == Established ==> Proven(c)
    requires c.state != Closed && Scan(Start, c.events + [Ended]) == Over
    ensures Good(Close(c)) && Close(c).state == Closed
  {
  }

  lemma CloseIsGood(c: Conn)
    requires Alive(c)
    ensures Good(Close(c)) && Close(c).state == Closed
  {
    ScanAppend(Start, c.events, [Ended]);
    ClosedIsGood(c);
  }

  lemma AbandonIsGood(c: Conn)
    requires Alive(c)
    ensures Good(Abandon(c)) && Abandon(c).state == Closed
  {
    ScanAppend(Start, c.events, [Problem]);
    ScanAppend(Start, c.events + [Problem], [Ended]);
    ClosedIsGood(c.(state := Failed, events := c.events + [Problem]));
  }

  lemma ReadableKeepsGood(c: Conn, data: seq<Octet>, end: RecvEnd, g: N.Generated)
    requires Good(c)
    ensures Good(OnReadable(c, data, end, g))
  {
    if IsActive(c) {
      var c1 := c.(rx := c.rx + data);
      SameIsGood(c, c1);
      CloseIsGood(c1);
      AbandonIsGood(c1);
      ProcessKeepsAlive(c1, g);
      AbandonIsGood(Process(c1, g).c);
    }
  }

  lemma FlushIsSame(c: Conn)
    ensures Same(c, Flush(c).c)
  {
  }

  lemma WritableKeepsGood(c: Conn)
    requires Good(c)
    ensures Good(OnWritable(c)) && Good(OnTimeout(c))
  {
    if IsActive(c) {
      FlushIsSame(c);
      SameIsGood(c, Flush(c).c);
      AbandonIsGood(Flush(c).c);
      AbandonIsGood(c);
    }
  }

  lemma BeginKeepsGood(c: Conn)
    requires Good(c)
    ensures Good(BeginOutbound(c).c) && Good(BeginInbound(c).c)
  {
    if IsActive(c) && c.state != Ready {
      var c1 := Queue(Restart(c, false), Lits(MS.PrepareOutbound([NOISE]).value));
      assert Early(c1);
      FlushIsSame(c1);
      SameIsGood(c1, Flush(c1).c);
    }
  }

  lemma OpenStreamKeepsGood(c: Conn)
    requires Good(c)
    ensures Good(OpenStream(c).c)
  {
    if IsActive(c) && c.state == Ready {
      if c.yamux.Some? {
        FlushYamuxIsSame(c.(yamux := Some(BN.Operate(c.yamux.value, Y.Opening, []))));
        var c1 := Operate(c, Y.Opening).c;
        assert Same(c, c1);
        StreamsKeepReady(c, c1.(events := c1.events + [StreamOpened(c.yamux.value.party.mux.nextId)]));
      } else {
        CreateStreamKeepsReady(c, false);
      }
    }
  }

  lemma UseKeepsGood(c: Conn, a: Y.Action)
    requires Good(c) && c.yamux.Some?
    ensures Good(Operate(c, a).c)
  {
    var c1 := c.(yamux := Some(BN.Operate(c.yamux.value, a, [])));
    SameIsGood(c, c1);
    FlushYamuxIsSame(c1);
    SameIsGood(c1, FlushYamux(c1).c);
  }

  lemma OtherInputsAreSame(c: Conn, i: Input)
    requires i.ResettingDirect? || i.AcceptingStream? || i.Changing?
    ensures Same(c, React(c, i))
  {
  }

  lemma ReactKeepsGood(c: Conn, i: Input)
    requires Good(c)
    ensures Good(React(c, i))
  {
    match i
    case Readable(data, end, random) => ReadableKeepsGood(c, data, end, random);
    case Writable => WritableKeepsGood(c);
    case TimedOut => WritableKeepsGood(c);
    case BeginningOutbound => BeginKeepsGood(c);
    case BeginningInbound => BeginKeepsGood(c);
    case OpeningStream => OpenStreamKeepsGood(c);
    case UsingStream(a) => if c.yamux.Some? { UseKeepsGood(c, a); }
    case Closing => if c.state != Closed { CloseIsGood(c); }
    case _ =>
      OtherInputsAreSame(c, i);
      SameIsGood(c, React(c, i));
  }

  lemma {:induction false} RunIsGood(isInitiator: bool, dialed: Option<string>, muxers: seq<Name>, noise: N.State,
                                     inputs: seq<Input>)
    ensures Good(Run(New(isInitiator, dialed, muxers, noise), inputs))
  {
    if inputs == [] {
    } else {
      RunIsGood(isInitiator, dialed, muxers, noise, inputs[..|inputs| - 1]);
      ReactKeepsGood(Run(New(isInitiator, dialed, muxers, noise), inputs[..|inputs| - 1]), inputs[|inputs| - 1]);
    }
  }

  /** Every run emits a prefix of the grammar, whatever the peer, the network and the application do. */
  lemma EventsFollowTheGrammar(isInitiator: bool, dialed: Option<string>, muxers: seq<Name>, noise: N.State,
                               inputs: seq<Input>)
    ensures var c := Run(New(isInitiator, dialed, muxers, noise), inputs);
      && Scan(Start, c.events) != Illegal
      && (c.state == Closed <==> Scan(Start, c.events) == Over)
      && (c.state == Ready <==> Scan(Start, c.events) == Streaming)
  {
    RunIsGood(isInitiator, dialed, muxers, noise, inputs);
  }

  /** A ready connection has completed its handshake, has both keys, and reached the peer that was dialed. */
  lemma ReadyMeansSecured(isInitiator: bool, dialed: Option<string>, muxers: seq<Name>, noise: N.State,
                          inputs: seq<Input>)
    requires Run(New(isInitiator, dialed, muxers, noise), inputs).state == Ready
    ensures var c := Run(New(isInitiator, dialed, muxers, noise), inputs);
      && c.noise.complete && c.noise.send.hasKey && c.noise.recv.hasKey
      && (c.isInitiator && c.dialed.Some? && B.PeerIdFromString(c.dialed.value).Ok? ==>
            c.noise.remotePeer == Some(Lits(B.PeerIdFromString(c.dialed.value).value)))
  {
    RunIsGood(isInitiator, dialed, muxers, noise, inputs);
  }
}
