/**
 * Streams as the application sees them: which accepted streams it is handed, and how the events of a connection
 * follow the callbacks of its yamux session, over every sequence of inputs.
 */
module StreamEvents {
  import opened Bytes
  import opened Octets
  import opened Connection
  import opened ConnectionEvents
  import BN = YamuxByteNet
  import F = YamuxFrame
  import M = YamuxMux
  import MS = Multistream
  import N = Noise
  import NP = NoisePayload
  import T = Transport
  import Y = YamuxNet

  // ---------- the ids in a list of events ----------

  /** The streams whose acceptance was announced, in order. */
  function AcceptedIn(events: seq<Event>): seq<nat> {
    if events == [] then []
    else (if events[0].StreamAccepted? then [events[0].id] else []) + AcceptedIn(events[1..])
  }

  /** The streams whose end was announced, in order. */
  function ClosedIn(events: seq<Event>): seq<nat> {
    if events == [] then []
    else (if events[0].StreamClosed? then [events[0].id] else []) + ClosedIn(events[1..])
  }

  lemma {:induction false} AppendedEvents(a: seq<Event>, b: seq<Event>)
    ensures AcceptedIn(a + b) == AcceptedIn(a) + AcceptedIn(b)
    ensures ClosedIn(a + b) == ClosedIn(a) + ClosedIn(b)
    decreases |a|
  {
    if a == [] {
      assert a + b == b;
    } else {
      assert (a + b)[1..] == a[1..] + b;
      AppendedEvents(a[1..], b);
      Assoc(if a[0].StreamAccepted? then [a[0].id] else [], AcceptedIn(a[1..]), AcceptedIn(b));
      Assoc(if a[0].StreamClosed? then [a[0].id] else [], ClosedIn(a[1..]), ClosedIn(b));
    }
  }

  lemma {:induction false} AcceptedEvents(ids: seq<F.StreamId>)
    ensures AcceptedIn(Accepted(ids)) == ids && ClosedIn(Accepted(ids)) == []
  {
    if ids == [] {
    } else {
      assert Accepted(ids)[1..] == Accepted(ids[1..]);
      AcceptedEvents(ids[1..]);
    }
  }

  function IdsOf(closed: seq<(F.StreamId, M.CloseReason)>): seq<nat> {
    seq(|closed|, i requires 0 <= i < |closed| => closed[i].0)
  }

  lemma {:induction false} FinishedEvents(closed: seq<(F.StreamId, M.CloseReason)>)
    ensures ClosedIn(Finished(closed)) == IdsOf(closed) && AcceptedIn(Finished(closed)) == []
  {
    if closed == [] {
    } else {
      assert Finished(closed)[1..] == Finished(closed[1..]);
      assert IdsOf(closed) == [closed[0].0 as nat] + IdsOf(closed[1..]);
      FinishedEvents(closed[1..]);
    }
  }

  // ---------- one step ----------

  /** Whatever streams a step announces as accepted are put at the end of the list that is handed out, and no others. */
  ghost predicate Lists(c: Conn, c': Conn) {
    c.events <= c'.events && c'.pending == c.pending + AcceptedIn(c'.events[|c.events|..])
  }

  lemma NothingListed(c: Conn, c': Conn)
    requires c'.events == c.events && c'.pending == c.pending
    ensures Lists(c, c')
  {
    assert c'.events[|c.events|..] == [] && c.pending + [] == c.pending;
  }

  lemma ListsTwice(a: Conn, b: Conn, c: Conn)
    requires Lists(a, b) && Lists(b, c)
    ensures Lists(a, c)
  {
    var x, y := b.events[|a.events|..], c.events[|b.events|..];
    assert c.events[|a.events|..] == x + y;
    AppendedEvents(x, y);
    Assoc(a.pending, AcceptedIn(x), AcceptedIn(y));
  }

  /** A step that adds the events `more` and lists exactly those of them that announce an accepted stream. */
  lemma Listed(c: Conn, c': Conn, more: seq<Event>)
    requires c'.events == c.events + more && c'.pending == c.pending + AcceptedIn(more)
    ensures Lists(c, c')
  {
    assert c'.events[|c.events|..] == more;
  }

  lemma OneEvent(c: Conn, c': Conn, e: Event)
    requires c'.events == c.events + [e]
    requires c'.pending == c.pending + (if e.StreamAccepted? then [e.id] else [])
    ensures Lists(c, c')
  {
    assert AcceptedIn([e]) == (if e.StreamAccepted? then [e.id] else []) + AcceptedIn([e][1..]);
    Listed(c, c', [e]);
  }

  lemma AnnounceLists(c: Conn, before: M.Mux, after: M.Mux)
    ensures Lists(c, Announce(c, before, after))
  {
    var a, f := Since(before.accepted, after.accepted), Since(before.closed, after.closed);
    AppendedEvents(Accepted(a), Finished(f));
    AcceptedEvents(a);
    FinishedEvents(f);
    Assoc(c.events, Accepted(a), Finished(f));
    Listed(c, Announce(c, before, after), Accepted(a) + Finished(f));
  }

  lemma FlushLists(c: Conn)
    ensures FlushYamux(c).c.events == c.events && FlushYamux(c).c.pending == c.pending
  {
  }

  lemma HandleLists(c: Conn)
    requires c.yamux.Some? && F.TryParse(c.yamux.value.recvBuf).Some?
    ensures Lists(c, HandleFrame(c))
  {
    var e := c.yamux.value;
    var f := F.TryParse(e.recvBuf).value;
    var e' := BN.Operate(e.(recvBuf := e.recvBuf[F.FrameSize(f)..]), Y.Receiving, [f]);
    var c1 := c.(yamux := Some(e'));
    AnnounceLists(c1, e.party.mux, e'.party.mux);
    FlushLists(Announce(c1, e.party.mux, e'.party.mux));
  }

  lemma {:induction false} PumpLists(c: Conn)
    requires c.yamux.Some?
    ensures Lists(c, PumpYamux(c))
    decreases |c.yamux.value.recvBuf|
  {
    if F.TryParse(c.yamux.value.recvBuf).None? {
      NothingListed(c, c);
    } else {
      HandleLists(c);
      PumpLists(HandleFrame(c));
      ListsTwice(c, HandleFrame(c), PumpYamux(c));
    }
  }

  lemma CreateLists(c: Conn, inbound: bool)
    ensures Lists(c, CreateStream(c, inbound))
  {
    var id := c.nextStreamId;
    assert c.pending + [] == c.pending;
    OneEvent(c, CreateStream(c, inbound), if inbound then StreamAccepted(id) else StreamOpened(id));
  }

  lemma HandOnLists(c: Conn, plain: seq<Octet>)
    ensures Lists(c, HandOn(c, plain))
  {
    if c.yamux.Some? {
      PumpLists(c.(yamux := Some(c.yamux.value.(recvBuf := c.yamux.value.recvBuf + Vals(plain)))));
    } else {
      CreateLists(c, true);
      NothingListed(c, c);
    }
  }

  lemma {:induction false} DrainLists(c: Conn)
    ensures Lists(c, Drain(c).c)
    decreases |c.rx|
  {
    var p := T.PopFrame(c.rx);
    if p.None? {
      NothingListed(c, c);
    } else {
      var c0, plain := c.(rx := p.value.rest), T.Decrypt(c.noise.recv, p.value.message);
      TakeLists(c0, plain);
      var step := TakeOpened(c0, plain);
      assert Lists(c, step.c);
      if step.error.None? {
        DrainLists(step.c);
        ListsTwice(c, step.c, Drain(step.c).c);
      }
    }
  }

  lemma TakeLists(c: Conn, plain: Result<T.Sealed, NP.Error>)
    ensures Lists(c, TakeOpened(c, plain).c)
  {
    match plain
    case Err(_) => NothingListed(c, c);
    case Ok(p) => HandOnLists(c.(noise := c.noise.(recv := p.next)), p.message);
  }

  // ---------- before the connection is ready ----------

  /** No event, and nothing listed. */
  predicate Silent(c: Conn, c': Conn) { c'.events == c.events && c'.pending == c.pending }

  lemma ReadyLists(c: Conn)
    ensures Lists(c, CompleteReady(c))
  {
    var ready := c.(stage := Established, secureReady := true, state := Ready,
                    events := c.events + [Secured, MultiplexerReady]);
    var two := [Secured, MultiplexerReady];
    assert two[1..] == [MultiplexerReady] && AcceptedIn(two[1..]) == AcceptedIn([]);
    assert c.pending + [] == c.pending;
    Listed(c, ready, two);
    CreateLists(ready, true);
    ListsTwice(c, ready, CreateStream(ready, true));
  }

  lemma ChooseLists(c: Conn, name: Option<MS.Text>)
    ensures Lists(c, Choose(c, name).c)
  {
    var chosen := c.(muxer := name);
    ReadyLists(ActivateIfYamux(chosen));
    ReadyLists(chosen);
    if name != Some(YAMUX) && c.muxers != [] { AskIsSilent(chosen); }
  }

  lemma AskIsSilent(c: Conn)
    requires c.muxers != []
    ensures Silent(c, AskForMuxer(c).c) && Lists(c, AskForMuxer(c).c)
  {
    NothingListed(c, AskForMuxer(c).c);
  }

  lemma FinishLists(c: Conn)
    ensures Lists(c, FinishSecure(c).c)
  {
    if c.secureReady || WrongIdentity(c).Some? {
      NothingListed(c, c);
    } else {
      ChooseLists(c, SelectMuxer(c.muxers, c.noise.remoteMuxers));
    }
  }

  lemma AnswerIsSilent(c: Conn, n: nat, selected: Result<MS.Text, MS.Error>, g: N.Generated)
    requires n <= |c.rx|
    ensures Silent(c, TakeAnswer(c, n, selected, g).c)
  {
  }

  lemma ProposalIsSilent(c: Conn, n: nat, negotiated: Result<MS.Negotiation, MS.Error>)
    requires n <= |c.rx|
    ensures Silent(c, TakeProposal(c, n, negotiated).c)
  {
  }

  lemma NegotiationIsSilent(c: Conn, g: N.Generated)
    ensures Silent(c, NegotiateProtocol(c, g).c) && Lists(c, NegotiateProtocol(c, g).c)
  {
    match MS.ExchangeSpan(Vals(c.rx)) {
      case Err(_) =>
      case Ok(n) =>
        AnswerIsSilent(c, n, MS.ReadOutboundResponse(Vals(c.rx)[..n], NOISE), g);
        ProposalIsSilent(c, n, MS.NegotiateInbound(Vals(c.rx)[..n], [NOISE]));
    }
    NothingListed(c, NegotiateProtocol(c, g).c);
  }

  lemma TakeMsg2Lists(c: Conn, reply: N.Reply<seq<Octet>>)
    ensures Lists(c, TakeMsg2(c, reply).c)
  {
    match reply
    case Reply(s, Err(_)) => NothingListed(c, TakeMsg2(c, reply).c);
    case Reply(s, Ok(msg3)) =>
      var c1 := SendFrame(c.(noise := s, handshake := Complete), msg3).c;
      NothingListed(c, c1);
      FinishLists(c1);
      ListsTwice(c, c1, FinishSecure(c1).c);
  }

  lemma TakeMsg3Lists(c: Conn, reply: N.Reply<()>)
    ensures Lists(c, TakeMsg3(c, reply).c)
  {
    match reply
    case Reply(s, Err(_)) => NothingListed(c, TakeMsg3(c, reply).c);
    case Reply(s, Ok(_)) =>
      var c1 := c.(noise := s, handshake := Complete);
      NothingListed(c, c1);
      FinishLists(c1);
      ListsTwice(c, c1, FinishSecure(c1).c);
  }

  lemma HandshakeFrameLists(c: Conn, message: seq<Octet>, g: N.Generated)
    ensures Lists(c, HandshakeFrame(c, message, g).c)
  {
    match c.handshake
    case AwaitingMsg1 => NothingListed(c, TakeMsg1(c, N.ProcessMsg1(c.noise, message, g)).c);
    case AwaitingMsg2 => TakeMsg2Lists(c, N.ProcessMsg2(c.noise, message));
    case AwaitingMsg3 => TakeMsg3Lists(c, N.ProcessMsg3(c.noise, message));
    case _ => NothingListed(c, c);
  }

  lemma {:induction false} HandshakeFramesList(c: Conn, g: N.Generated)
    ensures Lists(c, HandshakeFrames(c, g).c)
    decreases |c.rx|
  {
    if c.secureReady || c.stage != NoiseHandshake || T.PopFrame(c.rx).None? {
      NothingListed(c, c);
    } else {
      var p := T.PopFrame(c.rx).value;
      var step := HandshakeFrame(c.(rx := p.rest), p.message, g);
      HandshakeFrameLists(c.(rx := p.rest), p.message, g);
      assert Lists(c, step.c);
      if step.error.None? {
        HandshakeFramesList(step.c, g);
        ListsTwice(c, step.c, HandshakeFrames(step.c, g).c);
      }
    }
  }

  lemma {:induction false} CollectIsSilent(c: Conn)
    ensures Silent(c, CollectNegotiation(c).c)
    decreases |c.rx|
  {
    var p := T.PopFrame(c.rx);
    if p.None? {
    } else {
      var step := Collect(c.(rx := p.value.rest), T.Decrypt(c.noise.recv, p.value.message));
      if step.error.None? { CollectIsSilent(step.c); }
    }
  }

  lemma MuxerStepIsSilent(c: Conn, exchange: seq<Byte>)
    ensures Silent(c, MuxerStep(c, exchange).c)
  {
  }

  lemma SettleLists(c: Conn, exchange: seq<Byte>, rest: seq<Octet>)
    ensures Lists(c, Settle(c, exchange, rest).c)
  {
    var step := MuxerStep(c, exchange);
    MuxerStepIsSilent(c, exchange);
    NothingListed(c, step.c);
    if step.error.None? { ReadyLists(step.c.(muxerBuffer := rest)); }
  }

  lemma NegotiateMuxerLists(c: Conn)
    ensures Lists(c, NegotiateMuxer(c).c)
  {
    CollectIsSilent(c);
    var c1 := CollectNegotiation(c).c;
    NothingListed(c, c1);
    if CollectNegotiation(c).error.None? {
      SettleMuxerLists(c1);
      ListsTwice(c, c1, SettleMuxer(c1).c);
    }
  }

  lemma SettleMuxerLists(c: Conn)
    ensures Lists(c, SettleMuxer(c).c)
  {
    match MS.ExchangeSpan(Vals(c.muxerBuffer))
    case Err(_) => NothingListed(c, c);
    case Ok(n) => SettleLists(c, Vals(c.muxerBuffer)[..n], c.muxerBuffer[n..]);
  }

  // ---------- every input ----------

  lemma ProcessLists(c: Conn, g: N.Generated)
    ensures Lists(c, Process(c, g).c)
  {
    var first := if c.stage == NegotiatingProtocol then NegotiateProtocol(c, g) else Fine(c);
    NegotiationIsSilent(c, g);
    NothingListed(c, c);
    if first.error.None? {
      HandshakeFramesList(first.c, g);
      ListsTwice(c, first.c, HandshakeFrames(first.c, g).c);
      if HandshakeFrames(first.c, g).error.None? {
        LastStagesList(HandshakeFrames(first.c, g).c);
        ListsTwice(c, HandshakeFrames(first.c, g).c, LastStages(HandshakeFrames(first.c, g).c).c);
      }
    }
  }

  /** The last two stages of processing input. */
  function LastStages(c: Conn): Outcome {
    var third := if !c.secureReady && c.stage == MuxerNegotiation then NegotiateMuxer(c) else Fine(c);
    if third.error.Some? || !third.c.secureReady then third else Drain(third.c)
  }

  lemma LastStagesList(c: Conn)
    ensures Lists(c, LastStages(c).c)
  {
    var third := if !c.secureReady && c.stage == MuxerNegotiation then NegotiateMuxer(c) else Fine(c);
    NegotiateMuxerLists(c);
    NothingListed(c, c);
    DrainLists(third.c);
    ListsTwice(c, third.c, Drain(third.c).c);
  }

  lemma CloseLists(c: Conn)
    ensures Lists(c, Close(c)) && Lists(c, EmitError(c)) && Lists(c, Abandon(c))
  {
    assert c.pending + [] == c.pending;
    NothingListed(c, c);
    CloseListsOne(c);
    if c.state != Failed && c.state != Closed { OneEvent(c, EmitError(c), Problem); }
    CloseListsOne(EmitError(c));
    ListsTwice(c, EmitError(c), Abandon(c));
  }

  lemma CloseListsOne(c: Conn)
    ensures Lists(c, Close(c))
  {
    assert c.pending + [] == c.pending;
    if c.state == Closed { NothingListed(c, c); } else { OneEvent(c, Close(c), Ended); }
  }

  lemma ReadableLists(c: Conn, data: seq<Octet>, end: RecvEnd, g: N.Generated)
    ensures Lists(c, OnReadable(c, data, end, g))
  {
    NothingListed(c, c);
    if IsActive(c) {
      var c1 := c.(rx := c.rx + data);
      CloseLists(c1);
      ProcessLists(c1, g);
      var c2 := Process(c1, g).c;
      CloseLists(c2);
      ListsTwice(c1, c2, Abandon(c2));
    }
  }

  lemma OpeningLists(c: Conn)
    ensures Lists(c, OpenStream(c).c)
  {
    NothingListed(c, c);
    CreateLists(c, false);
    if c.yamux.Some? { OpenYamuxLists(c); }
  }

  lemma OpenYamuxLists(c: Conn)
    requires c.yamux.Some?
    ensures Lists(c, OpenYamux(c).c)
  {
    NothingListed(c, c);
    if !c.yamux.value.party.mux.goAway {
      var c1 := Operate(c, Y.Opening).c;
      FlushLists(c.(yamux := Some(BN.Operate(c.yamux.value, Y.Opening, []))));
      NothingListed(c, c1);
      assert c1.pending + [] == c1.pending;
      OneEvent(c, c1.(events := c1.events + [StreamOpened(c.yamux.value.party.mux.nextId)]),
               StreamOpened(c.yamux.value.party.mux.nextId));
    }
  }

  lemma UsingLists(c: Conn, a: Y.Action)
    requires c.yamux.Some?
    ensures Lists(c, Operate(c, a).c)
  {
    FlushLists(c.(yamux := Some(BN.Operate(c.yamux.value, a, []))));
    NothingListed(c, Operate(c, a).c);
  }

  lemma WritableLists(c: Conn)
    ensures Lists(c, OnWritable(c)) && Lists(c, OnTimeout(c))
  {
    NothingListed(c, c);
    NothingListed(c, Flush(c).c);
    CloseLists(c);
    CloseLists(Flush(c).c);
    ListsTwice(c, Flush(c).c, Abandon(Flush(c).c));
  }

  lemma OthersAreSilent(c: Conn, i: Input)
    requires i.BeginningOutbound? || i.BeginningInbound? || i.ResettingDirect? || i.Changing?
    ensures Silent(c, React(c, i))
  {
  }

  /** Every input but the handing out itself. */
  lemma ReactLists(c: Conn, i: Input)
    requires i != AcceptingStream
    ensures Lists(c, React(c, i))
  {
    match i
    case Readable(data, end, random) => ReadableLists(c, data, end, random);
    case Writable => WritableLists(c);
    case TimedOut => WritableLists(c);
    case OpeningStream => OpeningLists(c);
    case UsingStream(a) => if c.yamux.Some? { UsingLists(c, a); } else { NothingListed(c, c); }
    case Closing => CloseLists(c);
    case _ =>
      OthersAreSilent(c, i);
      NothingListed(c, React(c, i));
  }

  // ---------- over every run ----------

  /** What the application has been handed, in order. */
  function HandedOut(c: Conn, inputs: seq<Input>): seq<nat> {
    if inputs == [] then []
    else
      var before := inputs[..|inputs| - 1];
      HandedOut(c, before) + Handing(Run(c, before), inputs[|inputs| - 1])
  }

  /** What one input hands out. */
  function Handing(c: Conn, i: Input): seq<nat> {
    if i == AcceptingStream && c.pending != [] then [c.pending[0]] else []
  }

  lemma StepKeepsBooks(c: Conn, i: Input, handed: seq<nat>)
    requires AcceptedIn(c.events) == handed + c.pending
    ensures AcceptedIn(React(c, i).events) == handed + Handing(c, i) + React(c, i).pending
  {
    if i == AcceptingStream {
      if c.pending != [] { assert c.pending == [c.pending[0]] + c.pending[1..]; }
    } else {
      ReactLists(c, i);
      var more := React(c, i).events[|c.events|..];
      assert React(c, i).events == c.events + more;
      AppendedEvents(c.events, more);
      Assoc(handed, c.pending, AcceptedIn(more));
      assert handed + [] == handed;
    }
  }

  /**
   * Over every sequence of inputs: the streams announced as accepted, in order, are those that the application has
   * been handed followed by those still waiting for it. None is lost, repeated or invented.
   */
  lemma {:induction false} AcceptedAreHandedOut(isInitiator: bool, dialed: Option<string>, muxers: seq<Name>,
                                                noise: N.State, inputs: seq<Input>)
    ensures var c0 := New(isInitiator, dialed, muxers, noise);
      AcceptedIn(Run(c0, inputs).events) == HandedOut(c0, inputs) + Run(c0, inputs).pending
  {
    var c0 := New(isInitiator, dialed, muxers, noise);
    if inputs == [] {
    } else {
      var before := inputs[..|inputs| - 1];
      AcceptedAreHandedOut(isInitiator, dialed, muxers, noise, before);
      StepKeepsBooks(Run(c0, before), inputs[|inputs| - 1], HandedOut(c0, before));
    }
  }
}
