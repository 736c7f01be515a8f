/**
 * The upgrade of an outbound and an inbound connection that talk to each other: which states they go through, and
 * what each one makes of the complete message it is waiting for.
 */
module StackHandshake {
  import opened Bytes
  import opened Octets
  import opened Connection
  import opened SecureLink
  import B = Base58
  import MC = MuxerChoice
  import MS = Multistream
  import N = Noise
  import NP = NoisePayload
  import NT = NoiseTheorems
  import T = Transport

  /** Both sides before they talk: their handshake states, random key pairs and muxer lists, and the dialed peer. */
  datatype Config = Config(i: N.State, r: N.State, gi: N.Generated, gr: N.Generated,
                           namesI: seq<Name>, namesR: seq<Name>, dialed: Option<string>)

  const PAYLOAD_LIMIT: nat := T.MAX_FRAME - 96

  /** A side has valid keys and an identity, and its payload leaves room in a frame. */
  predicate Equipped(s: N.State, g: N.Generated, names: seq<Name>) {
    && NT.Provided(s, g) && s.identity.Some? && s.localMuxers == LitsEach(names)
    && var point := N.Taken(s.configuredStatic, g.static_).public;
      |NP.HandshakeMessage(s.identity.value, point, s.localMuxers)| <= PAYLOAD_LIMIT
  }

  /** The dialed peer id is absent, foreign, or that of the responder. */
  predicate DialedRight(k: Config) {
    k.dialed.Some? && k.r.identity.Some? && B.PeerIdFromString(k.dialed.value).Ok? ==>
      Lits(B.PeerIdFromString(k.dialed.value).value) == k.r.identity.value
  }

  /** Yamux is in both lists, and nothing that the first list prefers to it is in the second. */
  ghost predicate PrefersYamux(local: seq<Name>, remote: seq<Name>) {
    exists i: nat :: YamuxIsFirst(local, remote, i)
  }

  predicate YamuxIsFirst(local: seq<Name>, remote: seq<Name>, i: nat) {
    i < |local| && local[i] == YAMUX && YAMUX in remote && forall j :: 0 <= j < i ==> local[j] !in remote
  }

  /** Nothing stands in the way of the secure channel. */
  predicate Able(k: Config) {
    Equipped(k.i, k.gi, k.namesI) && Equipped(k.r, k.gr, k.namesR) && DialedRight(k)
  }

  /** And both sides will choose yamux. */
  ghost predicate Compatible(k: Config) {
    Able(k) && PrefersYamux(k.namesI, k.namesR) && PrefersYamux(k.namesR, k.namesI)
  }

  lemma InLitsEach(name: Name, list: seq<Name>)
    ensures Lits(name) in LitsEach(list) <==> name in list
  {
    if name in list {
      var j :| 0 <= j < |list| && list[j] == name;
      assert LitsEach(list)[j] == Lits(name);
    }
    if Lits(name) in LitsEach(list) {
      var j :| 0 <= j < |list| && Lits(list[j]) == Lits(name);
      LitsInjective(list[j], name);
    }
  }

  /** That, and nothing less, makes the connection choose yamux. */
  lemma PreferenceMeans(local: seq<Name>, remote: seq<Name>)
    ensures PrefersYamux(local, remote) <==> SelectMuxer(local, LitsEach(remote)) == Some(YAMUX)
  {
    InLitsEach(YAMUX, remote);
    forall j | 0 <= j < |local| ensures Lits(local[j]) in LitsEach(remote) <==> local[j] in remote {
      InLitsEach(local[j], remote);
    }
    forall i: nat ensures YamuxIsFirst(local, remote, i) <==> MC.IsFirst(local, LitsEach(remote), YAMUX, i) {}
    MC.SelectMeans(local, LitsEach(remote), YAMUX);
  }

  /** Lists whose only common entry is yamux prefer it, whatever their order. */
  lemma {:induction false} OnlyCommonEntry(local: seq<Name>, remote: seq<Name>)
    requires YAMUX in local && YAMUX in remote
    requires forall m :: m in local && m in remote ==> m == YAMUX
    ensures PrefersYamux(local, remote)
  {
    if local[0] == YAMUX {
      assert YamuxIsFirst(local, remote, 0);
    } else {
      OnlyCommonEntry(local[1..], remote);
      var i: nat :| YamuxIsFirst(local[1..], remote, i);
      assert forall j :: 0 < j < |local| ==> local[j] == local[1..][j - 1];
      assert YamuxIsFirst(local, remote, i + 1);
    }
  }

  // ---------- the messages ----------

  function Greeting(): seq<Byte> { MS.Encode(MS.HEADER) + MS.Encode(NOISE) }

  function Hello(): seq<Octet> { Lits(Greeting()) }

  function Framed(message: seq<Octet>): seq<Octet> {
    if |message| <= T.MAX_FRAME then T.EncodeFrame(message).value else []
  }

  function OrNothing(r: Result<seq<Octet>, NP.Error>): seq<Octet> { if r.Ok? then r.value else [] }

  function First(k: Config): (N.State, seq<Octet>) { N.WriteMsg1(k.i, k.gi) }

  function Second(k: Config): N.Reply<seq<Octet>> { N.ProcessMsg1(k.r, First(k).1, k.gr) }

  function Third(k: Config): N.Reply<seq<Octet>> { N.ProcessMsg2(First(k).0, OrNothing(Second(k).r)) }

  function Fourth(k: Config): N.Reply<()> { N.ProcessMsg3(Second(k).s, OrNothing(Third(k).r)) }

  // ---------- the states of both connections ----------

  /** The connection that a completed handshake leaves, once yamux is chosen. */
  function Upgraded(c: Conn, noise: N.State, added: seq<Octet>): Conn {
    CompleteReady(ActivateIfYamux(
      c.(noise := noise, handshake := Complete, sent := c.sent + added, muxer := Some(YAMUX))))
  }

  function A0(k: Config): Conn { BeginOutbound(New(true, k.dialed, k.namesI, k.i)).c }

  function A1(k: Config): Conn {
    A0(k).(noise := First(k).0, stage := NoiseHandshake, handshake := AwaitingMsg2,
           sent := Hello() + Framed(First(k).1))
  }

  function A2(k: Config): Conn { Upgraded(A1(k), Third(k).s, Framed(OrNothing(Third(k).r))) }

  function B0(k: Config): Conn { BeginInbound(New(false, None, k.namesR, k.r)).c }

  function B1(k: Config): Conn { B0(k).(stage := NoiseHandshake, handshake := AwaitingMsg1, sent := Hello()) }

  function B2(k: Config): Conn {
    B1(k).(noise := Second(k).s, handshake := AwaitingMsg3, sent := Hello() + Framed(OrNothing(Second(k).r)))
  }

  function B3(k: Config): Conn { Upgraded(B2(k), Fourth(k).s, []) }

  // ---------- the handshake messages fit and are accepted ----------

  lemma AuthLength(w: N.State)
    requires w.sym.cipher.hasKey && N.WriteAuth(w).r.Ok?
    ensures |N.WriteAuth(w).r.value| == N.ENCRYPTED_STATIC + |N.LocalPayload(w)| + TAG
  {
    NT.WrittenPayload(w);
  }

  lemma Message2Fits(k: Config)
    requires Able(k)
    ensures Second(k).r.Ok? && |Second(k).r.value| <= T.MAX_FRAME && |First(k).1| == 32
  {
    NT.FirstReply(k.i, k.r, k.gi, k.gr);
    NT.Message1Parts(k.i, k.gi);
    var msg1 := First(k).1;
    NT.ReplyParts(k.r, msg1, k.gr);
    NT.PreparedParts(k.r, msg1, k.gr);
    AuthLength(NT.Mixed(NT.Prepared(k.r, msg1, k.gr)).value);
  }

  lemma Message3Fits(k: Config)
    requires Able(k)
    ensures Third(k).r.Ok? && |Third(k).r.value| <= T.MAX_FRAME
  {
    NT.FirstReply(k.i, k.r, k.gi, k.gr);
    NT.Message1Parts(k.i, k.gi);
    NT.HandshakeAgrees(k.i, k.r, k.gi, k.gr);
    var w := N.ReadMsg2(First(k).0, Second(k).r.value).s;
    assert w.identity == k.i.identity && w.localMuxers == k.i.localMuxers && w.static_ == First(k).0.static_;
    AuthLength(w);
  }

  /** What the agreement of an honest run means for the connections. */
  lemma HandshakeOutcome(k: Config)
    requires Able(k)
    ensures Second(k).r.Ok? && Third(k).r.Ok? && Fourth(k).r.Ok?
    ensures NT.AgreesWith(Third(k).s, Fourth(k).s) && NT.AgreesWith(Fourth(k).s, Third(k).s)
    ensures Third(k).s.remotePeer == Some(k.r.identity.value) && Third(k).s.remoteMuxers == k.r.localMuxers
    ensures Fourth(k).s.remotePeer == Some(k.i.identity.value) && Fourth(k).s.remoteMuxers == k.i.localMuxers
  {
    NT.HandshakeAgrees(k.i, k.r, k.gi, k.gr);
  }

  // ---------- waiting ----------

  lemma WaitsForHello(c: Conn, g: N.Generated)
    requires c.stage == NegotiatingProtocol && !c.secureReady
    requires MS.ExchangeSpan(Vals(c.rx)).Err? && MS.IsIncomplete(MS.ExchangeSpan(Vals(c.rx)).error)
    ensures Process(c, g) == Fine(c)
  {
  }

  lemma WaitsForFrame(c: Conn, g: N.Generated)
    requires c.stage == NoiseHandshake && !c.secureReady && T.PopFrame(c.rx).None?
    ensures Process(c, g) == Fine(c)
  {
  }

  /** A strict prefix of the greeting is an incomplete exchange. */
  lemma PartOfHello(part: seq<Octet>, rest: seq<Octet>)
    requires part + rest == Hello() && rest != []
    ensures MS.ExchangeSpan(Vals(part)).Err? && MS.IsIncomplete(MS.ExchangeSpan(Vals(part)).error)
  {
    MS.ExchangeOfTwo(MS.HEADER, NOISE);
    MS.PrefixIsIncomplete(Greeting(), |part|);
    ValsOfLits(Greeting());
    assert part == Hello()[..|part|];
    ValsSlice(Hello(), 0, |part|);
    assert Hello()[0..|part|] == part && Greeting()[0..|part|] == Greeting()[..|part|];
  }

  lemma HelloSpan()
    ensures MS.ExchangeSpan(Vals(Hello())) == Ok(|Hello()|) && Vals(Hello()) == Greeting()
    ensures Greeting()[..|Hello()|] == Greeting() && Hello()[|Hello()|..] == []
  {
    MS.ExchangeOfTwo(MS.HEADER, NOISE);
    ValsOfLits(Greeting());
  }

  // ---------- the five transitions ----------

  lemma AnswerToHello()
    ensures MS.NegotiateInbound(Greeting(), [NOISE]) == Ok(MS.Negotiation(Greeting(), Some(NOISE)))
    ensures MS.ReadOutboundResponse(Greeting(), NOISE) == Ok(NOISE)
  {
    MS.TwoMessages(MS.HEADER, NOISE);
  }

  lemma FrameIsSent(c: Conn, message: seq<Octet>)
    requires |message| <= T.MAX_FRAME && c.socketOpen && c.patience == None
    ensures SendFrame(c, message) == Fine(c.(sent := c.sent + Framed(message)))
  {
  }

  lemma Greets(c: Conn, g: N.Generated)
    requires c.rx == Hello() && !c.isInitiator && c.socketOpen && c.patience == None
    ensures NegotiateProtocol(c, g)
      == Fine(c.(rx := [], sent := c.sent + Hello(), stage := NoiseHandshake, handshake := AwaitingMsg1))
  {
    HelloSpan();
    AnswerToHello();
  }

  lemma StartsNoise(c: Conn, g: N.Generated)
    requires c.rx == Hello() && c.isInitiator && c.socketOpen && c.patience == None
    requires |N.WriteMsg1(c.noise, g).1| <= T.MAX_FRAME
    ensures var first := N.WriteMsg1(c.noise, g);
      NegotiateProtocol(c, g) == Fine(c.(rx := [], noise := first.0, stage := NoiseHandshake, handshake := AwaitingMsg2,
                                         sent := c.sent + Framed(first.1)))
  {
    HelloSpan();
    AnswerToHello();
    var first := N.WriteMsg1(c.noise, g);
    FrameIsSent(c.(rx := [], noise := first.0, stage := NoiseHandshake, handshake := AwaitingMsg2), first.1);
  }

  lemma ProcessGreeting(c: Conn, g: N.Generated, c1: Conn)
    requires c.stage == NegotiatingProtocol && NegotiateProtocol(c, g) == Fine(c1)
    requires c1.stage == NoiseHandshake && !c1.secureReady && c1.rx == []
    ensures Process(c, g) == Fine(c1)
  {
    assert HandshakeFrames(c1, g) == Fine(c1);
  }

  /** A frame that has arrived is popped off, whatever follows it. */
  lemma PopFramed(message: seq<Octet>, more: seq<Octet>)
    requires |message| <= T.MAX_FRAME
    ensures T.PopFrame(Framed(message) + more) == Some(T.Popped(message, more))
  {
    T.PopInvertsEncode(message, more);
  }

  /** One handshake frame, answered or leading to a ready connection, which reads what else has arrived. */
  lemma ProcessFrame(c: Conn, g: N.Generated, message: seq<Octet>, more: seq<Octet>, c1: Conn)
    requires c.stage == NoiseHandshake && !c.secureReady && |message| <= T.MAX_FRAME
    requires c.rx == Framed(message) + more && HandshakeFrame(c.(rx := more), message, g) == Fine(c1)
    ensures c1.secureReady ==> Process(c, g) == Drain(c1)
    ensures !c1.secureReady && c1.stage == NoiseHandshake && more == [] ==> Process(c, g) == Fine(c1)
  {
    PopFramed(message, more);
    assert HandshakeFrames(c, g) == HandshakeFrames(c1, g);
    if c1.secureReady {
      assert HandshakeFrames(c1, g) == Fine(c1);
    } else if c1.stage == NoiseHandshake && more == [] {
      assert T.PopFrame(c1.rx).None?;
      assert HandshakeFrames(c1, g) == Fine(c1);
    }
  }

  /** Both sides pick yamux, and the initiator has reached whom it dialed. */
  lemma FinishesWithYamux(c: Conn)
    requires !c.secureReady && WrongIdentity(c).None?
    requires SelectMuxer(c.muxers, c.noise.remoteMuxers) == Some(YAMUX)
    ensures FinishSecure(c) == Fine(CompleteReady(ActivateIfYamux(c.(muxer := Some(YAMUX)))))
  {
  }

  lemma AnswersMsg1(c: Conn, message: seq<Octet>, g: N.Generated)
    requires c.handshake == AwaitingMsg1 && c.socketOpen && c.patience == None
    requires N.ProcessMsg1(c.noise, message, g).r.Ok? && |N.ProcessMsg1(c.noise, message, g).r.value| <= T.MAX_FRAME
    ensures var r := N.ProcessMsg1(c.noise, message, g);
      HandshakeFrame(c, message, g)
        == Fine(c.(noise := r.s, handshake := AwaitingMsg3, sent := c.sent + Framed(r.r.value)))
  {
    var r := N.ProcessMsg1(c.noise, message, g);
    FrameIsSent(c.(noise := r.s, handshake := AwaitingMsg3), r.r.value);
  }

  lemma FinishesOnMsg2(c: Conn, message: seq<Octet>, g: N.Generated)
    requires c.handshake == AwaitingMsg2 && c.socketOpen && c.patience == None && !c.secureReady
    requires N.ProcessMsg2(c.noise, message).r.Ok? && |N.ProcessMsg2(c.noise, message).r.value| <= T.MAX_FRAME
    requires WrongIdentity(c.(noise := N.ProcessMsg2(c.noise, message).s)).None?
    requires SelectMuxer(c.muxers, N.ProcessMsg2(c.noise, message).s.remoteMuxers) == Some(YAMUX)
    ensures var r := N.ProcessMsg2(c.noise, message);
      HandshakeFrame(c, message, g) == Fine(Upgraded(c, r.s, Framed(r.r.value)))
  {
    var r := N.ProcessMsg2(c.noise, message);
    TakesMsg2(c, message, g, r.s, r.r.value);
    FinishesUpgraded(c, r.s, Framed(r.r.value));
  }

  lemma TakesMsg2(c: Conn, message: seq<Octet>, g: N.Generated, noise: N.State, reply: seq<Octet>)
    requires c.handshake == AwaitingMsg2 && c.socketOpen && c.patience == None && |reply| <= T.MAX_FRAME
    requires N.ProcessMsg2(c.noise, message) == N.Reply(noise, Ok(reply))
    ensures HandshakeFrame(c, message, g)
      == FinishSecure(c.(noise := noise, handshake := Complete, sent := c.sent + Framed(reply)))
  {
    FrameIsSent(c.(noise := noise, handshake := Complete), reply);
  }

  lemma ResponderDialsNobody(c: Conn)
    requires !c.isInitiator
    ensures WrongIdentity(c).None?
  {
  }

  lemma FinishesOnMsg3(c: Conn, message: seq<Octet>, g: N.Generated)
    requires c.handshake == AwaitingMsg3 && !c.secureReady && !c.isInitiator && N.ProcessMsg3(c.noise, message).r.Ok?
    requires SelectMuxer(c.muxers, N.ProcessMsg3(c.noise, message).s.remoteMuxers) == Some(YAMUX)
    ensures HandshakeFrame(c, message, g) == Fine(Upgraded(c, N.ProcessMsg3(c.noise, message).s, []))
  {
    var noise := N.ProcessMsg3(c.noise, message).s;
    TakesMsg3(c, message, g, noise);
    ResponderDialsNobody(c.(noise := noise, handshake := Complete));
    FinishesUpgraded(c, noise, []);
  }

  lemma TakesMsg3(c: Conn, message: seq<Octet>, g: N.Generated, noise: N.State)
    requires c.handshake == AwaitingMsg3 && N.ProcessMsg3(c.noise, message) == N.Reply(noise, Ok(()))
    ensures HandshakeFrame(c, message, g) == FinishSecure(c.(noise := noise, handshake := Complete))
  {
  }

  lemma FinishesUpgraded(c: Conn, noise: N.State, added: seq<Octet>)
    requires !c.secureReady && WrongIdentity(c.(noise := noise, handshake := Complete)).None?
    requires SelectMuxer(c.muxers, noise.remoteMuxers) == Some(YAMUX)
    ensures FinishSecure(c.(noise := noise, handshake := Complete, sent := c.sent + added))
      == Fine(Upgraded(c, noise, added))
    ensures added == [] ==> c.sent + added == c.sent
  {
    FinishesWithYamux(c.(noise := noise, handshake := Complete, sent := c.sent + added));
  }

  // ---------- the states of the two connections ----------

  lemma InitiatorParts(k: Config)
    ensures A0(k).stage == NegotiatingProtocol && A0(k).isInitiator && A0(k).socketOpen && A0(k).patience == None
    ensures !A0(k).secureReady && A0(k).rx == [] && A0(k).noise == k.i && A0(k).sent == Hello()
    ensures A0(k).muxers == k.namesI && A0(k).dialed == k.dialed
  {
    assert [] + Hello() == Hello();
  }

  lemma ResponderParts(k: Config)
    ensures B0(k).stage == NegotiatingProtocol && !B0(k).isInitiator && B0(k).socketOpen && B0(k).patience == None
    ensures !B0(k).secureReady && B0(k).rx == [] && B0(k).noise == k.r && B0(k).sent == [] && B0(k).muxers == k.namesR
  {
  }

  lemma ResponderGreets(k: Config)
    ensures Process(B0(k).(rx := Hello()), k.gr) == Fine(B1(k))
  {
    ResponderParts(k);
    Greets(B0(k).(rx := Hello()), k.gr);
    assert [] + Hello() == Hello();
    ProcessGreeting(B0(k).(rx := Hello()), k.gr, B1(k));
  }

  lemma InitiatorStartsNoise(k: Config)
    requires Compatible(k)
    ensures Process(A0(k).(rx := Hello()), k.gi) == Fine(A1(k))
  {
    InitiatorParts(k);
    Message2Fits(k);
    StartsNoise(A0(k).(rx := Hello()), k.gi);
    ProcessGreeting(A0(k).(rx := Hello()), k.gi, A1(k));
  }

  lemma ResponderReplies(k: Config)
    requires Compatible(k)
    ensures Process(B1(k).(rx := Framed(First(k).1)), k.gr) == Fine(B2(k))
  {
    ResponderParts(k);
    Message2Fits(k);
    AnswersMsg1(B1(k), First(k).1, k.gr);
    AnswersFrame(B1(k), First(k).1, k.gr, B2(k));
  }

  /** A handshake frame that leaves the side waiting for another one. */
  lemma AnswersFrame(c: Conn, message: seq<Octet>, g: N.Generated, c1: Conn)
    requires c.stage == NoiseHandshake && !c.secureReady && |message| <= T.MAX_FRAME && c.rx == []
    requires HandshakeFrame(c, message, g) == Fine(c1) && c1.stage == NoiseHandshake && !c1.secureReady
    ensures Process(c.(rx := Framed(message)), g) == Fine(c1)
  {
    assert Framed(message) + [] == Framed(message) && c.(rx := []) == c;
    ProcessFrame(c.(rx := Framed(message)), g, message, [], c1);
  }

  lemma InitiatorIdentity(k: Config)
    requires Able(k)
    ensures WrongIdentity(A1(k).(noise := Third(k).s)).None?
  {
    InitiatorParts(k);
    HandshakeOutcome(k);
  }

  lemma BothPrefer(k: Config)
    requires Compatible(k)
    ensures SelectMuxer(k.namesI, LitsEach(k.namesR)) == Some(YAMUX)
    ensures SelectMuxer(k.namesR, LitsEach(k.namesI)) == Some(YAMUX)
    ensures k.i.localMuxers == LitsEach(k.namesI) && k.r.localMuxers == LitsEach(k.namesR)
  {
    PreferenceMeans(k.namesI, k.namesR);
    PreferenceMeans(k.namesR, k.namesI);
  }

  lemma InitiatorChooses(k: Config)
    requires Compatible(k)
    ensures SelectMuxer(A1(k).muxers, Third(k).s.remoteMuxers) == Some(YAMUX)
  {
    InitiatorParts(k);
    HandshakeOutcome(k);
    BothPrefer(k);
  }

  lemma ResponderChooses(k: Config)
    requires Compatible(k)
    ensures SelectMuxer(B2(k).muxers, Fourth(k).s.remoteMuxers) == Some(YAMUX)
  {
    ResponderParts(k);
    HandshakeOutcome(k);
    BothPrefer(k);
  }

  lemma InitiatorOnMsg2(k: Config)
    requires Compatible(k)
    ensures HandshakeFrame(A1(k), OrNothing(Second(k).r), k.gi) == Fine(A2(k))
  {
    InitiatorParts(k);
    HandshakeOutcome(k);
    InitiatorIdentity(k);
    InitiatorChooses(k);
    Message3Fits(k);
    FinishesOnMsg2(A1(k), Second(k).r.value, k.gi);
  }

  lemma AwaitingParts(k: Config)
    ensures A1(k).stage == NoiseHandshake && !A1(k).secureReady && A1(k).rx == [] && A2(k).secureReady
    ensures B2(k).stage == NoiseHandshake && !B2(k).secureReady && B2(k).rx == [] && B3(k).secureReady
  {
    InitiatorParts(k);
    ResponderParts(k);
    UpgradedKeepsInput(A1(k), Third(k).s, Framed(OrNothing(Third(k).r)), []);
    UpgradedKeepsInput(B2(k), Fourth(k).s, [], []);
  }

  /** The last handshake frame with whatever follows it. */
  lemma FrameFinishes(c: Conn, g: N.Generated, message: seq<Octet>, more: seq<Octet>, c1: Conn)
    requires c.stage == NoiseHandshake && !c.secureReady && |message| <= T.MAX_FRAME && c1.secureReady
    requires HandshakeFrame(c.(rx := more), message, g) == Fine(c1)
    ensures Process(c.(rx := Framed(message) + more), g) == Drain(c1)
  {
    ProcessFrame(c.(rx := Framed(message) + more), g, message, more, c1);
  }

  lemma FrameAlone(c: Conn, g: N.Generated, message: seq<Octet>, c1: Conn)
    requires c.stage == NoiseHandshake && !c.secureReady && |message| <= T.MAX_FRAME && c1.secureReady && c.rx == []
    requires HandshakeFrame(c, message, g) == Fine(c1)
    ensures Process(c.(rx := Framed(message)), g) == Drain(c1)
  {
    assert c.(rx := []) == c && Framed(message) + [] == Framed(message);
    FrameFinishes(c, g, message, [], c1);
  }

  lemma InitiatorFinishes(k: Config)
    requires Compatible(k)
    ensures Process(A1(k).(rx := Framed(OrNothing(Second(k).r))), k.gi) == Drain(A2(k))
  {
    AwaitingParts(k);
    Message2Fits(k);
    InitiatorOnMsg2(k);
    FrameAlone(A1(k), k.gi, OrNothing(Second(k).r), A2(k));
  }

  lemma ResponderOnMsg3(k: Config, more: seq<Octet>)
    requires Compatible(k)
    ensures HandshakeFrame(B2(k).(rx := more), OrNothing(Third(k).r), k.gr) == Fine(B3(k).(rx := more))
  {
    ResponderParts(k);
    HandshakeOutcome(k);
    ResponderChooses(k);
    FinishesOnMsg3(B2(k).(rx := more), Third(k).r.value, k.gr);
    UpgradedKeepsInput(B2(k), Fourth(k).s, [], more);
  }

  lemma ResponderFinishes(k: Config, more: seq<Octet>)
    requires Compatible(k)
    ensures Process(B2(k).(rx := Framed(OrNothing(Third(k).r)) + more), k.gr) == Drain(B3(k).(rx := more))
  {
    AwaitingParts(k);
    Message3Fits(k);
    ResponderOnMsg3(k, more);
    FrameFinishes(B2(k), k.gr, Third(k).r.value, more, B3(k).(rx := more));
  }

  lemma UpgradedKeepsInput(c: Conn, noise: N.State, added: seq<Octet>, more: seq<Octet>)
    ensures Upgraded(c.(rx := more), noise, added) == Upgraded(c, noise, added).(rx := more)
    ensures Upgraded(c, noise, added).secureReady && Upgraded(c, noise, added).rx == c.rx
  {
  }
}
