/**
 * Lists that the two sides order differently: exactly when the handshake makes both choose yamux, and what becomes of
 * a connection of which only one side does.
 */
module MixedLists {
  import opened Bytes
  import opened Octets
  import opened Connection
  import opened SecureLink
  import opened StackHandshake
  import BN = YamuxByteNet
  import CL = ConnectionLaws
  import F = YamuxFrame
  import MC = MuxerChoice
  import MS = Multistream
  import N = Noise
  import T = Transport
  import Y = YamuxNet

  // ---------- what the handshake decides ----------

  /** The muxer is still to be negotiated, inside the secure channel. */
  predicate Negotiates(c: Conn) {
    c.stage == MuxerNegotiation && !c.secureReady && c.yamux.None? && c.state != Ready && c.muxerBuffer == []
  }

  /** The connection is ready over yamux. */
  predicate RunsYamux(c: Conn) { c.state == Ready && c.yamux.Some? }

  /** The side runs yamux exactly if it prefers it, and negotiates otherwise, unless it wants no muxer. */
  ghost predicate Decided(c: Conn, local: seq<Name>, remote: seq<Name>) {
    (RunsYamux(c) <==> PrefersYamux(local, remote)) && (local != [] && !RunsYamux(c) ==> Negotiates(c))
  }

  /** Nothing about muxers has happened yet. */
  predicate Undecided(c: Conn) { !c.secureReady && c.yamux.None? && c.muxerBuffer == [] && c.state != Ready }

  /** What a side that has authenticated its peer makes of the two lists. */
  lemma SideDecides(c: Conn, local: seq<Name>, remote: seq<Name>)
    requires Undecided(c) && WrongIdentity(c).None? && c.muxers == local && c.noise.remoteMuxers == LitsEach(remote)
    ensures Decided(FinishSecure(c).c, local, remote)
  {
    PreferenceMeans(local, remote);
    MC.SelectMeans(local, LitsEach(remote), YAMUX);
    MC.FinishMeans(c);
    BufferIsKept(c);
  }

  lemma BufferIsKept(c: Conn)
    ensures FinishSecure(c).c.muxerBuffer == c.muxerBuffer
  {
  }

  lemma DecidesOnMsg2(c: Conn, message: seq<Octet>, g: N.Generated, noise: N.State, reply: seq<Octet>,
                      local: seq<Name>, remote: seq<Name>)
    requires c.handshake == AwaitingMsg2 && c.socketOpen && c.patience == None && |reply| <= T.MAX_FRAME
    requires Undecided(c) && c.muxers == local && noise.remoteMuxers == LitsEach(remote)
    requires N.ProcessMsg2(c.noise, message) == N.Reply(noise, Ok(reply)) && WrongIdentity(c.(noise := noise)).None?
    ensures Decided(HandshakeFrame(c, message, g).c, local, remote)
  {
    TakesMsg2(c, message, g, noise, reply);
    SideDecides(c.(noise := noise, handshake := Complete, sent := c.sent + Framed(reply)), local, remote);
  }

  lemma DecidesOnMsg3(c: Conn, message: seq<Octet>, g: N.Generated, noise: N.State, local: seq<Name>, remote: seq<Name>)
    requires c.handshake == AwaitingMsg3 && !c.isInitiator
    requires Undecided(c) && c.muxers == local && noise.remoteMuxers == LitsEach(remote)
    requires N.ProcessMsg3(c.noise, message) == N.Reply(noise, Ok(()))
    ensures Decided(HandshakeFrame(c, message, g).c, local, remote)
  {
    TakesMsg3(c, message, g, noise);
    ResponderDialsNobody(c.(noise := noise, handshake := Complete));
    SideDecides(c.(noise := noise, handshake := Complete), local, remote);
  }

  lemma InitiatorIsUndecided(k: Config)
    ensures Undecided(A1(k)) && A1(k).handshake == AwaitingMsg2 && A1(k).socketOpen && A1(k).patience == None
    ensures A1(k).muxers == k.namesI && A1(k).noise == First(k).0
  {
  }

  lemma ResponderIsUndecided(k: Config)
    ensures Undecided(B2(k)) && B2(k).handshake == AwaitingMsg3 && !B2(k).isInitiator
    ensures B2(k).muxers == k.namesR && B2(k).noise == Second(k).s
  {
  }

  /** Between two sides that reach the secure channel, the initiator runs yamux exactly if its own list prefers it. */
  lemma InitiatorDecides(k: Config)
    requires Able(k)
    ensures Decided(HandshakeFrame(A1(k), OrNothing(Second(k).r), k.gi).c, k.namesI, k.namesR)
  {
    InitiatorIsUndecided(k);
    HandshakeOutcome(k);
    InitiatorIdentity(k);
    Message3Fits(k);
    DecidesOnMsg2(A1(k), OrNothing(Second(k).r), k.gi, Third(k).s, Third(k).r.value, k.namesI, k.namesR);
  }

  lemma LastMessage(k: Config, reply: N.Reply<()>)
    requires Able(k) && reply == Fourth(k)
    ensures reply == N.Reply(reply.s, Ok(())) && reply.s.remoteMuxers == LitsEach(k.namesI)
  {
    HandshakeOutcome(k);
  }

  /** And so does the responder. */
  lemma ResponderDecides(k: Config)
    requires Able(k)
    ensures Decided(HandshakeFrame(B2(k), OrNothing(Third(k).r), k.gr).c, k.namesR, k.namesI)
  {
    ResponderIsUndecided(k);
    LastMessage(k, Fourth(k));
    DecidesOnMsg3(B2(k), OrNothing(Third(k).r), k.gr, Fourth(k).s, k.namesR, k.namesI);
  }

  /**
   * Both sides run yamux after the handshake exactly if they are compatible. And what the handshake does not settle
   * for the initiator the negotiation does not turn into yamux: the one name it proposes is another one, or refused.
   */
  lemma YamuxOnBothExactly(k: Config)
    requires Able(k)
    ensures var i := HandshakeFrame(A1(k), OrNothing(Second(k).r), k.gi).c;
      var r := HandshakeFrame(B2(k), OrNothing(Third(k).r), k.gr).c;
      && (RunsYamux(i) && RunsYamux(r) <==> Compatible(k))
      && (!RunsYamux(i) && k.namesI != [] && k.namesI[0] in k.namesR ==> k.namesI[0] != YAMUX)
  {
    InitiatorDecides(k);
    ResponderDecides(k);
    if k.namesI != [] && k.namesI[0] in k.namesR && k.namesI[0] == YAMUX {
      assert YamuxIsFirst(k.namesI, k.namesR, 0);
    }
  }

  /** "/mplex/6.7.0" */
  const MPLEX: Name := [0x2F, 0x6D, 0x70, 0x6C, 0x65, 0x78, 0x2F, 0x36, 0x2E, 0x37, 0x2E, 0x30]

  /** Two lists with the same two names can lead to different choices. */
  lemma OrderMatters()
    ensures PrefersYamux([YAMUX, MPLEX], [MPLEX, YAMUX]) && !PrefersYamux([MPLEX, YAMUX], [YAMUX, MPLEX])
  {
    assert YamuxIsFirst([YAMUX, MPLEX], [MPLEX, YAMUX], 0);
    var local, remote := [MPLEX, YAMUX], [YAMUX, MPLEX];
    assert local[0] == MPLEX && remote[1] == MPLEX && MPLEX[1] != YAMUX[1];
    forall i: nat ensures !YamuxIsFirst(local, remote, i) {}
  }

  // ---------- a negotiating side that hears yamux ----------

  /** What a yamux session sends begins like this: version 0 and one of the four types. */
  predicate YamuxBatch(b: seq<Byte>) { |b| >= F.HEADER_SIZE && b[0] == F.VERSION && b[1] <= F.GO_AWAY }

  lemma OnlyYamuxFrames(p: Y.Party, a: Y.Action, head: seq<F.Frame>)
    ensures forall f :: f in BN.Do(p, a, head).out ==> f.hdr.version == F.VERSION && f.hdr.kind <= F.GO_AWAY
  {
  }

  /** Whatever an operation or a received frame makes a session send, it is of that kind. */
  lemma SessionsSendYamux(e: BN.End, a: Y.Action, head: seq<F.Frame>)
    requires e.sendBuf == []
    ensures var batch := BN.Operate(e, a, head).sendBuf; batch == [] || YamuxBatch(batch)
  {
    OnlyYamuxFrames(e.party, a, head);
    var out := BN.Do(e.party, a, head).out;
    if out != [] {
      var first := F.Encode(out[0]);
      assert [] + F.EncodeAll(out) == first + F.EncodeAll(out[1..]);
      assert first[0] == out[0].hdr.version && first[1] == out[0].hdr.kind;
    }
  }

  /** The scanner takes such bytes for an exchange, of which the parser then cannot read the first message. */
  lemma YamuxIsNoExchange(b: seq<Byte>)
    requires YamuxBatch(b)
    ensures MS.ExchangeSpan(b).Ok? && MS.ExchangeSpan(b).value <= 5
    ensures MS.Exchange(b[..MS.ExchangeSpan(b).value]).Err?
  {
    assert MS.MessageSpan(b) == Ok(1);
    var c := b[1..];
    assert c[0] == b[1];
    assert MS.MessageSpan(c) == Ok(1 + b[1]);
    var x := b[..MS.ExchangeSpan(b).value];
    assert x[0] == 0;
    assert MS.Next(x) == Err(MS.InvalidMessage);
  }

  // ---------- what arrives at a negotiating side ----------

  /** Collecting what has arrived of a sound pipe never fails, and begins with the first message. */
  lemma {:induction false} CollectSome(c: Conn, tx: N.Cipher, coming: seq<Octet>, batches: seq<seq<Byte>>)
    requires Pipe(tx, c.noise.recv, c.rx + coming, batches)
    ensures var o := CollectNegotiation(c);
      && o.error.None? && c.muxerBuffer <= o.c.muxerBuffer
      && o.c == c.(rx := o.c.rx, noise := c.noise.(recv := o.c.noise.recv), muxerBuffer := o.c.muxerBuffer)
      && (T.PopFrame(c.rx).None? ==> o.c == c)
      && (T.PopFrame(c.rx).Some? ==> batches != [] && c.muxerBuffer + Lits(batches[0]) <= o.c.muxerBuffer)
    decreases |c.rx|
  {
    if T.PopFrame(c.rx).None? {
    } else {
      PipeReceive(tx, c.noise.recv, c.rx, coming, batches);
      var p := T.PopFrame(c.rx).value;
      var sealed := T.Decrypt(c.noise.recv, p.message).value;
      var c' := c.(rx := p.rest, noise := c.noise.(recv := sealed.next), muxerBuffer := c.muxerBuffer + sealed.message);
      assert CollectNegotiation(c) == CollectNegotiation(c');
      CollectSome(c', tx, coming, batches[1..]);
    }
  }

  /** A buffer that begins with yamux settles nothing: it is an error. */
  lemma YamuxDoesNotSettle(c: Conn, batch: seq<Byte>)
    requires YamuxBatch(batch) && Lits(batch) <= c.muxerBuffer && (c.isInitiator ==> c.muxers != [])
    ensures SettleMuxer(c).error.Some? && SettleMuxer(c).c == c
  {
    YamuxIsNoExchange(batch);
    var n, more := MS.ExchangeSpan(batch).value, Vals(c.muxerBuffer[|batch|..]);
    assert Vals(c.muxerBuffer) == batch + more by {
      assert c.muxerBuffer == Lits(batch) + c.muxerBuffer[|batch|..];
      ValsConcat(Lits(batch), c.muxerBuffer[|batch|..]);
      ValsOfLits(batch);
    }
    MS.SpanIsStable(batch, more);
    assert (batch + more)[..n] == batch[..n];
    if c.isInitiator { MC.InitiatorReads(c, batch[..n], c.muxerBuffer[n..]); }
    else { MC.ResponderReads(c, batch[..n], c.muxerBuffer[n..]); }
  }

  predicate Listens(c: Conn) { Negotiates(c) && IsActive(c) && (c.isInitiator ==> c.muxers != []) }

  predicate AllYamux(batches: seq<seq<Byte>>) { forall b :: b in batches ==> YamuxBatch(b) }

  /** Part of a frame is waited for; the first whole frame of a yamux session is an error. */
  lemma ProcessesYamux(c: Conn, tx: N.Cipher, coming: seq<Octet>, batches: seq<seq<Byte>>, g: N.Generated)
    requires Listens(c) && Pipe(tx, c.noise.recv, c.rx + coming, batches) && AllYamux(batches)
    ensures T.PopFrame(c.rx).None? ==> Process(c, g) == Fine(c)
    ensures T.PopFrame(c.rx).Some? ==>
      var o := Process(c, g);
      o.error.Some? && o.c.state == c.state && o.c.events == c.events && o.c.yamux.None?
  {
    CollectSome(c, tx, coming, batches);
    var o := CollectNegotiation(c);
    assert HandshakeFrames(c, g) == Fine(c);
    if T.PopFrame(c.rx).Some? {
      assert [] + Lits(batches[0]) == Lits(batches[0]);
      YamuxDoesNotSettle(o.c, batches[0]);
    } else {
      NothingToSettle(c);
    }
  }

  lemma NothingToSettle(c: Conn)
    requires c.muxerBuffer == []
    ensures SettleMuxer(c) == Fine(c)
  {
  }

  // ---------- over any arrival ----------

  function Arrive(c: Conn, chunks: seq<seq<Octet>>, g: N.Generated): Conn
    decreases |chunks|
  {
    if chunks == [] then c else Arrive(OnReadable(c, chunks[0], WouldBlock, g), chunks[1..], g)
  }

  /** The connection has ended after reporting a problem, and was never ready. */
  predicate Broken(c: Conn, c': Conn) {
    c'.state == Closed && c'.yamux.None? && c'.events == c.events + [Problem, Ended]
  }

  lemma OneArrival(c: Conn, x: seq<Octet>, tx: N.Cipher, coming: seq<Octet>, batches: seq<seq<Byte>>, g: N.Generated)
    requires Listens(c) && Pipe(tx, c.noise.recv, c.rx + x + coming, batches) && AllYamux(batches)
    ensures T.PopFrame(c.rx + x).None? ==> OnReadable(c, x, WouldBlock, g) == c.(rx := c.rx + x)
    ensures T.PopFrame(c.rx + x).Some? ==> Broken(c, OnReadable(c, x, WouldBlock, g))
  {
    var c1 := c.(rx := c.rx + x);
    ProcessesYamux(c1, tx, coming, batches, g);
    CL.InputFails(c, x, g);
  }

  lemma {:induction false} EndedStays(c: Conn, chunks: seq<seq<Octet>>, g: N.Generated)
    requires c.state == Closed
    ensures Arrive(c, chunks, g) == c
    decreases |chunks|
  {
    if chunks == [] {
    } else {
      EndedStays(c, chunks[1..], g);
    }
  }

  /**
   * A side that negotiates with a peer that already runs yamux never becomes ready, however the peer's messages
   * arrive: the first whole one ends the connection.
   */
  lemma {:induction false} NegotiationMeetsYamux(c: Conn, chunks: seq<seq<Octet>>, tx: N.Cipher, coming: seq<Octet>,
                                                 batches: seq<seq<Byte>>, g: N.Generated)
    requires Listens(c) && T.PopFrame(c.rx).None?
    requires Pipe(tx, c.noise.recv, c.rx + Concat(chunks) + coming, batches) && AllYamux(batches)
    ensures T.PopFrame(c.rx + Concat(chunks)).None? ==>
      Listens(Arrive(c, chunks, g)) && Arrive(c, chunks, g).events == c.events
    ensures T.PopFrame(c.rx + Concat(chunks)).Some? ==> Broken(c, Arrive(c, chunks, g))
    decreases |chunks|
  {
    if chunks == [] {
      assert c.rx + Concat(chunks) == c.rx;
    } else {
      var x, more := chunks[0], Concat(chunks[1..]);
      assert Concat(chunks) == x + more;
      assert c.rx + (x + more) == (c.rx + x) + more;
      Assoc(c.rx + x, more, coming);
      OneArrival(c, x, tx, more + coming, batches, g);
      if T.PopFrame(c.rx + x).None? {
        NegotiationMeetsYamux(c.(rx := c.rx + x), chunks[1..], tx, coming, batches, g);
      } else {
        T.PopIsStable(c.rx + x, more);
        EndedStays(OnReadable(c, x, WouldBlock, g), chunks[1..], g);
      }
    }
  }
}
