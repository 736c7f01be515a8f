/**
 * Writes that are too large: exactly which ones fail, what becomes of their bytes, and what the peer does with the
 * next message.
 */
module OversizeWrites {
  import opened Bytes
  import opened Octets
  import opened Connection
  import opened SecureLink
  import opened SecurePair
  import opened Stack
  import opened StackHandshake
  import opened StackTheorems
  import BN = YamuxByteNet
  import F = YamuxFrame
  import M = YamuxMux
  import N = Noise
  import T = Transport
  import Y = YamuxNet

  // ---------- which writes fail ----------

  lemma FlushFails(c: Conn)
    requires Running(c) && c.noise.send.hasKey && c.noise.send.nonce < U64_MAX
    ensures FlushYamux(c).error.Some? <==> |c.yamux.value.sendBuf| > T.MAX_PLAIN
  {
    if |c.yamux.value.sendBuf| > T.MAX_PLAIN { OversizeBatchIsLost(c); }
  }

  /** An accepted write is one frame of twelve bytes and what was accepted. */
  lemma WriteLength(e: BN.End, sid: F.StreamId, data: seq<Byte>)
    requires e.sendBuf == []
    ensures var accepted := AcceptedBy(e.party.mux, Y.Writing(sid, data));
      |BN.Operate(e, Y.Writing(sid, data), []).sendBuf| == if accepted == 0 then 0 else F.HEADER_SIZE + accepted
  {
    var out := BN.Do(e.party, Y.Writing(sid, data), []).out;
    if out != [] {
      assert out == [out[0]];
      F.EncodeAllOne(out[0]);
    }
  }

  /** A write on a ready connection reports an error of the channel exactly when more than 65507 bytes were accepted. */
  lemma WriteFailsExactly(c: Conn, sid: F.StreamId, data: seq<Byte>)
    requires Flushed(c) && c.noise.send.hasKey && c.noise.send.nonce < U64_MAX
    ensures Operate(c, Y.Writing(sid, data)).error.Some? <==>
      AcceptedBy(c.yamux.value.party.mux, Y.Writing(sid, data)) > MAX_WRITE
  {
    WriteLength(c.yamux.value, sid, data);
    FlushFails(c.(yamux := Some(BN.Operate(c.yamux.value, Y.Writing(sid, data), []))));
  }

  /** Such a write adds nothing to the wire, uses up a nonce, and its bytes count as written. */
  lemma FailedWriteIsLost(c: Conn, sid: F.StreamId, data: seq<Byte>)
    requires Flushed(c) && c.noise.send.hasKey && c.noise.send.nonce < U64_MAX
    requires AcceptedBy(c.yamux.value.party.mux, Y.Writing(sid, data)) > MAX_WRITE
    ensures var c' := Operate(c, Y.Writing(sid, data)).c;
      var e := BN.Operate(c.yamux.value, Y.Writing(sid, data), []);
      && Flushed(c') && c'.sent == c.sent && c'.noise.recv == c.noise.recv && c'.rx == c.rx
      && c'.noise.send == c.noise.send.(nonce := c.noise.send.nonce + 1)
      && c'.yamux == Some(e.(sendBuf := []))
  {
    WriteLength(c.yamux.value, sid, data);
    OversizeBatchIsLost(c.(yamux := Some(BN.Operate(c.yamux.value, Y.Writing(sid, data), []))));
  }

  // ---------- what the peer does with the next message ----------

  lemma PumpKeepsReceiver(c: Conn)
    requires c.yamux.Some?
    ensures PumpYamux(c).noise.recv == c.noise.recv
    decreases |c.yamux.value.recvBuf|
  {
    if F.TryParse(c.yamux.value.recvBuf).Some? {
      HandleKeepsReceiver(c);
      PumpKeepsReceiver(HandleFrame(c));
    }
  }

  lemma HandleKeepsReceiver(c: Conn)
    requires c.yamux.Some? && F.TryParse(c.yamux.value.recvBuf).Some?
    ensures HandleFrame(c).noise.recv == c.noise.recv
  {
  }

  lemma HandOnKeepsReceiver(c: Conn, plain: seq<Octet>)
    ensures HandOn(c, plain).noise.recv == c.noise.recv
  {
    if c.yamux.Some? {
      PumpKeepsReceiver(c.(yamux := Some(c.yamux.value.(recvBuf := c.yamux.value.recvBuf + Vals(plain)))));
    }
  }

  /** A message under another nonce than the expected one is not authentic. */
  lemma WrongNonceIsRefused(rx: N.Cipher, nonce: nat, plain: seq<Octet>)
    requires rx.hasKey && rx.nonce < U64_MAX && rx.nonce != nonce
    ensures T.Decrypt(rx, Seal(rx.key, nonce, [], plain)).Err?
  {
    var opened_ := Unseal(rx.key, rx.nonce, [], Seal(rx.key, nonce, [], plain));
    if opened_.Some? { SealInjective(rx.key, nonce, [], plain, rx.key, rx.nonce, [], opened_.value); }
  }

  lemma BadFrameIsRefused(c: Conn, nonce: nat, plain: seq<Octet>)
    requires c.noise.recv.hasKey && c.noise.recv.nonce < U64_MAX && c.noise.recv.nonce != nonce && T.FitsFrame(plain)
    requires c.rx == T.FrameOf(c.noise.recv.key, nonce, plain)
    ensures Drain(c).error.Some?
  {
    T.FrameOfFitting(c.noise.recv.key, nonce, plain);
    T.PopInvertsEncode(Seal(c.noise.recv.key, nonce, [], plain), []);
    assert c.rx + [] == c.rx;
    WrongNonceIsRefused(c.noise.recv, nonce, plain);
  }

  /** The frames in step are read; the one after them is under the wrong nonce and stops the connection. */
  lemma {:induction false} DrainStops(c: Conn, batches: seq<seq<Byte>>, tx: N.Cipher, wire: seq<Octet>, nonce: nat,
                                      plain: seq<Octet>)
    requires Pipe(tx, c.noise.recv, wire, batches) && tx.nonce < U64_MAX && nonce != tx.nonce as int
      && T.FitsFrame(plain)
    requires c.rx == wire + T.FrameOf(tx.key, nonce, plain)
    ensures Drain(c).error.Some?
    decreases |batches|
  {
    var bad := T.FrameOf(tx.key, nonce, plain);
    if batches == [] {
      assert wire == [] by { assert T.FrameList(tx.key, c.noise.recv.nonce, LitsEach([])) == []; }
      assert [] + bad == bad;
      BadFrameIsRefused(c, nonce, plain);
    } else {
      FirstBatchPops(tx, c.noise.recv, wire, batches);
      T.PopIsStable(wire, bad);
      assert wire + [] == wire;
      PipeReceive(tx, c.noise.recv, wire, [], batches);
      var p := T.PopFrame(wire).value;
      var plain0 := T.Decrypt(c.noise.recv, p.message).value;
      assert p.rest + [] == p.rest;
      var c1 := c.(rx := p.rest + bad, noise := c.noise.(recv := plain0.next));
      HandOnKeepsReceiver(c1, plain0.message);
      DrainStops(HandOn(c1, plain0.message), batches[1..], tx, p.rest, nonce, plain);
    }
  }

  // ---------- two connections ----------

  lemma RefusedOpeningAddsNothing(c: Conn)
    requires Flushed(c) && c.yamux.value.party.mux.goAway
    ensures Operate(c, Y.Opening).c.sent == c.sent
  {
    assert BN.Operate(c.yamux.value, Y.Opening, []).sendBuf == [];
  }

  lemma OpeningUses(c: Conn)
    requires Flushed(c)
    ensures Use(c, Y.Opening).sent == Operate(c, Y.Opening).c.sent
  {
    UseOfOpening(c);
    if c.yamux.value.party.mux.goAway { RefusedOpeningAddsNothing(c); }
  }

  lemma UseSends(c: Conn, a: Y.Action)
    requires Flushed(c) && a != Y.Receiving
    ensures Use(c, a).sent == Operate(c, a).c.sent
  {
    if a == Y.Opening { OpeningUses(c); }
  }

  /** Flushing a batch that fits sends one frame under the current nonce. */
  lemma FlushIsOneFrame(c: Conn, batch: seq<Byte>)
    requires Running(c) && c.noise.send.hasKey && c.noise.send.nonce < U64_MAX
    requires c.yamux.value.sendBuf == batch && batch != [] && |batch| <= T.MAX_PLAIN
    ensures FlushYamux(c).c.sent == c.sent + T.FrameOf(c.noise.send.key, c.noise.send.nonce, Lits(batch))
  {
    T.FrameOfFitting(c.noise.send.key, c.noise.send.nonce, Lits(batch));
    SendIsOneFrame(c.(yamux := Some(c.yamux.value.(sendBuf := []))), Lits(batch));
  }

  lemma EmptyFlushSendsNothing(c: Conn)
    requires Running(c) && c.yamux.value.sendBuf == []
    ensures FlushYamux(c).c.sent == c.sent
  {
  }

  /** An operation that sends anything sends one frame under the current nonce. */
  lemma OperationIsOneFrame(c: Conn, a: Y.Action)
    requires Flushed(c) && c.noise.send.hasKey && c.noise.send.nonce < U64_MAX && a != Y.Receiving && Modest(c, a)
    ensures var batch := BN.Operate(c.yamux.value, a, []).sendBuf;
      && T.FitsFrame(Lits(batch))
      && Operate(c, a).c.sent
        == if batch == [] then c.sent else c.sent + T.FrameOf(c.noise.send.key, c.noise.send.nonce, Lits(batch))
  {
    OperationIsShort(c.yamux.value, a, []);
    var e := BN.Operate(c.yamux.value, a, []);
    var c1 := c.(yamux := Some(e));
    if e.sendBuf == [] { EmptyFlushSendsNothing(c1); } else { FlushIsOneFrame(c1, e.sendBuf); }
  }

  /** The connection has reported a problem and closed. */
  predicate Abandoned(c: Conn) {
    c.state == Closed && |c.events| >= 2 && c.events[|c.events| - 2..] == [Problem, Ended]
  }

  lemma AbandonIsAbandoned(c: Conn)
    requires c.state == Ready
    ensures Abandoned(Abandon(c))
  {
    assert Abandon(c).events == c.events + [Problem] + [Ended];
  }

  lemma {:induction false} DrainStaysReady(c: Conn)
    requires c.state == Ready
    ensures Drain(c).c.state == Ready
    decreases |c.rx|
  {
    var p := T.PopFrame(c.rx);
    if p.None? {
    } else {
      var step := TakeOpened(c.(rx := p.value.rest), T.Decrypt(c.noise.recv, p.value.message));
      if step.error.None? {
        HandOnStaysReady(c, p.value);
        DrainStaysReady(step.c);
      }
    }
  }

  lemma HandOnStaysReady(c: Conn, p: T.Popped)
    requires c.state == Ready
    ensures TakeOpened(c.(rx := p.rest), T.Decrypt(c.noise.recv, p.message)).c.state == Ready
  {
    var plain := T.Decrypt(c.noise.recv, p.message);
    if plain.Ok? {
      var c1 := c.(rx := p.rest, noise := c.noise.(recv := plain.value.next));
      if c1.yamux.Some? {
        var e := c1.yamux.value;
        PumpStaysReady(c1.(yamux := Some(e.(recvBuf := e.recvBuf + Vals(plain.value.message)))));
      }
    }
  }

  lemma {:induction false} PumpStaysReady(c: Conn)
    requires c.yamux.Some? && c.state == Ready
    ensures PumpYamux(c).state == Ready
    decreases |c.yamux.value.recvBuf|
  {
    if F.TryParse(c.yamux.value.recvBuf).None? {
    } else {
      PumpStaysReady(HandleFrame(c));
    }
  }

  lemma FailedDrainAbandons(c: Conn, x: seq<Octet>, g: N.Generated)
    requires Flushed(c) && Drain(c.(rx := c.rx + x)).error.Some?
    ensures Abandoned(OnReadable(c, x, WouldBlock, g))
  {
    var c1 := c.(rx := c.rx + x);
    assert HandshakeFrames(c1, g) == Fine(c1);
    assert Process(c1, g) == Drain(c1);
    DrainStaysReady(c1);
    AbandonIsAbandoned(Drain(c1).c);
  }

  /** After a lost write, whatever the writer sends next ends the connection of the reader. */
  lemma LostWriteEndsReader(p: Pair, w: Y.Action, a: Y.Action, g: N.Generated)
    requires Joined(p) && p.me.noise.send.nonce as int + 1 < U64_MAX
    requires w.Writing? && AcceptedBy(p.me.yamux.value.party.mux, w) > MAX_WRITE
    requires var me := Operate(p.me, w).c;
      a != Y.Receiving && Modest(me, a) && Flushed(me) && Operate(me, a).c.sent != me.sent
    ensures var me := Operate(p.me, w).c;
      && me.sent == p.me.sent && p.me.sent <= Operate(me, a).c.sent
      && Abandoned(OnReadable(p.peer, p.coming + Operate(me, a).c.sent[|p.me.sent|..], WouldBlock, g))
  {
    FailedWriteIsLost(p.me, w.sid, w.data);
    var me := Operate(p.me, w).c;
    OperationIsOneFrame(me, a);
    var plain := Lits(BN.Operate(me.yamux.value, a, []).sendBuf);
    var bad := T.FrameOf(me.noise.send.key, me.noise.send.nonce, plain);
    assert Operate(me, a).c.sent[|p.me.sent|..] == bad;
    Assoc(p.peer.rx, p.coming, bad);
    DrainStops(p.peer.(rx := p.peer.rx + (p.coming + bad)), p.outs, p.me.noise.send, p.peer.rx + p.coming,
               me.noise.send.nonce, plain);
    FailedDrainAbandons(p.peer, p.coming + bad, g);
  }

  /** `s` after the initiator's lost write, its next operation, and the delivery of everything to the responder. */
  function AfterLoss(k: Config, s: Net, w: Y.Action, a: Y.Action): Net {
    var s2 := s.(i := Use(Use(s.i, w), a));
    ResponderReads(k.gr, s2, |ToResponder(s2)|)
  }

  /** The write is lost, and the next operation sends something. */
  predicate LosesThenSends(c: Conn, w: Y.Action, a: Y.Action) {
    && c.yamux.Some? && c.noise.send.nonce as int + 1 < U64_MAX
    && w.Writing? && AcceptedBy(c.yamux.value.party.mux, w) > MAX_WRITE
    && a != Y.Receiving && Modest(Use(c, w), a) && Use(Use(c, w), a).sent != Use(c, w).sent
  }

  lemma LossAtConns(p: Pair, w: Y.Action, a: Y.Action, g: N.Generated)
    requires Joined(p) && LosesThenSends(p.me, w, a)
    ensures var me := Use(Use(p.me, w), a);
      && Use(p.me, w).sent == p.me.sent && p.me.sent <= me.sent
      && Abandoned(OnReadable(p.peer, p.coming + me.sent[|p.me.sent|..], WouldBlock, g))
  {
    var c1 := Use(p.me, w);
    assert c1 == Operate(p.me, w).c;
    FailedWriteIsLost(p.me, w.sid, w.data);
    UseSends(c1, a);
    LostWriteEndsReader(p, w, a, g);
  }

  lemma LossAtPair(k: Config, s: Net, p: Pair, w: Y.Action, a: Y.Action)
    requires Joined(p) && p == PairOf(s, p.ins, p.outs, p.b) && s.rRead <= |s.i.sent| && LosesThenSends(s.i, w, a)
    ensures Use(s.i, w).sent == s.i.sent && Abandoned(AfterLoss(k, s, w, a).r)
  {
    LossAtConns(p, w, a, k.gr);
    var s2 := s.(i := Use(Use(s.i, w), a));
    SentSince(s.i.sent, s2.i.sent, s.rRead);
    ResponderReadsAll(k.gr, s2, OnReadable(s2.r, ToResponder(s2), WouldBlock, k.gr));
  }

  /** The bound on writes is needed: one write of more bytes is lost, and the next message then ends the connection. */
  lemma OversizeWriteEndsConnection(k: Config, moves: seq<Move>, w: Y.Action, a: Y.Action)
    requires Compatible(k) && Steady(k, moves) && Run(k, moves).r.yamux.Some? && LosesThenSends(Run(k, moves).i, w, a)
    ensures Use(Run(k, moves).i, w).sent == Run(k, moves).i.sent && Abandoned(AfterLoss(k, Run(k, moves), w, a).r)
  {
    var t := RunKeeps(k, moves);
    LossWhenJoined(k, t, Run(k, moves), w, a);
  }

  lemma LossWhenJoined(k: Config, t: Script, s: Net, w: Y.Action, a: Y.Action)
    requires Inv(t, s) && s.r.yamux.Some? && NoYamuxYet(t)
    requires LosesThenSends(s.i, w, a)
    ensures Use(s.i, w).sent == s.i.sent && Abandoned(AfterLoss(k, s, w, a).r)
  {
    JoinedWhenBothHaveYamux(t, s);
    var ins, outs, b :| Joined(PairOf(s, ins, outs, b));
    LossAtPair(k, s, PairOf(s, ins, outs, b), w, a);
  }

  // ---------- it does happen ----------

  /** The initiator after opening its first stream. */
  lemma FirstStream(t: Script)
    requires Ends(t) && t.a2.noise.send.hasKey && t.a2.noise.send.nonce == 0
    ensures var i := Use(t.a2, Y.Opening);
      && Flushed(i) && i.yamux.value.party.mux == M.Open(M.Init(true)).mux
      && i.noise.send == t.a2.noise.send.(nonce := 1)
  {
    OperationIsShort(t.a2.yamux.value, Y.Opening, []);
    var e := BN.Operate(t.a2.yamux.value, Y.Opening, []);
    assert e.party.mux == M.Open(M.Init(true)).mux;
    OpeningSends(t.a2);
  }

  lemma OpeningSends(c: Conn)
    requires Flushed(c) && c.yamux == Some(BN.NewEnd(true)) && c.noise.send.hasKey && c.noise.send.nonce == 0
    ensures var e := BN.Operate(c.yamux.value, Y.Opening, []);
      var i := Use(c, Y.Opening);
      Flushed(i) && i.yamux.value.party == e.party && i.noise.send == c.noise.send.(nonce := 1)
  {
    var e := BN.Operate(c.yamux.value, Y.Opening, []);
    FirstFrameIsSyn();
    FlushesOneFrame(c, e);
    UseOfOpening(c);
  }

  lemma FlushesOneFrame(c: Conn, e: BN.End)
    requires Flushed(c) && c.noise.send.hasKey && c.noise.send.nonce == 0
    requires e.sendBuf != [] && |e.sendBuf| <= T.MAX_PLAIN
    ensures var o := FlushYamux(c.(yamux := Some(e)));
      && o.error.None? && Flushed(o.c) && o.c.yamux.value.party == e.party
      && o.c.noise.send == c.noise.send.(nonce := 1)
  {
    T.FrameOfFitting(c.noise.send.key, 0, Lits(e.sendBuf));
    SendIsOneFrame(c.(yamux := Some(e.(sendBuf := []))), Lits(e.sendBuf));
  }

  lemma FirstFrameIsSyn()
    ensures BN.Operate(BN.NewEnd(true), Y.Opening, []).sendBuf == F.Encode(M.DataFrame(1, F.SYN))
    ensures |F.Encode(M.DataFrame(1, F.SYN))| == F.HEADER_SIZE
  {
    F.EncodeAllOne(M.DataFrame(1, F.SYN));
    assert BN.Do(BN.NewEnd(true).party, Y.Opening, []).out == [M.DataFrame(1, F.SYN)];
  }

  /** A write of one byte more than a message takes. */
  function Big(): seq<Byte> { seq(65508, _ => 0) }

  /**
   * The first write of one byte too many on a new stream is accepted whole, and closing the stream then sends a
   * FIN.
   */
  lemma BigWriteIsAccepted(e: BN.End)
    requires e.party.mux == M.Open(M.Init(true)).mux && e.sendBuf == []
    ensures AcceptedBy(e.party.mux, Y.Writing(1, Big())) == 65508 == MAX_WRITE + 1
    ensures var e1 := BN.Operate(e, Y.Writing(1, Big()), []).(sendBuf := []);
      BN.Operate(e1, Y.Closing(1), []).sendBuf == F.Encode(M.DataFrame(1, F.FIN))
  {
    var e1 := BN.Operate(e, Y.Writing(1, Big()), []).(sendBuf := []);
    assert BN.Do(e1.party, Y.Closing(1), []).out == [M.DataFrame(1, F.FIN)];
    F.EncodeAllOne(M.DataFrame(1, F.FIN));
  }

  lemma FinAfterLoss(i: Conn)
    requires Flushed(i) && i.noise.send.hasKey && i.noise.send.nonce == 1
    requires i.yamux.value.party.mux == M.Open(M.Init(true)).mux
    ensures LosesThenSends(i, Y.Writing(1, Big()), Y.Closing(1)) && Operate(i, Y.Writing(1, Big())).error.Some?
  {
    BigWriteIsAccepted(i.yamux.value);
    WriteFailsExactly(i, 1, Big());
    FailedWriteIsLost(i, 1, Big());
    var i1 := Use(i, Y.Writing(1, Big()));
    assert i1 == Operate(i, Y.Writing(1, Big())).c;
    FinIsSent(i1);
  }

  lemma FinIsSent(c: Conn)
    requires Flushed(c) && c.noise.send.hasKey && c.noise.send.nonce < U64_MAX
    requires BN.Operate(c.yamux.value, Y.Closing(1), []).sendBuf != []
    ensures Modest(c, Y.Closing(1)) && Use(c, Y.Closing(1)).sent != c.sent
  {
    OperationIsOneFrame(c, Y.Closing(1));
    UseSends(c, Y.Closing(1));
    var batch := BN.Operate(c.yamux.value, Y.Closing(1), []).sendBuf;
    assert |T.FrameOf(c.noise.send.key, c.noise.send.nonce, Lits(batch))| > 0;
  }

  /** One more operation of the initiator. */
  lemma RunUses(k: Config, moves: seq<Move>, a: Y.Action, s: Net, i: Conn)
    requires Steady(k, moves) && Run(k, moves) == s && Use(s.i, a) == i && Modest(s.i, a)
    requires Unspent(s.(i := i))
    ensures Steady(k, moves + [InitiatorUses(a)]) && Run(k, moves + [InitiatorUses(a)]) == s.(i := i)
  {
    RunSnoc(k, moves, InitiatorUses(a));
  }

  lemma LastStop(t: Script)
    ensures Stop(t, 5).i == t.a2 && Stop(t, 5).r == t.b3
  {
  }

  /** The script of two configurations ends with fresh ciphers. */
  lemma FreshScript(k: Config) returns (t: Script)
    requires Compatible(k) && k.i.send.nonce < U64_MAX && k.r.send.nonce < U64_MAX
    ensures PlayedBy(k, t) && AllUnspent(t) && t.a2.noise.send.hasKey && t.a2.noise.send.nonce == 0
  {
    t := TheScript(k);
    NoncesStartAtZero(k);
    HandshakeOutcome(k);
    UpgradedParts(A1(k), Third(k).s, Framed(OrNothing(Third(k).r)));
  }

  lemma OpeningFits(t: Script, i: Conn)
    requires AllUnspent(t) && i.noise.send.nonce == 1
    ensures Stop(t, 5).i == t.a2 && Modest(t.a2, Y.Opening) && Unspent(Stop(t, 5).(i := i))
  {
  }

  lemma ReachesLastStop(k: Config, t: Script) returns (moves: seq<Move>)
    requires PlayedBy(k, t) && AllUnspent(t)
    ensures Steady(k, moves) && Run(k, moves) == Stop(t, 5)
  {
    StopsFollow(t);
    UpgradeRuns(k, t, 5);
    moves := ShortestUpgrade(t, 5);
  }

  /** A run of the upgrade, after which the initiator opens a stream. */
  lemma OneStream(k: Config, t: Script, i: Conn) returns (moves: seq<Move>)
    requires PlayedBy(k, t) && AllUnspent(t) && i == Use(t.a2, Y.Opening) && i.noise.send.nonce == 1
    ensures Steady(k, moves) && Run(k, moves) == Stop(t, 5).(i := i)
  {
    moves := ReachesLastStop(k, t);
    OpeningFits(t, i);
    RunUses(k, moves, Y.Opening, Stop(t, 5), i);
    moves := moves + [InitiatorUses(Y.Opening)];
  }

  lemma LossAfterStop(t: Script)
    requires Ends(t) && t.a2.noise.send.hasKey && t.a2.noise.send.nonce == 0
    ensures var i := Use(t.a2, Y.Opening);
      && i.yamux.Some? && LosesThenSends(i, Y.Writing(1, Big()), Y.Closing(1))
      && Operate(i, Y.Writing(1, Big())).error.Some?
  {
    FirstStream(t);
    FinAfterLoss(Use(t.a2, Y.Opening));
  }

  /** A run in order, after which writing 65508 bytes fails and the message that follows ends the peer's connection. */
  ghost predicate FailsOnBigWrite(k: Config, moves: seq<Move>) {
    var s := Run(k, moves);
    && Steady(k, moves) && s.i.yamux.Some? && Operate(s.i, Y.Writing(1, Big())).error.Some?
    && Abandoned(AfterLoss(k, s, Y.Writing(1, Big()), Y.Closing(1)).r)
  }

  /** Every compatible pair has such a run: the bound on writes is reached. */
  lemma BigWriteEndsConnection(k: Config)
    requires Compatible(k) && k.i.send.nonce < U64_MAX && k.r.send.nonce < U64_MAX
    ensures exists moves :: FailsOnBigWrite(k, moves)
  {
    var t := FreshScript(k);
    FirstStream(t);
    var moves := OneStream(k, t, Use(t.a2, Y.Opening));
    BigWriteInRun(k, t, moves);
  }

  lemma BigWriteInRun(k: Config, t: Script, moves: seq<Move>)
    requires Compatible(k) && PlayedBy(k, t) && t.a2.noise.send.hasKey && t.a2.noise.send.nonce == 0
    requires Steady(k, moves) && Run(k, moves) == Stop(t, 5).(i := Use(t.a2, Y.Opening))
    ensures FailsOnBigWrite(k, moves)
  {
    LossAfterStop(t);
    LastStop(t);
    OversizeWriteEndsConnection(k, moves, Y.Writing(1, Big()), Y.Closing(1));
  }
}
