/**
 * Two ready connections over sockets that deliver octets in any segmentation: every flush is one encrypted frame,
 * and the yamux bytes that arrive are the yamux bytes that were sent. Each step is some steps of the byte network.
 */
module SecureLink {
  import opened Bytes
  import opened Octets
  import opened Connection
  import BN = YamuxByteNet
  import F = YamuxFrame
  import M = YamuxMux
  import N = Noise
  import NP = NoisePayload
  import R = YamuxReplies
  import T = Transport
  import Y = YamuxNet

  function LitsEach(list: seq<seq<Byte>>): seq<seq<Octet>> {
    seq(|list|, i requires 0 <= i < |list| => Lits(list[i]))
  }

  /** One direction: the octets under way are the frames of the batches under way, and the nonces tell how many. */
  predicate Pipe(tx: N.Cipher, rx: N.Cipher, wire: seq<Octet>, batches: seq<seq<Byte>>) {
    && tx.hasKey && rx.hasKey && tx.key == rx.key
    && tx.nonce as int == rx.nonce as int + |batches|
    && wire == T.Frames(tx.key, rx.nonce, LitsEach(batches))
    && forall b :: b in batches ==> |b| <= T.MAX_PLAIN
  }

  lemma PipeSend(tx: N.Cipher, rx: N.Cipher, wire: seq<Octet>, batches: seq<seq<Byte>>, batch: seq<Byte>)
    requires Pipe(tx, rx, wire, batches) && |batch| <= T.MAX_PLAIN && tx.nonce < U64_MAX
    ensures T.Encrypt(tx, Lits(batch)).Ok?
    ensures var sealed := T.Encrypt(tx, Lits(batch)).value;
      && T.EncodeFrame(sealed.message).Ok?
      && Pipe(sealed.next, rx, wire + T.EncodeFrame(sealed.message).value, batches + [batch])
  {
    assert LitsEach(batches + [batch]) == LitsEach(batches) + [Lits(batch)];
    T.FramesSnoc(tx.key, rx.nonce, LitsEach(batches), Lits(batch));
    T.FrameOfFitting(tx.key, tx.nonce, Lits(batch));
  }

  /** What can be popped is the first batch. */
  lemma PipeReceive(tx: N.Cipher, rx: N.Cipher, part: seq<Octet>, rest: seq<Octet>, batches: seq<seq<Byte>>)
    requires Pipe(tx, rx, part + rest, batches) && T.PopFrame(part).Some?
    ensures batches != []
    ensures var p := T.PopFrame(part).value;
      && T.Decrypt(rx, p.message).Ok?
      && T.Decrypt(rx, p.message).value.message == Lits(batches[0])
      && Pipe(tx, T.Decrypt(rx, p.message).value.next, p.rest + rest, batches[1..])
  {
    var plains := LitsEach(batches);
    BatchesFit(batches);
    T.FrontOfFrames(tx.key, rx.nonce, plains, part, rest);
    assert |plains| == |batches|;
    OpensNext(rx, Lits(batches[0]));
    assert plains[0] == Lits(batches[0]) && plains[1..] == LitsEach(batches[1..]);
  }

  lemma BatchesFit(batches: seq<seq<Byte>>)
    requires forall b :: b in batches ==> |b| <= T.MAX_PLAIN
    ensures forall p :: p in LitsEach(batches) ==> T.FitsFrame(p)
  {
    forall p | p in LitsEach(batches) ensures T.FitsFrame(p) {
      var i :| 0 <= i < |batches| && LitsEach(batches)[i] == p;
      assert batches[i] in batches;
    }
  }

  lemma OpensNext(rx: N.Cipher, plain: seq<Octet>)
    requires rx.hasKey && rx.nonce < U64_MAX
    ensures T.Decrypt(rx, Seal(rx.key, rx.nonce, [], plain)) == Ok(T.Sealed(rx.(nonce := rx.nonce + 1), plain))
  {
    UnsealInvertsSeal(rx.key, rx.nonce, [], plain);
  }

  lemma PipeDrained(tx: N.Cipher, rx: N.Cipher, part: seq<Octet>, batches: seq<seq<Byte>>)
    requires Pipe(tx, rx, part, batches) && T.PopFrame(part).None?
    ensures batches == [] && part == []
  {
    var plains := LitsEach(batches);
    BatchesFit(batches);
    assert part + [] == part;
    T.FrontOfFrames(tx.key, rx.nonce, plains, part, []);
    assert |plains| == |batches|;
  }

  lemma FirstBatchPops(tx: N.Cipher, rx: N.Cipher, wire: seq<Octet>, batches: seq<seq<Byte>>)
    requires Pipe(tx, rx, wire, batches) && batches != []
    ensures T.PopFrame(wire).Some?
  {
    if T.PopFrame(wire).None? { PipeDrained(tx, rx, wire, batches); }
  }

  // ---------- sending ----------

  /** A ready connection whose socket works and whose yamux session has been flushed. */
  predicate Running(c: Conn) {
    && c.state == Ready && c.secureReady && c.stage == Established
    && c.socketOpen && c.patience == None && c.yamux.Some?
  }

  predicate Flushed(c: Conn) { Running(c) && c.yamux.value.sendBuf == [] }

  /** The connection after flushing one batch. */
  function AfterFlush(c: Conn, added: seq<Octet>, n: U64): Conn
    requires c.yamux.Some?
  {
    c.(yamux := Some(c.yamux.value.(sendBuf := [])), sent := c.sent + added,
      noise := c.noise.(send := c.noise.send.(nonce := n)))
  }

  /** Some sends: what they add to the wire and to the batches under way. */
  datatype Sends = Sends(added: seq<Octet>, batches: seq<seq<Byte>>)

  /** The sends of a step from `c` to `c'` extend the pipe towards `rx`. */
  predicate Extends(c: Conn, c': Conn, rx: N.Cipher, wire: seq<Octet>, batches: seq<seq<Byte>>, s: Sends) {
    c'.sent == c.sent + s.added && Pipe(c'.noise.send, rx, wire + s.added, batches + s.batches)
  }

  lemma NonceGrows(c: Conn, plain: seq<Octet>)
    ensures c.noise.send.nonce <= SendEncrypted(c, plain).c.noise.send.nonce
  {
  }

  lemma FlushNonceGrows(c: Conn)
    ensures c.noise.send.nonce <= FlushYamux(c).c.noise.send.nonce
  {
    if c.yamux.Some? { NonceGrows(c.(yamux := Some(c.yamux.value.(sendBuf := []))), Lits(c.yamux.value.sendBuf)); }
  }

  lemma SendIsOneFrame(c: Conn, plain: seq<Octet>)
    requires c.socketOpen && c.patience == None && T.Encrypt(c.noise.send, plain).Ok?
    requires T.EncodeFrame(T.Encrypt(c.noise.send, plain).value.message).Ok?
    ensures var sealed := T.Encrypt(c.noise.send, plain).value;
      SendEncrypted(c, plain)
        == Fine(c.(sent := c.sent + T.EncodeFrame(sealed.message).value, noise := c.noise.(send := sealed.next)))
  {
  }

  lemma NothingToFlush(c: Conn, rx: N.Cipher, wire: seq<Octet>, batches: seq<seq<Byte>>)
    requires Flushed(c) && Pipe(c.noise.send, rx, wire, batches)
    ensures FlushYamux(c) == Fine(c) && c == AfterFlush(c, [], c.noise.send.nonce)
    ensures Extends(c, c, rx, wire, batches, Sends([], []))
  {
    assert wire + [] == wire && batches + [] == batches && c.sent + [] == c.sent;
  }

  lemma OneBatchExtends(c: Conn, rx: N.Cipher, wire: seq<Octet>, batches: seq<seq<Byte>>) returns (s: Sends)
    requires Running(c) && Pipe(c.noise.send, rx, wire, batches) && c.noise.send.nonce < U64_MAX
    requires c.yamux.value.sendBuf != [] && |c.yamux.value.sendBuf| <= T.MAX_PLAIN
    ensures s.batches == [c.yamux.value.sendBuf]
    ensures FlushYamux(c) == Fine(AfterFlush(c, s.added, c.noise.send.nonce + 1))
    ensures Extends(c, FlushYamux(c).c, rx, wire, batches, s)
  {
    var batch := c.yamux.value.sendBuf;
    PipeSend(c.noise.send, rx, wire, batches, batch);
    s := Sends(T.EncodeFrame(T.Encrypt(c.noise.send, Lits(batch)).value.message).value, [batch]);
    SendIsOneFrame(c.(yamux := Some(c.yamux.value.(sendBuf := []))), Lits(batch));
  }

  /** A flush of a batch that fits succeeds, as one frame. */
  lemma FlushExtends(c: Conn, rx: N.Cipher, wire: seq<Octet>, batches: seq<seq<Byte>>) returns (s: Sends)
    requires Running(c) && Pipe(c.noise.send, rx, wire, batches)
    requires |c.yamux.value.sendBuf| <= T.MAX_PLAIN && FlushYamux(c).c.noise.send.nonce < U64_MAX
    ensures FlushYamux(c).error.None?
    ensures Extends(c, FlushYamux(c).c, rx, wire, batches, s) && Concat(s.batches) == c.yamux.value.sendBuf
    ensures s.batches == if c.yamux.value.sendBuf == [] then [] else [c.yamux.value.sendBuf]
    ensures FlushYamux(c).c == AfterFlush(c, s.added, FlushYamux(c).c.noise.send.nonce)
  {
    var batch := c.yamux.value.sendBuf;
    if batch == [] {
      NothingToFlush(c, rx, wire, batches);
      s := Sends([], []);
    } else {
      FlushNonceGrows(c);
      s := OneBatchExtends(c, rx, wire, batches);
      assert Concat([batch]) == batch;
    }
  }

  /** A batch that does not fit one message is taken from the session, costs a nonce, and never reaches the wire. */
  lemma OversizeBatchIsLost(c: Conn)
    requires Running(c) && c.noise.send.hasKey && c.noise.send.nonce < U64_MAX && |c.yamux.value.sendBuf| > T.MAX_PLAIN
    ensures var r := FlushYamux(c);
      && r.error.Some? && r.c.sent == c.sent && r.c.yamux.value.sendBuf == []
      && r.c.noise.send.nonce == c.noise.send.nonce + 1
  {
    var c1 := c.(yamux := Some(c.yamux.value.(sendBuf := [])));
    assert T.Encrypt(c1.noise.send, Lits(c.yamux.value.sendBuf)).Ok?;
  }

  lemma ExtendsTwice(c: Conn, c1: Conn, c2: Conn, rx: N.Cipher, wire: seq<Octet>, batches: seq<seq<Byte>>, s: Sends,
                     t: Sends)
    requires Extends(c, c1, rx, wire, batches, s)
    requires Extends(c1, c2, rx, wire + s.added, batches + s.batches, t)
    ensures Extends(c, c2, rx, wire, batches, Sends(s.added + t.added, s.batches + t.batches))
    ensures Concat(s.batches + t.batches) == Concat(s.batches) + Concat(t.batches)
  {
    Assoc(wire, s.added, t.added);
    Assoc(c.sent, s.added, t.added);
    Assoc(batches, s.batches, t.batches);
    ConcatAppend(s.batches, t.batches);
  }

  /** The most that one write may accept for its frame to be sealed into one message: 65507 bytes. */
  const MAX_WRITE: nat := T.MAX_PLAIN - F.HEADER_SIZE

  /** How many bytes a write gets accepted; the stream window may cut it short. */
  function AcceptedBy(m: M.Mux, a: Y.Action): nat {
    if !a.Writing? then 0
    else
      match M.Write(m, a.sid, a.data).result
      case Ok(n) => n
      case Err(_) => 0
  }

  /** No write of more bytes than one message carries. */
  predicate Modest(c: Conn, a: Y.Action) {
    c.yamux.Some? ==> AcceptedBy(c.yamux.value.party.mux, a) <= MAX_WRITE
  }

  lemma OneFrameIsShort(fs: seq<F.Frame>)
    requires |fs| <= 1 && forall f :: f in fs ==> |f.payload| <= MAX_WRITE
    ensures |F.EncodeAll(fs)| <= T.MAX_PLAIN
  {
    if |fs| == 1 { F.EncodeAllOne(fs[0]); assert fs == [fs[0]]; }
  }

  lemma OperationIsShort(e: BN.End, a: Y.Action, head: seq<F.Frame>)
    requires e.sendBuf == [] && AcceptedBy(e.party.mux, a) <= MAX_WRITE && (a == Y.Receiving <==> |head| == 1)
    ensures |BN.Operate(e, a, head).sendBuf| <= T.MAX_PLAIN
  {
    OneFrameIsShort(BN.Do(e.party, a, head).out);
  }

  /** An operation of the application is one batch at most. */
  lemma OperateExtends(c: Conn, a: Y.Action, rx: N.Cipher, wire: seq<Octet>, batches: seq<seq<Byte>>) returns (s: Sends)
    requires Flushed(c) && Pipe(c.noise.send, rx, wire, batches)
    requires a != Y.Receiving && Modest(c, a) && Operate(c, a).c.noise.send.nonce < U64_MAX
    ensures var e := BN.Operate(c.yamux.value, a, []);
      && Operate(c, a).error.None?
      && Extends(c, Operate(c, a).c, rx, wire, batches, s) && Concat(s.batches) == e.sendBuf
      && Operate(c, a).c == AfterFlush(c.(yamux := Some(e)), s.added, Operate(c, a).c.noise.send.nonce)
  {
    OperationIsShort(c.yamux.value, a, []);
    s := FlushExtends(c.(yamux := Some(BN.Operate(c.yamux.value, a, []))), rx, wire, batches);
  }

  // ---------- receiving ----------

  /** What receiving leaves alone. */
  predicate Receives(c: Conn, c': Conn) {
    Flushed(c') && c'.rx == c.rx && c'.noise.recv == c.noise.recv && c'.noise.send.key == c.noise.send.key
  }

  /** Batches that their receiver takes without sending anything. */
  ghost predicate Hushed(batches: seq<seq<Byte>>) { forall b :: b in batches ==> R.QuietBatch(b) }

  function Handled(e: BN.End): BN.End
    requires F.TryParse(e.recvBuf).Some?
  {
    var f := F.TryParse(e.recvBuf).value;
    BN.Operate(e.(recvBuf := e.recvBuf[F.FrameSize(f)..]), Y.Receiving, [f])
  }

  lemma HandleFrameExtends(c: Conn, rx: N.Cipher, wire: seq<Octet>, batches: seq<seq<Byte>>) returns (s: Sends)
    requires Flushed(c) && Pipe(c.noise.send, rx, wire, batches)
    requires F.TryParse(c.yamux.value.recvBuf).Some? && HandleFrame(c).noise.send.nonce < U64_MAX
    ensures Receives(c, HandleFrame(c)) && Extends(c, HandleFrame(c), rx, wire, batches, s)
    ensures HandleFrame(c).yamux.value == Handled(c.yamux.value).(sendBuf := [])
    ensures Concat(s.batches) == Handled(c.yamux.value).sendBuf && Hushed(s.batches)
  {
    var e := c.yamux.value;
    var f := F.TryParse(e.recvBuf).value;
    R.AnswerIsQuiet(e.(recvBuf := e.recvBuf[F.FrameSize(f)..]), f);
    OperationIsShort(e.(recvBuf := e.recvBuf[F.FrameSize(f)..]), Y.Receiving, [f]);
    s := FlushExtends(Announce(c.(yamux := Some(Handled(e))), e.party.mux, Handled(e).party.mux), rx, wire, batches);
  }

  lemma HandleNonceGrows(c: Conn)
    requires c.yamux.Some? && F.TryParse(c.yamux.value.recvBuf).Some?
    ensures c.noise.send.nonce <= HandleFrame(c).noise.send.nonce
  {
    var e := c.yamux.value;
    FlushNonceGrows(Announce(c.(yamux := Some(Handled(e))), e.party.mux, Handled(e).party.mux));
  }

  lemma {:induction false} PumpNonceGrows(c: Conn)
    requires c.yamux.Some?
    ensures c.noise.send.nonce <= PumpYamux(c).noise.send.nonce
    decreases |c.yamux.value.recvBuf|
  {
    if F.TryParse(c.yamux.value.recvBuf).None? {
    } else {
      HandleNonceGrows(c);
      PumpNonceGrows(HandleFrame(c));
    }
  }

  /** What is already waiting to be sent stays in front. */
  lemma {:induction false} PumpAppends(e: BN.End, front: seq<Byte>)
    ensures BN.Pump(e.(sendBuf := front + e.sendBuf)) == BN.Pump(e).(sendBuf := front + BN.Pump(e).sendBuf)
    decreases |e.recvBuf|
  {
    if F.TryParse(e.recvBuf).None? {
    } else {
      var f := F.TryParse(e.recvBuf).value;
      var out := BN.Do(e.party, Y.Receiving, [f]).out;
      Assoc(front, e.sendBuf, F.EncodeAll(out));
      assert Handled(e.(sendBuf := front + e.sendBuf)) == Handled(e).(sendBuf := front + Handled(e).sendBuf);
      PumpAppends(Handled(e), front);
    }
  }

  /** Handling frame by frame, with a flush after each, sends what handling them all at once would. */
  lemma {:induction false} PumpExtends(c: Conn, rx: N.Cipher, wire: seq<Octet>, batches: seq<seq<Byte>>)
    returns (s: Sends)
    requires Flushed(c) && Pipe(c.noise.send, rx, wire, batches) && PumpYamux(c).noise.send.nonce < U64_MAX
    ensures Receives(c, PumpYamux(c)) && Extends(c, PumpYamux(c), rx, wire, batches, s)
    ensures PumpYamux(c).yamux.value == BN.Pump(c.yamux.value).(sendBuf := [])
    ensures Concat(s.batches) == BN.Pump(c.yamux.value).sendBuf && Hushed(s.batches)
    decreases |c.yamux.value.recvBuf|
  {
    var e := c.yamux.value;
    if F.TryParse(e.recvBuf).None? {
      NothingToFlush(c, rx, wire, batches);
      s := Sends([], []);
    } else {
      var c1 := HandleFrame(c);
      PumpNonceGrows(c1);
      var first := HandleFrameExtends(c, rx, wire, batches);
      var rest := PumpExtends(c1, rx, wire + first.added, batches + first.batches);
      ExtendsTwice(c, c1, PumpYamux(c1), rx, wire, batches, first, rest);
      s := Sends(first.added + rest.added, first.batches + rest.batches);
      PumpAppends(c1.yamux.value, Handled(e).sendBuf);
      assert Handled(e).sendBuf + [] == Handled(e).sendBuf;
    }
  }

  // ---------- both directions, seen from one end ----------

  /** The byte network is what some run of it leads to; `far` tells that this end is its far end. */
  ghost predicate From(b: BN.ByteNet, far: bool) {
    exists moves :: (if far then BN.ByteFlip(b) else b) == BN.ByteRun(BN.ByteStart(true), moves)
  }

  lemma FromAct(b: BN.ByteNet, far: bool, a: BN.ByteAction)
    requires From(b, far)
    ensures From(BN.ByteAct(b, a), far)
  {
    var moves :| (if far then BN.ByteFlip(b) else b) == BN.ByteRun(BN.ByteStart(true), moves);
    var move := if far then BN.FarBytes(a) else BN.NearBytes(a);
    var more := moves + [move];
    assert more[..|more| - 1] == moves;
    assert (if far then BN.ByteFlip(BN.ByteAct(b, a)) else BN.ByteAct(b, a)) == BN.ByteRun(BN.ByteStart(true), more);
  }

  /**
   * One end `c`, the octets `unread` that its peer sent and it has not got yet, the octets `wire` under way to the
   * peer, the batches in either direction, and the byte network that this all amounts to.
   */
  datatype Link = Link(c: Conn, peerSend: N.Cipher, peerRecv: N.Cipher, unread: seq<Octet>, wire: seq<Octet>,
                       ins: seq<seq<Byte>>, outs: seq<seq<Byte>>, b: BN.ByteNet, far: bool)

  ghost predicate Linked(l: Link) {
    && Flushed(l.c) && l.b.near == l.c.yamux.value
    && Pipe(l.peerSend, l.c.noise.recv, l.c.rx + l.unread, l.ins) && l.b.inn == Concat(l.ins)
    && Pipe(l.c.noise.send, l.peerRecv, l.wire, l.outs) && l.b.out == Concat(l.outs)
    && From(l.b, l.far)
  }

  /** `l'` is `l` after some progress of its end, which added to the wire what the end sent. */
  predicate Progress(l: Link, l': Link) {
    && l'.peerSend == l.peerSend && l'.peerRecv == l.peerRecv && l'.unread == l.unread && l'.far == l.far
    && l'.b.far == l.b.far
    && l.c.sent <= l'.c.sent && l'.wire == l.wire + l'.c.sent[|l.c.sent|..]
  }

  /** What an end sends while it receives is not answered. */
  ghost predicate Replies(l: Link, l': Link) { l.outs <= l'.outs && Hushed(l'.outs[|l.outs|..]) }

  lemma RepliesTwice(l: Link, l1: Link, l2: Link)
    requires Replies(l, l1) && Replies(l1, l2)
    ensures Replies(l, l2)
  {
    assert l2.outs[|l.outs|..] == l1.outs[|l.outs|..] + l2.outs[|l1.outs|..];
  }

  lemma ProgressTwice(l: Link, l1: Link, l2: Link)
    requires Progress(l, l1) && Progress(l1, l2)
    ensures Progress(l, l2)
  {
    var x, y := l1.c.sent[|l.c.sent|..], l2.c.sent[|l1.c.sent|..];
    assert l2.c.sent == l1.c.sent + y;
    assert l2.c.sent[|l.c.sent|..] == x + y;
    Assoc(l.wire, x, y);
  }

  /** The byte network after an operation and a flush. */
  lemma OperationLinks(l: Link, a: Y.Action) returns (l': Link)
    requires Linked(l) && a != Y.Receiving && Modest(l.c, a) && Operate(l.c, a).c.noise.send.nonce < U64_MAX
    ensures Linked(l') && Progress(l, l') && l'.c == Operate(l.c, a).c && Operate(l.c, a).error.None?
    ensures l'.c.rx == l.c.rx
  {
    var e := BN.Operate(l.b.near, a, []);
    var s := OperateExtends(l.c, a, l.peerRecv, l.wire, l.outs);
    var b1 := BN.ByteAct(l.b, BN.Operating(a));
    var b2 := BN.ByteAct(b1, BN.Flushing);
    FromAct(l.b, l.far, BN.Operating(a));
    FromAct(b1, l.far, BN.Flushing);
    ConcatAppend(l.outs, s.batches);
    l' := l.(c := Operate(l.c, a).c, wire := l.wire + s.added, outs := l.outs + s.batches, b := b2);
    assert l'.c.sent[|l.c.sent|..] == s.added;
  }

  lemma DeliverAll(b: BN.ByteNet, batch: seq<Byte>, rest: seq<Byte>)
    requires b.inn == batch + rest && b.near.sendBuf == []
    ensures var e := BN.Pump(b.near.(recvBuf := b.near.recvBuf + batch));
      BN.ByteAct(BN.ByteAct(b, BN.Delivering(|batch|)), BN.Flushing)
        == b.(near := e.(sendBuf := []), inn := rest, out := b.out + e.sendBuf)
  {
    assert b.inn[..|batch|] == batch && b.inn[|batch|..] == rest;
  }

  /** The connection once the frame at the front is decrypted and handed on. */
  function Taken(c: Conn): Conn
    requires T.PopFrame(c.rx).Some? && T.Decrypt(c.noise.recv, T.PopFrame(c.rx).value.message).Ok?
  {
    var p := T.PopFrame(c.rx).value;
    var plain := T.Decrypt(c.noise.recv, p.message).value;
    HandOn(c.(rx := p.rest, noise := c.noise.(recv := plain.next)), plain.message)
  }

  lemma HandOnBytes(c: Conn, batch: seq<Byte>)
    requires c.yamux.Some?
    ensures HandOn(c, Lits(batch))
      == PumpYamux(c.(yamux := Some(c.yamux.value.(recvBuf := c.yamux.value.recvBuf + batch))))
  {
    ValsOfLits(batch);
  }

  /** Handing on one batch is delivering its bytes and flushing the answers. */
  lemma BatchLinks(l: Link, batch: seq<Byte>, rest: seq<seq<Byte>>) returns (l': Link)
    requires Flushed(l.c) && l.b.near == l.c.yamux.value && From(l.b, l.far)
    requires Pipe(l.c.noise.send, l.peerRecv, l.wire, l.outs) && l.b.out == Concat(l.outs)
    requires Pipe(l.peerSend, l.c.noise.recv, l.c.rx + l.unread, rest) && l.b.inn == batch + Concat(rest)
    requires HandOn(l.c, Lits(batch)).noise.send.nonce < U64_MAX
    ensures Linked(l') && Progress(l, l') && Replies(l, l') && l'.c == HandOn(l.c, Lits(batch))
  {
    HandOnBytes(l.c, batch);
    var c1 := l.c.(yamux := Some(l.c.yamux.value.(recvBuf := l.c.yamux.value.recvBuf + batch)));
    var s := PumpExtends(c1, l.peerRecv, l.wire, l.outs);
    var e := BN.Pump(c1.yamux.value);
    var b' := l.b.(near := e.(sendBuf := []), inn := Concat(rest), out := l.b.out + e.sendBuf);
    DeliverAll(l.b, batch, Concat(rest));
    FromAct(l.b, l.far, BN.Delivering(|batch|));
    FromAct(BN.ByteAct(l.b, BN.Delivering(|batch|)), l.far, BN.Flushing);
    ConcatAppend(l.outs, s.batches);
    l' := l.(c := PumpYamux(c1), wire := l.wire + s.added, ins := rest, outs := l.outs + s.batches, b := b');
    assert l'.c.sent[|l.c.sent|..] == s.added && l'.outs[|l.outs|..] == s.batches;
  }

  /** The frame at the front of the buffer is the first batch. */
  lemma FrameLinks(l: Link) returns (l': Link)
    requires Linked(l) && T.PopFrame(l.c.rx).Some?
    requires T.Decrypt(l.c.noise.recv, T.PopFrame(l.c.rx).value.message).Ok? ==> Taken(l.c).noise.send.nonce < U64_MAX
    ensures T.Decrypt(l.c.noise.recv, T.PopFrame(l.c.rx).value.message).Ok?
    ensures Linked(l') && Progress(l, l') && Replies(l, l') && l'.c == Taken(l.c)
  {
    PipeReceive(l.peerSend, l.c.noise.recv, l.c.rx, l.unread, l.ins);
    var p := T.PopFrame(l.c.rx).value;
    var plain := T.Decrypt(l.c.noise.recv, p.message).value;
    var c1 := l.c.(rx := p.rest, noise := l.c.noise.(recv := plain.next));
    l' := BatchLinks(l.(c := c1), l.ins[0], l.ins[1..]);
  }

  lemma HandOnNonceGrows(c: Conn, plain: seq<Octet>)
    ensures c.noise.send.nonce <= HandOn(c, plain).noise.send.nonce
  {
    if c.yamux.Some? {
      PumpNonceGrows(c.(yamux := Some(c.yamux.value.(recvBuf := c.yamux.value.recvBuf + Vals(plain)))));
    }
  }

  lemma TakenNonceGrows(c: Conn, plain: Result<T.Sealed, NP.Error>)
    ensures c.noise.send.nonce <= TakeOpened(c, plain).c.noise.send.nonce
  {
    if plain.Ok? { HandOnNonceGrows(c.(noise := c.noise.(recv := plain.value.next)), plain.value.message); }
  }

  lemma {:induction false} DrainNonceGrows(c: Conn)
    ensures c.noise.send.nonce <= Drain(c).c.noise.send.nonce
    decreases |c.rx|
  {
    var p := T.PopFrame(c.rx);
    if p.None? {
    } else {
      var c1, plain := c.(rx := p.value.rest), T.Decrypt(c.noise.recv, p.value.message);
      TakenNonceGrows(c1, plain);
      if TakeOpened(c1, plain).error.None? { DrainNonceGrows(TakeOpened(c1, plain).c); }
    }
  }

  /** Draining never fails, and hands on exactly the batches whose frames have arrived. */
  lemma {:induction false} DrainLinks(l: Link) returns (l': Link)
    requires Linked(l) && Drain(l.c).c.noise.send.nonce < U64_MAX
    ensures Drain(l.c).error.None? && Linked(l') && Progress(l, l') && Replies(l, l') && l'.c == Drain(l.c).c
    ensures T.PopFrame(l'.c.rx).None?
    decreases |l.c.rx|
  {
    if T.PopFrame(l.c.rx).None? {
      l' := l;
      assert l.wire + [] == l.wire && l.outs[|l.outs|..] == [];
    } else {
      if T.Decrypt(l.c.noise.recv, T.PopFrame(l.c.rx).value.message).Ok? { DrainNonceGrows(Taken(l.c)); }
      var l1 := FrameLinks(l);
      l' := DrainLinks(l1);
      ProgressTwice(l, l1, l');
      RepliesTwice(l, l1, l');
    }
  }
}
