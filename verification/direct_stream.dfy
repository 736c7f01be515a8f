/** Data on a connection without a muxer: everything that arrives belongs to its single stream. */
module DirectStream {
  import opened Bytes
  import opened Octets
  import opened Connection
  import opened SecureLink
  import N = Noise
  import T = Transport

  predicate HasStream(c: Conn) { c.direct.Some? && c.direct.value.isOpen }

  /** What the open stream already holds. */
  function Held(c: Conn): seq<Octet> { if HasStream(c) then c.direct.value.rx else [] }

  /** The stream holds `more` after what it held, and was accepted if there was none. */
  predicate Receives(c: Conn, c': Conn, more: seq<Octet>) {
    && HasStream(c') && c'.direct.value.rx == Held(c) + more
    && c'.events == c.events + (if HasStream(c) then [] else [StreamAccepted(c.nextStreamId)])
    && c'.pending == c.pending + (if HasStream(c) then [] else [c.nextStreamId])
    && c'.sent == c.sent && c'.yamux.None? && c'.state == c.state
  }

  lemma OneMessage(c: Conn, plain: seq<Octet>)
    requires c.yamux.None?
    ensures Receives(c, HandOn(c, plain), plain) && HandOn(c, plain).noise == c.noise && HandOn(c, plain).rx == c.rx
  {
    assert c.events + [] == c.events && c.pending + [] == c.pending;
  }

  lemma ReceivesTwice(a: Conn, b: Conn, c: Conn, x: seq<Octet>, y: seq<Octet>)
    requires Receives(a, b, x) && Receives(b, c, y)
    ensures Receives(a, c, x + y)
  {
    Assoc(Held(a), x, y);
    assert b.events + [] == b.events && b.pending + [] == b.pending;
  }

  /** The first of the messages is taken. */
  lemma FirstMessage(c: Conn, tx: N.Cipher, batches: seq<seq<Byte>>) returns (c': Conn)
    requires c.yamux.None? && Pipe(tx, c.noise.recv, c.rx, batches) && batches != []
    ensures Drain(c) == Drain(c') && Receives(c, c', Lits(batches[0]))
    ensures Pipe(tx, c'.noise.recv, c'.rx, batches[1..])
  {
    FirstBatchPops(tx, c.noise.recv, c.rx, batches);
    assert c.rx + [] == c.rx;
    PipeReceive(tx, c.noise.recv, c.rx, [], batches);
    var p := T.PopFrame(c.rx).value;
    var c1 := c.(rx := p.rest, noise := c.noise.(recv := T.Decrypt(c.noise.recv, p.message).value.next));
    assert p.rest + [] == p.rest;
    OneMessage(c1, Lits(batches[0]));
    c' := HandOn(c1, Lits(batches[0]));
  }

  lemma FirstAndRest(batches: seq<seq<Byte>>)
    requires batches != []
    ensures Concat(LitsEach(batches)) == Lits(batches[0]) + Concat(LitsEach(batches[1..]))
    ensures batches[1..] == [] ==> Concat(LitsEach(batches)) == Lits(batches[0])
  {
    assert LitsEach(batches)[1..] == LitsEach(batches[1..]);
    assert Lits(batches[0]) + [] == Lits(batches[0]);
  }

  /** The messages that arrive are all taken, in order, by the single stream, which is opened for the first of them. */
  lemma {:induction false} DrainReceives(c: Conn, tx: N.Cipher, batches: seq<seq<Byte>>)
    requires c.yamux.None? && Pipe(tx, c.noise.recv, c.rx, batches) && batches != []
    ensures Drain(c).error.None? && Receives(c, Drain(c).c, Concat(LitsEach(batches)))
    decreases |batches|
  {
    var c' := FirstMessage(c, tx, batches);
    FirstAndRest(batches);
    if batches[1..] == [] {
      NothingMore(c', tx);
    } else {
      DrainReceives(c', tx, batches[1..]);
      ReceivesTwice(c, c', Drain(c').c, Lits(batches[0]), Concat(LitsEach(batches[1..])));
    }
  }

  lemma NothingMore(c: Conn, tx: N.Cipher)
    requires Pipe(tx, c.noise.recv, c.rx, [])
    ensures Drain(c) == Fine(c)
  {
    assert T.FrameList(tx.key, c.noise.recv.nonce, LitsEach([])) == [];
    assert c.rx == [];
  }
}
