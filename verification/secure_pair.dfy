/** Two ready connections at once: the pair of links, and what one end's progress means for both. */
module SecurePair {
  import opened Bytes
  import opened Octets
  import opened Connection
  import opened SecureLink
  import BN = YamuxByteNet
  import N = Noise
  import T = Transport
  import Y = YamuxNet

  /** `unread` is under way to `me`, `coming` to the peer; `far` tells that `me` is the far end of the byte network. */
  datatype Pair = Pair(me: Conn, peer: Conn, unread: seq<Octet>, coming: seq<Octet>,
                       ins: seq<seq<Byte>>, outs: seq<seq<Byte>>, b: BN.ByteNet, far: bool)

  function LinkOf(p: Pair): Link {
    Link(p.me, p.peer.noise.send, p.peer.noise.recv, p.unread, p.peer.rx + p.coming, p.ins, p.outs, p.b, p.far)
  }

  ghost predicate Joined(p: Pair) {
    && Linked(LinkOf(p))
    && Flushed(p.peer) && p.peer.yamux.value == p.b.far
    && T.PopFrame(p.me.rx).None? && T.PopFrame(p.peer.rx).None?
  }

  function Mirror(p: Pair): Pair {
    Pair(p.peer, p.me, p.coming, p.unread, p.outs, p.ins, BN.ByteFlip(p.b), !p.far)
  }

  lemma MirrorJoined(p: Pair)
    requires Joined(p)
    ensures Joined(Mirror(p))
  {
    FromFlipped(p.b, p.far);
  }

  lemma FromFlipped(b: BN.ByteNet, far: bool)
    requires From(b, far)
    ensures From(BN.ByteFlip(b), !far)
  {
    var moves :| (if far then BN.ByteFlip(b) else b) == BN.ByteRun(BN.ByteStart(true), moves);
    assert BN.ByteFlip(BN.ByteFlip(b)) == b;
    assert (if !far then BN.ByteFlip(BN.ByteFlip(b)) else BN.ByteFlip(b)) == BN.ByteRun(BN.ByteStart(true), moves);
  }

  /** The pair after its own end made progress. */
  function Moved(p: Pair, l: Link): Pair
    requires |p.me.sent| <= |l.c.sent|
  {
    p.(me := l.c, unread := l.unread, coming := p.coming + l.c.sent[|p.me.sent|..], ins := l.ins, outs := l.outs,
      b := l.b)
  }

  lemma ProgressJoins(p: Pair, l: Link, l': Link)
    requires Joined(p) && l.peerSend == p.peer.noise.send && l.peerRecv == p.peer.noise.recv
    requires l.wire == p.peer.rx + p.coming && l.b.far == p.b.far && l.far == p.far && l.c.sent == p.me.sent
    requires Linked(l') && Progress(l, l') && T.PopFrame(l'.c.rx).None?
    ensures Joined(Moved(p, l'))
  {
    var added := l'.c.sent[|p.me.sent|..];
    Assoc(p.peer.rx, p.coming, added);
    assert LinkOf(Moved(p, l')) == l';
  }

  /** More octets arrive at a running connection. */
  lemma RunningReads(c: Conn, x: seq<Octet>, g: N.Generated)
    requires Flushed(c) && Drain(c.(rx := c.rx + x)).error.None?
    ensures OnReadable(c, x, WouldBlock, g) == Drain(c.(rx := c.rx + x)).c
  {
    var c1 := c.(rx := c.rx + x);
    assert HandshakeFrames(c1, g) == Fine(c1);
    assert Process(c1, g) == Drain(c1);
  }

  lemma AbandonKeepsNoise(c: Conn)
    ensures Abandon(c).noise == c.noise
  {
  }

  /** However reading ends, the ciphers are those of the drained connection. */
  lemma ReadableNoise(c: Conn, x: seq<Octet>, g: N.Generated)
    requires Flushed(c)
    ensures OnReadable(c, x, WouldBlock, g).noise == Drain(c.(rx := c.rx + x)).c.noise
  {
    var c1 := c.(rx := c.rx + x);
    assert HandshakeFrames(c1, g) == Fine(c1);
    assert Process(c1, g) == Drain(c1);
    AbandonKeepsNoise(Drain(c1).c);
  }

  lemma PairGets(p: Pair, x: seq<Octet>, rest: seq<Octet>, g: N.Generated) returns (p': Pair)
    requires Joined(p) && p.unread == x + rest
    requires OnReadable(p.me, x, WouldBlock, g).noise.send.nonce < U64_MAX
    ensures Joined(p') && p'.me == OnReadable(p.me, x, WouldBlock, g) && p'.peer == p.peer && p'.far == p.far
    ensures p'.unread == rest && p.me.sent <= p'.me.sent && p'.coming == p.coming + p'.me.sent[|p.me.sent|..]
    ensures p.outs <= p'.outs && Hushed(p'.outs[|p.outs|..])
  {
    var l := LinkOf(p).(c := p.me.(rx := p.me.rx + x), unread := rest);
    Assoc(p.me.rx, x, rest);
    ReadableNoise(p.me, x, g);
    var l' := DrainLinks(l);
    RunningReads(p.me, x, g);
    ProgressJoins(p, l, l');
    p' := Moved(p, l');
  }

  /** An application uses a stream, or opens one, which is announced by an event. */
  function Use(c: Conn, a: Y.Action): Conn {
    if c.state != Ready || c.yamux.None? || a == Y.Receiving then c
    else if a == Y.Opening then OpenStream(c).c
    else Operate(c, a).c
  }

  lemma UseOfOpening(c: Conn)
    requires Flushed(c) && c.socketOpen
    ensures Use(c, Y.Opening) == OpenYamux(c).c
  {
  }

  lemma OpeningIsOperating(c: Conn)
    requires Flushed(c) && Operate(c, Y.Opening).error.None?
    ensures Use(c, Y.Opening) == c
      || Use(c, Y.Opening) == Operate(c, Y.Opening).c.(events := Use(c, Y.Opening).events)
  {
    UseOfOpening(c);
  }

  lemma EventsDoNotLink(l: Link, events: seq<Event>)
    requires Linked(l)
    ensures Linked(l.(c := l.c.(events := events)))
  {
  }

  lemma OpeningLinks(l: Link) returns (l': Link)
    requires Linked(l) && Operate(l.c, Y.Opening).c.noise.send.nonce < U64_MAX
    ensures Linked(l') && Progress(l, l') && l'.c == Use(l.c, Y.Opening) && l'.c.rx == l.c.rx
  {
    var l1 := OperationLinks(l, Y.Opening);
    OpeningIsOperating(l.c);
    if Use(l.c, Y.Opening) == l.c {
      l' := l;
      NoProgress(l);
    } else {
      l' := l1.(c := l1.c.(events := Use(l.c, Y.Opening).events));
      EventsDoNotLink(l1, Use(l.c, Y.Opening).events);
    }
  }

  lemma NoProgress(l: Link)
    ensures Progress(l, l)
  {
    assert l.wire + [] == l.wire;
  }

  /** Using a stream keeps the link, whether or not the operation sends anything. */
  lemma UseLinks(l: Link, a: Y.Action) returns (l': Link)
    requires Linked(l) && Modest(l.c, a)
    requires a != Y.Receiving ==> Operate(l.c, a).c.noise.send.nonce < U64_MAX
    ensures Linked(l') && Progress(l, l') && l'.c == Use(l.c, a) && l'.c.rx == l.c.rx
  {
    if a == Y.Receiving {
      l' := l;
      NoProgress(l);
    } else if a == Y.Opening {
      l' := OpeningLinks(l);
    } else {
      l' := OperationLinks(l, a);
    }
  }

  lemma RefusedOpeningSendsNothing(c: Conn)
    requires Flushed(c) && c.yamux.value.party.mux.goAway
    ensures Operate(c, Y.Opening).c.noise == c.noise
  {
    assert BN.Operate(c.yamux.value, Y.Opening, []).sendBuf == [];
  }

  lemma OpeningNonce(c: Conn)
    requires Flushed(c)
    ensures OpenYamux(c).c.noise.send.nonce == Operate(c, Y.Opening).c.noise.send.nonce
  {
    if c.yamux.value.party.mux.goAway { RefusedOpeningSendsNothing(c); }
  }

  lemma UseNonce(c: Conn, a: Y.Action)
    requires Flushed(c) && a != Y.Receiving
    ensures Use(c, a).noise.send.nonce == Operate(c, a).c.noise.send.nonce
  {
    if a == Y.Opening {
      UseOfOpening(c);
      OpeningNonce(c);
    }
  }

  lemma PairUses(p: Pair, a: Y.Action) returns (p': Pair)
    requires Joined(p) && Modest(p.me, a) && Use(p.me, a).noise.send.nonce < U64_MAX
    ensures Joined(p') && p'.me == Use(p.me, a) && p'.peer == p.peer && p'.far == p.far
    ensures p'.unread == p.unread && p.me.sent <= p'.me.sent && p'.coming == p.coming + p'.me.sent[|p.me.sent|..]
  {
    if a != Y.Receiving { UseNonce(p.me, a); }
    var l' := UseLinks(LinkOf(p), a);
    ProgressJoins(p, LinkOf(p), l');
    p' := Moved(p, l');
  }
}
