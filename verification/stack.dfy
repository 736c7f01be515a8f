/**
 * The whole stack: an outbound and an inbound connection joined by two sockets, from the first byte of the upgrade
 * to the streams of the applications. A move delivers any number of octets to one side or uses a stream of one side.
 */
module Stack {
  import opened Bytes
  import opened Octets
  import opened Connection
  import opened SecureLink
  import opened SecurePair
  import opened StackHandshake
  import BN = YamuxByteNet
  import MS = Multistream
  import N = Noise
  import T = Transport
  import Y = YamuxNet

  /** Both connections, and how much of what the other one sent each has received. */
  datatype Net = Net(i: Conn, r: Conn, iRead: nat, rRead: nat)

  datatype Move =
    | InitiatorGets(count: nat)
    | ResponderGets(count: nat)
    | InitiatorUses(action: Y.Action)
    | ResponderUses(action: Y.Action)

  function ToInitiator(s: Net): seq<Octet> { if s.iRead <= |s.r.sent| then s.r.sent[s.iRead..] else [] }

  function ToResponder(s: Net): seq<Octet> { if s.rRead <= |s.i.sent| then s.i.sent[s.rRead..] else [] }

  /** A side is in a new state after getting `n` octets. */
  function InitiatorHas(s: Net, i: Conn, n: nat): Net { s.(i := i, iRead := s.iRead + n) }

  function ResponderHas(s: Net, r: Conn, n: nat): Net { s.(r := r, rRead := s.rRead + n) }

  function InitiatorReads(g: N.Generated, s: Net, n: nat): Net
    requires n <= |ToInitiator(s)|
  {
    InitiatorHas(s, OnReadable(s.i, ToInitiator(s)[..n], WouldBlock, g), n)
  }

  function ResponderReads(g: N.Generated, s: Net, n: nat): Net
    requires n <= |ToResponder(s)|
  {
    ResponderHas(s, OnReadable(s.r, ToResponder(s)[..n], WouldBlock, g), n)
  }

  function Apply(k: Config, s: Net, m: Move): Net {
    match m
    case InitiatorGets(count) => InitiatorReads(k.gi, s, Min(count, |ToInitiator(s)|))
    case ResponderGets(count) => ResponderReads(k.gr, s, Min(count, |ToResponder(s)|))
    case InitiatorUses(a) => s.(i := Use(s.i, a))
    case ResponderUses(a) => s.(r := Use(s.r, a))
  }

  /** Both upgrades have begun and nothing has arrived yet. */
  function Begun(k: Config): Net { Net(A0(k), B0(k), 0, 0) }

  function Run(k: Config, moves: seq<Move>): Net {
    if moves == [] then Begun(k) else Apply(k, Run(k, moves[..|moves| - 1]), moves[|moves| - 1])
  }

  // ---------- reading ----------

  lemma Reads(c: Conn, x: seq<Octet>, g: N.Generated, c': Conn)
    requires IsActive(c) && Process(c.(rx := c.rx + x), g) == Fine(c')
    ensures OnReadable(c, x, WouldBlock, g) == c'
  {
  }

  /** `n` of the octets under way arrive. */
  lemma Split(all: seq<Octet>, rx: seq<Octet>, coming: seq<Octet>, n: nat)
    requires n <= |coming| && rx + coming == all
    ensures rx + coming[..n] + coming[n..] == all
    ensures coming[n..] == [] ==> rx + coming[..n] == all
  {
    assert coming == coming[..n] + coming[n..];
    Assoc(rx, coming[..n], coming[n..]);
  }

  lemma ReadMore(sent: seq<Octet>, read: nat, n: nat)
    requires read + n <= |sent|
    ensures sent[read..][n..] == sent[read + n..]
  {
  }

  predicate AwaitsHello(c: Conn) { c.stage == NegotiatingProtocol && !c.secureReady && IsActive(c) && c.state != Ready }

  predicate AwaitsFrame(c: Conn) { c.stage == NoiseHandshake && !c.secureReady && IsActive(c) && c.state != Ready }

  /** Part of the greeting changes nothing but the buffer. */
  lemma HelloPart(c: Conn, x: seq<Octet>, rest: seq<Octet>, g: N.Generated)
    requires AwaitsHello(c) && c.rx + x + rest == Hello() && rest != []
    ensures OnReadable(c, x, WouldBlock, g) == c.(rx := c.rx + x)
  {
    PartOfHello(c.rx + x, rest);
    WaitsForHello(c.(rx := c.rx + x), g);
    Reads(c, x, g, c.(rx := c.rx + x));
  }

  lemma FramePart(c: Conn, x: seq<Octet>, g: N.Generated)
    requires AwaitsFrame(c) && T.PopFrame(c.rx + x).None?
    ensures OnReadable(c, x, WouldBlock, g) == c.(rx := c.rx + x)
  {
    WaitsForFrame(c.(rx := c.rx + x), g);
    Reads(c, x, g, c.(rx := c.rx + x));
  }

  lemma PartOfFramed(message: seq<Octet>, part: seq<Octet>, rest: seq<Octet>)
    requires |message| <= T.MAX_FRAME && part + rest == Framed(message) && rest != []
    ensures T.PopFrame(part).None?
  {
    T.PrefixIsNotPopped(message, part, rest);
  }

  lemma HelloIsLong()
    ensures Hello() != []
  {
    MS.ExchangeOfTwo(MS.HEADER, NOISE);
  }

  lemma FramedIsLong(message: seq<Octet>)
    requires |message| <= T.MAX_FRAME
    ensures Framed(message) != []
  {
  }

  /** A side that waits and has nothing coming is not disturbed. */
  lemma NothingComes(c: Conn, g: N.Generated)
    requires (AwaitsHello(c) || AwaitsFrame(c)) && c.rx == []
    ensures OnReadable(c, [], WouldBlock, g) == c
  {
    assert c.rx + [] == c.rx;
    HelloIsLong();
    if AwaitsHello(c) {
      assert [] + [] + Hello() == Hello();
      HelloPart(c, [], Hello(), g);
    } else {
      FramePart(c, [], g);
    }
    assert c.(rx := c.rx + []) == c;
  }

  // ---------- the script ----------

  /** The states that the initiator (`a`) and the responder (`b`) go through, and the messages between them. */
  datatype Script = Script(a0: Conn, a1: Conn, a2: Conn, b0: Conn, b1: Conn, b2: Conn, b3: Conn,
                           m1: seq<Octet>, m2: seq<Octet>, m3: seq<Octet>, gi: N.Generated, gr: N.Generated)

  predicate Waits(t: Script) {
    && AwaitsHello(t.a0) && AwaitsHello(t.b0) && AwaitsFrame(t.a1) && AwaitsFrame(t.b1) && AwaitsFrame(t.b2)
    && t.a0.rx == [] && t.a1.rx == [] && t.b0.rx == [] && t.b1.rx == [] && t.b2.rx == []
    && |t.m1| <= T.MAX_FRAME && |t.m2| <= T.MAX_FRAME && |t.m3| <= T.MAX_FRAME
  }

  predicate Says(t: Script) {
    && t.a0.sent == Hello() && t.a1.sent == Hello() + Framed(t.m1) && t.a2.sent == t.a1.sent + Framed(t.m3)
    && t.b0.sent == [] && t.b1.sent == Hello() && t.b2.sent == Hello() + Framed(t.m2) && t.b3.sent == t.b2.sent
  }

  predicate Hears(t: Script) {
    && Process(t.b0.(rx := Hello()), t.gr) == Fine(t.b1)
    && Process(t.a0.(rx := Hello()), t.gi) == Fine(t.a1)
    && Process(t.b1.(rx := Framed(t.m1)), t.gr) == Fine(t.b2)
    && Process(t.a1.(rx := Framed(t.m2)), t.gi) == Fine(t.a2)
  }

  predicate Ends(t: Script) {
    && Flushed(t.a2) && Flushed(t.b3) && t.a2.rx == t.b3.rx == []
    && t.a2.yamux == Some(BN.NewEnd(true)) && t.b3.yamux == Some(BN.NewEnd(false))
    && Pipe(t.a2.noise.send, t.b3.noise.recv, [], []) && Pipe(t.b3.noise.send, t.a2.noise.recv, [], [])
  }

  predicate TakesMessage3(t: Script, more: seq<Octet>) {
    Process(t.b2.(rx := Framed(t.m3) + more), t.gr) == Drain(t.b3.(rx := more))
  }

  ghost predicate Plays(t: Script) {
    Waits(t) && Says(t) && Hears(t) && Ends(t) && forall more :: TakesMessage3(t, more)
  }

  function ScriptOf(k: Config): Script {
    Script(A0(k), A1(k), A2(k), B0(k), B1(k), B2(k), B3(k),
           First(k).1, OrNothing(Second(k).r), OrNothing(Third(k).r), k.gi, k.gr)
  }

  // ---------- the six phases ----------

  predicate Bounded(s: Net) { s.iRead <= |s.r.sent| && s.rRead <= |s.i.sent| }

  /** The greeting is on its way to the responder. */
  predicate Greeting0(t: Script, s: Net) {
    && s.i == t.a0 && s.r == t.b0.(rx := s.r.rx)
    && ToInitiator(s) == [] && ToResponder(s) != [] && s.r.rx + ToResponder(s) == Hello()
  }

  /** Its answer is on its way back. */
  predicate Greeting1(t: Script, s: Net) {
    && s.r == t.b1 && s.i == t.a0.(rx := s.i.rx)
    && ToResponder(s) == [] && ToInitiator(s) != [] && s.i.rx + ToInitiator(s) == Hello()
  }

  predicate Message1(t: Script, s: Net) {
    && s.i == t.a1 && s.r == t.b1.(rx := s.r.rx)
    && ToInitiator(s) == [] && ToResponder(s) != [] && s.r.rx + ToResponder(s) == Framed(t.m1)
  }

  predicate Message2(t: Script, s: Net) {
    && s.r == t.b2 && s.i == t.a1.(rx := s.i.rx)
    && ToResponder(s) == [] && ToInitiator(s) != [] && s.i.rx + ToInitiator(s) == Framed(t.m2)
  }

  /** The initiator is ready and may already have sent encrypted frames, `wire`, behind message 3. */
  predicate Message3At(t: Script, s: Net, wire: seq<Octet>, b: BN.ByteNet) {
    && s.r == t.b2.(rx := s.r.rx) && ToInitiator(s) == [] && b.far == BN.NewEnd(false)
    && T.PopFrame(s.r.rx).None? && T.PopFrame(s.i.rx).None?
    && s.r.rx + ToResponder(s) == Framed(t.m3) + wire
  }

  function EarlyLink(t: Script, i: Conn, wire: seq<Octet>, outs: seq<seq<Byte>>, b: BN.ByteNet): Link {
    Link(i, t.b3.noise.send, t.b3.noise.recv, [], wire, [], outs, b, false)
  }

  ghost predicate Message3(t: Script, s: Net) {
    exists wire, outs, b :: Message3At(t, s, wire, b) && Linked(EarlyLink(t, s.i, wire, outs, b))
  }

  function PairOf(s: Net, ins: seq<seq<Byte>>, outs: seq<seq<Byte>>, b: BN.ByteNet): Pair {
    Pair(s.i, s.r, ToInitiator(s), ToResponder(s), ins, outs, b, false)
  }

  /** Both are ready, and their yamux sessions are in a state of the byte network. */
  ghost predicate BothReady(s: Net) { exists ins, outs, b :: Joined(PairOf(s, ins, outs, b)) }

  ghost predicate Upgrading(t: Script, s: Net) {
    Greeting0(t, s) || Greeting1(t, s) || Message1(t, s) || Message2(t, s)
  }

  ghost predicate Inv(t: Script, s: Net) {
    Bounded(s) && (Upgrading(t, s) || Message3(t, s) || BothReady(s))
  }

  // ---------- the upgrade, phase by phase ----------

  /** With nothing more to come a side has moved on; otherwise it keeps what it got. */
  predicate Heard(c0: Conn, c1: Conn, goal: seq<Octet>, rest: seq<Octet>, c: Conn) {
    if rest == [] then c == c1 else c == c0.(rx := c.rx) && c.rx + rest == goal
  }

  /** A side that waits for the greeting gets some of it, or the rest of it. */
  lemma HearsHello(c0: Conn, c: Conn, coming: seq<Octet>, n: nat, g: N.Generated, c1: Conn)
    requires AwaitsHello(c0) && c == c0.(rx := c.rx) && c.rx + coming == Hello() && n <= |coming|
    requires Process(c0.(rx := Hello()), g) == Fine(c1)
    ensures Heard(c0, c1, Hello(), coming[n..], OnReadable(c, coming[..n], WouldBlock, g))
  {
    Split(Hello(), c.rx, coming, n);
    if coming[n..] != [] {
      HelloPart(c, coming[..n], coming[n..], g);
    } else {
      assert c.(rx := c.rx + coming[..n]) == c0.(rx := Hello());
      Reads(c, coming[..n], g, c1);
    }
  }

  lemma HearsFrame(c0: Conn, c: Conn, message: seq<Octet>, coming: seq<Octet>, n: nat, g: N.Generated, c1: Conn)
    requires AwaitsFrame(c0) && c == c0.(rx := c.rx) && c.rx + coming == Framed(message) && n <= |coming|
    requires |message| <= T.MAX_FRAME && Process(c0.(rx := Framed(message)), g) == Fine(c1)
    ensures Heard(c0, c1, Framed(message), coming[n..], OnReadable(c, coming[..n], WouldBlock, g))
  {
    Split(Framed(message), c.rx, coming, n);
    if coming[n..] != [] {
      PartOfFramed(message, c.rx + coming[..n], coming[n..]);
      FramePart(c, coming[..n], g);
    } else {
      assert c.(rx := c.rx + coming[..n]) == c0.(rx := Framed(message));
      Reads(c, coming[..n], g, c1);
    }
  }

  lemma After0(t: Script, s: Net, n: nat, r: Conn)
    requires Says(t) && Bounded(s) && Greeting0(t, s) && n <= |ToResponder(s)|
    requires Heard(t.b0, t.b1, Hello(), ToResponder(s)[n..], r)
    requires t.b1.rx == t.a0.rx == []
    ensures Bounded(ResponderHas(s, r, n)) && Upgrading(t, ResponderHas(s, r, n))
    ensures ToResponder(s)[n..] == [] ==> Greeting1(t, ResponderHas(s, r, n))
  {
    ReadMore(s.i.sent, s.rRead, n);
    HelloIsLong();
  }

  lemma ResponderHears0(t: Script, s: Net, n: nat)
    requires Plays(t) && Greeting0(t, s) && n <= |ToResponder(s)|
    ensures Heard(t.b0, t.b1, Hello(), ToResponder(s)[n..], OnReadable(s.r, ToResponder(s)[..n], WouldBlock, t.gr))
  {
    HearsHello(t.b0, s.r, ToResponder(s), n, t.gr, t.b1);
  }

  lemma After1(t: Script, s: Net, n: nat, i: Conn)
    requires Says(t) && Bounded(s) && Greeting1(t, s) && n <= |ToInitiator(s)|
    requires Heard(t.a0, t.a1, Hello(), ToInitiator(s)[n..], i)
    requires |t.m1| <= T.MAX_FRAME && t.b1.rx == []
    ensures Bounded(InitiatorHas(s, i, n)) && Upgrading(t, InitiatorHas(s, i, n))
    ensures ToInitiator(s)[n..] == [] ==> Message1(t, InitiatorHas(s, i, n))
  {
    ReadMore(s.r.sent, s.iRead, n);
    FramedIsLong(t.m1);
    assert ToInitiator(s)[n..] == [] ==> ToResponder(InitiatorHas(s, i, n)) == Framed(t.m1);
  }

  lemma InitiatorHears1(t: Script, s: Net, n: nat)
    requires Plays(t) && Greeting1(t, s) && n <= |ToInitiator(s)|
    ensures Heard(t.a0, t.a1, Hello(), ToInitiator(s)[n..], OnReadable(s.i, ToInitiator(s)[..n], WouldBlock, t.gi))
  {
    HearsHello(t.a0, s.i, ToInitiator(s), n, t.gi, t.a1);
  }

  lemma After2(t: Script, s: Net, n: nat, r: Conn)
    requires Says(t) && Bounded(s) && Message1(t, s) && n <= |ToResponder(s)|
    requires Heard(t.b1, t.b2, Framed(t.m1), ToResponder(s)[n..], r)
    requires |t.m2| <= T.MAX_FRAME && t.a1.rx == []
    ensures Bounded(ResponderHas(s, r, n)) && Upgrading(t, ResponderHas(s, r, n))
    ensures ToResponder(s)[n..] == [] ==> Message2(t, ResponderHas(s, r, n))
  {
    ReadMore(s.i.sent, s.rRead, n);
    FramedIsLong(t.m2);
    assert ToResponder(s)[n..] == [] ==> ToInitiator(ResponderHas(s, r, n)) == Framed(t.m2);
  }

  lemma ResponderHears2(t: Script, s: Net, n: nat)
    requires Plays(t) && Message1(t, s) && n <= |ToResponder(s)|
    ensures Heard(t.b1, t.b2, Framed(t.m1), ToResponder(s)[n..], OnReadable(s.r, ToResponder(s)[..n], WouldBlock, t.gr))
  {
    HearsFrame(t.b1, s.r, t.m1, ToResponder(s), n, t.gr, t.b2);
  }

  lemma FromStart()
    ensures From(BN.ByteStart(true), false)
  {
    assert BN.ByteStart(true) == BN.ByteRun(BN.ByteStart(true), []);
  }

  /** The link of the initiator when it has just become ready. */
  lemma EarlyLinkHolds(t: Script)
    requires Ends(t)
    ensures Linked(EarlyLink(t, t.a2, [], [], BN.ByteStart(true)))
  {
    FromStart();
    assert [] + [] == t.a2.rx;
  }

  lemma UpgradingIsInv(t: Script, s: Net)
    requires Bounded(s) && Upgrading(t, s)
    ensures Inv(t, s)
  {
  }

  lemma InMessage3(t: Script, s: Net, wire: seq<Octet>, outs: seq<seq<Byte>>, b: BN.ByteNet)
    requires Bounded(s) && Message3At(t, s, wire, b) && Linked(EarlyLink(t, s.i, wire, outs, b))
    ensures Inv(t, s) && Message3(t, s)
  {
  }

  lemma StillMessage2(t: Script, s: Net, n: nat, i: Conn)
    requires Bounded(s) && Message2(t, s) && n <= |ToInitiator(s)| && ToInitiator(s)[n..] != []
    requires Heard(t.a1, t.a2, Framed(t.m2), ToInitiator(s)[n..], i)
    ensures Bounded(InitiatorHas(s, i, n)) && Upgrading(t, InitiatorHas(s, i, n))
  {
    ReadMore(s.r.sent, s.iRead, n);
    assert Message2(t, InitiatorHas(s, i, n));
  }

  lemma Message2IsRead(t: Script, s: Net, n: nat)
    requires Says(t) && Bounded(s) && Message2(t, s) && n <= |ToInitiator(s)| && ToInitiator(s)[n..] == []
    ensures var s' := InitiatorHas(s, t.a2, n);
      Bounded(s') && s'.r == t.b2 && ToInitiator(s') == [] && s'.rRead == |t.a1.sent|
  {
    ReadMore(s.r.sent, s.iRead, n);
  }

  lemma After3(t: Script, s: Net, n: nat, i: Conn)
    requires Says(t) && Ends(t) && t.b2.rx == [] && Bounded(s) && Message2(t, s) && n <= |ToInitiator(s)|
    requires Heard(t.a1, t.a2, Framed(t.m2), ToInitiator(s)[n..], i)
    ensures Inv(t, InitiatorHas(s, i, n))
    ensures ToInitiator(s)[n..] == [] ==> Message3(t, InitiatorHas(s, i, n))
  {
    if ToInitiator(s)[n..] == [] {
      EarlyLinkHolds(t);
      Message2IsRead(t, s, n);
      StartsMessage3(t, InitiatorHas(s, t.a2, n));
    } else {
      StillMessage2(t, s, n, i);
      UpgradingIsInv(t, InitiatorHas(s, i, n));
    }
  }

  lemma StartsMessage3(t: Script, s: Net)
    requires Says(t) && Ends(t) && t.b2.rx == [] && Linked(EarlyLink(t, t.a2, [], [], BN.ByteStart(true)))
    requires Bounded(s) && s.i == t.a2 && s.r == t.b2 && ToInitiator(s) == [] && s.rRead == |t.a1.sent|
    ensures Inv(t, s) && Message3(t, s)
  {
    assert ToResponder(s) == Framed(t.m3);
    InMessage3(t, s, [], [], BN.ByteStart(true));
  }

  lemma InitiatorHears3(t: Script, s: Net, n: nat)
    requires Plays(t) && Message2(t, s) && n <= |ToInitiator(s)|
    ensures Heard(t.a1, t.a2, Framed(t.m2), ToInitiator(s)[n..], OnReadable(s.i, ToInitiator(s)[..n], WouldBlock, t.gi))
  {
    HearsFrame(t.a1, s.i, t.m2, ToInitiator(s), n, t.gi, t.a2);
  }

  // ---------- message 3 and what follows it ----------

  lemma MoreAfterMessage3(message: seq<Octet>, part: seq<Octet>, rest: seq<Octet>, wire: seq<Octet>)
    requires |message| <= T.MAX_FRAME && part + rest == Framed(message) + wire && T.PopFrame(part).Some?
    ensures var more := T.PopFrame(part).value.rest; part == Framed(message) + more && wire == more + rest
  {
    var p := T.PopFrame(part).value;
    T.PopIsStable(part, rest);
    PopFramed(message, wire);
    assert wire == p.rest + rest;
    Assoc(Framed(message), p.rest, rest);
    assert |part| == |Framed(message) + p.rest|;
    assert part == (part + rest)[..|part|];
  }

  lemma ResponderBecomes(t: Script, r: Conn, x: seq<Octet>, more: seq<Octet>)
    requires Plays(t) && r == t.b2.(rx := r.rx) && r.rx + x == Framed(t.m3) + more
    ensures var d := Drain(t.b3.(rx := more));
      var r' := OnReadable(r, x, WouldBlock, t.gr);
      r'.noise == d.c.noise && (d.error.None? ==> r' == d.c)
  {
    assert TakesMessage3(t, more);
    assert r.(rx := r.rx + x) == t.b2.(rx := Framed(t.m3) + more);
    ReadsOrFails(r, x, t.gr, Drain(t.b3.(rx := more)));
  }

  lemma ReadsOrFails(c: Conn, x: seq<Octet>, g: N.Generated, o: Outcome)
    requires IsActive(c) && Process(c.(rx := c.rx + x), g) == o
    ensures var c' := OnReadable(c, x, WouldBlock, g); c'.noise == o.c.noise && (o.error.None? ==> c' == o.c)
  {
    AbandonKeepsNoise(o.c);
  }

  /** The responder's side of the early link, with what came behind message 3. */
  function LateLink(t: Script, i: Conn, more: seq<Octet>, rest: seq<Octet>, outs: seq<seq<Byte>>, b: BN.ByteNet): Link {
    Link(t.b3.(rx := more), i.noise.send, i.noise.recv, rest, i.rx, outs, [], BN.ByteFlip(b), true)
  }

  lemma LateLinkHolds(t: Script, i: Conn, more: seq<Octet>, rest: seq<Octet>, outs: seq<seq<Byte>>, b: BN.ByteNet)
    requires Ends(t) && Linked(EarlyLink(t, i, more + rest, outs, b)) && b.far == BN.NewEnd(false)
    ensures Linked(LateLink(t, i, more, rest, outs, b))
  {
    FromFlipped(b, false);
    assert i.rx + [] == i.rx;
  }

  lemma DrainedPairJoins(t: Script, i: Conn, more: seq<Octet>, rest: seq<Octet>, outs: seq<seq<Byte>>, b: BN.ByteNet,
                         l': Link)
    requires Ends(t) && Linked(EarlyLink(t, i, more + rest, outs, b)) && b.far == BN.NewEnd(false)
      && T.PopFrame(i.rx).None?
    requires Linked(l') && Progress(LateLink(t, i, more, rest, outs, b), l') && T.PopFrame(l'.c.rx).None?
    ensures Joined(Pair(l'.c, i, rest, l'.c.sent[|t.b3.sent|..], l'.ins, l'.outs, l'.b, true))
  {
    var p := Pair(l'.c, i, rest, l'.c.sent[|t.b3.sent|..], l'.ins, l'.outs, l'.b, true);
    assert LinkOf(p) == l';
    assert l'.b.far == b.near;
  }

  /** The ready responder reads what came behind message 3. */
  lemma ResponderCatchesUp(t: Script, i: Conn, more: seq<Octet>, rest: seq<Octet>, outs: seq<seq<Byte>>,
                           b: BN.ByteNet) returns (p: Pair)
    requires Ends(t) && Linked(EarlyLink(t, i, more + rest, outs, b)) && b.far == BN.NewEnd(false)
      && T.PopFrame(i.rx).None?
    requires Drain(t.b3.(rx := more)).c.noise.send.nonce < U64_MAX
    ensures Joined(p) && p.far && p.peer == i && p.unread == rest
    ensures Drain(t.b3.(rx := more)) == Fine(p.me)
    ensures |t.b3.sent| <= |p.me.sent| && p.coming == p.me.sent[|t.b3.sent|..]
  {
    LateLinkHolds(t, i, more, rest, outs, b);
    var l' := DrainLinks(LateLink(t, i, more, rest, outs, b));
    DrainedPairJoins(t, i, more, rest, outs, b, l');
    p := Pair(l'.c, i, rest, l'.c.sent[|t.b3.sent|..], l'.ins, l'.outs, l'.b, true);
  }

  lemma SplitAtMessage3(t: Script, s: Net, n: nat, wire: seq<Octet>, b: BN.ByteNet)
    requires |t.m3| <= T.MAX_FRAME && n <= |ToResponder(s)| && Message3At(t, s, wire, b)
    requires T.PopFrame(s.r.rx + ToResponder(s)[..n]).Some?
    ensures var more := T.PopFrame(s.r.rx + ToResponder(s)[..n]).value.rest;
      s.r.rx + ToResponder(s)[..n] == Framed(t.m3) + more && wire == more + ToResponder(s)[n..]
  {
    Split(Framed(t.m3) + wire, s.r.rx, ToResponder(s), n);
    MoreAfterMessage3(t.m3, s.r.rx + ToResponder(s)[..n], ToResponder(s)[n..], wire);
  }

  /** What reading message 3 and `more` behind it makes of the responder. */
  predicate Joining(t: Script, more: seq<Octet>, r: Conn) {
    var d := Drain(t.b3.(rx := more));
    r.noise == d.c.noise && (d.error.None? ==> r == d.c)
  }

  lemma ResponderHasJoined(t: Script, s: Net, n: nat, more: seq<Octet>, outs: seq<seq<Byte>>, b: BN.ByteNet, r: Conn)
    requires Ends(t) && Says(t) && Bounded(s) && n <= |ToResponder(s)| && s.r.sent == t.b2.sent && ToInitiator(s) == []
    requires b.far == BN.NewEnd(false) && T.PopFrame(s.i.rx).None?
    requires Linked(EarlyLink(t, s.i, more + ToResponder(s)[n..], outs, b))
    requires Joining(t, more, r) && r.noise.send.nonce < U64_MAX
    ensures Bounded(ResponderHas(s, r, n)) && BothReady(ResponderHas(s, r, n))
  {
    var p := ResponderCatchesUp(t, s.i, more, ToResponder(s)[n..], outs, b);
    assert s.iRead == |t.b3.sent|;
    JoinsNet(s, n, r, p);
  }

  /** The responder takes message 3, becomes ready, and reads what came behind it. */
  lemma ResponderJoins(t: Script, s: Net, n: nat, wire: seq<Octet>, outs: seq<seq<Byte>>, b: BN.ByteNet, r: Conn)
    requires Plays(t) && Bounded(s) && n <= |ToResponder(s)|
    requires Message3At(t, s, wire, b) && Linked(EarlyLink(t, s.i, wire, outs, b))
    requires T.PopFrame(s.r.rx + ToResponder(s)[..n]).Some?
    requires r.noise.send.nonce < U64_MAX
    requires Joining(t, T.PopFrame(s.r.rx + ToResponder(s)[..n]).value.rest, r)
    ensures Bounded(ResponderHas(s, r, n)) && BothReady(ResponderHas(s, r, n))
  {
    SplitAtMessage3(t, s, n, wire, b);
    ResponderHasJoined(t, s, n, T.PopFrame(s.r.rx + ToResponder(s)[..n]).value.rest, outs, b, r);
  }

  lemma ResponderIsJoining(t: Script, s: Net, n: nat, wire: seq<Octet>, b: BN.ByteNet)
    requires Plays(t) && n <= |ToResponder(s)| && Message3At(t, s, wire, b)
    requires T.PopFrame(s.r.rx + ToResponder(s)[..n]).Some?
    ensures Joining(t, T.PopFrame(s.r.rx + ToResponder(s)[..n]).value.rest,
      OnReadable(s.r, ToResponder(s)[..n], WouldBlock, t.gr))
  {
    SplitAtMessage3(t, s, n, wire, b);
    ResponderBecomes(t, s.r, ToResponder(s)[..n], T.PopFrame(s.r.rx + ToResponder(s)[..n]).value.rest);
  }

  lemma JoinedIsReady(s: Net, p: Pair)
    requires Joined(p) && p == PairOf(s, p.ins, p.outs, p.b)
    ensures BothReady(s)
  {
  }

  lemma SeenFromResponder(s: Net, n: nat, r: Conn, p: Pair)
    requires Bounded(s) && n <= |ToResponder(s)| && p.far
    requires p.me == r && p.peer == s.i && p.unread == ToResponder(s)[n..]
    requires s.iRead <= |r.sent| && p.coming == r.sent[s.iRead..]
    ensures Bounded(ResponderHas(s, r, n))
    ensures Mirror(p) == PairOf(ResponderHas(s, r, n), p.outs, p.ins, BN.ByteFlip(p.b))
  {
    ReadMore(s.i.sent, s.rRead, n);
  }

  /** A pair seen from the responder is a state in which both are ready. */
  lemma JoinsNet(s: Net, n: nat, r: Conn, p: Pair)
    requires Bounded(s) && n <= |ToResponder(s)| && Joined(p) && p.far
    requires p.me == r && p.peer == s.i && p.unread == ToResponder(s)[n..]
    requires s.iRead <= |r.sent| && p.coming == r.sent[s.iRead..]
    ensures Bounded(ResponderHas(s, r, n)) && BothReady(ResponderHas(s, r, n))
  {
    MirrorJoined(p);
    SeenFromResponder(s, n, r, p);
    JoinedIsReady(ResponderHas(s, r, n), Mirror(p));
  }

  lemma JoinsNetI(s: Net, n: nat, i: Conn, p: Pair)
    requires Bounded(s) && n <= |ToInitiator(s)| && Joined(p) && !p.far
    requires p.me == i && p.peer == s.r && p.unread == ToInitiator(s)[n..]
    requires s.rRead <= |i.sent| && p.coming == i.sent[s.rRead..]
    ensures Bounded(InitiatorHas(s, i, n)) && BothReady(InitiatorHas(s, i, n))
  {
    ReadMore(s.r.sent, s.iRead, n);
    JoinedIsReady(InitiatorHas(s, i, n), p);
  }

  /** Message 3 is still incomplete. */
  lemma ResponderHearsPart(t: Script, s: Net, n: nat, wire: seq<Octet>, outs: seq<seq<Byte>>, b: BN.ByteNet)
    requires Bounded(s) && n <= |ToResponder(s)| && AwaitsFrame(t.b2)
    requires Message3At(t, s, wire, b) && Linked(EarlyLink(t, s.i, wire, outs, b))
    requires T.PopFrame(s.r.rx + ToResponder(s)[..n]).None?
    ensures Inv(t, ResponderHas(s, s.r.(rx := s.r.rx + ToResponder(s)[..n]), n))
    ensures OnReadable(s.r, ToResponder(s)[..n], WouldBlock, t.gr) == s.r.(rx := s.r.rx + ToResponder(s)[..n])
  {
    var x := ToResponder(s)[..n];
    FramePart(s.r, x, t.gr);
    PartIsHeard(t, s, n, wire, b);
    InMessage3(t, ResponderHas(s, s.r.(rx := s.r.rx + x), n), wire, outs, b);
  }

  lemma PartIsHeard(t: Script, s: Net, n: nat, wire: seq<Octet>, b: BN.ByteNet)
    requires Bounded(s) && n <= |ToResponder(s)| && Message3At(t, s, wire, b)
    requires T.PopFrame(s.r.rx + ToResponder(s)[..n]).None?
    ensures var s' := ResponderHas(s, s.r.(rx := s.r.rx + ToResponder(s)[..n]), n);
      Bounded(s') && Message3At(t, s', wire, b)
  {
    var s' := ResponderHas(s, s.r.(rx := s.r.rx + ToResponder(s)[..n]), n);
    assert s'.r.rx + ToResponder(s') == Framed(t.m3) + wire by {
      Split(Framed(t.m3) + wire, s.r.rx, ToResponder(s), n);
      ReadMore(s.i.sent, s.rRead, n);
    }
  }

  /** A ready initiator with nothing to read. */
  lemma NothingToRead(c: Conn, g: N.Generated)
    requires Flushed(c) && T.PopFrame(c.rx).None?
    ensures OnReadable(c, [], WouldBlock, g) == c
  {
    assert c.rx + [] == c.rx && c.(rx := c.rx) == c;
    RunningReads(c, [], g);
  }

  /** The initiator uses a stream before the responder is ready. */
  lemma InitiatorUsesEarly(t: Script, s: Net, a: Y.Action, wire: seq<Octet>, outs: seq<seq<Byte>>, b: BN.ByteNet)
    requires Bounded(s) && Message3At(t, s, wire, b) && Linked(EarlyLink(t, s.i, wire, outs, b))
    requires Modest(s.i, a) && Use(s.i, a).noise.send.nonce < U64_MAX
    ensures Inv(t, s.(i := Use(s.i, a)))
  {
    if a != Y.Receiving { UseNonce(s.i, a); }
    var l' := UseLinks(EarlyLink(t, s.i, wire, outs, b), a);
    UsedEarly(t, s, l', wire, outs, b);
    InMessage3(t, s.(i := l'.c), l'.wire, l'.outs, l'.b);
  }

  lemma SentSince(before: seq<Octet>, after: seq<Octet>, read: nat)
    requires read <= |before| && before <= after
    ensures before[read..] + after[|before|..] == after[read..]
  {
  }

  lemma SentBehind(t: Script, s: Net, i: Conn, wire: seq<Octet>)
    requires s.rRead <= |s.i.sent| && s.i.sent <= i.sent && s.r.rx + ToResponder(s) == Framed(t.m3) + wire
    ensures s.r.rx + ToResponder(s.(i := i)) == Framed(t.m3) + (wire + i.sent[|s.i.sent|..])
  {
    var added := i.sent[|s.i.sent|..];
    SentSince(s.i.sent, i.sent, s.rRead);
    Assoc(s.r.rx, ToResponder(s), added);
    Assoc(Framed(t.m3), wire, added);
  }

  lemma UsedEarly(t: Script, s: Net, l': Link, wire: seq<Octet>, outs: seq<seq<Byte>>, b: BN.ByteNet)
    requires Bounded(s) && Message3At(t, s, wire, b) && Linked(l')
    requires Progress(EarlyLink(t, s.i, wire, outs, b), l') && l'.c.rx == s.i.rx
    ensures Bounded(s.(i := l'.c)) && Message3At(t, s.(i := l'.c), l'.wire, l'.b)
    ensures Linked(EarlyLink(t, l'.c, l'.wire, l'.outs, l'.b))
  {
    SentBehind(t, s, l'.c, wire);
    InsStayEmpty(l');
    assert EarlyLink(t, l'.c, l'.wire, l'.outs, l'.b) == l'.(ins := []);
  }

  /** With nothing under way to an end there are no batches for it. */
  lemma InsStayEmpty(l: Link)
    requires Linked(l) && l.unread == [] && T.PopFrame(l.c.rx).None?
    ensures l.ins == []
  {
    assert l.c.rx + [] == l.c.rx;
    PipeDrained(l.peerSend, l.c.noise.recv, l.c.rx, l.ins);
  }

  // ---------- both ready ----------

  lemma PairInitiatorGets(s: Net, n: nat, g: N.Generated, p: Pair, i: Conn)
    requires Bounded(s) && Joined(p) && p == PairOf(s, p.ins, p.outs, p.b) && n <= |ToInitiator(s)|
    requires i == OnReadable(s.i, ToInitiator(s)[..n], WouldBlock, g) && i.noise.send.nonce < U64_MAX
    ensures Bounded(InitiatorHas(s, i, n)) && BothReady(InitiatorHas(s, i, n))
  {
    var x, rest := ToInitiator(s)[..n], ToInitiator(s)[n..];
    assert ToInitiator(s) == x + rest;
    var p' := PairGets(p, x, rest, g);
    InitiatorRejoins(s, n, i, p');
  }

  lemma InitiatorRejoins(s: Net, n: nat, i: Conn, p: Pair)
    requires Bounded(s) && n <= |ToInitiator(s)| && Joined(p) && !p.far
    requires p.me == i && p.peer == s.r && p.unread == ToInitiator(s)[n..]
    requires s.i.sent <= i.sent && p.coming == ToResponder(s) + i.sent[|s.i.sent|..]
    ensures Bounded(InitiatorHas(s, i, n)) && BothReady(InitiatorHas(s, i, n))
  {
    SentSince(s.i.sent, i.sent, s.rRead);
    JoinsNetI(s, n, i, p);
  }

  lemma ReadyInitiatorGets(s: Net, n: nat, g: N.Generated, i: Conn)
    requires Bounded(s) && BothReady(s) && n <= |ToInitiator(s)|
    requires i == OnReadable(s.i, ToInitiator(s)[..n], WouldBlock, g) && i.noise.send.nonce < U64_MAX
    ensures Bounded(InitiatorHas(s, i, n)) && BothReady(InitiatorHas(s, i, n))
  {
    var ins, outs, b :| Joined(PairOf(s, ins, outs, b));
    PairInitiatorGets(s, n, g, PairOf(s, ins, outs, b), i);
  }

  /** The pair seen from the responder: what is under way to it, and what it has sent. */
  lemma MirroredPair(s: Net, p: Pair)
    requires p == PairOf(s, p.ins, p.outs, p.b)
    ensures var q := Mirror(p);
      q.me == s.r && q.peer == s.i && q.far && q.unread == ToResponder(s) && q.coming == ToInitiator(s)
  {
  }

  lemma PairResponderGets(s: Net, n: nat, g: N.Generated, q: Pair, r: Conn)
    requires Bounded(s) && Joined(q) && n <= |ToResponder(s)|
    requires q.me == s.r && q.peer == s.i && q.far && q.unread == ToResponder(s) && q.coming == ToInitiator(s)
    requires r == OnReadable(s.r, ToResponder(s)[..n], WouldBlock, g) && r.noise.send.nonce < U64_MAX
    ensures Bounded(ResponderHas(s, r, n)) && BothReady(ResponderHas(s, r, n))
  {
    var x, rest := ToResponder(s)[..n], ToResponder(s)[n..];
    assert ToResponder(s) == x + rest;
    var q' := PairGets(q, x, rest, g);
    ResponderRejoins(s, n, r, q');
  }

  lemma ResponderRejoins(s: Net, n: nat, r: Conn, q: Pair)
    requires Bounded(s) && n <= |ToResponder(s)| && Joined(q) && q.far
    requires q.me == r && q.peer == s.i && q.unread == ToResponder(s)[n..]
    requires s.r.sent <= r.sent && q.coming == ToInitiator(s) + r.sent[|s.r.sent|..]
    ensures Bounded(ResponderHas(s, r, n)) && BothReady(ResponderHas(s, r, n))
  {
    SentSince(s.r.sent, r.sent, s.iRead);
    JoinsNet(s, n, r, q);
  }

  lemma ReadyResponderGets(s: Net, n: nat, g: N.Generated, r: Conn)
    requires Bounded(s) && BothReady(s) && n <= |ToResponder(s)|
    requires r == OnReadable(s.r, ToResponder(s)[..n], WouldBlock, g) && r.noise.send.nonce < U64_MAX
    ensures Bounded(ResponderHas(s, r, n)) && BothReady(ResponderHas(s, r, n))
  {
    var ins, outs, b :| Joined(PairOf(s, ins, outs, b));
    var p := PairOf(s, ins, outs, b);
    MirrorJoined(p);
    MirroredPair(s, p);
    PairResponderGets(s, n, g, Mirror(p), r);
  }

  lemma ReadyInitiatorUses(s: Net, a: Y.Action)
    requires Bounded(s) && BothReady(s) && Modest(s.i, a) && Use(s.i, a).noise.send.nonce < U64_MAX
    ensures Bounded(s.(i := Use(s.i, a))) && BothReady(s.(i := Use(s.i, a)))
  {
    var ins, outs, b :| Joined(PairOf(s, ins, outs, b));
    var p := PairUses(PairOf(s, ins, outs, b), a);
    SentSince(s.i.sent, p.me.sent, s.rRead);
    JoinsNetI(s, 0, p.me, p);
    assert InitiatorHas(s, p.me, 0) == s.(i := p.me);
  }

  lemma ReadyResponderUses(s: Net, a: Y.Action)
    requires Bounded(s) && BothReady(s) && Modest(s.r, a) && Use(s.r, a).noise.send.nonce < U64_MAX
    ensures Bounded(s.(r := Use(s.r, a))) && BothReady(s.(r := Use(s.r, a)))
  {
    var ins, outs, b :| Joined(PairOf(s, ins, outs, b));
    MirrorJoined(PairOf(s, ins, outs, b));
    var p := PairUses(Mirror(PairOf(s, ins, outs, b)), a);
    SentSince(s.r.sent, p.me.sent, s.iRead);
    JoinsNet(s, 0, p.me, p);
    assert ResponderHas(s, p.me, 0) == s.(r := p.me);
  }

  // ---------- every move ----------

  predicate Unspent(s: Net) { s.i.noise.send.nonce < U64_MAX && s.r.noise.send.nonce < U64_MAX }

  predicate ModestMove(s: Net, m: Move) {
    (m.InitiatorUses? ==> Modest(s.i, m.action)) && (m.ResponderUses? ==> Modest(s.r, m.action))
  }

  lemma InitiatorHasNothing(t: Script, s: Net, n: nat)
    requires Message3(t, s) && n <= |ToInitiator(s)|
    ensures InitiatorReads(t.gi, s, n) == s
  {
    var wire, outs, b :| Message3At(t, s, wire, b) && Linked(EarlyLink(t, s.i, wire, outs, b));
    NothingToRead(s.i, t.gi);
    assert ToInitiator(s)[..n] == [] && InitiatorHas(s, s.i, 0) == s;
  }

  lemma InitiatorGetsKeeps(t: Script, s: Net, n: nat)
    requires Plays(t) && Inv(t, s) && n <= |ToInitiator(s)|
    requires InitiatorReads(t.gi, s, n).i.noise.send.nonce < U64_MAX
    ensures Inv(t, InitiatorReads(t.gi, s, n))
  {
    if Upgrading(t, s) {
      InitiatorGetsUpgrading(t, s, n);
    } else if Message3(t, s) {
      InitiatorHasNothing(t, s, n);
    } else {
      ReadyInitiatorGets(s, n, t.gi, InitiatorReads(t.gi, s, n).i);
    }
  }

  lemma InitiatorGetsUpgrading(t: Script, s: Net, n: nat)
    requires Plays(t) && Bounded(s) && Upgrading(t, s) && n <= |ToInitiator(s)|
    ensures Inv(t, InitiatorHas(s, OnReadable(s.i, ToInitiator(s)[..n], WouldBlock, t.gi), n))
  {
    if Greeting1(t, s) {
      InitiatorHears1(t, s, n);
      After1(t, s, n, OnReadable(s.i, ToInitiator(s)[..n], WouldBlock, t.gi));
      UpgradingIsInv(t, InitiatorHas(s, OnReadable(s.i, ToInitiator(s)[..n], WouldBlock, t.gi), n));
    } else if Message2(t, s) {
      InitiatorHears3(t, s, n);
      After3(t, s, n, OnReadable(s.i, ToInitiator(s)[..n], WouldBlock, t.gi));
    } else {
      InitiatorOnlyWaits(t, s);
    }
  }

  lemma InitiatorOnlyWaits(t: Script, s: Net)
    requires Plays(t) && Bounded(s) && (Greeting0(t, s) || Message1(t, s))
    ensures InitiatorReads(t.gi, s, 0) == s && Inv(t, s) && ToInitiator(s) == []
  {
    NothingComes(s.i, t.gi);
    assert ToInitiator(s)[..0] == [] && InitiatorHas(s, s.i, 0) == s;
    UpgradingIsInv(t, s);
  }

  lemma ResponderGetsUpgrading(t: Script, s: Net, n: nat)
    requires Plays(t) && Bounded(s) && Upgrading(t, s) && n <= |ToResponder(s)|
    ensures Inv(t, ResponderHas(s, OnReadable(s.r, ToResponder(s)[..n], WouldBlock, t.gr), n))
  {
    if Greeting0(t, s) {
      ResponderHears0(t, s, n);
      After0(t, s, n, OnReadable(s.r, ToResponder(s)[..n], WouldBlock, t.gr));
      UpgradingIsInv(t, ResponderHas(s, OnReadable(s.r, ToResponder(s)[..n], WouldBlock, t.gr), n));
    } else if Message1(t, s) {
      ResponderHears2(t, s, n);
      After2(t, s, n, OnReadable(s.r, ToResponder(s)[..n], WouldBlock, t.gr));
      UpgradingIsInv(t, ResponderHas(s, OnReadable(s.r, ToResponder(s)[..n], WouldBlock, t.gr), n));
    } else {
      ResponderOnlyWaits(t, s);
    }
  }

  lemma ResponderOnlyWaits(t: Script, s: Net)
    requires Plays(t) && Bounded(s) && (Greeting1(t, s) || Message2(t, s))
    ensures ResponderReads(t.gr, s, 0) == s && Inv(t, s) && ToResponder(s) == []
  {
    NothingComes(s.r, t.gr);
    assert ToResponder(s)[..0] == [] && ResponderHas(s, s.r, 0) == s;
    UpgradingIsInv(t, s);
  }

  lemma ResponderGetsMessage3(t: Script, s: Net, n: nat)
    requires Plays(t) && Bounded(s) && Message3(t, s) && n <= |ToResponder(s)|
    requires OnReadable(s.r, ToResponder(s)[..n], WouldBlock, t.gr).noise.send.nonce < U64_MAX
    ensures Inv(t, ResponderHas(s, OnReadable(s.r, ToResponder(s)[..n], WouldBlock, t.gr), n))
  {
    var wire, outs, b :| Message3At(t, s, wire, b) && Linked(EarlyLink(t, s.i, wire, outs, b));
    if T.PopFrame(s.r.rx + ToResponder(s)[..n]).None? {
      ResponderHearsPart(t, s, n, wire, outs, b);
    } else {
      ResponderIsJoining(t, s, n, wire, b);
      ResponderJoins(t, s, n, wire, outs, b, OnReadable(s.r, ToResponder(s)[..n], WouldBlock, t.gr));
    }
  }

  lemma ResponderGetsKeeps(t: Script, s: Net, n: nat)
    requires Plays(t) && Inv(t, s) && n <= |ToResponder(s)|
    requires ResponderReads(t.gr, s, n).r.noise.send.nonce < U64_MAX
    ensures Inv(t, ResponderReads(t.gr, s, n))
  {
    if Upgrading(t, s) {
      ResponderGetsUpgrading(t, s, n);
    } else if Message3(t, s) {
      ResponderGetsMessage3(t, s, n);
    } else {
      ReadyResponderGets(s, n, t.gr, ResponderReads(t.gr, s, n).r);
    }
  }

  lemma NotReadyNotUsed(c: Conn, a: Y.Action)
    requires c.state != Ready
    ensures Use(c, a) == c
  {
  }

  lemma UpgradingIsNotReady(t: Script, s: Net)
    requires Waits(t)
    ensures Upgrading(t, s) ==> s.i.state != Ready
    ensures Upgrading(t, s) || Message3(t, s) ==> s.r.state != Ready
  {
  }

  lemma InitiatorUsesKeeps(t: Script, s: Net, a: Y.Action)
    requires Plays(t) && Inv(t, s) && Modest(s.i, a) && Use(s.i, a).noise.send.nonce < U64_MAX
    ensures Inv(t, s.(i := Use(s.i, a)))
  {
    UpgradingIsNotReady(t, s);
    if s.i.state != Ready {
      NotReadyNotUsed(s.i, a);
      assert s.(i := s.i) == s;
    } else if Message3(t, s) {
      var wire, outs, b :| Message3At(t, s, wire, b) && Linked(EarlyLink(t, s.i, wire, outs, b));
      InitiatorUsesEarly(t, s, a, wire, outs, b);
    } else {
      ReadyInitiatorUses(s, a);
    }
  }

  lemma ResponderUsesKeeps(t: Script, s: Net, a: Y.Action)
    requires Plays(t) && Inv(t, s) && Modest(s.r, a) && Use(s.r, a).noise.send.nonce < U64_MAX
    ensures Inv(t, s.(r := Use(s.r, a)))
  {
    UpgradingIsNotReady(t, s);
    if s.r.state != Ready {
      NotReadyNotUsed(s.r, a);
      assert s.(r := s.r) == s;
    } else {
      ReadyResponderUses(s, a);
    }
  }

  /** How many octets a move delivers. */
  function CountOf(s: Net, m: Move): nat {
    match m
    case InitiatorGets(count) => Min(count, |ToInitiator(s)|)
    case ResponderGets(count) => Min(count, |ToResponder(s)|)
    case _ => 0
  }

  /** What a move of each kind makes of the state. */
  lemma AppliedReads(k: Config, s: Net, m: Move, n: nat)
    requires n == CountOf(s, m)
    ensures m.InitiatorGets? ==> n <= |ToInitiator(s)| && Apply(k, s, m) == InitiatorReads(k.gi, s, n)
    ensures m.ResponderGets? ==> n <= |ToResponder(s)| && Apply(k, s, m) == ResponderReads(k.gr, s, n)
  {
  }

  lemma AppliedUses(k: Config, s: Net, m: Move)
    ensures m.InitiatorUses? ==> Apply(k, s, m) == s.(i := Use(s.i, m.action))
    ensures m.ResponderUses? ==> Apply(k, s, m) == s.(r := Use(s.r, m.action))
  {
  }

  lemma GetKeeps(t: Script, s: Net, m: Move, n: nat, s': Net)
    requires Plays(t) && Inv(t, s) && Unspent(s')
    requires m.InitiatorGets? ==> n <= |ToInitiator(s)| && s' == InitiatorReads(t.gi, s, n)
    requires m.ResponderGets? ==> n <= |ToResponder(s)| && s' == ResponderReads(t.gr, s, n)
    ensures m.InitiatorGets? || m.ResponderGets? ==> Inv(t, s')
  {
    if m.InitiatorGets? {
      InitiatorGetsKeeps(t, s, n);
    } else if m.ResponderGets? {
      ResponderGetsKeeps(t, s, n);
    }
  }

  lemma UseKeeps(t: Script, s: Net, m: Move, s': Net)
    requires Plays(t) && Inv(t, s) && Unspent(s') && ModestMove(s, m)
    requires m.InitiatorUses? ==> s' == s.(i := Use(s.i, m.action))
    requires m.ResponderUses? ==> s' == s.(r := Use(s.r, m.action))
    ensures m.InitiatorUses? || m.ResponderUses? ==> Inv(t, s')
  {
    if m.InitiatorUses? {
      InitiatorUsesKeeps(t, s, m.action);
    } else if m.ResponderUses? {
      ResponderUsesKeeps(t, s, m.action);
    }
  }

  lemma ApplyKeeps(k: Config, t: Script, s: Net, m: Move)
    requires Plays(t) && t.gi == k.gi && t.gr == k.gr && Inv(t, s) && ModestMove(s, m) && Unspent(Apply(k, s, m))
    ensures Inv(t, Apply(k, s, m))
  {
    AppliedReads(k, s, m, CountOf(s, m));
    AppliedUses(k, s, m);
    GetKeeps(t, s, m, CountOf(s, m), Apply(k, s, m));
    UseKeeps(t, s, m, Apply(k, s, m));
  }
}
