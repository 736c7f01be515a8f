/**
 * From every state that can be reached, deliveries alone complete the upgrade: no state is stuck, and nothing that
 * the applications did in the meantime stands in the way.
 */
module StackProgress {
  import opened Bytes
  import opened Octets
  import opened Connection
  import opened SecureLink
  import opened SecurePair
  import opened StackHandshake
  import opened Stack
  import opened StackTheorems
  import BN = YamuxByteNet
  import F = YamuxFrame
  import N = Noise
  import R = YamuxReplies
  import T = Transport

  /** Turn by turn, everything under way to one side is delivered; the responder has the first turn. */
  function TurnMove(s: Net, turn: nat): Move {
    if turn % 2 == 0 then DeliverToResponder(s) else DeliverToInitiator(s)
  }

  /** The moves of a run, continued by so many turns. */
  function Continued(k: Config, moves: seq<Move>, turns: nat): seq<Move> {
    if turns == 0 then moves
    else
      var before := Continued(k, moves, turns - 1);
      before + [TurnMove(Run(k, before), turns - 1)]
  }

  // ---------- what a turn does in each phase ----------

  datatype Phase = ToGreet | ToAnswer | ToSend1 | ToSend2 | ToSend3 | Done

  ghost predicate InPhase(t: Script, s: Net, p: Phase) {
    match p
    case ToGreet => Greeting0(t, s)
    case ToAnswer => Greeting1(t, s)
    case ToSend1 => Message1(t, s)
    case ToSend2 => Message2(t, s)
    case ToSend3 => Message3(t, s)
    case Done => BothReady(s)
  }

  lemma SomePhase(t: Script, s: Net) returns (p: Phase)
    requires Inv(t, s)
    ensures InPhase(t, s, p)
  {
    p := if Greeting0(t, s) then ToGreet else if Greeting1(t, s) then ToAnswer else if Message1(t, s) then ToSend1
         else if Message2(t, s) then ToSend2 else if Message3(t, s) then ToSend3 else Done;
  }

  /** The phase after the responder, or the initiator, has got everything under way to it. */
  function NextPhase(p: Phase, toResponder: bool): Phase {
    match p
    case ToGreet => if toResponder then ToAnswer else ToGreet
    case ToAnswer => if toResponder then ToAnswer else ToSend1
    case ToSend1 => if toResponder then ToSend2 else ToSend1
    case ToSend2 => if toResponder then ToSend2 else ToSend3
    case ToSend3 => if toResponder then Done else ToSend3
    case Done => Done
  }

  function PhaseAfter(p: Phase, turns: nat): Phase {
    if turns == 0 then p else NextPhase(PhaseAfter(p, turns - 1), (turns - 1) % 2 == 0)
  }

  /** Wherever the upgrade stands, five turns are enough. */
  lemma FiveTurnsSuffice(p: Phase)
    ensures PhaseAfter(p, 5) == Done
  {
  }

  lemma GreetingArrives(t: Script, s: Net)
    requires Plays(t) && Bounded(s) && Greeting0(t, s)
    ensures var s' := ResponderReads(t.gr, s, |ToResponder(s)|); Bounded(s') && Greeting1(t, s')
  {
    var n := |ToResponder(s)|;
    ResponderHears0(t, s, n);
    After0(t, s, n, OnReadable(s.r, ToResponder(s)[..n], WouldBlock, t.gr));
  }

  lemma AnswerArrives(t: Script, s: Net)
    requires Plays(t) && Bounded(s) && Greeting1(t, s)
    ensures var s' := InitiatorReads(t.gi, s, |ToInitiator(s)|); Bounded(s') && Message1(t, s')
  {
    var n := |ToInitiator(s)|;
    InitiatorHears1(t, s, n);
    After1(t, s, n, OnReadable(s.i, ToInitiator(s)[..n], WouldBlock, t.gi));
  }

  lemma Message1Arrives(t: Script, s: Net)
    requires Plays(t) && Bounded(s) && Message1(t, s)
    ensures var s' := ResponderReads(t.gr, s, |ToResponder(s)|); Bounded(s') && Message2(t, s')
  {
    var n := |ToResponder(s)|;
    ResponderHears2(t, s, n);
    After2(t, s, n, OnReadable(s.r, ToResponder(s)[..n], WouldBlock, t.gr));
  }

  lemma Message2Arrives(t: Script, s: Net)
    requires Plays(t) && Bounded(s) && Message2(t, s)
    ensures var s' := InitiatorReads(t.gi, s, |ToInitiator(s)|); Bounded(s') && Message3(t, s')
  {
    var n := |ToInitiator(s)|;
    InitiatorHears3(t, s, n);
    After3(t, s, n, OnReadable(s.i, ToInitiator(s)[..n], WouldBlock, t.gi));
  }

  /** With all of it there, message 3 can be popped. */
  lemma Message3IsWhole(t: Script, s: Net, wire: seq<Octet>, b: BN.ByteNet)
    requires Waits(t) && Message3At(t, s, wire, b)
    ensures T.PopFrame(s.r.rx + ToResponder(s)[..|ToResponder(s)|]).Some?
  {
    assert ToResponder(s)[..|ToResponder(s)|] == ToResponder(s);
    PopFramed(t.m3, wire);
  }

  lemma Message3Arrives(t: Script, s: Net, r: Conn)
    requires Plays(t) && Bounded(s) && Message3(t, s) && r.noise.send.nonce < U64_MAX
    requires r == OnReadable(s.r, ToResponder(s)[..|ToResponder(s)|], WouldBlock, t.gr)
    ensures var s' := ResponderHas(s, r, |ToResponder(s)|); Bounded(s') && BothReady(s')
  {
    var wire, outs, b :| Message3At(t, s, wire, b) && Linked(EarlyLink(t, s.i, wire, outs, b));
    Message3IsWhole(t, s, wire, b);
    ResponderIsJoining(t, s, |ToResponder(s)|, wire, b);
    ResponderJoins(t, s, |ToResponder(s)|, wire, outs, b, r);
  }

  /** The state is in a phase, and nobody has got more than was sent. */
  ghost predicate Stands(t: Script, s: Net, p: Phase) { Bounded(s) && InPhase(t, s, p) }

  lemma ResponderUpgrades(t: Script, s: Net, s': Net, p: Phase)
    requires Plays(t) && Stands(t, s, p) && p != ToSend3 && p != Done
    requires s' == ResponderReads(t.gr, s, |ToResponder(s)|)
    ensures Stands(t, s', NextPhase(p, true))
  {
    match p {
      case ToGreet => GreetingArrives(t, s);
      case ToSend1 => Message1Arrives(t, s);
      case _ => ResponderOnlyWaits(t, s);
    }
  }

  lemma InitiatorUpgrades(t: Script, s: Net, s': Net, p: Phase)
    requires Plays(t) && Stands(t, s, p) && p != ToSend3 && p != Done
    requires s' == InitiatorReads(t.gi, s, |ToInitiator(s)|)
    ensures Stands(t, s', NextPhase(p, false))
  {
    match p {
      case ToAnswer => AnswerArrives(t, s);
      case ToSend2 => Message2Arrives(t, s);
      case _ => InitiatorOnlyWaits(t, s);
    }
  }

  lemma ResponderBecomesReady(t: Script, s: Net, s': Net, p: Phase)
    requires Plays(t) && Stands(t, s, p) && (p == ToSend3 || p == Done)
    requires s' == ResponderReads(t.gr, s, |ToResponder(s)|) && s'.r.noise.send.nonce < U64_MAX
    ensures Stands(t, s', NextPhase(p, true))
  {
    match p {
      case ToSend3 => Message3Arrives(t, s, s'.r);
      case Done => ReadyResponderGets(s, |ToResponder(s)|, t.gr, s'.r);
    }
  }

  lemma InitiatorStaysReady(t: Script, s: Net, s': Net, p: Phase)
    requires Plays(t) && Stands(t, s, p) && (p == ToSend3 || p == Done)
    requires s' == InitiatorReads(t.gi, s, |ToInitiator(s)|) && s'.i.noise.send.nonce < U64_MAX
    ensures Stands(t, s', NextPhase(p, false))
  {
    match p {
      case ToSend3 => InitiatorHasNothing(t, s, |ToInitiator(s)|);
      case Done => ReadyInitiatorGets(s, |ToInitiator(s)|, t.gi, s'.i);
    }
  }

  lemma TurnOfResponder(t: Script, s: Net, s': Net, p: Phase, q: Phase)
    requires Plays(t) && Stands(t, s, p) && q == NextPhase(p, true)
    requires s' == ResponderReads(t.gr, s, |ToResponder(s)|) && s'.r.noise.send.nonce < U64_MAX
    ensures Stands(t, s', q)
  {
    if p == ToSend3 || p == Done { ResponderBecomesReady(t, s, s', p); } else { ResponderUpgrades(t, s, s', p); }
  }

  lemma TurnOfInitiator(t: Script, s: Net, s': Net, p: Phase, q: Phase)
    requires Plays(t) && Stands(t, s, p) && q == NextPhase(p, false)
    requires s' == InitiatorReads(t.gi, s, |ToInitiator(s)|) && s'.i.noise.send.nonce < U64_MAX
    ensures Stands(t, s', q)
  {
    if p == ToSend3 || p == Done { InitiatorStaysReady(t, s, s', p); } else { InitiatorUpgrades(t, s, s', p); }
  }

  // ---------- five turns ----------

  lemma SteadyIsUnspent(k: Config, moves: seq<Move>)
    requires Steady(k, moves)
    ensures Unspent(Run(k, moves))
  {
  }

  lemma OneTurnLess(k: Config, moves: seq<Move>, turns: nat)
    requires Steady(k, Continued(k, moves, turns + 1))
    ensures Steady(k, Continued(k, moves, turns))
  {
    var before := Continued(k, moves, turns);
    RunSnoc(k, before, TurnMove(Run(k, before), turns));
  }

  /** The state after so many turns. */
  function After(k: Config, moves: seq<Move>, turns: nat): Net { Run(k, Continued(k, moves, turns)) }

  lemma TurnIsApplied(k: Config, moves: seq<Move>, turn: nat)
    ensures After(k, moves, turn + 1) == Apply(k, After(k, moves, turn), TurnMove(After(k, moves, turn), turn))
  {
    var before := Continued(k, moves, turn);
    RunSnoc(k, before, TurnMove(Run(k, before), turn));
  }

  lemma TurnReads(k: Config, s: Net, s': Net, turn: nat)
    requires s' == Apply(k, s, TurnMove(s, turn))
    ensures turn % 2 == 0 ==> s' == ResponderReads(k.gr, s, |ToResponder(s)|)
    ensures turn % 2 != 0 ==> s' == InitiatorReads(k.gi, s, |ToInitiator(s)|)
  {
  }

  lemma TurnTaken(t: Script, s: Net, s': Net, p: Phase, q: Phase, even: bool)
    requires Plays(t) && Stands(t, s, p) && q == NextPhase(p, even)
    requires s'.i.noise.send.nonce < U64_MAX && s'.r.noise.send.nonce < U64_MAX
    requires even ==> s' == ResponderReads(t.gr, s, |ToResponder(s)|)
    requires !even ==> s' == InitiatorReads(t.gi, s, |ToInitiator(s)|)
    ensures Stands(t, s', q)
  {
    if even {
      TurnOfResponder(t, s, s', p, q);
    } else {
      TurnOfInitiator(t, s, s', p, q);
    }
  }

  lemma NextTurn(k: Config, t: Script, moves: seq<Move>, turn: nat, p: Phase, q: Phase)
    requires Plays(t) && t.gi == k.gi && t.gr == k.gr && q == NextPhase(p, turn % 2 == 0)
    requires Stands(t, After(k, moves, turn), p) && Unspent(After(k, moves, turn + 1))
    ensures Stands(t, After(k, moves, turn + 1), q)
  {
    var s, s' := After(k, moves, turn), After(k, moves, turn + 1);
    TurnIsApplied(k, moves, turn);
    TurnReads(k, s, s', turn);
    TurnTaken(t, s, s', p, q, turn % 2 == 0);
  }

  lemma {:induction false} TurnsAdvance(k: Config, t: Script, moves: seq<Move>, turns: nat, p: Phase)
    requires PlayedBy(k, t) && Stands(t, Run(k, moves), p) && Steady(k, Continued(k, moves, turns))
    ensures Stands(t, After(k, moves, turns), PhaseAfter(p, turns))
  {
    if turns == 0 {
    } else {
      var before := turns - 1;
      OneTurnLess(k, moves, before);
      TurnsAdvance(k, t, moves, before, p);
      SteadyIsUnspent(k, Continued(k, moves, turns));
      NextTurn(k, t, moves, before, PhaseAfter(p, before), PhaseAfter(p, turns));
    }
  }

  // ---------- the two turns that drain both directions ----------

  lemma QuietIsTaken(c: Conn, f: F.Frame)
    requires Flushed(c) && F.WellFormed(f) && R.Quiet(f) && c.yamux.value.recvBuf == F.Encode(f)
    ensures var c' := PumpYamux(c);
      && Flushed(c') && c'.sent == c.sent && c'.noise == c.noise && c'.yamux.value.recvBuf == []
  {
    var e := c.yamux.value;
    assert F.Encode(f) + [] == F.Encode(f);
    F.ParseInvertsWrite(f, []);
    R.QuietAddsNothing(e.(recvBuf := []), f);
    assert HandleFrame(c).yamux.value == Handled(e);
  }

  lemma HushedIsTaken(c: Conn, batch: seq<Byte>)
    requires Flushed(c) && c.yamux.value.recvBuf == [] && R.QuietBatch(batch)
    ensures var c' := HandOn(c, Lits(batch));
      && Flushed(c') && c'.sent == c.sent && c'.noise == c.noise && c'.yamux.value.recvBuf == []
  {
    var f :| F.WellFormed(f) && R.Quiet(f) && batch == F.Encode(f);
    HandOnBytes(c, batch);
    assert [] + batch == batch;
    QuietIsTaken(c.(yamux := Some(c.yamux.value.(recvBuf := batch))), f);
  }

  /** Receiving what is not answered sends nothing. */
  lemma {:induction false} DrainHushed(c: Conn, tx: N.Cipher, batches: seq<seq<Byte>>)
    requires Flushed(c) && c.yamux.value.recvBuf == [] && Pipe(tx, c.noise.recv, c.rx, batches) && Hushed(batches)
    ensures Drain(c).c.sent == c.sent
    decreases |batches|
  {
    if batches == [] {
      assert T.FrameList(tx.key, c.noise.recv.nonce, LitsEach([])) == [];
      assert c.rx == [];
    } else {
      FirstBatchPops(tx, c.noise.recv, c.rx, batches);
      assert c.rx + [] == c.rx;
      PipeReceive(tx, c.noise.recv, c.rx, [], batches);
      var p := T.PopFrame(c.rx).value;
      var plain := T.Decrypt(c.noise.recv, p.message).value;
      var c1 := c.(rx := p.rest, noise := c.noise.(recv := plain.next));
      assert p.rest + [] == p.rest;
      HushedIsTaken(c1, batches[0]);
      DrainHushed(HandOn(c1, Lits(batches[0])), tx, batches[1..]);
    }
  }

  /**
   * Nothing is under way to the initiator, and only what it sent in answer, which is not answered, to the
   * responder.
   */
  ghost predicate OnlyReplies(s: Net) {
    Bounded(s) && ToInitiator(s) == []
      && exists ins, outs, b :: Joined(PairOf(s, ins, outs, b)) && Hushed(outs) && b.far.recvBuf == []
  }

  lemma NothingHeld(b: BN.ByteNet)
    requires From(b, false) && b.near.sendBuf == [] && b.out == []
    ensures b.far.recvBuf == []
  {
    var moves :| b == BN.ByteRun(BN.ByteStart(true), moves);
    R.AlwaysInFrames(true, moves);
    R.DrainedBufferIsEmpty(b);
  }

  /** With nothing under way to the responder, it has no batch to come and holds no part of a frame. */
  lemma ResponderIsDrained(s: Net, p: Pair)
    requires Joined(p) && p == PairOf(s, p.ins, p.outs, p.b) && ToResponder(s) == []
    ensures p.outs == [] && p.b.far.recvBuf == []
  {
    assert s.r.rx + [] == s.r.rx;
    PipeDrained(s.i.noise.send, s.r.noise.recv, s.r.rx, p.outs);
    NothingHeld(p.b);
  }

  lemma PairThen(s: Net, n: nat, i: Conn, p: Pair)
    requires Bounded(s) && n == |ToInitiator(s)| && Joined(p) && !p.far && p.me == i && p.peer == s.r && p.unread == []
    requires s.i.sent <= i.sent && p.coming == ToResponder(s) + i.sent[|s.i.sent|..]
    ensures var s' := InitiatorHas(s, i, n);
      Bounded(s') && ToInitiator(s') == [] && p == PairOf(s', p.ins, p.outs, p.b)
  {
    SentSince(s.i.sent, i.sent, s.rRead);
    ReadMore(s.r.sent, s.iRead, n);
  }

  lemma InitiatorReplies(s: Net, p: Pair, g: N.Generated, i: Conn)
    requires Bounded(s) && Joined(p) && p == PairOf(s, p.ins, p.outs, p.b) && ToResponder(s) == []
    requires i == OnReadable(s.i, ToInitiator(s), WouldBlock, g) && i.noise.send.nonce < U64_MAX
    ensures OnlyReplies(InitiatorHas(s, i, |ToInitiator(s)|))
  {
    ResponderIsDrained(s, p);
    assert ToInitiator(s) == ToInitiator(s) + [];
    var p' := PairGets(p, ToInitiator(s), [], g);
    assert p'.outs[0..] == p'.outs;
    PairThen(s, |ToInitiator(s)|, i, p');
    assert Joined(PairOf(InitiatorHas(s, i, |ToInitiator(s)|), p'.ins, p'.outs, p'.b));
  }

  lemma HushedPair(q: Pair, g: N.Generated)
    requires Joined(q) && Hushed(q.ins) && q.me.yamux.value.recvBuf == []
    requires OnReadable(q.me, q.unread, WouldBlock, g).noise.send.nonce < U64_MAX
    ensures OnReadable(q.me, q.unread, WouldBlock, g).sent == q.me.sent
  {
    var c := q.me.(rx := q.me.rx + q.unread);
    DrainHushed(c, q.peer.noise.send, q.ins);
    ReadableNoise(q.me, q.unread, g);
    var _ := DrainLinks(LinkOf(q).(c := c, unread := []));
    RunningReads(q.me, q.unread, g);
  }

  /** What is not answered leaves nothing under way once it has been received. */
  lemma ResponderIsSilent(s: Net, g: N.Generated, r: Conn)
    requires OnlyReplies(s) && r == OnReadable(s.r, ToResponder(s), WouldBlock, g) && r.noise.send.nonce < U64_MAX
    ensures r.sent == s.r.sent
  {
    var ins, outs, b :| Joined(PairOf(s, ins, outs, b)) && Hushed(outs) && b.far.recvBuf == [];
    var p := PairOf(s, ins, outs, b);
    MirrorJoined(p);
    MirroredPair(s, p);
    HushedPair(Mirror(p), g);
  }

  lemma AllIsRead(s: Net, r: Conn)
    requires Bounded(s) && ToInitiator(s) == [] && r.sent == s.r.sent
    ensures var s' := ResponderHas(s, r, |ToResponder(s)|); ToInitiator(s') == [] && ToResponder(s') == []
  {
  }

  lemma SixthTurn(k: Config, s: Net, s': Net)
    requires Bounded(s) && BothReady(s) && ToResponder(s) == []
    requires s' == InitiatorReads(k.gi, s, |ToInitiator(s)|) && s'.i.noise.send.nonce < U64_MAX
    ensures OnlyReplies(s')
  {
    AllToInitiator(k, s, s');
    ReadyReplies(s, k.gi, s'.i);
  }

  lemma AllToInitiator(k: Config, s: Net, s': Net)
    requires s' == InitiatorReads(k.gi, s, |ToInitiator(s)|)
    ensures s'.i == OnReadable(s.i, ToInitiator(s), WouldBlock, k.gi) && s' == InitiatorHas(s, s'.i, |ToInitiator(s)|)
  {
    assert ToInitiator(s)[..|ToInitiator(s)|] == ToInitiator(s);
  }

  lemma ReadyReplies(s: Net, g: N.Generated, i: Conn)
    requires Bounded(s) && BothReady(s) && ToResponder(s) == []
    requires i == OnReadable(s.i, ToInitiator(s), WouldBlock, g) && i.noise.send.nonce < U64_MAX
    ensures OnlyReplies(InitiatorHas(s, i, |ToInitiator(s)|))
  {
    var ins, outs, b :| Joined(PairOf(s, ins, outs, b));
    InitiatorReplies(s, PairOf(s, ins, outs, b), g, i);
  }

  lemma SeventhTurn(k: Config, s: Net, s': Net)
    requires OnlyReplies(s)
    requires s' == ResponderReads(k.gr, s, |ToResponder(s)|) && s'.r.noise.send.nonce < U64_MAX
    ensures ToInitiator(s') == [] && ToResponder(s') == []
  {
    assert ToResponder(s)[..|ToResponder(s)|] == ToResponder(s);
    ResponderIsSilent(s, k.gr, s'.r);
    AllIsRead(s, s'.r);
  }

  lemma ResponderHasAll(k: Config, s: Net, s': Net)
    requires Bounded(s) && s' == ResponderReads(k.gr, s, |ToResponder(s)|)
    ensures ToResponder(s') == []
  {
  }

  // ---------- no state is stuck ----------

  lemma {:induction false} SteadyBefore(k: Config, moves: seq<Move>, turns: nat)
    requires Steady(k, Continued(k, moves, turns))
    ensures Steady(k, moves)
  {
    if turns == 0 {
    } else {
      var before := turns - 1;
      OneTurnLess(k, moves, before);
      SteadyBefore(k, moves, before);
    }
  }

  lemma SteadyTurn(k: Config, moves: seq<Move>, turn: nat)
    requires Steady(k, Continued(k, moves, turn + 1))
    ensures Steady(k, Continued(k, moves, turn)) && Unspent(After(k, moves, turn + 1))
    ensures After(k, moves, turn + 1) == Apply(k, After(k, moves, turn), TurnMove(After(k, moves, turn), turn))
  {
    OneTurnLess(k, moves, turn);
    SteadyIsUnspent(k, Continued(k, moves, turn + 1));
    TurnIsApplied(k, moves, turn);
  }

  lemma WhereItStands(k: Config, moves: seq<Move>, turns: nat) returns (t: Script, p: Phase)
    requires Compatible(k) && Steady(k, Continued(k, moves, turns))
    ensures PlayedBy(k, t) && Stands(t, Run(k, moves), p)
  {
    SteadyBefore(k, moves, turns);
    t := RunKeeps(k, moves);
    p := SomePhase(t, Run(k, moves));
  }

  lemma FiveTurns(k: Config, t: Script, moves: seq<Move>, five: nat, p: Phase)
    requires PlayedBy(k, t) && Stands(t, Run(k, moves), p) && five == 5 && Steady(k, Continued(k, moves, five))
    ensures Bounded(After(k, moves, five)) && BothReady(After(k, moves, five))
  {
    FiveTurnsSuffice(p);
    TurnsAdvance(k, t, moves, five, p);
    StandsDone(t, After(k, moves, five));
  }

  lemma StandsDone(t: Script, s: Net)
    ensures Stands(t, s, Done) <==> Bounded(s) && BothReady(s)
  {
  }

  /** Both are ready after five turns, and the fifth has left nothing under way to the responder. */
  lemma ReadyAfterFive(k: Config, moves: seq<Move>, five: nat)
    requires Compatible(k) && five == 5 && Steady(k, Continued(k, moves, five))
    ensures Bounded(After(k, moves, five)) && BothReady(After(k, moves, five))
    ensures ToResponder(After(k, moves, five)) == []
  {
    var t, p := WhereItStands(k, moves, five);
    FiveTurns(k, t, moves, five, p);
    FourthIsBounded(k, t, moves, five - 1, p);
    FifthTakesAll(k, moves, five - 1);
  }

  lemma FourthIsBounded(k: Config, t: Script, moves: seq<Move>, turn: nat, p: Phase)
    requires PlayedBy(k, t) && Stands(t, Run(k, moves), p) && Steady(k, Continued(k, moves, turn + 1))
    ensures Bounded(After(k, moves, turn))
  {
    OneTurnLess(k, moves, turn);
    TurnsAdvance(k, t, moves, turn, p);
  }

  lemma FifthTakesAll(k: Config, moves: seq<Move>, turn: nat)
    requires turn % 2 == 0 && Bounded(After(k, moves, turn))
    ensures ToResponder(After(k, moves, turn + 1)) == []
  {
    TurnIsApplied(k, moves, turn);
    TurnReads(k, After(k, moves, turn), After(k, moves, turn + 1), turn);
    ResponderHasAll(k, After(k, moves, turn), After(k, moves, turn + 1));
  }

  lemma SixthReplies(k: Config, moves: seq<Move>, five: nat)
    requires Compatible(k) && five == 5 && Steady(k, Continued(k, moves, five + 1))
    ensures OnlyReplies(After(k, moves, five + 1))
  {
    SteadyTurn(k, moves, five);
    ReadyAfterFive(k, moves, five);
    TurnReads(k, After(k, moves, five), After(k, moves, five + 1), five);
    SixthTurn(k, After(k, moves, five), After(k, moves, five + 1));
  }

  lemma SeventhDrains(k: Config, moves: seq<Move>, six: nat)
    requires Compatible(k) && six == 6 && Steady(k, Continued(k, moves, six + 1))
    ensures ToInitiator(After(k, moves, six + 1)) == [] && ToResponder(After(k, moves, six + 1)) == []
  {
    SteadyTurn(k, moves, six);
    SixthReplies(k, moves, six - 1);
    TurnReads(k, After(k, moves, six), After(k, moves, six + 1), six);
    SeventhTurn(k, After(k, moves, six), After(k, moves, six + 1));
  }

  /**
   * Whatever has happened so far: delivering everything seven times in turn completes the upgrade and leaves nothing
   * under way, unless a cipher runs out of nonces on the way.
   */
  lemma NoStateIsStuck(k: Config, moves: seq<Move>)
    requires Compatible(k) && Steady(k, Continued(k, moves, 7))
    ensures Completes(k, Continued(k, moves, 7))
  {
    CompletesAfter(k, moves, 7);
  }

  lemma CompletesAfter(k: Config, moves: seq<Move>, seven: nat)
    requires Compatible(k) && seven == 7 && Steady(k, Continued(k, moves, seven))
    ensures Completes(k, Continued(k, moves, seven))
  {
    SeventhDrains(k, moves, seven - 1);
    DrainedMeansReady(k, Continued(k, moves, seven));
  }
}
