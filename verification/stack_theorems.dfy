/** What two connections of this implementation guarantee together, from the first byte to the last stream. */
module StackTheorems {
  import opened Bytes
  import opened Octets
  import opened Connection
  import opened SecureLink
  import opened SecurePair
  import opened StackHandshake
  import opened Stack
  import BN = YamuxByteNet
  import F = YamuxFrame
  import N = Noise
  import NP = NoisePayload
  import NT = NoiseTheorems
  import T = Transport
  import Y = YamuxNet

  /** Every write gets at most 65507 bytes accepted, and no cipher runs out of nonces. */
  predicate Steady(k: Config, moves: seq<Move>) {
    Unspent(Run(k, moves)) &&
    (moves == [] || (Steady(k, moves[..|moves| - 1]) && ModestMove(Run(k, moves[..|moves| - 1]), moves[|moves| - 1])))
  }

  // ---------- the script of two compatible configurations ----------

  lemma InitiatorAwaits(k: Config)
    ensures AwaitsHello(A0(k)) && AwaitsFrame(A1(k)) && A0(k).rx == [] && A1(k).rx == []
  {
    InitiatorParts(k);
  }

  lemma ResponderAwaits(k: Config)
    ensures AwaitsHello(B0(k)) && AwaitsFrame(B1(k)) && AwaitsFrame(B2(k)) && B0(k).rx == B1(k).rx == B2(k).rx == []
  {
    ResponderParts(k);
  }

  lemma ScriptWaits(k: Config)
    requires Compatible(k)
    ensures Waits(ScriptOf(k))
  {
    InitiatorAwaits(k);
    ResponderAwaits(k);
    Message2Fits(k);
    Message3Fits(k);
  }

  lemma ScriptSays(k: Config)
    ensures Says(ScriptOf(k))
  {
    InitiatorParts(k);
    ResponderParts(k);
    UpgradedParts(A1(k), Third(k).s, Framed(OrNothing(Third(k).r)));
    UpgradedParts(B2(k), Fourth(k).s, []);
    assert B2(k).sent + [] == B2(k).sent;
  }

  lemma UpgradedParts(c: Conn, noise: N.State, added: seq<Octet>)
    ensures var f := Upgraded(c, noise, added);
      && f.sent == c.sent + added && f.rx == c.rx && f.noise == noise
      && f.state == Ready && f.secureReady && f.stage == Established
      && f.socketOpen == c.socketOpen && f.patience == c.patience && f.yamux == Some(BN.NewEnd(c.isInitiator))
  {
  }

  lemma ScriptHears(k: Config)
    requires Compatible(k)
    ensures Hears(ScriptOf(k))
  {
    ResponderGreets(k);
    InitiatorStartsNoise(k);
    ResponderReplies(k);
    InitiatorFinishes(k);
    UpgradedParts(A1(k), Third(k).s, Framed(OrNothing(Third(k).r)));
    NothingToDrain(k);
  }

  lemma NothingToDrain(k: Config)
    ensures Drain(A2(k)) == Fine(A2(k))
  {
    InitiatorParts(k);
    UpgradedParts(A1(k), Third(k).s, Framed(OrNothing(Third(k).r)));
    assert T.PopFrame(A2(k).rx).None?;
  }

  lemma NothingOnThePipe(c: N.Cipher)
    requires c.hasKey && c.nonce == 0
    ensures Pipe(c, c, [], [])
  {
    assert LitsEach([]) == [];
    assert T.FrameList(c.key, 0, []) == [];
  }

  lemma ScriptEnds(k: Config)
    requires Compatible(k)
    ensures Ends(ScriptOf(k))
  {
    InitiatorParts(k);
    ResponderParts(k);
    UpgradedParts(A1(k), Third(k).s, Framed(OrNothing(Third(k).r)));
    UpgradedParts(B2(k), Fourth(k).s, []);
    HandshakeOutcome(k);
    NothingOnThePipe(A2(k).noise.send);
    NothingOnThePipe(B3(k).noise.send);
  }

  lemma ScriptTakesMessage3(k: Config, more: seq<Octet>)
    requires Compatible(k)
    ensures TakesMessage3(ScriptOf(k), more)
  {
    ResponderFinishes(k, more);
  }

  lemma ScriptPlays(k: Config)
    requires Compatible(k)
    ensures Plays(ScriptOf(k))
  {
    ScriptWaits(k);
    ScriptSays(k);
    ScriptHears(k);
    ScriptEnds(k);
    forall more ensures TakesMessage3(ScriptOf(k), more) { ScriptTakesMessage3(k, more); }
  }

  lemma BeginsWell(t: Script, s: Net)
    requires Waits(t) && Says(t) && s == Net(t.a0, t.b0, 0, 0)
    ensures Inv(t, s)
  {
    HelloIsLong();
    assert ToInitiator(s) == [] && ToResponder(s) == Hello();
    assert s.r == t.b0.(rx := []);
    assert Greeting0(t, s);
    UpgradingIsInv(t, s);
  }

  lemma {:induction false} RunKeepsScript(k: Config, t: Script, moves: seq<Move>)
    requires Plays(t) && t.gi == k.gi && t.gr == k.gr && Begun(k) == Net(t.a0, t.b0, 0, 0) && Steady(k, moves)
    ensures Inv(t, Run(k, moves))
  {
    if moves == [] {
      BeginsWell(t, Begun(k));
    } else {
      RunKeepsScript(k, t, moves[..|moves| - 1]);
      ApplyKeeps(k, t, Run(k, moves[..|moves| - 1]), moves[|moves| - 1]);
    }
  }

  /** The responder has no yamux session before it is ready. */
  predicate NoYamuxYet(t: Script) { t.b0.yamux.None? && t.b1.yamux.None? && t.b2.yamux.None? }

  predicate IsRunning(c: Conn) { c.socketOpen && (c.state == Securing || c.state == Ready) }

  predicate AllRunning(t: Script) {
    IsRunning(t.a0) && IsRunning(t.a1) && IsRunning(t.b0) && IsRunning(t.b1) && IsRunning(t.b2)
  }

  /** A script that two configurations follow. */
  ghost predicate PlayedBy(k: Config, t: Script) {
    && Plays(t) && NoYamuxYet(t) && AllRunning(t)
    && t.gi == k.gi && t.gr == k.gr && Begun(k) == Net(t.a0, t.b0, 0, 0)
  }

  lemma InitiatorsRun(k: Config)
    ensures IsRunning(A0(k)) && IsRunning(A1(k))
  {
  }

  lemma RespondersRun(k: Config)
    ensures IsRunning(B0(k)) && IsRunning(B1(k)) && IsRunning(B2(k))
    ensures B0(k).yamux.None? && B1(k).yamux.None? && B2(k).yamux.None?
  {
  }

  lemma ScriptRuns(k: Config, t: Script)
    requires t.a0 == A0(k) && t.a1 == A1(k) && t.b0 == B0(k) && t.b1 == B1(k) && t.b2 == B2(k)
    ensures NoYamuxYet(t) && AllRunning(t)
  {
    InitiatorsRun(k);
    RespondersRun(k);
  }

  /** The parts of the script that a run begins with. */
  lemma ScriptBegins(k: Config, t: Script)
    requires t == ScriptOf(k)
    ensures t.a0 == A0(k) && t.a1 == A1(k) && t.b0 == B0(k) && t.b1 == B1(k) && t.b2 == B2(k)
    ensures t.gi == k.gi && t.gr == k.gr && Begun(k) == Net(t.a0, t.b0, 0, 0)
  {
  }

  lemma IsPlayed(k: Config, t: Script)
    requires Plays(t) && t == ScriptOf(k)
    ensures PlayedBy(k, t)
  {
    ScriptBegins(k, t);
    ScriptRuns(k, t);
  }

  lemma TheScript(k: Config) returns (t: Script)
    requires Compatible(k)
    ensures PlayedBy(k, t) && t == ScriptOf(k)
  {
    t := ScriptOf(k);
    ScriptPlays(k);
    IsPlayed(k, t);
  }

  /** Compatible configurations follow a script; nothing else about their states matters from here on. */
  lemma SomeScript(k: Config) returns (t: Script)
    requires Compatible(k)
    ensures PlayedBy(k, t)
  {
    t := TheScript(k);
  }

  lemma RunKeeps(k: Config, moves: seq<Move>) returns (t: Script)
    requires Compatible(k) && Steady(k, moves)
    ensures PlayedBy(k, t) && Inv(t, Run(k, moves))
  {
    t := SomeScript(k);
    RunKeepsScript(k, t, moves);
  }

  // ---------- the theorems ----------

  lemma InvIsRunning(t: Script, s: Net)
    requires Inv(t, s) && AllRunning(t)
    ensures IsRunning(s.i) && IsRunning(s.r)
  {
  }

  /** No schedule of segmented reads, partial writes and stream operations drives either side to failure. */
  lemma UpgradeNeverFails(k: Config, moves: seq<Move>)
    requires Compatible(k) && Steady(k, moves)
    ensures IsRunning(Run(k, moves).i) && IsRunning(Run(k, moves).r)
  {
    var t := RunKeeps(k, moves);
    InvIsRunning(t, Run(k, moves));
  }

  lemma DrainedIsBothReady(t: Script, s: Net)
    requires Inv(t, s) && |t.m3| <= T.MAX_FRAME && ToInitiator(s) == [] && ToResponder(s) == []
    ensures BothReady(s)
  {
    if Message3(t, s) {
      var wire, outs, b :| Message3At(t, s, wire, b) && Linked(EarlyLink(t, s.i, wire, outs, b));
      assert s.r.rx + [] == s.r.rx;
      PopFramed(t.m3, wire);
    }
  }

  lemma DrainedKeysCross(s: Net, p: Pair)
    requires Joined(p) && p == PairOf(s, p.ins, p.outs, p.b) && ToInitiator(s) == [] && ToResponder(s) == []
    ensures s.i.noise.send == s.r.noise.recv && s.r.noise.send == s.i.noise.recv
    ensures p.ins == [] && p.outs == []
  {
    assert s.i.rx + [] == s.i.rx && s.r.rx + [] == s.r.rx;
    PipeDrained(s.r.noise.send, s.i.noise.recv, s.i.rx, p.ins);
    PipeDrained(s.i.noise.send, s.r.noise.recv, s.r.rx, p.outs);
  }

  /**
   * Whenever nothing is under way, both sides are ready, yamux is active on both, and their ciphers are crossed and
   * in step.
   */
  lemma DrainedMeansReady(k: Config, moves: seq<Move>)
    requires Compatible(k) && Steady(k, moves)
    requires ToInitiator(Run(k, moves)) == [] && ToResponder(Run(k, moves)) == []
    ensures var s := Run(k, moves);
      && s.i.state == Ready && s.r.state == Ready && s.i.yamux.Some? && s.r.yamux.Some?
      && s.i.noise.send == s.r.noise.recv && s.r.noise.send == s.i.noise.recv
  {
    var t := RunKeeps(k, moves);
    DrainedState(t, Run(k, moves));
  }

  lemma DrainedState(t: Script, s: Net)
    requires Inv(t, s) && Waits(t) && ToInitiator(s) == [] && ToResponder(s) == []
    ensures s.i.state == Ready && s.r.state == Ready && s.i.yamux.Some? && s.r.yamux.Some?
    ensures s.i.noise.send == s.r.noise.recv && s.r.noise.send == s.i.noise.recv
  {
    DrainedIsBothReady(t, s);
    var ins, outs, b :| Joined(PairOf(s, ins, outs, b));
    DrainedKeysCross(s, PairOf(s, ins, outs, b));
  }

  /** The octets under way to `c` are frames of batches, sealed from the next nonce on, whose bytes are `bytes`. */
  ghost predicate CarriesBytes(from: Conn, to: Conn, coming: seq<Octet>, bytes: seq<Byte>) {
    exists batches: seq<seq<Byte>> ::
      && to.rx + coming == T.Frames(from.noise.send.key, to.noise.recv.nonce, LitsEach(batches))
      && from.noise.send.nonce as int == to.noise.recv.nonce as int + |batches|
      && Concat(batches) == bytes
  }

  /** Both yamux sessions and the encrypted octets between them are a state of two sessions joined by byte pipes. */
  ghost predicate IsByteNet(s: Net, moves: seq<BN.ByteMove>) {
    var b := BN.ByteRun(BN.ByteStart(true), moves);
    && s.i.yamux == Some(b.near) && s.r.yamux == Some(b.far)
    && CarriesBytes(s.i, s.r, ToResponder(s), b.out) && CarriesBytes(s.r, s.i, ToInitiator(s), b.inn)
  }

  /** The secure channel is a lossless pair of byte pipes, whatever the segmentation. */
  lemma LayersRefineByteNet(k: Config, moves: seq<Move>)
    requires Compatible(k) && Steady(k, moves)
    requires Run(k, moves).i.yamux.Some? && Run(k, moves).r.yamux.Some?
    ensures exists byteMoves :: IsByteNet(Run(k, moves), byteMoves)
  {
    var t := RunKeeps(k, moves);
    StateIsByteNet(t, Run(k, moves));
  }

  lemma StateIsByteNet(t: Script, s: Net)
    requires Inv(t, s) && s.r.yamux.Some?
    requires NoYamuxYet(t)
    ensures exists byteMoves :: IsByteNet(s, byteMoves)
  {
    JoinedWhenBothHaveYamux(t, s);
    var ins, outs, b :| Joined(PairOf(s, ins, outs, b));
    PairIsByteNet(s, PairOf(s, ins, outs, b));
  }

  lemma JoinedWhenBothHaveYamux(t: Script, s: Net)
    requires Inv(t, s) && s.r.yamux.Some?
    requires NoYamuxYet(t)
    ensures BothReady(s)
  {
  }

  lemma PairIsByteNet(s: Net, p: Pair)
    requires Joined(p) && p == PairOf(s, p.ins, p.outs, p.b)
    ensures exists byteMoves :: IsByteNet(s, byteMoves)
  {
    var byteMoves :| p.b == BN.ByteRun(BN.ByteStart(true), byteMoves);
    assert CarriesBytes(s.i, s.r, ToResponder(s), p.b.out);
    assert CarriesBytes(s.r, s.i, ToInitiator(s), p.b.inn);
    assert IsByteNet(s, byteMoves);
  }

  function MirrorBytes(moves: seq<BN.ByteMove>): seq<BN.ByteMove> {
    seq(|moves|, i requires 0 <= i < |moves| =>
      match moves[i] case NearBytes(a) => BN.FarBytes(a) case FarBytes(a) => BN.NearBytes(a))
  }

  lemma MirroredStep(b: BN.ByteNet, m: BN.ByteMove, m': BN.ByteMove)
    requires m' == (match m case NearBytes(a) => BN.FarBytes(a) case FarBytes(a) => BN.NearBytes(a))
    ensures BN.ByteApply(BN.ByteFlip(b), m') == BN.ByteFlip(BN.ByteApply(b, m))
  {
    assert BN.ByteFlip(BN.ByteFlip(b)) == b;
  }

  lemma {:induction false} ByteRunMirrored(nearIsClient: bool, moves: seq<BN.ByteMove>)
    ensures BN.ByteRun(BN.ByteStart(!nearIsClient), MirrorBytes(moves))
      == BN.ByteFlip(BN.ByteRun(BN.ByteStart(nearIsClient), moves))
  {
    if moves == [] {
    } else {
      var k := |moves| - 1;
      var mirrored := MirrorBytes(moves);
      assert mirrored[..|mirrored| - 1] == MirrorBytes(moves[..k]);
      ByteRunMirrored(nearIsClient, moves[..k]);
      MirroredStep(BN.ByteRun(BN.ByteStart(nearIsClient), moves[..k]), moves[k], mirrored[k]);
    }
  }

  /** The streams of one direction between two joined ends. */
  predicate Delivers(writer: Y.Party, reader: Y.Party, sid: F.StreamId, drained: bool) {
    && Y.At(reader.got, sid) <= Y.At(writer.wrote, sid)
    && (sid !in writer.resets && sid !in reader.resets ==>
          && |Y.Buffered(reader, sid)| <= F.INITIAL_WINDOW
          && (drained ==> Y.At(writer.wrote, sid) == Y.At(reader.got, sid) + Y.Buffered(reader, sid)))
  }

  lemma RunDelivers(nearIsClient: bool, moves: seq<BN.ByteMove>, sid: F.StreamId, b: BN.ByteNet)
    requires b == BN.ByteRun(BN.ByteStart(nearIsClient), moves) && BN.ByteUnwrapped(b)
    ensures Delivers(b.near.party, b.far.party, sid, b.near.sendBuf == b.out == [])
  {
    BN.ByteStreamsAreDelivered(nearIsClient, moves, sid);
  }

  lemma FromDelivers(b: BN.ByteNet, sid: F.StreamId)
    requires From(b, false) && BN.ByteUnwrapped(b)
    ensures Delivers(b.near.party, b.far.party, sid, b.near.sendBuf == b.out == [])
    ensures Delivers(b.far.party, b.near.party, sid, b.far.sendBuf == b.inn == [])
  {
    var moves :| b == BN.ByteRun(BN.ByteStart(true), moves);
    RunDelivers(true, moves, sid, b);
    ByteRunMirrored(true, moves);
    RunDelivers(false, MirrorBytes(moves), sid, BN.ByteFlip(b));
  }

  /**
   * Across the handshake, encryption, framing and any segmentation: what an application reads from a stream is a
   * prefix of what the other application wrote to it, at most 256 KiB of a stream are buffered at any time, and once
   * nothing is under way all of it is there.
   */
  lemma StreamsAreDelivered(k: Config, moves: seq<Move>, sid: F.StreamId)
    requires Compatible(k) && Steady(k, moves)
    requires Run(k, moves).i.yamux.Some? && Run(k, moves).r.yamux.Some?
    requires Y.InIds(Run(k, moves).i.yamux.value.party) && Y.InIds(Run(k, moves).r.yamux.value.party)
    ensures var s := Run(k, moves);
      var (i, r) := (s.i.yamux.value.party, s.r.yamux.value.party);
      var drained := ToInitiator(s) == [] && ToResponder(s) == [];
      Delivers(i, r, sid, drained) && Delivers(r, i, sid, drained)
  {
    var t := RunKeeps(k, moves);
    ReadyDelivers(t, Run(k, moves), sid);
  }

  lemma PairDelivers(s: Net, p: Pair, sid: F.StreamId)
    requires Joined(p) && p == PairOf(s, p.ins, p.outs, p.b) && BN.ByteUnwrapped(p.b)
    ensures s.i.yamux.Some? && s.r.yamux.Some?
    ensures var (i, r) := (s.i.yamux.value.party, s.r.yamux.value.party);
      var drained := ToInitiator(s) == [] && ToResponder(s) == [];
      Delivers(i, r, sid, drained) && Delivers(r, i, sid, drained)
  {
    FromDelivers(p.b, sid);
    if ToInitiator(s) == [] && ToResponder(s) == [] { DrainedKeysCross(s, p); }
  }

  lemma ReadyDelivers(t: Script, s: Net, sid: F.StreamId)
    requires Inv(t, s) && s.i.yamux.Some? && s.r.yamux.Some?
    requires NoYamuxYet(t)
    requires Y.InIds(s.i.yamux.value.party) && Y.InIds(s.r.yamux.value.party)
    ensures var (i, r) := (s.i.yamux.value.party, s.r.yamux.value.party);
      var drained := ToInitiator(s) == [] && ToResponder(s) == [];
      Delivers(i, r, sid, drained) && Delivers(r, i, sid, drained)
  {
    var ins, outs, b :| Joined(PairOf(s, ins, outs, b));
    PairDelivers(s, PairOf(s, ins, outs, b), sid);
  }

  // ---------- the upgrade can be completed ----------

  /** Everything under way to one side is delivered. */
  function DeliverToResponder(s: Net): Move { ResponderGets(|ToResponder(s)|) }

  function DeliverToInitiator(s: Net): Move { InitiatorGets(|ToInitiator(s)|) }

  /** The states of the shortest upgrade. */
  function Stop(t: Script, step: nat): Net {
    if step == 0 then Net(t.a0, t.b0, 0, 0)
    else if step == 1 then Net(t.a0, t.b1, 0, |t.a0.sent|)
    else if step == 2 then Net(t.a1, t.b1, |t.b1.sent|, |t.a0.sent|)
    else if step == 3 then Net(t.a1, t.b2, |t.b1.sent|, |t.a1.sent|)
    else if step == 4 then Net(t.a2, t.b2, |t.b2.sent|, |t.a1.sent|)
    else Net(t.a2, t.b3, |t.b2.sent|, |t.a2.sent|)
  }

  /** The same state, whatever the way its buffer is written. */
  lemma HearsInto(c: Conn, all: seq<Octet>, g: N.Generated, c1: Conn, rx: seq<Octet>)
    requires IsActive(c) && rx == c.rx + all && Process(c.(rx := rx), g) == Fine(c1)
    ensures OnReadable(c, all, WouldBlock, g) == c1
  {
  }

  lemma NothingBefore(all: seq<Octet>)
    ensures [] + all == all
  {
  }

  lemma HearsAll(c: Conn, all: seq<Octet>, g: N.Generated, c1: Conn)
    requires IsActive(c) && c.rx == [] && Process(c.(rx := all), g) == Fine(c1)
    ensures OnReadable(c, all, WouldBlock, g) == c1
  {
    NothingBefore(all);
    HearsInto(c, all, g, c1, all);
  }

  lemma ResponderReadsAll(g: N.Generated, s: Net, c1: Conn)
    requires OnReadable(s.r, ToResponder(s), WouldBlock, g) == c1
    ensures ResponderReads(g, s, |ToResponder(s)|) == ResponderHas(s, c1, |ToResponder(s)|)
  {
    assert ToResponder(s)[..|ToResponder(s)|] == ToResponder(s);
  }

  lemma InitiatorReadsAll(g: N.Generated, s: Net, c1: Conn)
    requires OnReadable(s.i, ToInitiator(s), WouldBlock, g) == c1
    ensures InitiatorReads(g, s, |ToInitiator(s)|) == InitiatorHas(s, c1, |ToInitiator(s)|)
  {
    assert ToInitiator(s)[..|ToInitiator(s)|] == ToInitiator(s);
  }

  lemma Unread(s: Net, before: seq<Octet>, behind: seq<Octet>)
    ensures s.i.sent == before + behind && s.rRead == |before| ==> ToResponder(s) == behind
    ensures s.r.sent == before + behind && s.iRead == |before| ==> ToInitiator(s) == behind
  {
    assert (before + behind)[|before|..] == behind;
  }

  /** What is under way at each stop. */
  lemma StopWires(t: Script)
    requires Says(t)
    ensures ToResponder(Stop(t, 0)) == Hello() && ToInitiator(Stop(t, 1)) == Hello()
    ensures ToResponder(Stop(t, 2)) == Framed(t.m1) && ToInitiator(Stop(t, 3)) == Framed(t.m2)
    ensures ToResponder(Stop(t, 4)) == Framed(t.m3)
  {
    Unread(Stop(t, 2), Hello(), Framed(t.m1));
    Unread(Stop(t, 3), Hello(), Framed(t.m2));
    Unread(Stop(t, 4), t.a1.sent, Framed(t.m3));
  }

  lemma NothingAtLastStop(t: Script)
    requires Says(t)
    ensures ToInitiator(Stop(t, 5)) == [] && ToResponder(Stop(t, 5)) == []
  {
  }

  lemma StopConns(t: Script)
    ensures Stop(t, 0).r == t.b0 && Stop(t, 1).i == t.a0 && Stop(t, 2).r == t.b1
    ensures Stop(t, 3).i == t.a1 && Stop(t, 4).r == t.b2
    ensures Says(t) ==>
      && ResponderHas(Stop(t, 0), t.b1, |Hello()|) == Stop(t, 1)
      && InitiatorHas(Stop(t, 1), t.a1, |Hello()|) == Stop(t, 2)
      && ResponderHas(Stop(t, 2), t.b2, |Framed(t.m1)|) == Stop(t, 3)
      && InitiatorHas(Stop(t, 3), t.a2, |Framed(t.m2)|) == Stop(t, 4)
      && ResponderHas(Stop(t, 4), t.b3, |Framed(t.m3)|) == Stop(t, 5)
  {
  }

  function AfterDelivery(t: Script, step: nat): Net {
    var s := Stop(t, step);
    if step % 2 == 0 then ResponderReads(t.gr, s, |ToResponder(s)|) else InitiatorReads(t.gi, s, |ToInitiator(s)|)
  }

  /** The next stop follows by one delivery. */
  predicate Follows(t: Script, step: nat) { AfterDelivery(t, step) == Stop(t, step + 1) }

  lemma Stop0(t: Script)
    requires Waits(t) && Says(t) && Process(t.b0.(rx := Hello()), t.gr) == Fine(t.b1)
    ensures Follows(t, 0)
  {
    StopWires(t);
    StopConns(t);
    HearsAll(t.b0, Hello(), t.gr, t.b1);
    ResponderReadsAll(t.gr, Stop(t, 0), t.b1);
  }

  lemma Stop1(t: Script)
    requires Waits(t) && Says(t) && Process(t.a0.(rx := Hello()), t.gi) == Fine(t.a1)
    ensures Follows(t, 1)
  {
    StopWires(t);
    StopConns(t);
    HearsAll(t.a0, Hello(), t.gi, t.a1);
    InitiatorReadsAll(t.gi, Stop(t, 1), t.a1);
  }

  lemma Stop2(t: Script)
    requires Waits(t) && Says(t) && Process(t.b1.(rx := Framed(t.m1)), t.gr) == Fine(t.b2)
    ensures Follows(t, 2)
  {
    StopWires(t);
    StopConns(t);
    HearsAll(t.b1, Framed(t.m1), t.gr, t.b2);
    ResponderReadsAll(t.gr, Stop(t, 2), t.b2);
  }

  lemma Stop3(t: Script)
    requires Waits(t) && Says(t) && Process(t.a1.(rx := Framed(t.m2)), t.gi) == Fine(t.a2)
    ensures Follows(t, 3)
  {
    StopWires(t);
    StopConns(t);
    HearsAll(t.a1, Framed(t.m2), t.gi, t.a2);
    InitiatorReadsAll(t.gi, Stop(t, 3), t.a2);
  }

  lemma NothingBehindMessage3(t: Script)
    requires TakesMessage3(t, []) && t.b3.rx == []
    ensures Process(t.b2.(rx := Framed(t.m3)), t.gr) == Fine(t.b3)
  {
    assert Framed(t.m3) + [] == Framed(t.m3) && t.b3.(rx := []) == t.b3;
    assert Drain(t.b3) == Fine(t.b3);
  }

  lemma Stop4(t: Script)
    requires Waits(t) && Says(t) && Process(t.b2.(rx := Framed(t.m3)), t.gr) == Fine(t.b3)
    ensures Follows(t, 4)
  {
    StopWires(t);
    StopConns(t);
    HearsAll(t.b2, Framed(t.m3), t.gr, t.b3);
    ResponderReadsAll(t.gr, Stop(t, 4), t.b3);
  }

  function ShortestUpgrade(t: Script, step: nat): seq<Move> {
    if step == 0 then [] else ShortestUpgrade(t, step - 1) + [NextMove(t, step - 1)]
  }

  lemma StopFollows(t: Script, step: nat)
    requires Waits(t) && Says(t) && Hears(t) && step < 5
    requires Process(t.b2.(rx := Framed(t.m3)), t.gr) == Fine(t.b3)
    ensures Follows(t, step)
  {
    if step == 0 { Stop0(t); }
    else if step == 1 { Stop1(t); }
    else if step == 2 { Stop2(t); }
    else if step == 3 { Stop3(t); }
    else { Stop4(t); }
  }

  lemma StopsFollow(t: Script)
    requires Plays(t)
    ensures forall step :: 0 <= step < 5 ==> Follows(t, step)
  {
    assert TakesMessage3(t, []);
    NothingBehindMessage3(t);
    forall step | 0 <= step < 5 ensures Follows(t, step) { StopFollows(t, step); }
  }

  function NextMove(t: Script, step: nat): Move {
    if step % 2 == 0 then DeliverToResponder(Stop(t, step)) else DeliverToInitiator(Stop(t, step))
  }

  lemma NextStop(k: Config, t: Script, step: nat)
    requires Follows(t, step) && t.gi == k.gi && t.gr == k.gr
    ensures Apply(k, Stop(t, step), NextMove(t, step)) == Stop(t, step + 1)
  {
    assert Apply(k, Stop(t, step), NextMove(t, step)) == AfterDelivery(t, step);
  }

  /** No side has used up its nonces before the upgrade, nor during it. */
  predicate AllUnspent(t: Script) {
    && t.a0.noise.send.nonce < U64_MAX && t.a1.noise.send.nonce < U64_MAX && t.a2.noise.send.nonce < U64_MAX
    && t.b0.noise.send.nonce < U64_MAX && t.b1.noise.send.nonce < U64_MAX && t.b2.noise.send.nonce < U64_MAX
    && t.b3.noise.send.nonce < U64_MAX
  }

  lemma StopIsUnspent(t: Script, step: nat)
    requires AllUnspent(t)
    ensures Unspent(Stop(t, step)) && ModestMove(Stop(t, step), NextMove(t, step))
  {
  }

  lemma RunSnoc(k: Config, moves: seq<Move>, m: Move)
    ensures Run(k, moves + [m]) == Apply(k, Run(k, moves), m)
    ensures Steady(k, moves + [m]) <==> Unspent(Run(k, moves + [m])) && Steady(k, moves) && ModestMove(Run(k, moves), m)
  {
    var all := moves + [m];
    assert all[..|all| - 1] == moves && all[|all| - 1] == m;
  }

  lemma {:induction false} UpgradeRuns(k: Config, t: Script, step: nat)
    requires t.gi == k.gi && t.gr == k.gr && Begun(k) == Stop(t, 0) && AllUnspent(t) && step <= 5
    requires forall i :: 0 <= i < 5 ==> Follows(t, i)
    ensures Run(k, ShortestUpgrade(t, step)) == Stop(t, step) && Steady(k, ShortestUpgrade(t, step))
  {
    StopIsUnspent(t, step);
    if step == 0 {
    } else {
      UpgradeRuns(k, t, step - 1);
      StopIsUnspent(t, step - 1);
      RunSnoc(k, ShortestUpgrade(t, step - 1), NextMove(t, step - 1));
      NextStop(k, t, step - 1);
    }
  }

  lemma NoncesStartAtZero(k: Config)
    requires Compatible(k) && k.i.send.nonce < U64_MAX && k.r.send.nonce < U64_MAX
    ensures AllUnspent(ScriptOf(k))
  {
    InitiatorParts(k);
    ResponderParts(k);
    HandshakeOutcome(k);
    UpgradedParts(A1(k), Third(k).s, Framed(OrNothing(Third(k).r)));
    UpgradedParts(B2(k), Fourth(k).s, []);
    ResetNonces(k);
  }

  lemma ResetNonces(k: Config)
    requires Compatible(k)
    ensures First(k).0.send.nonce == 0 && Second(k).s.send.nonce == 0
  {
    Message2Fits(k);
    NT.ReplyParts(k.r, First(k).1, k.gr);
  }

  predicate Completes(k: Config, moves: seq<Move>) {
    var s := Run(k, moves);
    && Steady(k, moves) && ToInitiator(s) == [] && ToResponder(s) == []
    && s.i.state == Ready && s.r.state == Ready && s.i.yamux.Some? && s.r.yamux.Some?
  }

  /** Delivering everything five times in turn makes both sides ready, with nothing left under way. */
  lemma UpgradeCompletes(k: Config)
    requires Compatible(k) && k.i.send.nonce < U64_MAX && k.r.send.nonce < U64_MAX
    ensures exists moves :: |moves| == 5 && Completes(k, moves)
  {
    var t := UnspentScript(k);
    UpgradeEnds(k, t);
  }

  lemma UnspentScript(k: Config) returns (t: Script)
    requires Compatible(k) && k.i.send.nonce < U64_MAX && k.r.send.nonce < U64_MAX
    ensures PlayedBy(k, t) && AllUnspent(t)
  {
    t := TheScript(k);
    NoncesStartAtZero(k);
  }

  lemma UpgradeEnds(k: Config, t: Script)
    requires Compatible(k) && PlayedBy(k, t) && AllUnspent(t)
    ensures exists moves :: |moves| == 5 && Completes(k, moves)
  {
    var moves := ShortestUpgrade(t, 5);
    StopsFollow(t);
    UpgradeRuns(k, t, 5);
    LengthOfUpgrade(t, 5);
    NothingAtLastStop(t);
    DrainedMeansReady(k, moves);
    assert Completes(k, moves);
  }

  lemma {:induction false} LengthOfUpgrade(t: Script, step: nat)
    ensures |ShortestUpgrade(t, step)| == step
  {
    if step == 0 {
    } else {
      LengthOfUpgrade(t, step - 1);
    }
  }

  // ---------- a compatible pair ----------

  /** A side that has done nothing yet. */
  function Idle(isInitiator: bool, identity: N.Key): N.State {
    var blank := N.Keypair(N.ZeroKey(), 0);
    N.State(isInitiator, Some(identity), LitsEach([YAMUX]), None, [], blank, blank, None, None,
            N.ZeroKey(), false, N.ZeroKey(), false, N.InitialSymmetric(), N.NoCipher(), N.NoCipher(), false)
  }

  function KeysOf(a: Secret, b: Secret): N.Generated {
    N.Generated(N.Keypair(Public(a), a), N.Keypair(Public(b), b))
  }

  /** Two fresh sides that both offer yamux. */
  function Example(): Config {
    Config(Idle(true, Public(5)), Idle(false, Public(6)), KeysOf(1, 2), KeysOf(3, 4), [YAMUX], [YAMUX], None)
  }

  lemma FieldLength(number: nat, value: seq<Octet>)
    requires number < 15 && |value| < 0x80
    ensures |NP.BytesField(number, value)| == |value| + 2
  {
    NP.EncodingIsShort(number * 8 + 2);
    NP.EncodingIsShort(|value|);
  }

  lemma ExampleExtensions()
    ensures |NP.ExtensionsMessage(LitsEach([YAMUX]))| == 14 && NP.MuxersFit(LitsEach([YAMUX]))
  {
    var names := LitsEach([YAMUX]);
    assert names[0] == Lits(YAMUX) && names[1..] == [];
    FieldLength(2, names[0]);
    assert NP.ExtensionsMessage([]) == [];
  }

  lemma ExamplePayload(identity: N.Key, staticKey: N.Key)
    ensures |NP.HandshakeMessage(identity, staticKey, LitsEach([YAMUX]))| <= PAYLOAD_LIMIT
  {
    ExampleExtensions();
    NP.EncodingIsShort(8);
    NP.EncodingIsShort(1);
    FieldLength(2, identity);
    FieldLength(1, NP.PublicKeyMessage(identity));
    FieldLength(2, Sign(identity, NP.SignatureMessage(staticKey)));
    FieldLength(4, NP.ExtensionsMessage(LitsEach([YAMUX])));
  }

  /** So the theorems above speak of something: a compatible pair exists, and its upgrade completes. */
  lemma ExampleIsCompatible()
    ensures Compatible(Example())
    ensures exists moves :: |moves| == 5 && Completes(Example(), moves)
  {
    var k := Example();
    ExampleExtensions();
    ExamplePayload(Public(5), Public(2));
    ExamplePayload(Public(6), Public(4));
    OnlyCommonEntry([YAMUX], [YAMUX]);
    assert Equipped(k.i, k.gi, k.namesI) && Equipped(k.r, k.gr, k.namesR);
    UpgradeCompletes(k);
  }
}
