/** The streams that two connections open, accept, reset and announce, end to end. */
module StackStreams {
  import opened Bytes
  import opened Octets
  import opened Connection
  import opened SecureLink
  import opened SecurePair
  import opened StackHandshake
  import opened Stack
  import opened StackTheorems
  import BN = YamuxByteNet
  import CE = ConnectionEvents
  import F = YamuxFrame
  import M = YamuxMux
  import N = Noise
  import SE = StreamEvents
  import Y = YamuxNet
  import YE = YamuxEvents
  import YF = YamuxEffects
  import YT = YamuxTheorems

  // ---------- each connection by itself ----------

  /** The connection is in order, has announced what its session reported, and still holds all it has accepted. */
  ghost predicate KeepsBooks(c: Conn) { CE.Good(c) && YE.Tied(c) && SE.AcceptedIn(c.events) == c.pending }

  lemma ListsKeep(c: Conn, c': Conn)
    requires SE.Lists(c, c') && SE.AcceptedIn(c.events) == c.pending
    ensures SE.AcceptedIn(c'.events) == c'.pending
  {
    var more := c'.events[|c.events|..];
    assert c'.events == c.events + more;
    SE.AppendedEvents(c.events, more);
  }

  lemma ReactKeepsBooks(c: Conn, i: CE.Input, c': Conn)
    requires KeepsBooks(c) && i != CE.AcceptingStream && c' == CE.React(c, i)
    ensures KeepsBooks(c')
  {
    CE.ReactKeepsGood(c, i);
    YE.ReactTies(c, i);
    SE.ReactLists(c, i);
    ListsKeep(c, c');
  }

  lemma OpeningKeepsBooks(c: Conn)
    requires KeepsBooks(c)
    ensures KeepsBooks(OpenStream(c).c)
  {
    ReactKeepsBooks(c, CE.OpeningStream, OpenStream(c).c);
  }

  lemma OperatingKeepsBooks(c: Conn, a: Y.Action)
    requires KeepsBooks(c) && c.yamux.Some?
    ensures KeepsBooks(Operate(c, a).c)
  {
    ReactKeepsBooks(c, CE.UsingStream(a), Operate(c, a).c);
  }

  lemma UseKeepsBooks(c: Conn, a: Y.Action)
    requires KeepsBooks(c)
    ensures KeepsBooks(Use(c, a))
  {
    if c.state != Ready || c.yamux.None? || a == Y.Receiving {
    } else if a == Y.Opening {
      OpeningKeepsBooks(c);
    } else {
      OperatingKeepsBooks(c, a);
    }
  }

  lemma ReadKeepsBooks(c: Conn, x: seq<Octet>, g: N.Generated)
    requires KeepsBooks(c)
    ensures KeepsBooks(OnReadable(c, x, WouldBlock, g))
  {
    ReactKeepsBooks(c, CE.Readable(x, WouldBlock, g), OnReadable(c, x, WouldBlock, g));
  }

  lemma ApplyKeepsBooks(k: Config, s: Net, m: Move)
    requires KeepsBooks(s.i) && KeepsBooks(s.r)
    ensures KeepsBooks(Apply(k, s, m).i) && KeepsBooks(Apply(k, s, m).r)
  {
    match m
    case InitiatorGets(count) => ReadKeepsBooks(s.i, ToInitiator(s)[..Min(count, |ToInitiator(s)|)], k.gi);
    case ResponderGets(count) => ReadKeepsBooks(s.r, ToResponder(s)[..Min(count, |ToResponder(s)|)], k.gr);
    case InitiatorUses(a) => UseKeepsBooks(s.i, a);
    case ResponderUses(a) => UseKeepsBooks(s.r, a);
  }

  lemma BegunKeepsBooks(k: Config)
    ensures KeepsBooks(A0(k)) && KeepsBooks(B0(k))
  {
    ReactKeepsBooks(New(true, k.dialed, k.namesI, k.i), CE.BeginningOutbound, A0(k));
    ReactKeepsBooks(New(false, None, k.namesR, k.r), CE.BeginningInbound, B0(k));
  }

  lemma {:induction false} RunKeepsBooks(k: Config, moves: seq<Move>)
    ensures KeepsBooks(Run(k, moves).i) && KeepsBooks(Run(k, moves).r)
  {
    if moves == [] {
      BegunKeepsBooks(k);
    } else {
      RunKeepsBooks(k, moves[..|moves| - 1]);
      ApplyKeepsBooks(k, Run(k, moves[..|moves| - 1]), moves[|moves| - 1]);
    }
  }

  // ---------- the two sessions ----------

  /** What one session knows of the streams that the other one opened and reset. */
  ghost predicate Follows(opener: Y.Party, accepter: Y.Party, drained: bool) {
    && accepter.mux.accepted <= opener.opens
    && (drained ==> accepter.mux.accepted == opener.opens)
    && (drained ==> forall sid :: sid in opener.resets && sid !in accepter.resets ==>
          (sid, M.ResetByPeer) in accepter.mux.closed)
  }

  lemma FramesFollow(n: Y.Net, drained: bool)
    requires YT.Reached(n) && (drained ==> n.out == [])
    ensures Follows(n.near, n.far, drained)
  {
    YT.StreamsAreAcceptedOnce(n);
    if drained {
      assert n.far.mux.accepted + [] == n.far.mux.accepted;
      YT.ReachedEitherWay(n);
      forall sid | sid in n.near.resets && sid !in n.far.resets ensures (sid, M.ResetByPeer) in n.far.mux.closed {
        YF.ResetsArrive(Y.Flip(n), sid);
      }
    }
  }

  lemma RunFollows(nearIsClient: bool, moves: seq<BN.ByteMove>, b: BN.ByteNet, drained: bool)
    requires b == BN.ByteRun(BN.ByteStart(nearIsClient), moves) && BN.ByteUnwrapped(b)
    requires drained ==> b.near.sendBuf == [] && b.out == []
    ensures Follows(b.near.party, b.far.party, drained)
  {
    var n := BN.BytesRefineFrames(nearIsClient, moves);
    if drained { BN.NothingUnderWay(n, b.far.recvBuf); }
    FramesFollow(n, drained);
  }

  lemma BothFollow(b: BN.ByteNet, toFar: bool, toNear: bool)
    requires From(b, false) && BN.ByteUnwrapped(b)
    requires (toFar ==> b.near.sendBuf == [] && b.out == []) && (toNear ==> b.far.sendBuf == [] && b.inn == [])
    ensures Follows(b.near.party, b.far.party, toFar) && Follows(b.far.party, b.near.party, toNear)
  {
    var moves :| b == BN.ByteRun(BN.ByteStart(true), moves);
    RunFollows(true, moves, b, toFar);
    ByteRunMirrored(true, moves);
    RunFollows(false, MirrorBytes(moves), BN.ByteFlip(b), toNear);
  }

  lemma PairFollows(s: Net, p: Pair)
    requires Joined(p) && p == PairOf(s, p.ins, p.outs, p.b) && BN.ByteUnwrapped(p.b)
    ensures s.i.yamux.Some? && s.r.yamux.Some?
    ensures Follows(s.i.yamux.value.party, s.r.yamux.value.party, ToResponder(s) == [])
    ensures Follows(s.r.yamux.value.party, s.i.yamux.value.party, ToInitiator(s) == [])
  {
    if ToResponder(s) == [] {
      assert s.r.rx + [] == s.r.rx;
      PipeDrained(s.i.noise.send, s.r.noise.recv, s.r.rx, p.outs);
    }
    if ToInitiator(s) == [] {
      assert s.i.rx + [] == s.i.rx;
      PipeDrained(s.r.noise.send, s.i.noise.recv, s.i.rx, p.ins);
    }
    BothFollow(p.b, ToResponder(s) == [], ToInitiator(s) == []);
  }

  lemma ReadyFollows(t: Script, s: Net)
    requires Inv(t, s) && s.i.yamux.Some? && s.r.yamux.Some? && NoYamuxYet(t)
    requires Y.InIds(s.i.yamux.value.party) && Y.InIds(s.r.yamux.value.party)
    ensures Follows(s.i.yamux.value.party, s.r.yamux.value.party, ToResponder(s) == [])
    ensures Follows(s.r.yamux.value.party, s.i.yamux.value.party, ToInitiator(s) == [])
  {
    JoinedWhenBothHaveYamux(t, s);
    var ins, outs, b :| Joined(PairOf(s, ins, outs, b));
    PairFollows(s, PairOf(s, ins, outs, b));
  }

  // ---------- what the applications see ----------

  /**
   * What the application of `c` sees of the other one's streams: those announced as accepted, all of which it can
   * still take, are the first that the other opened, and all of them once nothing is under way; every stream that
   * the other has reset has then been announced as ended, unless it was reset here too.
   */
  ghost predicate Sees(c: Conn, other: Y.Party, drained: bool)
    requires c.yamux.Some?
  {
    && SE.AcceptedIn(c.events) == c.pending
    && c.pending <= other.opens && (drained ==> c.pending == other.opens)
    && (drained ==> forall sid :: sid in other.resets && sid !in c.yamux.value.party.resets ==>
          (sid as nat) in SE.ClosedIn(c.events))
  }

  lemma ClosedAreIds(closed: seq<(F.StreamId, M.CloseReason)>, sid: F.StreamId, why: M.CloseReason)
    requires (sid, why) in closed
    ensures (sid as nat) in SE.IdsOf(closed)
  {
    var j :| 0 <= j < |closed| && closed[j] == (sid, why);
    assert SE.IdsOf(closed)[j] == sid;
  }

  lemma BooksSee(c: Conn, other: Y.Party, drained: bool)
    requires KeepsBooks(c) && c.yamux.Some? && Follows(other, c.yamux.value.party, drained)
    ensures Sees(c, other, drained)
  {
    if drained {
      var p := c.yamux.value.party;
      forall sid | sid in other.resets && sid !in p.resets ensures (sid as nat) in SE.ClosedIn(c.events) {
        ClosedAreIds(p.mux.closed, sid, M.ResetByPeer);
      }
    }
  }

  /**
   * Over every run of two compatible sides: each application is told of, and can take, exactly the streams that the
   * other opened, in the order of opening, and learns of every reset.
   */
  lemma StreamsAreAnnounced(k: Config, moves: seq<Move>)
    requires Compatible(k) && Steady(k, moves)
    requires Run(k, moves).i.yamux.Some? && Run(k, moves).r.yamux.Some?
    requires Y.InIds(Run(k, moves).i.yamux.value.party) && Y.InIds(Run(k, moves).r.yamux.value.party)
    ensures var s := Run(k, moves);
      && Sees(s.r, s.i.yamux.value.party, ToResponder(s) == [])
      && Sees(s.i, s.r.yamux.value.party, ToInitiator(s) == [])
  {
    var t := RunKeeps(k, moves);
    RunKeepsBooks(k, moves);
    StateSees(t, Run(k, moves));
  }

  lemma StateSees(t: Script, s: Net)
    requires Inv(t, s) && s.i.yamux.Some? && s.r.yamux.Some? && NoYamuxYet(t) && KeepsBooks(s.i) && KeepsBooks(s.r)
    requires Y.InIds(s.i.yamux.value.party) && Y.InIds(s.r.yamux.value.party)
    ensures Sees(s.r, s.i.yamux.value.party, ToResponder(s) == [])
    ensures Sees(s.i, s.r.yamux.value.party, ToInitiator(s) == [])
  {
    ReadyFollows(t, s);
    BooksSee(s.r, s.i.yamux.value.party, ToResponder(s) == []);
    BooksSee(s.i, s.r.yamux.value.party, ToInitiator(s) == []);
  }
}
