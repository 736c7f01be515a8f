/**
 * Stream ids over every run, however long: what the counter is, exactly how long ids stay new, and what the next
 * opening does after that.
 */
module YamuxIds {
  import opened Bytes
  import opened YamuxFrame
  import opened YamuxMux
  import opened YamuxNet
  import opened YamuxSafety

  /** The id of the stream that is opened after `i` others; ids are 32 bits wide. */
  function IdAt(isClient: bool, i: nat): StreamId { (FirstId(isClient) as int + 2 * i) % 0x1_0000_0000 }

  /** The counter and all ids handed out so far follow from the number of openings alone. */
  ghost predicate Counted(p: Party, isClient: bool) {
    && p.mux.isClient == isClient
    && p.mux.nextId == IdAt(isClient, |p.opens|)
    && forall i :: 0 <= i < |p.opens| ==> p.opens[i] == IdAt(isClient, i)
  }

  lemma OpenKeepsCount(n: Net, isClient: bool)
    requires Counted(n.near, isClient)
    ensures Counted(Opens(n).near, isClient)
  {
    var m := n.near.mux;
    if m.goAway {
    } else {
      OneMore(n.near, Open(m).mux, isClient);
    }
  }

  lemma NextId(isClient: bool, i: nat)
    ensures IdAt(isClient, i + 1) as int == (IdAt(isClient, i) as int + 2) % 0x1_0000_0000
  {
  }

  lemma OneMore(p: Party, m: Mux, isClient: bool)
    requires Counted(p, isClient) && m.isClient == isClient
    requires m.nextId as int == (p.mux.nextId as int + 2) % 0x1_0000_0000
    ensures Counted(p.(mux := m, opens := p.opens + [p.mux.nextId]), isClient)
  {
    NextId(isClient, |p.opens|);
  }

  lemma ActKeepsCount(n: Net, a: Action, isClient: bool)
    requires Counted(n.near, isClient)
    ensures Counted(Act(n, a).near, isClient)
  {
    if a == Opening { OpenKeepsCount(n, isClient); } else { ActKeepsCounter(n, a); }
  }

  lemma ApplyKeepsCount(n: Net, m: Move, isClient: bool)
    requires Counted(n.near, isClient) && Counted(n.far, !isClient)
    ensures Counted(Apply(n, m).near, isClient) && Counted(Apply(n, m).far, !isClient)
  {
    match m {
      case Near(a) =>
        ActKeepsCount(n, a, isClient);
        ActGrows(n, a);
      case Far(a) =>
        ActKeepsCount(Flip(n), a, !isClient);
        ActGrows(Flip(n), a);
    }
  }

  /** In every run, without any bound, the ids of both ends are these. */
  lemma {:induction false} IdsAreCounted(nearIsClient: bool, moves: seq<Move>)
    ensures var n := Run(Start(nearIsClient), moves); Counted(n.near, nearIsClient) && Counted(n.far, !nearIsClient)
  {
    if moves == [] {
    } else {
      IdsAreCounted(nearIsClient, moves[..|moves| - 1]);
      ApplyKeepsCount(Run(Start(nearIsClient), moves[..|moves| - 1]), moves[|moves| - 1], nearIsClient);
    }
  }

  lemma IdsDiffer(isClient: bool, i: nat, j: nat)
    requires i < j < 0x8000_0000
    ensures IdAt(isClient, i) != IdAt(isClient, j)
  {
  }

  lemma IdsRepeat(isClient: bool, i: nat)
    ensures IdAt(isClient, i + 0x8000_0000) == IdAt(isClient, i)
  {
  }

  lemma ZeroId(isClient: bool, i: nat)
    requires i < 0x8000_0000
    ensures IdAt(isClient, i) == 0 <==> !isClient && i == 0x7FFF_FFFF
  {
  }

  /** The id that the next opening would use is a proper one and was never used. */
  ghost predicate NextIsNew(p: Party) { p.mux.nextId != 0 && p.mux.nextId !in p.opens }

  lemma NextIsNewWhile(p: Party, isClient: bool)
    requires Counted(p, isClient)
    ensures NextIsNew(p) <==> |p.opens| < Capacity(isClient)
  {
    var k := |p.opens|;
    if k < 0x8000_0000 {
      ZeroId(isClient, k);
      forall i | 0 <= i < k ensures p.opens[i] != p.mux.nextId { IdsDiffer(isClient, i, k); }
    } else {
      IdsRepeat(isClient, k - 0x8000_0000);
      assert p.opens[k - 0x8000_0000] == p.mux.nextId;
    }
  }

  /** In every run: the next id of an end is new if and only if it has opened fewer streams than its role has ids. */
  lemma IdsAreNewUntilExhausted(nearIsClient: bool, moves: seq<Move>)
    ensures var n := Run(Start(nearIsClient), moves);
      && (NextIsNew(n.near) <==> |n.near.opens| < Capacity(nearIsClient))
      && (NextIsNew(n.far) <==> |n.far.opens| < Capacity(!nearIsClient))
  {
    IdsAreCounted(nearIsClient, moves);
    NextIsNewWhile(Run(Start(nearIsClient), moves).near, nearIsClient);
    NextIsNewWhile(Run(Start(nearIsClient), moves).far, !nearIsClient);
  }

  // ---------- the bound is reached, and then it matters ----------

  /** The near end does nothing but open streams. */
  function Openings(k: nat): seq<Move> { seq(k, _ => Near(Opening)) }

  lemma {:induction false} OpeningsOpen(nearIsClient: bool, k: nat)
    ensures var n := Run(Start(nearIsClient), Openings(k)); |n.near.opens| == k && !n.near.mux.goAway
  {
    if k == 0 {
    } else {
      OpeningsOpen(nearIsClient, k - 1);
      assert Openings(k)[..k - 1] == Openings(k - 1);
    }
  }

  /** A frame of stream 0 is dropped by whoever receives it. */
  lemma StreamZeroIsDropped(m: Mux)
    ensures Handle(m, DataFrame(0, SYN)) == Step(m, [])
  {
  }

  /**
   * A server that has opened as many streams as it has ids gives the next one the id 0, and its peer, in whatever
   * state, drops the SYN: the stream is never accepted.
   */
  lemma ServerRunsOut(m: Mux)
    ensures var n := Run(Start(false), Openings(Capacity(false)));
      var r := Open(n.near.mux);
      && r.result == Ok(0) && r.frames == [DataFrame(0, SYN)]
      && Handle(m, r.frames[0]) == Step(m, [])
  {
    OpeningsOpen(false, Capacity(false));
    IdsAreCounted(false, Openings(Capacity(false)));
    StreamZeroIsDropped(m);
  }

  /**
   * A client that has done so gives the next stream the id 1 again: it is the first stream once more, and a peer
   * that still holds that one neither accepts nor acknowledges anything.
   */
  lemma ClientRunsOut(m: Mux)
    requires !m.isClient && 1 in m.streams
    ensures var n := Run(Start(true), Openings(Capacity(true)));
      var r := Open(n.near.mux);
      && r.result == Ok(1) && n.near.opens[0] == 1 && r.frames == [DataFrame(1, SYN)]
      && Handle(m, r.frames[0]).frames == [] && Handle(m, r.frames[0]).mux.accepted == m.accepted
  {
    OpeningsOpen(true, Capacity(true));
    IdsAreCounted(true, Openings(Capacity(true)));
    PlainFlags(DataFrame(1, SYN));
  }
}
