/** What two joined yamux sessions guarantee after every run, stated over histories alone. */
module YamuxTheorems {
  import opened Bytes
  import opened YamuxFrame
  import opened YamuxMux
  import opened YamuxNet
  import opened YamuxSafety

  /** The state after a run in which no 32-bit stream id wrapped around. */
  ghost predicate Reached(n: Net) {
    Unwrapped(n) && exists nearIsClient, moves :: n == Run(Start(nearIsClient), moves)
  }

  predicate NeverReset(n: Net, sid: StreamId) {
    sid !in n.near.resets && sid !in n.far.resets
  }

  lemma ReachedHolds(n: Net)
    requires Reached(n)
    ensures Inv(n)
  {
    var nearIsClient, moves :| n == Run(Start(nearIsClient), moves);
    RunHolds(nearIsClient, moves);
  }

  /** Window, payload in transit, unread bytes and credit in transit always add up to 256 KiB. */
  lemma CreditIsConserved(n: Net, sid: StreamId)
    requires Reached(n) && NeverReset(n, sid)
    ensures Window(n.near, sid) as int + |Payload(n.out, sid)| + |Buffered(n.far, sid)| + Credit(n.inn, sid)
      == INITIAL_WINDOW
    ensures |Buffered(n.near, sid)| <= INITIAL_WINDOW && |Buffered(n.far, sid)| <= INITIAL_WINDOW
  {
    ReachedHolds(n);
    InvAt(n, sid);
    assert Row(n.far, n.near, sid);
  }

  /** Hence adding incoming credit never saturates the window. */
  lemma CreditNeverSaturates(n: Net, sid: StreamId)
    requires Reached(n) && NeverReset(n, sid)
    requires n.inn != [] && n.inn[0].hdr.kind == WINDOW_UPDATE && n.inn[0].hdr.streamId == sid
    ensures Window(n.near, sid) as int + n.inn[0].hdr.length <= INITIAL_WINDOW
    ensures Window(Receives(n).near, sid) as int == Window(n.near, sid) as int + n.inn[0].hdr.length
  {
    ReachedHolds(n);
    InvAt(n, sid);
    var f := n.inn[0];
    assert Plain(f) && Row(n.far, n.near, sid);
    NonSynIsKnown(n);
    HandleExisting(n.near.mux, f);
  }

  /** Every accepted byte is read, or waiting to be read, or on its way, once and in order. */
  lemma BytesAreDelivered(n: Net, sid: StreamId)
    requires Reached(n)
    ensures At(n.far.got, sid) <= At(n.near.wrote, sid)
    ensures NeverReset(n, sid) ==>
      At(n.near.wrote, sid) == At(n.far.got, sid) + Buffered(n.far, sid) + Payload(n.out, sid)
  {
    ReachedHolds(n);
    InvAt(n, sid);
    assert Row(n.far, n.near, sid);
  }

  /** Nothing follows a FIN on the wire but frames without payload. */
  lemma NoDataAfterFin(n: Net, i: nat, j: nat)
    requires Reached(n) && i < j < |n.out|
    requires n.out[i].hdr.flags == FIN && n.out[i].hdr.streamId == n.out[j].hdr.streamId
    ensures n.out[j].payload == []
  {
    ReachedHolds(n);
    assert Ordered(n.out);
  }

  lemma {:induction false} NoPayloadAt(q: seq<Frame>, sid: StreamId, i: nat)
    requires i < |q| && q[i].hdr.streamId == sid && Payload(q, sid) == []
    ensures q[i].payload == []
  {
    if i == 0 {
    } else {
      NoPayloadAt(q[1..], sid, i - 1);
    }
  }

  /** Once a FIN has been received, neither payload nor another FIN of that stream is ever under way again. */
  lemma NothingAfterFin(n: Net, sid: StreamId, i: nat)
    requires Reached(n) && sid in n.far.mux.streams && n.far.mux.streams[sid].readClosed
    requires i < |n.out| && n.out[i].hdr.streamId == sid
    ensures sid in n.near.fins && n.out[i].payload == [] && n.out[i].hdr.flags != FIN
    ensures At(n.near.wrote, sid) == At(n.far.got, sid) + Buffered(n.far, sid)
  {
    ReachedHolds(n);
    InvAt(n, sid);
    assert Row(n.far, n.near, sid) && Sound(Tx(n, sid));
    NoPayloadAt(n.out, sid, i);
    MarkedIn(n.out, FIN, sid);
  }

  /**
   * A read reports the end of a stream if the peer closed it and everything was read and the FIN has arrived, and
   * only then.
   */
  lemma EndOfStreamIsTrue(n: Net, sid: StreamId, count: nat)
    requires Reached(n) && NeverReset(n, sid) && Knows(n.near, sid) && count > 0
    ensures Read(n.near.mux, sid, count).result == Ok([]) <==>
      sid in n.far.fins && At(n.near.got, sid) == At(n.far.wrote, sid) && sid !in Marked(n.inn, FIN)
  {
    ReachedHolds(n);
    InvAt(n, sid);
    assert Row(n.near, n.far, sid);
  }

  /** Streams are accepted, and acknowledged, each once and in the order they were opened. */
  lemma StreamsAreAcceptedOnce(n: Net)
    requires Reached(n)
    ensures n.far.mux.accepted + Marked(n.out, SYN) == n.near.opens
    ensures n.near.acked + Marked(n.inn, ACK) == n.far.mux.accepted
    ensures forall i, j :: 0 <= i < j < |n.near.opens| ==> n.near.opens[i] != n.near.opens[j]
    ensures n.out == [] && n.inn == [] ==> n.near.acked == n.far.mux.accepted == n.near.opens
  {
    ReachedHolds(n);
  }

  /** The ids of the two ends never meet, and 0 is never one of them. */
  lemma StreamIdsAreDisjoint(n: Net, sid: StreamId)
    requires Reached(n) && sid in n.near.opens
    ensures sid != 0 && sid !in n.far.opens && sid !in n.near.mux.accepted
    ensures IsRemoteId(n.far.mux, sid) && !IsRemoteId(n.near.mux, sid)
  {
    ReachedHolds(n);
    IdsApart(n.near, n.far, sid);
    if sid in n.near.mux.accepted { AcceptedIds(n, sid); }
  }

  /** Both tables always hold the same streams, each of them known to the end that holds it. */
  lemma TablesAgree(n: Net)
    requires Reached(n)
    ensures n.near.mux.streams.Keys == n.near.mux.windows.Keys
    ensures forall sid :: NeverReset(n, sid) ==> (sid in n.near.mux.streams <==> Knows(n.near, sid))
  {
    ReachedHolds(n);
    forall sid ensures sid in n.near.mux.streams <==> sid in n.near.mux.windows {
      assert Row(n.near, n.far, sid);
    }
    forall sid | NeverReset(n, sid) ensures sid in n.near.mux.streams <==> Knows(n.near, sid) {
      assert Row(n.near, n.far, sid);
    }
  }

  /** Neither end ever sends or has seen a go-away, so opening always succeeds. */
  lemma NoGoAway(n: Net)
    requires Reached(n)
    ensures !n.near.mux.goAway && Open(n.near.mux).result.Ok?
    ensures forall i :: 0 <= i < |n.out| ==> n.out[i].hdr.kind == DATA || n.out[i].hdr.kind == WINDOW_UPDATE
  {
    ReachedHolds(n);
  }

  /** What holds of one end holds of the other. */
  lemma ReachedEitherWay(n: Net)
    requires Reached(n)
    ensures Reached(Flip(n))
  {
    var nearIsClient, moves :| n == Run(Start(nearIsClient), moves);
    RunMirrored(nearIsClient, moves);
    assert Flip(n) == Run(Start(!nearIsClient), Mirror(moves));
  }

  function Mirror(moves: seq<Move>): seq<Move> {
    seq(|moves|, i requires 0 <= i < |moves| => match moves[i] case Near(a) => Far(a) case Far(a) => Near(a))
  }

  lemma {:induction false} RunMirrored(nearIsClient: bool, moves: seq<Move>)
    ensures Run(Start(!nearIsClient), Mirror(moves)) == Flip(Run(Start(nearIsClient), moves))
  {
    if moves == [] {
    } else {
      var k := |moves| - 1;
      assert Mirror(moves)[..k] == Mirror(moves[..k]);
      RunMirrored(nearIsClient, moves[..k]);
    }
  }
}
