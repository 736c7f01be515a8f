/**
 * What arriving frames do: every kind of frame at any session, whoever sent it, and what resets and the end of a
 * stream mean between two sessions, over every run.
 */
module YamuxEffects {
  import opened Bytes
  import opened YamuxFrame
  import opened YamuxMux
  import opened YamuxNet
  import opened YamuxSafety
  import opened YamuxTheorems
  import S = YamuxSession

  // ---------- one frame, at the level of bytes ----------

  lemma OneFrame(s: S.Session, f: Frame)
    requires s.recvBuf == [] && WellFormed(f)
    ensures var step := Handle(s.mux, f);
      S.Receive(s, Encode(f)) == s.(mux := step.mux, sendBuf := s.sendBuf + EncodeAll(step.frames))
  {
    EncodeAllOne(f);
    assert Encode(f) == EncodeAll([f]) + [] && s.recvBuf + Encode(f) == Encode(f);
    assert S.HandleAll(Handle(s.mux, f).mux, []) == Step(Handle(s.mux, f).mux, []);
    assert Handle(s.mux, f).frames + [] == Handle(s.mux, f).frames;
    S.ProcessFrames(s.(recvBuf := Encode(f)), [f], []);
  }

  function PingFrame(flags: U16, sid: StreamId, value: U32): Frame {
    Frame(Header(VERSION, PING, flags, sid, value), [])
  }

  /** A ping is answered with one acknowledged ping of the same value, and an acknowledged ping with nothing. */
  lemma PingIsAnswered(s: S.Session, flags: U16, sid: StreamId, value: U32)
    requires s.recvBuf == []
    ensures S.Receive(s, Encode(PingFrame(flags, sid, value)))
      == if HasFlag(flags, ACK) then s else s.(sendBuf := s.sendBuf + Encode(PingFrame(ACK, 0, value)))
  {
    OneFrame(s, PingFrame(flags, sid, value));
    EncodeAllOne(PingFrame(ACK, 0, value));
    assert s.sendBuf + [] == s.sendBuf;
  }

  function GoAwayFrame(flags: U16, sid: StreamId, code: U32): Frame {
    Frame(Header(VERSION, GO_AWAY, flags, sid, code), [])
  }

  /** A go-away changes one thing: from then on no stream can be opened. */
  lemma GoAwayIsTaken(s: S.Session, flags: U16, sid: StreamId, code: U32)
    requires s.recvBuf == []
    ensures var s' := S.Receive(s, Encode(GoAwayFrame(flags, sid, code)));
      && s' == s.(mux := s.mux.(goAway := true))
      && Open(s'.mux) == Reply(s'.mux, [], Err(ShuttingDown))
  {
    OneFrame(s, GoAwayFrame(flags, sid, code));
    assert s.sendBuf + [] == s.sendBuf;
  }

  /** And it is never taken back, whatever the session is asked to do or receives. */
  lemma GoAwayIsFinal(n: Net, a: Action)
    requires n.near.mux.goAway
    ensures Act(n, a).near.mux.goAway && (a == Opening ==> Act(n, a) == n)
  {
    if a == Opening { assert n.out + [] == n.out; }
  }

  /** Nothing but a received go-away has that effect. */
  lemma GoAwayHasACause(m: Mux, f: Frame)
    ensures Handle(m, f).mux.goAway <==> m.goAway || (f.hdr.version == VERSION && f.hdr.kind == GO_AWAY)
  {
  }

  /** Frames of another version, of an unknown kind, and of stream 0 do nothing; so do those of streams not held. */
  lemma IgnoredFrames(m: Mux, f: Frame)
    requires
      || f.hdr.version != VERSION || f.hdr.kind > GO_AWAY
      || ((f.hdr.kind == DATA || f.hdr.kind == WINDOW_UPDATE)
            && (f.hdr.streamId == 0 || (f.hdr.streamId !in m.streams && !HasFlag(f.hdr.flags, SYN))))
    ensures Handle(m, f) == Step(m, [])
  {
  }

  predicate OfStream(f: Frame) {
    f.hdr.version == VERSION && (f.hdr.kind == DATA || f.hdr.kind == WINDOW_UPDATE) && f.hdr.streamId != 0
  }

  /** A SYN with an id of the session's own parity is answered with a go-away of code 1, and with nothing else. */
  lemma OwnIdIsRefused(m: Mux, f: Frame)
    requires OfStream(f) && HasFlag(f.hdr.flags, SYN) && (f.hdr.streamId % 2 == 1 <==> m.isClient)
    ensures Handle(m, f) == Step(m, [GoAwayFrame(0, 0, 1)])
  {
  }

  /** Both sessions hold the stream alike, or not at all. */
  predicate Alike(m: Mux, m': Mux, x: StreamId) {
    && (x in m'.streams <==> x in m.streams) && (x in m'.windows <==> x in m.windows)
    && (x in m.streams ==> m'.streams[x] == m.streams[x]) && (x in m.windows ==> m'.windows[x] == m.windows[x])
  }

  lemma DeliveredElsewhere(m: Mux, f: Frame, x: StreamId)
    requires f.hdr.streamId in m.streams && x != f.hdr.streamId
    ensures Alike(m, Deliver(m, f), x)
  {
    var sid := f.hdr.streamId;
    var m1 := if f.hdr.kind == WINDOW_UPDATE && f.hdr.length > 0 then AddCredit(m, sid, f.hdr.length) else m;
    assert Alike(m, m1, x);
    var m2 := Append(m1, sid, f.payload);
    assert Alike(m, m2, x);
    var m3 := if HasFlag(f.hdr.flags, FIN) then YamuxMux.Finish(m2, sid) else m2;
    assert Alike(m, m3, x);
    assert Alike(m3, Abort(m3, sid), x);
  }

  lemma EnteredElsewhere(m: Mux, sid: StreamId, syn: bool, x: StreamId)
    requires x != sid
    ensures Enter(m, sid, syn).Some? ==> Alike(m, Enter(m, sid, syn).value.mux, x)
  {
  }

  lemma HandledElsewhere(m: Mux, f: Frame, x: StreamId)
    requires x != f.hdr.streamId
    ensures Alike(m, HandleStream(m, f).mux, x)
  {
    var syn := HasFlag(f.hdr.flags, SYN);
    var entered := Enter(m, f.hdr.streamId, syn);
    if (syn ==> IsRemoteId(m, f.hdr.streamId)) && entered.Some? {
      EnteredElsewhere(m, f.hdr.streamId, syn, x);
      DeliveredElsewhere(entered.value.mux, f, x);
    }
  }

  /** A frame touches no stream but its own. */
  lemma OtherStreamsAreUntouched(m: Mux, f: Frame, x: StreamId)
    requires x != f.hdr.streamId
    ensures Alike(m, Handle(m, f).mux, x)
  {
    HandledElsewhere(m, f, x);
  }

  /** A frame that is looked at: of a stream that is held, or that the peer may open with it. */
  predicate Admitted(m: Mux, f: Frame) {
    var sid := f.hdr.streamId;
    OfStream(f) && if HasFlag(f.hdr.flags, SYN) then (sid % 2 == 0 <==> m.isClient) else sid in m.streams
  }

  /** The stream that a frame finds: the one that is held, or a new one with a full window. */
  function Found(m: Mux, sid: StreamId): Stream { if sid in m.streams then m.streams[sid] else NEW_STREAM }

  function Room(m: Mux, sid: StreamId): U32 { if sid in m.windows then m.windows[sid] else INITIAL_WINDOW }

  /** Payload is appended, and FIN ends reading. */
  function Filled(s: Stream, f: Frame): Stream {
    Stream(s.readClosed || HasFlag(f.hdr.flags, FIN), s.writeClosed, s.wasReset, s.recvBuf + f.payload)
  }

  /** What is reported: a FIN that ends the stream, because this end has closed it and read it out, and any reset. */
  function Reported(s: Stream, f: Frame): seq<(StreamId, CloseReason)> {
    (if HasFlag(f.hdr.flags, FIN) && (s.wasReset || (s.writeClosed && s.recvBuf + f.payload == [])) then
      [(f.hdr.streamId, FinishedByPeer)] else [])
    + if HasFlag(f.hdr.flags, RST) then [(f.hdr.streamId, ResetByPeer)] else []
  }

  /** Credit is added to the window, and saturates. */
  function Credited(window: U32, f: Frame): U32 {
    if f.hdr.kind == WINDOW_UPDATE then Min(window + f.hdr.length, U32_MAX) else window
  }

  /** Everything that an admitted frame does: a new stream is announced and acknowledged, a reset takes it away. */
  lemma StreamFrameMeans(m: Mux, f: Frame)
    requires Admitted(m, f) && m.streams.Keys == m.windows.Keys
    ensures var (sid, m') := (f.hdr.streamId, Handle(m, f).mux);
      && Handle(m, f).frames == (if sid in m.streams then [] else [DataFrame(sid, ACK)])
      && m'.accepted == m.accepted + (if sid in m.streams then [] else [sid])
      && m'.closed == m.closed + Reported(Found(m, sid), f)
      && m'.nextId == m.nextId && m'.isClient == m.isClient && m'.goAway == m.goAway
      && (sid in m'.streams <==> !HasFlag(f.hdr.flags, RST)) && (sid in m'.windows <==> !HasFlag(f.hdr.flags, RST))
      && (sid in m'.streams ==> m'.streams[sid] == Filled(Found(m, sid), f))
      && (sid in m'.windows ==> m'.windows[sid] == Credited(Room(m, sid), f))
  {
    var sid := f.hdr.streamId;
    var e := Enter(m, sid, HasFlag(f.hdr.flags, SYN)).value;
    assert e.mux.streams[sid] == Found(m, sid) && e.mux.windows[sid] == Room(m, sid);
    DeliverMeans(e.mux, f);
    assert m.accepted + [] == m.accepted;
  }

  lemma DeliverMeans(m: Mux, f: Frame)
    requires f.hdr.streamId in m.streams && f.hdr.streamId in m.windows
    requires f.hdr.kind == DATA || f.hdr.kind == WINDOW_UPDATE
    ensures var (sid, m') := (f.hdr.streamId, Deliver(m, f));
      && m'.closed == m.closed + Reported(m.streams[sid], f) && m'.accepted == m.accepted
      && m'.nextId == m.nextId && m'.isClient == m.isClient && m'.goAway == m.goAway
      && (sid in m'.streams <==> !HasFlag(f.hdr.flags, RST)) && (sid in m'.windows <==> !HasFlag(f.hdr.flags, RST))
      && (sid in m'.streams ==> m'.streams[sid] == Filled(m.streams[sid], f))
      && (sid in m'.windows ==> m'.windows[sid] == Credited(m.windows[sid], f))
  {
    var (sid, closed) := (f.hdr.streamId, m.closed);
    assert closed + [] == closed;
    var (finished, reset) := ((sid, FinishedByPeer), (sid, ResetByPeer));
    assert (closed + [finished]) + [reset] == closed + [finished, reset];
  }

  // ---------- one operation ----------

  lemma TakeMeans(m: Mux, sid: StreamId, k: nat)
    requires sid in m.streams && 0 < k <= |m.streams[sid].recvBuf|
    ensures var r := Take(m, sid, k);
      && r.result.Ok? && |r.result.value| == k && r.frames == [CreditFrame(sid, k)]
      && sid in r.mux.streams && r.result.value + r.mux.streams[sid].recvBuf == m.streams[sid].recvBuf
      && forall x :: x != sid ==> Alike(m, r.mux, x)
  {
    var buf := m.streams[sid].recvBuf;
    assert buf == buf[..k] + buf[k..];
  }

  /** A read takes the oldest bytes, as many as asked for and there are, and sends exactly that much credit. */
  lemma ReadMeans(m: Mux, sid: StreamId, n: nat)
    requires sid in m.streams && m.streams[sid].recvBuf != []
    ensures var r := Read(m, sid, n);
      && r.result.Ok? && |r.result.value| == Min(n, |m.streams[sid].recvBuf|)
      && r.frames == (if r.result.value == [] then [] else [CreditFrame(sid, |r.result.value|)])
      && sid in r.mux.streams && r.result.value + r.mux.streams[sid].recvBuf == m.streams[sid].recvBuf
      && forall x :: x != sid ==> Alike(m, r.mux, x)
  {
    if n == 0 {
      assert [] + m.streams[sid].recvBuf == m.streams[sid].recvBuf;
    } else {
      TakeMeans(m, sid, Min(n, |m.streams[sid].recvBuf|));
    }
  }

  /** Closing sends one FIN, the first time and on a stream that is held; from then on writing is refused. */
  lemma ClosingMeans(m: Mux, sid: StreamId, data: seq<Byte>)
    ensures var r := CloseWrite(m, sid);
      && r.frames == (if sid in m.streams && !m.streams[sid].writeClosed then [DataFrame(sid, FIN)] else [])
      && Write(r.mux, sid, data).result == Err(ClosedForWriting) && CloseWrite(r.mux, sid).frames == []
      && (sid in m.streams ==> sid in r.mux.streams && r.mux.streams[sid].recvBuf == m.streams[sid].recvBuf)
      && forall x :: x != sid ==> Alike(m, r.mux, x)
  {
  }

  /** A reset is always sent; after it the stream reads as ended, and writing and closing do nothing. */
  lemma ResettingMeans(m: Mux, sid: StreamId, data: seq<Byte>, n: nat)
    ensures var r := Reset(m, sid);
      && r.frames == [DataFrame(sid, RST)] && sid !in r.mux.streams && sid !in r.mux.windows
      && r.mux.closed == m.closed
      && Write(r.mux, sid, data) == Reply(r.mux, [], Err(ClosedForWriting)) && CloseWrite(r.mux, sid) == Step(r.mux, [])
      && Read(r.mux, sid, n) == Reply(r.mux, [], Ok([]))
      && forall x :: x != sid ==> Alike(m, r.mux, x)
  {
  }

  // ---------- resets, over every run ----------

  /**
   * What the peer reset is on its way or has taken the stream away; what was taken away and not reset by the party
   * itself was reported as reset by the peer, and only that was.
   */
  ghost predicate ResetRow(p: Party, peer: Party, inn: seq<Frame>, sid: StreamId) {
    && (sid in peer.resets ==> sid in Marked(inn, RST) || Gone(p, sid))
    && (Gone(p, sid) && sid !in p.resets ==> (sid, ResetByPeer) in p.mux.closed)
    && ((sid, ResetByPeer) in p.mux.closed ==> sid in peer.resets)
  }

  ghost predicate ResetRows(n: Net) {
    forall sid :: ResetRow(n.near, n.far, n.inn, sid) && ResetRow(n.far, n.near, n.out, sid)
  }

  /** The party holds and knows the same streams, and has reset and reported the same. */
  ghost predicate HoldsTheSame(p: Party, p': Party) {
    && p'.resets == p.resets && p'.mux.closed == p.mux.closed
    && forall x :: (Knows(p', x) <==> Knows(p, x)) && (x in p'.mux.streams <==> x in p.mux.streams)
  }

  lemma SendsNoReset(n: Net, n': Net, f: Frame)
    requires ResetRows(n) && HoldsTheSame(n.near, n'.near) && n'.far == n.far && n'.inn == n.inn
    requires n'.out == n.out + [f] && f.hdr.flags != RST
    ensures ResetRows(n')
  {
    MarkedSnoc(n.out, f, RST);
    forall sid ensures ResetRow(n'.near, n'.far, n'.inn, sid) && ResetRow(n'.far, n'.near, n'.out, sid) {
      assert ResetRow(n.near, n.far, n.inn, sid) && ResetRow(n.far, n.near, n.out, sid);
    }
  }

  lemma OpenRows(n: Net)
    requires Inv(n) && ResetRows(n) && InIds(Opens(n).near)
    ensures ResetRows(Opens(n))
  {
    NextIdIsNew(n);
    var n', f := Opens(n), DataFrame(n.near.mux.nextId, SYN);
    MarkedSnoc(n.out, f, RST);
    forall sid ensures ResetRow(n'.near, n'.far, n'.inn, sid) && ResetRow(n'.far, n'.near, n'.out, sid) {
      assert ResetRow(n.near, n.far, n.inn, sid) && ResetRow(n.far, n.near, n.out, sid);
    }
  }

  lemma WriteRows(n: Net, sid: StreamId, data: seq<Byte>)
    requires ResetRows(n)
    ensures ResetRows(Writes(n, sid, data))
  {
    var r := Write(n.near.mux, sid, data).result;
    if r.Ok? { SendsNoReset(n, Writes(n, sid, data), PayloadFrame(sid, data[..r.value])); }
  }

  lemma ReadRows(n: Net, sid: StreamId, count: nat)
    requires ResetRows(n)
    ensures ResetRows(Reads(n, sid, count))
  {
    if Read(n.near.mux, sid, count).frames != [] {
      SendsNoReset(n, Reads(n, sid, count), CreditFrame(sid, Min(count, |Buffered(n.near, sid)|)));
    }
  }

  lemma CloseRows(n: Net, sid: StreamId)
    requires ResetRows(n)
    ensures ResetRows(Closes(n, sid))
  {
    if CloseWrite(n.near.mux, sid).frames == [] {
      assert n.out + [] == n.out;
    } else {
      SendsNoReset(n, Closes(n, sid), DataFrame(sid, FIN));
    }
  }

  lemma ResetRowsAfterReset(n: Net, sid: StreamId)
    requires ResetRows(n)
    ensures ResetRows(Resets(n, sid))
  {
    if Knows(n.near, sid) {
      var n', f := Resets(n, sid), DataFrame(sid, RST);
      MarkedSnoc(n.out, f, RST);
      forall x ensures ResetRow(n'.near, n'.far, n'.inn, x) && ResetRow(n'.far, n'.near, n'.out, x) {
        assert ResetRow(n.near, n.far, n.inn, x) && ResetRow(n.far, n.near, n.out, x);
      }
    }
  }

  // ---------- receiving ----------

  lemma AcceptRows(n: Net)
    requires ResetRows(n) && Acceptable(n)
    ensures ResetRows(Accepts(n))
  {
    var n', f := Accepts(n), DataFrame(n.inn[0].hdr.streamId, ACK);
    MarkedSnoc(n.out, f, RST);
    assert Marked(n.inn, RST) == Marked(n'.inn, RST);
    forall x ensures ResetRow(n'.near, n'.far, n'.inn, x) && ResetRow(n'.far, n'.near, n'.out, x) {
      assert ResetRow(n.near, n.far, n.inn, x) && ResetRow(n.far, n.near, n.out, x);
    }
  }

  lemma DropRows(n: Net)
    requires ResetRows(n) && n.inn != [] && Gone(n.near, n.inn[0].hdr.streamId)
    ensures ResetRows(Drops(n, n.near.mux))
  {
    var n' := Drops(n, n.near.mux);
    forall x ensures ResetRow(n'.near, n'.far, n'.inn, x) && ResetRow(n'.far, n'.near, n'.out, x) {
      assert ResetRow(n.near, n.far, n.inn, x) && ResetRow(n.far, n.near, n.out, x);
    }
  }

  lemma ReceiptRows(n: Net)
    requires ResetRows(n) && Receivable(n)
    ensures ResetRows(Receipt(n))
  {
    var n' := Receipt(n);
    assert Marked(n.inn, RST) == Marked(n'.inn, RST);
    ClosedByFin(n.near.mux, n.inn[0]);
    forall x ensures ResetRow(n'.near, n'.far, n'.inn, x) && ResetRow(n'.far, n'.near, n'.out, x) {
      assert ResetRow(n.near, n.far, n.inn, x) && ResetRow(n.far, n.near, n.out, x);
    }
  }

  /** Whatever is settled without a reset reports no reset and keeps the tables. */
  lemma ClosedByFin(m: Mux, f: Frame)
    requires f.hdr.streamId in m.streams && f.hdr.streamId in m.windows && f.hdr.flags != RST
    ensures forall x :: (x, ResetByPeer) in Settle(m, f).closed <==> (x, ResetByPeer) in m.closed
    ensures Settle(m, f).streams.Keys == m.streams.Keys
  {
  }

  lemma RstRows(n: Net)
    requires ResetRows(n) && n.inn != [] && n.inn[0].hdr.flags == RST && n.inn[0].hdr.streamId in n.far.resets
    requires n.inn[0].hdr.streamId in n.near.mux.streams && n.inn[0].hdr.streamId in n.near.mux.windows
    requires Knows(n.near, n.inn[0].hdr.streamId)
    ensures ResetRows(Drops(n, Settle(n.near.mux, n.inn[0])))
  {
    var n', sid := Drops(n, Settle(n.near.mux, n.inn[0])), n.inn[0].hdr.streamId;
    assert n'.near.mux.closed == n.near.mux.closed + [(sid, ResetByPeer)];
    forall x ensures ResetRow(n'.near, n'.far, n'.inn, x) && ResetRow(n'.far, n'.near, n'.out, x) {
      assert ResetRow(n.near, n.far, n.inn, x) && ResetRow(n.far, n.near, n.out, x);
    }
  }

  lemma ReceiveRows(n: Net)
    requires Inv(n) && ResetRows(n)
    ensures ResetRows(Receives(n))
  {
    if n.inn != [] {
      var f, m := n.inn[0], n.near.mux;
      InvAt(n, f.hdr.streamId);
      assert Plain(f) && n.out + [] == n.out;
      if f.hdr.flags == SYN {
        SynIsNew(n);
        HandleSyn(m, f);
        AcceptRows(n);
      } else if f.hdr.streamId !in m.streams {
        NonSynIsKnown(n);
        HandleUnknown(m, f);
        DropRows(n);
      } else {
        HandleExisting(m, f);
        if f.hdr.flags == RST { RstRows(n); } else { ReceiptRows(n); }
      }
    }
  }

  lemma ActRows(n: Net, a: Action)
    requires Inv(n) && ResetRows(n) && Unwrapped(Act(n, a))
    ensures ResetRows(Act(n, a))
  {
    match a
    case Opening => OpenRows(n);
    case Writing(sid, data) => WriteRows(n, sid, data);
    case Reading(sid, count) => ReadRows(n, sid, count);
    case Closing(sid) => CloseRows(n, sid);
    case Resetting(sid) => ResetRowsAfterReset(n, sid);
    case Receiving => ReceiveRows(n);
  }

  lemma FlipRows(n: Net)
    requires ResetRows(n)
    ensures ResetRows(Flip(n))
  {
    forall x ensures ResetRow(n.far, n.near, n.out, x) && ResetRow(n.near, n.far, n.inn, x) {
      assert ResetRow(n.near, n.far, n.inn, x);
    }
  }

  lemma ApplyRows(n: Net, m: Move)
    requires Inv(n) && ResetRows(n) && Unwrapped(Apply(n, m))
    ensures ResetRows(Apply(n, m))
  {
    match m
    case Near(a) => ActRows(n, a);
    case Far(a) =>
      FlipKeeps(n);
      FlipRows(n);
      ActRows(Flip(n), a);
      FlipRows(Act(Flip(n), a));
  }

  lemma {:induction false} RunRows(nearIsClient: bool, moves: seq<Move>)
    requires Unwrapped(Run(Start(nearIsClient), moves))
    ensures ResetRows(Run(Start(nearIsClient), moves))
  {
    if moves == [] {
    } else {
      var before := Run(Start(nearIsClient), moves[..|moves| - 1]);
      OpensGrow(before, moves[|moves| - 1]);
      RunRows(nearIsClient, moves[..|moves| - 1]);
      RunHolds(nearIsClient, moves[..|moves| - 1]);
      ApplyRows(before, moves[|moves| - 1]);
    }
  }

  /**
   * Once the reset of a stream by the peer has arrived, the stream is in neither table; it was reported as reset by
   * the peer unless this end reset it too; a read then says that it has ended and a write is refused.
   */
  lemma ResetsArrive(n: Net, sid: StreamId)
    requires Reached(n) && sid in n.far.resets && sid !in Marked(n.inn, RST)
    ensures Knows(n.near, sid) && sid !in n.near.mux.streams && sid !in n.near.mux.windows
    ensures sid !in n.near.resets ==> (sid, ResetByPeer) in n.near.mux.closed
    ensures forall count :: Read(n.near.mux, sid, count).result == Ok([])
    ensures forall data :: Write(n.near.mux, sid, data).result == Err(ClosedForWriting)
  {
    var nearIsClient, moves :| n == Run(Start(nearIsClient), moves);
    RunRows(nearIsClient, moves);
    ReachedHolds(n);
    assert ResetRow(n.near, n.far, n.inn, sid) && Row(n.near, n.far, sid);
  }

  /** Nothing is ever reported as reset by the peer that the peer did not reset. */
  lemma ReportedResetsAreReal(n: Net, sid: StreamId)
    requires Reached(n) && (sid, ResetByPeer) in n.near.mux.closed
    ensures sid in n.far.resets
  {
    var nearIsClient, moves :| n == Run(Start(nearIsClient), moves);
    RunRows(nearIsClient, moves);
    assert ResetRow(n.near, n.far, n.inn, sid);
  }

  /** A stream is held until one of the two ends resets it: closing it in both directions does not take it away. */
  lemma HeldUntilReset(n: Net, sid: StreamId)
    requires Reached(n) && Knows(n.near, sid)
    ensures sid !in n.near.mux.streams && sid !in n.near.resets ==>
      sid in n.far.resets && (sid, ResetByPeer) in n.near.mux.closed
  {
    var nearIsClient, moves :| n == Run(Start(nearIsClient), moves);
    RunRows(nearIsClient, moves);
    ReachedHolds(n);
    assert ResetRow(n.near, n.far, n.inn, sid) && Row(n.near, n.far, sid);
  }

  // ---------- the end of a stream, and flow control ----------

  /** An arriving FIN is reported as the end of the stream exactly if this end has closed it too and read it out. */
  lemma FinIsReported(n: Net)
    requires Reached(n) && n.inn != [] && n.inn[0].hdr.flags == FIN && n.inn[0].hdr.streamId in n.near.mux.streams
    ensures var sid := n.inn[0].hdr.streamId;
      Receives(n).near.mux.closed
        == n.near.mux.closed
             + (if sid in n.near.fins && Buffered(n.near, sid) == [] then [(sid, FinishedByPeer)] else [])
  {
    ReachedHolds(n);
    InvAt(n, n.inn[0].hdr.streamId);
    assert Plain(n.inn[0]) && Row(n.near, n.far, n.inn[0].hdr.streamId);
    HandleExisting(n.near.mux, n.inn[0]);
    assert n.near.mux.closed + [] == n.near.mux.closed;
  }

  /** How much of a stream has been written and not yet been credited back. */
  function Outstanding(n: Net, sid: StreamId): nat {
    |Payload(n.out, sid)| + |Buffered(n.far, sid)| + Credit(n.inn, sid)
  }

  /**
   * A write on an open stream accepts as many bytes as 256 KiB leave beyond what is outstanding. With no room, or no
   * bytes, it asks to be called again; on a stream closed for writing it says so.
   */
  lemma WriteMeans(n: Net, sid: StreamId, data: seq<Byte>)
    requires Reached(n) && NeverReset(n, sid) && Knows(n.near, sid)
    ensures Outstanding(n, sid) <= INITIAL_WINDOW
    ensures var room := Min(|data|, INITIAL_WINDOW - Outstanding(n, sid));
      Write(n.near.mux, sid, data).result
        == if sid in n.near.fins then Err(ClosedForWriting) else if room == 0 then Err(Eagain) else Ok(room)
  {
    CreditIsConserved(n, sid);
    TablesAgree(n);
    ReachedHolds(n);
    assert Row(n.near, n.far, sid);
  }
}
