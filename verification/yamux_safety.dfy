/** Every step of two joined yamux sessions keeps the invariant of module YamuxNet. */
module YamuxSafety {
  import opened Bytes
  import opened YamuxFrame
  import opened YamuxMux
  import opened YamuxNet

  /** A frame may be appended if it is one that the party may send now. */
  lemma Emit(p: Party, p': Party, q: seq<Frame>, f: Frame)
    requires Sent(p, q) && Plain(f) && Knows(p', f.hdr.streamId)
    requires p.opens <= p'.opens && p.fins <= p'.fins && p.resets <= p'.resets
    requires forall sid :: Knows(p, sid) ==> Knows(p', sid)
    requires f.hdr.flags == SYN ==> !Knows(p, f.hdr.streamId) && f.hdr.streamId in p'.opens
    requires f.payload != [] ==> f.hdr.streamId !in p.fins
    requires f.hdr.flags == FIN ==> f.hdr.streamId in p'.fins && f.hdr.streamId !in p.fins
    requires f.hdr.flags == RST ==> f.hdr.streamId in p'.resets
    ensures Sent(p', q + [f])
  {
    var r := q + [f];
    forall i | 0 <= i < |r|
      ensures Plain(r[i]) && Knows(p', r[i].hdr.streamId)
      ensures r[i].hdr.flags == SYN ==> r[i].hdr.streamId in p'.opens
    {
      if i < |q| { assert r[i] == q[i]; }
    }
  }

  /** The party changed at most its record of one stream. */
  ghost predicate SameBut(p: Party, p': Party, sid: StreamId) {
    && p'.mux.isClient == p.mux.isClient
    && p'.mux.goAway == p.mux.goAway
    && forall x :: x != sid ==>
      && (Knows(p', x) <==> Knows(p, x))
      && (x in p'.mux.streams <==> x in p.mux.streams)
      && (x in p.mux.streams ==> p'.mux.streams[x] == p.mux.streams[x])
      && (x in p'.mux.windows <==> x in p.mux.windows)
      && Window(p', x) == Window(p, x)
      && At(p'.wrote, x) == At(p.wrote, x)
      && (x in p'.wrote ==> x in p.wrote)
      && At(p'.got, x) == At(p.got, x)
      && (x in p'.fins <==> x in p.fins)
      && (x in p'.resets <==> x in p.resets)
  }

  /** A queue with one more or one less frame of stream `sid` is the same queue for every other stream. */
  predicate SameElsewhere(q: seq<Frame>, q': seq<Frame>, x: StreamId) {
    Payload(q', x) == Payload(q, x) && Credit(q', x) == Credit(q, x) && (x in Marked(q', FIN) <==> x in Marked(q, FIN))
  }

  lemma LanesElsewhere(p: Party, p': Party, peer: Party, fwd: seq<Frame>, fwd': seq<Frame>,
                       bwd: seq<Frame>, bwd': seq<Frame>, sid: StreamId, x: StreamId)
    requires SameBut(p, p', sid) && x != sid
    requires SameElsewhere(fwd, fwd', x) && SameElsewhere(bwd, bwd', x)
    ensures LaneOf(p', peer, fwd', bwd', x) == LaneOf(p, peer, fwd, bwd, x)
    ensures LaneOf(peer, p', bwd', fwd', x) == LaneOf(peer, p, bwd, fwd, x)
  {
  }

  lemma TablesAfter(p: Party, p': Party, peer: Party, sid: StreamId)
    requires Tables(p, peer) && SameBut(p, p', sid) && Row(p', peer, sid)
    ensures Tables(p', peer)
  {
    forall x ensures Row(p', peer, x) {
      assert Row(p, peer, x);
    }
  }

  lemma PeerTablesAfter(p: Party, p': Party, peer: Party)
    requires Tables(peer, p) && p.resets <= p'.resets
    ensures Tables(peer, p')
  {
    forall x ensures Row(peer, p', x) {
      assert Row(peer, p, x);
    }
  }

  lemma FlowsAfter(n: Net, n': Net, sid: StreamId)
    requires Flows(n) && n'.far == n.far
    requires SameBut(n.near, n'.near, sid)
    requires forall x :: x != sid ==> SameElsewhere(n.out, n'.out, x) && SameElsewhere(n.inn, n'.inn, x)
    requires Sound(Tx(n', sid)) && Sound(Rx(n', sid))
    ensures Flows(n')
  {
    forall x ensures Sound(Tx(n', x)) && Sound(Rx(n', x)) {
      if x != sid {
        assert SameElsewhere(n.out, n'.out, x) && SameElsewhere(n.inn, n'.inn, x);
        LanesElsewhere(n.near, n'.near, n.far, n.out, n'.out, n.inn, n'.inn, sid, x);
        assert Sound(Tx(n, x)) && Sound(Rx(n, x));
      }
    }
  }

  /** A frame of one stream is invisible to the others. */
  lemma SnocElsewhere(q: seq<Frame>, f: Frame, x: StreamId)
    requires x != f.hdr.streamId
    ensures SameElsewhere(q, q + [f], x)
  {
    PayloadSnoc(q, f, x);
    CreditSnoc(q, f, x);
    MarkedSnoc(q, f, FIN);
  }

  /** The near end sent one frame, neither a SYN nor an ACK, and did to that stream what the invariant allows. */
  ghost predicate SendsSoundly(n: Net, n': Net, f: Frame) {
    var p, p', sid := n.near, n'.near, f.hdr.streamId;
    && n'.far == n.far && n'.inn == n.inn && n'.out == n.out + [f]
    && Plain(f) && f.hdr.flags != SYN && f.hdr.flags != ACK
    && SameBut(p, p', sid) && Knows(p, sid)
    && p'.opens == p.opens && p'.acked == p.acked && p'.mux.accepted == p.mux.accepted && p'.mux.nextId == p.mux.nextId
    && p.fins <= p'.fins && p.resets <= p'.resets
    && (f.payload != [] ==> sid !in p.fins)
    && (f.hdr.flags == FIN ==> sid in p'.fins && sid !in p.fins)
    && (f.hdr.flags == RST ==> sid in p'.resets)
    && SoundAt(n', sid)
  }

  /** The part of the invariant about one stream. */
  predicate SoundAt(n: Net, sid: StreamId) {
    Row(n.near, n.far, sid) && Sound(Tx(n, sid)) && Sound(Rx(n, sid))
  }

  lemma InvAt(n: Net, sid: StreamId)
    requires Inv(n)
    ensures SoundAt(n, sid)
  {
  }

  lemma SendKeepsFlows(n: Net, n': Net, f: Frame)
    requires Inv(n) && SendsSoundly(n, n', f)
    ensures Flows(n')
  {
    forall x | x != f.hdr.streamId ensures SameElsewhere(n.out, n'.out, x) && SameElsewhere(n.inn, n.inn, x) {
      SnocElsewhere(n.out, f, x);
    }
    FlowsAfter(n, n', f.hdr.streamId);
  }

  lemma SendKeepsTables(n: Net, n': Net, f: Frame)
    requires Inv(n) && SendsSoundly(n, n', f)
    ensures Tables(n'.near, n'.far) && Tables(n'.far, n'.near) && Sent(n'.near, n'.out)
  {
    Emit(n.near, n'.near, n.out, f);
    TablesAfter(n.near, n'.near, n.far, f.hdr.streamId);
    PeerTablesAfter(n.near, n'.near, n.far);
  }

  lemma SendHalves(n: Net, n': Net, f: Frame)
    requires Half(n.near, n.far, n.out, n.inn) && Half(n.far, n.near, n.inn, n.out) && SendsSoundly(n, n', f)
    requires Tables(n'.near, n'.far) && Tables(n'.far, n'.near) && Sent(n'.near, n'.out)
    ensures Half(n'.near, n'.far, n'.out, n'.inn) && Half(n'.far, n'.near, n'.inn, n'.out)
  {
    MarkedSnoc(n.out, f, SYN);
    MarkedSnoc(n.out, f, ACK);
    assert Marked(n.out, SYN) + [] == Marked(n.out, SYN) && Marked(n.out, ACK) + [] == Marked(n.out, ACK);
  }

  lemma SendKeeps(n: Net, n': Net, f: Frame)
    requires Inv(n) && SendsSoundly(n, n', f)
    ensures Inv(n')
  {
    SendKeepsFlows(n, n', f);
    SendKeepsTables(n, n', f);
    SendHalves(n, n', f);
  }

  lemma SnocHere(q: seq<Frame>, f: Frame)
    ensures Payload(q + [f], f.hdr.streamId) == Payload(q, f.hdr.streamId) + f.payload
    ensures Credit(q + [f], f.hdr.streamId) == Credit(q, f.hdr.streamId) + CreditOf(f, f.hdr.streamId)
    ensures f.hdr.streamId in Marked(q + [f], FIN) <==> f.hdr.streamId in Marked(q, FIN) || f.hdr.flags == FIN
  {
    PayloadSnoc(q, f, f.hdr.streamId);
    CreditSnoc(q, f, f.hdr.streamId);
    MarkedSnoc(q, f, FIN);
  }

  // ---------- one lane under one operation ----------

  lemma LaneWrites(l: Lane, l': Lane, data: seq<Byte>)
    requires Sound(l) && !l.gone && !l.finished
    requires l' == l.(window := l.window - |data|, wrote := l.wrote + data, payload := l.payload + data)
    ensures Sound(l')
  {
    assert l.got + l.buffered + (l.payload + data) == (l.got + l.buffered + l.payload) + data;
  }

  lemma LaneReads(l: Lane, l': Lane, k: nat, credit: nat)
    requires Sound(l) && !l.peerGone && k <= |l.buffered|
    requires !l.gone ==> credit == k
    requires l' == l.(buffered := l.buffered[k..], got := l.got + l.buffered[..k], credit := l.credit + credit)
    ensures Sound(l')
  {
    assert l.buffered == l.buffered[..k] + l.buffered[k..];
    assert (l.got + l.buffered[..k]) + l.buffered[k..] + l.payload == l.got + l.buffered + l.payload;
  }

  lemma PutLanes(n: Net, sid: StreamId, data: seq<Byte>)
    requires SoundAt(n, sid)
    requires sid in n.near.mux.streams && !n.near.mux.streams[sid].writeClosed && 0 < |data| <= n.near.mux.windows[sid]
    ensures Sound(Tx(Puts(n, sid, data), sid)) && Sound(Rx(Puts(n, sid, data), sid))
  {
    var n' := Puts(n, sid, data);
    SnocHere(n.out, PayloadFrame(sid, data));
    LaneWrites(Tx(n, sid), Tx(n', sid), data);
    assert Rx(n', sid) == Rx(n, sid);
  }

  lemma PutIsSound(n: Net, sid: StreamId, data: seq<Byte>)
    requires SoundAt(n, sid)
    requires sid in n.near.mux.streams && !n.near.mux.streams[sid].writeClosed && 0 < |data| <= n.near.mux.windows[sid]
    ensures SendsSoundly(n, Puts(n, sid, data), PayloadFrame(sid, data))
  {
    PutLanes(n, sid, data);
    assert SameBut(n.near, Puts(n, sid, data).near, sid);
  }

  lemma TakeTx(n: Net, sid: StreamId, k: nat)
    requires sid in n.near.mux.streams && 0 < k <= |Buffered(n.near, sid)|
    ensures Tx(Takes(n, sid, k), sid) == Tx(n, sid)
  {
    SnocHere(n.out, CreditFrame(sid, k));
    assert Payload(n.out, sid) + [] == Payload(n.out, sid);
  }

  lemma TakeRx(n: Net, sid: StreamId, k: nat)
    requires sid in n.near.mux.streams && 0 < k <= |Buffered(n.near, sid)|
    ensures var l := Rx(n, sid);
      Rx(Takes(n, sid, k), sid)
        == l.(buffered := l.buffered[k..], got := l.got + l.buffered[..k], credit := l.credit + Truncate32(k))
  {
    SnocHere(n.out, CreditFrame(sid, k));
  }

  lemma TakeIsLocal(n: Net, sid: StreamId, k: nat)
    requires SoundAt(n, sid)
    requires sid in n.near.mux.streams && 0 < k <= |Buffered(n.near, sid)|
    ensures SameBut(n.near, Takes(n, sid, k).near, sid) && Row(Takes(n, sid, k).near, n.far, sid)
  {
  }

  lemma TakeIsSound(n: Net, sid: StreamId, k: nat)
    requires SoundAt(n, sid)
    requires sid in n.near.mux.streams && 0 < k <= |Buffered(n.near, sid)|
    ensures SendsSoundly(n, Takes(n, sid, k), CreditFrame(sid, k))
  {
    TakeTx(n, sid, k);
    TakeRx(n, sid, k);
    LaneReads(Rx(n, sid), Rx(Takes(n, sid, k), sid), k, Truncate32(k));
    TakeIsLocal(n, sid, k);
  }

  lemma LaneCloses(l: Lane, l': Lane)
    requires Sound(l) && !l.finished && l' == l.(finished := true, finInTransit := true)
    ensures Sound(l')
  {
  }

  /** A lane whose writer, or whose reader, forgot the stream. */
  lemma LaneForgets(l: Lane, l': Lane)
    requires Sound(l)
    requires l' == l.(gone := true, window := l'.window) || l' == l.(peerGone := true, buffered := [], eof := false)
    ensures Sound(l')
  {
  }

  lemma CloseLanes(n: Net, sid: StreamId)
    requires SoundAt(n, sid)
    ensures Sound(Tx(Closes(n, sid), sid)) && Sound(Rx(Closes(n, sid), sid))
  {
    var n' := Closes(n, sid);
    if CloseWrite(n.near.mux, sid).frames == [] {
      assert n.out + [] == n.out;
    } else {
      SnocHere(n.out, DataFrame(sid, FIN));
      assert Payload(n.out, sid) + [] == Payload(n.out, sid);
      LaneCloses(Tx(n, sid), Tx(n', sid));
      assert Rx(n', sid) == Rx(n, sid);
    }
  }

  lemma CloseIsLocal(n: Net, sid: StreamId)
    ensures SameBut(n.near, Closes(n, sid).near, sid)
  {
  }

  lemma CloseRow(n: Net, sid: StreamId)
    requires Row(n.near, n.far, sid)
    ensures Row(Closes(n, sid).near, n.far, sid)
  {
  }

  lemma CloseOfClosed(n: Net, sid: StreamId)
    requires CloseWrite(n.near.mux, sid).frames == []
    ensures Closes(n, sid) == n
  {
    assert n.out + [] == n.out;
  }

  lemma CloseIsSound(n: Net, sid: StreamId)
    requires SoundAt(n, sid)
    ensures var n' := Closes(n, sid);
      n' == n || SendsSoundly(n, n', DataFrame(sid, FIN))
  {
    if CloseWrite(n.near.mux, sid).frames == [] {
      CloseOfClosed(n, sid);
    } else {
      CloseLanes(n, sid);
      CloseIsLocal(n, sid);
      CloseRow(n, sid);
    }
  }

  lemma ResetTx(n: Net, sid: StreamId)
    requires SoundAt(n, sid) && Knows(n.near, sid)
    ensures var l' := Tx(Resets(n, sid), sid); l' == Tx(n, sid).(gone := true, window := l'.window)
  {
    SnocHere(n.out, DataFrame(sid, RST));
    assert Payload(n.out, sid) + [] == Payload(n.out, sid);
  }

  lemma ResetRx(n: Net, sid: StreamId)
    requires SoundAt(n, sid) && Knows(n.near, sid)
    ensures Rx(Resets(n, sid), sid) == Rx(n, sid).(peerGone := true, buffered := [], eof := false)
  {
    SnocHere(n.out, DataFrame(sid, RST));
  }

  lemma ResetLanes(n: Net, sid: StreamId)
    requires SoundAt(n, sid) && Knows(n.near, sid)
    ensures Sound(Tx(Resets(n, sid), sid)) && Sound(Rx(Resets(n, sid), sid))
  {
    ResetTx(n, sid);
    ResetRx(n, sid);
    LaneForgets(Tx(n, sid), Tx(Resets(n, sid), sid));
    LaneForgets(Rx(n, sid), Rx(Resets(n, sid), sid));
  }

  lemma ResetIsSound(n: Net, sid: StreamId)
    requires SoundAt(n, sid)
    ensures var n' := Resets(n, sid);
      n' == n || SendsSoundly(n, n', DataFrame(sid, RST))
  {
    if Knows(n.near, sid) {
      ResetLanes(n, sid);
      assert SameBut(n.near, Resets(n, sid).near, sid);
    }
  }

  // ---------- opening ----------

  /** An end opens its own ids, accepts only ids the other end opened, and the two never meet. */
  lemma OwnIds(p: Party, sid: StreamId)
    requires Numbered(p)
    ensures sid in p.opens ==> sid != 0 && sid as int % 2 == FirstId(p.mux.isClient) as int % 2
    ensures |p.opens| < Capacity(p.mux.isClient) ==> p.mux.nextId != 0 && (sid in p.opens ==> sid < p.mux.nextId)
  {
  }

  lemma IdsApart(p: Party, q: Party, sid: StreamId)
    requires Numbered(p) && Numbered(q) && p.mux.isClient != q.mux.isClient && sid in p.opens
    ensures sid != 0 && sid !in q.opens && IsRemoteId(q.mux, sid) && !IsRemoteId(p.mux, sid)
  {
    OwnIds(p, sid);
    OwnIds(q, sid);
  }

  lemma OpensDiffer(p: Party, i: nat, sid: StreamId)
    requires Numbered(p) && i < |p.opens| && sid == p.opens[i]
    ensures sid !in p.opens[..i]
  {
  }

  lemma AcceptedIds(n: Net, sid: StreamId)
    requires Inv(n) && sid in n.near.mux.accepted
    ensures sid in n.far.opens
  {
    assert sid in n.near.mux.accepted + Marked(n.inn, SYN);
  }

  lemma NextIdIsNew(n: Net)
    requires Inv(n) && |n.near.opens| < Capacity(n.near.mux.isClient)
    ensures n.near.mux.nextId != 0 && !Knows(n.near, n.near.mux.nextId)
  {
    var sid := n.near.mux.nextId;
    OwnIds(n.near, sid);
    if sid in n.near.mux.accepted {
      AcceptedIds(n, sid);
      OwnIds(n.far, sid);
    }
  }

  lemma OpenLanes(n: Net, x: StreamId)
    requires !n.near.mux.goAway && n.near.mux.nextId !in n.near.mux.streams && n.near.mux.nextId !in n.near.mux.windows
    requires !Knows(n.near, n.near.mux.nextId)
    ensures Tx(Opens(n), x) == Tx(n, x) && Rx(Opens(n), x) == Rx(n, x)
  {
    var f := DataFrame(n.near.mux.nextId, SYN);
    PayloadSnoc(n.out, f, x);
    CreditSnoc(n.out, f, x);
    MarkedSnoc(n.out, f, FIN);
    assert Payload(n.out, x) + [] == Payload(n.out, x);
  }

  lemma OpenTables(n: Net)
    requires Tables(n.near, n.far) && Tables(n.far, n.near) && Sent(n.near, n.out) && Numbered(n.near)
    requires n.near.mux.nextId != 0 && !Knows(n.near, n.near.mux.nextId)
      && |n.near.opens| < Capacity(n.near.mux.isClient)
    ensures Tables(Opens(n).near, n.far) && Tables(n.far, Opens(n).near)
    ensures Sent(Opens(n).near, Opens(n).out) && Numbered(Opens(n).near)
  {
    var p, p', sid := n.near, Opens(n).near, n.near.mux.nextId;
    assert Row(p, n.far, sid);
    forall x ensures Row(p', n.far, x) {
      assert Row(p, n.far, x);
    }
    PeerTablesAfter(p, p', n.far);
    Emit(p, p', n.out, DataFrame(sid, SYN));
  }

  /** Flows depend on nothing but the lanes. */
  lemma SameLanes(n: Net, n': Net)
    requires Flows(n)
    requires forall x :: Tx(n', x) == Tx(n, x) && Rx(n', x) == Rx(n, x)
    ensures Flows(n')
  {
    forall x ensures Sound(Tx(n', x)) && Sound(Rx(n', x)) {
      assert Sound(Tx(n, x)) && Sound(Rx(n, x));
    }
  }

  lemma OpenFlows(n: Net)
    requires Inv(n) && n.near.mux.nextId != 0 && !Knows(n.near, n.near.mux.nextId)
    ensures Flows(Opens(n))
  {
    InvAt(n, n.near.mux.nextId);
    forall x ensures Tx(Opens(n), x) == Tx(n, x) && Rx(Opens(n), x) == Rx(n, x) {
      OpenLanes(n, x);
    }
    SameLanes(n, Opens(n));
  }

  lemma OpenCounts(n: Net)
    requires !n.near.mux.goAway && n.far.mux.accepted + Marked(n.out, SYN) == n.near.opens
    ensures n.far.mux.accepted + Marked(Opens(n).out, SYN) == Opens(n).near.opens
    ensures Marked(Opens(n).out, ACK) == Marked(n.out, ACK)
  {
    var f := DataFrame(n.near.mux.nextId, SYN);
    MarkedSnoc(n.out, f, SYN);
    MarkedSnoc(n.out, f, ACK);
    assert n.far.mux.accepted + (Marked(n.out, SYN) + [f.hdr.streamId])
      == n.far.mux.accepted + Marked(n.out, SYN) + [f.hdr.streamId];
  }

  lemma OpenKeeps(n: Net)
    requires Inv(n) && InIds(Opens(n).near)
    ensures Inv(Opens(n))
  {
    NextIdIsNew(n);
    OpenTables(n);
    OpenFlows(n);
    OpenCounts(n);
  }

  // ---------- receiving ----------

  lemma SentTail(p: Party, q: seq<Frame>)
    requires Sent(p, q) && q != []
    ensures Sent(p, q[1..])
  {
    forall i | 0 <= i < |q| - 1
      ensures Plain(q[1..][i]) && Knows(p, q[1..][i].hdr.streamId)
    {
      assert q[1..][i] == q[i + 1];
    }
  }

  lemma TailElsewhere(q: seq<Frame>, x: StreamId)
    requires q != [] && x != q[0].hdr.streamId
    ensures SameElsewhere(q, q[1..], x)
  {
  }

  /** The near end took one frame and did to its stream what the invariant allows. */
  ghost predicate ConsumesSoundly(n: Net, n': Net) {
    n.inn != [] &&
    var p, p', f := n.near, n'.near, n.inn[0];
    && n'.far == n.far && n'.out == n.out && n'.inn == n.inn[1..]
    && f.hdr.flags != SYN
    && SameBut(p, p', f.hdr.streamId)
    && p'.opens == p.opens && p'.mux.accepted == p.mux.accepted && p'.mux.nextId == p.mux.nextId
    && p'.fins == p.fins && p'.resets == p.resets
    && p'.acked == (if f.hdr.flags == ACK then p.acked + [f.hdr.streamId] else p.acked)
    && SoundAt(n', f.hdr.streamId)
  }

  lemma ConsumeFlows(n: Net, n': Net)
    requires Flows(n) && ConsumesSoundly(n, n')
    ensures Flows(n')
  {
    var sid := n.inn[0].hdr.streamId;
    forall x | x != sid ensures SameElsewhere(n.out, n'.out, x) && SameElsewhere(n.inn, n'.inn, x) {
      TailElsewhere(n.inn, x);
    }
    FlowsAfter(n, n', sid);
  }

  lemma ConsumeTables(n: Net, n': Net)
    requires Inv(n) && ConsumesSoundly(n, n')
    ensures Tables(n'.near, n'.far) && Tables(n'.far, n'.near) && Sent(n'.near, n'.out) && Sent(n'.far, n'.inn)
  {
    SentTail(n.far, n.inn);
    TablesAfter(n.near, n'.near, n.far, n.inn[0].hdr.streamId);
    PeerTablesAfter(n.near, n'.near, n.far);
  }

  lemma ConsumeCounts(n: Net, n': Net)
    requires n.inn != [] && n'.inn == n.inn[1..] && n.inn[0].hdr.flags != SYN
    requires n'.near.acked == if n.inn[0].hdr.flags == ACK then n.near.acked + [n.inn[0].hdr.streamId] else n.near.acked
    ensures Marked(n'.inn, SYN) == Marked(n.inn, SYN)
    ensures n'.near.acked + Marked(n'.inn, ACK) == n.near.acked + Marked(n.inn, ACK)
  {
  }

  lemma ConsumeKeeps(n: Net, n': Net)
    requires Inv(n) && ConsumesSoundly(n, n')
    ensures Inv(n')
  {
    ConsumeFlows(n, n');
    ConsumeTables(n, n');
    ConsumeCounts(n, n');
  }

  /** A SYN at the head of the queue is for a stream the end has never seen. */
  lemma SynIsNew(n: Net)
    requires Inv(n) && n.inn != [] && n.inn[0].hdr.flags == SYN
    ensures var sid := n.inn[0].hdr.streamId;
      !Knows(n.near, sid) && IsRemoteId(n.near.mux, sid)
  {
    var sid, i := n.inn[0].hdr.streamId, |n.near.mux.accepted|;
    assert n.far.opens[i] == sid && n.near.mux.accepted == n.far.opens[..i];
    OpensDiffer(n.far, i, sid);
    IdsApart(n.far, n.near, sid);
  }

  /** Any other frame at the head is for a stream the end has seen. */
  lemma NonSynIsKnown(n: Net)
    requires Inv(n) && n.inn != [] && n.inn[0].hdr.flags != SYN
    ensures Knows(n.near, n.inn[0].hdr.streamId)
  {
    var sid := n.inn[0].hdr.streamId;
    assert Knows(n.far, sid);
    if sid in n.far.mux.accepted {
      assert sid in n.far.mux.accepted + Marked(n.out, SYN);
    } else {
      assert sid in n.near.mux.accepted + Marked(n.inn, SYN);
      MarkedIn(n.inn, SYN, sid);
    }
  }

  /** What a session does with a frame that another session of this implementation sent. */
  function Settle(m: Mux, f: Frame): Mux
    requires f.hdr.streamId in m.streams && f.hdr.streamId in m.windows
  {
    var sid, s := f.hdr.streamId, m.streams[f.hdr.streamId];
    if f.hdr.flags == RST then Erase(m.(closed := m.closed + [(sid, ResetByPeer)]), sid)
    else if f.hdr.flags == FIN then Finish(m, sid)
    else if f.hdr.kind == WINDOW_UPDATE then
      m.(windows := m.windows[sid := Min(m.windows[sid] + f.hdr.length, U32_MAX)])
    else m.(streams := m.streams[sid := s.(recvBuf := s.recvBuf + f.payload)])
  }

  lemma PlainFlags(f: Frame)
    requires Plain(f)
    ensures HasFlag(f.hdr.flags, SYN) <==> f.hdr.flags == SYN
    ensures HasFlag(f.hdr.flags, FIN) <==> f.hdr.flags == FIN
    ensures HasFlag(f.hdr.flags, RST) <==> f.hdr.flags == RST
  {
  }

  lemma HandleExisting(m: Mux, f: Frame)
    requires Plain(f) && f.hdr.flags != SYN
    requires f.hdr.streamId in m.streams && f.hdr.streamId in m.windows
    ensures Handle(m, f) == Step(Settle(m, f), [])
  {
    PlainFlags(f);
    var s := m.streams[f.hdr.streamId];
    assert s.recvBuf + [] == s.recvBuf;
    assert m.streams[f.hdr.streamId := s] == m.streams;
    if f.hdr.kind == WINDOW_UPDATE {
      assert m.windows[f.hdr.streamId := m.windows[f.hdr.streamId]] == m.windows;
    }
  }

  lemma HandleUnknown(m: Mux, f: Frame)
    requires Plain(f) && f.hdr.flags != SYN && f.hdr.streamId !in m.streams
    ensures Handle(m, f) == Step(m, [])
  {
    PlainFlags(f);
  }

  lemma HandleSyn(m: Mux, f: Frame)
    requires Plain(f) && f.hdr.flags == SYN && f.hdr.streamId !in m.streams && IsRemoteId(m, f.hdr.streamId)
    ensures var sid := f.hdr.streamId;
      Handle(m, f) == Step(Create(m, sid).(accepted := m.accepted + [sid]), [DataFrame(sid, ACK)])
  {
    PlainFlags(f);
    var sid := f.hdr.streamId;
    var c := Create(m, sid).(accepted := m.accepted + [sid]);
    assert NEW_STREAM.recvBuf + f.payload == [];
    assert c.streams[sid := NEW_STREAM] == c.streams;
    assert Deliver(c, f) == c;
  }

  /** The lane of the reader after one frame. */
  lemma LaneReceives(l: Lane, l': Lane, head: seq<Byte>, rest: seq<Byte>, fin: bool)
    requires Sound(l) && l.payload == head + rest
    requires !l.peerGone ==>
      && (fin ==> head == [] && rest == [] && l.finished && !l'.finInTransit)
      && (l.finInTransit ==> fin || l'.finInTransit)
    requires l'.finInTransit ==> l.finInTransit
    requires l' == l.(payload := rest, finInTransit := l'.finInTransit,
                      buffered := if l.peerGone then l.buffered else l.buffered + head,
                      eof := l.eof || (fin && !l.peerGone))
    ensures Sound(l')
  {
    assert l.got + (l.buffered + head) + rest == l.got + l.buffered + (head + rest);
  }

  /** The lane of the writer when credit comes back; the saturation of the window never sets in. */
  lemma LaneCredits(l: Lane, l': Lane, credit: nat)
    requires Sound(l) && credit <= l.credit
    requires l' == l.(credit := l.credit - credit, window := Min(l.window + credit, U32_MAX))
    requires !l.gone
    ensures Sound(l')
    ensures !l.peerGone ==> l'.window == l.window + credit <= INITIAL_WINDOW
  {
  }

  lemma {:induction false} FinIsLast(q: seq<Frame>, k: nat, sid: StreamId)
    requires forall i :: k <= i < |q| && q[i].hdr.streamId == sid ==> q[i].payload == [] && q[i].hdr.flags != FIN
    requires k <= |q|
    ensures Payload(q[k..], sid) == [] && sid !in Marked(q[k..], FIN)
    decreases |q| - k
  {
    if k < |q| {
      assert q[k..][1..] == q[k + 1..];
      FinIsLast(q, k + 1, sid);
    }
  }

  function Receipt(n: Net): Net
    requires n.inn != [] && n.inn[0].hdr.streamId in n.near.mux.streams && n.inn[0].hdr.streamId in n.near.mux.windows
  {
    var p, f := n.near, n.inn[0];
    n.(near := p.(mux := Settle(p.mux, f), acked := if f.hdr.flags == ACK then p.acked + [f.hdr.streamId] else p.acked),
       inn := n.inn[1..])
  }

  ghost predicate Receivable(n: Net) {
    n.inn != [] && Plain(n.inn[0]) && n.inn[0].hdr.flags != SYN && n.inn[0].hdr.flags != RST
    && n.inn[0].hdr.streamId in n.near.mux.streams && n.inn[0].hdr.streamId in n.near.mux.windows
  }

  lemma ReceiptRx(n: Net)
    requires Receivable(n)
    ensures var f, sid, n' := n.inn[0], n.inn[0].hdr.streamId, Receipt(n);
      var l, l' := Rx(n, sid), Rx(n', sid);
      && !l.peerGone
      && l' == l.(payload := Payload(n'.inn, sid), finInTransit := l'.finInTransit,
                  buffered := l.buffered + f.payload, eof := l.eof || f.hdr.flags == FIN)
      && (l.finInTransit ==> f.hdr.flags == FIN || l'.finInTransit)
      && (l'.finInTransit ==> l.finInTransit)
      && l'.finInTransit == (sid in Marked(n.inn[1..], FIN))
      && l.payload == f.payload + l'.payload
  {
    var s := Buffered(n.near, n.inn[0].hdr.streamId);
    assert s + [] == s;
  }

  lemma ReceiptTx(n: Net)
    requires Receivable(n)
    ensures var f, sid := n.inn[0], n.inn[0].hdr.streamId;
      var l := Tx(n, sid);
      && !l.gone && CreditOf(f, sid) <= l.credit
      && Tx(Receipt(n), sid) == l.(credit := l.credit - CreditOf(f, sid),
        window := Min(l.window + CreditOf(f, sid), U32_MAX))
  {
  }

  lemma FinAtHead(p: Party, q: seq<Frame>)
    requires Sent(p, q) && q != [] && q[0].hdr.flags == FIN
    ensures var sid := q[0].hdr.streamId;
      sid in p.fins && q[0].payload == [] && Payload(q[1..], sid) == [] && sid !in Marked(q[1..], FIN)
  {
    FinIsLast(q, 1, q[0].hdr.streamId);
  }

  lemma ReceiptSoundRx(n: Net)
    requires Receivable(n) && Sent(n.far, n.inn) && Sound(Rx(n, n.inn[0].hdr.streamId))
    ensures Sound(Rx(Receipt(n), n.inn[0].hdr.streamId))
  {
    var f, sid := n.inn[0], n.inn[0].hdr.streamId;
    if f.hdr.flags == FIN { FinAtHead(n.far, n.inn); }
    ReceiptRx(n);
    LaneReceives(Rx(n, sid), Rx(Receipt(n), sid), f.payload, Payload(n.inn[1..], sid), f.hdr.flags == FIN);
  }

  lemma ReceiptSoundTx(n: Net)
    requires Receivable(n) && Sound(Tx(n, n.inn[0].hdr.streamId))
    ensures Sound(Tx(Receipt(n), n.inn[0].hdr.streamId))
  {
    var f, sid := n.inn[0], n.inn[0].hdr.streamId;
    ReceiptTx(n);
    LaneCredits(Tx(n, sid), Tx(Receipt(n), sid), CreditOf(f, sid));
  }

  lemma ReceiptLocal(n: Net)
    requires Receivable(n)
    ensures SameBut(n.near, Receipt(n).near, n.inn[0].hdr.streamId)
  {
  }

  lemma ReceiptRow(n: Net)
    requires Receivable(n) && SoundAt(n, n.inn[0].hdr.streamId)
    ensures Row(Receipt(n).near, n.far, n.inn[0].hdr.streamId)
  {
  }

  lemma ReceiptKeeps(n: Net)
    requires Inv(n) && Receivable(n)
    ensures Inv(Receipt(n))
  {
    InvAt(n, n.inn[0].hdr.streamId);
    ReceiptSoundRx(n);
    ReceiptSoundTx(n);
    ReceiptLocal(n);
    ReceiptRow(n);
    ConsumeKeeps(n, Receipt(n));
  }

  /** An RST takes the stream away; every other frame of a stream already gone is dropped. */
  function Drops(n: Net, m: Mux): Net
    requires n.inn != []
  {
    var p, f := n.near, n.inn[0];
    n.(near := p.(mux := m, acked := if f.hdr.flags == ACK then p.acked + [f.hdr.streamId] else p.acked),
       inn := n.inn[1..])
  }

  /** A frame for a stream that the near end once held and no longer does. */
  ghost predicate Stale(n: Net) {
    n.inn != [] && n.inn[0].hdr.flags != SYN && Gone(n.near, n.inn[0].hdr.streamId) && SoundAt(n, n.inn[0].hdr.streamId)
  }

  lemma DropTx(n: Net)
    requires Stale(n)
    ensures Sound(Tx(Drops(n, n.near.mux), n.inn[0].hdr.streamId))
  {
    var sid, n' := n.inn[0].hdr.streamId, Drops(n, n.near.mux);
    assert Tx(n', sid) == Tx(n, sid).(credit := Credit(n'.inn, sid));
  }

  lemma DropRx(n: Net)
    requires Stale(n)
    ensures Sound(Rx(Drops(n, n.near.mux), n.inn[0].hdr.streamId))
  {
    var sid, n' := n.inn[0].hdr.streamId, Drops(n, n.near.mux);
    assert Rx(n', sid) == Rx(n, sid).(payload := Payload(n'.inn, sid), finInTransit := sid in Marked(n'.inn, FIN));
  }

  lemma DropsSoundly(n: Net)
    requires Stale(n)
    ensures ConsumesSoundly(n, Drops(n, n.near.mux))
  {
    DropTx(n);
    DropRx(n);
  }

  lemma DropKeeps(n: Net)
    requires Inv(n) && n.inn != [] && n.inn[0].hdr.flags != SYN && n.inn[0].hdr.streamId !in n.near.mux.streams
    ensures Inv(Drops(n, n.near.mux))
  {
    InvAt(n, n.inn[0].hdr.streamId);
    NonSynIsKnown(n);
    DropsSoundly(n);
    ConsumeKeeps(n, Drops(n, n.near.mux));
  }

  lemma RstLanes(n: Net)
    requires n.inn != [] && Plain(n.inn[0]) && n.inn[0].hdr.flags == RST
    requires n.inn[0].hdr.streamId in n.near.mux.streams && n.inn[0].hdr.streamId in n.near.mux.windows
    requires SoundAt(n, n.inn[0].hdr.streamId)
    ensures var sid, n' := n.inn[0].hdr.streamId, Drops(n, Settle(n.near.mux, n.inn[0]));
      Sound(Tx(n', sid)) && Sound(Rx(n', sid))
  {
    var sid, n' := n.inn[0].hdr.streamId, Drops(n, Settle(n.near.mux, n.inn[0]));
    assert Payload(n.inn, sid) == [] + Payload(n'.inn, sid);
    LaneForgets(Tx(n, sid), Tx(n', sid));
    LaneForgets(Rx(n, sid), Rx(n', sid));
  }

  lemma RstTakesOne(n: Net)
    requires n.inn != [] && n.inn[0].hdr.streamId in n.near.mux.streams && n.inn[0].hdr.streamId in n.near.mux.windows
    ensures SameBut(n.near, Drops(n, Settle(n.near.mux, n.inn[0])).near, n.inn[0].hdr.streamId)
  {
  }

  lemma RstKeeps(n: Net)
    requires Inv(n) && n.inn != [] && n.inn[0].hdr.flags == RST
    requires n.inn[0].hdr.streamId in n.near.mux.streams && n.inn[0].hdr.streamId in n.near.mux.windows
    ensures Inv(Drops(n, Settle(n.near.mux, n.inn[0])))
  {
    var sid, n' := n.inn[0].hdr.streamId, Drops(n, Settle(n.near.mux, n.inn[0]));
    InvAt(n, sid);
    assert Plain(n.inn[0]) && sid in n.far.resets;
    RstLanes(n);
    RstTakesOne(n);
    ConsumeKeeps(n, n');
  }

  // ---------- accepting ----------

  function Accepts(n: Net): Net
    requires n.inn != []
  {
    var p, sid := n.near, n.inn[0].hdr.streamId;
    n.(near := p.(mux := Create(p.mux, sid).(accepted := p.mux.accepted + [sid])),
       out := n.out + [DataFrame(sid, ACK)], inn := n.inn[1..])
  }

  ghost predicate Acceptable(n: Net) {
    n.inn != [] && Plain(n.inn[0]) && n.inn[0].hdr.flags == SYN && !Knows(n.near, n.inn[0].hdr.streamId)
    && SoundAt(n, n.inn[0].hdr.streamId)
  }

  lemma AcceptTx(n: Net)
    requires Acceptable(n)
    ensures Tx(Accepts(n), n.inn[0].hdr.streamId) == Tx(n, n.inn[0].hdr.streamId)
  {
    var f := DataFrame(n.inn[0].hdr.streamId, ACK);
    SnocHere(n.out, f);
    assert Payload(n.out, f.hdr.streamId) + [] == Payload(n.out, f.hdr.streamId);
  }

  lemma AcceptRx(n: Net)
    requires Acceptable(n)
    ensures Rx(Accepts(n), n.inn[0].hdr.streamId) == Rx(n, n.inn[0].hdr.streamId)
  {
    var sid, f := n.inn[0].hdr.streamId, DataFrame(n.inn[0].hdr.streamId, ACK);
    SnocHere(n.out, f);
    var a, b := Rx(n, sid), Rx(Accepts(n), sid);
    assert a.payload == b.payload by { assert Payload(n.inn, sid) == [] + Payload(n.inn[1..], sid); }
    assert a.credit == b.credit;
    assert a.finInTransit == b.finInTransit by { assert Marked(n.inn, FIN) == [] + Marked(n.inn[1..], FIN); }
    assert a.buffered == b.buffered && a.eof == b.eof && a.peerGone == b.peerGone;
  }

  lemma AcceptLanes(n: Net, x: StreamId)
    requires Acceptable(n)
    ensures Tx(Accepts(n), x) == Tx(n, x) && Rx(Accepts(n), x) == Rx(n, x)
  {
    var sid, n' := n.inn[0].hdr.streamId, Accepts(n);
    if x == sid {
      AcceptTx(n);
      AcceptRx(n);
    } else {
      SnocElsewhere(n.out, DataFrame(sid, ACK), x);
      TailElsewhere(n.inn, x);
      LanesElsewhere(n.near, n'.near, n.far, n.out, n'.out, n.inn, n'.inn, sid, x);
    }
  }

  lemma AcceptTables(n: Net)
    requires Inv(n) && Acceptable(n)
    ensures Tables(Accepts(n).near, n.far) && Tables(n.far, Accepts(n).near)
    ensures Sent(Accepts(n).near, Accepts(n).out) && Sent(n.far, Accepts(n).inn)
  {
    var p, p', sid := n.near, Accepts(n).near, n.inn[0].hdr.streamId;
    forall x ensures Row(p', n.far, x) {
      assert Row(p, n.far, x) && Row(p, n.far, sid);
    }
    PeerTablesAfter(p, p', n.far);
    Emit(p, p', n.out, DataFrame(sid, ACK));
    SentTail(n.far, n.inn);
  }

  lemma AcceptCounts(n: Net)
    requires n.inn != [] && n.inn[0].hdr.flags == SYN
    ensures Accepts(n).near.mux.accepted + Marked(Accepts(n).inn, SYN) == n.near.mux.accepted + Marked(n.inn, SYN)
    ensures Marked(Accepts(n).inn, ACK) == Marked(n.inn, ACK)
    ensures Marked(Accepts(n).out, SYN) == Marked(n.out, SYN)
    ensures Marked(Accepts(n).out, ACK) == Marked(n.out, ACK) + [n.inn[0].hdr.streamId]
  {
    var f := DataFrame(n.inn[0].hdr.streamId, ACK);
    MarkedSnoc(n.out, f, SYN);
    MarkedSnoc(n.out, f, ACK);
  }

  lemma AcceptFlows(n: Net)
    requires Inv(n) && Acceptable(n)
    ensures Flows(Accepts(n))
  {
    forall x ensures Tx(Accepts(n), x) == Tx(n, x) && Rx(Accepts(n), x) == Rx(n, x) {
      AcceptLanes(n, x);
    }
    SameLanes(n, Accepts(n));
  }

  /** Both halves of the invariant after accepting; what the near end opened is untouched. */
  lemma AcceptHalves(n: Net)
    requires Half(n.near, n.far, n.out, n.inn) && Half(n.far, n.near, n.inn, n.out)
    requires n.inn != [] && n.inn[0].hdr.flags == SYN
    requires Tables(Accepts(n).near, n.far) && Tables(n.far, Accepts(n).near)
    requires Sent(Accepts(n).near, Accepts(n).out) && Sent(n.far, Accepts(n).inn)
    ensures var n' := Accepts(n); Half(n'.near, n'.far, n'.out, n'.inn) && Half(n'.far, n'.near, n'.inn, n'.out)
  {
    AcceptCounts(n);
    Assoc(n.near.acked, Marked(n.inn, ACK), []);
    Assoc(n.far.acked, Marked(n.out, ACK), [n.inn[0].hdr.streamId]);
  }

  lemma AcceptKeeps(n: Net)
    requires Inv(n) && Acceptable(n)
    ensures Inv(Accepts(n))
  {
    AcceptTables(n);
    AcceptHalves(n);
    AcceptFlows(n);
  }

  lemma ReceiveKeeps(n: Net)
    requires Inv(n)
    ensures Inv(Receives(n))
  {
    if n.inn != [] {
      var f, m := n.inn[0], n.near.mux;
      InvAt(n, f.hdr.streamId);
      assert Plain(f);
      assert n.out + [] == n.out;
      if f.hdr.flags == SYN {
        SynIsNew(n);
        HandleSyn(m, f);
        AcceptKeeps(n);
      } else if f.hdr.streamId !in m.streams {
        HandleUnknown(m, f);
        DropKeeps(n);
      } else {
        HandleExisting(m, f);
        if f.hdr.flags == RST { RstKeeps(n); } else { ReceiptKeeps(n); }
      }
    }
  }

  // ---------- runs ----------

  lemma WriteKeeps(n: Net, sid: StreamId, data: seq<Byte>)
    requires Inv(n)
    ensures Inv(Writes(n, sid, data))
  {
    InvAt(n, sid);
    var r := Write(n.near.mux, sid, data).result;
    if r.Ok? {
      PutIsSound(n, sid, data[..r.value]);
      SendKeeps(n, Writes(n, sid, data), PayloadFrame(sid, data[..r.value]));
    }
  }

  lemma ReadKeeps(n: Net, sid: StreamId, count: nat)
    requires Inv(n)
    ensures Inv(Reads(n, sid, count))
  {
    InvAt(n, sid);
    if Read(n.near.mux, sid, count).frames != [] {
      var k := Min(count, |Buffered(n.near, sid)|);
      TakeIsSound(n, sid, k);
      SendKeeps(n, Takes(n, sid, k), CreditFrame(sid, k));
    }
  }

  lemma CloseKeeps(n: Net, sid: StreamId)
    requires Inv(n)
    ensures Inv(Closes(n, sid))
  {
    InvAt(n, sid);
    CloseIsSound(n, sid);
    if Closes(n, sid) != n { SendKeeps(n, Closes(n, sid), DataFrame(sid, FIN)); }
  }

  lemma ResetKeeps(n: Net, sid: StreamId)
    requires Inv(n)
    ensures Inv(Resets(n, sid))
  {
    InvAt(n, sid);
    ResetIsSound(n, sid);
    if Resets(n, sid) != n { SendKeeps(n, Resets(n, sid), DataFrame(sid, RST)); }
  }

  lemma ActKeeps(n: Net, a: Action)
    requires Inv(n) && Unwrapped(Act(n, a))
    ensures Inv(Act(n, a))
  {
    match a
    case Opening => OpenKeeps(n);
    case Writing(sid, data) => WriteKeeps(n, sid, data);
    case Reading(sid, count) => ReadKeeps(n, sid, count);
    case Closing(sid) => CloseKeeps(n, sid);
    case Resetting(sid) => ResetKeeps(n, sid);
    case Receiving => ReceiveKeeps(n);
  }

  lemma FlipKeeps(n: Net)
    requires Inv(n)
    ensures Inv(Flip(n))
  {
    forall sid ensures Sound(Tx(Flip(n), sid)) && Sound(Rx(Flip(n), sid)) {
      InvAt(n, sid);
    }
  }

  lemma ApplyKeeps(n: Net, m: Move)
    requires Inv(n) && Unwrapped(Apply(n, m))
    ensures Inv(Apply(n, m))
  {
    match m
    case Near(a) => ActKeeps(n, a);
    case Far(a) =>
      FlipKeeps(n);
      ActKeeps(Flip(n), a);
      FlipKeeps(Act(Flip(n), a));
  }

  /** Only opening a stream touches the id counter. */
  lemma HandleKeepsCounter(m: Mux, f: Frame)
    ensures Handle(m, f).mux.isClient == m.isClient && Handle(m, f).mux.nextId == m.nextId
  {
  }

  /** What an operation other than opening leaves alone. */
  predicate KeepsCounter(p: Party, p': Party) {
    p'.opens == p.opens && p'.mux.nextId == p.mux.nextId && p'.mux.isClient == p.mux.isClient
  }

  lemma ReceiveKeepsCounter(n: Net)
    ensures KeepsCounter(n.near, Receives(n).near)
  {
    if n.inn != [] { HandleKeepsCounter(n.near.mux, n.inn[0]); }
  }

  lemma ActKeepsCounter(n: Net, a: Action)
    requires a != Opening
    ensures KeepsCounter(n.near, Act(n, a).near)
  {
    if a == Receiving { ReceiveKeepsCounter(n); }
  }

  lemma ActGrows(n: Net, a: Action)
    ensures n.near.opens <= Act(n, a).near.opens && Act(n, a).near.mux.isClient == n.near.mux.isClient
    ensures Act(n, a).far == n.far
  {
    if a != Opening { ActKeepsCounter(n, a); }
  }

  /** Histories only grow, so a run that ends unwrapped was never wrapped. */
  lemma OpensGrow(n: Net, m: Move)
    ensures n.near.opens <= Apply(n, m).near.opens && n.far.opens <= Apply(n, m).far.opens
    ensures Apply(n, m).near.mux.isClient == n.near.mux.isClient && Apply(n, m).far.mux.isClient == n.far.mux.isClient
  {
    match m
    case Near(a) => ActGrows(n, a);
    case Far(a) => ActGrows(Flip(n), a);
  }

  lemma StartFlows(nearIsClient: bool)
    ensures Flows(Start(nearIsClient))
  {
    var n := Start(nearIsClient);
    var l := Lane(false, false, INITIAL_WINDOW, [], [], [], [], 0, false, false, false);
    assert Sound(l);
    forall sid ensures Sound(Tx(n, sid)) && Sound(Rx(n, sid)) {
      assert Tx(n, sid) == l && Rx(n, sid) == l;
    }
  }

  lemma StartTables(p: Party, peer: Party, isClient: bool)
    requires p == NewParty(isClient) && peer == NewParty(!isClient)
    ensures Tables(p, peer) && Numbered(p) && Sent(p, [])
  {
  }

  lemma StartHolds(nearIsClient: bool)
    ensures Inv(Start(nearIsClient))
  {
    StartFlows(nearIsClient);
    StartTables(NewParty(nearIsClient), NewParty(!nearIsClient), nearIsClient);
    StartTables(NewParty(!nearIsClient), NewParty(nearIsClient), !nearIsClient);
  }

  /** The invariant holds after every run in which no 32-bit stream id wraps around. */
  lemma {:induction false} RunHolds(nearIsClient: bool, moves: seq<Move>)
    requires Unwrapped(Run(Start(nearIsClient), moves))
    ensures Inv(Run(Start(nearIsClient), moves))
  {
    if moves == [] {
      StartHolds(nearIsClient);
    } else {
      var before := Run(Start(nearIsClient), moves[..|moves| - 1]);
      OpensGrow(before, moves[|moves| - 1]);
      RunHolds(nearIsClient, moves[..|moves| - 1]);
      ApplyKeeps(before, moves[|moves| - 1]);
    }
  }
}
