/**
 * Two yamux sessions of opposite roles joined by first-in-first-out queues of frames. A step is one
 * operation of one end; receiving takes one frame. Histories record what the applications did.
 */
module YamuxNet {
  import opened Bytes
  import opened YamuxFrame
  import opened YamuxMux

  /**
   * One end: its session, and its history. `opens` and `acked` list the streams it opened and those
   * the peer acknowledged; `wrote` and `got` hold the bytes its writes accepted and its reads
   * returned; `fins` and `resets` are the streams it closed for writing and reset.
   */
  datatype Party = Party(mux: Mux, opens: seq<StreamId>, acked: seq<StreamId>,
                         wrote: map<StreamId, seq<Byte>>, got: map<StreamId, seq<Byte>>,
                         fins: set<StreamId>, resets: set<StreamId>)

  /** `out` travels from `near` to `far`, `inn` the other way. */
  datatype Net = Net(near: Party, far: Party, out: seq<Frame>, inn: seq<Frame>)

  datatype Action =
    | Opening
    | Writing(sid: StreamId, data: seq<Byte>)
    | Reading(sid: StreamId, count: nat)
    | Closing(sid: StreamId)
    | Resetting(sid: StreamId)
    | Receiving

  datatype Move = Near(action: Action) | Far(action: Action)

  function NewParty(isClient: bool): Party {
    Party(YamuxMux.Init(isClient), [], [], map[], map[], {}, {})
  }

  function Start(nearIsClient: bool): Net {
    Net(NewParty(nearIsClient), NewParty(!nearIsClient), [], [])
  }

  function Flip(n: Net): Net { Net(n.far, n.near, n.inn, n.out) }

  function At(h: map<StreamId, seq<Byte>>, sid: StreamId): seq<Byte> {
    if sid in h then h[sid] else []
  }

  /** A party holds a handle for the streams it opened or accepted, and for no others. */
  predicate Knows(p: Party, sid: StreamId) {
    sid in p.opens || sid in p.mux.accepted
  }

  function Opens(n: Net): Net {
    var p, r := n.near, Open(n.near.mux);
    n.(near := p.(mux := r.mux, opens := if r.result.Ok? then p.opens + [r.result.value] else p.opens),
       out := n.out + r.frames)
  }

  /** What a write accepts is recorded; a write that accepts nothing changes nothing. */
  function Writes(n: Net, sid: StreamId, data: seq<Byte>): Net {
    var r := Write(n.near.mux, sid, data);
    if r.result.Err? then n else Puts(n, sid, data[..r.result.value])
  }

  function Puts(n: Net, sid: StreamId, data: seq<Byte>): Net
    requires sid in n.near.mux.windows && 0 < |data| <= n.near.mux.windows[sid]
  {
    var p, r := n.near, Put(n.near.mux, sid, data);
    n.(near := p.(mux := r.mux, wrote := p.wrote[sid := At(p.wrote, sid) + data]), out := n.out + r.frames)
  }

  /** A read that returns bytes is recorded; any other read changes nothing. */
  function Reads(n: Net, sid: StreamId, count: nat): Net {
    if Read(n.near.mux, sid, count).frames == [] then n
    else Takes(n, sid, Min(count, |Buffered(n.near, sid)|))
  }

  function Takes(n: Net, sid: StreamId, k: nat): Net
    requires sid in n.near.mux.streams && 0 < k <= |Buffered(n.near, sid)|
  {
    var p, r := n.near, Take(n.near.mux, sid, k);
    n.(near := p.(mux := r.mux, got := p.got[sid := At(p.got, sid) + r.result.value]), out := n.out + r.frames)
  }

  function Closes(n: Net, sid: StreamId): Net {
    var p := n.near;
    var s := CloseWrite(p.mux, sid);
    n.(near := p.(mux := s.mux, fins := if s.frames == [] then p.fins else p.fins + {sid}), out := n.out + s.frames)
  }

  function Resets(n: Net, sid: StreamId): Net {
    var p := n.near;
    if !Knows(p, sid) then n
    else
      var s := Reset(p.mux, sid);
      n.(near := p.(mux := s.mux, resets := p.resets + {sid}), out := n.out + s.frames)
  }

  function Receives(n: Net): Net {
    var p := n.near;
    if n.inn == [] then n
    else
      var f := n.inn[0];
      var s := Handle(p.mux, f);
      n.(near := p.(mux := s.mux, acked := if f.hdr.flags == ACK then p.acked + [f.hdr.streamId] else p.acked),
         out := n.out + s.frames, inn := n.inn[1..])
  }

  /** One operation of the near end. */
  function Act(n: Net, a: Action): Net {
    match a
    case Opening => Opens(n)
    case Writing(sid, data) => Writes(n, sid, data)
    case Reading(sid, count) => Reads(n, sid, count)
    case Closing(sid) => Closes(n, sid)
    case Resetting(sid) => Resets(n, sid)
    case Receiving => Receives(n)
  }

  function Apply(n: Net, m: Move): Net {
    match m
    case Near(a) => Act(n, a)
    case Far(a) => Flip(Act(Flip(n), a))
  }

  function Run(n: Net, moves: seq<Move>): Net {
    if moves == [] then n else Apply(Run(n, moves[..|moves| - 1]), moves[|moves| - 1])
  }

  // ---------- what is in transit ----------

  function PayloadOf(f: Frame, sid: StreamId): seq<Byte> {
    if f.hdr.streamId == sid then f.payload else []
  }

  function CreditOf(f: Frame, sid: StreamId): nat {
    if f.hdr.streamId == sid && f.hdr.kind == WINDOW_UPDATE then f.hdr.length else 0
  }

  function Payload(q: seq<Frame>, sid: StreamId): seq<Byte> {
    if q == [] then [] else PayloadOf(q[0], sid) + Payload(q[1..], sid)
  }

  function Credit(q: seq<Frame>, sid: StreamId): nat {
    if q == [] then 0 else CreditOf(q[0], sid) + Credit(q[1..], sid)
  }

  /** The streams of the frames that carry exactly `flag`, in order. */
  function Marked(q: seq<Frame>, flag: U16): seq<StreamId> {
    if q == [] then []
    else (if q[0].hdr.flags == flag then [q[0].hdr.streamId] else []) + Marked(q[1..], flag)
  }

  lemma {:induction false} PayloadSnoc(q: seq<Frame>, f: Frame, sid: StreamId)
    ensures Payload(q + [f], sid) == Payload(q, sid) + PayloadOf(f, sid)
  {
    if q == [] {
      assert q + [f] == [f];
    } else {
      assert (q + [f])[1..] == q[1..] + [f];
      PayloadSnoc(q[1..], f, sid);
    }
  }

  lemma {:induction false} CreditSnoc(q: seq<Frame>, f: Frame, sid: StreamId)
    ensures Credit(q + [f], sid) == Credit(q, sid) + CreditOf(f, sid)
  {
    if q == [] {
      assert q + [f] == [f];
    } else {
      assert (q + [f])[1..] == q[1..] + [f];
      CreditSnoc(q[1..], f, sid);
    }
  }

  lemma {:induction false} MarkedSnoc(q: seq<Frame>, f: Frame, flag: U16)
    ensures Marked(q + [f], flag) == Marked(q, flag) + (if f.hdr.flags == flag then [f.hdr.streamId] else [])
  {
    if q == [] {
      assert q + [f] == [f];
    } else {
      assert (q + [f])[1..] == q[1..] + [f];
      MarkedSnoc(q[1..], f, flag);
      var first := if q[0].hdr.flags == flag then [q[0].hdr.streamId] else [];
      Assoc(first, Marked(q[1..], flag), if f.hdr.flags == flag then [f.hdr.streamId] else []);
    }
  }

  lemma {:induction false} MarkedIn(q: seq<Frame>, flag: U16, sid: StreamId)
    ensures sid in Marked(q, flag) <==> exists i :: 0 <= i < |q| && q[i].hdr.flags == flag && q[i].hdr.streamId == sid
  {
    if q == [] {
    } else {
      MarkedIn(q[1..], flag, sid);
      if exists i :: 0 <= i < |q| && q[i].hdr.flags == flag && q[i].hdr.streamId == sid {
        var i :| 0 <= i < |q| && q[i].hdr.flags == flag && q[i].hdr.streamId == sid;
        if i > 0 { assert q[1..][i - 1] == q[i]; }
      }
    }
  }

  // ---------- the invariant, one half per direction ----------

  function Window(p: Party, sid: StreamId): U32 {
    if sid in p.mux.windows then p.mux.windows[sid] else INITIAL_WINDOW
  }

  function Buffered(p: Party, sid: StreamId): seq<Byte> {
    if sid in p.mux.streams then p.mux.streams[sid].recvBuf else []
  }

  /** The party once held the stream and no longer does. */
  predicate Gone(p: Party, sid: StreamId) {
    Knows(p, sid) && sid !in p.mux.streams
  }

  /** How many different ids a role has: the odd 32-bit numbers, or the even ones but 0. */
  function Capacity(isClient: bool): nat { if isClient then 0x8000_0000 else 0x7FFF_FFFF }

  /** The party has not opened more streams than it has ids. */
  predicate InIds(p: Party) { |p.opens| <= Capacity(p.mux.isClient) }

  /** Stream ids count up by two from the first one of the role; after the last one the counter wraps around. */
  ghost predicate Numbered(p: Party) {
    && InIds(p)
    && p.mux.nextId as int == (FirstId(p.mux.isClient) as int + 2 * |p.opens|) % 0x1_0000_0000
    && (forall i :: 0 <= i < |p.opens| ==> p.opens[i] as int == FirstId(p.mux.isClient) as int + 2 * i)
  }

  /** What a session of this implementation ever puts on the wire. */
  predicate Plain(f: Frame) {
    && f.hdr.version == VERSION
    && f.hdr.streamId != 0
    && WellFormed(f)
    && (f.hdr.kind == DATA || f.hdr.kind == WINDOW_UPDATE)
    && (f.hdr.flags == 0 || f.hdr.flags == SYN || f.hdr.flags == ACK || f.hdr.flags == FIN || f.hdr.flags == RST)
    && (f.hdr.flags != 0 ==> f.hdr.kind == DATA && f.payload == [])
  }

  /** A SYN comes before, and a single FIN after, all the payload of its stream. */
  ghost predicate Ordered(q: seq<Frame>) {
    forall i, j :: 0 <= i < j < |q| && q[i].hdr.streamId == q[j].hdr.streamId ==>
      q[j].hdr.flags != SYN && (q[i].hdr.flags == FIN ==> q[j].payload == [] && q[j].hdr.flags != FIN)
  }

  ghost predicate Sent(p: Party, q: seq<Frame>) {
    && Ordered(q)
    && forall i :: 0 <= i < |q| ==>
      && Plain(q[i])
      && Knows(p, q[i].hdr.streamId)
      && (q[i].hdr.flags == SYN ==> q[i].hdr.streamId in p.opens)
      && (q[i].hdr.flags == FIN ==> q[i].hdr.streamId in p.fins)
      && (q[i].hdr.flags == RST ==> q[i].hdr.streamId in p.resets)
  }

  /** The two tables of a session agree, and a stream leaves them only by a reset. */
  predicate Row(p: Party, peer: Party, sid: StreamId) {
    && (Knows(p, sid) ==> sid != 0)
    && (sid in p.mux.streams <==> sid in p.mux.windows)
    && (sid in p.mux.streams ==>
          Knows(p, sid) && sid !in p.resets && !p.mux.streams[sid].wasReset
          && (p.mux.streams[sid].writeClosed <==> sid in p.fins))
    && (Gone(p, sid) ==> sid in p.resets || sid in peer.resets)
    && (sid in p.wrote || sid in p.fins || sid in p.resets ==> Knows(p, sid))
  }

  ghost predicate Tables(p: Party, peer: Party) {
    !p.mux.goAway && forall sid :: Row(p, peer, sid)
  }

  /** One direction of one stream: what its writer, the queues and its reader hold. */
  datatype Lane = Lane(gone: bool, peerGone: bool, window: int, wrote: seq<Byte>, payload: seq<Byte>,
                       buffered: seq<Byte>, got: seq<Byte>, credit: nat,
                       finished: bool, finInTransit: bool, eof: bool)

  function LaneOf(p: Party, peer: Party, fwd: seq<Frame>, bwd: seq<Frame>, sid: StreamId): Lane {
    Lane(Gone(p, sid), Gone(peer, sid), Window(p, sid), At(p.wrote, sid), Payload(fwd, sid),
         Buffered(peer, sid), At(peer.got, sid), Credit(bwd, sid),
         sid in p.fins, sid in Marked(fwd, FIN), sid in peer.mux.streams && peer.mux.streams[sid].readClosed)
  }

  /** Credit is conserved while both ends hold the stream. */
  predicate Conserved(l: Lane) {
    l.window + |l.payload| + |l.buffered| + l.credit == INITIAL_WINDOW
  }

  /** Nothing written is lost, repeated or reordered. */
  predicate InOrder(l: Lane) {
    l.wrote == l.got + l.buffered + l.payload
  }

  predicate Sound(l: Lane) {
    && (!l.gone && !l.peerGone ==> Conserved(l))
    && (!l.peerGone ==> InOrder(l))
    && l.got <= l.wrote
    && (l.eof ==> l.finished && l.payload == [] && !l.finInTransit)
    && (l.finished && !l.peerGone ==> l.finInTransit || l.eof)
  }

  /** The two lanes of a stream, seen from the near end: what it writes, and what it reads. */
  function Tx(n: Net, sid: StreamId): Lane { LaneOf(n.near, n.far, n.out, n.inn, sid) }
  function Rx(n: Net, sid: StreamId): Lane { LaneOf(n.far, n.near, n.inn, n.out, sid) }

  ghost predicate Flows(n: Net) {
    forall sid :: Sound(Tx(n, sid)) && Sound(Rx(n, sid))
  }

  ghost predicate Half(p: Party, peer: Party, fwd: seq<Frame>, bwd: seq<Frame>) {
    && Numbered(p)
    && Tables(p, peer)
    && Sent(p, fwd)
    && peer.mux.accepted + Marked(fwd, SYN) == p.opens
    && p.acked + Marked(bwd, ACK) == peer.mux.accepted
  }

  ghost predicate Inv(n: Net) {
    && n.near.mux.isClient != n.far.mux.isClient
    && Half(n.near, n.far, n.out, n.inn)
    && Half(n.far, n.near, n.inn, n.out)
    && Flows(n)
  }

  /** Neither end has opened more streams than it has ids. */
  predicate Unwrapped(n: Net) { InIds(n.near) && InIds(n.far) }
}
