/**
 * Answers end: what a session sends because of a frame is a frame that no session answers. And whole frames are all
 * that is ever under way, whatever the ids and however the bytes are cut.
 */
module YamuxReplies {
  import opened Bytes
  import opened YamuxFrame
  import opened YamuxByteNet
  import M = YamuxMux
  import Y = YamuxNet

  /** An acknowledged ping, a go-away, an unknown kind, or a frame of a stream without SYN. */
  predicate Quiet(f: Frame) {
    if f.hdr.kind == PING then HasFlag(f.hdr.flags, ACK) else !HasFlag(f.hdr.flags, SYN)
  }

  predicate AllWellFormed(q: seq<Frame>) { forall f :: f in q ==> WellFormed(f) }

  /** Whatever the session and the frame, there is at most one answer, and nothing would answer it. */
  lemma RepliesAreQuiet(m: M.Mux, f: Frame)
    ensures |M.Handle(m, f).frames| <= 1 && AllWellFormed(M.Handle(m, f).frames)
    ensures forall reply :: reply in M.Handle(m, f).frames ==> Quiet(reply)
  {
  }

  lemma QuietIsNotAnswered(m: M.Mux, f: Frame)
    requires Quiet(f)
    ensures M.Handle(m, f).frames == []
  {
  }

  /** The bytes of one frame that nothing answers. */
  ghost predicate QuietBatch(batch: seq<Byte>) { exists f :: WellFormed(f) && Quiet(f) && batch == Encode(f) }

  lemma ReceivedOut(p: Y.Party, f: Frame)
    ensures Do(p, Y.Receiving, [f]).out == M.Handle(p.mux, f).frames
  {
    assert [] + M.Handle(p.mux, f).frames == M.Handle(p.mux, f).frames;
  }

  lemma AnswerIsQuiet(e: End, f: Frame)
    requires e.sendBuf == []
    ensures var batch := Operate(e, Y.Receiving, [f]).sendBuf; batch == [] || QuietBatch(batch)
  {
    ReceivedOut(e.party, f);
    RepliesAreQuiet(e.party.mux, f);
    var out := M.Handle(e.party.mux, f).frames;
    if out != [] {
      assert out == [out[0]];
      EncodeAllOne(out[0]);
      assert [] + Encode(out[0]) == Encode(out[0]);
    }
  }

  lemma QuietAddsNothing(e: End, f: Frame)
    requires Quiet(f)
    ensures Operate(e, Y.Receiving, [f]).sendBuf == e.sendBuf
  {
    ReceivedOut(e.party, f);
    QuietIsNotAnswered(e.party.mux, f);
    assert e.sendBuf + [] == e.sendBuf;
  }

  // ---------- whole frames ----------

  /** The bytes are those of some frames. */
  ghost predicate Whole(bytes: seq<Byte>) { exists q :: AllWellFormed(q) && EncodeAll(q) == bytes }

  /** What has arrived incomplete, is under way and is waiting to be sent makes up whole frames, in both directions. */
  ghost predicate InFrames(b: ByteNet) {
    && Whole(b.far.recvBuf + b.out + b.near.sendBuf) && TryParse(b.far.recvBuf).None?
    && Whole(b.near.recvBuf + b.inn + b.far.sendBuf) && TryParse(b.near.recvBuf).None?
  }

  lemma WholeAppend(front: seq<Byte>, buf: seq<Byte>, q: seq<Frame>)
    requires Whole(front + buf) && AllWellFormed(q)
    ensures Whole(front + (buf + EncodeAll(q)))
  {
    var q0 :| AllWellFormed(q0) && EncodeAll(q0) == front + buf;
    EncodeAllAppend(q0, q);
    Assoc(front, buf, EncodeAll(q));
    assert AllWellFormed(q0 + q);
  }

  lemma SentAreWellFormed(p: Y.Party, a: Y.Action, head: seq<Frame>)
    ensures AllWellFormed(Do(p, a, head).out)
  {
    if a == Y.Receiving && head != [] { RepliesAreQuiet(p.mux, head[0]); }
  }

  lemma OperateKeepsFrames(e: End, a: Y.Action, head: seq<Frame>, front: seq<Byte>)
    requires Whole(front + e.sendBuf)
    ensures Whole(front + Operate(e, a, head).sendBuf)
  {
    SentAreWellFormed(e.party, a, head);
    WholeAppend(front, e.sendBuf, Do(e.party, a, head).out);
  }

  /** An end that holds whole frames and a rest handles them all, keeps the rest, and sends whole frames. */
  lemma {:induction false} PumpWhole(e: End, q: seq<Frame>, tail: seq<Byte>, front: seq<Byte>)
    requires AllWellFormed(q) && e.recvBuf == EncodeAll(q) + tail && TryParse(tail).None?
    requires Whole(front + e.sendBuf)
    ensures Pump(e).recvBuf == tail && Whole(front + Pump(e).sendBuf)
    decreases |q|
  {
    if q == [] {
      assert e.recvBuf == tail;
    } else {
      Assoc(Encode(q[0]), EncodeAll(q[1..]), tail);
      ParseInvertsWrite(q[0], EncodeAll(q[1..]) + tail);
      var e0 := e.(recvBuf := EncodeAll(q[1..]) + tail);
      OperateKeepsFrames(e0, Y.Receiving, [q[0]], front);
      PumpWhole(Operate(e0, Y.Receiving, [q[0]]), q[1..], tail, front);
    }
  }

  lemma DeliveryKeepsFrames(b: ByteNet, k: nat)
    requires InFrames(b) && k <= |b.inn|
    ensures var e := Pump(b.near.(recvBuf := b.near.recvBuf + b.inn[..k]));
      InFrames(b.(near := e, inn := b.inn[k..]))
  {
    var got, rest := b.near.recvBuf + b.inn[..k], b.inn[k..] + b.far.sendBuf;
    var q :| AllWellFormed(q) && EncodeAll(q) == b.near.recvBuf + b.inn + b.far.sendBuf;
    CutDelivery(b.near.recvBuf, b.inn, k, b.far.sendBuf);
    var m, tail := CutFrames(q, got, rest);
    PumpWhole(b.near.(recvBuf := got), q[..m], tail, b.far.recvBuf + b.out);
    Assoc(tail, b.inn[k..], b.far.sendBuf);
    assert AllWellFormed(q[m..]);
  }

  lemma CutDelivery(held: seq<Byte>, coming: seq<Byte>, k: nat, later: seq<Byte>)
    requires k <= |coming|
    ensures held + coming + later == (held + coming[..k]) + (coming[k..] + later)
  {
  }

  lemma ActKeepsFrames(b: ByteNet, a: ByteAction)
    requires InFrames(b)
    ensures InFrames(ByteAct(b, a))
  {
    match a
    case Operating(op) => OperateKeepsFrames(b.near, op, [], b.far.recvBuf + b.out);
    case Flushing =>
      assert b.far.recvBuf + (b.out + b.near.sendBuf) + [] == b.far.recvBuf + b.out + b.near.sendBuf;
    case Delivering(count) => DeliveryKeepsFrames(b, Min(count, |b.inn|));
  }

  lemma FlippedInFrames(b: ByteNet)
    requires InFrames(b)
    ensures InFrames(ByteFlip(b))
  {
  }

  lemma StartIsWhole(nearIsClient: bool)
    ensures InFrames(ByteStart(nearIsClient))
  {
    assert AllWellFormed([]) && EncodeAll([]) == [] + [] + [];
  }

  /** Over every run, whatever the ids, and however the bytes are cut. */
  lemma {:induction false} AlwaysInFrames(nearIsClient: bool, moves: seq<ByteMove>)
    ensures InFrames(ByteRun(ByteStart(nearIsClient), moves))
  {
    if moves == [] {
      StartIsWhole(nearIsClient);
    } else {
      var before := ByteRun(ByteStart(nearIsClient), moves[..|moves| - 1]);
      AlwaysInFrames(nearIsClient, moves[..|moves| - 1]);
      match moves[|moves| - 1] {
        case NearBytes(a) => ActKeepsFrames(before, a);
        case FarBytes(a) =>
          FlippedInFrames(before);
          ActKeepsFrames(ByteFlip(before), a);
          FlippedInFrames(ByteAct(ByteFlip(before), a));
      }
    }
  }

  /** With nothing under way and nothing waiting, an end holds no incomplete frame either. */
  lemma DrainedBufferIsEmpty(b: ByteNet)
    requires InFrames(b) && b.near.sendBuf == [] && b.out == []
    ensures b.far.recvBuf == []
  {
    var q :| AllWellFormed(q) && EncodeAll(q) == b.far.recvBuf + b.out + b.near.sendBuf;
    assert EncodeAll(q) == b.far.recvBuf;
    if q != [] { ParseInvertsWrite(q[0], EncodeAll(q[1..])); }
  }
}
