/**
 * The same two sessions joined by byte pipes: a flush moves pending bytes into the pipe, and any
 * number of bytes may be delivered at a time. Every run of bytes is a run of frames.
 */
module YamuxByteNet {
  import opened Bytes
  import opened YamuxFrame
  import M = YamuxMux
  import S = YamuxSession
  import opened YamuxNet
  import opened YamuxSafety
  import opened YamuxTheorems

  datatype End = End(party: Party, recvBuf: seq<Byte>, sendBuf: seq<Byte>)

  datatype ByteNet = ByteNet(near: End, far: End, out: seq<Byte>, inn: seq<Byte>)

  datatype ByteAction =
    | Operating(action: Action)
    | Flushing
    | Delivering(count: nat)

  datatype ByteMove = NearBytes(action: ByteAction) | FarBytes(action: ByteAction)

  function NewEnd(isClient: bool): End { End(NewParty(isClient), [], []) }

  function ByteStart(nearIsClient: bool): ByteNet {
    ByteNet(NewEnd(nearIsClient), NewEnd(!nearIsClient), [], [])
  }

  function ByteFlip(b: ByteNet): ByteNet { ByteNet(b.far, b.near, b.inn, b.out) }

  /** The session inside an end. */
  function SessionOf(e: End): S.Session { S.Session(e.party.mux, e.recvBuf, e.sendBuf) }

  /** What a party does by itself, given the frame it may receive. */
  function Do(p: Party, a: Action, head: seq<Frame>): Net {
    Act(Net(p, p, [], head), a)
  }

  function Operate(e: End, a: Action, head: seq<Frame>): End {
    var n := Do(e.party, a, head);
    e.(party := n.near, sendBuf := e.sendBuf + EncodeAll(n.out))
  }

  /** Handles every complete frame of the buffer, with the histories. */
  function Pump(e: End): End
    decreases |e.recvBuf|
  {
    if TryParse(e.recvBuf).None? then e
    else
      var f := TryParse(e.recvBuf).value;
      Pump(Operate(e.(recvBuf := e.recvBuf[FrameSize(f)..]), Receiving, [f]))
  }

  function ByteAct(b: ByteNet, a: ByteAction): ByteNet {
    match a
    case Operating(op) => if op == Receiving then b else b.(near := Operate(b.near, op, []))
    case Flushing => b.(near := b.near.(sendBuf := []), out := b.out + b.near.sendBuf)
    case Delivering(count) =>
      var k := Min(count, |b.inn|);
      b.(near := Pump(b.near.(recvBuf := b.near.recvBuf + b.inn[..k])), inn := b.inn[k..])
  }

  function ByteApply(b: ByteNet, m: ByteMove): ByteNet {
    match m
    case NearBytes(a) => ByteAct(b, a)
    case FarBytes(a) => ByteFlip(ByteAct(ByteFlip(b), a))
  }

  function ByteRun(b: ByteNet, moves: seq<ByteMove>): ByteNet {
    if moves == [] then b else ByteApply(ByteRun(b, moves[..|moves| - 1]), moves[|moves| - 1])
  }

  /** Delivering bytes to an end is what the session itself does when it receives them. */
  lemma {:induction false} PumpIsReceive(e: End)
    ensures SessionOf(Pump(e)) == S.Process(SessionOf(e))
    decreases |e.recvBuf|
  {
    if TryParse(e.recvBuf).None? {
    } else {
      var f := TryParse(e.recvBuf).value;
      var e' := Operate(e.(recvBuf := e.recvBuf[FrameSize(f)..]), Receiving, [f]);
      var step := M.Handle(e.party.mux, f);
      assert [] + step.frames == step.frames;
      assert SessionOf(e') == S.HandleFront(SessionOf(e));
      PumpIsReceive(e');
    }
  }

  // ---------- the simulation ----------

  /** The bytes under way are exactly the encodings of the frames under way. */
  predicate Matches(b: ByteNet, n: Net) {
    && b.near.party == n.near && b.far.party == n.far
    && EncodeAll(n.out) == b.far.recvBuf + b.out + b.near.sendBuf
    && EncodeAll(n.inn) == b.near.recvBuf + b.inn + b.far.sendBuf
    && TryParse(b.near.recvBuf).None? && TryParse(b.far.recvBuf).None?
  }

  lemma ActIsLocal(n: Net, a: Action)
    requires a != Receiving
    ensures var d := Do(n.near, a, []);
      Act(n, a) == n.(near := d.near, out := n.out + d.out)
  {
    assert n.out + [] == n.out;
  }

  lemma ReceiveIsLocal(n: Net)
    requires n.inn != []
    ensures var d := Do(n.near, Receiving, [n.inn[0]]);
      Receives(n) == n.(near := d.near, out := n.out + d.out, inn := n.inn[1..])
    ensures Receives(n).near.opens == n.near.opens
  {
  }

  lemma FirstFrame(q: seq<Frame>, got: seq<Byte>, rest: seq<Byte>)
    requires q != [] && EncodeAll(q) == got + rest && FrameSize(q[0]) <= |got|
    ensures got == Encode(q[0]) + got[FrameSize(q[0])..]
    ensures EncodeAll(q[1..]) == got[FrameSize(q[0])..] + rest
  {
    var k := FrameSize(q[0]);
    assert got[..k] == EncodeAll(q)[..k];
    assert got[k..] + rest == EncodeAll(q)[k..];
  }

  lemma NoFrameYet(q: seq<Frame>, got: seq<Byte>, rest: seq<Byte>)
    requires q != [] && WellFormed(q[0]) && EncodeAll(q) == got + rest && |got| < FrameSize(q[0])
    ensures TryParse(got).None?
  {
    if TryParse(got).Some? {
      ParseIsStable(got, rest);
      ParseInvertsWrite(q[0], EncodeAll(q[1..]));
    }
  }

  /** A prefix of an encoding is some whole frames and an incomplete rest. */
  lemma {:induction false} CutFrames(q: seq<Frame>, got: seq<Byte>, rest: seq<Byte>) returns (k: nat, tail: seq<Byte>)
    requires forall i :: 0 <= i < |q| ==> WellFormed(q[i])
    requires EncodeAll(q) == got + rest
    ensures k <= |q| && got == EncodeAll(q[..k]) + tail
    ensures TryParse(tail).None? && EncodeAll(q[k..]) == tail + rest
    decreases |q|
  {
    k, tail := 0, got;
    if q != [] && |got| < FrameSize(q[0]) {
      NoFrameYet(q, got, rest);
      assert q[0..] == q;
    } else if q != [] {
      FirstFrame(q, got, rest);
      k, tail := CutFrames(q[1..], got[FrameSize(q[0])..], rest);
      assert q[k + 1..] == q[1..][k..];
      assert q[..k + 1][1..] == q[1..][..k];
      Assoc(Encode(q[0]), EncodeAll(q[1..][..k]), tail);
      k := k + 1;
    }
  }

  function ReceiveMany(n: Net, count: nat): Net
    decreases count
  {
    if count == 0 then n else ReceiveMany(Receives(n), count - 1)
  }

  /** One frame at the front of the buffer of an end is the frame at the head of the queue. */
  lemma PumpOne(e: End, n: Net, rest: seq<Byte>, pre: seq<Byte>) returns (e': End)
    requires e.party == n.near && n.inn != [] && WellFormed(n.inn[0]) && e.recvBuf == Encode(n.inn[0]) + rest
    requires EncodeAll(n.out) == pre + e.sendBuf
    ensures Pump(e) == Pump(e') && e'.recvBuf == rest && |rest| < |e.recvBuf|
    ensures e'.party == Receives(n).near && EncodeAll(Receives(n).out) == pre + e'.sendBuf
    ensures Receives(n).far == n.far && Receives(n).inn == n.inn[1..]
  {
    ParseInvertsWrite(n.inn[0], rest);
    e' := Operate(e.(recvBuf := rest), Receiving, [n.inn[0]]);
    ReceiveIsLocal(n);
    var d := Do(n.near, Receiving, [n.inn[0]]);
    EncodeAllAppend(n.out, d.out);
    Assoc(pre, e.sendBuf, EncodeAll(d.out));
  }

  /** The first of `k` frames, and the others. */
  lemma FirstOfFrames(q: seq<Frame>, k: nat, tail: seq<Byte>) returns (more: seq<Byte>)
    requires 0 < k <= |q|
    ensures more == EncodeAll(q[1..][..k - 1]) + tail
    ensures EncodeAll(q[..k]) + tail == Encode(q[0]) + more && q[1..][k - 1..] == q[k..]
  {
    assert q[..k][1..] == q[1..][..k - 1];
    more := EncodeAll(q[1..][..k - 1]) + tail;
    Assoc(Encode(q[0]), EncodeAll(q[1..][..k - 1]), tail);
  }

  /** An end with `k` whole frames in its buffer receives those `k` frames. */
  lemma {:induction false} PumpFrames(e: End, n: Net, k: nat, tail: seq<Byte>, pre: seq<Byte>)
    requires e.party == n.near && k <= |n.inn| && e.recvBuf == EncodeAll(n.inn[..k]) + tail
    requires TryParse(tail).None? && forall f :: f in n.inn ==> WellFormed(f)
    requires EncodeAll(n.out) == pre + e.sendBuf
    ensures Pump(e).party == ReceiveMany(n, k).near && Pump(e).recvBuf == tail
    ensures ReceiveMany(n, k).far == n.far && ReceiveMany(n, k).inn == n.inn[k..]
    ensures EncodeAll(ReceiveMany(n, k).out) == pre + Pump(e).sendBuf
    decreases k
  {
    if k == 0 {
      assert e.recvBuf == tail;
    } else {
      var more := FirstOfFrames(n.inn, k, tail);
      var e1 := PumpOne(e, n, more, pre);
      PumpFrames(e1, Receives(n), k - 1, tail, pre);
    }
  }

  lemma ReachedStep(n: Net, m: Move)
    requires Reached(n) && Unwrapped(Apply(n, m))
    ensures Reached(Apply(n, m))
  {
    var nearIsClient, moves :| n == Run(Start(nearIsClient), moves);
    var more := moves + [m];
    assert more[..|more| - 1] == moves;
    assert Apply(n, m) == Run(Start(nearIsClient), more);
  }

  lemma ReachedReceive(n: Net)
    requires Reached(n)
    ensures Reached(Receives(n))
  {
    if n.inn != [] { ReceiveIsLocal(n); }
    assert Receives(n).far == n.far;
    assert Apply(n, Near(Receiving)) == Receives(n);
    ReachedStep(n, Near(Receiving));
  }

  lemma {:induction false} ReachedMany(n: Net, k: nat)
    requires Reached(n)
    ensures Reached(ReceiveMany(n, k))
    decreases k
  {
    if k == 0 {
    } else {
      ReachedReceive(n);
      ReachedMany(Receives(n), k - 1);
    }
  }

  lemma FramesAreWellFormed(n: Net)
    requires Reached(n)
    ensures forall i :: 0 <= i < |n.inn| ==> WellFormed(n.inn[i])
  {
    ReachedHolds(n);
  }

  /** The frame-level state a delivery of bytes leads to. */
  lemma DeliverSimulated(b: ByteNet, n: Net, count: nat) returns (n': Net)
    requires Reached(n) && Matches(b, n)
    ensures Reached(n') && Matches(ByteAct(b, Delivering(count)), n')
  {
    FramesAreWellFormed(n);
    var k := Min(count, |b.inn|);
    var got, rest := b.near.recvBuf + b.inn[..k], b.inn[k..] + b.far.sendBuf;
    assert b.inn == b.inn[..k] + b.inn[k..];
    Assoc(b.near.recvBuf, b.inn[..k], b.inn[k..]);
    Assoc(got, b.inn[k..], b.far.sendBuf);
    var m, tail := CutFrames(n.inn, got, rest);
    var pre := b.far.recvBuf + b.out;
    PumpFrames(b.near.(recvBuf := got), n, m, tail, pre);
    n' := ReceiveMany(n, m);
    ReachedMany(n, m);
    Assoc(tail, b.inn[k..], b.far.sendBuf);
  }

  lemma AppendMatches(b: ByteNet, n: Net, p: Party, frames: seq<Frame>)
    requires Matches(b, n)
    ensures Matches(b.(near := b.near.(party := p, sendBuf := b.near.sendBuf + EncodeAll(frames))),
                    n.(near := p, out := n.out + frames))
  {
    EncodeAllAppend(n.out, frames);
    Assoc(b.far.recvBuf + b.out, b.near.sendBuf, EncodeAll(frames));
  }

  lemma OperationSimulated(b: ByteNet, n: Net, op: Action) returns (n': Net)
    requires Reached(n) && Matches(b, n) && op != Receiving
    requires InIds(Operate(b.near, op, []).party)
    ensures Reached(n') && Matches(b.(near := Operate(b.near, op, [])), n')
  {
    ActIsLocal(n, op);
    var d := Do(n.near, op, []);
    AppendMatches(b, n, d.near, d.out);
    n' := n.(near := d.near, out := n.out + d.out);
    assert Apply(n, Near(op)) == n';
    ReachedStep(n, Near(op));
  }

  lemma FlushMatches(b: ByteNet, n: Net)
    requires Matches(b, n)
    ensures Matches(ByteAct(b, Flushing), n)
  {
    assert b.far.recvBuf + b.out + b.near.sendBuf == b.far.recvBuf + (b.out + b.near.sendBuf) + [];
  }

  lemma ActSimulated(b: ByteNet, n: Net, a: ByteAction) returns (n': Net)
    requires Reached(n) && Matches(b, n)
    requires InIds(ByteAct(b, a).near.party)
    ensures Reached(n') && Matches(ByteAct(b, a), n')
  {
    match a
    case Operating(op) =>
      if op == Receiving { return n; }
      n' := OperationSimulated(b, n, op);
    case Flushing =>
      n' := n;
      FlushMatches(b, n);
    case Delivering(count) =>
      n' := DeliverSimulated(b, n, count);
  }

  lemma MovesSimulated(b: ByteNet, n: Net, m: ByteMove) returns (n': Net)
    requires Reached(n) && Matches(b, n)
    requires InIds(ByteApply(b, m).near.party) && InIds(ByteApply(b, m).far.party)
    ensures Reached(n') && Matches(ByteApply(b, m), n')
  {
    match m
    case NearBytes(a) => n' := ActSimulated(b, n, a);
    case FarBytes(a) =>
      ReachedEitherWay(n);
      var f := ActSimulated(ByteFlip(b), Flip(n), a);
      ReachedEitherWay(f);
      n' := Flip(f);
  }

  predicate ByteUnwrapped(b: ByteNet) {
    InIds(b.near.party) && InIds(b.far.party)
  }

  lemma OperateGrows(e: End, a: Action, head: seq<Frame>)
    ensures e.party.opens <= Operate(e, a, head).party.opens
    ensures Operate(e, a, head).party.mux.isClient == e.party.mux.isClient
  {
    ActGrows(Net(e.party, e.party, [], head), a);
  }

  lemma {:induction false} PumpOpensNothing(e: End)
    ensures KeepsCounter(e.party, Pump(e).party)
    decreases |e.recvBuf|
  {
    if TryParse(e.recvBuf).None? {
    } else {
      var f := TryParse(e.recvBuf).value;
      ReceiveKeepsCounter(Net(e.party, e.party, [], [f]));
      PumpOpensNothing(Operate(e.(recvBuf := e.recvBuf[FrameSize(f)..]), Receiving, [f]));
    }
  }

  lemma ByteActGrows(b: ByteNet, a: ByteAction)
    ensures b.near.party.opens <= ByteAct(b, a).near.party.opens && ByteAct(b, a).far == b.far
    ensures ByteAct(b, a).near.party.mux.isClient == b.near.party.mux.isClient
  {
    match a
    case Operating(op) => OperateGrows(b.near, op, []);
    case Flushing =>
    case Delivering(count) =>
      var k := Min(count, |b.inn|);
      PumpOpensNothing(b.near.(recvBuf := b.near.recvBuf + b.inn[..k]));
  }

  /** Every run of bytes, however they are cut up, is matched by a run of frames. */
  lemma {:induction false} BytesRefineFrames(nearIsClient: bool, moves: seq<ByteMove>) returns (n: Net)
    requires ByteUnwrapped(ByteRun(ByteStart(nearIsClient), moves))
    ensures Reached(n) && Matches(ByteRun(ByteStart(nearIsClient), moves), n)
    decreases |moves|
  {
    if moves == [] {
      n := Start(nearIsClient);
      assert n == Run(Start(nearIsClient), []);
    } else {
      var last := moves[|moves| - 1];
      var before := ByteRun(ByteStart(nearIsClient), moves[..|moves| - 1]);
      match last {
        case NearBytes(a) => ByteActGrows(before, a);
        case FarBytes(a) => ByteActGrows(ByteFlip(before), a);
      }
      var m := BytesRefineFrames(nearIsClient, moves[..|moves| - 1]);
      n := MovesSimulated(before, m, last);
    }
  }

  /** All bytes that the near end has flushed in a run, and all that the far end has received of them. */
  function SentOver(b: ByteNet, moves: seq<ByteMove>): seq<Byte> {
    if moves == [] then []
    else
      var before := moves[..|moves| - 1];
      SentOver(b, before) + FlushedBy(ByteRun(b, before), moves[|moves| - 1])
  }

  function HandedOver(b: ByteNet, moves: seq<ByteMove>): seq<Byte> {
    if moves == [] then []
    else
      var before := moves[..|moves| - 1];
      HandedOver(b, before) + DeliveredBy(ByteRun(b, before), moves[|moves| - 1])
  }

  function FlushedBy(b: ByteNet, m: ByteMove): seq<Byte> { if m == NearBytes(Flushing) then b.near.sendBuf else [] }

  function DeliveredBy(b: ByteNet, m: ByteMove): seq<Byte> {
    if m.FarBytes? && m.action.Delivering? then b.out[..Min(m.action.count, |b.out|)] else []
  }

  /** What an end receives is, at any time, a prefix of what the other has flushed: the rest is under way. */
  lemma {:induction false} HandedIsPrefix(nearIsClient: bool, moves: seq<ByteMove>)
    ensures var b := ByteStart(nearIsClient);
      SentOver(b, moves) == HandedOver(b, moves) + ByteRun(b, moves).out
  {
    if moves == [] {
    } else {
      var before := moves[..|moves| - 1];
      HandedIsPrefix(nearIsClient, before);
      MoveKeepsOrder(ByteRun(ByteStart(nearIsClient), before), moves[|moves| - 1],
                     SentOver(ByteStart(nearIsClient), before), HandedOver(ByteStart(nearIsClient), before));
    }
  }

  lemma MoveKeepsOrder(n: ByteNet, m: ByteMove, sent: seq<Byte>, handed: seq<Byte>)
    requires sent == handed + n.out
    ensures sent + FlushedBy(n, m) == handed + DeliveredBy(n, m) + ByteApply(n, m).out
  {
    match m {
      case NearBytes(a) => ActKeepsOrder(n, a, sent, handed);
      case FarBytes(a) =>
        var d := DeliveredBy(n, m);
        assert n.out == d + ByteAct(ByteFlip(n), a).inn;
        Assoc(handed, d, ByteAct(ByteFlip(n), a).inn);
    }
  }

  lemma ActKeepsOrder(n: ByteNet, a: ByteAction, sent: seq<Byte>, handed: seq<Byte>)
    requires sent == handed + n.out
    ensures sent + (if a == Flushing then n.near.sendBuf else []) == handed + [] + ByteAct(n, a).out
  {
    Assoc(handed, n.out, n.near.sendBuf);
  }

  /**
   * Over byte pipes too, what one end reads is a prefix of what the other wrote, and once nothing is under way, all
   * of it.
   */
  lemma ByteStreamsAreDelivered(nearIsClient: bool, moves: seq<ByteMove>, sid: StreamId)
    requires ByteUnwrapped(ByteRun(ByteStart(nearIsClient), moves))
    ensures var b := ByteRun(ByteStart(nearIsClient), moves);
      var writer, reader := b.near.party, b.far.party;
      && At(reader.got, sid) <= At(writer.wrote, sid)
      && (sid !in writer.resets && sid !in reader.resets ==> |Buffered(reader, sid)| <= INITIAL_WINDOW)
      && (sid !in writer.resets && sid !in reader.resets && b.near.sendBuf == b.out == [] ==>
            At(writer.wrote, sid) == At(reader.got, sid) + Buffered(reader, sid))
  {
    var b := ByteRun(ByteStart(nearIsClient), moves);
    var n := BytesRefineFrames(nearIsClient, moves);
    BytesAreDelivered(n, sid);
    if NeverReset(n, sid) {
      CreditIsConserved(n, sid);
      if b.near.sendBuf == b.out == [] {
        NothingUnderWay(n, b.far.recvBuf);
      }
    }
  }

  /** A buffer that holds no complete frame holds nothing at all once nothing more is coming. */
  lemma NothingUnderWay(n: Net, buf: seq<Byte>)
    requires Reached(n) && EncodeAll(n.out) == buf && TryParse(buf).None?
    ensures n.out == []
  {
    if n.out != [] {
      ReachedHolds(n);
      ParseInvertsWrite(n.out[0], EncodeAll(n.out[1..]));
    }
  }
}
