/**
 * The yamux session on bytes. `Session` and its functions say what the session computes; the classes
 * YamuxSession and YamuxStream update their fields step by step and are proved against them.
 */
module YamuxSession {
  import opened Bytes
  import opened YamuxFrame
  import M = YamuxMux

  datatype Session = Session(mux: M.Mux, recvBuf: seq<Byte>, sendBuf: seq<Byte>)

  function New(isClient: bool): Session { Session(M.Init(isClient), [], []) }

  /** A step of the mux, its frames appended to the outgoing bytes. */
  function Emit(s: Session, mux: M.Mux, frames: seq<Frame>): Session {
    s.(mux := mux, sendBuf := s.sendBuf + EncodeAll(frames))
  }

  /** Handles the frame at the front of the buffer. */
  function HandleFront(s: Session): Session
    requires TryParse(s.recvBuf).Some?
  {
    var f := TryParse(s.recvBuf).value;
    var step := M.Handle(s.mux, f);
    Emit(s.(recvBuf := s.recvBuf[FrameSize(f)..]), step.mux, step.frames)
  }

  /** Handles every complete frame of the buffer. */
  function Process(s: Session): (r: Session)
    ensures TryParse(r.recvBuf).None?
    decreases |s.recvBuf|
  {
    if TryParse(s.recvBuf).None? then s else Process(HandleFront(s))
  }

  function Receive(s: Session, data: seq<Byte>): Session {
    Process(s.(recvBuf := s.recvBuf + data))
  }

  /** Every parsed frame takes at least the twelve header bytes off the buffer. */
  lemma ParsingMakesProgress(s: Session)
    requires TryParse(s.recvBuf).Some?
    ensures |HandleFront(s).recvBuf| + HEADER_SIZE <= |s.recvBuf|
  {
  }

  // ---------- chunk invariance ----------

  /** Bytes that arrive while a buffer is being processed may as well have arrived before. */
  lemma {:induction false} ProcessMore(s: Session, more: seq<Byte>)
    ensures Process(s.(recvBuf := s.recvBuf + more)) == Receive(Process(s), more)
    decreases |s.recvBuf|
  {
    if TryParse(s.recvBuf).None? {
    } else {
      ParseIsStable(s.recvBuf, more);
      var s' := s.(recvBuf := s.recvBuf + more);
      assert HandleFront(s') == HandleFront(s).(recvBuf := HandleFront(s).recvBuf + more);
      ProcessMore(HandleFront(s), more);
    }
  }

  function ReceiveAll(s: Session, chunks: seq<seq<Byte>>): Session
    decreases chunks
  {
    if chunks == [] then s else ReceiveAll(Receive(s, chunks[0]), chunks[1..])
  }

  /** Two receives are one receive of both chunks. */
  lemma ReceiveTwice(s: Session, a: seq<Byte>, b: seq<Byte>)
    ensures Receive(Receive(s, a), b) == Receive(s, a + b)
  {
    ProcessMore(s.(recvBuf := s.recvBuf + a), b);
    assert s.recvBuf + a + b == s.recvBuf + (a + b);
  }

  /** However a byte string is cut into chunks, the session ends in the same state with the same output. */
  lemma {:induction false} ChunksDoNotMatter(s: Session, chunks: seq<seq<Byte>>)
    requires TryParse(s.recvBuf).None?
    ensures ReceiveAll(s, chunks) == Receive(s, Concat(chunks))
    decreases chunks
  {
    if chunks == [] {
      assert s.recvBuf + [] == s.recvBuf;
    } else {
      ChunksDoNotMatter(Receive(s, chunks[0]), chunks[1..]);
      ReceiveTwice(s, chunks[0], Concat(chunks[1..]));
    }
  }

  /** The mux that is left after a list of frames, and what it wrote on the way. */
  function HandleAll(m: M.Mux, fs: seq<Frame>): M.Step
    decreases fs
  {
    if fs == [] then M.Step(m, [])
    else
      var first := M.Handle(m, fs[0]);
      var rest := HandleAll(first.mux, fs[1..]);
      M.Step(rest.mux, first.frames + rest.frames)
  }

  lemma EmitTwice(s: Session, m1: M.Mux, a: seq<Frame>, m2: M.Mux, b: seq<Frame>)
    ensures Emit(Emit(s, m1, a), m2, b) == Emit(s, m2, a + b)
  {
    EncodeAllAppend(a, b);
    assert s.sendBuf + EncodeAll(a) + EncodeAll(b) == s.sendBuf + (EncodeAll(a) + EncodeAll(b));
  }

  lemma FrontFrame(s: Session, f: Frame, rest: seq<Byte>)
    requires WellFormed(f) && s.recvBuf == Encode(f) + rest
    ensures TryParse(s.recvBuf) == Some(f)
    ensures HandleFront(s) == Emit(s.(recvBuf := rest), M.Handle(s.mux, f).mux, M.Handle(s.mux, f).frames)
  {
    ParseInvertsWrite(f, rest);
  }

  /** A session is handed whole frames exactly: all the complete ones and nothing of the next one. */
  lemma {:induction false} ProcessFrames(s: Session, fs: seq<Frame>, tail: seq<Byte>)
    requires forall i :: 0 <= i < |fs| ==> WellFormed(fs[i])
    requires TryParse(tail).None?
    requires s.recvBuf == EncodeAll(fs) + tail
    ensures Process(s) == Emit(s.(recvBuf := tail), HandleAll(s.mux, fs).mux, HandleAll(s.mux, fs).frames)
    decreases |fs|
  {
    if fs == [] {
      assert s.recvBuf == tail;
      assert s.sendBuf + [] == s.sendBuf;
    } else {
      var rest := EncodeAll(fs[1..]) + tail;
      var first := M.Handle(s.mux, fs[0]);
      assert s.recvBuf == Encode(fs[0]) + rest;
      FrontFrame(s, fs[0], rest);
      var s1 := HandleFront(s);
      ProcessFrames(s1, fs[1..], tail);
      EmitTwice(s.(recvBuf := tail), first.mux, first.frames,
                HandleAll(first.mux, fs[1..]).mux, HandleAll(first.mux, fs[1..]).frames);
      assert s1.(recvBuf := tail) == Emit(s.(recvBuf := tail), first.mux, first.frames);
    }
  }
}
