/**
 * The session and its streams as the program keeps them: objects whose methods update their fields.
 * The callbacks of a stream are calls on its session. Calls of the accept and the close callback are
 * recorded; flushing is left to whoever drains the outgoing bytes.
 */
module Yamux {
  import opened Bytes
  import opened YamuxFrame
  import M = YamuxMux
  import S = YamuxSession

  class YamuxStream {
    const id: StreamId
    const session: YamuxSession
    var readClosed: bool
    var writeClosed: bool
    var wasReset: bool
    var recvBuf: seq<Byte>

    constructor (id: StreamId, session: YamuxSession)
      ensures this.id == id && this.session == session && Value() == M.NEW_STREAM
    {
      this.id := id;
      this.session := session;
      readClosed, writeClosed, wasReset := false, false, false;
      recvBuf := [];
    }

    function Value(): M.Stream
      reads this
    {
      M.Stream(readClosed, writeClosed, wasReset, recvBuf)
    }

    /** The session still holds this stream. */
    predicate Live()
      reads this, session
    {
      id in session.streams && session.streams[id] == this
    }

    /** A handle is live, or what a reset leaves behind. */
    ghost predicate Valid()
      reads this, session, session.streams.Values
    {
      && session.Valid()
      && (Live() || (this !in session.streams.Values && Value() == M.Stream(true, true, true, [])))
    }

    method ReceiveData(data: seq<Byte>)
      modifies this
      ensures Value() == old(Value()).(recvBuf := old(recvBuf) + data)
    {
      recvBuf := recvBuf + data;
    }

    method ReceiveFin()
      modifies this
      ensures Value() == old(Value()).(readClosed := true)
    {
      readClosed := true;
    }

    method ReceiveRst()
      modifies this
      ensures Value() == M.Stream(true, true, true, [])
    {
      readClosed, writeClosed, wasReset := true, true, true;
      recvBuf := [];
    }

    method TryRead(buf: array<Byte>) returns (r: Result<nat, M.Error>)
      requires Valid()
      modifies this, session, buf
      ensures Valid()
      ensures old(Live()) ==>
        var reply := M.Read(old(session.View()).mux, id, buf.Length);
        && session.View() == S.Emit(old(session.View()), reply.mux, reply.frames)
        && (reply.result.Ok? ==>
              && r == Ok(|reply.result.value|) && |reply.result.value| <= buf.Length
              && buf[..|reply.result.value|] == reply.result.value)
        && (reply.result.Err? ==> r == Err(reply.result.error))
      ensures !old(Live()) ==> r == Ok(0) && unchanged(this) && unchanged(session)
    {
      if recvBuf == [] {
        session.EmitNothing();
        return if readClosed || wasReset then Ok(0) else Err(M.Eagain);
      }
      ghost var front := recvBuf;
      var n := Min(buf.Length, |recvBuf|);
      for i := 0 to n
        invariant recvBuf == front[i..] && buf[..i] == front[..i]
        invariant unchanged(session) && unchanged(this`readClosed)
        invariant unchanged(this`writeClosed) && unchanged(this`wasReset)
      {
        buf[i] := recvBuf[0];
        recvBuf := recvBuf[1..];
      }
      session.OneChanged(id);
      session.UpdateReceiveWindow(id, n);
      if n == 0 { assert session.Table() == old(session.Table()); }
      r := Ok(n);
    }

    method TryWrite(data: seq<Byte>) returns (r: Result<nat, M.Error>)
      requires Valid()
      modifies session
      ensures Valid()
      ensures old(Live()) ==>
        var reply := M.Write(old(session.View()).mux, id, data);
        session.View() == S.Emit(old(session.View()), reply.mux, reply.frames) && r == reply.result
      ensures !old(Live()) ==> r == Err(M.ClosedForWriting) && unchanged(session)
    {
      if writeClosed || wasReset {
        session.EmitNothing();
        return Err(M.ClosedForWriting);
      }
      r := session.WriteStreamData(id, data);
    }

    method CloseWrite()
      requires Valid()
      modifies this, session
      ensures Valid()
      ensures old(Live()) ==>
        var step := M.CloseWrite(old(session.View()).mux, id);
        session.View() == S.Emit(old(session.View()), step.mux, step.frames)
      ensures !old(Live()) ==> unchanged(this) && unchanged(session)
    {
      if writeClosed {
        session.EmitNothing();
        return;
      }
      writeClosed := true;
      session.OneChanged(id);
      label marked:
      session.CloseStreamWrite(id);
      assert session.Table() == old@marked(session.Table());
    }

    method CloseLocalWrite()
      modifies this
      ensures Value() == old(Value()).(writeClosed := true)
    {
      writeClosed := true;
    }

    method Reset()
      requires Valid()
      modifies this, session
      ensures Valid() && !Live()
      ensures var step := M.Reset(old(session.View()).mux, id);
        session.View() == S.Emit(old(session.View()), step.mux, step.frames)
    {
      readClosed, writeClosed, wasReset := true, true, true;
      recvBuf := [];
      session.ResetStream(id);
      session.OneGone(id);
    }
  }

  class YamuxSession {
    const isClient: bool
    var nextId: StreamId
    var streams: map<StreamId, YamuxStream>
    var windows: map<StreamId, U32>
    var recvBuf: seq<Byte>
    var sendBuf: seq<Byte>
    var goAway: bool
    var accepted: seq<StreamId>
    var closed: seq<(StreamId, M.CloseReason)>

    constructor (isClient: bool)
      ensures Valid() && View() == S.New(isClient)
    {
      this.isClient := isClient;
      nextId := if isClient then 1 else 2;
      streams, windows := map[], map[];
      recvBuf, sendBuf := [], [];
      goAway := false;
      accepted, closed := [], [];
    }

    /** Both tables hold the same streams, filed under their ids, none of them reset. */
    ghost predicate Valid()
      reads this`streams, this`windows, streams.Values
    {
      && streams.Keys == windows.Keys
      && forall sid :: sid in streams ==>
           streams[sid].id == sid && streams[sid].session == this && !streams[sid].wasReset
    }

    /** The same, while one stream is being reset. */
    ghost predicate ValidBut(sid: StreamId)
      reads this`streams, this`windows, streams.Values
    {
      && streams.Keys == windows.Keys
      && forall x :: x in streams && x != sid ==>
           streams[x].id == x && streams[x].session == this && !streams[x].wasReset
    }

    ghost function Table(): map<StreamId, M.Stream>
      reads this`streams, streams.Values
    {
      map sid | sid in streams :: streams[sid].Value()
    }

    ghost function View(): S.Session
      reads this, streams.Values
    {
      S.Session(M.Mux(isClient, nextId, Table(), windows, goAway, accepted, closed), recvBuf, sendBuf)
    }

    /** A step that touched one stream changed one entry of the table. */
    twostate lemma OneChanged(sid: StreamId)
      requires streams == old(streams) && sid in streams
      requires forall x :: x in streams && x != sid ==> unchanged(streams[x])
      ensures Table() == old(Table())[sid := streams[sid].Value()]
    {
    }

    /** A step that erased one stream removed one entry of the table. */
    twostate lemma OneGone(sid: StreamId)
      requires streams == old(streams) - {sid}
      requires forall x :: x in streams ==> unchanged(streams[x])
      ensures Table() == old(Table()) - {sid}
    {
    }

    /** A step that filed a new stream added one entry to the table. */
    twostate lemma OneAdded(sid: StreamId, new stream: YamuxStream)
      requires streams == old(streams)[sid := stream]
      requires forall x :: x in old(streams) ==> unchanged(old(streams[x]))
      ensures Table() == old(Table())[sid := stream.Value()]
    {
    }

    lemma EmitNothing()
      ensures S.Emit(View(), View().mux, []) == View()
    {
      assert sendBuf + [] == sendBuf;
    }

    /** Appends the header field by field and then the payload. */
    method WriteFrame(h: Header, payload: seq<Byte>)
      modifies this`sendBuf
      ensures sendBuf == old(sendBuf) + Encode(Frame(h, payload))
      ensures sendBuf == old(sendBuf) + EncodeAll([Frame(h, payload)])
    {
      sendBuf := sendBuf + [h.version];
      sendBuf := sendBuf + [h.kind];
      sendBuf := sendBuf + Be16(h.flags);
      sendBuf := sendBuf + Be32(h.streamId);
      sendBuf := sendBuf + Be32(h.length);
      sendBuf := sendBuf + payload;
      EncodeAllOne(Frame(h, payload));
    }

    method WriteStreamData(sid: StreamId, data: seq<Byte>) returns (r: Result<nat, M.Error>)
      requires Valid()
      modifies this`sendBuf, this`windows
      ensures Valid()
      ensures var reply := M.SendData(old(View()).mux, sid, data);
        View() == S.Emit(old(View()), reply.mux, reply.frames) && r == reply.result
    {
      EmitNothing();
      if sid !in windows { return Err(M.UnknownStream); }
      var writable := Min(|data|, windows[sid]);
      if writable == 0 { return Err(M.Eagain); }
      WriteFrame(Header(VERSION, DATA, 0, sid, writable), data[..writable]);
      windows := windows[sid := windows[sid] - writable];
      r := Ok(writable);
    }

    method UpdateReceiveWindow(sid: StreamId, delta: nat)
      requires Valid()
      modifies this`sendBuf
      ensures Valid()
      ensures View() == S.Emit(old(View()), old(View()).mux, if delta == 0 then [] else [M.CreditFrame(sid, delta)])
    {
      EmitNothing();
      if delta == 0 { return; }
      WriteFrame(Header(VERSION, WINDOW_UPDATE, 0, sid, Truncate32(delta)), []);
    }

    method CloseStreamWrite(sid: StreamId)
      requires Valid()
      modifies this`sendBuf, if sid in streams then {streams[sid]} else {}
      ensures Valid() && sendBuf == old(sendBuf) + EncodeAll([M.DataFrame(sid, FIN)])
      ensures Table()
        == if sid in streams then old(Table())[sid := old(Table())[sid].(writeClosed := true)] else old(Table())
    {
      WriteFrame(Header(VERSION, DATA, FIN, sid, 0), []);
      if sid in streams {
        streams[sid].CloseLocalWrite();
        OneChanged(sid);
      }
    }

    method ResetStream(sid: StreamId)
      requires ValidBut(sid)
      modifies this`sendBuf, this`streams, this`windows
      ensures Valid() && sid !in streams && streams == old(streams) - {sid}
      ensures sendBuf == old(sendBuf) + EncodeAll([M.DataFrame(sid, RST)])
      ensures windows == old(windows) - {sid}
    {
      WriteFrame(Header(VERSION, DATA, RST, sid, 0), []);
      EraseStream(sid);
    }

    method EraseStream(sid: StreamId)
      modifies this`streams, this`windows
      ensures streams == old(streams) - {sid} && windows == old(windows) - {sid}
    {
      streams := streams - {sid};
      windows := windows - {sid};
    }

    method AcknowledgeStream(sid: StreamId)
      modifies this`sendBuf
      ensures sendBuf == old(sendBuf) + EncodeAll([M.DataFrame(sid, ACK)])
    {
      WriteFrame(Header(VERSION, DATA, ACK, sid, 0), []);
    }

    method SendPingAck(value: U32)
      modifies this`sendBuf
      ensures sendBuf == old(sendBuf) + EncodeAll([M.PingAckFrame(value)])
    {
      WriteFrame(Header(VERSION, PING, ACK, 0, value), []);
    }

    method SendGoAway(code: U32)
      modifies this`sendBuf
      ensures sendBuf == old(sendBuf) + EncodeAll([Frame(Header(VERSION, GO_AWAY, 0, 0, code), [])])
    {
      WriteFrame(Header(VERSION, GO_AWAY, 0, 0, code), []);
    }

    method GetOrCreateStream(sid: StreamId, openIfMissing: bool) returns (r: YamuxStream?)
      requires Valid()
      modifies this`streams, this`windows
      ensures Valid()
      ensures r == null <==> sid !in old(streams) && !openIfMissing
      ensures r == null ==> streams == old(streams) && windows == old(windows)
      ensures r != null ==> sid in streams && streams[sid] == r
      ensures r != null ==> View() == old(View()).(mux := M.Create(old(View()).mux, sid))
      ensures r != null ==> r in old(streams.Values) || fresh(r)
      ensures streams.Values <= old(streams.Values) + (if r == null then {} else {r})
    {
      if sid in streams { return streams[sid]; }
      if !openIfMissing { return null; }
      var stream := new YamuxStream(sid, this);
      streams := streams[sid := stream];
      windows := windows[sid := INITIAL_WINDOW];
      OneAdded(sid, stream);
      r := stream;
    }

    method OpenStream() returns (r: Result<YamuxStream, M.Error>)
      requires Valid()
      modifies this
      ensures Valid()
      ensures var reply := M.Open(old(View()).mux);
        && View() == S.Emit(old(View()), reply.mux, reply.frames)
        && (reply.result.Ok? ==> r.Ok? && reply.result.value in streams && r.value == streams[reply.result.value])
        && (reply.result.Err? ==> r == Err(reply.result.error))
    {
      EmitNothing();
      if goAway { return Err(M.ShuttingDown); }
      var sid := nextId;
      nextId := (nextId as int + 2) % 0x1_0000_0000;
      var stream := StartStream(sid);
      r := Ok(stream);
    }

    method StartStream(sid: StreamId) returns (r: YamuxStream)
      requires Valid()
      modifies this`streams, this`windows, this`sendBuf
      ensures Valid() && sid in streams && r == streams[sid]
      ensures View() == S.Emit(old(View()), M.Create(old(View()).mux, sid), [M.DataFrame(sid, SYN)])
    {
      r := GetOrCreateStream(sid, true);
      WriteFrame(Header(VERSION, DATA, SYN, sid, 0), []);
    }

    method DrainOutgoing() returns (data: seq<Byte>)
      requires Valid()
      modifies this`sendBuf
      ensures Valid() && data == old(sendBuf) && View() == old(View()).(sendBuf := [])
    {
      data := sendBuf;
      sendBuf := [];
    }

    predicate IsRemoteStreamId(sid: StreamId) {
      sid != 0 && (if isClient then sid as int % 2 == 0 else sid as int % 2 == 1)
    }

    /** Takes the first frame off the receive buffer, if all of it is there. */
    method TryParseFrame() returns (f: Option<Frame>)
      requires Valid()
      modifies this`recvBuf
      ensures Valid() && f == TryParse(old(recvBuf))
      ensures View() == old(View()).(recvBuf := if f.Some? then old(recvBuf)[FrameSize(f.value)..] else old(recvBuf))
    {
      if |recvBuf| < HEADER_SIZE { return None; }
      var header := recvBuf[..HEADER_SIZE];
      var hdr := Header(header[0], header[1], ReadBe16(header[2..4]), ReadBe32(header[4..8]), ReadBe32(header[8..12]));
      var payloadSize := if hdr.kind == DATA then hdr.length else 0;
      var frameSize := HEADER_SIZE + payloadSize;
      if |recvBuf| < frameSize { return None; }
      f := Some(Frame(hdr, recvBuf[HEADER_SIZE..frameSize]));
      recvBuf := recvBuf[frameSize..];
    }

    method AddCredit(sid: StreamId, credit: U32)
      requires Valid()
      modifies this`windows
      ensures Valid() && View() == old(View()).(mux := M.AddCredit(old(View()).mux, sid, credit))
    {
      if sid in windows {
        windows := windows[sid := Min(windows[sid] + credit, U32_MAX)];
      }
    }

    method Finish(stream: YamuxStream)
      requires Valid() && stream.Live() && stream.session == this
      modifies this`closed, stream
      ensures Valid() && View() == old(View()).(mux := M.Finish(old(View()).mux, stream.id))
    {
      stream.ReceiveFin();
      OneChanged(stream.id);
      if !stream.Value().IsOpen() {
        closed := closed + [(stream.id, M.FinishedByPeer)];
      }
    }

    method Abort(stream: YamuxStream)
      requires Valid() && stream.Live() && stream.session == this
      modifies this`windows, this`streams, this`closed, stream
      ensures Valid() && streams.Values <= old(streams.Values)
      ensures View() == old(View()).(mux := M.Abort(old(View()).mux, stream.id))
    {
      stream.ReceiveRst();
      closed := closed + [(stream.id, M.ResetByPeer)];
      EraseStream(stream.id);
      OneGone(stream.id);
    }

    method Append(stream: YamuxStream, data: seq<Byte>)
      requires Valid() && stream.Live() && stream.session == this
      modifies stream
      ensures Valid() && View() == old(View()).(mux := M.Append(old(View()).mux, stream.id, data))
    {
      stream.ReceiveData(data);
      OneChanged(stream.id);
    }

    /** Credit, then payload, then FIN, then RST, on a stream the session holds. */
    method DeliverTo(stream: YamuxStream, hdr: Header, payload: seq<Byte>)
      requires Valid() && hdr.streamId in streams && streams[hdr.streamId] == stream
      modifies this`windows, this`streams, this`closed, stream
      ensures Valid() && streams.Values <= old(streams.Values)
      ensures View() == old(View()).(mux := M.Deliver(old(View()).mux, Frame(hdr, payload)))
    {
      if hdr.kind == WINDOW_UPDATE && hdr.length > 0 { AddCredit(hdr.streamId, hdr.length); }
      Append(stream, payload);
      if HasFlag(hdr.flags, FIN) { Finish(stream); }
      if HasFlag(hdr.flags, RST) { Abort(stream); }
    }

    method HandleStreamFrame(hdr: Header, payload: seq<Byte>)
      requires Valid() && hdr.streamId != 0
      modifies this, streams.Values
      ensures Valid() && recvBuf == old(recvBuf)
      ensures forall s :: s in streams.Values ==> s in old(streams.Values) || fresh(s)
      ensures var step := M.HandleStream(old(View()).mux, Frame(hdr, payload));
        View() == S.Emit(old(View()), step.mux, step.frames)
    {
      EmitNothing();
      var openIfMissing := HasFlag(hdr.flags, SYN);
      if openIfMissing && !IsRemoteStreamId(hdr.streamId) {
        SendGoAway(1);
        return;
      }
      TakeStreamFrame(hdr, payload, openIfMissing);
    }

    /** A frame that may enter: its stream is found or accepted, and gets it. */
    method TakeStreamFrame(hdr: Header, payload: seq<Byte>, openIfMissing: bool)
      requires Valid() && hdr.streamId != 0
      modifies this, streams.Values
      ensures Valid() && recvBuf == old(recvBuf)
      ensures forall s :: s in streams.Values ==> s in old(streams.Values) || fresh(s)
      ensures match M.Enter(old(View()).mux, hdr.streamId, openIfMissing)
        case None => View() == old(View())
        case Some(s) => View() == S.Emit(old(View()), M.Deliver(s.mux, Frame(hdr, payload)), s.frames)
    {
      var stream := FindOrAccept(hdr.streamId, openIfMissing);
      if stream == null { return; }
      ghost var mid := View();
      DeliverTo(stream, hdr, payload);
      assert View() == mid.(mux := M.Deliver(mid.mux, Frame(hdr, payload)));
    }

    /** The stream of an incoming frame; a new one is announced and acknowledged. */
    method FindOrAccept(sid: StreamId, openIfMissing: bool) returns (r: YamuxStream?)
      requires Valid()
      modifies this
      ensures Valid() && recvBuf == old(recvBuf)
      ensures var entered := M.Enter(old(View()).mux, sid, openIfMissing);
        && (r == null <==> entered.None?)
        && (r == null ==> View() == old(View()))
        && (r != null ==> View() == S.Emit(old(View()), entered.value.mux, entered.value.frames))
      ensures r != null ==> sid in streams && streams[sid] == r && (r in old(streams.Values) || fresh(r))
      ensures streams.Values <= old(streams.Values) + (if r == null then {} else {r})
    {
      EmitNothing();
      var existed := sid in streams;
      r := GetOrCreateStream(sid, openIfMissing);
      if r == null { return; }
      if openIfMissing && !existed { accepted := accepted + [sid]; }
      if openIfMissing && !existed { AcknowledgeStream(sid); }
    }

    method HandleFrame(hdr: Header, payload: seq<Byte>)
      requires Valid()
      modifies this, streams.Values
      ensures Valid() && recvBuf == old(recvBuf)
      ensures forall s :: s in streams.Values ==> s in old(streams.Values) || fresh(s)
      ensures var step := M.Handle(old(View()).mux, Frame(hdr, payload));
        View() == S.Emit(old(View()), step.mux, step.frames)
    {
      EmitNothing();
      if hdr.version != VERSION { return; }
      if hdr.kind == PING {
        if !HasFlag(hdr.flags, ACK) { SendPingAck(hdr.length); }
        return;
      }
      if hdr.kind == GO_AWAY {
        goAway := true;
        return;
      }
      var isStreamFrame := hdr.kind == DATA || hdr.kind == WINDOW_UPDATE;
      if !isStreamFrame || hdr.streamId == 0 { return; }
      HandleStreamFrame(hdr, payload);
    }

    /** Handles frames until the buffer holds no complete one. */
    method ProcessFrames()
      requires Valid()
      modifies this, streams.Values
      ensures Valid() && View() == S.Process(old(View()))
      ensures forall s :: s in streams.Values ==> s in old(streams.Values) || fresh(s)
    {
      var frame := TryParseFrame();
      while frame.Some?
        invariant Valid()
        invariant forall s :: s in streams.Values ==> s in old(streams.Values) || fresh(s)
        invariant frame.Some? ==>
          var step := M.Handle(View().mux, frame.value);
          S.Process(old(View())) == S.Process(S.Emit(View(), step.mux, step.frames))
        invariant frame.None? ==> View() == S.Process(old(View()))
        decreases |recvBuf|, frame.Some?
      {
        HandleFrame(frame.value.hdr, frame.value.payload);
        frame := TryParseFrame();
      }
    }

    method Receive(data: seq<Byte>)
      requires Valid()
      modifies this, streams.Values
      ensures Valid() && View() == S.Receive(old(View()), data)
    {
      recvBuf := recvBuf + data;
      ProcessFrames();
    }
  }
}
