/**
 * The yamux session as a function on values: what every operation does to the streams, the send
 * windows and the go-away flag, and which frames it writes, in order. The byte buffers are added
 * by module YamuxSession, whose methods are proved against these functions.
 */
module YamuxMux {
  import opened Bytes
  import opened YamuxFrame

  datatype Error = Eagain | ClosedForWriting | UnknownStream | ShuttingDown

  datatype CloseReason = FinishedByPeer | ResetByPeer

  datatype Stream = Stream(readClosed: bool, writeClosed: bool, wasReset: bool, recvBuf: seq<Byte>) {
    predicate IsOpen() {
      !wasReset && (!readClosed || !writeClosed || recvBuf != [])
    }
  }

  const NEW_STREAM := Stream(false, false, false, [])

  /** `accepted` and `closed` record the calls of the accept and the close callback, in order. */
  datatype Mux = Mux(isClient: bool, nextId: StreamId, streams: map<StreamId, Stream>,
                     windows: map<StreamId, U32>, goAway: bool,
                     accepted: seq<StreamId>, closed: seq<(StreamId, CloseReason)>)

  /** A new state and the frames written on the way. */
  datatype Step = Step(mux: Mux, frames: seq<Frame>)

  /** The same with the answer given to the application. */
  datatype Reply<T> = Reply(mux: Mux, frames: seq<Frame>, result: Result<T, Error>)

  function Init(isClient: bool): Mux {
    Mux(isClient, FirstId(isClient), map[], map[], false, [], [])
  }

  function FirstId(isClient: bool): StreamId { if isClient then 1 else 2 }

  function DataFrame(sid: StreamId, flags: U16): Frame {
    Frame(Header(VERSION, DATA, flags, sid, 0), [])
  }

  function PayloadFrame(sid: StreamId, data: seq<Byte>): Frame
    requires |data| <= U32_MAX
  {
    Frame(Header(VERSION, DATA, 0, sid, |data|), data)
  }

  /** The delta is truncated to 32 bits. */
  function CreditFrame(sid: StreamId, delta: nat): Frame {
    Frame(Header(VERSION, WINDOW_UPDATE, 0, sid, Truncate32(delta)), [])
  }

  function PingAckFrame(value: U32): Frame {
    Frame(Header(VERSION, PING, ACK, 0, value), [])
  }

  const PROTOCOL_ERROR_FRAME := Frame(Header(VERSION, GO_AWAY, 0, 0, 1), [])

  /** The parity test alone; it does not ask whether the id was ever opened. */
  predicate IsRemoteId(m: Mux, sid: StreamId) {
    sid != 0 && sid as int % 2 == (if m.isClient then 0 else 1)
  }

  function Create(m: Mux, sid: StreamId): Mux {
    if sid in m.streams then m
    else m.(streams := m.streams[sid := NEW_STREAM], windows := m.windows[sid := INITIAL_WINDOW])
  }

  function Erase(m: Mux, sid: StreamId): Mux {
    m.(streams := m.streams - {sid}, windows := m.windows - {sid})
  }

  /** Opening a stream; the id counter wraps around at 32 bits. */
  function Open(m: Mux): Reply<StreamId> {
    if m.goAway then Reply(m, [], Err(ShuttingDown))
    else
      var sid := m.nextId;
      var next := m.(nextId := (sid as int + 2) % 0x1_0000_0000);
      Reply(Create(next, sid), [DataFrame(sid, SYN)], Ok(sid))
  }

  /** Writing sends as much of `data` as the window of the stream allows, in one frame. */
  function Write(m: Mux, sid: StreamId, data: seq<Byte>): Reply<nat> {
    if sid !in m.streams || m.streams[sid].writeClosed || m.streams[sid].wasReset then
      Reply(m, [], Err(ClosedForWriting))
    else
      SendData(m, sid, data)
  }

  function SendData(m: Mux, sid: StreamId, data: seq<Byte>): Reply<nat> {
    if sid !in m.windows then Reply(m, [], Err(UnknownStream))
    else
      var writable := Min(|data|, m.windows[sid]);
      if writable == 0 then Reply(m, [], Err(Eagain)) else Put(m, sid, data[..writable])
  }

  /** All of `data` goes out in one frame and is taken off the window. */
  function Put(m: Mux, sid: StreamId, data: seq<Byte>): Reply<nat>
    requires sid in m.windows && 0 < |data| <= m.windows[sid]
  {
    Reply(m.(windows := m.windows[sid := m.windows[sid] - |data|]), [PayloadFrame(sid, data)], Ok(|data|))
  }

  /** Reading at most `n` bytes; what was read is given back to the peer as credit. */
  function Read(m: Mux, sid: StreamId, n: nat): Reply<seq<Byte>> {
    if sid !in m.streams then Reply(m, [], Ok([]))
    else
      var s := m.streams[sid];
      if s.recvBuf == [] then
        Reply(m, [], if s.readClosed || s.wasReset then Ok([]) else Err(Eagain))
      else
        var k := Min(n, |s.recvBuf|);
        if k == 0 then Reply(m, [], Ok([])) else Take(m, sid, k)
  }

  /** The first `k` bytes leave the buffer and are credited. */
  function Take(m: Mux, sid: StreamId, k: nat): Reply<seq<Byte>>
    requires sid in m.streams && 0 < k <= |m.streams[sid].recvBuf|
  {
    var s := m.streams[sid];
    Reply(m.(streams := m.streams[sid := s.(recvBuf := s.recvBuf[k..])]), [CreditFrame(sid, k)], Ok(s.recvBuf[..k]))
  }

  function CloseWrite(m: Mux, sid: StreamId): Step {
    if sid !in m.streams || m.streams[sid].writeClosed then Step(m, [])
    else
      Step(m.(streams := m.streams[sid := m.streams[sid].(writeClosed := true)]), [DataFrame(sid, FIN)])
  }

  /** A reset is sent even through the handle of a stream that is already gone. */
  function Reset(m: Mux, sid: StreamId): Step {
    Step(Erase(m, sid), [DataFrame(sid, RST)])
  }

  /** What an incoming frame does. */
  function Handle(m: Mux, f: Frame): Step {
    var h := f.hdr;
    if h.version != VERSION then Step(m, [])
    else if h.kind == PING then
      Step(m, if HasFlag(h.flags, ACK) then [] else [PingAckFrame(h.length)])
    else if h.kind == GO_AWAY then Step(m.(goAway := true), [])
    else if (h.kind != DATA && h.kind != WINDOW_UPDATE) || h.streamId == 0 then Step(m, [])
    else HandleStream(m, f)
  }

  /** What a Data or WindowUpdate frame of some stream does. */
  function HandleStream(m: Mux, f: Frame): Step {
    var sid := f.hdr.streamId;
    if HasFlag(f.hdr.flags, SYN) && !IsRemoteId(m, sid) then Step(m, [PROTOCOL_ERROR_FRAME])
    else
      match Enter(m, sid, HasFlag(f.hdr.flags, SYN))
      case None => Step(m, [])
      case Some(s) => Step(Deliver(s.mux, f), s.frames)
  }

  /** Finds the stream of a frame; a SYN for a missing stream creates, announces and acknowledges it. */
  function Enter(m: Mux, sid: StreamId, syn: bool): (r: Option<Step>)
    ensures r.Some? ==> sid in r.value.mux.streams
  {
    if sid in m.streams then Some(Step(m, []))
    else if !syn then None
    else Some(Step(Create(m, sid).(accepted := m.accepted + [sid]), [DataFrame(sid, ACK)]))
  }

  /** The stream part of an incoming frame: credit, then payload, then FIN, then RST. */
  function Deliver(m: Mux, f: Frame): Mux
    requires f.hdr.streamId in m.streams
  {
    var sid := f.hdr.streamId;
    var m1 := if f.hdr.kind == WINDOW_UPDATE && f.hdr.length > 0 then AddCredit(m, sid, f.hdr.length) else m;
    var m2 := Append(m1, sid, f.payload);
    var m3 := if HasFlag(f.hdr.flags, FIN) then Finish(m2, sid) else m2;
    if HasFlag(f.hdr.flags, RST) then Abort(m3, sid) else m3
  }

  function Append(m: Mux, sid: StreamId, data: seq<Byte>): Mux
    requires sid in m.streams
  {
    m.(streams := m.streams[sid := m.streams[sid].(recvBuf := m.streams[sid].recvBuf + data)])
  }

  function Abort(m: Mux, sid: StreamId): Mux {
    Erase(m.(closed := m.closed + [(sid, ResetByPeer)]), sid)
  }

  /** Credit saturates at the largest 32-bit value. */
  function AddCredit(m: Mux, sid: StreamId, credit: U32): Mux {
    if sid !in m.windows then m
    else m.(windows := m.windows[sid := Min(m.windows[sid] + credit, U32_MAX)])
  }

  function Finish(m: Mux, sid: StreamId): Mux
    requires sid in m.streams
  {
    var s := m.streams[sid].(readClosed := true);
    m.(streams := m.streams[sid := s],
       closed := if s.IsOpen() then m.closed else m.closed + [(sid, FinishedByPeer)])
  }
}
