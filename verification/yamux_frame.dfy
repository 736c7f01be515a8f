/** The yamux frame codec: the 12-byte header, and the parser that looks only at the receive buffer. */
module YamuxFrame {
  import opened Bytes

  type StreamId = U32

  datatype Header = Header(version: Byte, kind: Byte, flags: U16, streamId: StreamId, length: U32)

  datatype Frame = Frame(hdr: Header, payload: seq<Byte>)

  const VERSION: Byte := 0
  const DATA: Byte := 0
  const WINDOW_UPDATE: Byte := 1
  const PING: Byte := 2
  const GO_AWAY: Byte := 3

  const SYN: U16 := 1
  const ACK: U16 := 2
  const FIN: U16 := 4
  const RST: U16 := 8

  const HEADER_SIZE := 12
  const INITIAL_WINDOW: U32 := 262144

  /** `flags & flag` for a single-bit flag. */
  predicate HasFlag(flags: U16, flag: U16)
    requires flag != 0
  {
    flags / flag % 2 == 1
  }

  function EncodeHeader(h: Header): (r: seq<Byte>)
    ensures |r| == HEADER_SIZE
  {
    [h.version, h.kind] + Be16(h.flags) + Be32(h.streamId) + Be32(h.length)
  }

  function DecodeHeader(b: seq<Byte>): Header
    requires |b| == HEADER_SIZE
  {
    Header(b[0], b[1], ReadBe16(b[2..4]), ReadBe32(b[4..8]), ReadBe32(b[8..12]))
  }

  lemma HeaderRoundTrip(h: Header)
    ensures DecodeHeader(EncodeHeader(h)) == h
  {
    var b := EncodeHeader(h);
    assert b[2..4] == Be16(h.flags);
    assert b[4..8] == Be32(h.streamId);
    assert b[8..12] == Be32(h.length);
    Be32RoundTrip(h.streamId);
    Be32RoundTrip(h.length);
  }

  /** The bytes `write_frame` appends; it copies the payload whatever the header says. */
  function Encode(f: Frame): (r: seq<Byte>)
    ensures |r| == HEADER_SIZE + |f.payload|
  {
    EncodeHeader(f.hdr) + f.payload
  }

  function EncodeAll(fs: seq<Frame>): seq<Byte> {
    if fs == [] then [] else Encode(fs[0]) + EncodeAll(fs[1..])
  }

  /** What the parser can give back: only Data frames carry a payload, of exactly `length` bytes. */
  predicate WellFormed(f: Frame) {
    |f.payload| == PayloadSize(f.hdr)
  }

  function PayloadSize(h: Header): nat {
    if h.kind == DATA then h.length else 0
  }

  /** The frame at the front of a buffer, if all of it has arrived. */
  function TryParse(buf: seq<Byte>): (r: Option<Frame>)
    ensures r.Some? ==> WellFormed(r.value) && HEADER_SIZE + |r.value.payload| <= |buf|
  {
    if |buf| < HEADER_SIZE then None
    else
      var h := DecodeHeader(buf[..HEADER_SIZE]);
      var size := HEADER_SIZE + PayloadSize(h);
      if |buf| < size then None else Some(Frame(h, buf[HEADER_SIZE..size]))
  }

  /** Bytes the parsed frame occupied. */
  function FrameSize(f: Frame): nat { HEADER_SIZE + |f.payload| }

  /** Parsing undoes writing, whatever bytes follow. */
  lemma ParseInvertsWrite(f: Frame, rest: seq<Byte>)
    requires WellFormed(f)
    ensures TryParse(Encode(f) + rest) == Some(f)
    ensures (Encode(f) + rest)[FrameSize(f)..] == rest
  {
    var buf := Encode(f) + rest;
    assert buf[..HEADER_SIZE] == EncodeHeader(f.hdr);
    HeaderRoundTrip(f.hdr);
    assert buf[HEADER_SIZE..FrameSize(f)] == f.payload;
  }

  /** Writing undoes parsing: the buffer is the frame found at its front followed by what is left. */
  lemma WriteInvertsParse(buf: seq<Byte>)
    requires TryParse(buf).Some?
    ensures var f := TryParse(buf).value; Encode(f) + buf[FrameSize(f)..] == buf
  {
    var f := TryParse(buf).value;
    var b := buf[..HEADER_SIZE];
    assert EncodeHeader(DecodeHeader(b)) == b by {
      EncodeDecodeBe16(b[2..4]);
      EncodeDecodeBe32(b[4..8]);
      EncodeDecodeBe32(b[8..12]);
      assert b == [b[0], b[1]] + b[2..4] + b[4..8] + b[8..12];
    }
    assert buf == b + buf[HEADER_SIZE..FrameSize(f)] + buf[FrameSize(f)..];
  }

  lemma EncodeDecodeBe16(b: seq<Byte>)
    requires |b| == 2
    ensures Be16(ReadBe16(b)) == b
  {
  }

  lemma EncodeDecodeBe32(b: seq<Byte>)
    requires |b| == 4
    ensures Be32(ReadBe32(b)) == b
  {
    var v: int := ReadBe32(b);
    assert v / 0x100_0000 == b[0];
    assert v / 0x1_0000 == b[0] as int * 0x100 + b[1];
    assert v / 0x100 == b[0] as int * 0x1_0000 + b[1] as int * 0x100 + b[2];
  }

  /** A frame found in a buffer is found again after more bytes arrive. */
  lemma ParseIsStable(buf: seq<Byte>, more: seq<Byte>)
    requires TryParse(buf).Some?
    ensures TryParse(buf + more) == TryParse(buf)
    ensures (buf + more)[FrameSize(TryParse(buf).value)..] == buf[FrameSize(TryParse(buf).value)..] + more
  {
    var f := TryParse(buf).value;
    WriteInvertsParse(buf);
    var rest := buf[FrameSize(f)..];
    assert buf + more == Encode(f) + (rest + more);
    ParseInvertsWrite(f, rest + more);
  }

  lemma {:induction false} EncodeAllAppend(a: seq<Frame>, b: seq<Frame>)
    ensures EncodeAll(a + b) == EncodeAll(a) + EncodeAll(b)
  {
    if a == [] {
      assert a + b == b;
    } else {
      assert (a + b)[1..] == a[1..] + b;
      EncodeAllAppend(a[1..], b);
    }
  }

  lemma EncodeAllOne(f: Frame)
    ensures EncodeAll([f]) == Encode(f)
  {
    assert EncodeAll([f]) == Encode(f) + EncodeAll([]);
  }
}
