/** The bytes on the wire, spelled out: names, the length frames of the secure channel, and yamux headers. */
module WireLayout {
  import opened Bytes
  import opened Octets
  import C = Connection
  import F = YamuxFrame
  import MS = Multistream
  import N = Noise
  import NP = NoisePayload
  import T = Transport

  // ---------- names ----------

  /** The bytes of an ASCII text. */
  function Ascii(text: string): (r: seq<Byte>)
    ensures |r| == |text|
  {
    seq(|text|, i requires 0 <= i < |text| => text[i] as int % 0x100)
  }

  lemma ProtocolNames()
    ensures C.NOISE == Ascii("/noise") && C.YAMUX == Ascii("/yamux/1.0.0") && MS.NA == Ascii("na")
  {
  }

  lemma HeaderName()
    ensures MS.HEADER == Ascii("/multistream/1.0.0")
  {
  }

  lemma SignaturePrefix()
    ensures NP.SIGNATURE_PREFIX == Ascii("noise-libp2p-static-key:")
  {
  }

  lemma HandshakeName()
    ensures N.NameKey() == Lits(Ascii("Noise_XX_25519_ChaChaPoly_SHA256"))
  {
  }

  // ---------- frames of the secure channel ----------

  /** The number that two bytes spell, the more significant one first. */
  function Sixteen(high: Byte, low: Byte): nat { high as int * 0x100 + low }

  /** The buffer begins with a frame of this message: its length in two octets, then the message. */
  predicate BeginsWithFrame(buffer: seq<Octet>, message: seq<Octet>, rest: seq<Octet>) {
    |buffer| >= 2 && buffer == buffer[..2] + message + rest && |message| == Sixteen(Val(buffer[0]), Val(buffer[1]))
  }

  lemma LengthIsSixteen(b: seq<Octet>)
    requires |b| >= 2
    ensures ReadBe16(Vals(b[..2])) == Sixteen(Val(b[0]), Val(b[1]))
  {
    assert b[..2][0] == b[0] && b[..2][1] == b[1];
  }

  /** What is popped is the frame at the front of the buffer, and nothing is popped exactly if there is none. */
  lemma PopMeans(buffer: seq<Octet>, message: seq<Octet>, rest: seq<Octet>)
    ensures T.PopFrame(buffer) == Some(T.Popped(message, rest)) <==> BeginsWithFrame(buffer, message, rest)
  {
    if |buffer| >= 2 {
      LengthIsSixteen(buffer);
      var total := Sixteen(Val(buffer[0]), Val(buffer[1])) + 2;
      if |buffer| >= total {
        assert buffer == buffer[..2] + buffer[2..total] + buffer[total..];
        if BeginsWithFrame(buffer, message, rest) {
          assert buffer[2..total] == message && buffer[total..] == rest;
        }
      }
    }
  }

  /** A whole frame is decoded exactly to the message it frames. */
  lemma DecodeMeans(frame: seq<Octet>, message: seq<Octet>)
    ensures T.DecodeFrame(frame) == Ok(message) <==> BeginsWithFrame(frame, message, [])
  {
    if |frame| >= 2 {
      LengthIsSixteen(frame);
      assert frame == frame[..2] + frame[2..] + [];
      if BeginsWithFrame(frame, message, []) { assert frame[2..] == message; }
    }
  }

  /** Encoding puts a message of at most 65535 octets behind its length, and refuses every longer one. */
  lemma EncodeMeans(message: seq<Octet>)
    ensures if |message| > 0xFFFF then T.EncodeFrame(message) == Err(NP.FrameTooLarge)
            else
              T.EncodeFrame(message).Ok? && BeginsWithFrame(T.EncodeFrame(message).value, message, [])
              && T.EncodeFrame(message).value[0] == Lit(|message| / 0x100)
  {
    if |message| <= 0xFFFF {
      var frame := T.EncodeFrame(message).value;
      assert frame[..2] == Lits(Be16(|message|));
      assert frame == frame[..2] + message + [];
    }
  }

  // ---------- yamux ----------

  function ThirtyTwo(a: Byte, b: Byte, c: Byte, d: Byte): nat { Sixteen(a, b) * 0x1_0000 + Sixteen(c, d) }

  /** The twelve bytes of a header: version, type, flags, stream id and length, more significant bytes first. */
  lemma HeaderBytes(h: F.Header)
    ensures var b := F.EncodeHeader(h);
      && b[0] == h.version && b[1] == h.kind && Sixteen(b[2], b[3]) == h.flags
      && ThirtyTwo(b[4], b[5], b[6], b[7]) == h.streamId && ThirtyTwo(b[8], b[9], b[10], b[11]) == h.length
  {
    var b := F.EncodeHeader(h);
    assert b[2] == Be16(h.flags)[0] && b[3] == Be16(h.flags)[1];
    assert b[4..8] == Be32(h.streamId) && b[8..12] == Be32(h.length);
    SpelledOut(h.streamId, b[4..8]);
    SpelledOut(h.length, b[8..12]);
  }

  lemma SpelledOut(v: U32, b: seq<Byte>)
    requires b == Be32(v)
    ensures ThirtyTwo(b[0], b[1], b[2], b[3]) == v
  {
    Be32RoundTrip(v);
  }

  /** What is parsed is the frame whose bytes the buffer begins with, and nothing is parsed exactly if there is none. */
  lemma ParseMeans(buf: seq<Byte>, f: F.Frame)
    ensures F.TryParse(buf) == Some(f) <==> F.WellFormed(f) && F.Encode(f) <= buf
  {
    if F.TryParse(buf) == Some(f) { F.WriteInvertsParse(buf); }
    if F.WellFormed(f) && F.Encode(f) <= buf {
      F.ParseInvertsWrite(f, buf[|F.Encode(f)|..]);
      assert F.Encode(f) + buf[|F.Encode(f)|..] == buf;
    }
  }
}
