/**
 * What the decoders accept, said of arbitrary bytes rather than of honest messages: varints, messages, and the two
 * sides of a negotiation.
 */
module MultistreamLaws {
  import opened Bytes
  import opened Multistream
  import Varint

  // ---------- varints ----------

  /** The first `n` bytes all announce another one. */
  predicate Continues(buf: seq<Byte>, n: nat)
    requires n <= |buf|
  {
    forall i :: 0 <= i < n ==> buf[i] >= 0x80
  }

  /** The number that seven bits of each byte make up, least significant first. */
  function SevenBits(buf: seq<Byte>): nat {
    if buf == [] then 0 else buf[0] as int % 0x80 + 0x80 * SevenBits(buf[1..])
  }

  lemma {:induction false} GroupsMean(buf: seq<Byte>, position: nat)
    requires position < 10
    ensures match Varint.Groups(buf, position)
      case Done(v, k) =>
        && k <= |buf| && position + k <= 10 && Continues(buf, k - 1) && buf[k - 1] < 0x80
        && v == SevenBits(buf[..k])
      case Incomplete => position + |buf| < 10 && Continues(buf, |buf|)
      case Invalid => position + |buf| >= 10 && Continues(buf, 10 - position)
    decreases |buf|
  {
    if buf == [] {
    } else if buf[0] >= 0x80 && position + 1 < 10 {
      var rest := buf[1..];
      GroupsMean(rest, position + 1);
      assert forall i :: 0 < i < |buf| ==> buf[i] == rest[i - 1];
      match Varint.Groups(rest, position + 1) {
        case Done(v, k) => assert buf[..k + 1][1..] == rest[..k];
        case _ =>
      }
    } else if buf[0] < 0x80 {
      assert buf[..1][1..] == [];
      assert SevenBits(buf[..1]) == buf[0] as int % 0x80 + 0x80 * SevenBits([]);
    }
  }

  /**
   * A number ends at its first byte below 128, which is one of the first ten, and is what the seven-bit groups up to
   * there make up, modulo 2^64. Ten bytes without such an end are invalid; fewer are incomplete.
   */
  lemma VarintMeans(buf: seq<Byte>)
    ensures match Varint.Decode(buf)
      case Done(v, k) =>
        && k <= |buf| && k <= 10 && Continues(buf, k - 1) && buf[k - 1] < 0x80
        && v == SevenBits(buf[..k]) % 0x1_0000_0000_0000_0000
      case Incomplete => |buf| < 10 && Continues(buf, |buf|)
      case Invalid => |buf| >= 10 && Continues(buf, 10)
  {
    GroupsMean(buf, 0);
  }

  /** The encoding of a number is the one sequence of groups that spells it without a needless last group. */
  lemma {:induction false} EncodingMeans(v: U64)
    ensures var e := Varint.Encode(v);
      && SevenBits(e) == v && Continues(e, |e| - 1) && e[|e| - 1] < 0x80
      && (|e| > 1 ==> e[|e| - 1] != 0)
    decreases v
  {
    var e := Varint.Encode(v);
    if v < 0x80 {
      assert e[1..] == [];
      assert SevenBits(e) == e[0] as int % 0x80 + 0x80 * SevenBits(e[1..]);
    } else {
      EncodingMeans(v / 0x80);
      assert e[1..] == Varint.Encode(v / 0x80);
      assert forall i :: 0 < i < |e| ==> e[i] == e[1..][i - 1];
      if |e| == 2 { assert e[1] == v / 0x80; }
    }
  }

  // ---------- messages ----------

  /** The buffer begins with a length, then that many bytes: `text`, and a newline at the end. */
  predicate BeginsWith(buf: seq<Byte>, text: Text, rest: seq<Byte>) {
    match Varint.Decode(buf)
    case Done(len, used) => len == |text| + 1 && buf == buf[..used] + text + [NEWLINE] + rest
    case _ => false
  }

  lemma ThreeParts(s: seq<Byte>, k: nat)
    requires k < |s|
    ensures s == s[..k] + [s[k]] + s[k + 1..]
  {
  }

  lemma ReadBegins(buf: seq<Byte>, text: Text, rest: seq<Byte>)
    requires Next(buf) == Ok(Token(text, rest))
    ensures BeginsWith(buf, text, rest)
  {
    var d := Varint.Decode(buf);
    ThreeParts(buf[d.used..], d.value - 1);
    assert buf == buf[..d.used] + (text + [NEWLINE] + rest);
  }

  lemma PartsOf(front: seq<Byte>, text: seq<Byte>, rest: seq<Byte>)
    ensures var body := (front + text + [NEWLINE] + rest)[|front|..];
      && |body| == |text| + 1 + |rest|
      && body[|text|] == NEWLINE && body[..|text|] == text && body[|text| + 1..] == rest
  {
  }

  lemma BeginsRead(buf: seq<Byte>, text: Text, rest: seq<Byte>)
    requires BeginsWith(buf, text, rest)
    ensures Next(buf) == Ok(Token(text, rest))
  {
    PartsOf(buf[..Varint.Decode(buf).used], text, rest);
  }

  /** Exactly such a buffer is read, as exactly this message. */
  lemma NextMeans(buf: seq<Byte>, text: Text, rest: seq<Byte>)
    ensures Next(buf) == Ok(Token(text, rest)) <==> BeginsWith(buf, text, rest)
  {
    if Next(buf) == Ok(Token(text, rest)) {
      ReadBegins(buf, text, rest);
    } else if BeginsWith(buf, text, rest) {
      BeginsRead(buf, text, rest);
    }
  }

  /** And what stands in the way of a message is exactly this. */
  lemma NextFails(buf: seq<Byte>)
    ensures Next(buf) == Err(IncompleteLength) <==> Varint.Decode(buf).Incomplete?
    ensures Next(buf) == Err(InvalidLength) <==> Varint.Decode(buf).Invalid?
    ensures Next(buf) == Err(IncompleteMessage) <==>
      Varint.Decode(buf).Done? && |buf| < Varint.Decode(buf).used + Varint.Decode(buf).value
    ensures Next(buf) == Err(InvalidMessage) <==>
      && Varint.Decode(buf).Done? && Varint.Decode(buf).used + Varint.Decode(buf).value <= |buf|
      && forall text, rest :: !BeginsWith(buf, text, rest)
    ensures Next(buf).Err? ==> Next(buf).error in {IncompleteLength, InvalidLength, IncompleteMessage, InvalidMessage}
  {
    forall text, rest ensures Next(buf) == Ok(Token(text, rest)) <==> BeginsWith(buf, text, rest) {
      NextMeans(buf, text, rest);
    }
    if Next(buf).Ok? { NextMeans(buf, Next(buf).value.text, Next(buf).value.rest); }
  }

  // ---------- the responder ----------

  /** The bytes are the header and then `text`. */
  predicate Proposes(buf: seq<Byte>, text: Text) {
    Exchange(buf).Ok? && Exchange(buf).value.0 == HEADER && Exchange(buf).value.1.text == text
  }

  /** A first message that is not the header. */
  predicate WrongHeader(buf: seq<Byte>) { Next(buf).Ok? && Next(buf).value.text != HEADER }

  /**
   * For every buffer and every list: the responder answers exactly what begins with the header and a second message.
   * It settles on that message if it is in the list and on nothing otherwise. Another first message is refused as
   * such, and whatever cannot be read is reported as the parser found it.
   */
  lemma InboundMeans(buf: seq<Byte>, supported: seq<Text>)
    requires forall p :: p in supported ==> Sized(p)
    ensures var r := NegotiateInbound(buf, supported);
      && (r.Ok? <==> Exchange(buf).Ok? && Exchange(buf).value.0 == HEADER)
      && (r.Ok? ==>
            var text := Exchange(buf).value.1.text;
            r.value.protocol == if text in supported then Some(text) else None)
      && (r == Err(UnexpectedHeader) <==> WrongHeader(buf))
      && (r.Err? && !WrongHeader(buf) ==> Exchange(buf) == Err(r.error))
  {
    NextFails(buf);
    if Next(buf).Ok? { NextFails(Next(buf).value.rest); }
  }

  /** What it answers is the header and the name it settled on, or the header and "na". */
  lemma InboundAnswers(buf: seq<Byte>, supported: seq<Text>)
    requires (forall p :: p in supported ==> Sized(p)) && NegotiateInbound(buf, supported).Ok?
    ensures var n := NegotiateInbound(buf, supported).value;
      Exchange(n.outbound) == Ok((HEADER, Token(if n.protocol.Some? then Strip(n.protocol.value) else NA, [])))
  {
    var n := NegotiateInbound(buf, supported).value;
    InboundMeans(buf, supported);
    var name := if n.protocol.Some? then n.protocol.value else NA;
    TwoMessages(HEADER, name);
    assert Strip(NA) == NA && Strip(HEADER) == HEADER;
    assert n.outbound == Encode(HEADER) + Encode(name);
  }

  // ---------- the initiator ----------

  /**
   * For every buffer and proposal: the initiator succeeds exactly on the header and its own proposal, takes "na" for a
   * refusal, refuses any other answer and any other header, and reports what cannot be read as the parser found it.
   */
  lemma OutboundMeans(buf: seq<Byte>, proposal: Text)
    ensures var r := ReadOutboundResponse(buf, proposal);
      && (r.Ok? <==> Proposes(buf, proposal)) && (r.Ok? ==> r.value == proposal)
      && (r == Err(NotSupported) <==> Proposes(buf, NA) && proposal != NA)
      && (r == Err(UnexpectedResponse) <==>
            && Exchange(buf).Ok? && Exchange(buf).value.0 == HEADER
            && Exchange(buf).value.1.text != proposal && Exchange(buf).value.1.text != NA)
      && (r == Err(UnexpectedHeader) <==> WrongHeader(buf))
      && (r.Err? && r.error !in {NotSupported, UnexpectedResponse, UnexpectedHeader} ==> Exchange(buf) == Err(r.error))
  {
    NextFails(buf);
    if Next(buf).Ok? { NextFails(Next(buf).value.rest); }
  }

  /** The initiator proposes the first name of its list, behind the header, and nothing else. */
  lemma ProposalMeans(proposals: seq<Text>)
    requires forall p :: p in proposals ==> Sized(p)
    ensures PrepareOutbound(proposals).Ok? <==> proposals != []
    ensures proposals != [] ==>
      Exchange(PrepareOutbound(proposals).value) == Ok((HEADER, Token(Strip(proposals[0]), [])))
  {
    if proposals != [] { TwoMessages(HEADER, proposals[0]); }
  }

  /** The scanner for exchanges knows three obstacles; it never looks at what the messages say. */
  lemma ScanErrors(buf: seq<Byte>)
    ensures ExchangeSpan(buf).Err? ==> ExchangeSpan(buf).error in {IncompleteLength, IncompleteMessage, InvalidLength}
  {
  }
}
