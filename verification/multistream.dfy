/**
 * multistream-select 1.0: messages are length-prefixed lines, an exchange is two of them. The
 * scanner that decides whether an exchange has arrived is separate from the parser that reads it.
 */
module Multistream {
  import opened Bytes
  import Varint

  /** Protocol names, as bytes. */
  type Text = seq<Byte>

  /** Every string and every buffer of the program is shorter than this. */
  predicate Sized(s: seq<Byte>) { |s| < 0x8000_0000_0000_0000 }

  datatype Error =
    | IncompleteLength | InvalidLength | IncompleteMessage | InvalidMessage
    | NoProposals | UnexpectedHeader | NotSupported | UnexpectedResponse

  datatype Token = Token(text: Text, rest: seq<Byte>)

  datatype Negotiation = Negotiation(outbound: seq<Byte>, protocol: Option<Text>)

  const NEWLINE: Byte := 10

  /** "/multistream/1.0.0" */
  const HEADER: Text := [0x2F, 0x6D, 0x75, 0x6C, 0x74, 0x69, 0x73, 0x74, 0x72, 0x65, 0x61, 0x6D,
                         0x2F, 0x31, 0x2E, 0x30, 0x2E, 0x30]

  /** "na" */
  const NA: Text := [0x6E, 0x61]

  predicate EndsInNewline(msg: seq<Byte>) {
    msg != [] && msg[|msg| - 1] == NEWLINE
  }

  function EnsureNewline(msg: Text): (r: seq<Byte>)
    ensures EndsInNewline(r)
  {
    if EndsInNewline(msg) then msg else msg + [NEWLINE]
  }

  /** What a reader of the message sees: a newline that was already there is lost. */
  function Strip(msg: Text): Text {
    if EndsInNewline(msg) then msg[..|msg| - 1] else msg
  }

  function Encode(msg: Text): seq<Byte>
    requires Sized(msg)
  {
    Varint.Encode(|EnsureNewline(msg)|) + EnsureNewline(msg)
  }

  function IsIncomplete(e: Error): bool { e == IncompleteLength || e == IncompleteMessage }

  /** The message at the front of a buffer and what follows it. */
  function Next(buf: seq<Byte>): (r: Result<Token, Error>)
    ensures r.Ok? ==> |r.value.rest| < |buf| && r.value.rest == buf[|buf| - |r.value.rest|..]
  {
    match Varint.Decode(buf)
    case Incomplete => Err(IncompleteLength)
    case Invalid => Err(InvalidLength)
    case Done(len, used) =>
      var body := buf[used..];
      if |body| < len then Err(IncompleteMessage)
      else if len == 0 || body[len - 1] != NEWLINE then Err(InvalidMessage)
      else Ok(Token(body[..len - 1], body[len..]))
  }

  /** How many bytes the message at the front of a buffer takes. */
  function MessageSpan(buf: seq<Byte>): (r: Result<nat, Error>)
    ensures r.Ok? ==> 0 < r.value <= |buf|
  {
    match Varint.Decode(buf)
    case Incomplete => Err(IncompleteLength)
    case Invalid => Err(InvalidLength)
    case Done(len, used) => if |buf| - used < len then Err(IncompleteMessage) else Ok(used + len)
  }

  function ExchangeSpan(buf: seq<Byte>): (r: Result<nat, Error>)
    ensures r.Ok? ==> 0 < r.value <= |buf|
  {
    var first := MessageSpan(buf);
    if first.Err? then first
    else
      var second := MessageSpan(buf[first.value..]);
      if second.Err? then second else Ok(first.value + second.value)
  }

  /** The two messages of an exchange and what follows them. */
  function Exchange(buf: seq<Byte>): Result<(Text, Token), Error> {
    var first := Next(buf);
    if first.Err? then Err(first.error)
    else
      var second := Next(first.value.rest);
      if second.Err? then Err(second.error) else Ok((first.value.text, second.value))
  }

  // ---------- scanner and parser ----------

  /** The scanner and the parser see the same message, or the same obstacle. */
  lemma SpanIsNext(buf: seq<Byte>)
    ensures Next(buf).Ok? ==> MessageSpan(buf) == Ok(|buf| - |Next(buf).value.rest|)
    ensures Next(buf).Err? && Next(buf).error != InvalidMessage ==> MessageSpan(buf) == Err(Next(buf).error)
    ensures Next(buf) == Err(InvalidMessage) ==> MessageSpan(buf).Ok?
  {
  }

  lemma MessageStable(buf: seq<Byte>, more: seq<Byte>)
    requires MessageSpan(buf).Ok?
    ensures MessageSpan(buf + more) == MessageSpan(buf)
    ensures (buf + more)[MessageSpan(buf).value..] == buf[MessageSpan(buf).value..] + more
  {
    Varint.DecodeStable(buf, more);
  }

  lemma NextOfSpan(buf: seq<Byte>)
    requires MessageSpan(buf).Ok?
    ensures var n := MessageSpan(buf).value;
      && MessageSpan(buf[..n]) == Ok(n)
      && (Next(buf).Ok? <==> Next(buf[..n]).Ok?)
      && (Next(buf).Ok? ==> Next(buf[..n]) == Ok(Token(Next(buf).value.text, [])) && Next(buf).value.rest == buf[n..])
      && (Next(buf).Err? ==> Next(buf[..n]) == Err(InvalidMessage) == Next(buf))
  {
    var n, d := MessageSpan(buf).value, Varint.Decode(buf);
    PrefixDecides(buf, n);
    assert buf[..n][d.used..] == buf[d.used..][..d.value];
    if Next(buf).Ok? {
      assert buf[..n][d.used..][..d.value - 1] == buf[d.used..][..d.value - 1];
    }
  }

  /** The length prefix is inside every prefix of the buffer that is at least as long. */
  lemma PrefixDecides(buf: seq<Byte>, n: nat)
    requires Varint.Decode(buf).Done? && Varint.Decode(buf).used <= n <= |buf|
    ensures Varint.Decode(buf[..n]) == Varint.Decode(buf)
  {
    Varint.GroupsLocal(buf, n, 0);
  }

  /** Once a complete exchange is seen, more bytes do not change where it ends. */
  lemma SpanIsStable(buf: seq<Byte>, more: seq<Byte>)
    requires ExchangeSpan(buf).Ok?
    ensures ExchangeSpan(buf + more) == ExchangeSpan(buf)
  {
    MessageStable(buf, more);
    MessageStable(buf[MessageSpan(buf).value..], more);
  }

  /** Once the prefix of a message is found to be invalid, it stays so. */
  lemma InvalidIsStable(buf: seq<Byte>, more: seq<Byte>)
    requires ExchangeSpan(buf) == Err(InvalidLength)
    ensures ExchangeSpan(buf + more) == Err(InvalidLength)
  {
    if MessageSpan(buf).Ok? {
      MessageStable(buf, more);
      Varint.DecodeStable(buf[MessageSpan(buf).value..], more);
    } else {
      Varint.DecodeStable(buf, more);
    }
  }

  /** On the bytes the scanner delimits, the parser never asks for more and, if it succeeds, uses them all. */
  lemma ParserUsesTheSpan(buf: seq<Byte>)
    requires ExchangeSpan(buf).Ok?
    ensures var e := Exchange(buf[..ExchangeSpan(buf).value]);
      && (e.Ok? ==> e.value.1.rest == [])
      && (e.Err? ==> e.error == InvalidMessage)
  {
    var n, m := MessageSpan(buf).value, ExchangeSpan(buf).value;
    Slices(buf, n, m);
    SpanOfSlice(buf);
    SpanOfSlice(buf[n..]);
    TwoSpans(buf[..n], buf[n..][..m - n]);
  }

  lemma Slices(buf: seq<Byte>, n: nat, m: nat)
    requires n <= m <= |buf|
    ensures buf[..m] == buf[..n] + buf[n..][..m - n]
  {
  }

  lemma SpanOfSlice(buf: seq<Byte>)
    requires MessageSpan(buf).Ok?
    ensures MessageSpan(buf[..MessageSpan(buf).value]) == Ok(MessageSpan(buf).value)
  {
    NextOfSpan(buf);
  }

  /** Two messages, each exactly as long as its span, make an exchange with nothing behind it or an invalid one. */
  lemma TwoSpans(x: seq<Byte>, y: seq<Byte>)
    requires MessageSpan(x) == Ok(|x|) && MessageSpan(y) == Ok(|y|)
    ensures var e := Exchange(x + y);
      && (e.Ok? ==> e.value.1.rest == [])
      && (e.Err? ==> e.error == InvalidMessage)
  {
    MessageStable(x, y);
    assert (x + y)[|x|..] == y;
    WholeSpan(x + y);
    WholeSpan(y);
  }

  /** Reading the first message of a buffer leaves what is behind its span, or finds it invalid. */
  lemma WholeSpan(buf: seq<Byte>)
    requires MessageSpan(buf).Ok?
    ensures Next(buf).Ok? ==> Next(buf).value.rest == buf[MessageSpan(buf).value..]
    ensures Next(buf).Err? ==> Next(buf).error == InvalidMessage
  {
    NextOfSpan(buf);
  }

  /** Every strict prefix of a complete exchange is reported as incomplete, never as invalid. */
  lemma PrefixIsIncomplete(buf: seq<Byte>, k: nat)
    requires ExchangeSpan(buf) == Ok(|buf|) && k < |buf|
    ensures ExchangeSpan(buf[..k]).Err? && IsIncomplete(ExchangeSpan(buf[..k]).error)
  {
    var n := MessageSpan(buf).value;
    if k < n {
      MessagePrefix(buf, k);
    } else {
      Slices(buf, n, k);
      SpanOfSlice(buf);
      SecondIsCut(buf[..n], buf[n..], k - n);
    }
  }

  /** A whole first message and part of the second. */
  lemma SecondIsCut(x: seq<Byte>, y: seq<Byte>, k: nat)
    requires MessageSpan(x) == Ok(|x|) && MessageSpan(y).Ok? && k < MessageSpan(y).value
    ensures ExchangeSpan(x + y[..k]).Err? && IsIncomplete(ExchangeSpan(x + y[..k]).error)
  {
    MessageStable(x, y[..k]);
    assert (x + y[..k])[|x|..] == y[..k];
    MessagePrefix(y, k);
  }

  lemma MessagePrefix(buf: seq<Byte>, k: nat)
    requires MessageSpan(buf).Ok? && k < MessageSpan(buf).value
    ensures MessageSpan(buf[..k]).Err? && IsIncomplete(MessageSpan(buf[..k]).error)
  {
    var d := Varint.Decode(buf);
    if k < d.used {
      Varint.DecodePrefix(buf, k);
    } else {
      PrefixDecides(buf, k);
    }
  }

  // ---------- negotiation ----------

  function PrepareOutbound(proposals: seq<Text>): Result<seq<Byte>, Error>
    requires forall p :: p in proposals ==> Sized(p)
  {
    if proposals == [] then Err(NoProposals) else Ok(Encode(HEADER) + Encode(proposals[0]))
  }

  function ReadOutboundResponse(incoming: seq<Byte>, proposal: Text): Result<Text, Error> {
    var header := Next(incoming);
    if header.Err? then Err(header.error)
    else if header.value.text != HEADER then Err(UnexpectedHeader)
    else
      var token := Next(header.value.rest);
      if token.Err? then Err(token.error)
      else if token.value.text == proposal then Ok(token.value.text)
      else if token.value.text == NA then Err(NotSupported)
      else Err(UnexpectedResponse)
  }

  function NegotiateInbound(incoming: seq<Byte>, supported: seq<Text>): Result<Negotiation, Error>
    requires forall p :: p in supported ==> Sized(p)
  {
    var header := Next(incoming);
    if header.Err? then Err(header.error)
    else if header.value.text != HEADER then Err(UnexpectedHeader)
    else
      var proposal := Next(header.value.rest);
      if proposal.Err? then Err(proposal.error)
      else if proposal.value.text in supported then
        Ok(Negotiation(Encode(HEADER) + Encode(proposal.value.text), Some(proposal.value.text)))
      else Ok(Negotiation(Encode(HEADER) + Encode(NA), None))
  }

  /** Reading back a written message, whatever follows it. */
  lemma RoundTrip(msg: Text, rest: seq<Byte>)
    requires Sized(msg)
    ensures Next(Encode(msg) + rest) == Ok(Token(Strip(msg), rest))
  {
    var line := EnsureNewline(msg);
    var len := Varint.Encode(|line|);
    Assoc(len, line, rest);
    Varint.RoundTrip(|line|, line + rest);
    assert (len + (line + rest))[|len|..] == line + rest;
    assert (line + rest)[..|line| - 1] == Strip(msg);
  }

  lemma SpanOfEncoding(msg: Text, rest: seq<Byte>)
    requires Sized(msg)
    ensures MessageSpan(Encode(msg) + rest) == Ok(|Encode(msg)|)
  {
    RoundTrip(msg, rest);
    SpanIsNext(Encode(msg) + rest);
  }

  lemma OneMessage(msg: Text)
    requires Sized(msg)
    ensures Next(Encode(msg)) == Ok(Token(Strip(msg), []))
  {
    RoundTrip(msg, []);
    assert Encode(msg) + [] == Encode(msg);
  }

  lemma OneSpan(msg: Text)
    requires Sized(msg)
    ensures MessageSpan(Encode(msg)) == Ok(|Encode(msg)|)
  {
    SpanOfEncoding(msg, []);
    assert Encode(msg) + [] == Encode(msg);
  }

  lemma SpanOfTwo(x: seq<Byte>, y: seq<Byte>)
    requires MessageSpan(x + y) == Ok(|x|) && MessageSpan(y) == Ok(|y|)
    ensures ExchangeSpan(x + y) == Ok(|x| + |y|)
  {
    assert (x + y)[|x|..] == y;
  }

  lemma TwoMessages(a: Text, b: Text)
    requires Sized(a) && Sized(b)
    ensures Next(Encode(a) + Encode(b)) == Ok(Token(Strip(a), Encode(b)))
    ensures Next(Encode(b)) == Ok(Token(Strip(b), []))
  {
    RoundTrip(a, Encode(b));
    OneMessage(b);
  }

  lemma ExchangeOfTwo(a: Text, b: Text)
    requires Sized(a) && Sized(b)
    ensures ExchangeSpan(Encode(a) + Encode(b)) == Ok(|Encode(a)| + |Encode(b)|)
  {
    var x, y := Encode(a), Encode(b);
    assert MessageSpan(x + y) == Ok(|x|) by { SpanOfEncoding(a, y); }
    assert MessageSpan(y) == Ok(|y|) by { OneSpan(b); }
    SpanOfTwo(x, y);
  }

  /** What both sides hold after one negotiation of proposal `p`. */
  function Negotiate(p: Text, supported: seq<Text>): (r: (Result<Negotiation, Error>, Result<Text, Error>))
    requires Sized(p) && forall s :: s in supported ==> Sized(s)
  {
    var answer := NegotiateInbound(PrepareOutbound([p]).value, supported);
    (answer, if answer.Err? then Err(answer.error) else ReadOutboundResponse(answer.value.outbound, p))
  }

  /** Both sides settle on `p` if it is supported; otherwise the responder has nothing and the initiator knows it. */
  predicate Agree(p: Text, supported: seq<Text>)
    requires Sized(p) && forall s :: s in supported ==> Sized(s)
  {
    var (responder, initiator) := Negotiate(p, supported);
    responder.Ok? &&
    if p in supported then responder.value.protocol == Some(p) && initiator == Ok(p)
    else responder.value.protocol == None && initiator == Err(NotSupported)
  }

  /** What the initiator makes of an answer. */
  function Understood(answer: Text, p: Text): Result<Text, Error> {
    if Strip(answer) == p then Ok(p) else if Strip(answer) == NA then Err(NotSupported) else Err(UnexpectedResponse)
  }

  lemma ResponderFinds(p: Text, supported: seq<Text>)
    requires Sized(p) && forall s :: s in supported ==> Sized(s)
    ensures var found := Strip(p) in supported;
      NegotiateInbound(Encode(HEADER) + Encode(p), supported)
        == Ok(Negotiation(Encode(HEADER) + Encode(if found then Strip(p) else NA),
                          if found then Some(Strip(p)) else None))
  {
    TwoMessages(HEADER, p);
  }

  lemma InitiatorUnderstands(answer: Text, p: Text)
    requires Sized(answer)
    ensures ReadOutboundResponse(Encode(HEADER) + Encode(answer), p) == Understood(answer, p)
  {
    TwoMessages(HEADER, answer);
  }

  /** The responder looks for the proposal without its newline and answers with what it found, or with "na". */
  lemma NegotiateOutcome(p: Text, supported: seq<Text>)
    requires Sized(p) && forall s :: s in supported ==> Sized(s)
    ensures var (responder, initiator) := Negotiate(p, supported);
      var found := Strip(p) in supported;
      && responder.Ok?
      && responder.value.protocol == (if found then Some(Strip(p)) else None)
      && initiator == Understood(if found then Strip(p) else NA, p)
  {
    ResponderFinds(p, supported);
    InitiatorUnderstands(if Strip(p) in supported then Strip(p) else NA, p);
  }

  /**
   * Negotiation agrees for every proposal but an unsupported "na", and a name ending in newline that is supported
   * with or without it.
   */
  lemma NegotiationAgrees(p: Text, supported: seq<Text>)
    requires Sized(p) && forall s :: s in supported ==> Sized(s)
    ensures Agree(p, supported) <==>
      if EndsInNewline(p) then p !in supported && Strip(p) !in supported
      else p == NA ==> NA in supported
  {
    NegotiateOutcome(p, supported);
    assert Strip(NA) == NA;
  }

  /** An unsupported "na" is taken by the initiator for a success. */
  lemma NaIsMisread()
    ensures Negotiate(NA, []) == (Ok(Negotiation(Encode(HEADER) + Encode(NA), None)), Ok(NA))
  {
    NegotiateOutcome(NA, []);
    TwoMessages(HEADER, NA);
  }

  // ---------- the program ----------

  method EncodeMessage(msg: Text) returns (out: seq<Byte>)
    requires Sized(msg)
    ensures out == Encode(msg)
  {
    var payload := EnsureNewline(msg);
    out := Varint.EncodeUvarint(|payload|);
    out := out + payload;
  }

  method DecodeNext(buf: seq<Byte>) returns (r: Result<Token, Error>)
    ensures r == Next(buf)
  {
    var len := Varint.DecodeUvarint(buf);
    if len.Incomplete? { return Err(IncompleteLength); }
    if len.Invalid? { return Err(InvalidLength); }
    var rest := buf[len.used..];
    if |rest| < len.value { return Err(IncompleteMessage); }
    var token := rest[..len.value];
    rest := rest[len.value..];
    if token == [] || token[|token| - 1] != NEWLINE { return Err(InvalidMessage); }
    assert token[..|token| - 1] == buf[len.used..][..len.value - 1];
    r := Ok(Token(token[..|token| - 1], rest));
  }

  /** The first supported name that equals the proposal, if there is one. */
  method FindSupported(proposal: Text, supported: seq<Text>) returns (found: bool)
    ensures found <==> proposal in supported
  {
    for i := 0 to |supported|
      invariant proposal !in supported[..i]
    {
      if supported[i] == proposal { return true; }
    }
    found := false;
  }

  /** Answers one request; a supported proposal is sent back. */
  method AnswerInbound(incoming: seq<Byte>, supported: seq<Text>) returns (r: Result<Negotiation, Error>)
    requires forall p :: p in supported ==> Sized(p)
    ensures r == NegotiateInbound(incoming, supported)
  {
    var header := DecodeNext(incoming);
    if header.Err? { return Err(header.error); }
    if header.value.text != HEADER { return Err(UnexpectedHeader); }
    var proposal := DecodeNext(header.value.rest);
    if proposal.Err? { return Err(proposal.error); }
    var outbound := EncodeMessage(HEADER);
    var found := FindSupported(proposal.value.text, supported);
    var answer := EncodeMessage(if found then proposal.value.text else NA);
    r := Ok(Negotiation(outbound + answer, if found then Some(proposal.value.text) else None));
  }
}
