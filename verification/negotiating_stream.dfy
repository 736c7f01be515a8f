/**
 * A stream that first negotiates its protocol and then passes everything through. The inner stream
 * hands out what has arrived in chunks of any size, and may report at any time that nothing is ready.
 */
module NegotiatingStream {
  import opened Bytes
  import opened Multistream
  import ML = MultistreamLaws

  datatype Failure =
    | Eagain | InnerFailed | ClosedDuringNegotiation | NotComplete | ResetLocally
    | Negotiating(error: Error)

  datatype Stage = SendingProposal | AwaitingResponse | AwaitingProposal | Ready | Failed

  class InnerStream {
    /** Arrived and not yet read; the network appends to it between calls. */
    var incoming: seq<Byte>
    var isOpen: bool
    var endReached: bool
    /** Everything read so far, and whether a read ever failed. */
    ghost var delivered: seq<Byte>
    ghost var broken: bool
    /** What was given to it to write, call by call, and whether it was closed for writing or reset. */
    ghost var offered: seq<seq<Byte>>
    ghost var writeClosed: bool
    ghost var wasReset: bool

    method TryRead(max: nat) returns (r: Result<seq<Byte>, Failure>)
      modifies this`incoming, this`delivered, this`broken
      ensures r.Ok? ==> |r.value| <= max && old(incoming) == r.value + incoming && delivered == old(delivered) + r.value
      ensures r.Ok? && max > 0 && r.value == [] ==> old(incoming) == []
      ensures r.Err? ==> incoming == old(incoming) && delivered == old(delivered) && r.error in {Eagain, InnerFailed}
      ensures broken == (old(broken) || r == Err(InnerFailed))
    {
      if incoming == [] {
        assert incoming == [] + incoming && delivered == delivered + [];
        return if endReached then Ok([]) else Err(Eagain);
      }
      if {
        case true => return Err(Eagain);
        case true =>
          broken := true;
          return Err(InnerFailed);
        case true =>
          var k: nat :| k <= max && k <= |incoming| && (max > 0 ==> k > 0);
          r := Ok(incoming[..k]);
          delivered := delivered + incoming[..k];
          incoming := incoming[k..];
      }
    }

    /** How many bytes are accepted is decided elsewhere. */
    method TryWrite(data: seq<Byte>, answer: Result<nat, Failure>) returns (r: Result<nat, Failure>)
      modifies this`offered
      ensures r == answer && offered == old(offered) + [data]
    {
      offered := offered + [data];
      r := answer;
    }

    method CloseWrite(answer: Option<Failure>) returns (r: Option<Failure>)
      modifies this`writeClosed
      ensures r == answer && writeClosed
    {
      writeClosed := true;
      r := answer;
    }

    method Reset(answer: Option<Failure>) returns (r: Option<Failure>)
      modifies this`wasReset
      ensures r == answer && wasReset
    {
      wasReset := true;
      r := answer;
    }
  }

  /**
   * What a complete exchange settles: the response to the proposal, or the answer to the peer's, if it could be
   * written.
   */
  function Settled(inbound: bool, desired: Text, supported: seq<Text>, exchange: seq<Byte>,
                   answer: Result<nat, Failure>): Result<Text, Failure>
    requires forall p :: p in supported ==> Sized(p)
  {
    if !inbound then
      match ReadOutboundResponse(exchange, desired)
      case Ok(protocol) => Ok(protocol)
      case Err(e) => Err(Negotiating(e))
    else
      match NegotiateInbound(exchange, supported)
      case Err(e) => Err(Negotiating(e))
      case Ok(n) =>
        if answer.Err? then Err(answer.error)
        else if n.protocol.None? then Err(Negotiating(NotSupported))
        else Ok(n.protocol.value)
  }

  /**
   * What settles an exchange, for every one: the initiator has its proposal exactly if that was confirmed; the
   * responder has exactly the second text, if the first is the header, the second is in its list, and the answer
   * could be written. A refused write comes before a refused protocol.
   */
  lemma SettledMeans(inbound: bool, desired: Text, supported: seq<Text>, exchange: seq<Byte>,
                     answer: Result<nat, Failure>)
    requires forall p :: p in supported ==> Sized(p)
    ensures var s := Settled(inbound, desired, supported, exchange, answer);
      var read := Exchange(exchange);
      && (!inbound ==> (s.Ok? <==> ML.Proposes(exchange, desired)) && (s.Ok? ==> s.value == desired))
      && (inbound ==>
            && (forall p :: s == Ok(p) <==> ML.Proposes(exchange, p) && p in supported && answer.Ok?)
            && (read.Ok? && read.value.0 == HEADER && answer.Err? ==> s == Err(answer.error))
            && (read.Ok? && read.value.0 == HEADER && answer.Ok? && read.value.1.text !in supported ==>
                  s == Err(Negotiating(NotSupported))))
      && (ML.WrongHeader(exchange) ==> s == Err(Negotiating(UnexpectedHeader)))
  {
    if inbound { ML.InboundMeans(exchange, supported); } else { ML.OutboundMeans(exchange, desired); }
  }

  lemma SettledBy(desired: Text, supported: seq<Text>, exchange: seq<Byte>, answer: Result<nat, Failure>,
                  n: Result<Negotiation, Error>)
    requires (forall p :: p in supported ==> Sized(p)) && NegotiateInbound(exchange, supported) == n
    ensures n.Ok? && n.value.protocol.Some? ==> n.value.protocol.value in supported
    ensures Settled(true, desired, supported, exchange, answer)
      == if n.Err? then Err(Negotiating(n.error))
         else if answer.Err? then Err(answer.error)
         else if n.value.protocol.None? then Err(Negotiating(NotSupported))
         else Ok(n.value.protocol.value)
  {
  }

  lemma SettledByResponse(desired: Text, supported: seq<Text>, exchange: seq<Byte>, answer: Result<nat, Failure>,
                          selected: Result<Text, Error>)
    requires (forall p :: p in supported ==> Sized(p)) && ReadOutboundResponse(exchange, desired) == selected
    ensures selected.Ok? ==> selected.value == desired
    ensures Settled(false, desired, supported, exchange, answer)
      == if selected.Err? then Err(Negotiating(selected.error)) else Ok(selected.value)
  {
  }

  class ProtocolNegotiatingStream {
    const inner: InnerStream
    const desired: Text
    const supported: seq<Text>
    const inbound: bool
    var stage: Stage
    var negotiationBuffer: seq<Byte>
    var appRxBuffer: seq<Byte>
    var negotiated: Option<Text>
    var failure: Option<Failure>
    /** Everything the application has read, and everything of it that was passed on to be written. */
    ghost var appRead: seq<Byte>
    ghost var appWrites: seq<seq<Byte>>

    constructor Outbound(inner: InnerStream, desired: Text)
      requires Sized(desired) && inner.delivered == [] && inner.offered == []
      ensures Valid() && this.inner == inner && stage == SendingProposal && appRead == [] && appWrites == []
    {
      this.inner, this.desired, this.supported, this.inbound := inner, desired, [], false;
      stage := SendingProposal;
      negotiationBuffer, appRxBuffer, negotiated, failure, appRead, appWrites := [], [], None, None, [], [];
    }

    constructor Inbound(inner: InnerStream, supported: seq<Text>)
      requires (forall p :: p in supported ==> Sized(p)) && inner.delivered == [] && inner.offered == []
      ensures Valid() && this.inner == inner && stage == AwaitingProposal && appRead == [] && appWrites == []
    {
      this.inner, this.desired, this.supported, this.inbound := inner, [], supported, true;
      stage := AwaitingProposal;
      negotiationBuffer, appRxBuffer, negotiated, failure, appRead, appWrites := [], [], None, None, [], [];
    }

    /**
     * Until the exchange is complete everything read is kept, and nothing is written but the one message of the
     * negotiation; afterwards the application owns exactly what follows either.
     */
    ghost predicate Valid()
      reads this, inner
    {
      && (forall p :: p in supported ==> Sized(p)) && Sized(desired)
      && (stage == AwaitingProposal ==> inbound)
      && (stage == SendingProposal || stage == AwaitingResponse ==> !inbound)
      && (stage != Ready && stage != Failed ==>
            && inner.delivered == negotiationBuffer && appRxBuffer == [] && appRead == [] && negotiated == None
            && appWrites == []
            && inner.offered == if stage == AwaitingResponse then [PrepareOutbound([desired]).value] else [])
      && (stage == Ready ==>
            && ExchangeSpan(inner.delivered).Ok?
            && inner.delivered[ExchangeSpan(inner.delivered).value..] == appRead + appRxBuffer
            && negotiated.Some?
            && (if inbound then negotiated.value in supported else negotiated.value == desired)
            && inner.offered == [OwnMessage(inner.delivered)] + appWrites)
    }

    /** The message of this side in the exchange that the bytes begin with. */
    function OwnMessage(bytes: seq<Byte>): seq<Byte>
      requires (forall p :: p in supported ==> Sized(p)) && Sized(desired) && ExchangeSpan(bytes).Ok?
    {
      if !inbound then PrepareOutbound([desired]).value
      else
        match NegotiateInbound(bytes[..ExchangeSpan(bytes).value], supported)
        case Ok(n) => n.outbound
        case Err(_) => []
    }

    predicate IsNegotiated()
      reads this
    {
      stage == Ready && negotiated.Some?
    }

    method Fail(why: Failure) returns (r: Option<Failure>)
      modifies this`stage, this`failure
      ensures stage == Failed && failure == r == Some(why)
    {
      stage := Failed;
      failure := Some(why);
      r := failure;
    }

    /** Reads until nothing more is ready; the two ways to fail are those of the inner stream. */
    method ReadIntoNegotiationBuffer() returns (r: Option<Failure>)
      requires Valid() && stage != Ready && stage != Failed
      modifies this`negotiationBuffer, inner`incoming, inner`delivered, inner`broken
      ensures Valid() && old(negotiationBuffer) <= negotiationBuffer
      ensures inner.delivered + inner.incoming == old(inner.delivered + inner.incoming)
      ensures r.Some? ==>
        || (r == Some(InnerFailed) && inner.broken)
        || (r == Some(ClosedDuringNegotiation) && !inner.isOpen)
    {
      while true
        invariant Valid() && old(negotiationBuffer) <= negotiationBuffer
        invariant inner.delivered + inner.incoming == old(inner.delivered + inner.incoming)
        decreases |inner.incoming|
      {
        ghost var before, rest := inner.delivered, inner.incoming;
        var read := inner.TryRead(1024);
        if read.Err? {
          return if read.error == Eagain then None else Some(read.error);
        }
        Assoc(before, read.value, inner.incoming);
        negotiationBuffer := negotiationBuffer + read.value;
        if read.value == [] {
          return if inner.isOpen then None else Some(ClosedDuringNegotiation);
        }
      }
    }

    /** What followed the exchange in the buffer goes to the application. */
    method FinishNegotiation(consumed: nat)
      requires negotiationBuffer == inner.delivered && appRxBuffer == []
      requires ExchangeSpan(negotiationBuffer) == Ok(consumed)
      modifies this`stage, this`negotiationBuffer, this`appRxBuffer
      ensures stage == Ready && appRxBuffer == old(negotiationBuffer)[consumed..]
    {
      if |negotiationBuffer| > consumed {
        appRxBuffer := appRxBuffer + negotiationBuffer[consumed..];
      }
      negotiationBuffer := [];
      stage := Ready;
    }

    /** The outcome that the bytes read so far call for: to wait, to fail, or to be ready with the settled protocol. */
    ghost predicate Called(r: Option<Failure>, answer: Result<nat, Failure>)
      requires forall p :: p in supported ==> Sized(p)
      reads this, inner
    {
      match ExchangeSpan(inner.delivered)
      case Err(e) =>
        if IsIncomplete(e) then r == None && stage != Ready && stage != Failed
        else r == Some(Negotiating(e)) && stage == Failed
      case Ok(n) =>
        match Settled(inbound, desired, supported, inner.delivered[..n], answer)
        case Ok(protocol) => r == None && stage == Ready && negotiated == Some(protocol)
        case Err(why) => r == Some(why) && stage == Failed
    }

    /** Advances the negotiation; `answer` is what the inner stream says to a write. */
    method Poll(answer: Result<nat, Failure>) returns (r: Option<Failure>)
      requires Valid()
      modifies this`stage, this`negotiationBuffer, this`appRxBuffer, this`negotiated, this`failure
      modifies inner`incoming, inner`delivered, inner`broken, inner`offered, inner`writeClosed
      ensures Valid()
      ensures inner.delivered + inner.incoming == old(inner.delivered + inner.incoming)
      ensures old(stage) == Ready ==>
        && r == None && stage == Ready && appRxBuffer == old(appRxBuffer)
        && inner.delivered == old(inner.delivered) && inner.offered == old(inner.offered)
      ensures old(stage) == Failed ==> stage == Failed && r.Some? && inner.offered == old(inner.offered)
      ensures old(stage) == SendingProposal && answer.Err? ==> r == Some(answer.error) && stage == Failed
      ensures old(stage) != Ready && old(stage) != Failed && !(old(stage) == SendingProposal && answer.Err?) ==>
        || (r == Some(InnerFailed) && stage == Failed && inner.broken)
        || (r == Some(ClosedDuringNegotiation) && stage == Failed && !inner.isOpen)
        || Called(r, answer)
    {
      if stage == Ready { return None; }
      if stage == Failed { return if failure.Some? then failure else Some(NotComplete); }
      if stage == SendingProposal {
        var proposal := PrepareOutbound([desired]);
        var wrote := inner.TryWrite(proposal.value, answer);
        if wrote.Err? { r := Fail(wrote.error); return; }
        stage := AwaitingResponse;
      }
      var incoming := ReadIntoNegotiationBuffer();
      if incoming.Some? { r := Fail(incoming.value); return; }
      var span := ExchangeSpan(negotiationBuffer);
      if span.Err? {
        if IsIncomplete(span.error) { return None; }
        r := Fail(Negotiating(span.error));
        return;
      }
      if stage == AwaitingResponse {
        r := ReadResponse(span.value, answer);
      } else {
        r := AnswerProposal(span.value, answer);
      }
    }

    /** Reads the peer's response at the front of the buffer. */
    method ReadResponse(consumed: nat, answer: Result<nat, Failure>) returns (r: Option<Failure>)
      requires Valid() && stage == AwaitingResponse
      requires ExchangeSpan(negotiationBuffer) == Ok(consumed)
      modifies this`stage, this`negotiationBuffer, this`appRxBuffer, this`negotiated, this`failure
      ensures Valid()
      ensures match Settled(inbound, desired, supported, old(negotiationBuffer)[..consumed], answer)
        case Ok(protocol) => r == None && stage == Ready && negotiated == Some(protocol)
        case Err(why) => r == Some(why) && stage == Failed
    {
      var selected := ReadOutboundResponse(negotiationBuffer[..consumed], desired);
      SettledByResponse(desired, supported, negotiationBuffer[..consumed], answer, selected);
      if selected.Err? { r := Fail(Negotiating(selected.error)); return; }
      BecomeReady(consumed, selected.value, PrepareOutbound([desired]).value);
      r := None;
    }

    /** Answers the peer's proposal at the front of the buffer. */
    method AnswerProposal(consumed: nat, answer: Result<nat, Failure>) returns (r: Option<Failure>)
      requires Valid() && stage == AwaitingProposal
      requires ExchangeSpan(negotiationBuffer) == Ok(consumed)
      modifies this`stage, this`negotiationBuffer, this`appRxBuffer, this`negotiated, this`failure
      modifies inner`offered, inner`writeClosed
      ensures Valid()
      ensures match Settled(inbound, desired, supported, old(negotiationBuffer)[..consumed], answer)
        case Ok(protocol) => r == None && stage == Ready && negotiated == Some(protocol)
        case Err(why) => r == Some(why) && stage == Failed
    {
      var negotiation := AnswerInbound(negotiationBuffer[..consumed], supported);
      SettledBy(desired, supported, negotiationBuffer[..consumed], answer, negotiation);
      if negotiation.Err? { r := Fail(Negotiating(negotiation.error)); return; }
      var wrote := inner.TryWrite(negotiation.value.outbound, answer);
      if wrote.Err? { r := Fail(wrote.error); return; }
      if negotiation.value.protocol.None? {
        var _ := inner.CloseWrite(None);
        r := Fail(Negotiating(NotSupported));
        return;
      }
      BecomeReady(consumed, negotiation.value.protocol.value, negotiation.value.outbound);
      r := None;
    }

    /** The negotiation ends with `protocol`; `own` is the message of this side, which has been written. */
    method BecomeReady(consumed: nat, protocol: Text, own: seq<Byte>)
      requires (forall p :: p in supported ==> Sized(p)) && Sized(desired)
      requires if inbound then protocol in supported else protocol == desired
      requires negotiationBuffer == inner.delivered && appRxBuffer == [] && appRead == [] && appWrites == []
      requires ExchangeSpan(negotiationBuffer) == Ok(consumed)
      requires own == OwnMessage(negotiationBuffer) && inner.offered == [own]
      modifies this`stage, this`negotiationBuffer, this`appRxBuffer, this`negotiated
      ensures Valid() && stage == Ready && negotiated == Some(protocol)
    {
      negotiated := Some(protocol);
      FinishNegotiation(consumed);
      assert [own] + [] == [own];
    }

    /** Bytes that came together with the exchange are read first. */
    method ReadBuffered(max: nat) returns (r: seq<Byte>)
      requires Valid() && stage == Ready && appRxBuffer != []
      modifies this`appRxBuffer, this`appRead
      ensures Valid() && |r| <= max && appRead == old(appRead) + r
    {
      var n := Min(max, |appRxBuffer|);
      r := appRxBuffer[..n];
      Assoc(appRead, appRxBuffer[..n], appRxBuffer[n..]);
      assert appRxBuffer == appRxBuffer[..n] + appRxBuffer[n..];
      appRxBuffer := appRxBuffer[n..];
      appRead := appRead + r;
    }

    method ReadInner(max: nat) returns (r: Result<seq<Byte>, Failure>)
      requires Valid() && stage == Ready && appRxBuffer == []
      modifies this`appRead, inner`incoming, inner`delivered, inner`broken
      ensures Valid()
      ensures inner.delivered + inner.incoming == old(inner.delivered + inner.incoming)
      ensures r.Ok? ==> |r.value| <= max && appRead == old(appRead) + r.value
      ensures r.Err? ==> appRead == old(appRead) && r.error in {Eagain, InnerFailed}
    {
      ghost var before := inner.delivered;
      r := inner.TryRead(max);
      if r.Ok? {
        SpanIsStable(before, r.value);
        Assoc(before, r.value, inner.incoming);
        ghost var n := ExchangeSpan(before).value;
        assert (before + r.value)[n..] == before[n..] + r.value;
        assert (before + r.value)[..n] == before[..n];
        appRead := appRead + r.value;
      }
    }

    method TryRead(max: nat, answer: Result<nat, Failure>) returns (r: Result<seq<Byte>, Failure>)
      requires Valid()
      modifies this, inner`incoming, inner`delivered, inner`broken, inner`offered, inner`writeClosed
      ensures Valid() && appWrites == old(appWrites)
      ensures inner.delivered + inner.incoming == old(inner.delivered + inner.incoming)
      ensures r.Ok? ==> stage == Ready && |r.value| <= max && appRead == old(appRead) + r.value
      ensures r.Err? ==> appRead == old(appRead)
    {
      var progressed := Poll(answer);
      if progressed.Some? { return Err(progressed.value); }
      if !IsNegotiated() { return Err(NotComplete); }
      if appRxBuffer != [] {
        var bytes := ReadBuffered(max);
        return Ok(bytes);
      }
      r := ReadInner(max);
    }

    /** The bytes reach the inner stream exactly when the negotiation is complete, and the answer is then its answer. */
    method TryWrite(data: seq<Byte>, pollAnswer: Result<nat, Failure>, answer: Result<nat, Failure>)
      returns (r: Result<nat, Failure>)
      requires Valid()
      modifies this, inner`incoming, inner`delivered, inner`broken, inner`offered, inner`writeClosed
      ensures Valid() && appRead == old(appRead)
      ensures appWrites == if stage == Ready then old(appWrites) + [data] else old(appWrites)
      ensures if stage == Ready then r == answer else r.Err?
    {
      var progressed := Poll(pollAnswer);
      if progressed.Some? { return Err(progressed.value); }
      if !IsNegotiated() { return Err(NotComplete); }
      r := inner.TryWrite(data, answer);
      appWrites := appWrites + [data];
      assert inner.offered == [OwnMessage(inner.delivered)] + appWrites;
    }

    /** Closing for writing is refused before the negotiation is complete, and passed on afterwards. */
    method CloseWrite(pollAnswer: Result<nat, Failure>, answer: Option<Failure>) returns (r: Option<Failure>)
      requires Valid()
      modifies this, inner`incoming, inner`delivered, inner`broken, inner`offered, inner`writeClosed
      ensures Valid() && appRead == old(appRead) && appWrites == old(appWrites)
      ensures if stage == Ready then r == answer && inner.writeClosed else r.Some?
    {
      r := Poll(pollAnswer);
      if r.Some? { return; }
      if !IsNegotiated() { return Some(NotComplete); }
      r := inner.CloseWrite(answer);
    }

    /** A reset is final, keeps an earlier reason, and resets the inner stream. */
    method Reset(answer: Option<Failure>) returns (r: Option<Failure>)
      requires Valid()
      modifies this`stage, this`failure, inner`wasReset
      ensures Valid() && stage == Failed && inner.wasReset && r == answer
      ensures failure == if old(failure).Some? then old(failure) else Some(ResetLocally)
    {
      stage := Failed;
      if failure.None? { failure := Some(ResetLocally); }
      r := inner.Reset(answer);
    }

    /**
     * Of all the bytes that have arrived by any moment, the application has read, or has still to read,
     * exactly those after the exchange, once and in order.
     */
    lemma Transparent()
      requires Valid() && stage == Ready
      ensures var arrived := inner.delivered + inner.incoming;
        && ExchangeSpan(arrived).Ok?
        && arrived[ExchangeSpan(arrived).value..] == appRead + appRxBuffer + inner.incoming
    {
      SpanIsStable(inner.delivered, inner.incoming);
      var n := ExchangeSpan(inner.delivered).value;
      assert (inner.delivered + inner.incoming)[n..] == inner.delivered[n..] + inner.incoming;
    }
  }
}
