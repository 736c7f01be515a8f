/**
 * Which muxer a connection ends up with: the choice from the two lists of the handshake, and the negotiation that
 * follows when that choice is not yamux.
 */
module MuxerChoice {
  import opened Bytes
  import opened Octets
  import opened Connection
  import BN = YamuxByteNet
  import ML = MultistreamLaws
  import MS = Multistream
  import T = Transport

  // ---------- the choice from two lists ----------

  predicate IsFirst(local: seq<Name>, remote: seq<seq<Octet>>, m: MS.Text, i: nat) {
    i < |local| && local[i] == m && Lits(m) in remote && forall j :: 0 <= j < i ==> Lits(local[j]) !in remote
  }

  /** `m` is in both lists, and nothing before it in the local one is in the remote one. */
  ghost predicate FirstCommon(local: seq<Name>, remote: seq<seq<Octet>>, m: MS.Text) {
    exists i: nat :: IsFirst(local, remote, m, i)
  }

  predicate NothingCommon(local: seq<Name>, remote: seq<seq<Octet>>) {
    forall i :: 0 <= i < |local| ==> Lits(local[i]) !in remote
  }

  lemma FirstIsOnly(local: seq<Name>, remote: seq<seq<Octet>>, m: MS.Text, n: MS.Text)
    requires FirstCommon(local, remote, m)
    ensures FirstCommon(local, remote, n) ==> m == n
    ensures !NothingCommon(local, remote)
  {
    var i: nat :| IsFirst(local, remote, m, i);
    if FirstCommon(local, remote, n) {
      var k: nat :| IsFirst(local, remote, n, k);
      assert !(i < k) && !(k < i);
    }
  }

  lemma {:induction false} SelectFinds(local: seq<Name>, remote: seq<seq<Octet>>)
    ensures match SelectMuxer(local, remote)
      case Some(m) => FirstCommon(local, remote, m)
      case None => NothingCommon(local, remote)
  {
    if local == [] {
    } else if Lits(local[0]) in remote {
      assert IsFirst(local, remote, local[0], 0);
    } else {
      var rest := local[1..];
      SelectFinds(rest, remote);
      assert forall j :: 0 < j < |local| ==> local[j] == rest[j - 1];
      match SelectMuxer(rest, remote) {
        case Some(m) =>
          var i: nat :| IsFirst(rest, remote, m, i);
          assert IsFirst(local, remote, m, i + 1);
        case None =>
      }
    }
  }

  /** The choice is the first local name that the remote list has, and none exactly if they share no name. */
  lemma SelectMeans(local: seq<Name>, remote: seq<seq<Octet>>, m: MS.Text)
    ensures SelectMuxer(local, remote) == Some(m) <==> FirstCommon(local, remote, m)
    ensures SelectMuxer(local, remote) == None <==> NothingCommon(local, remote)
  {
    SelectFinds(local, remote);
    if SelectMuxer(local, remote).Some? { FirstIsOnly(local, remote, SelectMuxer(local, remote).value, m); }
    if FirstCommon(local, remote, m) { FirstIsOnly(local, remote, m, m); }
  }

  // ---------- what the choice leads to ----------

  /** What becoming ready does: two events, and the inbound stream of a responder that has no muxer. */
  lemma ReadyMeans(c: Conn)
    ensures var r := CompleteReady(c);
      && r.state == Ready && r.stage == Established && r.secureReady && r.muxer == c.muxer && r.yamux == c.yamux
      && r.sent == c.sent && r.noise == c.noise
      && var waits := c.yamux.None? && c.createInbound && c.pending == [];
        && r.events == c.events + [Secured, MultiplexerReady] + (if waits then [StreamAccepted(c.nextStreamId)] else [])
        && r.pending == (if waits then [c.nextStreamId] else c.pending)
        && (r.direct.Some? && waits ==> r.direct == Some(Direct(c.nextStreamId, true, [])))
  {
  }

  /** The connection is ready over yamux, and says so. */
  predicate ReadyOverYamux(c: Conn, r: Conn) {
    && r.state == Ready && r.stage == Established && r.secureReady
    && r.muxer == Some(YAMUX) && r.yamux == Some(BN.NewEnd(c.isInitiator))
    && r.sent == c.sent && r.events == c.events + [Secured, MultiplexerReady] && r.pending == c.pending
  }

  /** The two sides still have to agree on a muxer. */
  predicate Undecided(c: Conn, r: Conn) {
    && r.state == c.state && r.stage == MuxerNegotiation && !r.secureReady && r.yamux == c.yamux && r.events == c.events
  }

  lemma YamuxChosen(c: Conn)
    ensures ReadyOverYamux(c, CompleteReady(ActivateIfYamux(c.(muxer := Some(YAMUX)))))
  {
    ReadyMeans(ActivateIfYamux(c.(muxer := Some(YAMUX))));
  }

  /**
   * Once the peer is accepted: yamux if it is the first name in common; otherwise, with no muxer wanted, ready without
   * one; otherwise a negotiation, which the initiator opens with one encrypted message, its first name, and the
   * responder waits for.
   */
  lemma FinishMeans(c: Conn)
    requires !c.secureReady && WrongIdentity(c).None?
    ensures var o := FinishSecure(c);
      if FirstCommon(c.muxers, c.noise.remoteMuxers, YAMUX) then o.error.None? && ReadyOverYamux(c, o.c)
      else if c.muxers == [] then o.error.None? && o.c.state == Ready && o.c.yamux == c.yamux && o.c.muxer == None
      else
        && Undecided(c, o.c)
        && (!c.isInitiator ==> o.error.None? && o.c.sent == c.sent && o.c.noise == c.noise)
        && (c.isInitiator ==> AsksFor(c, o, c.muxers[0]))
  {
    SelectMeans(c.muxers, c.noise.remoteMuxers, YAMUX);
    if SelectMuxer(c.muxers, c.noise.remoteMuxers) == Some(YAMUX) {
      YamuxChosen(c);
    } else {
      NotYamux(c, SelectMuxer(c.muxers, c.noise.remoteMuxers));
    }
  }

  lemma NotYamux(c: Conn, name: Option<MS.Text>)
    requires !c.secureReady && name != Some(YAMUX) && (c.muxers == [] ==> name == None)
    ensures var o := Choose(c, name);
      if c.muxers == [] then o.error.None? && o.c.state == Ready && o.c.yamux == c.yamux && o.c.muxer == None
      else
        && Undecided(c, o.c)
        && (!c.isInitiator ==> o.error.None? && o.c.sent == c.sent && o.c.noise == c.noise)
        && (c.isInitiator ==> AsksFor(c, o, c.muxers[0]))
  {
    if c.muxers == [] {
      ReadyMeans(c.(muxer := name));
    } else if c.isInitiator {
      InitiatorAsks(c, name);
    }
  }

  lemma InitiatorAsks(c: Conn, name: Option<MS.Text>)
    requires c.isInitiator && !c.secureReady && c.muxers != []
    ensures var o := AskForMuxer(c.(muxer := name)); Undecided(c, o.c) && AsksFor(c, o, c.muxers[0])
  {
    var proposal := MS.PrepareOutbound(c.muxers).value;
    ML.ProposalMeans(c.muxers);
    SendsAlike(c, c.(muxer := name, stage := MuxerNegotiation), Lits(proposal));
    assert Sends(c, AskForMuxer(c.(muxer := name)), proposal);
  }

  lemma FramesAlike(c: Conn, d: Conn, message: seq<Octet>)
    requires c.noise == d.noise && c.sent == d.sent && c.socketOpen == d.socketOpen && c.patience == d.patience
    ensures var (s, t) := (SendFrame(c, message), SendFrame(d, message));
      s.error == t.error && s.c.sent == t.c.sent && s.c.noise == t.c.noise
  {
  }

  /** Sending looks at the wire, the socket and the cipher alone. */
  lemma SendsAlike(c: Conn, d: Conn, plain: seq<Octet>)
    requires c.noise == d.noise && c.sent == d.sent && c.socketOpen == d.socketOpen && c.patience == d.patience
    ensures var (s, t) := (SendEncrypted(c, plain), SendEncrypted(d, plain));
      s.error == t.error && s.c.sent == t.c.sent && s.c.noise == t.c.noise
  {
    var sealed := T.Encrypt(c.noise.send, plain);
    if sealed.Ok? {
      var noise := c.noise.(send := sealed.value.next);
      FramesAlike(c.(noise := noise), d.(noise := noise), sealed.value.message);
    }
  }

  /** One encrypted message was sent, or refused: the exchange that proposes `m`. */
  ghost predicate AsksFor(c: Conn, o: Outcome, m: MS.Text) {
    exists proposal :: MS.Exchange(proposal) == Ok((MS.HEADER, MS.Token(MS.Strip(m), []))) && Sends(c, o, proposal)
  }

  predicate Sends(c: Conn, o: Outcome, message: seq<Byte>) {
    var s := SendEncrypted(c, Lits(message));
    o.error == s.error && o.c.sent == s.c.sent && o.c.noise == s.c.noise
  }

  // ---------- the negotiation over the secure channel ----------

  /** The connection is ready with the negotiated muxer, or without a new one. */
  predicate ReadyWith(c: Conn, r: Conn, name: Option<MS.Text>) {
    && r.state == Ready && r.stage == Established && r.secureReady
    && r.muxer == (if name.Some? then name else c.muxer)
    && r.yamux == (if name == Some(YAMUX) then Some(BN.NewEnd(c.isInitiator)) else c.yamux)
  }

  /** The initiator is ready with its proposal if it is confirmed, without it if it is refused, and fails otherwise. */
  lemma InitiatorReads(c: Conn, exchange: seq<Byte>, rest: seq<Octet>)
    requires c.isInitiator && c.muxers != []
    ensures var o := Settle(c, exchange, rest);
      if ML.Proposes(exchange, c.muxers[0]) then
        o.error.None? && ReadyWith(c, o.c, Some(c.muxers[0])) && o.c.muxerBuffer == rest
      else if ML.Proposes(exchange, MS.NA) then o.error.None? && ReadyWith(c, o.c, None) && o.c.muxerBuffer == rest
      else o.error.Some? && o.c == c
  {
    ML.OutboundMeans(exchange, c.muxers[0]);
    var step := MuxerStep(c, exchange);
    if step.error.None? { ReadyMeans(step.c.(muxerBuffer := rest)); }
  }

  /** The responder answers what begins with the header, and is ready with the proposed name if it has it. */
  lemma ResponderReads(c: Conn, exchange: seq<Byte>, rest: seq<Octet>)
    requires !c.isInitiator
    ensures var o := Settle(c, exchange, rest);
      var read := MS.Exchange(exchange);
      if read.Ok? && read.value.0 == MS.HEADER then
        var text := read.value.1.text;
        var name := if text in c.muxers then Some(text) else None;
        Answers(c, o, name) && (o.error.None? ==> ReadyWith(c, o.c, name) && o.c.muxerBuffer == rest)
      else o.error.Some? && o.c == c
  {
    ML.InboundMeans(exchange, c.muxers);
    var n := MS.NegotiateInbound(exchange, c.muxers);
    if n.Ok? {
      ML.InboundAnswers(exchange, c.muxers);
      AnswerSends(c, exchange, rest, n.value);
    }
  }

  /** One encrypted message was sent, or refused: the exchange that confirms `name`, or says "na". */
  ghost predicate Answers(c: Conn, o: Outcome, name: Option<MS.Text>) {
    exists answer ::
      && MS.Exchange(answer) == Ok((MS.HEADER, MS.Token(if name.Some? then MS.Strip(name.value) else MS.NA, [])))
      && Sends(c, o, answer)
  }

  lemma AnswerSends(c: Conn, exchange: seq<Byte>, rest: seq<Octet>, n: MS.Negotiation)
    requires !c.isInitiator && MS.NegotiateInbound(exchange, c.muxers) == Ok(n)
    ensures var o := Settle(c, exchange, rest);
      && Sends(c, o, n.outbound)
      && (o.error.None? ==> ReadyWith(c, o.c, n.protocol) && o.c.muxerBuffer == rest)
  {
    var queued := SendEncrypted(c, Lits(n.outbound));
    var step := SendAnswer(c, Ok(n));
    assert MuxerStep(c, exchange) == step;
    if step.error.None? { ReadyMeans(step.c.(muxerBuffer := rest)); }
  }

  // ---------- both sides ----------

  /** A name that survives being proposed: no newline at its end, and not the refusal itself. */
  predicate Ordinary(m: MS.Text) { !MS.EndsInNewline(m) && m != MS.NA }

  /** The buffer of one side is a whole exchange. */
  predicate Holds(c: Conn, exchange: seq<Byte>) {
    c.muxerBuffer == Lits(exchange) && MS.ExchangeSpan(exchange) == Ok(|exchange|)
  }

  lemma HeldIsSettled(c: Conn, exchange: seq<Byte>)
    requires Holds(c, exchange)
    ensures SettleMuxer(c) == Settle(c, exchange, [])
  {
    ValsOfLits(exchange);
    assert exchange[..|exchange|] == exchange && c.muxerBuffer[|exchange|..] == [];
  }

  lemma WholeExchange(a: MS.Text, b: MS.Text)
    requires MS.Sized(a) && MS.Sized(b)
    ensures var x := MS.Encode(a) + MS.Encode(b); MS.ExchangeSpan(x) == Ok(|x|)
  {
    MS.ExchangeOfTwo(a, b);
  }

  /** What the responder answers to the initiator's first name. */
  function AnswerTo(i: Conn, r: Conn): seq<Byte>
    requires i.muxers != []
  {
    MS.Encode(MS.HEADER) + MS.Encode(if i.muxers[0] in r.muxers then i.muxers[0] else MS.NA)
  }

  lemma AnswerIsThat(i: Conn, r: Conn)
    requires i.muxers != [] && Ordinary(i.muxers[0])
    ensures MS.NegotiateInbound(MS.PrepareOutbound(i.muxers).value, r.muxers)
      == Ok(MS.Negotiation(AnswerTo(i, r), if i.muxers[0] in r.muxers then Some(i.muxers[0]) else None))
  {
    MS.ResponderFinds(i.muxers[0], r.muxers);
  }

  lemma ResponderAgrees(i: Conn, r: Conn)
    requires i.muxers != [] && Ordinary(i.muxers[0]) && !r.isInitiator
    requires Holds(r, MS.PrepareOutbound(i.muxers).value) && SendEncrypted(r, Lits(AnswerTo(i, r))).error.None?
    ensures var name := if i.muxers[0] in r.muxers then Some(i.muxers[0]) else None;
      var o := SettleMuxer(r);
      o.error.None? && ReadyWith(r, o.c, name) && Sends(r, o, AnswerTo(i, r))
  {
    var exchange := MS.PrepareOutbound(i.muxers).value;
    HeldIsSettled(r, exchange);
    AnswerIsThat(i, r);
    AnswerSends(r, exchange, [], MS.NegotiateInbound(exchange, r.muxers).value);
  }

  lemma InitiatorAgrees(i: Conn, r: Conn)
    requires i.isInitiator && i.muxers != [] && Ordinary(i.muxers[0]) && Holds(i, AnswerTo(i, r))
    ensures var name := if i.muxers[0] in r.muxers then Some(i.muxers[0]) else None;
      SettleMuxer(i).error.None? && ReadyWith(i, SettleMuxer(i).c, name)
  {
    var answer := AnswerTo(i, r);
    HeldIsSettled(i, answer);
    MS.TwoMessages(MS.HEADER, if i.muxers[0] in r.muxers then i.muxers[0] else MS.NA);
    assert MS.Strip(i.muxers[0]) == i.muxers[0] && MS.Strip(MS.NA) == MS.NA && MS.Strip(MS.HEADER) == MS.HEADER;
    InitiatorReads(i, answer, []);
  }

  /**
   * The negotiation ends alike on both sides: with the initiator's first name if the responder has it, and with yamux
   * running on both exactly if that is its name; otherwise with neither side taking a new muxer.
   */
  lemma FallbackAgrees(i: Conn, r: Conn)
    requires i.isInitiator && !r.isInitiator && i.muxers != [] && Ordinary(i.muxers[0])
    requires Holds(r, MS.PrepareOutbound(i.muxers).value) && SendEncrypted(r, Lits(AnswerTo(i, r))).error.None?
    requires Holds(i, AnswerTo(i, r))
    ensures var (a, b) := (SettleMuxer(i), SettleMuxer(r));
      var name := if i.muxers[0] in r.muxers then Some(i.muxers[0]) else None;
      && a.error.None? && b.error.None? && ReadyWith(i, a.c, name) && ReadyWith(r, b.c, name)
      && (i.yamux.None? && r.yamux.None? ==>
            (a.c.yamux.Some? <==> name == Some(YAMUX)) && (b.c.yamux.Some? <==> name == Some(YAMUX)))
  {
    ResponderAgrees(i, r);
    InitiatorAgrees(i, r);
  }

  /** The buffers above are what either side really sends: whole exchanges, and nothing else. */
  lemma FallbackMessages(i: Conn, r: Conn)
    requires i.muxers != []
    ensures var proposal := MS.PrepareOutbound(i.muxers).value; MS.ExchangeSpan(proposal) == Ok(|proposal|)
    ensures MS.ExchangeSpan(AnswerTo(i, r)) == Ok(|AnswerTo(i, r)|)
  {
    WholeExchange(MS.HEADER, i.muxers[0]);
    WholeExchange(MS.HEADER, if i.muxers[0] in r.muxers then i.muxers[0] else MS.NA);
  }

  /** An exchange that has not arrived in full changes nothing; one whose length is invalid is an error. */
  lemma SettleWaits(c: Conn)
    requires MS.ExchangeSpan(Vals(c.muxerBuffer)).Err?
    ensures var e := MS.ExchangeSpan(Vals(c.muxerBuffer)).error;
      SettleMuxer(c) == if e == MS.InvalidLength then Fail(c, NotNegotiated(e)) else Fine(c)
  {
    ML.ScanErrors(Vals(c.muxerBuffer));
  }
}
