/**
 * Transport messages after the handshake: the cipher states, the two-byte length frames, and the channel of frames
 * between two ends.
 */
module Transport {
  import opened Bytes
  import opened Octets
  import opened NoisePayload
  import opened Noise

  const MAX_FRAME: nat := 0xFFFF

  datatype Sealed = Sealed(next: Cipher, message: seq<Octet>)

  function Encrypt(c: Cipher, plain: seq<Octet>): Result<Sealed, Error> {
    if !c.hasKey then Err(NoKey)
    else if c.nonce == U64_MAX then Err(NonceExhausted)
    else Ok(Sealed(c.(nonce := c.nonce + 1), Seal(c.key, c.nonce, [], plain)))
  }

  /** A message that does not open leaves the state as it was. */
  function Decrypt(c: Cipher, message: seq<Octet>): Result<Sealed, Error> {
    if !c.hasKey then Err(NoKey)
    else if c.nonce == U64_MAX then Err(NonceExhausted)
    else if |message| < TAG then Err(CiphertextTooShort)
    else
      match Unseal(c.key, c.nonce, [], message)
      case None => Err(NotAuthentic)
      case Some(plain) => Ok(Sealed(c.(nonce := c.nonce + 1), plain))
  }

  function EncodeFrame(message: seq<Octet>): Result<seq<Octet>, Error> {
    if |message| > MAX_FRAME then Err(FrameTooLarge) else Ok(Lits(Be16(|message|)) + message)
  }

  function DecodeFrame(frame: seq<Octet>): Result<seq<Octet>, Error> {
    if |frame| < 2 then Err(FrameIncomplete)
    else if |frame| - 2 != ReadBe16(Vals(frame[..2])) then Err(FrameLength)
    else Ok(frame[2..])
  }

  datatype Popped = Popped(message: seq<Octet>, rest: seq<Octet>)

  /** The frame at the front of a buffer, once all of it is there. */
  function PopFrame(buffer: seq<Octet>): (r: Option<Popped>)
    ensures r.Some? ==> |r.value.rest| < |buffer|
  {
    if |buffer| < 2 then None
    else
      var total := ReadBe16(Vals(buffer[..2])) as int + 2;
      if |buffer| < total then None else Some(Popped(buffer[2..total], buffer[total..]))
  }

  /** What is popped is a frame that decodes, so popping never fails on the contents of a buffer. */
  lemma PoppedDecodes(buffer: seq<Octet>)
    requires PopFrame(buffer).Some?
    ensures var p := PopFrame(buffer).value;
      var frame := buffer[..|buffer| - |p.rest|];
      DecodeFrame(frame) == Ok(p.message) && frame + p.rest == buffer
  {
    var total := ReadBe16(Vals(buffer[..2])) as int + 2;
    assert buffer[..total][..2] == buffer[..2];
    assert buffer[..total][2..] == buffer[2..total];
  }

  lemma LengthRoundTrip(n: U16)
    ensures ReadBe16(Vals(Lits(Be16(n)))) == n
  {
    ValsOfLits(Be16(n));
  }

  /** A frame is popped as it was encoded, whatever follows it, and decodes to its message. */
  lemma PopInvertsEncode(message: seq<Octet>, rest: seq<Octet>)
    requires |message| <= MAX_FRAME
    ensures PopFrame(EncodeFrame(message).value + rest) == Some(Popped(message, rest))
    ensures DecodeFrame(EncodeFrame(message).value) == Ok(message)
  {
    var head := Lits(Be16(|message|));
    LengthRoundTrip(|message|);
    var buffer := head + message + rest;
    assert buffer[..2] == head && buffer[2..|message| + 2] == message && buffer[|message| + 2..] == rest;
    assert (head + message)[..2] == head && (head + message)[2..] == message;
  }

  /** No frame is popped from a strict prefix of one. */
  lemma PrefixIsNotPopped(message: seq<Octet>, part: seq<Octet>, rest: seq<Octet>)
    requires |message| <= MAX_FRAME && part + rest == EncodeFrame(message).value && rest != []
    ensures PopFrame(part) == None
  {
    LengthRoundTrip(|message|);
    if |part| >= 2 {
      assert part[..2] == (part + rest)[..2] == Lits(Be16(|message|));
    }
  }

  /** More octets do not change what is popped. */
  lemma PopIsStable(buffer: seq<Octet>, more: seq<Octet>)
    requires PopFrame(buffer).Some?
    ensures PopFrame(buffer + more) == Some(PopFrame(buffer).value.(rest := PopFrame(buffer).value.rest + more))
  {
    var total := ReadBe16(Vals(buffer[..2])) as int + 2;
    assert (buffer + more)[..2] == buffer[..2];
    assert (buffer + more)[2..total] == buffer[2..total];
    assert (buffer + more)[total..] == buffer[total..] + more;
  }

  // ---------- the channel ----------

  /** The largest plaintext whose ciphertext fits a frame. */
  const MAX_PLAIN: nat := MAX_FRAME - TAG

  predicate FitsFrame(plain: seq<Octet>) { |plain| <= MAX_PLAIN }

  /** One direction of a connection: both cipher states, the octets between them, and what was sent and received. */
  datatype Channel = Channel(tx: Cipher, rx: Cipher, queued: seq<Octet>, socket: seq<Octet>, arrived: seq<Octet>,
                             sent: seq<seq<Octet>>, received: seq<seq<Octet>>, failed: bool)

  datatype Step =
    | Sending(plain: seq<Octet>)
    | Moving(count: nat)
    | Arriving(count: nat)
    | Popping

  /** Encrypting takes a nonce even when the frame then turns out too large. */
  function Send(c: Channel, plain: seq<Octet>): Channel {
    match Encrypt(c.tx, plain)
    case Err(_) => c.(failed := true)
    case Ok(sealed) =>
      match EncodeFrame(sealed.message)
      case Err(_) => c.(tx := sealed.next, failed := true)
      case Ok(frame) => c.(tx := sealed.next, queued := c.queued + frame, sent := c.sent + [plain])
  }

  function Pop(c: Channel): Channel {
    match PopFrame(c.arrived)
    case None => c
    case Some(p) =>
      match Decrypt(c.rx, p.message)
      case Err(_) => c.(arrived := p.rest, failed := true)
      case Ok(plain) => c.(arrived := p.rest, rx := plain.next, received := c.received + [plain.message])
  }

  /** The kernel takes any number of queued octets, and gives any number to the receiver. */
  function Apply(c: Channel, s: Step): Channel {
    match s
    case Sending(plain) => Send(c, plain)
    case Moving(count) =>
      var k := Min(count, |c.queued|);
      c.(queued := c.queued[k..], socket := c.socket + c.queued[..k])
    case Arriving(count) =>
      var k := Min(count, |c.socket|);
      c.(socket := c.socket[k..], arrived := c.arrived + c.socket[..k])
    case Popping => Pop(c)
  }

  function Run(c: Channel, steps: seq<Step>): Channel {
    if steps == [] then c else Apply(Run(c, steps[..|steps| - 1]), steps[|steps| - 1])
  }

  /** A channel between two states with one key, such as a handshake leaves. */
  function Fresh(key: Key): Channel {
    Channel(Cipher(key, 0, true), Cipher(key, 0, true), [], [], [], [], [], false)
  }

  /** A sealed plaintext with its length in front. */
  function FrameOf(key: Key, nonce: nat, plain: seq<Octet>): seq<Octet> {
    Lits(Be16(Min(|plain| + TAG, MAX_FRAME))) + Seal(key, nonce, [], plain)
  }

  function FrameList(key: Key, nonce: nat, plains: seq<seq<Octet>>): seq<seq<Octet>> {
    seq(|plains|, i requires 0 <= i < |plains| => FrameOf(key, nonce + i, plains[i]))
  }

  /** The frames of plaintexts sealed from a nonce on. */
  function Frames(key: Key, nonce: nat, plains: seq<seq<Octet>>): seq<Octet> {
    Concat(FrameList(key, nonce, plains))
  }

  lemma FrameOfFitting(key: Key, nonce: nat, plain: seq<Octet>)
    requires FitsFrame(plain)
    ensures EncodeFrame(Seal(key, nonce, [], plain)) == Ok(FrameOf(key, nonce, plain))
  {
  }

  lemma FramesSnoc(key: Key, nonce: nat, plains: seq<seq<Octet>>, last: seq<Octet>)
    ensures Frames(key, nonce, plains + [last]) == Frames(key, nonce, plains) + FrameOf(key, nonce + |plains|, last)
  {
    var frame := FrameOf(key, nonce + |plains|, last);
    assert FrameList(key, nonce, plains + [last]) == FrameList(key, nonce, plains) + [frame];
    ConcatAppend(FrameList(key, nonce, plains), [frame]);
    assert Concat([frame]) == frame;
  }

  lemma FramesCons(key: Key, nonce: nat, plains: seq<seq<Octet>>)
    requires plains != []
    ensures Frames(key, nonce, plains) == FrameOf(key, nonce, plains[0]) + Frames(key, nonce + 1, plains[1..])
  {
    assert FrameList(key, nonce, plains)[1..] == FrameList(key, nonce + 1, plains[1..]);
  }

  /** The octets under way. */
  function Wire(c: Channel): seq<Octet> { c.arrived + c.socket + c.queued }

  /** In step: the nonces differ by the frames in transit, which hold what was sent and not yet received. */
  ghost predicate InStep(c: Channel) {
    && !c.failed
    && c.tx.hasKey && c.rx.hasKey && c.tx.key == c.rx.key
    && (forall p :: p in c.sent ==> FitsFrame(p))
    && c.tx.nonce as int == |c.sent| && c.rx.nonce as int == |c.received|
    && c.received <= c.sent
    && Wire(c) == Frames(c.tx.key, |c.received|, c.sent[|c.received|..])
  }

  lemma SendKeepsStep(c: Channel, plain: seq<Octet>)
    requires InStep(c)
    ensures FitsFrame(plain) && c.tx.nonce < U64_MAX <==> !Send(c, plain).failed
    ensures !Send(c, plain).failed ==> InStep(Send(c, plain))
  {
    if FitsFrame(plain) && c.tx.nonce < U64_MAX {
      var k := |c.received|;
      FramesSnoc(c.tx.key, k, c.sent[k..], plain);
      assert (c.sent + [plain])[k..] == c.sent[k..] + [plain];
      FrameOfFitting(c.tx.key, |c.sent|, plain);
      Assoc(c.arrived + c.socket, c.queued, FrameOf(c.tx.key, |c.sent|, plain));
    }
  }

  /** Part of the octets of a list of frames: either the whole first frame, or nothing that can be popped. */
  lemma FrontOfFrames(key: Key, nonce: nat, plains: seq<seq<Octet>>, part: seq<Octet>, rest: seq<Octet>)
    requires part + rest == Frames(key, nonce, plains) && forall p :: p in plains ==> FitsFrame(p)
    ensures PopFrame(part).Some? ==>
      && plains != [] && PopFrame(part).value.message == Seal(key, nonce, [], plains[0])
      && PopFrame(part).value.rest + rest == Frames(key, nonce + 1, plains[1..])
    ensures PopFrame(part) == None && rest == [] ==> plains == [] && part == []
  {
    if plains != [] {
      var first := Seal(key, nonce, [], plains[0]);
      var frame, more := FrameOf(key, nonce, plains[0]), Frames(key, nonce + 1, plains[1..]);
      FramesCons(key, nonce, plains);
      FrameOfFitting(key, nonce, plains[0]);
      PopInvertsEncode(first, more);
      if PopFrame(part).Some? { PopIsStable(part, rest); }
      assert rest == [] ==> part == frame + more;
    }
  }

  lemma PopKeepsStep(c: Channel)
    requires InStep(c)
    ensures InStep(Pop(c))
    ensures PopFrame(c.arrived).Some? ==> c.received < c.sent && Pop(c).received == c.received + [c.sent[|c.received|]]
  {
    if PopFrame(c.arrived).Some? {
      var k := |c.received|;
      var rest := c.sent[k..];
      Assoc(c.arrived, c.socket, c.queued);
      FrontOfFrames(c.tx.key, k, rest, c.arrived, c.socket + c.queued);
      UnsealInvertsSeal(c.tx.key, k, [], rest[0]);
      assert rest[0] == c.sent[k] && rest[1..] == c.sent[k + 1..];
      Assoc(PopFrame(c.arrived).value.rest, c.socket, c.queued);
      assert c.sent[..k + 1] == c.sent[..k] + [c.sent[k]];
    }
  }

  lemma MovingKeepsWire(c: Channel, s: Step)
    requires s.Moving? || s.Arriving?
    ensures Wire(Apply(c, s)) == Wire(c)
  {
    match s {
      case Moving(count) =>
        var k := Min(count, |c.queued|);
        Assoc(c.arrived + c.socket, c.queued[..k], c.queued[k..]);
        Assoc(c.arrived, c.socket, c.queued[..k]);
        assert c.queued == c.queued[..k] + c.queued[k..];
      case Arriving(count) =>
        var k := Min(count, |c.socket|);
        Assoc(c.arrived, c.socket[..k], c.socket[k..]);
        assert c.socket == c.socket[..k] + c.socket[k..];
    }
  }

  lemma MovingKeepsStep(c: Channel, s: Step)
    requires InStep(c) && (s.Moving? || s.Arriving?)
    ensures InStep(Apply(c, s))
  {
    MovingKeepsWire(c, s);
  }

  lemma ApplyKeepsStep(c: Channel, s: Step)
    requires InStep(c) && !Apply(c, s).failed
    ensures InStep(Apply(c, s))
  {
    match s
    case Sending(plain) => SendKeepsStep(c, plain);
    case Popping => PopKeepsStep(c);
    case _ => MovingKeepsStep(c, s);
  }

  /**
   * Over any segmentation: as long as no send failed, sender nonce minus receiver nonce is the number of frames in
   * transit, and what was received is a prefix of what was sent, in order.
   */
  lemma {:induction false} Lockstep(key: Key, steps: seq<Step>)
    requires !Run(Fresh(key), steps).failed
    ensures InStep(Run(Fresh(key), steps))
  {
    if steps == [] {
    } else {
      Lockstep(key, steps[..|steps| - 1]);
      ApplyKeepsStep(Run(Fresh(key), steps[..|steps| - 1]), steps[|steps| - 1]);
    }
  }

  /** Step `i` sends a plaintext that does not fit, or sends when the nonces are used up. */
  predicate BadSend(key: Key, steps: seq<Step>, i: nat)
    requires i < |steps|
  {
    steps[i].Sending? && (!FitsFrame(steps[i].plain) || Run(Fresh(key), steps[..i]).tx.nonce == U64_MAX)
  }

  lemma BadSendBefore(key: Key, steps: seq<Step>, i: nat)
    requires i < |steps| - 1
    ensures BadSend(key, steps[..|steps| - 1], i) == BadSend(key, steps, i)
  {
    assert steps[..|steps| - 1][..i] == steps[..i];
  }

  lemma StepFails(c: Channel, s: Step)
    requires InStep(c)
    ensures Apply(c, s).failed <==> s.Sending? && (!FitsFrame(s.plain) || c.tx.nonce == U64_MAX)
  {
    match s
    case Sending(plain) => SendKeepsStep(c, plain);
    case Popping => PopKeepsStep(c);
    case _ =>
  }

  lemma LastStepFails(key: Key, steps: seq<Step>)
    requires steps != [] && !Run(Fresh(key), steps[..|steps| - 1]).failed
    ensures Run(Fresh(key), steps).failed <==> BadSend(key, steps, |steps| - 1)
  {
    Lockstep(key, steps[..|steps| - 1]);
    StepFails(Run(Fresh(key), steps[..|steps| - 1]), steps[|steps| - 1]);
  }

  /** A run fails exactly when it sends a plaintext that does not fit, or runs out of nonces. */
  lemma {:induction false} FailsOnlyBySending(key: Key, steps: seq<Step>)
    ensures Run(Fresh(key), steps).failed <==> exists i :: 0 <= i < |steps| && BadSend(key, steps, i)
  {
    if steps == [] {
    } else {
      var n := |steps| - 1;
      FailsOnlyBySending(key, steps[..n]);
      forall i | 0 <= i < n ensures BadSend(key, steps[..n], i) == BadSend(key, steps, i) {
        BadSendBefore(key, steps, i);
      }
      if Run(Fresh(key), steps[..n]).failed {
        FailureStays(Run(Fresh(key), steps[..n]), steps[n]);
      } else {
        LastStepFails(key, steps);
      }
    }
  }

  lemma FailureStays(c: Channel, s: Step)
    requires c.failed
    ensures Apply(c, s).failed
  {
  }

  /** The state in which step `i` of a run is taken. */
  function Before(key: Key, steps: seq<Step>, i: nat): Channel
    requires i <= |steps|
  {
    Run(Fresh(key), steps[..i])
  }

  /** Step `i` seals a plaintext, whether or not the message is then sent. */
  predicate Seals(key: Key, steps: seq<Step>, i: nat)
    requires i < |steps|
  {
    steps[i].Sending? && Before(key, steps, i).tx.nonce < U64_MAX
  }

  lemma OneStep(key: Key, steps: seq<Step>, i: nat)
    requires i < |steps|
    ensures Before(key, steps, i + 1) == Apply(Before(key, steps, i), steps[i])
  {
    assert steps[..i + 1][..i] == steps[..i] && steps[..i + 1][i] == steps[i];
  }

  /** The same key, and a nonce that has not fallen. */
  predicate Later(c: Cipher, d: Cipher) { d.hasKey && d.key == c.key && c.nonce <= d.nonce }

  lemma ApplyIsLater(c: Channel, s: Step)
    requires c.tx.hasKey
    ensures Later(c.tx, Apply(c, s).tx)
    ensures s.Sending? && c.tx.nonce < U64_MAX ==> Apply(c, s).tx.nonce == c.tx.nonce + 1
  {
  }

  /** From one step to a later one the key stays and the nonce never falls. */
  lemma {:induction false} NonceNeverFalls(key: Key, steps: seq<Step>, i: nat, j: nat)
    requires i <= j <= |steps| && Before(key, steps, i).tx.hasKey
    ensures Later(Before(key, steps, i).tx, Before(key, steps, j).tx)
  {
    if i == j {
    } else {
      var k := j - 1;
      NonceNeverFalls(key, steps, i, k);
      OneStep(key, steps, k);
      ApplyIsLater(Before(key, steps, k), steps[k]);
    }
  }

  /**
   * Over every run, sends that fail included: any two sealed messages are sealed under different nonces, and
   * differ.
   */
  lemma NoncesAreNotRepeated(key: Key, steps: seq<Step>, i: nat, j: nat)
    requires i < j < |steps| && Seals(key, steps, i) && Seals(key, steps, j)
    ensures var (c, d) := (Before(key, steps, i).tx, Before(key, steps, j).tx);
      && c.key == d.key == key && c.nonce < d.nonce
      && Encrypt(c, steps[i].plain).Ok? && Encrypt(d, steps[j].plain).Ok?
      && Encrypt(c, steps[i].plain).value.message != Encrypt(d, steps[j].plain).value.message
  {
    assert steps[..0] == [];
    NonceNeverFalls(key, steps, 0, i);
    OneStep(key, steps, i);
    ApplyIsLater(Before(key, steps, i), steps[i]);
    NonceNeverFalls(key, steps, i + 1, j);
    var c, d := Before(key, steps, i).tx, Before(key, steps, j).tx;
    if Seal(key, c.nonce, [], steps[i].plain) == Seal(key, d.nonce, [], steps[j].plain) {
      SealInjective(key, c.nonce, [], steps[i].plain, key, d.nonce, [], steps[j].plain);
    }
  }

  /** Once everything has arrived and nothing can be popped, everything sent was received. */
  lemma DrainedMeansReceived(c: Channel)
    requires InStep(c) && c.queued == c.socket == [] && PopFrame(c.arrived) == None
    ensures c.received == c.sent
  {
    FrontOfFrames(c.tx.key, |c.received|, c.sent[|c.received|..], c.arrived, []);
    assert c.arrived + [] == c.arrived;
  }

  /** A plaintext that does not fit costs a nonce, and the receiver then refuses the next message for good. */
  lemma OversizeBreaksStep(c: Channel, big: seq<Octet>, next: seq<Octet>)
    requires InStep(c) && Wire(c) == [] && c.received == c.sent && !FitsFrame(big) && FitsFrame(next)
    requires c.tx.nonce as int + 1 < U64_MAX
    ensures var broken := Send(c, big);
      broken.failed && broken.tx.nonce == c.tx.nonce + 1 && Wire(broken) == []
      && Decrypt(broken.rx, Encrypt(broken.tx, next).value.message) == Err(NotAuthentic)
  {
    var message := Seal(c.tx.key, c.tx.nonce + 1, [], next);
    if Unseal(c.rx.key, c.rx.nonce, [], message).Some? {
      SealInjective(c.tx.key, c.tx.nonce + 1, [], next, c.rx.key, c.rx.nonce, [],
        Unseal(c.rx.key, c.rx.nonce, [], message).value);
    }
  }
}
