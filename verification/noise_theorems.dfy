/**
 * What the Noise XX handshake guarantees: fresh nonces, agreement of honest runs, and messages bound to their
 * transcript.
 */
module NoiseTheorems {
  import opened Bytes
  import opened Octets
  import opened NoisePayload
  import opened Noise

  // ---------- no key is used twice with one nonce ----------

  ghost predicate Distinct(calls: seq<Call>) {
    forall i, j :: 0 <= i < j < |calls| ==> calls[i] != calls[j]
  }

  ghost predicate Past(c: Call, s: Symmetric) {
    KeyDepth(c.key) < KeyDepth(s.chainingKey) || (s.cipher.hasKey && c.key == s.cipher.key && c.nonce < s.cipher.nonce)
  }

  /** Every cipher use lies behind the current key and nonce. */
  ghost predicate Fresh(s: Symmetric) {
    && Distinct(s.calls)
    && s.cipher.nonce <= |s.calls|
    && (s.cipher.hasKey ==> KeyDepth(s.cipher.key) == KeyDepth(s.chainingKey))
    && forall c :: c in s.calls ==> Past(c, s)
  }

  lemma InitialIsFresh()
    ensures Fresh(InitialSymmetric()) && InitialSymmetric().calls == []
  {
  }

  lemma MixDhKeepsFresh(s: Symmetric, secret: Secret, point: Key)
    requires Fresh(s) && MixDh(s, secret, point).Some?
    ensures Fresh(MixDh(s, secret, point).value) && MixDh(s, secret, point).value.calls == s.calls
  {
    HkdfGoesDeeper(s.chainingKey, SharedSecret(secret, point).value);
  }

  lemma UseIsNew(s: Symmetric)
    requires Fresh(s) && s.cipher.hasKey
    ensures Distinct(Used(s).calls)
  {
    var c := Call(s.cipher.key, s.cipher.nonce);
    assert c !in s.calls;
  }

  lemma SteppedIsFresh(s: Symmetric, data: seq<Octet>)
    requires Fresh(s) && s.cipher.hasKey && |s.calls| < U64_MAX
    ensures Fresh(Stepped(s, data)) && |Stepped(s, data).calls| == |s.calls| + 1
  {
    UseIsNew(s);
    var t := Stepped(s, data);
    forall c | c in t.calls ensures Past(c, t) {
      if c in s.calls { assert Past(c, s); }
    }
  }

  lemma EncryptKeepsFresh(s: Symmetric, plain: seq<Octet>)
    requires Fresh(s) && |s.calls| < U64_MAX
    ensures var s' := EncryptAndHash(s, plain).0; Fresh(s') && |s'.calls| <= |s.calls| + 1
  {
    if s.cipher.hasKey { SteppedIsFresh(s, Seal(s.cipher.key, s.cipher.nonce, s.hash, plain)); }
  }

  /** A failed decryption is still no repeated use, but it must be the last. */
  lemma DecryptKeepsFresh(s: Symmetric, cipher: seq<Octet>)
    requires Fresh(s) && |s.calls| < U64_MAX
    ensures var (s', r) := DecryptAndHash(s, cipher);
      Distinct(s'.calls) && |s'.calls| <= |s.calls| + 1 && (r.Ok? ==> Fresh(s'))
  {
    if s.cipher.hasKey {
      UseIsNew(s);
      SteppedIsFresh(s, cipher);
    }
  }

  lemma WriteAuthKeepsFresh(s: State)
    requires Fresh(s.sym) && |s.sym.calls| <= 10
    ensures var r := WriteAuth(s);
      Distinct(r.s.sym.calls) && |r.s.sym.calls| <= |s.sym.calls| + 2 && (r.r.Ok? ==> Fresh(r.s.sym))
  {
    EncryptKeepsFresh(s.sym, s.static_.public);
    var s1 := EncryptAndHash(s.sym, s.static_.public).0;
    var s2 := MixDh(s1, s.static_.secret, s.remoteEphemeral);
    if s2.Some? {
      MixDhKeepsFresh(s1, s.static_.secret, s.remoteEphemeral);
      EncryptKeepsFresh(s2.value, LocalPayload(s));
      assert WriteAuth(s).s.sym == EncryptAndHash(s2.value, LocalPayload(s)).0;
    }
  }

  lemma ReadStaticKeepsFresh(s: State, encrypted: seq<Octet>)
    requires Fresh(s.sym) && |s.sym.calls| <= 10
    ensures var r := ReadStatic(s, encrypted);
      Distinct(r.s.sym.calls) && |r.s.sym.calls| <= |s.sym.calls| + 1 && (r.r.Ok? ==> Fresh(r.s.sym))
  {
    DecryptKeepsFresh(s.sym, encrypted);
    var d := DecryptAndHash(s.sym, encrypted);
    if d.1.Ok? && |d.1.value| == 32 && MixDh(d.0, s.ephemeral.secret, d.1.value).Some? {
      MixDhKeepsFresh(d.0, s.ephemeral.secret, d.1.value);
    }
  }

  lemma ReadAuthKeepsFresh(s: State, message: seq<Octet>)
    requires Fresh(s.sym) && |s.sym.calls| <= 10 && |message| >= ENCRYPTED_STATIC
    ensures var r := ReadAuth(s, message);
      Distinct(r.s.sym.calls) && |r.s.sym.calls| <= |s.sym.calls| + 2 && (r.r.Ok? ==> Fresh(r.s.sym))
  {
    ReadStaticKeepsFresh(s, message[..ENCRYPTED_STATIC]);
    var r := ReadStatic(s, message[..ENCRYPTED_STATIC]);
    if r.r.Ok? { DecryptKeepsFresh(r.s.sym, message[ENCRYPTED_STATIC..]); }
  }

  /** The transport keys differ from each other and from every handshake key. */
  ghost predicate TransportKeysAreNew(s: State) {
    s.send.key != s.recv.key && forall c :: c in s.sym.calls ==> c.key != s.send.key && c.key != s.recv.key
  }

  lemma SplitMakesNewKeys(s: State)
    requires Fresh(s.sym)
    ensures TransportKeysAreNew(Split(s)) && Split(s).sym == s.sym
  {
    HkdfGoesDeeper(s.sym.chainingKey, []);
    forall c | c in s.sym.calls ensures KeyDepth(c.key) <= KeyDepth(s.sym.chainingKey) { assert Past(c, s.sym); }
  }

  lemma WriteMsg1IsFresh(s: State, g: Generated)
    ensures Fresh(WriteMsg1(s, g).0.sym) && WriteMsg1(s, g).0.sym.calls == []
  {
    InitialIsFresh();
  }

  /** Whatever message 2 is, the initiator's handshake uses no key twice with one nonce. */
  lemma InitiatorNeverRepeatsANonce(s: State, g: Generated, msg2: seq<Octet>)
    ensures var r := ProcessMsg2(WriteMsg1(s, g).0, msg2);
      Distinct(r.s.sym.calls) && (r.r.Ok? ==> TransportKeysAreNew(r.s))
  {
    WriteMsg1IsFresh(s, g);
    var s0 := WriteMsg1(s, g).0;
    if |msg2| >= 32 + ENCRYPTED_STATIC {
      var s1 := TakeRemoteEphemeral(s0, msg2[..32]);
      assert Fresh(s1.sym);
      if MixDh(s1.sym, s1.ephemeral.secret, s1.remoteEphemeral).Some? {
        MixDhKeepsFresh(s1.sym, s1.ephemeral.secret, s1.remoteEphemeral);
        var s2 := s1.(sym := MixDh(s1.sym, s1.ephemeral.secret, s1.remoteEphemeral).value);
        ReadAuthKeepsFresh(s2, msg2[32..]);
        assert ReadMsg2(s0, msg2) == ReadAuth(s2, msg2[32..]);
        InitiatorAnswers(s0, msg2);
      }
    }
  }

  lemma InitiatorAnswers(s: State, msg2: seq<Octet>)
    requires var r := ReadMsg2(s, msg2);
      Distinct(r.s.sym.calls) && |r.s.sym.calls| <= 2 && (r.r.Ok? ==> Fresh(r.s.sym))
    ensures var r := ProcessMsg2(s, msg2); Distinct(r.s.sym.calls) && (r.r.Ok? ==> TransportKeysAreNew(r.s))
  {
    var r := ReadMsg2(s, msg2);
    if r.r.Ok? {
      WriteAuthKeepsFresh(r.s);
      if WriteAuth(r.s).r.Ok? { SplitMakesNewKeys(WriteAuth(r.s).s); }
    }
  }

  lemma ReplyIsFresh(s: State, msg1: seq<Octet>, g: Generated)
    ensures var r := ProcessMsg1(s, msg1, g);
      r.r.Ok? ==> Fresh(r.s.sym) && |r.s.sym.calls| <= 2
    ensures var r := ProcessMsg1(s, msg1, g); |msg1| >= 32 ==> Distinct(r.s.sym.calls)
  {
    if |msg1| >= 32 {
      InitialIsFresh();
      var s1 := TakeRemoteEphemeral(Initialize(s.(isInitiator := false)), msg1[..32]);
      var s2 := TakeKeys(s1.(sym := MixHash(s1.sym, msg1[32..])), g);
      var mixed := MixHash(s2.sym, s2.ephemeral.public);
      assert Fresh(mixed) && mixed.calls == [];
      if MixDh(mixed, s2.ephemeral.secret, s2.remoteEphemeral).Some? {
        MixDhKeepsFresh(mixed, s2.ephemeral.secret, s2.remoteEphemeral);
        WriteAuthKeepsFresh(s2.(sym := MixDh(mixed, s2.ephemeral.secret, s2.remoteEphemeral).value));
      }
    }
  }

  /** Whatever messages 1 and 3 are, the responder's handshake uses no key twice with one nonce. */
  lemma ResponderNeverRepeatsANonce(s: State, g: Generated, msg1: seq<Octet>, msg3: seq<Octet>)
    requires ProcessMsg1(s, msg1, g).r.Ok?
    ensures var r := ProcessMsg3(ProcessMsg1(s, msg1, g).s, msg3);
      Distinct(r.s.sym.calls) && (r.r.Ok? ==> TransportKeysAreNew(r.s))
  {
    ReplyIsFresh(s, msg1, g);
    var s1 := ProcessMsg1(s, msg1, g).s;
    if |msg3| >= ENCRYPTED_STATIC {
      ReadAuthKeepsFresh(s1, msg3);
      if ReadAuth(s1, msg3).r.Ok? { SplitMakesNewKeys(ReadAuth(s1, msg3).s); }
    }
  }

  // ---------- honest runs agree ----------

  /** Equal in everything but the history. */
  predicate Alike(a: Symmetric, b: Symmetric) {
    a.chainingKey == b.chainingKey && a.hash == b.hash && a.cipher == b.cipher
  }

  lemma SealedIsOpened(a: Symmetric, b: Symmetric, plain: seq<Octet>)
    requires Alike(a, b)
    ensures var w := EncryptAndHash(a, plain);
      var r := DecryptAndHash(b, w.1);
      r.1 == Ok(plain) && Alike(w.0, r.0) && (a.cipher.hasKey ==> |w.1| == |plain| + TAG)
  {
    if a.cipher.hasKey { UnsealInvertsSeal(a.cipher.key, a.cipher.nonce, a.hash, plain); }
  }

  lemma MixDhAgrees(a: Symmetric, b: Symmetric, x: Keypair, y: Keypair)
    requires Alike(a, b) && ValidKeypair(x) && ValidKeypair(y)
    ensures var (m, n) := (MixDh(a, x.secret, y.public), MixDh(b, y.secret, x.public));
      m.Some? && n.Some? && Alike(m.value, n.value) && m.value.cipher.hasKey
  {
    SharedSecretCommutes(x.secret, y.secret);
  }

  /** What a peer learns from a side's authentication message. */
  function Learned(r: State, w: State): State {
    r.(remoteStatic := w.static_.public, hasRemoteStatic := true,
       remotePeer := match w.identity { case None => None case Some(k) => Some(k) },
       remoteMuxers := if w.identity.Some? then w.localMuxers else [])
  }

  lemma IdentityIsLearned(w: State, r: State, encrypted: seq<Octet>)
    requires MuxersFit(w.localMuxers) && r.remoteStatic == w.static_.public && r.hasRemoteStatic
    requires DecryptAndHash(r.sym, encrypted).1 == Ok(LocalPayload(w))
    ensures ReadIdentity(r, encrypted) == Reply(Learned(r, w).(sym := DecryptAndHash(r.sym, encrypted).0), Ok(()))
  {
    if w.identity.Some? { IdentityRoundTrip(w.identity.value, w.static_.public, w.localMuxers); }
  }

  predicate CanAuthenticate(w: State, r: State) {
    && Alike(w.sym, r.sym) && w.sym.cipher.hasKey
    && ValidKeypair(w.static_) && ValidKeypair(r.ephemeral)
    && w.remoteEphemeral == r.ephemeral.public
    && MuxersFit(w.localMuxers)
  }

  lemma StaticAgrees(w: State, r: State)
    requires CanAuthenticate(w, r)
    ensures var sealed := EncryptAndHash(w.sym, w.static_.public);
      var mixed := MixDh(sealed.0, w.static_.secret, w.remoteEphemeral);
      var read := ReadStatic(r, sealed.1);
      && mixed.Some? && |sealed.1| == ENCRYPTED_STATIC
      && read.r.Ok? && Alike(mixed.value, read.s.sym)
      && read.s == r.(sym := read.s.sym, remoteStatic := w.static_.public, hasRemoteStatic := true)
  {
    SealedIsOpened(w.sym, r.sym, w.static_.public);
    var sealed := EncryptAndHash(w.sym, w.static_.public);
    MixDhAgrees(sealed.0, DecryptAndHash(r.sym, sealed.1).0, w.static_, r.ephemeral);
  }

  lemma AuthAgrees(w: State, r: State)
    requires CanAuthenticate(w, r)
    ensures var out := WriteAuth(w);
      && out.r.Ok? && |out.r.value| >= ENCRYPTED_STATIC
      && var read := ReadAuth(r, out.r.value);
      && read.r.Ok? && Alike(out.s.sym, read.s.sym) && out.s.sym.cipher.hasKey
      && out.s == w.(sym := out.s.sym)
      && read.s == Learned(r, w).(sym := read.s.sym)
  {
    StaticAgrees(w, r);
    var sealed := EncryptAndHash(w.sym, w.static_.public);
    var mixed := MixDh(sealed.0, w.static_.secret, w.remoteEphemeral).value;
    var read := ReadStatic(r, sealed.1).s;
    var payload := EncryptAndHash(mixed, LocalPayload(w));
    SealedIsOpened(mixed, read.sym, LocalPayload(w));
    IdentityIsLearned(w, read, payload.1);
    var out := sealed.1 + payload.1;
    assert out[..ENCRYPTED_STATIC] == sealed.1 && out[ENCRYPTED_STATIC..] == payload.1;
  }

  /** The responder after taking its keys, just before the first key agreement. */
  function Prepared(r: State, msg1: seq<Octet>, g: Generated): State
    requires |msg1| >= 32
  {
    var s := TakeRemoteEphemeral(Initialize(r.(isInitiator := false)), msg1[..32]);
    var taken := TakeKeys(s.(sym := MixHash(s.sym, msg1[32..])), g);
    taken.(sym := MixHash(taken.sym, taken.ephemeral.public))
  }

  /** A side after the agreement of the two ephemeral keys. */
  function Mixed(s: State): Option<State> {
    match MixDh(s.sym, s.ephemeral.secret, s.remoteEphemeral)
    case None => None
    case Some(sym) => Some(s.(sym := sym))
  }

  lemma ReplyParts(r: State, msg1: seq<Octet>, g: Generated)
    requires |msg1| >= 32
    ensures var p := Prepared(r, msg1, g);
      var reply := ProcessMsg1(r, msg1, g);
      && (reply.r.Ok? <==> Mixed(p).Some? && WriteAuth(Mixed(p).value).r.Ok?)
      && (reply.r.Ok? ==> reply == Reply(WriteAuth(Mixed(p).value).s,
        Ok(p.ephemeral.public + WriteAuth(Mixed(p).value).r.value)))
  {
    var s := TakeRemoteEphemeral(Initialize(r.(isInitiator := false)), msg1[..32]);
    assert DecryptAndHash(s.sym, msg1[32..]) == (MixHash(s.sym, msg1[32..]), Ok(msg1[32..]));
  }

  lemma ReadParts(s: State, msg2: seq<Octet>)
    requires |msg2| >= 32 + ENCRYPTED_STATIC
    ensures var t := Mixed(TakeRemoteEphemeral(s, msg2[..32]));
      && (ReadMsg2(s, msg2).r.Ok? ==> t.Some?)
      && (t.Some? ==> ReadMsg2(s, msg2) == ReadAuth(t.value, msg2[32..]))
  {
  }

  /** The key pairs that a session will use are key pairs. */
  predicate KeysAreValid(s: State, g: Generated) {
    ValidKeypair(Taken(s.configuredEphemeral, g.ephemeral)) && ValidKeypair(Taken(s.configuredStatic, g.static_))
  }

  predicate Provided(s: State, g: Generated) { KeysAreValid(s, g) && MuxersFit(s.localMuxers) }

  /** `a` knows of `b` what `b` said, and sends with the keys `b` receives with. */
  predicate AgreesWith(a: State, b: State) {
    && a.complete && a.send == b.recv && a.send.hasKey && a.send.nonce == 0
    && a.remoteStatic == b.static_.public && a.hasRemoteStatic
    && a.remotePeer == (match b.identity { case None => None case Some(k) => Some(k) })
    && a.remoteMuxers == (if b.identity.Some? then b.localMuxers else [])
  }

  lemma Message1Parts(i: State, g: Generated)
    ensures var (i1, msg1) := WriteMsg1(i, g);
      && msg1 == i1.ephemeral.public && i1.isInitiator
      && i1.ephemeral == Taken(i.configuredEphemeral, g.ephemeral) && i1.static_ == Taken(i.configuredStatic, g.static_)
      && i1.sym == MixHash(MixHash(InitialSymmetric(), msg1), [])
  {
  }

  lemma PreparedParts(r: State, msg1: seq<Octet>, g: Generated)
    requires |msg1| == 32
    ensures var p := Prepared(r, msg1, g);
      && p.remoteEphemeral == msg1 && !p.isInitiator && p.localMuxers == r.localMuxers && p.identity == r.identity
      && p.ephemeral == Taken(r.configuredEphemeral, g.ephemeral) && p.static_ == Taken(r.configuredStatic, g.static_)
      && p.sym == MixHash(MixHash(MixHash(InitialSymmetric(), msg1), []), p.ephemeral.public)
  {
    assert msg1[..32] == msg1 && msg1[32..] == [];
  }

  /** Both sides after message 1 and the ephemeral part of message 2. */
  lemma EphemeralsAgree(i: State, r: State, gi: Generated, gr: Generated)
    requires Provided(i, gi) && Provided(r, gr)
    ensures var (i1, msg1) := WriteMsg1(i, gi);
      && |msg1| == 32
      && var p := Prepared(r, msg1, gr);
      var reader := Mixed(TakeRemoteEphemeral(i1, p.ephemeral.public));
      && Mixed(p).Some? && reader.Some? && CanAuthenticate(Mixed(p).value, reader.value)
      && ValidKeypair(p.ephemeral) && ValidKeypair(i1.static_)
  {
    Message1Parts(i, gi);
    var (i1, msg1) := WriteMsg1(i, gi);
    PreparedParts(r, msg1, gr);
    MixedAgree(Prepared(r, msg1, gr), i1);
  }

  lemma MixedAgree(p: State, i1: State)
    requires ValidKeypair(p.ephemeral) && ValidKeypair(p.static_) && ValidKeypair(i1.ephemeral)
      && MuxersFit(p.localMuxers)
    requires p.remoteEphemeral == i1.ephemeral.public && Alike(p.sym, MixHash(i1.sym, p.ephemeral.public))
    ensures var reader := Mixed(TakeRemoteEphemeral(i1, p.ephemeral.public));
      Mixed(p).Some? && reader.Some? && CanAuthenticate(Mixed(p).value, reader.value)
  {
    MixDhAgrees(p.sym, MixHash(i1.sym, p.ephemeral.public), p.ephemeral, i1.ephemeral);
  }

  lemma FirstReply(i: State, r: State, gi: Generated, gr: Generated)
    requires Provided(i, gi) && Provided(r, gr)
    ensures var (i1, msg1) := WriteMsg1(i, gi);
      var reply := ProcessMsg1(r, msg1, gr);
      && reply.r.Ok?
      && var read := ReadMsg2(i1, reply.r.value);
      && read.r.Ok? && CanAuthenticate(read.s, reply.s)
      && read.s == Learned(i1, reply.s).(sym := read.s.sym, remoteEphemeral := reply.s.ephemeral.public,
        hasRemoteEphemeral := true)
      && i1.isInitiator && !reply.s.isInitiator
      && reply.s.identity == r.identity && reply.s.localMuxers == r.localMuxers
  {
    EphemeralsAgree(i, r, gi, gr);
    var (i1, msg1) := WriteMsg1(i, gi);
    var p := Prepared(r, msg1, gr);
    var w, reader := Mixed(p).value, Mixed(TakeRemoteEphemeral(i1, p.ephemeral.public)).value;
    AuthAgrees(w, reader);
    ReplyParts(r, msg1, gr);
    var out := p.ephemeral.public + WriteAuth(w).r.value;
    assert out[..32] == p.ephemeral.public && out[32..] == WriteAuth(w).r.value;
    ReadParts(i1, out);
  }

  lemma SplitsCross(a: State, b: State)
    requires Alike(a.sym, b.sym) && a.isInitiator && !b.isInitiator
    ensures Split(a).send == Split(b).recv && Split(a).recv == Split(b).send
    ensures Split(a).send.hasKey && Split(a).send.nonce == 0 && Split(b).send.hasKey && Split(b).send.nonce == 0
  {
  }

  /**
   * An honest run completes on both sides with equal handshake hash and chaining key, crossed transport keys at
   * nonce zero, and each side holding the other's static key, identity and muxer list.
   */
  lemma HandshakeAgrees(i: State, r: State, gi: Generated, gr: Generated)
    requires Provided(i, gi) && Provided(r, gr)
    ensures var (i1, msg1) := WriteMsg1(i, gi);
      var second := ProcessMsg1(r, msg1, gr);
      && second.r.Ok?
      && var third := ProcessMsg2(i1, second.r.value);
      && third.r.Ok?
      && var last := ProcessMsg3(second.s, third.r.value);
      && last.r.Ok?
      && third.s.sym.hash == last.s.sym.hash && third.s.sym.chainingKey == last.s.sym.chainingKey
      && AgreesWith(third.s, last.s) && AgreesWith(last.s, third.s)
      && third.s.identity == i.identity && last.s.identity == r.identity
      && third.s.localMuxers == i.localMuxers && last.s.localMuxers == r.localMuxers
  {
    FirstReply(i, r, gi, gr);
    var (i1, msg1) := WriteMsg1(i, gi);
    var second := ProcessMsg1(r, msg1, gr);
    var w := ReadMsg2(i1, second.r.value).s;
    AuthAgrees(w, second.s);
    SplitsCross(WriteAuth(w).s, ReadAuth(second.s, WriteAuth(w).r.value).s);
  }

  // ---------- messages are bound to their transcript ----------

  lemma ExtendedHashInjective(a: Key, b: Key, x: seq<Octet>, y: seq<Octet>)
    requires Hash(a + x) == Hash(b + y)
    ensures a == b && x == y
  {
    HashInjective(a + x, b + y);
    assert a == (a + x)[..32] && b == (b + y)[..32];
    assert x == (a + x)[32..] && y == (b + y)[32..];
  }

  /** The handshake hash after a list of chunks. */
  function Transcript(chunks: seq<seq<Octet>>): Key {
    if chunks == [] then InitialSymmetric().hash else Hash(Transcript(chunks[..|chunks| - 1]) + chunks[|chunks| - 1])
  }

  lemma {:induction false} TranscriptInjective(a: seq<seq<Octet>>, b: seq<seq<Octet>>)
    requires |a| == |b| && Transcript(a) == Transcript(b)
    ensures a == b
  {
    if a == [] {
    } else {
      var n := |a| - 1;
      ExtendedHashInjective(Transcript(a[..n]), Transcript(b[..n]), a[n], b[n]);
      TranscriptInjective(a[..n], b[..n]);
      assert a == a[..n] + [a[n]] && b == b[..n] + [b[n]];
    }
  }

  lemma TranscriptStep(chunks: seq<seq<Octet>>, last: seq<Octet>)
    ensures Transcript(chunks + [last]) == Hash(Transcript(chunks) + last)
  {
    var all := chunks + [last];
    assert all[..|all| - 1] == chunks;
  }

  /** An accepted payload field was sealed under the reader's key and hash. */
  lemma WrittenPayload(w: State)
    requires w.sym.cipher.hasKey && WriteAuth(w).r.Ok?
    ensures var out := WriteAuth(w).r.value;
      && |out| >= ENCRYPTED_STATIC
      && var mixed := MixDh(EncryptAndHash(w.sym, w.static_.public).0, w.static_.secret, w.remoteEphemeral).value;
      && mixed.hash == Hash(w.sym.hash + out[..ENCRYPTED_STATIC]) && mixed.cipher.nonce == 0
      && out[ENCRYPTED_STATIC..] == Seal(mixed.cipher.key, 0, mixed.hash, LocalPayload(w))
      && WriteAuth(w).s.sym == Stepped(mixed, out[ENCRYPTED_STATIC..])
  {
    var sealed := EncryptAndHash(w.sym, w.static_.public);
    var mixed := MixDh(sealed.0, w.static_.secret, w.remoteEphemeral).value;
    var payload := EncryptAndHash(mixed, LocalPayload(w));
    var out := sealed.1 + payload.1;
    assert out[..ENCRYPTED_STATIC] == sealed.1 && out[ENCRYPTED_STATIC..] == payload.1;
  }

  lemma ReadPayload(r: State, message: seq<Octet>)
    requires r.sym.cipher.hasKey && |message| >= ENCRYPTED_STATIC && ReadAuth(r, message).r.Ok?
    ensures var read := ReadStatic(r, message[..ENCRYPTED_STATIC]).s.sym;
      && read.hash == Hash(r.sym.hash + message[..ENCRYPTED_STATIC]) && read.cipher.nonce == 0
      && Unseal(read.cipher.key, 0, read.hash, message[ENCRYPTED_STATIC..]).Some?
      && ReadAuth(r, message).s.sym == Stepped(read, message[ENCRYPTED_STATIC..])
  {
  }

  /** Mixed keys are equal only after equal chaining keys and equal shared secrets. */
  lemma MixKeyInjective(a: Symmetric, b: Symmetric, x: seq<Octet>, y: seq<Octet>)
    requires MixKey(a, x).cipher.key == MixKey(b, y).cipher.key
    ensures MixKey(a, x).chainingKey == MixKey(b, y).chainingKey
  {
    var t, u := Hmac(a.chainingKey, x), Hmac(b.chainingKey, y);
    var p, q := Hmac(t, [Lit(1)]) + [Lit(2)], Hmac(u, [Lit(1)]) + [Lit(2)];
    assert Hmac(t, p)[0] == Hmac(u, q)[0];
  }

  /** Accepting the payload field that `w` wrote means accepting all of what `w` wrote, after the same history. */
  lemma AuthBinds(w: State, r: State, message: seq<Octet>)
    requires w.sym.cipher.hasKey && r.sym.cipher.hasKey && |message| >= ENCRYPTED_STATIC
    requires WriteAuth(w).r.Ok? && ReadAuth(r, message).r.Ok?
    requires message[ENCRYPTED_STATIC..] == WriteAuth(w).r.value[ENCRYPTED_STATIC..]
    ensures message == WriteAuth(w).r.value && w.sym.hash == r.sym.hash
    ensures Alike(WriteAuth(w).s.sym, ReadAuth(r, message).s.sym)
  {
    WrittenPayload(w);
    ReadPayload(r, message);
    var out, field := WriteAuth(w).r.value, message[ENCRYPTED_STATIC..];
    var sealed := EncryptAndHash(w.sym, w.static_.public).0;
    var mixed := MixDh(sealed, w.static_.secret, w.remoteEphemeral).value;
    var opened_ := DecryptAndHash(r.sym, message[..ENCRYPTED_STATIC]).0;
    var read := ReadStatic(r, message[..ENCRYPTED_STATIC]).s.sym;
    SealInjective(mixed.cipher.key, 0, mixed.hash, LocalPayload(w),
                  read.cipher.key, 0, read.hash, Unseal(read.cipher.key, 0, read.hash, field).value);
    ExtendedHashInjective(w.sym.hash, r.sym.hash, out[..ENCRYPTED_STATIC], message[..ENCRYPTED_STATIC]);
    assert message == message[..ENCRYPTED_STATIC] + field;
    assert out == out[..ENCRYPTED_STATIC] + field;
    MixKeyInjective(sealed, opened_,
                    SharedSecret(w.static_.secret, w.remoteEphemeral).value,
                    SharedSecret(r.ephemeral.secret, ReadStatic(r, message[..ENCRYPTED_STATIC]).s.remoteStatic).value);
  }

  const PAYLOAD2: nat := 32 + ENCRYPTED_STATIC

  lemma ReplyTranscript(r: State, msg1: seq<Octet>, g: Generated)
    requires ProcessMsg1(r, msg1, g).r.Ok?
    ensures var msg2 := ProcessMsg1(r, msg1, g).r.value;
      && |msg2| >= PAYLOAD2
      && Mixed(Prepared(r, msg1, g)).value.sym.hash == Transcript([msg1[..32], msg1[32..], msg2[..32]])
      && msg2[32..] == WriteAuth(Mixed(Prepared(r, msg1, g)).value).r.value
      && ProcessMsg1(r, msg1, g).s.sym.hash
        == Transcript([msg1[..32], msg1[32..], msg2[..32], msg2[32..PAYLOAD2], msg2[PAYLOAD2..]])
  {
    ReplyParts(r, msg1, g);
    var w := Mixed(Prepared(r, msg1, g)).value;
    var auth := WriteAuth(w).r.value;
    var msg2 := w.ephemeral.public + auth;
    WrittenPayload(w);
    assert msg2[..32] == w.ephemeral.public && msg2[32..] == auth;
    HashOfPrepared(r, msg1, g);
    ExtendTranscript([msg1[..32], msg1[32..], msg2[..32]], msg2[32..]);
    assert msg2[32..][..ENCRYPTED_STATIC] == msg2[32..PAYLOAD2] && msg2[32..][ENCRYPTED_STATIC..] == msg2[PAYLOAD2..];
    assert [msg1[..32], msg1[32..], msg2[..32]] + [msg2[32..PAYLOAD2]] + [msg2[PAYLOAD2..]]
      == [msg1[..32], msg1[32..], msg2[..32], msg2[32..PAYLOAD2], msg2[PAYLOAD2..]];
  }

  lemma HashOfPrepared(r: State, msg1: seq<Octet>, g: Generated)
    requires |msg1| >= 32
    ensures var p := Prepared(r, msg1, g); p.sym.hash == Transcript([msg1[..32], msg1[32..], p.ephemeral.public])
  {
    var e := Prepared(r, msg1, g).ephemeral.public;
    TranscriptStep([], msg1[..32]);
    assert [] + [msg1[..32]] == [msg1[..32]];
    TranscriptStep([msg1[..32]], msg1[32..]);
    TranscriptStep([msg1[..32], msg1[32..]], e);
    assert [msg1[..32]] + [msg1[32..]] + [e] == [msg1[..32], msg1[32..], e];
  }

  lemma ExtendTranscript(chunks: seq<seq<Octet>>, auth: seq<Octet>)
    requires |auth| >= ENCRYPTED_STATIC
    ensures Hash(Hash(Transcript(chunks) + auth[..ENCRYPTED_STATIC]) + auth[ENCRYPTED_STATIC..])
      == Transcript(chunks + [auth[..ENCRYPTED_STATIC]] + [auth[ENCRYPTED_STATIC..]])
  {
    TranscriptStep(chunks, auth[..ENCRYPTED_STATIC]);
    TranscriptStep(chunks + [auth[..ENCRYPTED_STATIC]], auth[ENCRYPTED_STATIC..]);
  }

  /** The initiator's hash and key after the ephemeral part of message 2. */
  lemma HashOfMixed(i: State, g: Generated, point: Key)
    requires Mixed(TakeRemoteEphemeral(WriteMsg1(i, g).0, point)).Some?
    ensures var t := Mixed(TakeRemoteEphemeral(WriteMsg1(i, g).0, point)).value;
      t.sym.cipher.hasKey && t.sym.hash == Transcript([WriteMsg1(i, g).1, [], point])
  {
    Message1Parts(i, g);
    var msg1 := WriteMsg1(i, g).1;
    TranscriptStep([], msg1);
    assert [] + [msg1] == [msg1];
    TranscriptStep([msg1], []);
    TranscriptStep([msg1, []], point);
    assert [msg1] + [[]] + [point] == [msg1, [], point];
  }

  /** Reading an authentication message extends the transcript by its two fields. */
  lemma AuthTranscript(t: State, message: seq<Octet>, chunks: seq<seq<Octet>>)
    requires t.sym.cipher.hasKey && |message| >= ENCRYPTED_STATIC && ReadAuth(t, message).r.Ok?
    requires t.sym.hash == Transcript(chunks)
    ensures ReadAuth(t, message).s.sym.hash
      == Transcript(chunks + [message[..ENCRYPTED_STATIC]] + [message[ENCRYPTED_STATIC..]])
  {
    ReadPayload(t, message);
    ExtendTranscript(chunks, message);
  }

  lemma FieldsOfMsg2(msg1: seq<Octet>, msg2: seq<Octet>)
    requires |msg2| >= PAYLOAD2
    ensures [msg1, [], msg2[..32]] + [msg2[32..][..ENCRYPTED_STATIC]] + [msg2[32..][ENCRYPTED_STATIC..]]
      == [msg1, [], msg2[..32], msg2[32..PAYLOAD2], msg2[PAYLOAD2..]]
  {
    assert msg2[32..][..ENCRYPTED_STATIC] == msg2[32..PAYLOAD2] && msg2[32..][ENCRYPTED_STATIC..] == msg2[PAYLOAD2..];
  }

  lemma ReadTranscript(i: State, g: Generated, msg2: seq<Octet>)
    requires ReadMsg2(WriteMsg1(i, g).0, msg2).r.Ok?
    ensures var (i1, msg1) := WriteMsg1(i, g);
      && |msg1| == 32 && |msg2| >= PAYLOAD2
      && var t := Mixed(TakeRemoteEphemeral(i1, msg2[..32]));
      && t.Some? && t.value.sym.cipher.hasKey && t.value.sym.hash == Transcript([msg1, [], msg2[..32]])
      && ReadMsg2(i1, msg2) == ReadAuth(t.value, msg2[32..])
      && ReadMsg2(i1, msg2).s.sym.hash == Transcript([msg1, [], msg2[..32], msg2[32..PAYLOAD2], msg2[PAYLOAD2..]])
  {
    var (i1, msg1) := WriteMsg1(i, g);
    Message1Parts(i, g);
    ReadParts(i1, msg2);
    HashOfMixed(i, g, msg2[..32]);
    AuthTranscript(Mixed(TakeRemoteEphemeral(i1, msg2[..32])).value, msg2[32..], [msg1, [], msg2[..32]]);
    FieldsOfMsg2(msg1, msg2);
  }

  /**
   * A message 2 whose payload field was written by any honest responder, in answer to any message 1, is accepted
   * only if it is that responder's whole reply and the reply was to this initiator's own message 1.
   */
  lemma Message2IsBound(i: State, gi: Generated, msg2: seq<Octet>, r: State, otherMsg1: seq<Octet>, gr: Generated)
    requires ProcessMsg1(r, otherMsg1, gr).r.Ok?
    requires |msg2| >= PAYLOAD2 && |ProcessMsg1(r, otherMsg1, gr).r.value| >= PAYLOAD2
    requires msg2[PAYLOAD2..] == ProcessMsg1(r, otherMsg1, gr).r.value[PAYLOAD2..]
    requires ProcessMsg2(WriteMsg1(i, gi).0, msg2).r.Ok?
    ensures msg2 == ProcessMsg1(r, otherMsg1, gr).r.value && otherMsg1 == WriteMsg1(i, gi).1
    ensures Alike(ReadMsg2(WriteMsg1(i, gi).0, msg2).s.sym, ProcessMsg1(r, otherMsg1, gr).s.sym)
  {
    var (i1, msg1) := WriteMsg1(i, gi);
    var reply := ProcessMsg1(r, otherMsg1, gr).r.value;
    ReplyParts(r, otherMsg1, gr);
    ReplyTranscript(r, otherMsg1, gr);
    ReadTranscript(i, gi, msg2);
    var w := Mixed(Prepared(r, otherMsg1, gr)).value;
    var reader := Mixed(TakeRemoteEphemeral(i1, msg2[..32])).value;
    assert msg2[32..][ENCRYPTED_STATIC..] == msg2[PAYLOAD2..] && reply[32..][ENCRYPTED_STATIC..] == reply[PAYLOAD2..];
    AuthBinds(w, reader, msg2[32..]);
    SameBeginning(otherMsg1, reply, msg1, msg2);
  }

  lemma SameBeginning(msg1: seq<Octet>, msg2: seq<Octet>, msg1': seq<Octet>, msg2': seq<Octet>)
    requires |msg1| >= 32 && |msg1'| == 32 && |msg2| >= 32 && |msg2'| >= 32 && msg2[32..] == msg2'[32..]
    requires Transcript([msg1[..32], msg1[32..], msg2[..32]]) == Transcript([msg1', [], msg2'[..32]])
    ensures msg1 == msg1' && msg2 == msg2'
  {
    var a, b := [msg1[..32], msg1[32..], msg2[..32]], [msg1', [], msg2'[..32]];
    TranscriptInjective(a, b);
    assert a[0] == b[0] && a[1] == b[1] && a[2] == b[2];
    assert msg1 == msg1[..32] + msg1[32..];
    assert msg2 == msg2[..32] + msg2[32..] && msg2' == msg2'[..32] + msg2'[32..];
  }

  /**
   * A message 3 whose payload field was written by any honest initiator, after any message 2, is accepted by a
   * responder only if it is that initiator's whole message 3, that initiator read this responder's own message 2,
   * and this responder read that initiator's own message 1. The transport keys then cross.
   */
  lemma Message3IsBound(r: State, msg1: seq<Octet>, gr: Generated, msg3: seq<Octet>, i: State, gi: Generated,
                        otherMsg2: seq<Octet>)
    requires ProcessMsg1(r, msg1, gr).r.Ok?
    requires ProcessMsg2(WriteMsg1(i, gi).0, otherMsg2).r.Ok?
    requires |msg3| >= ENCRYPTED_STATIC && |ProcessMsg2(WriteMsg1(i, gi).0, otherMsg2).r.value| >= ENCRYPTED_STATIC
    requires msg3[ENCRYPTED_STATIC..] == ProcessMsg2(WriteMsg1(i, gi).0, otherMsg2).r.value[ENCRYPTED_STATIC..]
    requires ProcessMsg3(ProcessMsg1(r, msg1, gr).s, msg3).r.Ok?
    ensures msg3 == ProcessMsg2(WriteMsg1(i, gi).0, otherMsg2).r.value
    ensures otherMsg2 == ProcessMsg1(r, msg1, gr).r.value && msg1 == WriteMsg1(i, gi).1
    ensures var a := ProcessMsg2(WriteMsg1(i, gi).0, otherMsg2).s;
      var b := ProcessMsg3(ProcessMsg1(r, msg1, gr).s, msg3).s;
      a.send == b.recv && a.recv == b.send
  {
    var i1 := WriteMsg1(i, gi).0;
    AnswerParts(i1, otherMsg2);
    var w, reader := ReadMsg2(i1, otherMsg2).s, ProcessMsg1(r, msg1, gr).s;
    ReplyTranscript(r, msg1, gr);
    ReadTranscript(i, gi, otherMsg2);
    ReplyHasKey(r, msg1, gr);
    ReadHasKey(i, gi, otherMsg2);
    AuthBinds(w, reader, msg3);
    SameExchange(msg1, ProcessMsg1(r, msg1, gr).r.value, WriteMsg1(i, gi).1, otherMsg2);
    SplitCrossed(w, reader, msg3);
  }

  lemma AnswerParts(s: State, msg2: seq<Octet>)
    requires ProcessMsg2(s, msg2).r.Ok?
    ensures ReadMsg2(s, msg2).r.Ok?
    ensures var w := WriteAuth(ReadMsg2(s, msg2).s); w.r.Ok? && ProcessMsg2(s, msg2) == Reply(Finish(w.s), w.r)
  {
  }

  lemma SplitCrossed(w: State, reader: State, msg3: seq<Octet>)
    requires ProcessMsg3(reader, msg3).r.Ok? && WriteAuth(w).r.Ok?
    requires Alike(WriteAuth(w).s.sym, ReadAuth(reader, msg3).s.sym) && w.isInitiator && !reader.isInitiator
    ensures var (a, b) := (Finish(WriteAuth(w).s), ProcessMsg3(reader, msg3).s); a.send == b.recv && a.recv == b.send
  {
    WriteKeepsRole(w);
    LastParts(reader, msg3);
    SplitsCross(WriteAuth(w).s, ReadAuth(reader, msg3).s);
  }

  lemma WriteKeepsRole(w: State)
    ensures WriteAuth(w).s.isInitiator == w.isInitiator
  {
  }

  lemma LastParts(s: State, msg3: seq<Octet>)
    requires ProcessMsg3(s, msg3).r.Ok?
    ensures |msg3| >= ENCRYPTED_STATIC && ProcessMsg3(s, msg3).s == Finish(ReadAuth(s, msg3).s)
    ensures ReadAuth(s, msg3).s.isInitiator == s.isInitiator
  {
  }

  lemma SameExchange(msg1: seq<Octet>, msg2: seq<Octet>, msg1': seq<Octet>, msg2': seq<Octet>)
    requires |msg1| >= 32 && |msg1'| == 32 && |msg2| >= PAYLOAD2 && |msg2'| >= PAYLOAD2
    requires Transcript([msg1[..32], msg1[32..], msg2[..32], msg2[32..PAYLOAD2], msg2[PAYLOAD2..]])
      == Transcript([msg1', [], msg2'[..32], msg2'[32..PAYLOAD2], msg2'[PAYLOAD2..]])
    ensures msg1 == msg1' && msg2 == msg2'
  {
    var a := [msg1[..32], msg1[32..], msg2[..32], msg2[32..PAYLOAD2], msg2[PAYLOAD2..]];
    var b := [msg1', [], msg2'[..32], msg2'[32..PAYLOAD2], msg2'[PAYLOAD2..]];
    TranscriptInjective(a, b);
    assert a[0] == b[0] && a[1] == b[1] && a[2] == b[2] && a[3] == b[3] && a[4] == b[4];
    assert msg1 == msg1[..32] + msg1[32..];
    assert msg2 == msg2[..32] + msg2[32..PAYLOAD2] + msg2[PAYLOAD2..];
    assert msg2' == msg2'[..32] + msg2'[32..PAYLOAD2] + msg2'[PAYLOAD2..];
  }

  lemma ReplyHasKey(r: State, msg1: seq<Octet>, g: Generated)
    requires ProcessMsg1(r, msg1, g).r.Ok?
    ensures ProcessMsg1(r, msg1, g).s.sym.cipher.hasKey && !ProcessMsg1(r, msg1, g).s.isInitiator
  {
    ReplyParts(r, msg1, g);
    WrittenPayload(Mixed(Prepared(r, msg1, g)).value);
  }

  lemma ReadHasKey(i: State, g: Generated, msg2: seq<Octet>)
    requires ReadMsg2(WriteMsg1(i, g).0, msg2).r.Ok?
    ensures var read := ReadMsg2(WriteMsg1(i, g).0, msg2).s; read.sym.cipher.hasKey && read.isInitiator
  {
    ReadTranscript(i, g, msg2);
    var t := Mixed(TakeRemoteEphemeral(WriteMsg1(i, g).0, msg2[..32])).value;
    ReadPayload(t, msg2[32..]);
  }
}
