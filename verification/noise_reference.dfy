/**
 * The handshake against its definition: an interpreter of message patterns as sections 4.3, 5.2, 5.3 and 7.5 of the
 * Noise Protocol Framework give it, and the proof that the four message functions are what it makes of pattern XX.
 */
module NoiseReference {
  import opened Bytes
  import opened Octets
  import opened NoisePayload
  import N = Noise

  type Key = N.Key

  // ---------- the symmetric state, section 5.2 ----------

  function FirstOutput(ck: Key, material: seq<Octet>): Key { Hmac(Hmac(ck, material), [Lit(1)]) }

  function SecondOutput(ck: Key, material: seq<Octet>): Key {
    Hmac(Hmac(ck, material), FirstOutput(ck, material) + [Lit(2)])
  }

  datatype Sym = Sym(ck: Key, h: Key, k: Option<Key>, n: nat)

  function Mixed(y: Sym, data: seq<Octet>): Sym { y.(h := Hash(y.h + data)) }

  function Keyed(y: Sym, material: seq<Octet>): Sym {
    y.(ck := FirstOutput(y.ck, material), k := Some(SecondOutput(y.ck, material)), n := 0)
  }

  function Encrypt(y: Sym, plain: seq<Octet>): (Sym, seq<Octet>) {
    match y.k
    case None => (Mixed(y, plain), plain)
    case Some(k) =>
      var cipher := Seal(k, y.n, y.h, plain);
      (Mixed(y.(n := y.n + 1), cipher), cipher)
  }

  function Decrypt(y: Sym, cipher: seq<Octet>): Option<(Sym, seq<Octet>)> {
    match y.k
    case None => Some((Mixed(y, cipher), cipher))
    case Some(k) =>
      match Unseal(k, y.n, y.h, cipher)
      case None => None
      case Some(plain) => Some((Mixed(y.(n := y.n + 1), cipher), plain))
  }

  // ---------- message patterns, section 5.3 ----------

  datatype Token = E | S | EE | ES | SE

  /** Section 7.5: XX. */
  const XX: seq<seq<Token>> := [[E], [E, EE, S, ES], [S, SE]]

  datatype Party = Party(initiator: bool, s: N.Keypair, e: N.Keypair, rs: Option<Key>, re: Option<Key>, sym: Sym)

  function Dh(k: N.Keypair, point: Option<Key>): Option<seq<Octet>> {
    if point.None? then None else SharedSecret(k.secret, point.value)
  }

  /** The key agreement that a token names: the initiator's key first, the responder's second. */
  function Agreement(p: Party, t: Token): Option<seq<Octet>> {
    match t
    case EE => Dh(p.e, p.re)
    case ES => if p.initiator then Dh(p.e, p.rs) else Dh(p.s, p.re)
    case SE => if p.initiator then Dh(p.s, p.re) else Dh(p.e, p.rs)
    case _ => None
  }

  function Agreed(p: Party, t: Token): Option<Party> {
    match Agreement(p, t)
    case None => None
    case Some(shared) => Some(p.(sym := Keyed(p.sym, shared)))
  }

  function WriteToken(p: Party, t: Token): Option<(Party, seq<Octet>)> {
    match t
    case E => Some((p.(sym := Mixed(p.sym, p.e.public)), p.e.public))
    case S => var c := Encrypt(p.sym, p.s.public); Some((p.(sym := c.0), c.1))
    case _ => if Agreed(p, t).None? then None else Some((Agreed(p, t).value, []))
  }

  function ReadToken(p: Party, t: Token, message: seq<Octet>): Option<(Party, seq<Octet>)> {
    match t
    case E =>
      if |message| < 32 then None
      else Some((p.(re := Some(message[..32]), sym := Mixed(p.sym, message[..32])), message[32..]))
    case S =>
      var size := if p.sym.k.Some? then 32 + TAG else 32;
      if |message| < size then None
      else
        var opened_ := Decrypt(p.sym, message[..size]);
        if opened_.None? || |opened_.value.1| != 32 then None
        else Some((p.(rs := Some(opened_.value.1), sym := opened_.value.0), message[size..]))
    case _ => if Agreed(p, t).None? then None else Some((Agreed(p, t).value, message))
  }

  /** A message: its tokens in order, then the payload. */
  function WriteMessage(p: Party, tokens: seq<Token>, payload: seq<Octet>): Option<(Party, seq<Octet>)>
    decreases |tokens|
  {
    if tokens == [] then
      var c := Encrypt(p.sym, payload);
      Some((p.(sym := c.0), c.1))
    else
      match WriteToken(p, tokens[0])
      case None => None
      case Some((q, octets)) =>
        match WriteMessage(q, tokens[1..], payload)
        case None => None
        case Some((r, more)) => Some((r, octets + more))
  }

  function ReadMessage(p: Party, tokens: seq<Token>, message: seq<Octet>): Option<(Party, seq<Octet>)>
    decreases |tokens|
  {
    if tokens == [] then
      var c := Decrypt(p.sym, message);
      if c.None? then None else Some((p.(sym := c.value.0), c.value.1))
    else
      match ReadToken(p, tokens[0], message)
      case None => None
      case Some((q, rest)) => ReadMessage(q, tokens[1..], rest)
  }

  /** Both start from the name of the protocol and an empty prologue. */
  function Start(initiator: bool, s: N.Keypair, e: N.Keypair): Party {
    Party(initiator, s, e, None, None, Mixed(Sym(N.NameKey(), N.NameKey(), None, 0), []))
  }

  // ---------- the session as a party ----------

  function SymOf(y: N.Symmetric): Sym {
    Sym(y.chainingKey, y.hash, if y.cipher.hasKey then Some(y.cipher.key) else None, y.cipher.nonce)
  }

  function PartyOf(s: N.State): Party {
    Party(s.isInitiator, s.static_, s.ephemeral, if s.hasRemoteStatic then Some(s.remoteStatic) else None,
          if s.hasRemoteEphemeral then Some(s.remoteEphemeral) else None, SymOf(s.sym))
  }

  lemma MixHashIsMixed(y: N.Symmetric, data: seq<Octet>)
    ensures SymOf(N.MixHash(y, data)) == Mixed(SymOf(y), data)
  {
  }

  lemma MixDhIsKeyed(y: N.Symmetric, secret: Secret, point: Key)
    ensures match SharedSecret(secret, point)
      case None => N.MixDh(y, secret, point).None?
      case Some(shared) =>
        N.MixDh(y, secret, point).Some? && SymOf(N.MixDh(y, secret, point).value) == Keyed(SymOf(y), shared)
  {
  }

  lemma EncryptIsSame(y: N.Symmetric, plain: seq<Octet>)
    requires y.cipher.nonce < U64_MAX
    ensures var (a, b) := (N.EncryptAndHash(y, plain), Encrypt(SymOf(y), plain));
      SymOf(a.0) == b.0 && a.1 == b.1
  {
  }

  lemma DecryptIsSame(y: N.Symmetric, cipher: seq<Octet>)
    requires y.cipher.nonce < U64_MAX
    ensures var (a, b) := (N.DecryptAndHash(y, cipher), Decrypt(SymOf(y), cipher));
      && (a.1.Ok? <==> b.Some?) && (a.1.Ok? ==> SymOf(a.0) == b.value.0 && a.1.value == b.value.1)
  {
  }

  /** A fresh party with the key pairs that a session takes. */
  function Fresh(initiator: bool, s: N.State, g: N.Generated): Party {
    Start(initiator, N.Taken(s.configuredStatic, g.static_), N.Taken(s.configuredEphemeral, g.ephemeral))
  }

  lemma InitialIsStart(s: N.State, g: N.Generated, initiator: bool)
    ensures var s0 := N.TakeKeys(N.Initialize(s.(isInitiator := initiator)), g);
      PartyOf(s0) == Fresh(initiator, s, g)
  {
  }

  // ---------- the second half of messages 2 and 3 ----------

  /** The key agreement that authenticates the writer: its static key with the reader's ephemeral one. */
  function Proving(writerIsInitiator: bool): Token { if writerIsInitiator then SE else ES }

  /** The payload, behind the octets of the tokens. */
  function Closing(p: Party, octets: seq<Octet>, payload: seq<Octet>): (Party, seq<Octet>) {
    var c := Encrypt(p.sym, payload);
    (p.(sym := c.0), octets + c.1)
  }

  function TwoWritten(p: Party, t: Token, payload: seq<Octet>): Option<(Party, seq<Octet>)> {
    var c := Encrypt(p.sym, p.s.public);
    match Agreed(p.(sym := c.0), t)
    case None => None
    case Some(q) => Some(Closing(q, c.1, payload))
  }

  lemma WriteAgreement(p: Party, t: Token, payload: seq<Octet>)
    requires t == ES || t == SE
    ensures WriteMessage(p, [t], payload)
      == if Agreed(p, t).None? then None else Some(Closing(Agreed(p, t).value, [], payload))
  {
    assert [t][1..] == [];
    if Agreed(p, t).Some? {
      var q := Agreed(p, t).value;
      assert WriteMessage(q, [], payload) == Some((q.(sym := Encrypt(q.sym, payload).0), Encrypt(q.sym, payload).1));
    }
  }

  lemma WriteTwo(p: Party, t: Token, payload: seq<Octet>)
    requires t == ES || t == SE
    ensures WriteMessage(p, [S, t], payload) == TwoWritten(p, t, payload)
  {
    var c := Encrypt(p.sym, p.s.public);
    var q := p.(sym := c.0);
    assert [S, t][0] == S && [S, t][1..] == [t];
    WriteAgreement(q, t, payload);
    if Agreed(q, t).Some? {
      var d := Encrypt(Agreed(q, t).value.sym, payload);
      assert c.1 + ([] + d.1) == c.1 + d.1;
    }
  }

  lemma WriteAuthIsPattern(s: N.State)
    requires s.hasRemoteEphemeral && s.sym.cipher.nonce as int + 1 < U64_MAX
    ensures var w := N.WriteAuth(s);
      WriteMessage(PartyOf(s), [S, Proving(s.isInitiator)], N.LocalPayload(s))
        == if w.r.Ok? then Some((PartyOf(w.s), w.r.value)) else None
  {
    WriteTwo(PartyOf(s), Proving(s.isInitiator), N.LocalPayload(s));
    var point := N.EncryptAndHash(s.sym, s.static_.public);
    EncryptIsSame(s.sym, s.static_.public);
    MixDhIsKeyed(point.0, s.static_.secret, s.remoteEphemeral);
    var mixed := N.MixDh(point.0, s.static_.secret, s.remoteEphemeral);
    if mixed.Some? { EncryptIsSame(mixed.value, N.LocalPayload(s)); }
  }

  /** The payload, in what is left of the message. */
  function Opening(p: Party, rest: seq<Octet>): Option<(Party, seq<Octet>)> {
    var c := Decrypt(p.sym, rest);
    if c.None? then None else Some((p.(sym := c.value.0), c.value.1))
  }

  function TwoRead(p: Party, t: Token, message: seq<Octet>): Option<(Party, seq<Octet>)> {
    var token := ReadToken(p, S, message);
    if token.None? then None
    else
      var q := Agreed(token.value.0, t);
      if q.None? then None else Opening(q.value, token.value.1)
  }

  lemma ReadAgreement(p: Party, t: Token, rest: seq<Octet>)
    requires t == ES || t == SE
    ensures ReadMessage(p, [t], rest) == if Agreed(p, t).None? then None else Opening(Agreed(p, t).value, rest)
  {
    assert [t][1..] == [];
    if Agreed(p, t).Some? {
      var q := Agreed(p, t).value;
      assert ReadMessage(q, [], rest) == Opening(q, rest);
    }
  }

  lemma ReadTwo(p: Party, t: Token, message: seq<Octet>)
    requires t == ES || t == SE
    ensures ReadMessage(p, [S, t], message) == TwoRead(p, t, message)
  {
    assert [S, t][0] == S && [S, t][1..] == [t];
    var token := ReadToken(p, S, message);
    if token.Some? { ReadAgreement(token.value.0, t, token.value.1); }
  }

  /** The pattern reads the message, and its payload names and proves its sender. */
  predicate Believed(read: Option<(Party, seq<Octet>)>) {
    read.Some? && read.value.0.rs.Some? && VerifyRemote(read.value.1, read.value.0.rs.value).Ok?
  }

  /** The session has become the party that the pattern leads to, and knows whom the payload names. */
  predicate Became(s: N.State, read: Option<(Party, seq<Octet>)>)
    requires Believed(read)
  {
    var remote := VerifyRemote(read.value.1, read.value.0.rs.value).value;
    PartyOf(s) == read.value.0 && s.remotePeer == remote.peer && s.remoteMuxers == remote.muxers
  }

  lemma ReadStaticIsPattern(s: N.State, encrypted: seq<Octet>, rest: seq<Octet>)
    requires s.sym.cipher.hasKey && s.sym.cipher.nonce < U64_MAX && |encrypted| == N.ENCRYPTED_STATIC
    ensures var r := N.ReadStatic(s, encrypted);
      var token := ReadToken(PartyOf(s), S, encrypted + rest);
      if token.None? then r.r.Err?
      else
        var q := Agreed(token.value.0, Proving(!s.isInitiator));
        && token.value.1 == rest && (r.r.Ok? <==> q.Some?)
        && (r.r.Ok? ==> PartyOf(r.s) == q.value && r.s.hasRemoteStatic)
  {
    assert (encrypted + rest)[..N.ENCRYPTED_STATIC] == encrypted && (encrypted + rest)[N.ENCRYPTED_STATIC..] == rest;
    DecryptIsSame(s.sym, encrypted);
    var d := N.DecryptAndHash(s.sym, encrypted);
    if d.1.Ok? && |d.1.value| == 32 { MixDhIsKeyed(d.0, s.ephemeral.secret, d.1.value); }
  }

  lemma ReadAuthIsPattern(s: N.State, message: seq<Octet>)
    requires s.sym.cipher.hasKey && s.sym.cipher.nonce < U64_MAX && |message| >= N.ENCRYPTED_STATIC
    ensures var r := N.ReadAuth(s, message);
      var read := ReadMessage(PartyOf(s), [S, Proving(!s.isInitiator)], message);
      && (r.r.Ok? <==> Believed(read))
      && (r.r.Ok? ==> Became(r.s, read))
  {
    var encrypted, rest := message[..N.ENCRYPTED_STATIC], message[N.ENCRYPTED_STATIC..];
    assert message == encrypted + rest;
    ReadTwo(PartyOf(s), Proving(!s.isInitiator), message);
    ReadStaticIsPattern(s, encrypted, rest);
    var r := N.ReadStatic(s, encrypted);
    if r.r.Ok? { ReadIdentityIsPattern(r.s, rest); }
  }

  lemma ReadIdentityIsPattern(s: N.State, encrypted: seq<Octet>)
    requires s.hasRemoteStatic && s.sym.cipher.nonce < U64_MAX
    ensures var r := N.ReadIdentity(s, encrypted);
      var opened_ := Decrypt(SymOf(s.sym), encrypted);
      && (r.r.Ok? <==> opened_.Some? && VerifyRemote(opened_.value.1, s.remoteStatic).Ok?)
      && (r.r.Ok? ==>
            var remote := VerifyRemote(opened_.value.1, s.remoteStatic).value;
            && PartyOf(r.s) == PartyOf(s).(sym := opened_.value.0)
            && r.s.remotePeer == remote.peer && r.s.remoteMuxers == remote.muxers)
  {
    DecryptIsSame(s.sym, encrypted);
  }

  // ---------- the four message functions ----------

  lemma WriteFirst(p: Party, payload: seq<Octet>)
    ensures WriteMessage(p, XX[0], payload) == Some(Closing(p.(sym := Mixed(p.sym, p.e.public)), p.e.public, payload))
  {
    assert XX[0][1..] == [];
  }

  /** Message 1 is the first pattern of XX, written by a fresh initiator with an empty payload. */
  lemma Message1IsPattern(s: N.State, g: N.Generated)
    ensures var w := N.WriteMsg1(s, g);
      WriteMessage(Fresh(true, s, g), XX[0], []) == Some((PartyOf(w.0), w.1))
  {
    InitialIsStart(s, g, true);
    var s1 := N.TakeKeys(N.Initialize(s.(isInitiator := true)), g);
    WriteFirst(PartyOf(s1), []);
    MixHashIsMixed(s1.sym, s1.ephemeral.public);
    EncryptIsSame(N.MixHash(s1.sym, s1.ephemeral.public), []);
  }

  /** After the ephemeral key of the other side. */
  function Met(p: Party, point: Key): Party { p.(re := Some(point), sym := Mixed(p.sym, point)) }

  lemma ReadFirst(p: Party, message: seq<Octet>)
    ensures |message| < 32 ==> ReadMessage(p, XX[0], message) == None
    ensures |message| >= 32 ==> ReadMessage(p, XX[0], message) == Opening(Met(p, message[..32]), message[32..])
  {
    assert XX[0][1..] == [];
  }

  lemma WriteSecond(p: Party, payload: seq<Octet>)
    ensures var q := Agreed(p.(sym := Mixed(p.sym, p.e.public)), EE);
      var written := WriteMessage(p, XX[1], payload);
      if q.None? then written == None
      else
        var more := WriteMessage(q.value, [S, ES], payload);
        (written.Some? <==> more.Some?) && (more.Some? ==> written == Some((more.value.0, p.e.public + more.value.1)))
  {
    var q := Agreed(p.(sym := Mixed(p.sym, p.e.public)), EE);
    if q.Some? && WriteMessage(q.value, [S, ES], payload).Some? {
      var more := WriteMessage(q.value, [S, ES], payload).value.1;
      assert p.e.public + ([] + more) == p.e.public + more;
    }
    assert XX[1][1..] == [EE, S, ES] && [EE, S, ES][1..] == [S, ES];
  }

  /** A fresh responder reads message 1 and writes message 2 as XX says, and fails exactly when the pattern does. */
  lemma Message2IsPattern(s: N.State, msg1: seq<Octet>, g: N.Generated)
    ensures var reply := N.ProcessMsg1(s, msg1, g);
      var read := ReadMessage(Fresh(false, s, g), XX[0], msg1);
      if read.None? then reply.r.Err?
      else
        var written := WriteMessage(read.value.0, XX[1], OwnPayload(s, g));
        && (reply.r.Ok? <==> written.Some?)
        && (reply.r.Ok? ==> written == Some((PartyOf(reply.s), reply.r.value)))
  {
    InitialIsStart(s, g, false);
    ReadFirst(PartyOf(N.TakeKeys(N.Initialize(s.(isInitiator := false)), g)), msg1);
    if |msg1| >= 32 { RespondsAsPattern(s, msg1, g); }
  }

  /** The payload of a side that uses the keys it was given. */
  function OwnPayload(s: N.State, g: N.Generated): seq<Octet> {
    match s.identity
    case None => []
    case Some(identity) => HandshakeMessage(identity, N.Taken(s.configuredStatic, g.static_).public, s.localMuxers)
  }

  lemma RespondsAsPattern(s: N.State, msg1: seq<Octet>, g: N.Generated)
    requires |msg1| >= 32
    ensures var start := PartyOf(N.TakeKeys(N.Initialize(s.(isInitiator := false)), g));
      var read := Opening(Met(start, msg1[..32]), msg1[32..]);
      var reply := N.ProcessMsg1(s, msg1, g);
      read.Some? &&
      var written := WriteMessage(read.value.0, XX[1], OwnPayload(s, g));
      (reply.r.Ok? <==> written.Some?) && (reply.r.Ok? ==> written == Some((PartyOf(reply.s), reply.r.value)))
  {
    var s1 := N.TakeRemoteEphemeral(N.Initialize(s.(isInitiator := false)), msg1[..32]);
    var payload := N.DecryptAndHash(s1.sym, msg1[32..]);
    DecryptIsSame(s1.sym, msg1[32..]);
    ReplyIsPattern(N.TakeKeys(s1.(sym := payload.0), g));
  }

  /** Everything of message 2, once message 1 is read. */
  lemma ReplyIsPattern(s: N.State)
    requires !s.isInitiator && s.hasRemoteEphemeral && !s.sym.cipher.hasKey
    ensures var mixed := N.MixHash(s.sym, s.ephemeral.public);
      var written := WriteMessage(PartyOf(s), XX[1], N.LocalPayload(s));
      var ee := N.MixDh(mixed, s.ephemeral.secret, s.remoteEphemeral);
      if ee.None? then written.None?
      else
        var w := N.WriteAuth(s.(sym := ee.value));
        if w.r.Err? then written.None? else written == Some((PartyOf(w.s), s.ephemeral.public + w.r.value))
  {
    WriteSecond(PartyOf(s), N.LocalPayload(s));
    var mixed := N.MixHash(s.sym, s.ephemeral.public);
    MixHashIsMixed(s.sym, s.ephemeral.public);
    MixDhIsKeyed(mixed, s.ephemeral.secret, s.remoteEphemeral);
    var ee := N.MixDh(mixed, s.ephemeral.secret, s.remoteEphemeral);
    if ee.Some? {
      WriteAuthIsPattern(s.(sym := ee.value));
      var w := N.WriteAuth(s.(sym := ee.value));
    }
  }

  lemma ReadSecond(p: Party, message: seq<Octet>)
    ensures |message| < 32 ==> ReadMessage(p, XX[1], message) == None
    ensures |message| >= 32 ==>
      var q := Agreed(Met(p, message[..32]), EE);
      ReadMessage(p, XX[1], message) == if q.None? then None else ReadMessage(q.value, [S, ES], message[32..])
  {
    assert XX[1][1..] == [EE, S, ES] && [EE, S, ES][1..] == [S, ES];
  }

  lemma TooShortForStatic(p: Party, t: Token, message: seq<Octet>)
    requires p.sym.k.Some? && |message| < N.ENCRYPTED_STATIC
    ensures ReadMessage(p, [S, t], message).None?
  {
  }

  lemma ReadMsg2IsPattern(s: N.State, msg2: seq<Octet>)
    requires s.isInitiator
    ensures var r := N.ReadMsg2(s, msg2);
      var read := ReadMessage(PartyOf(s), XX[1], msg2);
      (r.r.Ok? <==> Believed(read)) && (r.r.Ok? ==> Became(r.s, read) && r.s.hasRemoteEphemeral)
  {
    ReadSecond(PartyOf(s), msg2);
    if |msg2| >= 32 {
      var s1 := N.TakeRemoteEphemeral(s, msg2[..32]);
      MixHashIsMixed(s.sym, msg2[..32]);
      MixDhIsKeyed(s1.sym, s1.ephemeral.secret, s1.remoteEphemeral);
      var ee := N.MixDh(s1.sym, s1.ephemeral.secret, s1.remoteEphemeral);
      if ee.Some? {
        if |msg2| >= 32 + N.ENCRYPTED_STATIC {
          ReadAuthIsPattern(s1.(sym := ee.value), msg2[32..]);
        } else {
          TooShortForStatic(PartyOf(s1.(sym := ee.value)), ES, msg2[32..]);
        }
      }
    }
  }

  /** Section 5.2: the two transport keys, of which the initiator sends with the first. */
  predicate SplitAs(s: N.State, y: Sym) {
    var (first, second) := (N.Cipher(FirstOutput(y.ck, []), 0, true), N.Cipher(SecondOutput(y.ck, []), 0, true));
    if s.isInitiator then s.send == first && s.recv == second else s.send == second && s.recv == first
  }

  lemma FinishSplits(s: N.State)
    ensures SplitAs(N.Finish(s), SymOf(s.sym)) && PartyOf(N.Finish(s)) == PartyOf(s) && N.Finish(s).complete
  {
  }

  /**
   * Message 2 is read and message 3 written as XX says: it succeeds exactly if the pattern does and the payload names
   * and proves its sender, and it ends with the two transport keys.
   */
  lemma Message3IsPattern(s: N.State, msg2: seq<Octet>)
    requires s.isInitiator
    ensures var reply := N.ProcessMsg2(s, msg2);
      var read := ReadMessage(PartyOf(s), XX[1], msg2);
      if !Believed(read) then reply.r.Err?
      else
        var written := WriteMessage(read.value.0, XX[2], N.LocalPayload(s));
        && (reply.r.Ok? <==> written.Some?)
        && (reply.r.Ok? ==>
              && written == Some((PartyOf(reply.s), reply.r.value)) && SplitAs(reply.s, written.value.0.sym)
              && reply.s.complete)
  {
    ReadMsg2IsPattern(s, msg2);
    var r := N.ReadMsg2(s, msg2);
    if r.r.Ok? {
      NonceAfterReading(s, msg2);
      WriteAuthIsPattern(r.s);
      FinishSplits(N.WriteAuth(r.s).s);
    }
  }

  /** What reading leaves of a session: its role, its keys, its own payload. */
  predicate SameSide(s: N.State, r: N.State) {
    r.isInitiator == s.isInitiator && r.static_ == s.static_ && r.identity == s.identity
    && r.localMuxers == s.localMuxers
  }

  lemma NonceAfterStatic(s: N.State, encrypted: seq<Octet>)
    requires N.ReadStatic(s, encrypted).r.Ok?
    ensures var r := N.ReadStatic(s, encrypted).s;
      r.sym.cipher.nonce == 0 && r.sym.cipher.hasKey && SameSide(s, r)
  {
  }

  lemma NonceAfterIdentity(s: N.State, encrypted: seq<Octet>)
    requires s.sym.cipher.hasKey && s.sym.cipher.nonce == 0 && N.ReadIdentity(s, encrypted).r.Ok?
    ensures var r := N.ReadIdentity(s, encrypted).s;
      r.sym.cipher.nonce == 1 && SameSide(s, r)
  {
  }

  lemma NonceAfterReading(s: N.State, msg2: seq<Octet>)
    requires N.ReadMsg2(s, msg2).r.Ok?
    ensures var r := N.ReadMsg2(s, msg2).s;
      r.sym.cipher.nonce == 1 && SameSide(s, r)
  {
    var s1 := N.TakeRemoteEphemeral(s, msg2[..32]);
    var s2 := s1.(sym := N.MixDh(s1.sym, s1.ephemeral.secret, s1.remoteEphemeral).value);
    var encrypted, rest := msg2[32..][..N.ENCRYPTED_STATIC], msg2[32..][N.ENCRYPTED_STATIC..];
    NonceAfterStatic(s2, encrypted);
    NonceAfterIdentity(N.ReadStatic(s2, encrypted).s, rest);
  }

  /** Message 3 is read as XX says, and the handshake then ends with the same two keys, the other way round. */
  lemma HandshakeEndsAsPattern(s: N.State, msg3: seq<Octet>)
    requires !s.isInitiator && s.sym.cipher.hasKey && s.sym.cipher.nonce < U64_MAX
    ensures var reply := N.ProcessMsg3(s, msg3);
      var read := ReadMessage(PartyOf(s), XX[2], msg3);
      && (reply.r.Ok? <==> Believed(read))
      && (reply.r.Ok? ==> Became(reply.s, read) && SplitAs(reply.s, read.value.0.sym) && reply.s.complete)
  {
    if |msg3| >= N.ENCRYPTED_STATIC {
      ReadAuthIsPattern(s, msg3);
      FinishSplits(N.ReadAuth(s, msg3).s);
    } else {
      TooShortForStatic(PartyOf(s), SE, msg3);
    }
  }
}
