/**
 * The Noise XX handshake (Noise Protocol Framework, sections 5.1 to 5.3 and 7.5): what each message function does
 * to a session.
 */
module Noise {
  import opened Bytes
  import opened Octets
  import opened NoisePayload

  type Key = k: seq<Octet> | |k| == 32 witness seq(32, _ => Lit(0))

  function ZeroKey(): Key { seq(32, _ => Lit(0)) }

  datatype Keypair = Keypair(public: Key, secret: Secret)

  predicate ValidKeypair(k: Keypair) { k.public == Public(k.secret) }

  datatype Cipher = Cipher(key: Key, nonce: U64, hasKey: bool)

  function NoCipher(): Cipher { Cipher(ZeroKey(), 0, false) }

  /** One use of the authenticated cipher. */
  datatype Call = Call(key: Key, nonce: U64)

  // ---------- the symmetric state ----------

  /** `calls` is the history of cipher uses since the handshake began. */
  datatype Symmetric = Symmetric(chainingKey: Key, hash: Key, cipher: Cipher, calls: seq<Call>)

  /** "Noise_XX_25519_ChaChaPoly_SHA256", which is exactly 32 bytes long. */
  const PROTOCOL_NAME: seq<Byte> :=
    [78, 111, 105, 115, 101, 95, 88, 88, 95, 50, 53, 53, 49, 57, 95, 67,
     104, 97, 67, 104, 97, 80, 111, 108, 121, 95, 83, 72, 65, 50, 53, 54]

  function MixHash(s: Symmetric, data: seq<Octet>): Symmetric { s.(hash := Hash(s.hash + data)) }

  /** The name fits a hash exactly, so it is not hashed. */
  function NameKey(): Key { Lits(PROTOCOL_NAME) }

  function InitialSymmetric(): Symmetric {
    MixHash(Symmetric(NameKey(), NameKey(), NoCipher(), []), [])
  }

  function MixKey(s: Symmetric, material: seq<Octet>): Symmetric {
    var derived := Hkdf2(s.chainingKey, material);
    s.(chainingKey := derived.0, cipher := Cipher(derived.1, 0, true))
  }

  /** Nothing when the key agreement fails. */
  function MixDh(s: Symmetric, secret: Secret, point: Key): Option<Symmetric> {
    match SharedSecret(secret, point)
    case None => None
    case Some(shared) => Some(MixKey(s, shared))
  }

  function NextNonce(nonce: U64): U64 { (nonce as int + 1) % 0x1_0000_0000_0000_0000 }

  function Used(s: Symmetric): Symmetric { s.(calls := s.calls + [Call(s.cipher.key, s.cipher.nonce)]) }

  function Stepped(s: Symmetric, data: seq<Octet>): Symmetric {
    MixHash(Used(s).(cipher := s.cipher.(nonce := NextNonce(s.cipher.nonce))), data)
  }

  /** The new state, and what goes on the wire. */
  function EncryptAndHash(s: Symmetric, plain: seq<Octet>): (Symmetric, seq<Octet>) {
    if !s.cipher.hasKey then (MixHash(s, plain), plain)
    else
      var cipher := Seal(s.cipher.key, s.cipher.nonce, s.hash, plain);
      (Stepped(s, cipher), cipher)
  }

  function DecryptAndHash(s: Symmetric, cipher: seq<Octet>): (Symmetric, Result<seq<Octet>, Error>) {
    if !s.cipher.hasKey then (MixHash(s, cipher), Ok(cipher))
    else if |cipher| < TAG then (s, Err(CiphertextTooShort))
    else
      match Unseal(s.cipher.key, s.cipher.nonce, s.hash, cipher)
      case None => (Used(s), Err(NotAuthentic))
      case Some(plain) => (Stepped(s, cipher), Ok(plain))
  }

  // ---------- the session ----------

  datatype State = State(
    isInitiator: bool,
    identity: Option<Key>, localMuxers: seq<seq<Octet>>,
    remotePeer: Option<seq<Octet>>, remoteMuxers: seq<seq<Octet>>,
    ephemeral: Keypair, static_: Keypair,
    configuredEphemeral: Option<Keypair>, configuredStatic: Option<Keypair>,
    remoteEphemeral: Key, hasRemoteEphemeral: bool, remoteStatic: Key, hasRemoteStatic: bool,
    sym: Symmetric, send: Cipher, recv: Cipher, complete: bool)

  datatype Reply<T> = Reply(s: State, r: Result<T, Error>)

  function Initialize(s: State): State {
    s.(remotePeer := None, remoteMuxers := [], complete := false, hasRemoteEphemeral := false,
       hasRemoteStatic := false, sym := InitialSymmetric(), send := NoCipher(), recv := NoCipher())
  }

  /** A configured key pair is used once; otherwise a generated one is taken. */
  function Taken(configured: Option<Keypair>, generated: Keypair): Keypair {
    if configured.Some? then configured.value else generated
  }

  /** The two key pairs that a random generator offers to a session. */
  datatype Generated = Generated(ephemeral: Keypair, static_: Keypair)

  function TakeKeys(s: State, g: Generated): State {
    s.(ephemeral := Taken(s.configuredEphemeral, g.ephemeral), configuredEphemeral := None,
       static_ := Taken(s.configuredStatic, g.static_), configuredStatic := None)
  }

  function LocalPayload(s: State): seq<Octet> {
    match s.identity
    case None => []
    case Some(identity) => HandshakeMessage(identity, s.static_.public, s.localMuxers)
  }

  function TakeRemoteEphemeral(s: State, point: Key): State {
    s.(remoteEphemeral := point, hasRemoteEphemeral := true, sym := MixHash(s.sym, point))
  }

  /** Own static key, then the key agreement of it with the peer's ephemeral key, then the payload. */
  function WriteAuth(s: State): Reply<seq<Octet>> {
    var point := EncryptAndHash(s.sym, s.static_.public);
    match MixDh(point.0, s.static_.secret, s.remoteEphemeral)
    case None => Reply(s.(sym := point.0), Err(SharedSecretFailed))
    case Some(mixed) =>
      var payload := EncryptAndHash(mixed, LocalPayload(s));
      Reply(s.(sym := payload.0), Ok(point.1 + payload.1))
  }

  const ENCRYPTED_STATIC: nat := 32 + TAG

  function ReadStatic(s: State, encrypted: seq<Octet>): Reply<()> {
    match DecryptAndHash(s.sym, encrypted)
    case (s1, Err(_)) => Reply(s.(sym := s1), Err(StaticNotDecrypted))
    case (s1, Ok(point)) =>
      if |point| != 32 then Reply(s.(sym := s1), Err(BadStaticKey))
      else
        var s' := s.(sym := s1, remoteStatic := point, hasRemoteStatic := true);
        match MixDh(s1, s.ephemeral.secret, point)
        case None => Reply(s', Err(SharedSecretFailed))
        case Some(s2) => Reply(s'.(sym := s2), Ok(()))
  }

  function ReadIdentity(s: State, encrypted: seq<Octet>): Reply<()> {
    match DecryptAndHash(s.sym, encrypted)
    case (s1, Err(_)) => Reply(s.(sym := s1), Err(PayloadNotDecrypted))
    case (s1, Ok(payload)) =>
      match VerifyRemote(payload, s.remoteStatic)
      case Err(e) => Reply(s.(sym := s1), Err(e))
      case Ok(remote) => Reply(s.(sym := s1, remotePeer := remote.peer, remoteMuxers := remote.muxers), Ok(()))
  }

  /** The mirror image of WriteAuth. */
  function ReadAuth(s: State, message: seq<Octet>): Reply<()>
    requires |message| >= ENCRYPTED_STATIC
  {
    var r := ReadStatic(s, message[..ENCRYPTED_STATIC]);
    if r.r.Err? then r else ReadIdentity(r.s, message[ENCRYPTED_STATIC..])
  }

  function Split(s: State): State {
    var derived := Hkdf2(s.sym.chainingKey, []);
    var mine := if s.isInitiator then derived.0 else derived.1;
    var theirs := if s.isInitiator then derived.1 else derived.0;
    s.(send := Cipher(mine, 0, true), recv := Cipher(theirs, 0, true))
  }

  /** The last thing that both sides do. */
  function Finish(s: State): State { Split(s).(complete := true) }

  // ---------- the four message functions ----------

  function WriteMsg1(s: State, g: Generated): (State, seq<Octet>) {
    var s1 := TakeKeys(Initialize(s.(isInitiator := true)), g);
    var payload := EncryptAndHash(MixHash(s1.sym, s1.ephemeral.public), []);
    (s1.(sym := payload.0), s1.ephemeral.public + payload.1)
  }

  function ProcessMsg1(s: State, msg1: seq<Octet>, g: Generated): Reply<seq<Octet>> {
    if |msg1| < 32 then Reply(s, Err(MessageTooShort))
    else
      var s1 := TakeRemoteEphemeral(Initialize(s.(isInitiator := false)), msg1[..32]);
      var payload := DecryptAndHash(s1.sym, msg1[32..]);
      if payload.1.Err? then Reply(s1.(sym := payload.0), Err(PayloadNotDecrypted))
      else
        var s2 := TakeKeys(s1.(sym := payload.0), g);
        var mixed := MixHash(s2.sym, s2.ephemeral.public);
        match MixDh(mixed, s2.ephemeral.secret, s2.remoteEphemeral)
        case None => Reply(s2.(sym := mixed), Err(SharedSecretFailed))
        case Some(ee) =>
          match WriteAuth(s2.(sym := ee))
          case Reply(s3, Err(e)) => Reply(s3, Err(e))
          case Reply(s3, Ok(auth)) => Reply(s3, Ok(s2.ephemeral.public + auth))
  }

  /** Reading message 2 up to the point where the responder is authenticated. */
  function ReadMsg2(s: State, msg2: seq<Octet>): Reply<()> {
    if |msg2| < 32 + ENCRYPTED_STATIC then Reply(s, Err(MessageTooShort))
    else
      var s1 := TakeRemoteEphemeral(s, msg2[..32]);
      match MixDh(s1.sym, s1.ephemeral.secret, s1.remoteEphemeral)
      case None => Reply(s1, Err(SharedSecretFailed))
      case Some(ee) => ReadAuth(s1.(sym := ee), msg2[32..])
  }

  function ProcessMsg2(s: State, msg2: seq<Octet>): Reply<seq<Octet>> {
    match ReadMsg2(s, msg2)
    case Reply(s1, Err(e)) => Reply(s1, Err(e))
    case Reply(s1, Ok(_)) =>
      match WriteAuth(s1)
      case Reply(s2, Err(e)) => Reply(s2, Err(e))
      case Reply(s2, Ok(msg3)) => Reply(Finish(s2), Ok(msg3))
  }

  function ProcessMsg3(s: State, msg3: seq<Octet>): Reply<()> {
    if |msg3| < ENCRYPTED_STATIC then Reply(s, Err(MessageTooShort))
    else
      match ReadAuth(s, msg3)
      case Reply(s1, Err(e)) => Reply(s1, Err(e))
      case Reply(s1, Ok(_)) => Reply(Finish(s1), Ok(()))
  }
}
