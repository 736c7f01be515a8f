/**
 * The mutable handshake session: every method brings the fields to the state that the corresponding function of
 * module Noise names.
 */
module NoiseSessions {
  import opened Bytes
  import opened Octets
  import opened NoisePayload
  import opened Noise

  class NoiseSession {
    var isInitiator: bool
    var localIdentity: Option<Key>
    var remotePeerId: Option<seq<Octet>>
    var localMuxers: seq<seq<Octet>>
    var remoteMuxers: seq<seq<Octet>>
    var ephemeral: Keypair
    var staticKey: Keypair
    var configuredEphemeral: Option<Keypair>
    var configuredStatic: Option<Keypair>
    var remoteEphemeralPub: Key
    var hasRemoteEphemeral: bool
    var remoteStaticPub: Key
    var hasRemoteStatic: bool
    var chainingKey: Key
    var handshakeHash: Key
    var handshakeCipher: Cipher
    var send: Cipher
    var recv: Cipher
    var handshakeComplete: bool
    ghost var calls: seq<Call>

    ghost function Sym(): Symmetric
      reads this
    {
      Symmetric(chainingKey, handshakeHash, handshakeCipher, calls)
    }

    ghost function View(): State
      reads this
    {
      State(isInitiator, localIdentity, localMuxers, remotePeerId, remoteMuxers, ephemeral, staticKey,
            configuredEphemeral, configuredStatic, remoteEphemeralPub, hasRemoteEphemeral, remoteStaticPub,
            hasRemoteStatic, Sym(), send, recv, handshakeComplete)
    }

    constructor (identity: Option<Key>, muxers: seq<seq<Octet>>)
      ensures localIdentity == identity && localMuxers == muxers
      ensures !handshakeComplete && !send.hasKey && !recv.hasKey && remotePeerId == None && remoteMuxers == []
    {
      var blank := Keypair(ZeroKey(), 0);
      isInitiator, handshakeComplete := false, false;
      localIdentity, localMuxers := identity, muxers;
      remotePeerId, remoteMuxers := None, [];
      ephemeral, staticKey := blank, blank;
      configuredEphemeral, configuredStatic := None, None;
      remoteEphemeralPub, hasRemoteEphemeral := ZeroKey(), false;
      remoteStaticPub, hasRemoteStatic := ZeroKey(), false;
      chainingKey, handshakeHash, handshakeCipher := ZeroKey(), ZeroKey(), NoCipher();
      send, recv := NoCipher(), NoCipher();
      calls := [];
    }

    method MixHash(data: seq<Octet>)
      modifies this
      ensures View() == old(View()).(sym := Noise.MixHash(old(Sym()), data))
    {
      handshakeHash := Hash(handshakeHash + data);
    }

    method ResetSymmetric()
      modifies this
      ensures View() == old(View()).(sym := InitialSymmetric())
    {
      chainingKey, handshakeHash, handshakeCipher := NameKey(), NameKey(), NoCipher();
      calls := [];
      assert Sym() == Symmetric(NameKey(), NameKey(), NoCipher(), []);
      MixHash([]);
    }

    method InitializeSymmetric()
      modifies this
      ensures View() == Initialize(old(View()))
    {
      remotePeerId, remoteMuxers := None, [];
      handshakeComplete, hasRemoteEphemeral, hasRemoteStatic := false, false, false;
      send, recv := NoCipher(), NoCipher();
      ResetSymmetric();
    }

    method MixKey(material: seq<Octet>)
      modifies this
      ensures View() == old(View()).(sym := Noise.MixKey(old(Sym()), material))
    {
      var derived := Hkdf2(chainingKey, material);
      chainingKey := derived.0;
      handshakeCipher := Cipher(derived.1, 0, true);
    }

    method MixKeyDh(secret: Secret, point: Key) returns (ok: bool)
      modifies this
      ensures ok <==> MixDh(old(Sym()), secret, point).Some?
      ensures View() == if ok then old(View()).(sym := MixDh(old(Sym()), secret, point).value) else old(View())
    {
      var shared := SharedSecret(secret, point);
      if shared.None? { return false; }
      MixKey(shared.value);
      ok := true;
    }

    method EncryptAndHash(plain: seq<Octet>) returns (out: seq<Octet>)
      modifies this
      ensures View() == old(View()).(sym := Noise.EncryptAndHash(old(Sym()), plain).0)
      ensures out == Noise.EncryptAndHash(old(Sym()), plain).1
    {
      if !handshakeCipher.hasKey {
        MixHash(plain);
        return plain;
      }
      out := Seal(handshakeCipher.key, handshakeCipher.nonce, handshakeHash, plain);
      calls := calls + [Call(handshakeCipher.key, handshakeCipher.nonce)];
      handshakeCipher := handshakeCipher.(nonce := NextNonce(handshakeCipher.nonce));
      MixHash(out);
    }

    method DecryptAndHash(cipher: seq<Octet>) returns (r: Result<seq<Octet>, Error>)
      modifies this
      ensures View() == old(View()).(sym := Noise.DecryptAndHash(old(Sym()), cipher).0)
      ensures r == Noise.DecryptAndHash(old(Sym()), cipher).1
    {
      if !handshakeCipher.hasKey {
        MixHash(cipher);
        return Ok(cipher);
      }
      if |cipher| < TAG { return Err(CiphertextTooShort); }
      var plain := Unseal(handshakeCipher.key, handshakeCipher.nonce, handshakeHash, cipher);
      calls := calls + [Call(handshakeCipher.key, handshakeCipher.nonce)];
      if plain.None? { return Err(NotAuthentic); }
      handshakeCipher := handshakeCipher.(nonce := NextNonce(handshakeCipher.nonce));
      MixHash(cipher);
      r := Ok(plain.value);
    }

    method SplitTransport()
      modifies this
      ensures View() == Split(old(View()))
    {
      var derived := Hkdf2(chainingKey, []);
      if isInitiator {
        send, recv := Cipher(derived.0, 0, true), Cipher(derived.1, 0, true);
      } else {
        send, recv := Cipher(derived.1, 0, true), Cipher(derived.0, 0, true);
      }
    }

    method TakeKeypairs(g: Generated)
      modifies this
      ensures View() == TakeKeys(old(View()), g)
    {
      ephemeral, configuredEphemeral := Taken(configuredEphemeral, g.ephemeral), None;
      staticKey, configuredStatic := Taken(configuredStatic, g.static_), None;
    }

    method WriteAuth() returns (r: Result<seq<Octet>, Error>)
      modifies this
      ensures Reply(View(), r) == Noise.WriteAuth(old(View()))
    {
      var encryptedStatic := EncryptAndHash(staticKey.public);
      var ok := MixKeyDh(staticKey.secret, remoteEphemeralPub);
      if !ok { return Err(SharedSecretFailed); }
      var payload := if localIdentity.None? then []
        else HandshakeMessage(localIdentity.value, staticKey.public, localMuxers);
      assert payload == LocalPayload(old(View()));
      var encryptedPayload := EncryptAndHash(payload);
      r := Ok(encryptedStatic + encryptedPayload);
    }

    method ReadStatic(encrypted: seq<Octet>) returns (r: Result<(), Error>)
      modifies this
      ensures Reply(View(), r) == Noise.ReadStatic(old(View()), encrypted)
    {
      var point := DecryptAndHash(encrypted);
      if point.Err? { return Err(StaticNotDecrypted); }
      if |point.value| != 32 { return Err(BadStaticKey); }
      remoteStaticPub, hasRemoteStatic := point.value, true;
      var ok := MixKeyDh(ephemeral.secret, remoteStaticPub);
      r := if ok then Ok(()) else Err(SharedSecretFailed);
    }

    method ReadIdentity(encrypted: seq<Octet>) returns (r: Result<(), Error>)
      modifies this
      ensures Reply(View(), r) == Noise.ReadIdentity(old(View()), encrypted)
    {
      var payload := DecryptAndHash(encrypted);
      if payload.Err? { return Err(PayloadNotDecrypted); }
      var remote := VerifyRemote(payload.value, remoteStaticPub);
      if remote.Err? { return Err(remote.error); }
      remotePeerId, remoteMuxers := remote.value.peer, remote.value.muxers;
      r := Ok(());
    }

    method ReadAuth(message: seq<Octet>) returns (r: Result<(), Error>)
      requires |message| >= ENCRYPTED_STATIC
      modifies this
      ensures Reply(View(), r) == Noise.ReadAuth(old(View()), message)
    {
      r := ReadStatic(message[..ENCRYPTED_STATIC]);
      if r.Err? { return; }
      r := ReadIdentity(message[ENCRYPTED_STATIC..]);
    }

    method WriteMsg1(g: Generated) returns (msg1: seq<Octet>)
      modifies this
      ensures (View(), msg1) == Noise.WriteMsg1(old(View()), g)
    {
      isInitiator := true;
      InitializeSymmetric();
      TakeKeypairs(g);
      MixHash(ephemeral.public);
      var payload := EncryptAndHash([]);
      msg1 := ephemeral.public + payload;
    }

    method TakeEphemeral(point: Key)
      modifies this
      ensures View() == TakeRemoteEphemeral(old(View()), point)
    {
      remoteEphemeralPub, hasRemoteEphemeral := point, true;
      MixHash(point);
    }

    method ProcessMsg1(msg1: seq<Octet>, g: Generated) returns (r: Result<seq<Octet>, Error>)
      modifies this
      ensures Reply(View(), r) == Noise.ProcessMsg1(old(View()), msg1, g)
    {
      if |msg1| < 32 { return Err(MessageTooShort); }
      isInitiator := false;
      InitializeSymmetric();
      TakeEphemeral(msg1[..32]);
      var payload := DecryptAndHash(msg1[32..]);
      if payload.Err? { return Err(PayloadNotDecrypted); }
      TakeKeypairs(g);
      MixHash(ephemeral.public);
      var ok := MixKeyDh(ephemeral.secret, remoteEphemeralPub);
      if !ok { return Err(SharedSecretFailed); }
      ghost var point := ephemeral.public;
      var auth := WriteAuth();
      if auth.Err? { return Err(auth.error); }
      assert ephemeral.public == point;
      r := Ok(ephemeral.public + auth.value);
    }

    /** Message 2 up to the point where the responder is authenticated. */
    method ReadMsg2(msg2: seq<Octet>) returns (r: Result<(), Error>)
      modifies this
      ensures Reply(View(), r) == Noise.ReadMsg2(old(View()), msg2)
    {
      if |msg2| < 32 + ENCRYPTED_STATIC { return Err(MessageTooShort); }
      TakeEphemeral(msg2[..32]);
      var ok := MixKeyDh(ephemeral.secret, remoteEphemeralPub);
      if !ok { return Err(SharedSecretFailed); }
      r := ReadAuth(msg2[32..]);
    }

    method FinishHandshake()
      modifies this
      ensures View() == Finish(old(View()))
    {
      SplitTransport();
      handshakeComplete := true;
    }

    method ProcessMsg2(msg2: seq<Octet>) returns (r: Result<seq<Octet>, Error>)
      modifies this
      ensures Reply(View(), r) == Noise.ProcessMsg2(old(View()), msg2)
    {
      var read := ReadMsg2(msg2);
      if read.Err? { return Err(read.error); }
      r := WriteAuth();
      if r.Ok? { FinishHandshake(); }
    }

    method ProcessMsg3(msg3: seq<Octet>) returns (r: Result<(), Error>)
      modifies this
      ensures Reply(View(), r) == Noise.ProcessMsg3(old(View()), msg3)
    {
      if |msg3| < ENCRYPTED_STATIC { return Err(MessageTooShort); }
      r := ReadAuth(msg3);
      if r.Ok? { FinishHandshake(); }
    }
  }
}
