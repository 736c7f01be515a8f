/** The protobuf payload that carries an identity and the muxer list inside a Noise handshake message. */
module NoisePayload {
  import opened Bytes
  import opened Octets
  import Varint

  datatype Error =
    | InvalidVarint | IncompleteVarint
    | UnsupportedPublicKey | InvalidPublicKey
    | UnsupportedExtension | InvalidExtension
    | InvalidPayload | MissingIdentity | BadSignature
    | MessageTooShort | StaticNotDecrypted | PayloadNotDecrypted | CiphertextTooShort | NotAuthentic
    | BadStaticKey | SharedSecretFailed | NoKey | NonceExhausted
    | FrameTooLarge | FrameIncomplete | FrameLength

  const KEY_TYPE_ED25519: U64 := 1

  /** "noise-libp2p-static-key:" */
  const SIGNATURE_PREFIX: seq<Byte> :=
    [110, 111, 105, 115, 101, 45, 108, 105, 98, 112, 50, 112, 45, 115, 116, 97, 116, 105, 99, 45, 107, 101, 121, 58]

  datatype Payload = Payload(identityKey: seq<Octet>, signature: seq<Octet>, muxers: seq<seq<Octet>>)

  const NO_PAYLOAD := Payload([], [], [])

  /** A length that a 64-bit size can hold. */
  predicate Fits(s: seq<Octet>) { |s| <= U64_MAX }

  function Size(s: seq<Octet>): U64 { |s| % 0x1_0000_0000_0000_0000 }

  // ---------- writing ----------

  function VarintField(number: nat, value: U64): seq<Octet>
    requires number < 0x1000_0000
  {
    Lits(Varint.Encode(number * 8) + Varint.Encode(value))
  }

  function BytesField(number: nat, value: seq<Octet>): (r: seq<Octet>)
    requires number < 0x1000_0000
    ensures r != []
  {
    Lits(Varint.Encode(number * 8 + 2) + Varint.Encode(Size(value))) + value
  }

  function PublicKeyMessage(key: seq<Octet>): seq<Octet> {
    VarintField(1, KEY_TYPE_ED25519) + BytesField(2, key)
  }

  function SignatureMessage(staticKey: seq<Octet>): seq<Octet> { Lits(SIGNATURE_PREFIX) + staticKey }

  function ExtensionsMessage(muxers: seq<seq<Octet>>): (r: seq<Octet>)
    ensures r == [] <==> muxers == []
  {
    if muxers == [] then [] else BytesField(2, muxers[0]) + ExtensionsMessage(muxers[1..])
  }

  /** The payload of an identity (its public key), signing this static key. */
  function HandshakeMessage(identity: seq<Octet>, staticKey: seq<Octet>, muxers: seq<seq<Octet>>): (r: seq<Octet>)
    ensures r != []
  {
    var extensions := ExtensionsMessage(muxers);
    BytesField(1, PublicKeyMessage(identity))
    + BytesField(2, Sign(identity, SignatureMessage(staticKey)))
    + if extensions == [] then [] else BytesField(4, extensions)
  }

  // ---------- reading ----------

  function ReadVarint(b: seq<Octet>): (r: Result<(U64, seq<Octet>), Error>)
    ensures r.Ok? ==> |r.value.1| < |b|
  {
    match Varint.Decode(Vals(b))
    case Done(v, k) => Ok((v, b[k..]))
    case Incomplete => Err(IncompleteVarint)
    case Invalid => Err(InvalidVarint)
  }

  /** The field number is cut to 32 bits. */
  function FieldNumber(key: U64): U32 { key / 8 % 0x1_0000_0000 }

  function WireType(key: U64): nat { key as int % 8 }

  /** A length-delimited field: its number, its content and what follows. */
  function ReadField(b: seq<Octet>, otherWire: Error, tooShort: Error)
    : (r: Result<(U32, seq<Octet>, seq<Octet>), Error>)
    ensures r.Ok? ==> |r.value.2| < |b|
  {
    match ReadVarint(b)
    case Err(e) => Err(e)
    case Ok((key, afterKey)) =>
      if WireType(key) != 2 then Err(otherWire)
      else
        match ReadVarint(afterKey)
        case Err(e) => Err(e)
        case Ok((size, rest)) =>
          if |rest| < size then Err(tooShort) else Ok((FieldNumber(key), rest[..size], rest[size..]))
  }

  function ParsePublicKey(b: seq<Octet>, keyType: Option<U64>, key: Option<seq<Octet>>): (r: Result<seq<Octet>, Error>)
    requires key.Some? ==> |key.value| == 32
    ensures r.Ok? ==> |r.value| == 32
    decreases |b|
  {
    if b == [] then
      if keyType == Some(KEY_TYPE_ED25519) && key.Some? then Ok(key.value) else Err(InvalidPublicKey)
    else
      match ReadVarint(b)
      case Err(e) => Err(e)
      case Ok((tag, afterTag)) =>
        if FieldNumber(tag) == 1 && WireType(tag) == 0 then
          match ReadVarint(afterTag)
          case Err(e) => Err(e)
          case Ok((value, rest)) => ParsePublicKey(rest, Some(value), key)
        else if FieldNumber(tag) == 2 && WireType(tag) == 2 then
          match ReadVarint(afterTag)
          case Err(e) => Err(e)
          case Ok((size, rest)) =>
            if |rest| < size || size != 32 then Err(InvalidPublicKey)
            else ParsePublicKey(rest[32..], keyType, Some(rest[..32]))
        else Err(UnsupportedPublicKey)
  }

  function ParseExtensions(b: seq<Octet>, muxers: seq<seq<Octet>>): Result<seq<seq<Octet>>, Error>
    decreases |b|
  {
    if b == [] then Ok(muxers)
    else
      match ReadField(b, UnsupportedExtension, InvalidExtension)
      case Err(e) => Err(e)
      case Ok((number, field, rest)) => ParseExtensions(rest, if number == 2 then muxers + [field] else muxers)
  }

  /** One field put into a payload; a later field of the same number replaces the earlier one. */
  function TakeField(payload: Payload, number: U32, field: seq<Octet>): Result<Payload, Error> {
    if number == 1 then Ok(payload.(identityKey := field))
    else if number == 2 then Ok(payload.(signature := field))
    else if number == 4 then
      match ParseExtensions(field, [])
      case Err(e) => Err(e)
      case Ok(muxers) => Ok(payload.(muxers := muxers))
    else Ok(payload)
  }

  function ParsePayload(b: seq<Octet>, payload: Payload): Result<Payload, Error>
    decreases |b|
  {
    if b == [] then
      if payload.identityKey == [] || payload.signature == [] then Err(MissingIdentity) else Ok(payload)
    else
      match ReadField(b, InvalidPayload, InvalidPayload)
      case Err(e) => Err(e)
      case Ok((number, field, rest)) =>
        match TakeField(payload, number, field)
        case Err(e) => Err(e)
        case Ok(next) => ParsePayload(rest, next)
  }

  /** The signer's public key, when the signature covers this static key. */
  function VerifyPayload(payload: Payload, staticKey: seq<Octet>): Result<seq<Octet>, Error> {
    match ParsePublicKey(payload.identityKey, None, None)
    case Err(e) => Err(e)
    case Ok(signer) =>
      if Verifies(payload.signature, SignatureMessage(staticKey), signer) then Ok(signer) else Err(BadSignature)
  }

  datatype Remote = Remote(peer: Option<seq<Octet>>, muxers: seq<seq<Octet>>)

  /** Who sent a handshake payload: nobody in particular when it is empty. */
  function VerifyRemote(b: seq<Octet>, staticKey: seq<Octet>): Result<Remote, Error> {
    if b == [] then Ok(Remote(None, []))
    else
      match ParsePayload(b, NO_PAYLOAD)
      case Err(e) => Err(e)
      case Ok(payload) =>
        match VerifyPayload(payload, staticKey)
        case Err(e) => Err(e)
        case Ok(signer) => Ok(Remote(Some(signer), payload.muxers))
  }

  // ---------- reading undoes writing ----------

  lemma ReadVarintOfEncoding(v: U64, rest: seq<Octet>)
    ensures ReadVarint(Lits(Varint.Encode(v)) + rest) == Ok((v, rest))
  {
    ValsConcat(Lits(Varint.Encode(v)), rest);
    ValsOfLits(Varint.Encode(v));
    Varint.RoundTrip(v, Vals(rest));
  }

  lemma BytesFieldShape(number: nat, value: seq<Octet>, rest: seq<Octet>)
    requires number < 0x1000_0000
    ensures BytesField(number, value) + rest
      == Lits(Varint.Encode(number * 8 + 2)) + (Lits(Varint.Encode(Size(value))) + (value + rest))
  {
    var key, size := Varint.Encode(number * 8 + 2), Varint.Encode(Size(value));
    LitsConcat(key, size);
    Assoc(Lits(key) + Lits(size), value, rest);
    Assoc(Lits(key), Lits(size), value + rest);
  }

  lemma TagParts(number: nat)
    requires number < 0x1000_0000
    ensures FieldNumber(number * 8 + 2) == number && WireType(number * 8 + 2) == 2
  {
  }

  lemma ReadFieldWhen(b: seq<Octet>, key: U64, size: U64, afterKey: seq<Octet>, tail: seq<Octet>, otherWire: Error,
                      tooShort: Error)
    requires ReadVarint(b) == Ok((key, afterKey)) && WireType(key) == 2
    requires ReadVarint(afterKey) == Ok((size, tail)) && size <= |tail|
    ensures ReadField(b, otherWire, tooShort) == Ok((FieldNumber(key), tail[..size], tail[size..]))
  {
  }

  lemma ReadFieldOfBytes(number: nat, value: seq<Octet>, rest: seq<Octet>, otherWire: Error, tooShort: Error)
    requires number < 0x1000_0000 && Fits(value)
    ensures ReadField(BytesField(number, value) + rest, otherWire, tooShort) == Ok((number, value, rest))
  {
    var tail, size: U64 := value + rest, |value|;
    var afterKey := Lits(Varint.Encode(size)) + tail;
    BytesFieldShape(number, value, rest);
    ReadVarintOfEncoding(number * 8 + 2, afterKey);
    ReadVarintOfEncoding(size, tail);
    TagParts(number);
    ReadFieldWhen(BytesField(number, value) + rest, number * 8 + 2, size, afterKey, tail, otherWire, tooShort);
    assert tail[..|value|] == value && tail[|value|..] == rest;
  }

  lemma KeyTypeField(rest: seq<Octet>)
    ensures ParsePublicKey(VarintField(1, KEY_TYPE_ED25519) + rest, None, None)
      == ParsePublicKey(rest, Some(KEY_TYPE_ED25519), None)
  {
    var tag, value := Varint.Encode(8), Varint.Encode(KEY_TYPE_ED25519);
    LitsConcat(tag, value);
    Assoc(Lits(tag), Lits(value), rest);
    ReadVarintOfEncoding(8, Lits(value) + rest);
    ReadVarintOfEncoding(KEY_TYPE_ED25519, rest);
    assert FieldNumber(8) == 1 && WireType(8) == 0;
  }

  lemma KeyField(key: seq<Octet>, keyType: U64)
    requires |key| == 32
    ensures ParsePublicKey(BytesField(2, key), Some(keyType), None) == ParsePublicKey([], Some(keyType), Some(key))
  {
    var b := BytesField(2, key);
    assert ReadVarint(b) == Ok((18, Lits(Varint.Encode(32)) + key)) by {
      BytesFieldShape(2, key, []);
      assert b + [] == b && key + [] == key;
      ReadVarintOfEncoding(18, Lits(Varint.Encode(32)) + key);
    }
    ReadVarintOfEncoding(32, key);
    assert FieldNumber(18) == 2 && WireType(18) == 2;
    assert key[..32] == key && key[32..] == [];
  }

  lemma PublicKeyRoundTrip(key: seq<Octet>)
    requires |key| == 32
    ensures ParsePublicKey(PublicKeyMessage(key), None, None) == Ok(key)
  {
    KeyTypeField(BytesField(2, key));
    KeyField(key, KEY_TYPE_ED25519);
  }

  lemma ExtensionStep(muxer: seq<Octet>, rest: seq<Octet>, before: seq<seq<Octet>>)
    requires Fits(muxer)
    ensures ParseExtensions(BytesField(2, muxer) + rest, before) == ParseExtensions(rest, before + [muxer])
  {
    ReadFieldOfBytes(2, muxer, rest, UnsupportedExtension, InvalidExtension);
  }

  /** Any list of names comes back in order, also none and empty names. */
  lemma {:induction false} ExtensionsRoundTrip(muxers: seq<seq<Octet>>, before: seq<seq<Octet>>)
    requires forall m :: m in muxers ==> Fits(m)
    ensures ParseExtensions(ExtensionsMessage(muxers), before) == Ok(before + muxers)
  {
    if muxers == [] {
      assert before + muxers == before;
    } else {
      ExtensionStep(muxers[0], ExtensionsMessage(muxers[1..]), before);
      ExtensionsRoundTrip(muxers[1..], before + [muxers[0]]);
      Assoc(before, [muxers[0]], muxers[1..]);
      assert [muxers[0]] + muxers[1..] == muxers;
    }
  }

  /** All lengths of a payload with these muxers fit in 64 bits. */
  predicate MuxersFit(muxers: seq<seq<Octet>>) {
    (forall m :: m in muxers ==> Fits(m)) && Fits(ExtensionsMessage(muxers))
  }

  lemma {:induction false} EncodingIsShort(v: U64)
    ensures v < 0x80 ==> |Varint.Encode(v)| == 1
  {
  }

  lemma PublicKeyMessageFits(key: seq<Octet>)
    requires |key| == 32
    ensures Fits(PublicKeyMessage(key)) && PublicKeyMessage(key) != []
  {
    EncodingIsShort(8);
    EncodingIsShort(1);
    EncodingIsShort(18);
    EncodingIsShort(32);
  }

  lemma PayloadRoundTrip(identity: seq<Octet>, staticKey: seq<Octet>, muxers: seq<seq<Octet>>)
    requires |identity| == 32 && MuxersFit(muxers)
    ensures ParsePayload(HandshakeMessage(identity, staticKey, muxers), NO_PAYLOAD)
      == Ok(Payload(PublicKeyMessage(identity), Sign(identity, SignatureMessage(staticKey)), muxers))
  {
    var key, signature := PublicKeyMessage(identity), Sign(identity, SignatureMessage(staticKey));
    var extensions := ExtensionsMessage(muxers);
    var last := if extensions == [] then [] else BytesField(4, extensions);
    PublicKeyMessageFits(identity);
    assert HandshakeMessage(identity, staticKey, muxers) == BytesField(1, key) + (BytesField(2, signature) + last);
    ReadFieldOfBytes(1, key, BytesField(2, signature) + last, InvalidPayload, InvalidPayload);
    ReadFieldOfBytes(2, signature, last, InvalidPayload, InvalidPayload);
    LastField(Payload(key, signature, []), muxers);
  }

  lemma LastField(payload: Payload, muxers: seq<seq<Octet>>)
    requires MuxersFit(muxers) && payload.muxers == [] && payload.identityKey != [] && payload.signature != []
    ensures var extensions := ExtensionsMessage(muxers);
      ParsePayload(if extensions == [] then [] else BytesField(4, extensions), payload)
        == Ok(payload.(muxers := muxers))
  {
    if muxers != [] {
      var extensions := ExtensionsMessage(muxers);
      ReadFieldOfBytes(4, extensions, [], InvalidPayload, InvalidPayload);
      assert BytesField(4, extensions) + [] == BytesField(4, extensions);
      ExtensionsRoundTrip(muxers, []);
      assert [] + muxers == muxers;
    }
  }

  /** What one side says of itself is what the other side believes. */
  lemma IdentityRoundTrip(identity: seq<Octet>, staticKey: seq<Octet>, muxers: seq<seq<Octet>>)
    requires |identity| == 32 && MuxersFit(muxers)
    ensures VerifyRemote(HandshakeMessage(identity, staticKey, muxers), staticKey) == Ok(Remote(Some(identity), muxers))
  {
    PayloadRoundTrip(identity, staticKey, muxers);
    PublicKeyRoundTrip(identity);
    var signature := Sign(identity, SignatureMessage(staticKey));
    assert signature[..SIGNATURE] == signature;
  }

  /** An accepted peer has signed the static key it is accepted with, and no other. */
  lemma AcceptedPeerSigned(b: seq<Octet>, staticKey: seq<Octet>, other: seq<Octet>)
    requires VerifyRemote(b, staticKey).Ok? && VerifyRemote(b, staticKey).value.peer.Some?
    ensures var signer := VerifyRemote(b, staticKey).value.peer.value;
      && ParsePayload(b, NO_PAYLOAD).Ok?
      && ParsePayload(b, NO_PAYLOAD).value.signature[..SIGNATURE] == Sign(signer, SignatureMessage(staticKey))
    ensures VerifyRemote(b, other).Ok? ==> other == staticKey
  {
    var signer := VerifyRemote(b, staticKey).value.peer.value;
    if VerifyRemote(b, other).Ok? {
      var m, m' := SignatureMessage(staticKey), SignatureMessage(other);
      assert Sign(signer, m)[0] == SignOut(signer, m, 0) && Sign(signer, m')[0] == SignOut(signer, m', 0);
      assert staticKey == m[24..] && other == m'[24..];
    }
  }

  // ---------- the loops ----------

  method ParsePublicKeyLoop(bytes: seq<Octet>) returns (r: Result<seq<Octet>, Error>)
    ensures r == ParsePublicKey(bytes, None, None)
  {
    var b := bytes;
    var keyType: Option<U64>, key: Option<seq<Octet>> := None, None;
    while b != []
      invariant key.Some? ==> |key.value| == 32
      invariant ParsePublicKey(bytes, None, None) == ParsePublicKey(b, keyType, key)
      decreases |b|
    {
      var tag := ReadVarint(b);
      if tag.Err? { return Err(tag.error); }
      b := tag.value.1;
      if FieldNumber(tag.value.0) == 1 && WireType(tag.value.0) == 0 {
        var value := ReadVarint(b);
        if value.Err? { return Err(value.error); }
        keyType, b := Some(value.value.0), value.value.1;
      } else if FieldNumber(tag.value.0) == 2 && WireType(tag.value.0) == 2 {
        var size := ReadVarint(b);
        if size.Err? { return Err(size.error); }
        b := size.value.1;
        if |b| < size.value.0 || size.value.0 != 32 { return Err(InvalidPublicKey); }
        key, b := Some(b[..32]), b[32..];
      } else {
        return Err(UnsupportedPublicKey);
      }
    }
    if keyType != Some(KEY_TYPE_ED25519) || key.None? { return Err(InvalidPublicKey); }
    r := Ok(key.value);
  }

  method ParseExtensionsLoop(bytes: seq<Octet>) returns (r: Result<seq<seq<Octet>>, Error>)
    ensures r == ParseExtensions(bytes, [])
  {
    var b, muxers := bytes, [];
    while b != []
      invariant ParseExtensions(bytes, []) == ParseExtensions(b, muxers)
      decreases |b|
    {
      var field := ReadField(b, UnsupportedExtension, InvalidExtension);
      if field.Err? { return Err(field.error); }
      if field.value.0 == 2 { muxers := muxers + [field.value.1]; }
      b := field.value.2;
    }
    r := Ok(muxers);
  }

  method ParsePayloadLoop(bytes: seq<Octet>) returns (r: Result<Payload, Error>)
    ensures r == ParsePayload(bytes, NO_PAYLOAD)
  {
    var b, out := bytes, NO_PAYLOAD;
    while b != []
      invariant ParsePayload(bytes, NO_PAYLOAD) == ParsePayload(b, out)
      decreases |b|
    {
      var field := ReadField(b, InvalidPayload, InvalidPayload);
      if field.Err? { return Err(field.error); }
      var number, content := field.value.0, field.value.1;
      b := field.value.2;
      match number {
        case 1 => out := out.(identityKey := content);
        case 2 => out := out.(signature := content);
        case 4 =>
          var muxers := ParseExtensionsLoop(content);
          if muxers.Err? { return Err(muxers.error); }
          out := out.(muxers := muxers.value);
        case _ =>
      }
    }
    if out.identityKey == [] || out.signature == [] { return Err(MissingIdentity); }
    r := Ok(out);
  }

  method WriteExtensions(muxers: seq<seq<Octet>>) returns (out: seq<Octet>)
    ensures out == ExtensionsMessage(muxers)
  {
    out := [];
    for i := 0 to |muxers|
      invariant out + ExtensionsMessage(muxers[i..]) == ExtensionsMessage(muxers)
    {
      Assoc(out, BytesField(2, muxers[i]), ExtensionsMessage(muxers[i..][1..]));
      assert muxers[i..][1..] == muxers[i + 1..];
      out := out + BytesField(2, muxers[i]);
    }
  }
}
