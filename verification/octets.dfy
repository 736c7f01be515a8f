/**
 * Octets with symbolic cryptography: an octet is a literal byte or one position of the output of a
 * primitive applied to its inputs. Outputs are free terms, so the laws below are theorems of the model.
 */
module Octets {
  import opened Bytes

  /** A private scalar, known by a label. */
  type Secret = nat

  datatype Octet =
    | Lit(v: Byte)
    | HashOut(data: seq<Octet>, i: nat)
    | HmacOut(macKey: seq<Octet>, data: seq<Octet>, i: nat)
    | PublicOut(secret: Secret, i: nat)
    | SharedOut(low: Secret, high: Secret, i: nat)
    | OpaqueShareOut(secret: Secret, point: seq<Octet>, i: nat)
    | SealOut(key: seq<Octet>, nonce: nat, ad: seq<Octet>, plain: seq<Octet>, i: nat)
    | SignOut(signer: seq<Octet>, data: seq<Octet>, i: nat)

  // ---------- octets and bytes ----------

  function Lits(b: seq<Byte>): (r: seq<Octet>)
    ensures |r| == |b|
  {
    seq(|b|, i requires 0 <= i < |b| => Lit(b[i]))
  }

  /** What a program reads when it does arithmetic on an octet; the value of a cryptographic output is not modelled. */
  function Val(o: Octet): Byte { if o.Lit? then o.v else 0 }

  function Vals(s: seq<Octet>): (r: seq<Byte>)
    ensures |r| == |s|
  {
    seq(|s|, i requires 0 <= i < |s| => Val(s[i]))
  }

  lemma ValsOfLits(b: seq<Byte>)
    ensures Vals(Lits(b)) == b
  {
  }

  lemma ValsConcat(a: seq<Octet>, b: seq<Octet>)
    ensures Vals(a + b) == Vals(a) + Vals(b)
  {
  }

  lemma LitsConcat(a: seq<Byte>, b: seq<Byte>)
    ensures Lits(a + b) == Lits(a) + Lits(b)
  {
  }

  lemma ValsSlice(s: seq<Octet>, from: nat, to: nat)
    requires from <= to <= |s|
    ensures Vals(s[from..to]) == Vals(s)[from..to]
  {
  }

  lemma LitsInjective(a: seq<Byte>, b: seq<Byte>)
    requires Lits(a) == Lits(b)
    ensures a == b
  {
    ValsOfLits(a);
    ValsOfLits(b);
  }

  // ---------- hashing ----------

  function Hash(data: seq<Octet>): (r: seq<Octet>)
    ensures |r| == 32
  {
    seq(32, i requires 0 <= i < 32 => HashOut(data, i))
  }

  lemma HashInjective(a: seq<Octet>, b: seq<Octet>)
    requires Hash(a) == Hash(b)
    ensures a == b
  {
    assert Hash(a)[0] == Hash(b)[0];
  }

  function Hmac(key: seq<Octet>, data: seq<Octet>): (r: seq<Octet>)
    ensures |r| == 32 && r[0] == HmacOut(key, data, 0)
  {
    seq(32, i requires 0 <= i < 32 => HmacOut(key, data, i))
  }

  /** HKDF with two outputs, section 4.3 of the Noise Protocol Framework. */
  function Hkdf2(chainingKey: seq<Octet>, material: seq<Octet>): (r: (seq<Octet>, seq<Octet>))
    ensures |r.0| == |r.1| == 32
  {
    var temp := Hmac(chainingKey, material);
    var first := Hmac(temp, [Lit(1)]);
    (first, Hmac(temp, first + [Lit(2)]))
  }

  /** How many keyed hashes lie under an octet. */
  function Depth(o: Octet): nat
    decreases o
  {
    match o
    case HmacOut(k, _, _) => 1 + (if k == [] then 0 else Depth(k[0]))
    case _ => 0
  }

  /** The depth of a key, that of its first octet. */
  function KeyDepth(key: seq<Octet>): nat { if key == [] then 0 else Depth(key[0]) }

  lemma HkdfGoesDeeper(chainingKey: seq<Octet>, material: seq<Octet>)
    ensures KeyDepth(Hkdf2(chainingKey, material).0) == KeyDepth(chainingKey) + 2
    ensures KeyDepth(Hkdf2(chainingKey, material).1) == KeyDepth(chainingKey) + 2
    ensures Hkdf2(chainingKey, material).0 != Hkdf2(chainingKey, material).1
  {
    var temp := Hmac(chainingKey, material);
    var first := Hmac(temp, [Lit(1)]);
    var second := Hmac(temp, first + [Lit(2)]);
    assert Depth(temp[0]) == 1 + KeyDepth(chainingKey);
    assert Depth(first[0]) == 1 + Depth(temp[0]) == Depth(second[0]);
    assert |[Lit(1)]| == 1 && |first + [Lit(2)]| == 33;
  }

  // ---------- Diffie-Hellman ----------

  function Public(secret: Secret): (r: seq<Octet>)
    ensures |r| == 32 && r[0] == PublicOut(secret, 0)
  {
    seq(32, i requires 0 <= i < 32 => PublicOut(secret, i))
  }

  predicate IsPublic(point: seq<Octet>) {
    point != [] && point[0].PublicOut? && point == Public(point[0].secret)
  }

  function Shared(low: Secret, high: Secret): (r: seq<Octet>)
    ensures |r| == 32
  {
    seq(32, i requires 0 <= i < 32 => SharedOut(low, high, i))
  }

  function OpaqueShare(secret: Secret, point: seq<Octet>): (r: seq<Octet>)
    ensures |r| == 32
  {
    seq(32, i requires 0 <= i < 32 => OpaqueShareOut(secret, point, i))
  }

  /** Fails on the all-zero point; commutes on points that somebody's scalar made. */
  function SharedSecret(secret: Secret, point: seq<Octet>): (r: Option<seq<Octet>>)
    ensures r.Some? ==> |r.value| == 32
  {
    if IsPublic(point) then
      Some(Shared(Min(secret, point[0].secret), Max(secret, point[0].secret)))
    else if point == seq(32, _ => Lit(0)) then None
    else Some(OpaqueShare(secret, point))
  }

  lemma SharedSecretCommutes(a: Secret, b: Secret)
    ensures SharedSecret(a, Public(b)) == SharedSecret(b, Public(a)) && SharedSecret(a, Public(b)).Some?
  {
  }

  /** The same secret is shared by no other pair of scalars. */
  lemma SharedSecretIsPrivate(a: Secret, b: Secret, c: Secret, d: Secret)
    requires SharedSecret(a, Public(b)) == SharedSecret(c, Public(d))
    ensures {a, b} == {c, d}
  {
    assert Shared(Min(a, b), Max(a, b))[0] == Shared(Min(c, d), Max(c, d))[0];
    assert {Min(a, b), Max(a, b)} == {a, b} && {Min(c, d), Max(c, d)} == {c, d};
  }

  /** Only the all-zero point is refused. */
  lemma ZeroIsRefused(secret: Secret, point: seq<Octet>)
    ensures SharedSecret(secret, point).None? <==> point == seq(32, _ => Lit(0))
  {
    if IsPublic(point) { assert point[0] != Lit(0) && point[0] == Public(point[0].secret)[0]; }
  }

  // ---------- authenticated encryption ----------

  const TAG: nat := 16

  function Seal(key: seq<Octet>, nonce: nat, ad: seq<Octet>, plain: seq<Octet>): (r: seq<Octet>)
    ensures |r| == |plain| + TAG && r[0] == SealOut(key, nonce, ad, plain, 0)
  {
    seq(|plain| + TAG, i requires 0 <= i < |plain| + TAG => SealOut(key, nonce, ad, plain, i))
  }

  /** Opens exactly what was sealed under this key, nonce and associated data. */
  function Unseal(key: seq<Octet>, nonce: nat, ad: seq<Octet>, cipher: seq<Octet>): (r: Option<seq<Octet>>)
    ensures r.Some? ==> cipher == Seal(key, nonce, ad, r.value)
  {
    if |cipher| >= TAG && cipher[0].SealOut? && cipher == Seal(key, nonce, ad, cipher[0].plain)
    then Some(cipher[0].plain)
    else None
  }

  lemma UnsealInvertsSeal(key: seq<Octet>, nonce: nat, ad: seq<Octet>, plain: seq<Octet>)
    ensures Unseal(key, nonce, ad, Seal(key, nonce, ad, plain)) == Some(plain)
  {
    var cipher := Seal(key, nonce, ad, plain);
    assert cipher[0] == SealOut(key, nonce, ad, plain, 0);
  }

  lemma SealInjective(key: seq<Octet>, nonce: nat, ad: seq<Octet>, plain: seq<Octet>,
                      key': seq<Octet>, nonce': nat, ad': seq<Octet>, plain': seq<Octet>)
    requires Seal(key, nonce, ad, plain) == Seal(key', nonce', ad', plain')
    ensures key == key' && nonce == nonce' && ad == ad' && plain == plain'
  {
    assert Seal(key, nonce, ad, plain)[0] == Seal(key', nonce', ad', plain')[0];
  }

  // ---------- signatures ----------

  const SIGNATURE: nat := 64

  function Sign(signer: seq<Octet>, data: seq<Octet>): (r: seq<Octet>)
    ensures |r| == SIGNATURE
  {
    seq(SIGNATURE, i requires 0 <= i < SIGNATURE => SignOut(signer, data, i))
  }

  /** The verifier looks at the first 64 octets. */
  predicate Verifies(signature: seq<Octet>, data: seq<Octet>, signer: seq<Octet>) {
    |signature| >= SIGNATURE && signature[..SIGNATURE] == Sign(signer, data)
  }

  /** A signature names its signer and everything that was signed. */
  lemma SignInjective(signer: seq<Octet>, data: seq<Octet>, signer': seq<Octet>, data': seq<Octet>)
    requires Sign(signer, data) == Sign(signer', data')
    ensures signer == signer' && data == data'
  {
    assert Sign(signer, data)[0] == Sign(signer', data')[0];
  }
}
