/**
 * Base58 text. Both conversions keep the number read so far as little-endian digits of the other base
 * and multiply it in place; the functions below say what those digits are.
 */
module Base58 {
  import opened Bytes

  const UPPER := "123456789ABCDEFGHJKLMNPQRSTUVWXYZ"
  const LOWER := "abcdefghijkmnopqrstuvwxyz"
  const ALPHABET := UPPER + LOWER

  // ---------- numbers in a base ----------

  /** The two bases converted between. */
  type Base = b: nat | b == 58 || b == 256 witness 58

  predicate IsDigits(ds: seq<nat>, base: Base) {
    forall i :: 0 <= i < |ds| ==> ds[i] < base
  }

  /** Little-endian value. */
  function Value(ds: seq<nat>, base: Base): nat {
    if ds == [] then 0 else ds[0] + base * Value(ds[1..], base)
  }

  /** The digits of a number, least significant first, with no zero at the end. */
  function Digits(v: nat, base: Base): (r: seq<nat>)
    ensures IsDigits(r, base) && (r == [] || r[|r| - 1] != 0)
    decreases v
  {
    if v == 0 then [] else [v % base] + Digits(v / base, base)
  }

  lemma ValueCons(d: nat, ds: seq<nat>, base: Base)
    ensures Value([d] + ds, base) == d + base * Value(ds, base)
  {
    assert ([d] + ds)[1..] == ds;
  }

  lemma Euclid(v: nat, base: Base, q: nat, r: nat)
    requires q == v / base && r == v % base
    ensures v == r + base * q && r < base
  {
  }

  lemma {:induction false} ValueOfDigits(v: nat, base: Base)
    ensures Value(Digits(v, base), base) == v
    decreases v
  {
    if v == 0 {
    } else {
      var q, r := v / base, v % base;
      Euclid(v, base, q, r);
      ValueOfDigits(q, base);
      assert Digits(v, base) == [r] + Digits(q, base);
      ValueCons(r, Digits(q, base), base);
    }
  }

  /** Quotient and remainder are unique. */
  lemma DivMod(d: nat, q: nat, base: Base)
    requires d < base
    ensures (d + base * q) % base == d && (d + base * q) / base == q
  {
    if base == 58 {
      assert (d + 58 * q) % 58 == d && (d + 58 * q) / 58 == q;
    } else {
      assert (d + 256 * q) % 256 == d && (d + 256 * q) / 256 == q;
    }
  }

  /** A number has no other digits without a zero at the end. */
  lemma {:induction false} DigitsOfValue(ds: seq<nat>, base: Base)
    requires IsDigits(ds, base) && (ds == [] || ds[|ds| - 1] != 0)
    ensures Digits(Value(ds, base), base) == ds
  {
    if ds == [] {
    } else {
      var q := Value(ds[1..], base);
      DigitsOfValue(ds[1..], base);
      DivMod(ds[0], q, base);
      if q == 0 {
        assert ds[1..] == [];
      } else {
        assert base * q >= q;
      }
    }
  }

  function Scaled(d: nat, factor: Base, carry: nat): nat { carry + d * factor }

  /** Multiplies the digits by `factor` and adds `carry`, digit by digit. */
  function MulAdd(ds: seq<nat>, base: Base, factor: Base, carry: nat): seq<nat>
  {
    if ds == [] then Digits(carry, base)
    else [Scaled(ds[0], factor, carry) % base] + MulAdd(ds[1..], base, factor, Scaled(ds[0], factor, carry) / base)
  }

  lemma {:induction false} MulAddValue(ds: seq<nat>, base: Base, factor: Base, carry: nat)
    ensures Value(MulAdd(ds, base, factor, carry), base) == Scaled(Value(ds, base), factor, carry)
    ensures IsDigits(MulAdd(ds, base, factor, carry), base)
  {
    if ds == [] {
      ValueOfDigits(carry, base);
    } else {
      var x := Scaled(ds[0], factor, carry);
      var rest := MulAdd(ds[1..], base, factor, x / base);
      MulAddValue(ds[1..], base, factor, x / base);
      Euclid(x, base, x / base, x % base);
      assert MulAdd(ds, base, factor, carry)[1..] == rest;
      Regroup(x % base, base, Value(ds[1..], base), factor, x / base, ds[0], carry);
    }
  }

  lemma Regroup(r: nat, base: Base, v: nat, factor: Base, q: nat, d: nat, carry: nat)
    requires carry + d * factor == base * q + r
    ensures r + base * (v * factor + q) == (d + base * v) * factor + carry
  {
    assert base * (v * factor + q) == base * (v * factor) + base * q;
    assert base * (v * factor) == (base * v) * factor;
    assert (d + base * v) * factor == d * factor + (base * v) * factor;
  }

  /** Multiplying leaves no zero at the end if there was none. */
  lemma {:induction false} MulAddTop(ds: seq<nat>, base: Base, factor: Base, carry: nat)
    requires (ds == [] || ds[|ds| - 1] != 0)
    ensures var r := MulAdd(ds, base, factor, carry); r == [] || r[|r| - 1] != 0
  {
    if ds == [] {
    } else {
      var x := Scaled(ds[0], factor, carry);
      MulAddTop(ds[1..], base, factor, x / base);
      var rest := MulAdd(ds[1..], base, factor, x / base);
      if rest == [] {
        assert ds[1..] == [];
        assert ds[0] * factor > 0;
        Euclid(x, base, x / base, x % base);
      } else {
        assert MulAdd(ds, base, factor, carry)[|rest|] == rest[|rest| - 1];
      }
    }
  }

  /** Big-endian value. */
  function Number(s: seq<nat>, base: Base): nat {
    if s == [] then 0 else Scaled(Number(s[..|s| - 1], base), base, s[|s| - 1])
  }

  /** The digits in base `to` of a big-endian number in base `from`, as the loops build them. */
  function Convert(s: seq<nat>, from: Base, to: Base): seq<nat>
  {
    if s == [] then [] else MulAdd(Convert(s[..|s| - 1], from, to), to, from, s[|s| - 1])
  }

  lemma MulAddOfDigits(v: nat, base: Base, factor: Base, carry: nat)
    ensures MulAdd(Digits(v, base), base, factor, carry) == Digits(Scaled(v, factor, carry), base)
  {
    var ds := Digits(v, base);
    ValueOfDigits(v, base);
    MulAddValue(ds, base, factor, carry);
    MulAddTop(ds, base, factor, carry);
    DigitsOfValue(MulAdd(ds, base, factor, carry), base);
  }

  lemma {:induction false} ConvertIsDigits(s: seq<nat>, from: Base, to: Base)
    ensures Convert(s, from, to) == Digits(Number(s, from), to)
  {
    if s == [] {
    } else {
      ConvertIsDigits(s[..|s| - 1], from, to);
      MulAddOfDigits(Number(s[..|s| - 1], from), to, from, s[|s| - 1]);
    }
  }

  // ---------- from one base to the other and back ----------

  function Leading(s: seq<nat>): (z: nat)
    ensures z <= |s| && (forall i :: 0 <= i < z ==> s[i] == 0) && (z < |s| ==> s[z] != 0)
  {
    if s == [] || s[0] != 0 then 0 else 1 + Leading(s[1..])
  }

  function Zeros(z: nat): (r: seq<nat>)
    ensures |r| == z && forall i :: 0 <= i < z ==> r[i] == 0
  {
    seq(z, _ => 0)
  }

  function Reverse<T>(s: seq<T>): (r: seq<T>)
    ensures |r| == |s| && forall i :: 0 <= i < |s| ==> r[i] == s[|s| - 1 - i]
  {
    seq(|s|, i requires 0 <= i < |s| => s[|s| - 1 - i])
  }

  /** Both directions: leading zeros are kept one for one, the rest is converted as a number. */
  function Rebase(s: seq<nat>, from: Base, to: Base): (r: seq<nat>)
    ensures IsDigits(r, to)
  {
    ConvertIsDigits(s, from, to);
    Zeros(Leading(s)) + Reverse(Convert(s, from, to))
  }

  lemma {:induction false} NumberIsValue(s: seq<nat>, base: Base)
    ensures Number(s, base) == Value(Reverse(s), base)
  {
    if s == [] {
    } else {
      var p := s[..|s| - 1];
      NumberIsValue(p, base);
      assert Reverse(s) == [s[|s| - 1]] + Reverse(p);
      ValueCons(s[|s| - 1], Reverse(p), base);
    }
  }

  lemma {:induction false} ZerosAddNothing(z: nat, s: seq<nat>, base: Base)
    ensures Number(Zeros(z) + s, base) == Number(s, base)
    decreases z + |s|
  {
    if s != [] {
      assert (Zeros(z) + s)[..z + |s| - 1] == Zeros(z) + s[..|s| - 1];
      ZerosAddNothing(z, s[..|s| - 1], base);
    } else if z > 0 {
      assert (Zeros(z) + s)[..z - 1] == Zeros(z - 1) + s;
      ZerosAddNothing(z - 1, s, base);
    }
  }

  lemma LeadingAre(z: nat, s: seq<nat>)
    requires s == [] || s[0] != 0
    ensures Leading(Zeros(z) + s) == z
  {
    var t := Zeros(z) + s;
    assert z < |t| ==> t[z] == s[0];
  }

  /** Converting a string of digits to the other base and back gives the string again. */
  lemma RebaseRoundTrip(s: seq<nat>, from: Base, to: Base)
    requires IsDigits(s, from)
    ensures Rebase(Rebase(s, from, to), to, from) == s
  {
    var z, u := Leading(s), Rebase(s, from, to);
    var t := s[z..];
    RebaseNumber(s, from, to);
    assert Convert(u, to, from) == Reverse(t) by {
      ConvertIsDigits(u, to, from);
      TailIsDigits(s, from);
    }
    assert Reverse(Reverse(t)) == t;
    assert s == Zeros(z) + t;
  }

  /** The other representation has the same leading zeros and the same value. */
  lemma RebaseNumber(s: seq<nat>, from: Base, to: Base)
    ensures Leading(Rebase(s, from, to)) == Leading(s)
    ensures Number(Rebase(s, from, to), to) == Number(s, from)
  {
    var z, r := Leading(s), Reverse(Convert(s, from, to));
    ConvertIsDigits(s, from, to);
    LeadingAre(z, r);
    ZerosAddNothing(z, r, to);
    NumberIsValue(r, to);
    assert Reverse(r) == Convert(s, from, to);
    ValueOfDigits(Number(s, from), to);
  }

  /** Without its leading zeros a string is its number, written out. */
  lemma TailIsDigits(s: seq<nat>, base: Base)
    requires IsDigits(s, base)
    ensures Reverse(s[Leading(s)..]) == Digits(Number(s, base), base)
  {
    var z := Leading(s);
    var t := s[z..];
    assert s == Zeros(z) + t;
    ZerosAddNothing(z, t, base);
    NumberIsValue(t, base);
    DigitsOfValue(Reverse(t), base);
  }

  // ---------- characters ----------

  function Find(s: string, c: char): (r: Option<nat>)
    ensures r.Some? ==> r.value < |s| && s[r.value] == c
    ensures r.None? ==> c !in s
  {
    if s == [] then None
    else if s[0] == c then Some(0)
    else
      match Find(s[1..], c)
      case None => None
      case Some(i) => Some(i + 1)
  }

  /** The position of a character in the alphabet. */
  function CharValue(c: char): (r: Option<nat>)
    ensures r.Some? ==> r.value < |ALPHABET| && ALPHABET[r.value] == c
    ensures r.None? ==> c !in ALPHABET
  {
    Find(ALPHABET, c)
  }

  predicate Ascends(s: string) {
    forall i :: 0 <= i < |s| - 1 ==> s[i] < s[i + 1]
  }

  lemma UpperAscends()
    ensures |UPPER| == 33 && Ascends(UPPER) && UPPER[32] == 'Z' && UPPER[0] == '1'
  {
  }

  lemma LowerAscends()
    ensures |LOWER| == 25 && Ascends(LOWER) && LOWER[0] == 'a'
  {
  }

  lemma AlphabetAscends()
    ensures |ALPHABET| == 58 && Ascends(ALPHABET) && ALPHABET[0] == '1'
  {
    UpperAscends();
    LowerAscends();
  }

  lemma {:induction false} Ordered(s: string, i: nat, j: nat)
    requires Ascends(s) && i < j < |s|
    ensures s[i] < s[j]
    decreases j
  {
    if i < j - 1 { Ordered(s, i, j - 1); }
  }

  lemma ValueOfChar(v: nat)
    requires v < |ALPHABET|
    ensures CharValue(ALPHABET[v]) == Some(v)
  {
    AlphabetAscends();
    var r := CharValue(ALPHABET[v]);
    assert ALPHABET[v] in ALPHABET;
    if r.value < v { Ordered(ALPHABET, r.value, v); } else if v < r.value { Ordered(ALPHABET, v, r.value); }
  }

  // ---------- the two conversions ----------

  datatype Error = InvalidBase58 | InvalidPayload | UnsupportedMultihash | UnsupportedKeyType

  function Chars(vs: seq<nat>): (r: string)
    requires IsDigits(vs, 58)
    ensures |r| == |vs|
  {
    AlphabetAscends();
    seq(|vs|, i requires 0 <= i < |vs| => ALPHABET[vs[i]])
  }

  function Values(text: string): (r: Option<seq<nat>>)
    ensures r.Some? ==> |r.value| == |text|
  {
    if text == [] then Some([])
    else
      var front := Values(text[..|text| - 1]);
      var last := CharValue(text[|text| - 1]);
      if front.Some? && last.Some? then Some(front.value + [last.value]) else None
  }

  lemma {:induction false} ValuesAt(text: string)
    ensures Values(text).Some? ==> IsDigits(Values(text).value, 58)
    ensures Values(text).Some? ==> forall i :: 0 <= i < |text| ==> CharValue(text[i]) == Some(Values(text).value[i])
    ensures Values(text).None? <==> exists c :: c in text && c !in ALPHABET
  {
    AlphabetAscends();
    if text == [] {
    } else {
      var front, c := text[..|text| - 1], text[|text| - 1];
      ValuesAt(front);
      assert text == front + [c];
    }
  }

  function Encode(data: seq<Byte>): string {
    if data == [] then "1" else Chars(Rebase(data, 256, 58))
  }

  function Decode(text: string): Result<seq<Byte>, Error> {
    match Values(text)
    case None => Err(InvalidBase58)
    case Some(vs) =>
      Ok(Rebase(vs, 58, 256))
  }

  lemma ValuesOfChars(vs: seq<nat>)
    requires IsDigits(vs, 58)
    ensures Values(Chars(vs)) == Some(vs)
  {
    AlphabetAscends();
    var text := Chars(vs);
    forall i | 0 <= i < |vs| ensures CharValue(text[i]) == Some(vs[i]) {
      ValueOfChar(vs[i]);
    }
    assert forall c :: c in text ==> c in ALPHABET;
    ValuesAt(text);
    assert Values(text).value == vs;
  }

  lemma CharsOfValues(text: string)
    requires Values(text).Some?
    ensures IsDigits(Values(text).value, 58) && Chars(Values(text).value) == text
  {
    ValuesAt(text);
  }

  lemma RebaseEmpty(s: seq<nat>, from: Base, to: Base)
    requires IsDigits(s, from)
    ensures Rebase(s, from, to) == [] <==> s == []
  {
    RebaseRoundTrip(s, from, to);
    assert Rebase([], to, from) == [];
  }

  /**
   * The text stands for the same number as the bytes, in base 58 instead of base 256, with as many leading ones as the
   * bytes have leading zeros.
   */
  lemma EncodeMeans(data: seq<Byte>)
    requires data != []
    ensures var digits := Values(Encode(data));
      && digits.Some? && Number(digits.value, 58) == Number(data, 256) && Leading(digits.value) == Leading(data)
  {
    ValuesOfChars(Rebase(data, 256, 58));
    RebaseNumber(data, 256, 58);
  }

  /** And the other way round. */
  lemma DecodeMeans(text: string)
    requires Values(text).Some?
    ensures var bytes := Decode(text);
      && bytes.Ok? && Number(bytes.value, 256) == Number(Values(text).value, 58)
      && Leading(bytes.value) == Leading(Values(text).value)
  {
    RebaseNumber(Values(text).value, 58, 256);
  }

  /** Decoding an encoding gives the bytes back, except that nothing at all is written like a single zero byte. */
  lemma DecodeEncode(data: seq<Byte>)
    ensures Decode(Encode(data)) == Ok(data) <==> data != []
    ensures data == [] ==> Decode(Encode(data)) == Ok([0])
  {
    if data == [] {
      AlphabetAscends();
      ValuesOfChars([0]);
      assert Chars([0]) == "1";
      ConvertIsDigits([0], 58, 256);
      assert Number([0], 58) == 0;
      assert Rebase([0], 58, 256) == [0];
    } else {
      ValuesOfChars(Rebase(data, 256, 58));
      RebaseRoundTrip(data, 256, 58);
    }
  }

  /** Every accepted text but the empty one is the canonical text of what it decodes to. */
  lemma EncodeDecode(text: string)
    requires Decode(text).Ok?
    ensures Encode(Decode(text).value) == text <==> text != ""
  {
    var vs := Values(text).value;
    CharsOfValues(text);
    RebaseEmpty(vs, 58, 256);
    if text != "" { RebaseRoundTrip(vs, 58, 256); }
  }

  /** Exactly the strings over the alphabet are accepted. */
  lemma DecodeAccepts(text: string)
    ensures Decode(text).Ok? <==> forall c :: c in text ==> c in ALPHABET
  {
    ValuesAt(text);
  }

  // ---------- the loops ----------

  /** The carry of the inner loop never exceeds one byte when encoding, nor one digit when decoding. */
  lemma CarryBound(ds: seq<nat>, carry: nat, base: Base, factor: Base)
    requires base != factor && IsDigits(ds, base) && carry < factor && ds != []
    ensures Scaled(ds[0], factor, carry) / base < factor
    ensures Scaled(ds[0], factor, carry) <= 0x3A00
  {
    if base == 58 {
      assert carry + ds[0] * 256 < 58 * 256;
    } else {
      assert carry + ds[0] * 58 < 256 * 58;
    }
  }

  /** One pass over the digits, each replaced in place. */
  method Multiply(digits: seq<nat>, base: Base, factor: Base, addend: nat) returns (ds: seq<nat>, carry: nat)
    requires base != factor && addend < factor && IsDigits(digits, base)
    ensures MulAdd(digits, base, factor, addend) == ds + Digits(carry, base)
  {
    ds, carry := digits, addend;
    ghost var done: seq<nat> := [];
    for i := 0 to |digits|
      invariant |ds| == |digits| && ds[i..] == digits[i..] && ds[..i] == done && carry < factor
      invariant MulAdd(digits, base, factor, addend) == done + MulAdd(digits[i..], base, factor, carry)
    {
      ghost var rest := digits[i..];
      CarryBound(rest, carry, base, factor);
      assert rest[1..] == digits[i + 1..];
      carry := Scaled(ds[i], factor, carry);
      var digit, next := carry % base, carry / base;
      Assoc(done, [digit], MulAdd(rest[1..], base, factor, next));
      done := done + [digit];
      ds := ds[i := digit];
      carry := next;
    }
  }

  /** The carry left over is appended digit by digit. */
  method AppendCarry(digits: seq<nat>, base: Base, carryIn: nat) returns (ds: seq<nat>)
    ensures ds == digits + Digits(carryIn, base)
  {
    ds := digits;
    var carry: nat := carryIn;
    while carry > 0
      invariant digits + Digits(carryIn, base) == ds + Digits(carry, base)
      decreases carry
    {
      Assoc(ds, [carry % base], Digits(carry / base, base));
      ds := ds + [carry % base];
      carry := carry / base;
    }
  }

  method CountLeadingZeros(s: seq<nat>) returns (z: nat)
    ensures z == Leading(s)
  {
    z := 0;
    while z < |s| && s[z] == 0
      invariant z <= |s| && Leading(s) == z + Leading(s[z..])
    {
      assert s[z..][1..] == s[z + 1..];
      z := z + 1;
    }
  }

  method BuildDigits(s: seq<nat>, from: Base, to: Base) returns (digits: seq<nat>)
    requires from != to && IsDigits(s, from)
    ensures digits == Convert(s, from, to)
  {
    digits := [];
    for i := 0 to |s|
      invariant digits == Convert(s[..i], from, to)
    {
      assert s[..i + 1][..i] == s[..i];
      ConvertIsDigits(s[..i], from, to);
      var ds, carry := Multiply(digits, to, from, s[i]);
      digits := AppendCarry(ds, to, carry);
    }
    assert s[..|s|] == s;
  }

  /** Zeros counted, digits built, the result written out backwards. */
  method RebaseLoop(s: seq<nat>, from: Base, to: Base) returns (r: seq<nat>)
    requires from != to && IsDigits(s, from)
    ensures r == Rebase(s, from, to)
  {
    var leadingZeroes := CountLeadingZeros(s);
    var digits := BuildDigits(s, from, to);
    var tail: seq<nat> := [];
    for i := 0 to |digits|
      invariant tail == Reverse(digits)[..i]
    {
      tail := tail + [digits[|digits| - 1 - i]];
    }
    assert Reverse(digits)[..|digits|] == Reverse(digits);
    r := Zeros(leadingZeroes) + tail;
  }

  method EncodeBase58(data: seq<Byte>) returns (out: string)
    ensures out == Encode(data)
  {
    var digits := RebaseLoop(data, 256, 58);
    RebaseEmpty(data, 256, 58);
    out := Chars(digits);
    if out == "" { out := "1"; }
  }

  method DecodeBase58(text: string) returns (r: Result<seq<Byte>, Error>)
    ensures r == Decode(text)
  {
    var values: seq<nat> := [];
    for i := 0 to |text|
      invariant Values(text[..i]) == Some(values)
    {
      assert text[..i + 1][..i] == text[..i];
      var value := CharValue(text[i]);
      if value.None? {
        assert text[i] in text && text[i] !in ALPHABET;
        ValuesAt(text);
        return Err(InvalidBase58);
      }
      values := values + [value.value];
    }
    assert text[..|text|] == text;
    ValuesAt(text);
    var bytes := RebaseLoop(values, 58, 256);
    r := Ok(bytes);
  }

  // ---------- peer ids ----------

  /** The identity multihash code and length, and the protobuf header of an Ed25519 key. */
  const PREFIX: seq<Byte> := [0x00, 36, 0x08, 0x01, 0x12, 0x20]

  type PeerId = b: seq<Byte> | |b| == 32 witness seq(32, _ => 0)

  function PeerIdToString(p: PeerId): string { Encode(PREFIX + p) }

  function PeerIdFromString(text: string): Result<PeerId, Error> {
    var decoded := Decode(text);
    if decoded.Err? then Err(decoded.error)
    else
      var bytes := decoded.value;
      if |bytes| != 38 then Err(InvalidPayload)
      else if bytes[0] != 0x00 || bytes[1] != 36 then Err(UnsupportedMultihash)
      else if bytes[2..6] != [0x08, 0x01, 0x12, 0x20] then Err(UnsupportedKeyType)
      else Ok(bytes[6..])
  }

  /** A peer id is read back from its text. */
  lemma PeerIdRoundTrip(p: PeerId)
    ensures PeerIdFromString(PeerIdToString(p)) == Ok(p)
  {
    DecodeEncode(PREFIX + p);
    assert (PREFIX + p)[2..6] == PREFIX[2..6];
  }

  /** And it is read from no other text. */
  lemma PeerIdTextIsCanonical(p: PeerId, text: string)
    requires PeerIdFromString(text) == Ok(p)
    ensures text == PeerIdToString(p)
  {
    var bytes := Decode(text).value;
    assert bytes[..2] == PREFIX[..2];
    assert PREFIX == PREFIX[..2] + PREFIX[2..];
    assert bytes == bytes[..2] + bytes[2..6] + bytes[6..];
    EncodeDecode(text);
  }
}
