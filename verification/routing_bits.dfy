/** Distance bit by bit: what exclusive or is, which bit decides who is closer, and what the leading zeros count. */
module RoutingBits {
  import opened Bytes
  import opened Base58
  import opened RoutingTable

  /** Bit `k` of a number, the lowest being bit 0. */
  predicate Bit(x: nat, k: nat) { x / Power2(k) % 2 == 1 }

  lemma HalfThenShift(x: nat, k: nat)
    ensures x / Power2(k + 1) == x / 2 / Power2(k)
  {
    DivideTwice(x, Power2(k));
  }

  lemma DivideTwice(x: nat, m: nat)
    requires m > 0
    ensures x / (2 * m) == x / 2 / m
  {
    var q, r := x / 2 / m, x / 2 % m;
    assert x == 2 * (q * m + r) + x % 2;
    assert x == (2 * m) * q + (2 * r + x % 2);
    QuotientIs(x, 2 * m, q, 2 * r + x % 2);
  }

  lemma {:induction false} Multiple(d: int, e: int)
    requires d > 0
    ensures e > 0 ==> d * e >= d
    ensures e < 0 ==> d * e <= -d
    decreases if e < 0 then -e else e
  {
    if e > 1 {
      Multiple(d, e - 1);
      assert d * e == d * (e - 1) + d;
    } else if e < -1 {
      Multiple(d, e + 1);
      assert d * e == d * (e + 1) - d;
    }
  }

  lemma QuotientIs(x: nat, d: nat, q: nat, r: nat)
    requires d > 0 && x == d * q + r && r < d
    ensures x / d == q
  {
    var e := x / d - q;
    assert d * e == r - x % d;
    Multiple(d, e);
  }

  lemma BitOfHalf(x: nat, k: nat)
    ensures Bit(x, k + 1) == Bit(x / 2, k)
    ensures Bit(x, 0) <==> x % 2 == 1
  {
    HalfThenShift(x, k);
  }

  // ---------- exclusive or ----------

  lemma {:induction false} BitOfXorBits(a: nat, b: nat, bits: nat, k: nat)
    requires k < bits
    ensures Bit(XorBits(a, b, bits), k) <==> Bit(a, k) != Bit(b, k)
  {
    var x := XorBits(a, b, bits);
    assert x / 2 == XorBits(a / 2, b / 2, bits - 1);
    if k == 0 {
      BitOfHalf(x, 0);
      BitOfHalf(a, 0);
      BitOfHalf(b, 0);
    } else {
      BitOfXorBits(a / 2, b / 2, bits - 1, k - 1);
      BitOfHalf(x, k - 1);
      BitOfHalf(a, k - 1);
      BitOfHalf(b, k - 1);
    }
  }

  /** A bit of the exclusive or is set exactly when the two bits differ. */
  lemma BitOfXor(a: Byte, b: Byte, k: nat)
    requires k < 8
    ensures Bit(Xor(a, b), k) <==> Bit(a, k) != Bit(b, k)
  {
    BitOfXorBits(a, b, 8, k);
  }

  /** Two numbers with the same low bits and nothing above them are equal. */
  lemma {:induction false} BitsDetermine(x: nat, y: nat, bits: nat)
    requires x < Power2(bits) && y < Power2(bits) && forall k :: 0 <= k < bits ==> Bit(x, k) == Bit(y, k)
    ensures x == y
  {
    if bits == 0 {
    } else {
      forall k | 0 <= k < bits - 1 ensures Bit(x / 2, k) == Bit(y / 2, k) {
        BitOfHalf(x, k);
        BitOfHalf(y, k);
        assert Bit(x, k + 1) == Bit(y, k + 1);
      }
      BitsDetermine(x / 2, y / 2, bits - 1);
      BitOfHalf(x, 0);
      BitOfHalf(y, 0);
      assert Bit(x, 0) == Bit(y, 0);
    }
  }

  lemma BytesDetermine(x: Byte, y: Byte)
    requires forall k :: 0 <= k < 8 ==> Bit(x, k) == Bit(y, k)
    ensures x == y
  {
    Power2Of8();
    BitsDetermine(x, y, 8);
  }

  /** Distance does not depend on which of the two comes first, and it undoes itself. */
  lemma XorIsInvolution(a: Byte, b: Byte)
    ensures Xor(a, b) == Xor(b, a) && Xor(Xor(a, b), b) == a
  {
    forall k | 0 <= k < 8
      ensures Bit(Xor(a, b), k) == Bit(Xor(b, a), k) && Bit(Xor(Xor(a, b), b), k) == Bit(a, k)
    {
      BitOfXor(a, b, k);
      BitOfXor(b, a, k);
      BitOfXor(Xor(a, b), b, k);
    }
    BytesDetermine(Xor(a, b), Xor(b, a));
    BytesDetermine(Xor(Xor(a, b), b), a);
  }

  // ---------- the first bit that differs ----------

  /** Bit `n` of a peer id, the highest bit of the first byte being bit 0. */
  predicate BitAt(p: PeerId, n: nat)
    requires n < 256
  {
    Bit(p[n / 8], 7 - n % 8)
  }

  /** Two peer ids agree before bit `n` and differ there. */
  predicate FirstDifference(a: PeerId, b: PeerId, n: nat) {
    n < 256 && BitAt(a, n) != BitAt(b, n) && forall m :: 0 <= m < n ==> BitAt(a, m) == BitAt(b, m)
  }

  lemma ByteOfBits(a: PeerId, b: PeerId, i: nat, low: nat)
    requires i < 32 && low <= 8 && forall m :: 8 * i <= m < 8 * i + low ==> BitAt(a, m) == BitAt(b, m)
    ensures forall k :: 8 - low <= k < 8 ==> Bit(a[i], k) == Bit(b[i], k)
  {
    forall k | 8 - low <= k < 8 ensures Bit(a[i], k) == Bit(b[i], k) {
      var m := 8 * i + (7 - k);
      assert BitAt(a, m) == BitAt(b, m) && m / 8 == i && m % 8 == 7 - k;
    }
  }

  /** What a first difference means for the bytes: equal ones before, and one that differs first in bit `k`. */
  lemma BytesAtDifference(a: PeerId, b: PeerId, n: nat)
    requires FirstDifference(a, b, n)
    ensures var i, k := n / 8, 7 - n % 8;
      && (forall j :: 0 <= j < i ==> a[j] == b[j])
      && Bit(a[i], k) != Bit(b[i], k) && forall l :: k < l < 8 ==> Bit(a[i], l) == Bit(b[i], l)
  {
    var i := n / 8;
    forall j | 0 <= j < i ensures a[j] == b[j] {
      ByteOfBits(a, b, j, 8);
      BytesDetermine(a[j], b[j]);
    }
    ByteOfBits(a, b, i, n % 8);
  }

  /** Numbers that agree above bit `k` have the same quotient there. */
  lemma {:induction false} SameAbove(x: nat, y: nat, k: nat, bits: nat)
    requires k <= bits && x < Power2(bits) && y < Power2(bits)
    requires forall l :: k <= l < bits ==> Bit(x, l) == Bit(y, l)
    ensures x / Power2(k) == y / Power2(k)
  {
    if k == 0 {
      BitsDetermine(x, y, bits);
    } else {
      forall l | k - 1 <= l < bits - 1 ensures Bit(x / 2, l) == Bit(y / 2, l) {
        BitOfHalf(x, l);
        BitOfHalf(y, l);
        assert Bit(x, l + 1) == Bit(y, l + 1);
      }
      SameAbove(x / 2, y / 2, k - 1, bits - 1);
      HalfThenShift(x, k - 1);
      HalfThenShift(y, k - 1);
    }
  }

  lemma QuotientsDecide(x: nat, y: nat, m: nat)
    requires m > 0 && x / m < y / m
    ensures x < y
  {
    if y <= x { QuotientGrows(y, x, m); }
  }

  lemma QuotientGrows(y: nat, x: nat, m: nat)
    requires m > 0 && y <= x
    ensures y / m <= x / m
  {
    var d := y / m - x / m;
    assert m * d == (y - y % m) - (x - x % m);
    Multiple(m, d);
  }

  lemma TopBit(x: nat, k: nat)
    ensures x / Power2(k) == 2 * (x / Power2(k + 1)) + (if Bit(x, k) then 1 else 0)
  {
    HalfOutside(x, Power2(k));
  }

  lemma HalfOutside(x: nat, m: nat)
    requires m > 0
    ensures x / m / 2 == x / (2 * m)
  {
    var q, r := x / m / 2, x / m % 2;
    assert x == m * (2 * q + r) + x % m;
    assert x == (2 * m) * q + (m * r + x % m);
    assert m * r <= m;
    QuotientIs(x, 2 * m, q, m * r + x % m);
  }

  /** The highest bit in which two bytes differ decides which is smaller. */
  lemma HighestBitDecides(x: Byte, y: Byte, k: nat)
    requires k < 8 && !Bit(x, k) && Bit(y, k) && forall l :: k < l < 8 ==> Bit(x, l) == Bit(y, l)
    ensures x < y
  {
    Power2Of8();
    SameAbove(x, y, k + 1, 8);
    TopBit(x, k);
    TopBit(y, k);
    QuotientsDecide(x, y, Power2(k));
  }

  lemma {:induction false} FirstByteDecides(d: seq<Byte>, e: seq<Byte>, i: nat)
    requires |d| == |e| && i < |d| && d[i] != e[i] && forall j :: 0 <= j < i ==> d[j] == e[j]
    ensures Below(d, e) <==> d[i] < e[i]
  {
    if i == 0 {
    } else {
      FirstByteDecides(d[1..], e[1..], i - 1);
    }
  }

  /** The first bit in which two peers differ decides: the one that agrees there with the target is closer. */
  lemma FirstBitDecides(a: PeerId, b: PeerId, t: PeerId, n: nat)
    requires FirstDifference(a, b, n)
    ensures Closer(a, b, t) <==> BitAt(a, n) == BitAt(t, n)
  {
    var i, k := n / 8, 7 - n % 8;
    BytesAtDifference(a, b, n);
    var d, e := Distance(a, t), Distance(b, t);
    DistanceBits(a, t, i);
    DistanceBits(b, t, i);
    if Bit(d[i], k) { HighestBitDecides(e[i], d[i], k); } else { HighestBitDecides(d[i], e[i], k); }
    FirstByteDecides(d, e, i);
  }

  lemma DistanceBits(a: PeerId, t: PeerId, i: nat)
    requires i < 32
    ensures forall k :: 0 <= k < 8 ==> (Bit(Distance(a, t)[i], k) <==> Bit(a[i], k) != Bit(t[i], k))
  {
    forall k | 0 <= k < 8 ensures Bit(Distance(a, t)[i], k) <==> Bit(a[i], k) != Bit(t[i], k) {
      BitOfXor(a[i], t[i], k);
    }
  }

  // ---------- leading zeros ----------

  lemma ZeroHasNoBits(k: nat)
    ensures !Bit(0, k)
  {
  }

  /** With its highest bit at `k` a byte is between two powers of two. */
  lemma HighestBit(x: Byte, k: nat)
    requires k < 8 && Bit(x, k) && forall l :: k < l < 8 ==> !Bit(x, l)
    ensures Power2(k) <= x < Power2(k + 1)
  {
    forall l | k < l < 8 ensures Bit(x, l) == Bit(0, l) { ZeroHasNoBits(l); }
    Power2Of8();
    SameAbove(x, 0, k + 1, 8);
    TopBit(x, k);
    BetweenPowers(x, Power2(k));
  }

  lemma BetweenPowers(x: nat, m: nat)
    requires m > 0 && x / m == 1
    ensures m <= x < 2 * m
  {
  }

  lemma LeadingBits(x: Byte, k: nat)
    requires k < 8 && Power2(k) <= x < Power2(k + 1)
    ensures CountLeadingZeroBits(x) == 7 - k
  {
    Power2Of8();
    assert Power2(1) == 2 && Power2(2) == 4 && Power2(3) == 8 && Power2(4) == 16;
    assert Power2(5) == 32 && Power2(6) == 64 && Power2(7) == 128;
  }

  lemma {:induction false} ZerosUpTo(d: seq<Byte>, i: nat, from: nat)
    requires |d| == 32 && from <= i < 32 && d[i] != 0 && forall j :: from <= j < i ==> d[j] == 0
    ensures ZerosFrom(d, from) == i * 8 + CountLeadingZeroBits(d[i])
    decreases i - from
  {
    if from == i {
    } else {
      ZerosUpTo(d, i, from + 1);
    }
  }

  /** The count is the index of the first bit in which the two peers differ. */
  lemma LeadingZerosIsIndex(a: PeerId, b: PeerId, n: nat)
    requires FirstDifference(a, b, n)
    ensures ZerosFrom(Distance(a, b), 0) == n
  {
    var i, k := n / 8, 7 - n % 8;
    BytesAtDifference(a, b, n);
    var d := Distance(a, b);
    DistanceBits(a, b, i);
    HighestBit(d[i], k);
    LeadingBits(d[i], k);
    forall j | 0 <= j < i ensures d[j] == 0 { XorOfEqual(a[j]); }
    ZerosUpTo(d, i, 0);
  }
}
