/** The flat routing table: peers without repetition, sorted on demand by XOR distance to a target. */
module RoutingTable {
  import opened Bytes
  import opened Base58

  /** Exclusive or of the lowest `bits` bits, one bit at a time. */
  function XorBits(a: nat, b: nat, bits: nat): (r: nat)
    ensures r < Power2(bits)
  {
    if bits == 0 then 0 else (if a % 2 == b % 2 then 0 else 1) + 2 * XorBits(a / 2, b / 2, bits - 1)
  }

  function Power2(n: nat): (r: nat)
    ensures r > 0
  {
    if n == 0 then 1 else 2 * Power2(n - 1)
  }

  lemma {:induction false} XorBitsIsInjective(a: nat, b: nat, t: nat, bits: nat)
    requires a < Power2(bits) && b < Power2(bits) && XorBits(a, t, bits) == XorBits(b, t, bits)
    ensures a == b
  {
    if bits == 0 {
    } else {
      XorBitsIsInjective(a / 2, b / 2, t / 2, bits - 1);
    }
  }

  lemma Power2Of8()
    ensures Power2(8) == 0x100
  {
    assert Power2(4) == 16;
    assert Power2(6) == 64;
  }

  function Xor(a: Byte, b: Byte): Byte {
    Power2Of8();
    XorBits(a, b, 8)
  }

  lemma XorIsInjective(a: Byte, b: Byte, t: Byte)
    requires Xor(a, t) == Xor(b, t)
    ensures a == b
  {
    Power2Of8();
    XorBitsIsInjective(a, b, t, 8);
  }

  function Distance(a: PeerId, t: PeerId): (d: seq<Byte>)
    ensures |d| == 32
  {
    seq(32, i requires 0 <= i < 32 => Xor(a[i], t[i]))
  }

  /** Lexicographic order on byte strings of one length. */
  predicate Below(a: seq<Byte>, b: seq<Byte>)
    requires |a| == |b|
  {
    a != [] && (a[0] < b[0] || (a[0] == b[0] && Below(a[1..], b[1..])))
  }

  lemma {:induction false} BelowIsStrictTotal(a: seq<Byte>, b: seq<Byte>)
    requires |a| == |b|
    ensures Below(a, b) || Below(b, a) || a == b
    ensures !(Below(a, b) && Below(b, a))
    ensures Below(a, b) ==> a != b
  {
    if a == [] {
    } else {
      BelowIsStrictTotal(a[1..], b[1..]);
      assert a == [a[0]] + a[1..] && b == [b[0]] + b[1..];
    }
  }

  lemma {:induction false} BelowIsTransitive(a: seq<Byte>, b: seq<Byte>, c: seq<Byte>)
    requires |a| == |b| == |c| && Below(a, b) && Below(b, c)
    ensures Below(a, c)
  {
    if a[0] == b[0] == c[0] { BelowIsTransitive(a[1..], b[1..], c[1..]); }
  }

  /** `a` is strictly closer to `t` than `b`. */
  predicate Closer(a: PeerId, b: PeerId, t: PeerId) { Below(Distance(a, t), Distance(b, t)) }

  lemma CloserIsStrictTotal(a: PeerId, b: PeerId, t: PeerId)
    ensures Closer(a, b, t) || Closer(b, a, t) || a == b
    ensures !(Closer(a, b, t) && Closer(b, a, t)) && (Closer(a, b, t) ==> a != b)
  {
    BelowIsStrictTotal(Distance(a, t), Distance(b, t));
    if Distance(a, t) == Distance(b, t) {
      forall i | 0 <= i < 32 ensures a[i] == b[i] {
        assert Distance(a, t)[i] == Distance(b, t)[i];
        XorIsInjective(a[i], b[i], t[i]);
      }
      assert a == b;
    }
  }

  predicate Ascending(s: seq<PeerId>, t: PeerId) {
    forall i, j :: 0 <= i < j < |s| ==> Closer(s[i], s[j], t)
  }

  predicate NoRepeats(s: seq<PeerId>) {
    forall i, j :: 0 <= i < j < |s| ==> s[i] != s[j]
  }

  ghost function Elements(s: seq<PeerId>): set<PeerId> { set p | p in s }

  /** Puts a peer in its place in an ascending list. */
  function Place(p: PeerId, s: seq<PeerId>, t: PeerId): seq<PeerId> {
    if s == [] then [p]
    else if Closer(p, s[0], t) then [p] + s
    else [s[0]] + Place(p, s[1..], t)
  }

  function Sort(s: seq<PeerId>, t: PeerId): seq<PeerId> {
    if s == [] then [] else Place(s[0], Sort(s[1..], t), t)
  }

  function Closest(s: seq<PeerId>, t: PeerId, k: nat): seq<PeerId> {
    var sorted := Sort(s, t);
    if |sorted| > k then sorted[..k] else sorted
  }

  lemma {:induction false} PlaceAdds(p: PeerId, s: seq<PeerId>, t: PeerId)
    ensures |Place(p, s, t)| == |s| + 1
    ensures forall q :: q in Place(p, s, t) <==> q == p || q in s
  {
    if s != [] && !Closer(p, s[0], t) {
      PlaceAdds(p, s[1..], t);
      assert s == [s[0]] + s[1..];
    }
  }

  lemma ConsAscends(p: PeerId, s: seq<PeerId>, t: PeerId)
    requires Ascending(s, t) && forall q :: q in s ==> Closer(p, q, t)
    ensures Ascending([p] + s, t)
  {
    var r := [p] + s;
    forall i, j | 0 <= i < j < |r| ensures Closer(r[i], r[j], t) {
      assert r[j] == s[j - 1];
      if i > 0 { assert r[i] == s[i - 1]; }
    }
  }

  lemma {:induction false} PlaceAscends(p: PeerId, s: seq<PeerId>, t: PeerId)
    requires Ascending(s, t) && p !in s
    ensures Ascending(Place(p, s, t), t)
  {
    if s == [] {
    } else {
      CloserIsStrictTotal(p, s[0], t);
      if Closer(p, s[0], t) {
        forall q | q in s ensures Closer(p, q, t) {
          var j :| 0 <= j < |s| && s[j] == q;
          if j > 0 { BelowIsTransitive(Distance(p, t), Distance(s[0], t), Distance(q, t)); }
        }
        ConsAscends(p, s, t);
      } else {
        PlaceAscends(p, s[1..], t);
        PlaceAdds(p, s[1..], t);
        ConsAscends(s[0], Place(p, s[1..], t), t);
      }
    }
  }

  lemma {:induction false} SortSorts(s: seq<PeerId>, t: PeerId)
    requires NoRepeats(s)
    ensures Ascending(Sort(s, t), t) && |Sort(s, t)| == |s| && Elements(Sort(s, t)) == Elements(s)
  {
    if s == [] {
    } else {
      SortSorts(s[1..], t);
      assert s[0] !in Elements(s[1..]);
      var rest := Sort(s[1..], t);
      assert forall p :: p in rest <==> p in Elements(rest);
      PlaceAdds(s[0], rest, t);
      PlaceAscends(s[0], rest, t);
      assert s == [s[0]] + s[1..];
    }
  }

  /** The strictly ascending list of the `k` peers such that every other one is strictly farther. */
  ghost predicate AreClosest(r: seq<PeerId>, peers: set<PeerId>, t: PeerId, k: nat) {
    && Ascending(r, t)
    && Elements(r) <= peers
    && |r| == Min(k, |peers|)
    && forall p, q :: p in peers && p !in r && q in r ==> Closer(q, p, t)
  }

  lemma {:induction false} CountElements(s: seq<PeerId>)
    requires NoRepeats(s)
    ensures |Elements(s)| == |s|
  {
    if s == [] {
    } else {
      CountElements(s[1..]);
      assert s[0] !in Elements(s[1..]);
      assert Elements(s) == Elements(s[1..]) + {s[0]};
    }
  }

  lemma ClosestAreClosest(s: seq<PeerId>, t: PeerId, k: nat)
    requires NoRepeats(s)
    ensures AreClosest(Closest(s, t, k), Elements(s), t, k)
  {
    var sorted, r := Sort(s, t), Closest(s, t, k);
    SortSorts(s, t);
    CountElements(s);
    forall p, q | p in Elements(s) && p !in r && q in r ensures Closer(q, p, t) {
      assert p in Elements(sorted);
      var i :| 0 <= i < |sorted| && sorted[i] == p;
      var j :| 0 <= j < |r| && r[j] == q;
      assert r[j] == sorted[j];
    }
    forall q | q in r ensures q in Elements(s) {
      assert q in sorted;
      assert q in Elements(sorted);
    }
  }

  /** There is only one such list. */
  lemma {:induction false} ClosestAreUnique(r: seq<PeerId>, r': seq<PeerId>, peers: set<PeerId>, t: PeerId, k: nat,
                                            n: nat)
    requires AreClosest(r, peers, t, k) && AreClosest(r', peers, t, k) && n <= |r|
    ensures r[..n] == r'[..n]
    decreases n
  {
    if n == 0 {
    } else {
      ClosestAreUnique(r, r', peers, t, k, n - 1);
      NotCloser(r, r', peers, t, k, n - 1);
      NotCloser(r', r, peers, t, k, n - 1);
      CloserIsStrictTotal(r[n - 1], r'[n - 1], t);
      assert r[..n] == r[..n - 1] + [r[n - 1]];
      assert r'[..n] == r'[..n - 1] + [r'[n - 1]];
    }
  }

  lemma NotCloser(r: seq<PeerId>, r': seq<PeerId>, peers: set<PeerId>, t: PeerId, k: nat, i: nat)
    requires AreClosest(r, peers, t, k) && AreClosest(r', peers, t, k) && i < |r| && r[..i] == r'[..i]
    ensures !Closer(r[i], r'[i], t)
  {
    CloserIsStrictTotal(r[i], r'[i], t);
    assert forall m :: 0 <= m < i ==> r'[m] == r'[..i][m] && r[m] == r[..i][m];
    if Closer(r[i], r'[i], t) {
      assert r[i] in Elements(r);
      if r[i] in r' {
        var j :| 0 <= j < |r'| && r'[j] == r[i];
        CloserIsStrictTotal(r[i], r[i], t);
      }
    }
  }

  /** The answer depends on which peers are known, not on the order in which they came. */
  lemma ClosestDependsOnTheSet(s: seq<PeerId>, s': seq<PeerId>, t: PeerId, k: nat)
    requires NoRepeats(s) && NoRepeats(s') && Elements(s) == Elements(s')
    ensures Closest(s, t, k) == Closest(s', t, k)
  {
    ClosestAreClosest(s, t, k);
    ClosestAreClosest(s', t, k);
    var r, r' := Closest(s, t, k), Closest(s', t, k);
    ClosestAreUnique(r, r', Elements(s), t, k, |r|);
    assert r[..|r|] == r && r'[..|r'|] == r';
  }

  // ---------- leading zeros ----------

  /** `std::countl_zero` of a byte. */
  function CountLeadingZeroBits(b: Byte): nat {
    if b >= 128 then 0 else if b >= 64 then 1 else if b >= 32 then 2 else if b >= 16 then 3
    else if b >= 8 then 4 else if b >= 4 then 5 else if b >= 2 then 6 else if b >= 1 then 7 else 8
  }

  /** Leading zero bits of the distance from byte `i` on. */
  function ZerosFrom(d: seq<Byte>, i: nat): (r: nat)
    requires i <= |d| == 32
    ensures r <= 255
    decreases |d| - i
  {
    if i == 32 then 255
    else if d[i] != 0 then i * 8 + CountLeadingZeroBits(d[i])
    else ZerosFrom(d, i + 1)
  }

  method LeadingZeros(a: PeerId, b: PeerId) returns (r: Byte)
    ensures r == ZerosFrom(Distance(a, b), 0)
  {
    for i := 0 to 32
      invariant ZerosFrom(Distance(a, b), 0) == ZerosFrom(Distance(a, b), i)
    {
      var xb := Xor(a[i], b[i]);
      assert xb == Distance(a, b)[i];
      if xb != 0 { return i * 8 + CountLeadingZeroBits(xb); }
    }
    r := 255;
  }

  lemma {:induction false} MoreZerosBelow(d: seq<Byte>, e: seq<Byte>, i: nat)
    requires |d| == |e| == 32 && i <= 32 && ZerosFrom(d, i) > ZerosFrom(e, i)
    ensures Below(d[i..], e[i..])
    decreases 32 - i
  {
    if d[i] == 0 && e[i] == 0 {
      MoreZerosBelow(d, e, i + 1);
      assert d[i..][1..] == d[i + 1..] && e[i..][1..] == e[i + 1..];
    } else {
      ZerosAtLeast(d, i);
      ZerosAtLeast(e, i);
    }
  }

  lemma {:induction false} ZerosAtLeast(d: seq<Byte>, i: nat)
    requires |d| == 32 && i < 32
    ensures d[i] == 0 ==> ZerosFrom(d, i) >= i * 8 + 8 || ZerosFrom(d, i) == 255
    ensures d[i] != 0 ==> ZerosFrom(d, i) < i * 8 + 8
    decreases 32 - i
  {
    if d[i] == 0 && i + 1 < 32 { ZerosAtLeast(d, i + 1); }
  }

  /** A longer common prefix means a strictly smaller distance. */
  lemma MoreZerosIsCloser(a: PeerId, b: PeerId, t: PeerId)
    requires ZerosFrom(Distance(a, t), 0) > ZerosFrom(Distance(b, t), 0)
    ensures Closer(a, b, t)
  {
    MoreZerosBelow(Distance(a, t), Distance(b, t), 0);
    assert Distance(a, t)[0..] == Distance(a, t) && Distance(b, t)[0..] == Distance(b, t);
  }

  /** 255 stands for equal peers, but also for peers that differ in nothing but the last bit. */
  lemma {:induction false} SentinelMeans(d: seq<Byte>, i: nat)
    requires |d| == 32 && i < 32
    ensures ZerosFrom(d, i) == 255 <==> (forall j :: i <= j < 31 ==> d[j] == 0) && d[31] <= 1
    decreases 32 - i
  {
    if i < 31 && d[i] == 0 { SentinelMeans(d, i + 1); }
  }

  lemma XorOfEqual(b: Byte)
    ensures Xor(b, b) == 0
  {
    XorBitsOfEqual(b, 8);
  }

  lemma {:induction false} XorBitsOfEqual(a: nat, bits: nat)
    ensures XorBits(a, a, bits) == 0
  {
    if bits == 0 {
    } else {
      XorBitsOfEqual(a / 2, bits - 1);
    }
  }

  function Zeros(last: Byte): PeerId { seq(31, _ => 0) + [last] }

  lemma SentinelIsAmbiguous()
    ensures Zeros(0) != Zeros(1)
    ensures ZerosFrom(Distance(Zeros(0), Zeros(0)), 0) == ZerosFrom(Distance(Zeros(1), Zeros(0)), 0) == 255
  {
    var p, q := Zeros(0), Zeros(1);
    assert p[31] != q[31];
    XorOfEqual(0);
    assert Xor(1, 0) == 1 by {
      assert XorBits(1, 0, 8) == 1 + 2 * XorBits(0, 0, 7);
      XorBitsOfEqual(0, 7);
    }
    forall j | 0 <= j < 31 ensures Distance(p, p)[j] == 0 && Distance(q, p)[j] == 0 {
      assert p[j] == 0 && q[j] == 0;
    }
    assert Distance(q, p)[31] == 1 && Distance(p, p)[31] == 0;
    SentinelMeans(Distance(p, p), 0);
    SentinelMeans(Distance(q, p), 0);
  }

  class RoutingTable {
    const localId: PeerId
    var peers: seq<PeerId>

    /** No peer twice, and never the local one. */
    ghost predicate Valid()
      reads this
    {
      NoRepeats(peers) && localId !in peers
    }

    constructor (localId: PeerId)
      ensures Valid() && this.localId == localId && peers == []
    {
      this.localId, peers := localId, [];
    }

    method Insert(peer: PeerId)
      requires Valid()
      modifies this
      ensures Valid()
      ensures peers == if peer == localId || peer in old(peers) then old(peers) else old(peers) + [peer]
    {
      if peer == localId { return; }
      for i := 0 to |peers|
        invariant peers == old(peers) && peer !in peers[..i]
      {
        if peers[i] == peer { return; }
      }
      assert peer !in peers;
      peers := peers + [peer];
    }

    method Remove(peer: PeerId)
      requires Valid()
      modifies this
      ensures Valid()
      ensures Elements(peers) == Elements(old(peers)) - {peer}
      ensures |peers| == |old(peers)| - (if peer in old(peers) then 1 else 0)
      ensures forall i :: 0 <= i < |old(peers)| && old(peers)[i] == peer ==>
        peers == old(peers)[..i] + old(peers)[i + 1..]
    {
      var kept := [];
      for i := 0 to |peers|
        invariant peers == old(peers) && NoRepeats(kept)
        invariant forall p :: p in kept <==> p in peers[..i] && p != peer
        invariant peer !in peers[..i] ==> kept == peers[..i]
        invariant forall j :: 0 <= j < i && peers[j] == peer ==> kept == peers[..j] + peers[j + 1..i]
      {
        assert peers[..i + 1] == peers[..i] + [peers[i]];
        if peers[i] != peer {
          assert peers[i] !in peers[..i];
          kept := kept + [peers[i]];
        }
      }
      assert peers[..|peers|] == peers;
      peers := kept;
      CountElements(kept);
      CountElements(old(peers));
    }

    method ClosestPeers(target: PeerId, k: nat) returns (r: seq<PeerId>)
      requires Valid()
      ensures AreClosest(r, Elements(peers), target, k)
    {
      ClosestAreClosest(peers, target, k);
      r := Closest(peers, target, k);
    }

    method Size() returns (n: nat)
      requires Valid()
      ensures n == |Elements(peers)|
    {
      CountElements(peers);
      n := |peers|;
    }
  }
}
