/** Unsigned LEB128 integers, as used by multistream-select and by protobuf. */
module Varint {
  import opened Bytes

  datatype Parsed = Done(value: nat, used: nat) | Incomplete | Invalid

  function Encode(v: U64): (r: seq<Byte>)
    ensures r != []
  {
    if v < 0x80 then [v] else [v as int % 0x80 + 0x80] + Encode(v / 0x80)
  }

  /** The groups of seven bits from a position on; a tenth byte must be the last. The value is not yet truncated. */
  function Groups(buf: seq<Byte>, position: nat): (r: Parsed)
    ensures r.Done? ==> 0 < r.used <= |buf| && position + r.used <= Bytes.Max(10, position + 1)
    decreases |buf|
  {
    if buf == [] then Incomplete
    else if buf[0] < 0x80 then Done(buf[0], 1)
    else if position + 1 >= 10 then Invalid
    else
      match Groups(buf[1..], position + 1)
      case Done(v, k) => Done(buf[0] as int % 0x80 + 0x80 * v, k + 1)
      case other => other
  }

  /** Bits beyond the sixty-fourth are dropped. */
  function Decode(buf: seq<Byte>): (r: Parsed)
    ensures r.Done? ==> 0 < r.used <= |buf| && r.used <= 10 && r.value <= U64_MAX
  {
    match Groups(buf, 0)
    case Done(v, k) => Done(v % 0x1_0000_0000_0000_0000, k)
    case other => other
  }

  /** `1 << 7 * index`, the weight of the group at an index. */
  function Weight(index: nat): (r: nat)
    ensures r > 0
  {
    if index == 0 then 1 else 0x80 * Weight(index - 1)
  }

  lemma TenthGroup()
    ensures Weight(9) == 0x8000_0000_0000_0000
  {
  }

  lemma NextGroup(v: nat, w: nat, bound: nat)
    requires v * w < bound
    ensures v / 0x80 * (0x80 * w) < bound
  {
    assert v / 0x80 * (0x80 * w) == (v / 0x80 * 0x80) * w;
    assert v / 0x80 * 0x80 <= v;
    assert (v / 0x80 * 0x80) * w <= v * w;
  }

  lemma {:induction false} GroupsOfEncoding(v: U64, rest: seq<Byte>, position: nat)
    requires position <= 9 && v * Weight(position) < 0x1_0000_0000_0000_0000
    ensures Groups(Encode(v) + rest, position) == Done(v, |Encode(v)|)
    decreases v
  {
    if v >= 0x80 {
      if position < 9 {
        NextGroup(v, Weight(position), 0x1_0000_0000_0000_0000);
        GroupsOfEncoding(v / 0x80, rest, position + 1);
        assert (Encode(v) + rest)[1..] == Encode(v / 0x80) + rest;
      } else {
        TenthGroup();
      }
    }
  }

  /** Decoding undoes encoding for every 64-bit value, whatever bytes follow. */
  lemma RoundTrip(v: U64, rest: seq<Byte>)
    ensures Decode(Encode(v) + rest) == Done(v, |Encode(v)|)
  {
    GroupsOfEncoding(v, rest, 0);
  }

  /** A decided prefix stays decided, with the same answer. */
  lemma {:induction false} GroupsStable(buf: seq<Byte>, more: seq<Byte>, position: nat)
    requires !Groups(buf, position).Incomplete?
    ensures Groups(buf + more, position) == Groups(buf, position)
    decreases |buf|
  {
    if buf[0] >= 0x80 && position + 1 < 10 {
      assert (buf + more)[1..] == buf[1..] + more;
      GroupsStable(buf[1..], more, position + 1);
    }
  }

  lemma DecodeStable(buf: seq<Byte>, more: seq<Byte>)
    requires !Decode(buf).Incomplete?
    ensures Decode(buf + more) == Decode(buf)
  {
    GroupsStable(buf, more, 0);
  }

  /** An encoding cut short is incomplete, not invalid. */
  lemma {:induction false} GroupsPrefix(buf: seq<Byte>, k: nat, position: nat)
    requires Groups(buf, position).Done? && k < Groups(buf, position).used
    ensures Groups(buf[..k], position).Incomplete?
    decreases |buf|
  {
    if k == 0 {
    } else {
      assert buf[..k][1..] == buf[1..][..k - 1];
      GroupsPrefix(buf[1..], k - 1, position + 1);
    }
  }

  lemma DecodePrefix(buf: seq<Byte>, k: nat)
    requires Decode(buf).Done? && k < Decode(buf).used
    ensures Decode(buf[..k]).Incomplete?
  {
    GroupsPrefix(buf, k, 0);
  }

  /** Decoding looks at nothing beyond the bytes it uses. */
  lemma {:induction false} GroupsLocal(buf: seq<Byte>, n: nat, position: nat)
    requires Groups(buf, position).Done? && Groups(buf, position).used <= n <= |buf|
    ensures Groups(buf[..n], position) == Groups(buf, position)
    decreases |buf|
  {
    if buf[0] >= 0x80 {
      assert buf[..n][1..] == buf[1..][..n - 1];
      GroupsLocal(buf[1..], n - 1, position + 1);
    }
  }

  // ---------- the loops ----------

  method EncodeUvarint(v: U64) returns (out: seq<Byte>)
    ensures out == Encode(v)
  {
    out := [];
    var value: U64 := v;
    while value >= 0x80
      invariant out + Encode(value) == Encode(v)
    {
      Assoc(out, [value as int % 0x80 + 0x80], Encode(value / 0x80));
      out := out + [value as int % 0x80 + 0x80];
      value := value / 0x80;
    }
    out := out + [value];
  }

  function Times(a: nat, b: nat): nat { a * b }

  /** How the groups still to come complete the groups already read. */
  function Resume(value: nat, index: nat, rest: Parsed): Parsed {
    match rest
    case Done(v, k) => Done(value + Times(Weight(index), v), index + k)
    case other => other
  }

  method DecodeUvarint(buf: seq<Byte>) returns (r: Parsed)
    ensures r == Decode(buf)
  {
    var value: U64, shift, index := 0, 0, 0;
    ghost var exact: nat := 0;
    while index < |buf|
      invariant index <= |buf| && index < 10 && shift == 7 * index
      invariant value == exact % 0x1_0000_0000_0000_0000
      invariant Groups(buf, 0) == Resume(exact, index, Groups(buf[index..], index))
    {
      var byte := buf[index];
      ghost var rest := buf[index..];
      assert rest[1..] == buf[index + 1..];
      ResumeStep(exact, index, rest);
      AddMod(exact, Times(Weight(index), byte as int % 0x80));
      exact := exact + Times(Weight(index), byte as int % 0x80);
      value := (value + Times(Weight(index), byte as int % 0x80)) % 0x1_0000_0000_0000_0000;
      index := index + 1;
      if byte < 0x80 { return Done(value, index); }
      shift := shift + 7;
      if shift >= 64 { return Invalid; }
    }
    r := Incomplete;
  }

  lemma AddMod(a: nat, b: nat)
    ensures (a + b) % 0x1_0000_0000_0000_0000 == (a % 0x1_0000_0000_0000_0000 + b) % 0x1_0000_0000_0000_0000
  {
  }

  lemma ResumeStep(value: nat, index: nat, rest: seq<Byte>)
    requires rest != []
    ensures var now := value + Times(Weight(index), rest[0] as int % 0x80);
      Resume(value, index, Groups(rest, index)) ==
        if rest[0] < 0x80 then Done(now, index + 1)
        else if index + 1 >= 10 then Invalid
        else Resume(now, index + 1, Groups(rest[1..], index + 1))
  {
    if rest[0] >= 0x80 && index + 1 < 10 {
      match Groups(rest[1..], index + 1)
      case Done(v, k) =>
        var b := rest[0] as int % 0x80;
        Distribute(Weight(index), b, v);
      case other =>
    }
  }

  lemma Distribute(p: nat, b: nat, v: nat)
    ensures Times(p, b + 0x80 * v) == Times(p, b) + Times(0x80 * p, v)
  {
  }
}
