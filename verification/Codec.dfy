/** Big- and little-endian integers of the packet headers (session.c). */
module Codec {
  type Byte = b: nat | b < 256

  const U32: nat := 0x1_0000_0000
  const U64: nat := 0x1_0000_0000_0000_0000

  /** `v` without its lowest `i` bytes: `v >> (8 * i)`. */
  function Shifted(v: nat, i: nat): nat {
    if i == 0 then v else Shifted(v, i - 1) / 256
  }

  function Low(v: nat): Byte { v % 256 }

  /** The lowest `k` bytes of `v`, lowest first. */
  function LeBytes(v: nat, k: nat): (s: seq<Byte>)
    ensures |s| == k
  {
    if k == 0 then [] else LeBytes(v, k - 1) + [Low(Shifted(v, k - 1))]
  }

  /** The number whose bytes are `s`, lowest first. */
  function LeValue(s: seq<Byte>): nat {
    if s == [] then 0 else s[0] + 256 * LeValue(s[1..])
  }

  function Be32(v: nat): (s: seq<Byte>)
    ensures |s| == 4
  {
    [Low(Shifted(v, 3)), Low(Shifted(v, 2)), Low(Shifted(v, 1)), Low(v)]
  }

  /** v2_read_u32 */
  function ReadU32(p: seq<Byte>): nat
    requires |p| >= 4
  {
    var b0: nat, b1: nat, b2: nat, b3: nat := p[0], p[1], p[2], p[3];
    b0 * 0x100_0000 + b1 * 0x1_0000 + b2 * 0x100 + b3
  }

  lemma {:induction false} ShiftedTwice(v: nat, i: nat)
    ensures Shifted(v, i + 1) == Shifted(v / 256, i)
  {
    if i > 0 {
      ShiftedTwice(v, i - 1);
    }
  }

  lemma {:induction false} LeBytesFromLow(v: nat, k: nat)
    ensures LeBytes(v, k + 1) == [Low(v)] + LeBytes(v / 256, k)
  {
    if k > 0 {
      LeBytesFromLow(v, k - 1);
      ShiftedTwice(v, k - 1);
      assert [Low(v)] + LeBytes(v / 256, k)
          == ([Low(v)] + LeBytes(v / 256, k - 1)) + [Low(Shifted(v / 256, k - 1))];
    }
  }

  ghost function Pow256(k: nat): nat {
    if k == 0 then 1 else 256 * Pow256(k - 1)
  }

  /** Writing and reading back `k` bytes gives the number back. */
  lemma {:induction false} LeRoundTrip(v: nat, k: nat)
    requires v < Pow256(k)
    ensures LeValue(LeBytes(v, k)) == v
  {
    if k > 0 {
      LeBytesFromLow(v, k - 1);
      LeRoundTrip(v / 256, k - 1);
      assert LeBytes(v, k)[1..] == LeBytes(v / 256, k - 1);
    }
  }

  lemma Be32RoundTrip(v: nat)
    requires v < U32
    ensures ReadU32(Be32(v)) == v
  {
    assert Shifted(v, 1) == v / 256;
    assert Shifted(v, 2) == v / 256 / 256;
    assert Shifted(v, 3) == v / 256 / 256 / 256;
  }

  lemma U64IsPow()
    ensures Pow256(8) == U64
  {
    assert Pow256(4) == U32;
  }

  /** write_le64 */
  method WriteLe64(v: nat) returns (out: seq<Byte>)
    ensures out == LeBytes(v, 8)
  {
    out := [];
    for i := 0 to 8
      invariant out == LeBytes(v, i)
    {
      out := out + [Low(Shifted(v, i))];
    }
  }

  /** read_le64 */
  method ReadLe64(p: seq<Byte>) returns (v: nat)
    requires |p| == 8
    ensures v == LeValue(p)
  {
    v := 0;
    for i := 8 downto 0
      invariant v == LeValue(p[i..])
    {
      assert p[i..][1..] == p[i + 1..];
      v := v * 256 + p[i];
    }
    assert p[0..] == p;
  }
}
