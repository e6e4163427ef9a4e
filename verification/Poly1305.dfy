/** Poly1305 (monocypher.c), against section 2.5 of RFC 8439. */
module Poly1305 {
  import opened Words
  import opened Codec

  const P: int := 0x4_0000_0000_0000_0000_0000_0000_0000_0000 - 5   // 2^130 - 5
  const B2: int := 0x1_0000_0000_0000_0000
  const B3: int := 0x1_0000_0000_0000_0000_0000_0000
  const B4: int := 0x1_0000_0000_0000_0000_0000_0000_0000_0000

  /* ---- the definition of RFC 8439 ---- */

  /** One step of the polynomial. */
  function Absorb(a: int, c: int, r: int): (a': nat)
    ensures a' < P
  {
    (a + c) * r % P
  }

  /** A block of up to 16 bytes with a 1 byte appended, little-endian. */
  function BlockValue(b: seq<Byte>): nat {
    LeValue(b + [1])
  }

  /** The accumulator after the blocks of `m`, a whole number of them. */
  function Accumulated(m: seq<Byte>, r: nat): (a: nat)
    requires |m| % 16 == 0
    ensures a < P
  {
    if m == [] then 0
    else Absorb(Accumulated(m[..|m| - 16], r), BlockValue(m[|m| - 16..]), r)
  }

  /** The whole blocks of `m`, then the rest, if any. */
  function Accumulator(m: seq<Byte>, r: nat): nat {
    var k := |m| - |m| % 16;
    var a := Accumulated(m[..k], r);
    if k == |m| then a else Absorb(a, BlockValue(m[k..]), r)
  }

  function Tag(m: seq<Byte>, r: nat, s: nat): nat {
    (Accumulator(m, r) + s) % B4
  }

  /* ---- limbs ---- */

  datatype Limbs = Limbs(l0: U32, l1: U32, l2: U32, l3: U32, l4: U32) {
    function Value(): int {
      l0 as int + l1 as int * B + l2 as int * B2 + l3 as int * B3 + l4 as int * B4
    }

    function Residue(): nat { Value() % P }
  }

  /** Four words: a key, a block or a pad. */
  datatype Four = Four(r0: U32, r1: U32, r2: U32, r3: U32) {
    function Value(): (v: int)
      ensures v >= 0
    {
      r0 as int + r1 as int * B + r2 as int * B2 + r3 as int * B3
    }

    /** The bits that crypto_poly1305_init clears. */
    predicate Clamped() {
      && r0 <= 0x0fff_ffff && r1 <= 0x0fff_fffc && r2 <= 0x0fff_fffc && r3 <= 0x0fff_fffc
      && r1 % 4 == 0 && r2 % 4 == 0 && r3 % 4 == 0
    }
  }

  lemma MulBound(a: int, b: int, aMax: int, bMax: int)
    requires 0 <= a <= aMax && 0 <= b <= bMax
    ensures 0 <= a * b <= aMax * bMax
  {
  }

  /** The products of five and four limbs, summed by weight. */
  lemma Expand(s0: int, s1: int, s2: int, s3: int, s4: int, r: int)
    ensures (s0 + s1 * B + s2 * B2 + s3 * B3 + s4 * B4) * r
         == s0 * r + (s1 * r) * B + (s2 * r) * B2 + (s3 * r) * B3 + (s4 * r) * B4
  {
  }

  lemma Quadruple(s: int, q: int)
    ensures s * (4 * q) == 4 * (s * q) && s * (5 * q) == 5 * (s * q)
  {
  }

  /** (h + c) * r over limbs: folding the limbs of weight 2^128 and more down
      by 2^130 = 5 subtracts a multiple of 2^130 - 5. */
  lemma FoldedProduct(s0: int, s1: int, s2: int, s3: int, s4: int, q0: int, t: int, q1: int, q2: int, q3: int)
    ensures var r0, r1, r2, r3 := 4 * q0 + t, 4 * q1, 4 * q2, 4 * q3;
            var x0 := s0 * r0 + s1 * (5 * q3) + s2 * (5 * q2) + s3 * (5 * q1) + s4 * (5 * q0);
            var x1 := s0 * r1 + s1 * r0 + s2 * (5 * q3) + s3 * (5 * q2) + s4 * (5 * q1);
            var x2 := s0 * r2 + s1 * r1 + s2 * r0 + s3 * (5 * q3) + s4 * (5 * q2);
            var x3 := s0 * r3 + s1 * r2 + s2 * r1 + s3 * r0 + s4 * (5 * q3);
            var x4 := s4 * t;
            var k := s1 * q3 + s2 * q2 + s3 * q1 + s4 * q0
                   + (s2 * q3 + s3 * q2 + s4 * q1) * B + (s3 * q3 + s4 * q2) * B2 + (s4 * q3) * B3;
            (s0 + s1 * B + s2 * B2 + s3 * B3 + s4 * B4) * (r0 + r1 * B + r2 * B2 + r3 * B3)
            == x0 + x1 * B + x2 * B2 + x3 * B3 + x4 * B4 + P * k
  {
    var r0, r1, r2, r3 := 4 * q0 + t, 4 * q1, 4 * q2, 4 * q3;
    var s := s0 + s1 * B + s2 * B2 + s3 * B3 + s4 * B4;
    SumTimes(s, r0, r1, r2, r3);
    Expand(s0, s1, s2, s3, s4, r0);
    Expand(s0, s1, s2, s3, s4, r1);
    Expand(s0, s1, s2, s3, s4, r2);
    Expand(s0, s1, s2, s3, s4, r3);
    Quadruples(s0, q0, q1, q2, q3, t);
    Quadruples(s1, q0, q1, q2, q3, t);
    Quadruples(s2, q0, q1, q2, q3, t);
    Quadruples(s3, q0, q1, q2, q3, t);
    Quadruples(s4, q0, q1, q2, q3, t);
    Folded(s0 * q0, s0 * q1, s0 * q2, s0 * q3,
           s1 * q0, s1 * q1, s1 * q2, s1 * q3,
           s2 * q0, s2 * q1, s2 * q2, s2 * q3,
           s3 * q0, s3 * q1, s3 * q2, s3 * q3,
           s4 * q0, s4 * q1, s4 * q2, s4 * q3,
           s0 * t, s1 * t, s2 * t, s3 * t, s4 * t);
  }

  lemma Quadruples(s: int, q0: int, q1: int, q2: int, q3: int, t: int)
    ensures s * (4 * q0 + t) == 4 * (s * q0) + s * t
    ensures s * (4 * q1) == 4 * (s * q1) && s * (4 * q2) == 4 * (s * q2) && s * (4 * q3) == 4 * (s * q3)
    ensures s * (5 * q0) == 5 * (s * q0) && s * (5 * q1) == 5 * (s * q1)
    ensures s * (5 * q2) == 5 * (s * q2) && s * (5 * q3) == 5 * (s * q3)
  {
    Quadruple(s, q0);
    Quadruple(s, q1);
    Quadruple(s, q2);
    Quadruple(s, q3);
  }

  /** The same with the products as they are: `pij` of limb i and quarter j. */
  lemma Folded(p00: int, p01: int, p02: int, p03: int,
               p10: int, p11: int, p12: int, p13: int,
               p20: int, p21: int, p22: int, p23: int,
               p30: int, p31: int, p32: int, p33: int,
               p40: int, p41: int, p42: int, p43: int,
               t0: int, t1: int, t2: int, t3: int, t4: int)
    ensures (4 * p00 + t0) + (4 * p10 + t1) * B + (4 * p20 + t2) * B2 + (4 * p30 + t3) * B3 + (4 * p40 + t4) * B4
          + (4 * p01 + (4 * p11) * B + (4 * p21) * B2 + (4 * p31) * B3 + (4 * p41) * B4) * B
          + (4 * p02 + (4 * p12) * B + (4 * p22) * B2 + (4 * p32) * B3 + (4 * p42) * B4) * B2
          + (4 * p03 + (4 * p13) * B + (4 * p23) * B2 + (4 * p33) * B3 + (4 * p43) * B4) * B3
         == (4 * p00 + t0 + 5 * p13 + 5 * p22 + 5 * p31 + 5 * p40)
          + (4 * p01 + 4 * p10 + t1 + 5 * p23 + 5 * p32 + 5 * p41) * B
          + (4 * p02 + 4 * p11 + 4 * p20 + t2 + 5 * p33 + 5 * p42) * B2
          + (4 * p03 + 4 * p12 + 4 * p21 + 4 * p30 + t3 + 5 * p43) * B3
          + t4 * B4
          + P * (p13 + p22 + p31 + p40 + (p23 + p32 + p41) * B + (p33 + p42) * B2 + p43 * B3)
  {
  }

  lemma SumTimes(s: int, r0: int, r1: int, r2: int, r3: int)
    ensures s * (r0 + r1 * B + r2 * B2 + r3 * B3) == s * r0 + (s * r1) * B + (s * r2) * B2 + (s * r3) * B3
  {
  }

  /** The carries after the product leave the value, less a multiple of
      2^130 - 5. */
  lemma CarriedValue(x0: int, x1: int, x2: int, x3: int, x4: int,
                     u0: int, u1: int, u2: int, u3: int, u4: int, u5: int)
    requires u5 == x3 / B + x4
    requires u0 == u5 / 4 * 5 + x0 % B
    requires u1 == u0 / B + x1 % B + x0 / B
    requires u2 == u1 / B + x2 % B + x1 / B
    requires u3 == u2 / B + x3 % B + x2 / B
    requires u4 == u3 / B + u5 % 4
    ensures x0 + x1 * B + x2 * B2 + x3 * B3 + x4 * B4
         == u0 % B + (u1 % B) * B + (u2 % B) * B2 + (u3 % B) * B3 + u4 * B4 + P * (u5 / 4)
  {
  }

  datatype Wide = Wide(x0: U64, x1: U64, x2: U64, x3: U64, x4: U32) {
    function Value(): int {
      x0 as int + x1 as int * B + x2 as int * B2 + x3 as int * B3 + x4 as int * B4
    }

    /** What a product of a sum and a clamped key stays below. */
    predicate Bounded() {
      && x0 < 0x9800_0000_0000_0000 && x1 < 0x9800_0000_0000_0000
      && x2 < 0x9800_0000_0000_0000 && x3 <= 0x7fff_ffe5_ffff_ffff && x4 <= 15
    }
  }

  /** The sum h + c of a block, before carries. */
  datatype Sum = Sum(s0: U64, s1: U64, s2: U64, s3: U64, s4: U32) {
    function Value(): int {
      s0 as int + s1 as int * B + s2 as int * B2 + s3 as int * B3 + s4 as int * B4
    }

    predicate Bounded() {
      && s0 <= 0x1_ffff_fffe && s1 <= 0x1_ffff_fffe && s2 <= 0x1_ffff_fffe && s3 <= 0x1_ffff_fffe && s4 <= 5
    }
  }

  lemma ProductCorrect(s: Sum, r: Four, x: Wide)
    requires r.Clamped()
    requires var s0, s1, s2, s3, s4 := s.s0 as int, s.s1 as int, s.s2 as int, s.s3 as int, s.s4 as int;
             var r0, r1, r2, r3 := r.r0 as int, r.r1 as int, r.r2 as int, r.r3 as int;
             var rr0, rr1, rr2, rr3 := r0 / 4 * 5, r1 / 4 + r1, r2 / 4 + r2, r3 / 4 + r3;
             && x.x0 as int == s0 * r0 + s1 * rr3 + s2 * rr2 + s3 * rr1 + s4 * rr0
             && x.x1 as int == s0 * r1 + s1 * r0 + s2 * rr3 + s3 * rr2 + s4 * rr1
             && x.x2 as int == s0 * r2 + s1 * r1 + s2 * r0 + s3 * rr3 + s4 * rr2
             && x.x3 as int == s0 * r3 + s1 * r2 + s2 * r1 + s3 * r0 + s4 * rr3
             && x.x4 as int == s4 * (r0 % 4)
    ensures exists k: int :: s.Value() * r.Value() == x.Value() + P * k
  {
    var s0, s1, s2, s3, s4 := s.s0 as int, s.s1 as int, s.s2 as int, s.s3 as int, s.s4 as int;
    var q0, q1, q2, q3 := r.r0 as int / 4, r.r1 as int / 4, r.r2 as int / 4, r.r3 as int / 4;
    FoldedProduct(s0, s1, s2, s3, s4, q0, r.r0 as int % 4, q1, q2, q3);
    var k := s1 * q3 + s2 * q2 + s3 * q1 + s4 * q0
           + (s2 * q3 + s3 * q2 + s4 * q1) * B + (s3 * q3 + s4 * q2) * B2 + (s4 * q3) * B3;
    assert s.Value() * r.Value() == x.Value() + P * k;
  }

  /** (h + c) * r, without carry propagation. */
  method Product(s: Sum, r: Four) returns (x: Wide)
    requires s.Bounded() && r.Clamped()
    ensures x.Bounded() && exists k: int :: s.Value() * r.Value() == x.Value() + P * k
  {
    var r0, r1, r2, r3 := r.r0, r.r1, r.r2, r.r3;
    var rr0 := r0 / 4 * 5;
    var rr1 := r1 / 4 + r1;
    var rr2 := r2 / 4 + r2;
    var rr3 := r3 / 4 + r3;
    var rr4 := r0 % 4;
    var x0 := Row(s.s0, s.s1, s.s2, s.s3, s.s4, r0, rr3, rr2, rr1, rr0);
    var x1 := Row(s.s0, s.s1, s.s2, s.s3, s.s4, r1, r0, rr3, rr2, rr1);
    var x2 := Row(s.s0, s.s1, s.s2, s.s3, s.s4, r2, r1, r0, rr3, rr2);
    var x3 := Row(s.s0, s.s1, s.s2, s.s3, s.s4, r3, r2, r1, r0, rr3);
    MulBound(s.s4 as int, rr4 as int, 5, 3);
    x := Wide(x0, x1, x2, x3, s.s4 * rr4);
    ProductCorrect(s, r, x);
  }

  /** Partial reduction modulo 2^130 - 5. */
  method Reduce(x: Wide) returns (h: Limbs)
    requires x.Bounded()
    ensures h.l4 <= 4 && exists k: int :: x.Value() == h.Value() + P * k
  {
    var u5: U32 := Hi(x.x3) as U32 + x.x4;
    var u0: U64 := (u5 / 4 * 5) as U64 + Lo(x.x0);
    var u1: U64 := Hi(u0) + Lo(x.x1) + Hi(x.x0);
    var u2: U64 := Hi(u1) + Lo(x.x2) + Hi(x.x1);
    var u3: U64 := Hi(u2) + Lo(x.x3) + Hi(x.x2);
    var u4: U32 := Hi(u3) as U32 + u5 % 4;
    h := Limbs(Lo(u0) as U32, Lo(u1) as U32, Lo(u2) as U32, Lo(u3) as U32, u4);
    CarriedValue(x.x0 as int, x.x1 as int, x.x2 as int, x.x3 as int, x.x4 as int,
                 u0 as int, u1 as int, u2 as int, u3 as int, u4 as int, u5 as int);
    assert x.Value() == h.Value() + P * (u5 as int / 4);
  }

  /** One turn of the loop of poly_blocks: h' = (h + c) * r modulo
      2^130 - 5, within the bound h starts with; no 32- or 64-bit operation
      overflows. */
  method Block(h: Limbs, r: Four, w: Four, end: U32) returns (h': Limbs)
    requires h.l4 <= 4 && r.Clamped() && end <= 1
    ensures h'.l4 <= 4
    ensures h'.Residue() == Absorb(h.Residue(), w.Value() + end as int * B4, r.Value())
  {
    var s := Sum(h.l0 as U64 + w.r0 as U64, h.l1 as U64 + w.r1 as U64, h.l2 as U64 + w.r2 as U64,
                 h.l3 as U64 + w.r3 as U64, h.l4 + end);
    var x := Product(s, r);
    h' := Reduce(x);
    ghost var j: int :| s.Value() * r.Value() == x.Value() + P * j;
    ghost var k: int :| x.Value() == h'.Value() + P * k;
    BlockResidue(h.Value(), w.Value() + end as int * B4, r.Value(), h'.Value(), j + k);
  }

  lemma BlockResidue(h: int, c: int, r: int, v: int, k: int)
    requires (h + c) * r == v + P * k
    ensures v % P == Absorb(h % P, c, r)
  {
    SameResidue((h + c) * r, v, k);
    ModTimes(h, h % P, c, r);
  }

  lemma SameResidue(a: int, b: int, k: int)
    requires a == b + P * k
    ensures a % P == b % P
  {
  }

  /** A sum of five products; with the bounds of a block it stays in 64 bits,
      and the last product, made in 32 bits, stays in those. */
  method Row(s0: U64, s1: U64, s2: U64, s3: U64, s4: U32, a: U32, b: U32, c: U32, d: U32, e: U32) returns (x: U64)
    requires s0 <= 0x1_ffff_fffe && s1 <= 0x1_ffff_fffe && s2 <= 0x1_ffff_fffe && s3 <= 0x1_ffff_fffe && s4 <= 5
    requires a <= 0x0fff_ffff && b <= 0x13ff_fffb && c <= 0x13ff_fffb && d <= 0x13ff_fffb && e <= 0x13ff_fffb
    ensures x as int == s0 as int * a as int + s1 as int * b as int + s2 as int * c as int
                      + s3 as int * d as int + s4 as int * e as int
    ensures x as int <= 0x1_ffff_fffe * (a as int + b as int + c as int + d as int) + 5 * e as int
  {
    MulBound(s0 as int, a as int, 0x1_ffff_fffe, a as int);
    MulBound(s1 as int, b as int, 0x1_ffff_fffe, b as int);
    MulBound(s2 as int, c as int, 0x1_ffff_fffe, c as int);
    MulBound(s3 as int, d as int, 0x1_ffff_fffe, d as int);
    MulBound(s4 as int, e as int, 5, e as int);
    x := s0 * a as U64 + s1 * b as U64 + s2 * c as U64 + s3 * d as U64 + (s4 * e) as U64;
  }

  /* ---- bytes and words ---- */

  lemma {:induction false} LeValueAppend(a: seq<Byte>, b: seq<Byte>)
    ensures LeValue(a + b) == LeValue(a) + Pow256(|a|) * LeValue(b)
  {
    if a == [] {
      assert a + b == b;
    } else {
      assert (a + b)[1..] == a[1..] + b;
      LeValueAppend(a[1..], b);
      assert 256 * (Pow256(|a| - 1) * LeValue(b)) == Pow256(|a|) * LeValue(b);
    }
  }

  lemma {:induction false} LeValueBound(a: seq<Byte>)
    ensures LeValue(a) < Pow256(|a|)
  {
    if a != [] {
      LeValueBound(a[1..]);
    }
  }

  lemma {:induction false} LeValueZeros(k: nat)
    ensures LeValue(seq(k, _ => 0)) == 0
  {
    if k > 0 {
      var z := seq(k, _ => 0 as Byte);
      assert z[1..] == seq(k - 1, _ => 0);
      LeValueZeros(k - 1);
    }
  }

  lemma Pow256Values()
    ensures Pow256(4) == B && Pow256(8) == B2 && Pow256(12) == B3 && Pow256(16) == B4
  {
    assert Pow256(4) == B;
    assert Pow256(8) == B * Pow256(4);
    assert Pow256(12) == B * Pow256(8);
    assert Pow256(16) == B * Pow256(12);
  }

  /** load32_le */
  function Load32(b: seq<Byte>): (w: U32)
    requires |b| == 4
    ensures w as int == LeValue(b)
  {
    LeValueBound(b);
    Pow256Values();
    LeValue(b) as U32
  }

  lemma Quarters(b: seq<Byte>)
    requires |b| == 16
    ensures b == b[..4] + b[4..]
    ensures b[4..] == b[4..8] + b[8..]
    ensures b[8..] == b[8..12] + b[12..16]
  {
  }

  function LoadFour(b: seq<Byte>): (w: Four)
    requires |b| == 16
    ensures w.Value() == LeValue(b)
  {
    Quarters(b);
    Pow256Values();
    LeValueAppend(b[..4], b[4..]);
    LeValueAppend(b[4..8], b[8..]);
    LeValueAppend(b[8..12], b[12..16]);
    Four(Load32(b[..4]), Load32(b[4..8]), Load32(b[8..12]), Load32(b[12..16]))
  }

  lemma WholeBlock(b: seq<Byte>)
    requires |b| == 16
    ensures BlockValue(b) == LoadFour(b).Value() + B4
  {
    Pow256Values();
    LeValueAppend(b, [1]);
    assert LeValue([1 as Byte]) == 1;
  }

  /** The last block, its 1 byte moved in and padded with zeros. */
  lemma PaddedBlock(b: seq<Byte>)
    requires |b| < 16
    ensures BlockValue(b) == LoadFour(b + [1] + seq(15 - |b|, _ => 0)).Value()
  {
    hide LoadFour;
    hide LeValue;
    hide Pow256;
    hide Four.Value;
    LeValueAppend(b + [1], seq(15 - |b|, _ => 0));
    LeValueZeros(15 - |b|);
  }

  /* ---- blocks ---- */

  lemma NextBlock(m: seq<Byte>, b: seq<Byte>, r: nat)
    requires |m| % 16 == 0 && |b| == 16
    ensures Accumulated(m + b, r) == Absorb(Accumulated(m, r), BlockValue(b), r)
  {
    hide Absorb;
    hide BlockValue;
    assert (m + b)[..|m + b| - 16] == m && (m + b)[|m + b| - 16..] == b;
  }

  lemma ModTimes(a: int, b: int, c: int, r: int)
    requires a % P == b % P
    ensures Absorb(a, c, r) == Absorb(b, c, r)
  {
    var j, k := a / P, b / P;
    assert a - b == P * (j - k);
    assert (a + c) * r == (b + c) * r + (a - b) * r;
    assert (a - b) * r == P * ((j - k) * r);
    SameResidue((a + c) * r, (b + c) * r, (j - k) * r);
  }

  /** poly_blocks with whole blocks (`end` 1): the accumulator after `m`
      becomes the one after `m` and the blocks. */
  method Blocks(h: Limbs, r: Four, data: seq<Byte>, nb: nat, ghost m: seq<Byte>) returns (h': Limbs)
    requires |data| >= 16 * nb && |m| % 16 == 0
    requires h.l4 <= 4 && r.Clamped() && h.Residue() == Accumulated(m, r.Value())
    ensures h'.l4 <= 4 && h'.Residue() == Accumulated(m + data[..16 * nb], r.Value())
  {
    hide Absorb;
    hide BlockValue;
    hide Accumulated;
    hide LoadFour;
    hide Limbs.Residue;
    h' := h;
    assert m + data[..0] == m;
    for i := 0 to nb
      invariant h'.l4 <= 4 && h'.Residue() == Accumulated(m + data[..16 * i], r.Value())
    {
      var b := data[16 * i..16 * i + 16];
      ghost var done := m + data[..16 * i];
      h' := Block(h', r, LoadFour(b), 1);
      WholeBlock(b);
      NextBlock(done, b, r.Value());
      assert m + data[..16 * (i + 1)] == done + b;
    }
  }

  /* ---- the tag ---- */

  ghost function PowB(i: nat): int {
    if i == 0 then 1 else B * PowB(i - 1)
  }

  ghost function Low(w: seq<U32>, i: nat): int
    requires i <= |w|
  {
    if i == 0 then 0 else Low(w, i - 1) + w[i - 1] as int * PowB(i - 1)
  }

  lemma FourLow(f: Four)
    ensures Low(Words4(f), 4) == f.Value()
    ensures PowB(4) == B4
  {
    assert PowB(1) == B && PowB(2) == B2 && PowB(3) == B3;
    assert Low(Words4(f), 1) == f.r0 as int;
    assert Low(Words4(f), 2) == f.r0 as int + f.r1 as int * B;
    assert Low(Words4(f), 3) == f.r0 as int + f.r1 as int * B + f.r2 as int * B2;
  }

  function Words4(f: Four): seq<U32> { [f.r0, f.r1, f.r2, f.r3] }

  lemma CarryOn(total: int, c: int, add: int, pow: int, low: int)
    requires total == c * pow + low && 0 <= low < pow
    ensures total + add * pow == ((c + add) / B) * (B * pow) + ((c + add) % B * pow + low)
    ensures 0 <= (c + add) % B * pow + low < B * pow
  {
    var q, t := (c + add) / B, (c + add) % B;
    assert (c + add) * pow == (q * B + t) * pow;
    assert (q * B + t) * pow == q * (B * pow) + t * pow;
    MulBound(t, pow, B - 1, pow);
    assert t * pow <= (B - 1) * pow;
  }

  /** How many times 2^130 - 5 goes into h: the carry out of h + 5. */
  method Excess(h: Limbs) returns (q: U64)
    requires h.l4 <= 4
    ensures q as int == (h.Value() + 5) / (4 * B4)
    ensures q <= 1
  {
    var w := [h.l0, h.l1, h.l2, h.l3];
    var c: U64 := 5;
    ghost var low := 0;
    for i := 0 to 4
      invariant 5 + Low(w, i) == c as int * PowB(i) + low && 0 <= low < PowB(i)
      invariant c <= 0x1_0000_0000
    {
      CarryOn(5 + Low(w, i), c as int, w[i] as int, PowB(i), low);
      low := (c as int + w[i] as int) % B * PowB(i) + low;
      c := Hi(c + w[i] as U64);
    }
    FourLow(Four(h.l0, h.l1, h.l2, h.l3));
    c := c + h.l4 as U64;
    q := c / 4;
    assert h.Value() + 5 == c as int * B4 + low;
  }

  lemma NextLow(w: seq<U32>, i: nat)
    requires i < |w|
    ensures Low(w, i + 1) == Low(w, i) + w[i] as int * PowB(i) && PowB(i + 1) == B * PowB(i)
  {
  }

  /** One word of the sum of h, the pad and `q`, with its carry. */
  lemma SumWord(w: seq<U32>, p: seq<U32>, q: int, c: int, i: nat, mac: seq<Byte>, sum: nat)
    requires i < |w| == |p| && |mac| == 4 * i && sum == c + w[i] as int + p[i] as int
    requires q + Low(w, i) + Low(p, i) == c * PowB(i) + LeValue(mac)
    ensures q + Low(w, i + 1) + Low(p, i + 1) == (sum / B) * PowB(i + 1) + LeValue(mac + LeBytes(sum % B, 4))
  {
    hide LeValue;
    hide Low;
    hide PowB;
    NextLow(w, i);
    NextLow(p, i);
    var a, d, total := w[i] as int, p[i] as int, q + Low(w, i) + Low(p, i);
    LeValueBound(mac);
    PowBytes(i);
    CarryOn(total, c, a + d, PowB(i), LeValue(mac));
    LeValueAppend(mac, LeBytes(sum % B, 4));
    Pow256Values();
    LeRoundTrip(sum % B, 4);
    assert (a + d) * PowB(i) == a * PowB(i) + d * PowB(i);
  }

  /** The last carry propagation of crypto_poly1305_final, with the pad. */
  method AddPad(h: Limbs, pad: Four, q: U64) returns (mac: seq<Byte>)
    requires q <= 1
    ensures |mac| == 16
    ensures LeValue(mac) == (h.Value() + pad.Value() + 5 * q as int) % B4
  {
    hide LeValue;
    hide PowB;
    hide Low;
    var w, p := Words4(Four(h.l0, h.l1, h.l2, h.l3)), Words4(pad);
    var c := q * 5;
    mac := [];
    NoWords(w, p);
    for i := 0 to 4
      invariant |mac| == 4 * i && c <= 0x1_0000_0000
      invariant 5 * q as int + Low(w, i) + Low(p, i) == c as int * PowB(i) + LeValue(mac)
    {
      var sum := c + w[i] as U64 + p[i] as U64;
      SumWord(w, p, 5 * q as int, c as int, i, mac, sum as nat);
      mac := mac + LeBytes(Lo(sum) as nat, 4);
      c := Hi(sum);
    }
    FourLow(Four(h.l0, h.l1, h.l2, h.l3));
    FourLow(pad);
    LeValueBound(mac);
    Pow256Values();
    LastCarry(h.Value() + pad.Value() + 5 * q as int, LeValue(mac), c as int + h.l4 as int);
  }

  lemma NoWords(w: seq<U32>, p: seq<U32>)
    ensures Low(w, 0) == Low(p, 0) == 0 && PowB(0) == 1 && LeValue([]) == 0
  {
  }

  lemma LastCarry(total: int, low: int, c: int)
    requires total == c * B4 + low && 0 <= low < B4
    ensures low == total % B4
  {
  }

  lemma {:induction false} PowBytes(i: nat)
    ensures Pow256(4 * i) == PowB(i)
  {
    if i > 0 {
      PowBytes(i - 1);
      var k := 4 * (i - 1);
      assert Pow256(k + 2) == 256 * Pow256(k + 1);
      assert Pow256(k + 4) == 256 * Pow256(k + 3);
    }
  }

  /** Subtracting 2^130 - 5 as often as it goes into h, modulo 2^128. */
  lemma TagFromLimbs(h: Limbs, q: int, s: int)
    requires h.l4 <= 4 && q == (h.Value() + 5) / (4 * B4) && 0 <= q <= 1
    ensures (h.Value() + s + 5 * q) % B4 == (h.Residue() + s) % B4
  {
    assert P == 4 * B4 - 5;
    assert 0 <= h.Value() < 5 * B4;
    if q == 0 {
      assert h.Value() < P;
    } else {
      assert P <= h.Value() < 2 * P;
      assert h.Value() % P == h.Value() - P;
      assert h.Value() + s + 5 == (h.Value() - P + s) + 4 * B4;
    }
  }

  /* ---- the context ---- */

  /** How much of `n` bytes is in an incomplete block. */
  function Part(n: nat): (k: nat)
    ensures k < 16 && k <= n && (n - k) % 16 == 0
  {
    n % 16
  }

  /** The accumulator after the whole blocks `m`. */
  ghost predicate Kept(m: seq<Byte>, h: Limbs, r: Four)
    requires |m| % 16 == 0
  {
    r.Clamped() && h.l4 <= 4 && h.Residue() == Accumulated(m, r.Value())
  }

  lemma NothingKept(r: Four)
    requires r.Clamped()
    ensures Part(0) == 0 && Kept([], Limbs(0, 0, 0, 0, 0), r)
  {
  }

  /** The incomplete block of a message and of its continuation. */
  lemma TailGrows(m: seq<Byte>, more: seq<Byte>, k: nat)
    requires k <= |m|
    ensures (m + more)[..|m| - k] == m[..|m| - k]
    ensures (m + more)[|m| - k..] == m[|m| - k..] + more
    ensures m[..|m| - k] + (m[|m| - k..] + more) == m + more
    ensures (m + more)[..|m + more|] == m + more && (m + more)[|m + more|..] == []
  {
  }

  lemma ThreeParts(m: seq<Byte>, more: seq<Byte>, i: nat, j: nat)
    requires i + j <= |more|
    ensures m + more[..i] + more[i..][..j] + more[i..][j..] == m + more
  {
    assert more[i..] == more[i..][..j] + more[i..][j..];
    assert more == more[..i] + more[i..];
  }

  lemma PartAdds(n: nat, k: nat)
    ensures Part(n) + k < 16 ==> Part(n + k) == Part(n) + k
    ensures Part(n) + k == 16 ==> Part(n + k) == 0
    ensures k % 16 == 0 ==> Part(n + k) == Part(n)
  {
  }

  /** The bytes of `len` that go to the end of the block, `idx` bytes into it. */
  function ToAlign(idx: nat, len: nat): (k: nat)
    requires idx < 16
    ensures k <= len && idx + k <= 16
    ensures k < len ==> idx + k == 16 || idx == 0
  {
    var gap := (16 - idx) % 16;
    if gap < len then gap else len
  }

  lemma Cut(n: nat) returns (blocks: nat)
    ensures blocks == n / 16 && 16 * blocks <= n < 16 * blocks + 16
  {
    blocks := n / 16;
  }

  class Context {
    const c: array<Byte>   // the block being filled
    var cIdx: nat
    var h: Limbs
    var r: Four
    var pad: Four
    ghost var msg: seq<Byte>

    /** The context has taken `m`; its last bytes are in the block. */
    ghost predicate Holds(m: seq<Byte>)
      reads this, c
    {
      && c.Length == 16 && cIdx <= |m| && cIdx <= 16 && (|m| - cIdx) % 16 == 0
      && c[..cIdx] == m[|m| - cIdx..] && Kept(m[..|m| - cIdx], h, r)
    }

    ghost predicate Valid()
      reads this, c
    {
      cIdx == Part(|msg|) && Holds(msg)
    }

    /** crypto_poly1305_init */
    constructor (key: seq<Byte>)
      requires |key| == 32
      ensures Valid() && msg == [] && fresh(c)
      ensures r == Clamp(LoadFour(key[..16])) && pad == LoadFour(key[16..])
    {
      hide LoadFour;
      hide LeValue;
      hide Clamp;
      hide Holds;
      hide Part;
      hide Four.Value;
      hide Four.Clamped;
      c := new Byte[16](_ => 0);
      cIdx, h, msg := 0, Limbs(0, 0, 0, 0, 0), [];
      r, pad := Clamp(LoadFour(key[..16])), LoadFour(key[16..]);
      new;
      HoldsNothing();
    }

    lemma HoldsNothing()
      requires c.Length == 16 && cIdx == 0 && h == Limbs(0, 0, 0, 0, 0) && r.Clamped()
      ensures Holds([]) && Part(0) == 0
    {
      hide Four.Value;
      hide Four.Clamped;
      NothingKept(r);
    }

    /** Bytes of a message up to the end of the block being filled. */
    method Fill(bytes: seq<Byte>)
      requires cIdx + |bytes| <= 16 == c.Length
      modifies `cIdx, c
      ensures cIdx == old(cIdx) + |bytes| && c[..cIdx] == old(c[..cIdx]) + bytes
    {
      ghost var start := cIdx;
      for i := 0 to |bytes|
        invariant cIdx == start + i && c[..cIdx] == old(c[..cIdx]) + bytes[..i]
      {
        c[cIdx] := bytes[i];
        cIdx := cIdx + 1;
      }
    }

    /** More bytes of the message, up to the end of the block. */
    method Extend(bytes: seq<Byte>)
      requires Valid() && cIdx + |bytes| <= 16
      modifies `cIdx, c
      ensures Holds(msg + bytes) && cIdx == old(cIdx) + |bytes|
    {
      hide Kept;
      TailGrows(msg, bytes, cIdx);
      Fill(bytes);
    }

    /** The full block is absorbed. */
    method TakeBlock(ghost m: seq<Byte>)
      requires Holds(m) && cIdx == 16
      modifies `cIdx, `h
      ensures Holds(m) && cIdx == 0
    {
      hide Accumulated;
      hide Limbs.Residue;
      hide Four.Clamped;
      hide Four.Value;
      ghost var whole := m[..|m| - 16];
      h := Blocks(h, r, c[..], 1, whole);
      assert c[..][..16 * 1] == c[..] == c[..16];
      assert whole + c[..] == m == m[..|m|];
      cIdx := 0;
    }

    /** The first part of crypto_poly1305_update: bytes up to a block's end. */
    method Align(part: seq<Byte>)
      requires Valid() && cIdx + |part| <= 16
      modifies this, c
      ensures Valid() && msg == old(msg) + part && r == old(r) && pad == old(pad)
      ensures cIdx == if old(cIdx) + |part| == 16 then 0 else old(cIdx) + |part|
    {
      hide Kept;
      hide Part;
      hide Holds;
      PartAdds(|msg|, |part|);
      ghost var m1 := msg + part;
      Extend(part);
      if cIdx == 16 {
        TakeBlock(m1);
      }
      SetMessage(m1);
    }

    ghost method SetMessage(m: seq<Byte>)
      requires Holds(m)
      modifies `msg
      ensures Holds(m) && msg == m
    {
      msg := m;
    }

    /** The middle of it: the whole blocks of the rest. */
    method WholeBlocks(data: seq<Byte>, nb: nat)
      requires Valid() && 16 * nb <= |data| && (cIdx == 0 || nb == 0)
      modifies this
      ensures Valid() && msg == old(msg) + data[..16 * nb] && r == old(r) && pad == old(pad)
      ensures cIdx == old(cIdx)
    {
      hide Accumulated;
      hide Limbs.Residue;
      hide Four.Clamped;
      hide Four.Value;
      hide Part;
      PartAdds(|msg|, 16 * nb);
      ghost var whole := msg[..|msg| - cIdx];
      h := Blocks(h, r, data, nb, whole);
      ghost var m1 := msg + data[..16 * nb];
      if cIdx == 0 {
        assert whole == msg && m1[..|m1|] == m1;
      } else {
        assert m1 == msg && whole + data[..0] == whole;
      }
      msg := m1;
    }

    /** The end of it: the bytes after the last whole block, which never
        complete one. */
    method FillTail(tail: seq<Byte>)
      requires Valid() && cIdx + |tail| < 16
      modifies this, c
      ensures Valid() && msg == old(msg) + tail && r == old(r) && pad == old(pad)
    {
      hide Kept;
      hide Part;
      PartAdds(|msg|, |tail|);
      hide Holds;
      ghost var m1 := msg + tail;
      Extend(tail);
      SetMessage(m1);
    }

    /** crypto_poly1305_update */
    method Update(message: seq<Byte>)
      requires Valid()
      modifies this, c
      ensures Valid() && msg == old(msg) + message && r == old(r) && pad == old(pad)
    {
      hide Kept;
      hide Part;
      if |message| == 0 {
        assert msg + message == msg;
        return;
      }
      ghost var m0 := msg;
      hide ToAlign;
      hide Holds;
      hide Four.Value;
      hide Limbs.Value;
      var aligned := ToAlign(cIdx, |message|);
      Align(message[..aligned]);
      var rest := message[aligned..];
      var nb := |rest| / 16;
      ghost var _ := Cut(|rest|);
      WholeBlocks(rest, nb);
      FillTail(rest[16 * nb..]);
      ThreeParts(m0, message, aligned, 16 * nb);
    }

    /** crypto_poly1305_final: the tag of RFC 8439, of the whole message. */
    method Final() returns (mac: seq<Byte>)
      requires Valid()
      modifies this, c
      ensures |mac| == 16 && LeValue(mac) == Tag(old(msg), old(r).Value(), old(pad).Value())
    {
      hide Absorb;
      hide BlockValue;
      hide Accumulated;
      hide LoadFour;
      hide LeValue;
      hide Limbs.Residue;
      var last := h;
      if cIdx != 0 {
        ghost var b := msg[|msg| - cIdx..];
        forall i | cIdx <= i < 16 {
          c[i] := 0;
        }
        c[cIdx] := 1;
        assert c[..] == b + [1] + seq(15 - |b|, _ => 0);
        PaddedBlock(b);
        last := Block(h, r, LoadFour(c[..]), 0);
      } else {
        assert msg[..|msg|] == msg;
      }
      var q := Excess(last);
      mac := AddPad(last, pad, q);
      TagFromLimbs(last, q as int, pad.Value());
    }
  }

  /** The bits cleared in r. */
  function Clamp(w: Four): (r: Four)
    ensures r.Clamped()
  {
    Four(w.r0 % 0x1000_0000, w.r1 % 0x1000_0000 / 4 * 4, w.r2 % 0x1000_0000 / 4 * 4, w.r3 % 0x1000_0000 / 4 * 4)
  }

  /** crypto_poly1305 over any split of a message: the tag is that of the
      message. */
  method Mac(key: seq<Byte>, parts: seq<seq<Byte>>) returns (mac: seq<Byte>)
    requires |key| == 32
    ensures |mac| == 16
    ensures LeValue(mac) == Tag(Joined(parts), Clamp(LoadFour(key[..16])).Value(), LoadFour(key[16..]).Value())
  {
    hide Clamp;
    hide Context.Valid;
    hide Tag;
    hide Four.Value;
    hide Absorb;
    hide BlockValue;
    hide Accumulated;
    hide LoadFour;
    hide LeValue;
    hide Limbs.Residue;
    var ctx := new Context(key);
    for i := 0 to |parts|
      invariant ctx.Valid() && fresh(ctx) && fresh(ctx.c)
      invariant ctx.msg == Joined(parts[..i])
      invariant ctx.r == Clamp(LoadFour(key[..16])) && ctx.pad == LoadFour(key[16..])
    {
      assert parts[..i + 1][..i] == parts[..i];
      ctx.Update(parts[i]);
    }
    assert parts[..|parts|] == parts;
    mac := ctx.Final();
  }

  function Joined(parts: seq<seq<Byte>>): seq<Byte> {
    if parts == [] then [] else Joined(parts[..|parts| - 1]) + parts[|parts| - 1]
  }
}
