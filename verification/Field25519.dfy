/** Arithmetic modulo 2^255 - 19 over ten signed limbs of 26 and 25 bits in
    turn (monocypher.c). */
module Field25519 {
  import opened SignedWords

  const W0: int := 0x1
  const W1: int := 0x4000000
  const W2: int := 0x8000000000000
  const W3: int := 0x20000000000000000000
  const W4: int := 0x40000000000000000000000000
  const W5: int := 0x100000000000000000000000000000000
  const W6: int := 0x200000000000000000000000000000000000000
  const W7: int := 0x800000000000000000000000000000000000000000000
  const W8: int := 0x1000000000000000000000000000000000000000000000000000
  const W9: int := 0x4000000000000000000000000000000000000000000000000000000000
  const P: int := 0x7fffffffffffffffffffffffffffffffffffffffffffffffffffffffffffffed   // 2^255 - 19

  datatype Fe = Fe(l0: I32, l1: I32, l2: I32, l3: I32, l4: I32, l5: I32, l6: I32, l7: I32, l8: I32, l9: I32) {
    function Value(): int {
      Weighted(l0 as int, l1 as int, l2 as int, l3 as int, l4 as int, l5 as int, l6 as int, l7 as int, l8 as int, l9 as int)
    }

    /** What fe_mul and fe_sq demand: even limbs below 1.65 * 2^26, odd ones
        below 1.65 * 2^25. */
    predicate InRange() {
      && Within(l0, 110_729_625) && Within(l2, 110_729_625) && Within(l4, 110_729_625) && Within(l6, 110_729_625) && Within(l8, 110_729_625)
      && Within(l1, 55_364_812) && Within(l3, 55_364_812) && Within(l5, 55_364_812) && Within(l7, 55_364_812) && Within(l9, 55_364_812)
    }

    /** What they give: below 1.1 * 2^25 and 1.1 * 2^24. */
    predicate Reduced() {
      && Within(l0, 36_909_875) && Within(l2, 36_909_875) && Within(l4, 36_909_875) && Within(l6, 36_909_875) && Within(l8, 36_909_875)
      && Within(l1, 18_454_937) && Within(l3, 18_454_937) && Within(l5, 18_454_937) && Within(l7, 18_454_937) && Within(l9, 18_454_937)
    }
  }

  predicate Within(x: I32, bound: int) {
    -bound <= x as int <= bound
  }

  function Weighted(t0: int, t1: int, t2: int, t3: int, t4: int, t5: int, t6: int, t7: int, t8: int, t9: int): int {
    t0 * W0 + t1 * W1 + t2 * W2 + t3 * W3 + t4 * W4 + t5 * W5 + t6 * W6 + t7 * W7 + t8 * W8 + t9 * W9
  }

  /** Two numbers that differ by a multiple of 2^255 - 19. */
  ghost predicate Congruent(a: int, b: int) {
    exists k: int :: a == b + P * k
  }

  lemma CongruentTrans(a: int, b: int, c: int)
    requires Congruent(a, b) && Congruent(b, c)
    ensures Congruent(a, c) && a % P == c % P
  {
    var j: int :| a == b + P * j;
    var k: int :| b == c + P * k;
    assert a == c + P * (j + k);
  }

  /** Ten numbers of any size, with the same weights. */
  datatype Ten = Ten(t0: int, t1: int, t2: int, t3: int, t4: int, t5: int, t6: int, t7: int, t8: int, t9: int) {
    function Value(): int {
      Weighted(t0, t1, t2, t3, t4, t5, t6, t7, t8, t9)
    }
  }

  function Limbs(f: Fe): Ten {
    Ten(f.l0 as int, f.l1 as int, f.l2 as int, f.l3 as int, f.l4 as int,
        f.l5 as int, f.l6 as int, f.l7 as int, f.l8 as int, f.l9 as int)
  }

  function Dot10(a0: int, a1: int, a2: int, a3: int, a4: int, a5: int, a6: int, a7: int, a8: int, a9: int,
                 b0: int, b1: int, b2: int, b3: int, b4: int, b5: int, b6: int, b7: int, b8: int, b9: int): int {
    a0 * b0 + a1 * b1 + a2 * b2 + a3 * b3 + a4 * b4 + a5 * b5 + a6 * b6 + a7 * b7 + a8 * b8 + a9 * b9
  }

  function Dot6(a0: int, a1: int, a2: int, a3: int, a4: int, a5: int,
                b0: int, b1: int, b2: int, b3: int, b4: int, b5: int): int {
    a0 * b0 + a1 * b1 + a2 * b2 + a3 * b3 + a4 * b4 + a5 * b5
  }

  /** The ten sums of fe_mul: those of limb products of weight 2^255 and more
      come back 19-fold, two odd limbs make twice the weight. */
  function MulSums(f: Ten, g: Ten): Ten {
    var Ten(f0, f1, f2, f3, f4, f5, f6, f7, f8, f9) := f;
    var Ten(g0, g1, g2, g3, g4, g5, g6, g7, g8, g9) := g;
    Ten(Dot10(f0, 2 * f1, f2, 2 * f3, f4, 2 * f5, f6, 2 * f7, f8, 2 * f9,
              g0, 19 * g9, 19 * g8, 19 * g7, 19 * g6, 19 * g5, 19 * g4, 19 * g3, 19 * g2, 19 * g1),
        Dot10(f0, f1, f2, f3, f4, f5, f6, f7, f8, f9,
              g1, g0, 19 * g9, 19 * g8, 19 * g7, 19 * g6, 19 * g5, 19 * g4, 19 * g3, 19 * g2),
        Dot10(f0, 2 * f1, f2, 2 * f3, f4, 2 * f5, f6, 2 * f7, f8, 2 * f9,
              g2, g1, g0, 19 * g9, 19 * g8, 19 * g7, 19 * g6, 19 * g5, 19 * g4, 19 * g3),
        Dot10(f0, f1, f2, f3, f4, f5, f6, f7, f8, f9,
              g3, g2, g1, g0, 19 * g9, 19 * g8, 19 * g7, 19 * g6, 19 * g5, 19 * g4),
        Dot10(f0, 2 * f1, f2, 2 * f3, f4, 2 * f5, f6, 2 * f7, f8, 2 * f9,
              g4, g3, g2, g1, g0, 19 * g9, 19 * g8, 19 * g7, 19 * g6, 19 * g5),
        Dot10(f0, f1, f2, f3, f4, f5, f6, f7, f8, f9,
              g5, g4, g3, g2, g1, g0, 19 * g9, 19 * g8, 19 * g7, 19 * g6),
        Dot10(f0, 2 * f1, f2, 2 * f3, f4, 2 * f5, f6, 2 * f7, f8, 2 * f9,
              g6, g5, g4, g3, g2, g1, g0, 19 * g9, 19 * g8, 19 * g7),
        Dot10(f0, f1, f2, f3, f4, f5, f6, f7, f8, f9,
              g7, g6, g5, g4, g3, g2, g1, g0, 19 * g9, 19 * g8),
        Dot10(f0, 2 * f1, f2, 2 * f3, f4, 2 * f5, f6, 2 * f7, f8, 2 * f9,
              g8, g7, g6, g5, g4, g3, g2, g1, g0, 19 * g9),
        Dot10(f0, f1, f2, f3, f4, f5, f6, f7, f8, f9,
              g9, g8, g7, g6, g5, g4, g3, g2, g1, g0))
  }

  /** The ten sums of fe_sq, each product of two different limbs made once. */
  function SquareSums(f: Ten): Ten {
    var Ten(f0, f1, f2, f3, f4, f5, f6, f7, f8, f9) := f;
    Ten(Dot6(f0, 2 * f1, 2 * f2, 2 * f3, 2 * f4, f5, f0, 38 * f9, 19 * f8, 38 * f7, 19 * f6, 38 * f5),
        Dot6(2 * f0, f2, 2 * f3, f4, 2 * f5, 0, f1, 38 * f9, 19 * f8, 38 * f7, 19 * f6, 0),
        Dot6(2 * f0, 2 * f1, 2 * f3, 2 * f4, 2 * f5, f6, f2, f1, 38 * f9, 19 * f8, 38 * f7, 19 * f6),
        Dot6(2 * f0, 2 * f1, f4, 2 * f5, f6, 0, f3, f2, 38 * f9, 19 * f8, 38 * f7, 0),
        Dot6(2 * f0, 2 * f1, f2, 2 * f5, 2 * f6, f7, f4, 2 * f3, f2, 38 * f9, 19 * f8, 38 * f7),
        Dot6(2 * f0, 2 * f1, 2 * f2, f6, 2 * f7, 0, f5, f4, f3, 38 * f9, 19 * f8, 0),
        Dot6(2 * f0, 2 * f1, 2 * f2, 2 * f3, 2 * f7, f8, f6, 2 * f5, f4, f3, 38 * f9, 19 * f8),
        Dot6(2 * f0, 2 * f1, 2 * f2, 2 * f3, f8, 0, f7, f6, f5, f4, 38 * f9, 0),
        Dot6(2 * f0, 2 * f1, 2 * f2, 2 * f3, f4, f9, f8, 2 * f7, f6, 2 * f5, f4, 38 * f9),
        Dot6(2 * f0, 2 * f1, 2 * f2, 2 * f3, f4, 0, f9, f8, f7, f6, 2 * f5, 0))
  }

  /** How far the product of two elements goes beyond the ten sums. */
  function Excess(f: Ten, g: Ten): int {
    var Ten(f0, f1, f2, f3, f4, f5, f6, f7, f8, f9) := f;
    var Ten(g0, g1, g2, g3, g4, g5, g6, g7, g8, g9) := g;
    (2 * (f1 * g9) + (f2 * g8) + 2 * (f3 * g7) + (f4 * g6) + 2 * (f5 * g5) + (f6 * g4) + 2 * (f7 * g3) + (f8 * g2) + 2 * (f9 * g1)) * W0
       + ((f2 * g9) + (f3 * g8) + (f4 * g7) + (f5 * g6) + (f6 * g5) + (f7 * g4) + (f8 * g3) + (f9 * g2)) * W1
       + (2 * (f3 * g9) + (f4 * g8) + 2 * (f5 * g7) + (f6 * g6) + 2 * (f7 * g5) + (f8 * g4) + 2 * (f9 * g3)) * W2
       + ((f4 * g9) + (f5 * g8) + (f6 * g7) + (f7 * g6) + (f8 * g5) + (f9 * g4)) * W3
       + (2 * (f5 * g9) + (f6 * g8) + 2 * (f7 * g7) + (f8 * g6) + 2 * (f9 * g5)) * W4
       + ((f6 * g9) + (f7 * g8) + (f8 * g7) + (f9 * g6)) * W5
       + (2 * (f7 * g9) + (f8 * g8) + 2 * (f9 * g7)) * W6
       + ((f8 * g9) + (f9 * g8)) * W7
       + (2 * (f9 * g9)) * W8
  }

  lemma ProductOfLimbs(f0: int, f1: int, f2: int, f3: int, f4: int, f5: int, f6: int, f7: int, f8: int, f9: int,
                       g0: int, g1: int, g2: int, g3: int, g4: int, g5: int, g6: int, g7: int, g8: int, g9: int)
    ensures var f, g := Ten(f0, f1, f2, f3, f4, f5, f6, f7, f8, f9), Ten(g0, g1, g2, g3, g4, g5, g6, g7, g8, g9);
            Weighted(f0, f1, f2, f3, f4, f5, f6, f7, f8, f9) * Weighted(g0, g1, g2, g3, g4, g5, g6, g7, g8, g9)
            == MulSums(f, g).Value() + P * Excess(f, g)
  {
  }

  /** The product of two elements limb by limb: products of weight 2^255 and
      more come back 19-fold, which leaves a multiple of 2^255 - 19. */
  lemma ProductValue(f: Ten, g: Ten)
    ensures f.Value() * g.Value() == MulSums(f, g).Value() + P * Excess(f, g)
  {
    hide MulSums;
    hide Excess;
    hide Weighted;
    ProductOfLimbs(f.t0, f.t1, f.t2, f.t3, f.t4, f.t5, f.t6, f.t7, f.t8, f.t9,
                   g.t0, g.t1, g.t2, g.t3, g.t4, g.t5, g.t6, g.t7, g.t8, g.t9);
  }

  lemma SquareOfLimbs(f0: int, f1: int, f2: int, f3: int, f4: int, f5: int, f6: int, f7: int, f8: int, f9: int)
    ensures var f := Ten(f0, f1, f2, f3, f4, f5, f6, f7, f8, f9);
            SquareSums(f).Value() == MulSums(f, f).Value()
  {
  }

  /** The sums of fe_sq come to as much as those of fe_mul with equal factors. */
  lemma SquareValue(f: Ten)
    ensures SquareSums(f).Value() == MulSums(f, f).Value()
  {
    hide MulSums;
    hide SquareSums;
    SquareOfLimbs(f.t0, f.t1, f.t2, f.t3, f.t4, f.t5, f.t6, f.t7, f.t8, f.t9);
  }

  lemma MulWithin(a: int, b: int, aMax: int, bMax: int)
    requires -aMax <= a <= aMax && -bMax <= b <= bMax
    ensures -(aMax * bMax) <= a * b <= aMax * bMax
  {
    var x, y := if a < 0 then -a else a, if b < 0 then -b else b;
    assert x * y <= aMax * bMax;
    assert a * b == x * y || a * b == -(x * y);
  }

  /** One product of a row, in 64 bits. */
  method Times(a: I32, b: I32) returns (x: I64)
    requires Within(a, 221_459_250) && Within(b, 2_103_862_875)
    ensures x as int == a as int * b as int
    ensures -465_919_894_450_968_750 <= x as int <= 465_919_894_450_968_750
    ensures Within(a, 110_729_625) ==> -232_959_947_225_484_375 <= x as int <= 232_959_947_225_484_375
  {
    MulWithin(a as int, b as int, 221_459_250, 2_103_862_875);
    if Within(a, 110_729_625) {
      MulWithin(a as int, b as int, 110_729_625, 2_103_862_875);
    }
    x := a as I64 * b as I64;
  }

  /** What FE_CARRY demands of its sums but the first. */
  predicate Summed(x: I64) {
    -0x4000_0000_0000_0000 < x as int < 0x4000_0000_0000_0000
  }

  /** A row of fe_mul. */
  method Row10(a0: I32, a1: I32, a2: I32, a3: I32, a4: I32, a5: I32, a6: I32, a7: I32, a8: I32, a9: I32,
               b0: I32, b1: I32, b2: I32, b3: I32, b4: I32, b5: I32, b6: I32, b7: I32, b8: I32, b9: I32) returns (x: I64)
    requires Within(a0, 110_729_625) && Within(a1, 110_729_625) && Within(a2, 110_729_625) && Within(a3, 110_729_625) && Within(a4, 110_729_625)
          && Within(a5, 110_729_625) && Within(a6, 110_729_625) && Within(a7, 110_729_625) && Within(a8, 110_729_625) && Within(a9, 110_729_625)
    requires Within(b0, 2_103_862_875) && Within(b1, 2_103_862_875) && Within(b2, 2_103_862_875) && Within(b3, 2_103_862_875) && Within(b4, 2_103_862_875)
          && Within(b5, 2_103_862_875) && Within(b6, 2_103_862_875) && Within(b7, 2_103_862_875) && Within(b8, 2_103_862_875) && Within(b9, 2_103_862_875)
    ensures Summed(x)
    ensures x as int == Dot10(a0 as int, a1 as int, a2 as int, a3 as int, a4 as int, a5 as int, a6 as int, a7 as int, a8 as int, a9 as int,
                              b0 as int, b1 as int, b2 as int, b3 as int, b4 as int, b5 as int, b6 as int, b7 as int, b8 as int, b9 as int)
  {
    var p0 := Times(a0, b0);
    var p1 := Times(a1, b1);
    var p2 := Times(a2, b2);
    var p3 := Times(a3, b3);
    var p4 := Times(a4, b4);
    var p5 := Times(a5, b5);
    var p6 := Times(a6, b6);
    var p7 := Times(a7, b7);
    var p8 := Times(a8, b8);
    var p9 := Times(a9, b9);
    x := p0 + p1 + p2 + p3 + p4 + p5 + p6 + p7 + p8 + p9;
  }

  /** A row of fe_sq; the rows of five products have a zero sixth. */
  method Row6(a0: I32, a1: I32, a2: I32, a3: I32, a4: I32, a5: I32,
              b0: I32, b1: I32, b2: I32, b3: I32, b4: I32, b5: I32) returns (x: I64)
    requires Within(a0, 221_459_250) && Within(a1, 221_459_250) && Within(a2, 221_459_250)
          && Within(a3, 221_459_250) && Within(a4, 221_459_250) && Within(a5, 221_459_250)
    requires Within(b0, 2_103_862_875) && Within(b1, 2_103_862_875) && Within(b2, 2_103_862_875)
          && Within(b3, 2_103_862_875) && Within(b4, 2_103_862_875) && Within(b5, 2_103_862_875)
    ensures Summed(x)
    ensures x as int == Dot6(a0 as int, a1 as int, a2 as int, a3 as int, a4 as int, a5 as int, b0 as int, b1 as int, b2 as int, b3 as int, b4 as int, b5 as int)
  {
    var p0 := Times(a0, b0);
    var p1 := Times(a1, b1);
    var p2 := Times(a2, b2);
    var p3 := Times(a3, b3);
    var p4 := Times(a4, b4);
    var p5 := Times(a5, b5);
    x := p0 + p1 + p2 + p3 + p4 + p5;
  }

  /** The nearest multiple of 2^26, and what remains; `t + 2^25` has to fit. */
  method Round26(t: I64) returns (c: I64, l: I64)
    requires t as int < 0x8000_0000_0000_0000 - 0x200_0000
    ensures t as int == l as int + c as int * 0x400_0000 && -0x200_0000 <= l as int < 0x200_0000
  {
    c := (t + 0x200_0000) / 0x400_0000;
    l := t - c * 0x400_0000;
  }

  method Round25(t: I64) returns (c: I64, l: I64)
    requires t as int < 0x7000_0000_0000_0000
    ensures t as int == l as int + c as int * 0x200_0000 && -0x100_0000 <= l as int < 0x100_0000
  {
    c := (t + 0x100_0000) / 0x200_0000;
    l := t - c * 0x200_0000;
  }

  /** FE_CARRY: the same element, its limbs reduced; no overflow. Of the first
      sum it demands no more than that its rounding fits. */
  method Carry(x0: I64, x1: I64, x2: I64, x3: I64, x4: I64, x5: I64, x6: I64, x7: I64, x8: I64, x9: I64) returns (h: Fe)
    requires x0 as int < 0x8000_0000_0000_0000 - 0x200_0000
    requires Summed(x1) && Summed(x2) && Summed(x3) && Summed(x4)
          && Summed(x5) && Summed(x6) && Summed(x7) && Summed(x8) && Summed(x9)
    ensures h.Reduced()
    ensures Congruent(h.Value(), Weighted(x0 as int, x1 as int, x2 as int, x3 as int, x4 as int, x5 as int, x6 as int, x7 as int, x8 as int, x9 as int))
  {
    var c, c9;
    var t0, t1, t2, t3, t4, t5, t6, t7, t8, t9 := x0, x1, x2, x3, x4, x5, x6, x7, x8, x9;
    c, t0 := Round26(t0);   t1 := t1 + c;
    c, t4 := Round26(t4);   t5 := t5 + c;
    c, t1 := Round25(t1);   t2 := t2 + c;
    c, t5 := Round25(t5);   t6 := t6 + c;
    c, t2 := Round26(t2);   t3 := t3 + c;
    c, t6 := Round26(t6);   t7 := t7 + c;
    c, t3 := Round25(t3);   t4 := t4 + c;
    c, t7 := Round25(t7);   t8 := t8 + c;
    c, t4 := Round26(t4);   t5 := t5 + c;
    c, t8 := Round26(t8);   t9 := t9 + c;
    c9, t9 := Round25(t9);  t0 := t0 + c9 * 19;
    c, t0 := Round26(t0);   t1 := t1 + c;
    h := Fe(t0 as I32, t1 as I32, t2 as I32, t3 as I32, t4 as I32, t5 as I32, t6 as I32, t7 as I32, t8 as I32, t9 as I32);
    assert h.Value() == Weighted(x0 as int, x1 as int, x2 as int, x3 as int, x4 as int, x5 as int, x6 as int, x7 as int, x8 as int, x9 as int) + P * -(c9 as int);
  }

  /** The ten sums of fe_mul, then its carries. */
  method Multiply(f: Fe, g: Fe) returns (h: Fe)
    requires f.InRange() && g.InRange()
    ensures h.Reduced() && Congruent(h.Value(), f.Value() * g.Value())
  {
    hide Dot10;
    hide Weighted;
    var f0, f1, f2, f3, f4, f5, f6, f7, f8, f9 := f.l0, f.l1, f.l2, f.l3, f.l4, f.l5, f.l6, f.l7, f.l8, f.l9;
    var g0, g1, g2, g3, g4, g5, g6, g7, g8, g9 := g.l0, g.l1, g.l2, g.l3, g.l4, g.l5, g.l6, g.l7, g.l8, g.l9;
    var F1, F3, F5, F7, F9 := f1 * 2, f3 * 2, f5 * 2, f7 * 2, f9 * 2;
    var G1, G2, G3, G4, G5 := g1 * 19, g2 * 19, g3 * 19, g4 * 19, g5 * 19;
    var G6, G7, G8, G9 := g6 * 19, g7 * 19, g8 * 19, g9 * 19;
    var t0 := Row10(f0, F1, f2, F3, f4, F5, f6, F7, f8, F9, g0, G9, G8, G7, G6, G5, G4, G3, G2, G1);
    var t1 := Row10(f0, f1, f2, f3, f4, f5, f6, f7, f8, f9, g1, g0, G9, G8, G7, G6, G5, G4, G3, G2);
    var t2 := Row10(f0, F1, f2, F3, f4, F5, f6, F7, f8, F9, g2, g1, g0, G9, G8, G7, G6, G5, G4, G3);
    var t3 := Row10(f0, f1, f2, f3, f4, f5, f6, f7, f8, f9, g3, g2, g1, g0, G9, G8, G7, G6, G5, G4);
    var t4 := Row10(f0, F1, f2, F3, f4, F5, f6, F7, f8, F9, g4, g3, g2, g1, g0, G9, G8, G7, G6, G5);
    var t5 := Row10(f0, f1, f2, f3, f4, f5, f6, f7, f8, f9, g5, g4, g3, g2, g1, g0, G9, G8, G7, G6);
    var t6 := Row10(f0, F1, f2, F3, f4, F5, f6, F7, f8, F9, g6, g5, g4, g3, g2, g1, g0, G9, G8, G7);
    var t7 := Row10(f0, f1, f2, f3, f4, f5, f6, f7, f8, f9, g7, g6, g5, g4, g3, g2, g1, g0, G9, G8);
    var t8 := Row10(f0, F1, f2, F3, f4, F5, f6, F7, f8, F9, g8, g7, g6, g5, g4, g3, g2, g1, g0, G9);
    var t9 := Row10(f0, f1, f2, f3, f4, f5, f6, f7, f8, f9, g9, g8, g7, g6, g5, g4, g3, g2, g1, g0);
    h := Carry(t0, t1, t2, t3, t4, t5, t6, t7, t8, t9);
    ghost var sums := Ten(t0 as int, t1 as int, t2 as int, t3 as int, t4 as int, t5 as int, t6 as int, t7 as int, t8 as int, t9 as int);
    assert sums == MulSums(Limbs(f), Limbs(g));
    ProductCongruent(Limbs(f), Limbs(g));
    CongruentTrans(h.Value(), sums.Value(), f.Value() * g.Value());
  }

  lemma ProductCongruent(f: Ten, g: Ten)
    ensures Congruent(MulSums(f, g).Value(), f.Value() * g.Value())
  {
    hide MulSums;
    hide Ten.Value;
    hide Excess;
    ProductValue(f, g);
    assert MulSums(f, g).Value() == f.Value() * g.Value() + P * -Excess(f, g);
  }

  /** The ten sums of fe_sq, then its carries. */
  method Square(f: Fe) returns (h: Fe)
    requires f.InRange()
    ensures h.Reduced() && Congruent(h.Value(), f.Value() * f.Value())
  {
    hide Dot6;
    hide Weighted;
    var f0, f1, f2, f3, f4, f5, f6, f7, f8, f9 := f.l0, f.l1, f.l2, f.l3, f.l4, f.l5, f.l6, f.l7, f.l8, f.l9;
    var f0_2, f1_2, f2_2, f3_2 := f0 * 2, f1 * 2, f2 * 2, f3 * 2;
    var f4_2, f5_2, f6_2, f7_2 := f4 * 2, f5 * 2, f6 * 2, f7 * 2;
    var f5_38, f6_19, f7_38, f8_19, f9_38 := f5 * 38, f6 * 19, f7 * 38, f8 * 19, f9 * 38;
    var t0 := Row6(f0, f1_2, f2_2, f3_2, f4_2, f5, f0, f9_38, f8_19, f7_38, f6_19, f5_38);
    var t1 := Row6(f0_2, f2, f3_2, f4, f5_2, 0, f1, f9_38, f8_19, f7_38, f6_19, 0);
    var t2 := Row6(f0_2, f1_2, f3_2, f4_2, f5_2, f6, f2, f1, f9_38, f8_19, f7_38, f6_19);
    var t3 := Row6(f0_2, f1_2, f4, f5_2, f6, 0, f3, f2, f9_38, f8_19, f7_38, 0);
    var t4 := Row6(f0_2, f1_2, f2, f5_2, f6_2, f7, f4, f3_2, f2, f9_38, f8_19, f7_38);
    var t5 := Row6(f0_2, f1_2, f2_2, f6, f7_2, 0, f5, f4, f3, f9_38, f8_19, 0);
    var t6 := Row6(f0_2, f1_2, f2_2, f3_2, f7_2, f8, f6, f5_2, f4, f3, f9_38, f8_19);
    var t7 := Row6(f0_2, f1_2, f2_2, f3_2, f8, 0, f7, f6, f5, f4, f9_38, 0);
    var t8 := Row6(f0_2, f1_2, f2_2, f3_2, f4, f9, f8, f7_2, f6, f5_2, f4, f9_38);
    var t9 := Row6(f0_2, f1_2, f2_2, f3_2, f4, 0, f9, f8, f7, f6, f5_2, 0);
    h := Carry(t0, t1, t2, t3, t4, t5, t6, t7, t8, t9);
    ghost var sums := Ten(t0 as int, t1 as int, t2 as int, t3 as int, t4 as int, t5 as int, t6 as int, t7 as int, t8 as int, t9 as int);
    assert sums == SquareSums(Limbs(f));
    SquareValue(Limbs(f));
    ProductCongruent(Limbs(f), Limbs(f));
    CongruentTrans(h.Value(), sums.Value(), f.Value() * f.Value());
  }

  /* ---- the element arrays of the source ---- */

  function Of(a: seq<I32>): Fe
    requires |a| == 10
  {
    Fe(a[0], a[1], a[2], a[3], a[4], a[5], a[6], a[7], a[8], a[9])
  }

  method Store(h: array<I32>, x: Fe)
    requires h.Length == 10
    modifies h
    ensures Of(h[..]) == x
  {
    h[0], h[1], h[2], h[3], h[4] := x.l0, x.l1, x.l2, x.l3, x.l4;
    h[5], h[6], h[7], h[8], h[9] := x.l5, x.l6, x.l7, x.l8, x.l9;
  }

  /** fe_mul; `h` may be one of the factors. */
  method FeMul(h: array<I32>, f: array<I32>, g: array<I32>)
    requires h.Length == f.Length == g.Length == 10
    requires Of(f[..]).InRange() && Of(g[..]).InRange()
    modifies h
    ensures Of(h[..]).Reduced()
    ensures Congruent(Of(h[..]).Value(), old(Of(f[..]).Value()) * old(Of(g[..]).Value()))
  {
    hide Weighted;
    var x := Multiply(Of(f[..]), Of(g[..]));
    Store(h, x);
  }

  /** fe_sq */
  method FeSq(h: array<I32>, f: array<I32>)
    requires h.Length == f.Length == 10 && Of(f[..]).InRange()
    modifies h
    ensures Of(h[..]).Reduced()
    ensures Congruent(Of(h[..]).Value(), old(Of(f[..]).Value()) * old(Of(f[..]).Value()))
  {
    hide Weighted;
    var x := Square(Of(f[..]));
    Store(h, x);
  }

  /** fe_mul_small by a constant of 31 bits. */
  method FeMulSmall(h: array<I32>, f: array<I32>, g: I32)
    requires h.Length == f.Length == 10 && Of(f[..]).InRange()
    modifies h
    ensures Of(h[..]).Reduced()
    ensures Congruent(Of(h[..]).Value(), old(Of(f[..]).Value()) * g as int)
  {
    var x := Of(f[..]);
    var t0 := SmallTimes(x.l0, g);
    var t1 := SmallTimes(x.l1, g);
    var t2 := SmallTimes(x.l2, g);
    var t3 := SmallTimes(x.l3, g);
    var t4 := SmallTimes(x.l4, g);
    var t5 := SmallTimes(x.l5, g);
    var t6 := SmallTimes(x.l6, g);
    var t7 := SmallTimes(x.l7, g);
    var t8 := SmallTimes(x.l8, g);
    var t9 := SmallTimes(x.l9, g);
    var y := Carry(t0, t1, t2, t3, t4, t5, t6, t7, t8, t9);
    ScaledValue(x, g as int);
    Store(h, y);
  }

  method SmallTimes(a: I32, g: I32) returns (x: I64)
    requires Within(a, 110_729_625)
    ensures Summed(x) && x as int == a as int * g as int
  {
    MulWithin(a as int, g as int, 110_729_625, 0x8000_0000);
    x := a as I64 * g as I64;
  }

  lemma ScaledValue(f: Fe, g: int)
    ensures f.Value() * g == Weighted(f.l0 as int * g, f.l1 as int * g, f.l2 as int * g, f.l3 as int * g, f.l4 as int * g, f.l5 as int * g, f.l6 as int * g, f.l7 as int * g, f.l8 as int * g, f.l9 as int * g)
  {
  }

  /** fe_add of two products: it may be a factor again. */
  method FeAdd(h: array<I32>, f: array<I32>, g: array<I32>)
    requires h.Length == f.Length == g.Length == 10
    requires Of(f[..]).Reduced() && Of(g[..]).Reduced()
    modifies h
    ensures Of(h[..]).InRange()
    ensures Of(h[..]).Value() == old(Of(f[..]).Value()) + old(Of(g[..]).Value())
  {
    hide Fe.Value;
    hide Fe.InRange;
    hide Fe.Reduced;
    ghost var f0, g0 := f[..], g[..];
    for i := 0 to 10
      invariant forall j | i <= j < 10 :: f[j] == f0[j] && g[j] == g0[j]
      invariant forall j | 0 <= j < i :: h[j] as int == f0[j] as int + g0[j] as int
    {
      SlotBound(f0, i);
      SlotBound(g0, i);
      h[i] := f[i] + g[i];
    }
    SumInRange(Of(f0), Of(g0), Of(h[..]));
  }

  /** fe_sub of two products. */
  method FeSub(h: array<I32>, f: array<I32>, g: array<I32>)
    requires h.Length == f.Length == g.Length == 10
    requires Of(f[..]).Reduced() && Of(g[..]).Reduced()
    modifies h
    ensures Of(h[..]).InRange()
    ensures Of(h[..]).Value() == old(Of(f[..]).Value()) - old(Of(g[..]).Value())
  {
    hide Fe.Value;
    hide Fe.InRange;
    hide Fe.Reduced;
    ghost var f0, g0 := f[..], g[..];
    for i := 0 to 10
      invariant forall j | i <= j < 10 :: f[j] == f0[j] && g[j] == g0[j]
      invariant forall j | 0 <= j < i :: h[j] as int == f0[j] as int - g0[j] as int
    {
      SlotBound(f0, i);
      SlotBound(g0, i);
      h[i] := f[i] - g[i];
    }
    DifferenceInRange(Of(f0), Of(g0), Of(h[..]));
  }

  /** Limb by limb. */
  predicate IsSum(x: Fe, y: Fe, z: Fe) {
    && z.l0 as int == x.l0 as int + y.l0 as int
    && z.l1 as int == x.l1 as int + y.l1 as int
    && z.l2 as int == x.l2 as int + y.l2 as int
    && z.l3 as int == x.l3 as int + y.l3 as int
    && z.l4 as int == x.l4 as int + y.l4 as int
    && z.l5 as int == x.l5 as int + y.l5 as int
    && z.l6 as int == x.l6 as int + y.l6 as int
    && z.l7 as int == x.l7 as int + y.l7 as int
    && z.l8 as int == x.l8 as int + y.l8 as int
    && z.l9 as int == x.l9 as int + y.l9 as int
  }

  predicate IsDifference(x: Fe, y: Fe, z: Fe) {
    && z.l0 as int == x.l0 as int - y.l0 as int
    && z.l1 as int == x.l1 as int - y.l1 as int
    && z.l2 as int == x.l2 as int - y.l2 as int
    && z.l3 as int == x.l3 as int - y.l3 as int
    && z.l4 as int == x.l4 as int - y.l4 as int
    && z.l5 as int == x.l5 as int - y.l5 as int
    && z.l6 as int == x.l6 as int - y.l6 as int
    && z.l7 as int == x.l7 as int - y.l7 as int
    && z.l8 as int == x.l8 as int - y.l8 as int
    && z.l9 as int == x.l9 as int - y.l9 as int
  }

  lemma SumInRange(x: Fe, y: Fe, z: Fe)
    requires x.Reduced() && y.Reduced() && IsSum(x, y, z)
    ensures z.InRange() && z.Value() == x.Value() + y.Value()
  {
  }

  lemma DifferenceInRange(x: Fe, y: Fe, z: Fe)
    requires x.Reduced() && y.Reduced() && IsDifference(x, y, z)
    ensures z.InRange() && z.Value() == x.Value() - y.Value()
  {
  }

  lemma SlotBound(a: seq<I32>, i: nat)
    requires |a| == 10 && Of(a).Reduced() && i < 10
    ensures Within(a[i], 36_909_875)
  {
  }
}
