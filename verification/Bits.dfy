/** 64-bit words as sets of bits. */
module Bits {

  predicate BitAt(w: bv64, k: bv6) {
    (w >> k) & 1 == 1
  }

  function WithBit(w: bv64, k: bv6): bv64 {
    w | ((1 as bv64) << k)
  }

  lemma WithBitAt(w: bv64, k: bv6, j: bv6)
    ensures BitAt(WithBit(w, k), j) <==> j == k || BitAt(w, j)
  {
  }

  lemma ZeroAt(j: bv6)
    ensures !BitAt(0, j)
  {
  }

  /** A bit number as a shift amount. */
  function Amount(k: nat): bv6
    requires k < 64
  {
    k as bv6
  }

  lemma AmountBack(k: nat)
    requires k < 64
    ensures Amount(k) as nat == k
  {
  }

  lemma AmountsDiffer(j: nat, k: nat)
    requires j < 64 && k < 64 && j != k
    ensures Amount(j) != Amount(k)
  {
    hide Amount;
    AmountBack(j);
    AmountBack(k);
  }

  predicate Bit(w: bv64, k: nat)
    requires k < 64
  {
    BitAt(w, Amount(k))
  }

  function Set(w: bv64, k: nat): bv64
    requires k < 64
  {
    WithBit(w, Amount(k))
  }

  lemma SetBit(w: bv64, k: nat, j: nat)
    requires k < 64 && j < 64
    ensures Bit(Set(w, k), j) <==> j == k || Bit(w, j)
  {
    hide BitAt;
    hide WithBit;
    hide Amount;
    WithBitAt(w, Amount(k), Amount(j));
    if j != k {
      AmountsDiffer(j, k);
    }
  }

  lemma ZeroBit(j: nat)
    requires j < 64
    ensures !Bit(0, j)
  {
    ZeroAt(Amount(j));
  }
}
