/** The replay window of a session (session.c): a ring of 64-bit words
    holding which of the latest counters were received, in the manner of
    section 2 of RFC 6479. */
module Replay {
  import opened Bits

  const WINDOW: nat := 2048
  const WORDS: nat := WINDOW / 64
  const REJECT_AFTER_MSGS: nat := 0x1000_0000_0000_0000

  function WordOf(n: nat): nat { n / 64 }
  function BitOf(n: nat): (k: nat) ensures k < 64 { n % 64 }
  function Slot(w: nat): (s: nat) ensures s < WORDS { w % WORDS }
  function Counter(w: nat, j: nat): nat { w * 64 + j }

  /** What the window stands for: every counter ever recorded. */
  datatype Window = Window(any: bool, max: nat, seen: set<nat>) {
    ghost predicate Valid() {
      && (!any ==> seen == {})
      && (any ==> max in seen)
      && forall n | n in seen :: n <= max && n < REJECT_AFTER_MSGS
    }

    /** The rule: below the message limit, never recorded, and above the
        maximum or in one of the last 32 words. */
    predicate Accepts(n: nat) {
      && n < REJECT_AFTER_MSGS
      && n !in seen
      && (!any || n > max || WordOf(max) - WordOf(n) < WORDS)
    }

    function Recorded(n: nat): Window {
      Window(true, if !any || n > max then n else max, seen + {n})
    }
  }

  const EMPTY_WINDOW := Window(false, 0, {})

  /** A counter that is new and not too far back passes; one a whole window
      back, or already recorded, never does. */
  lemma WindowGuarantee(w: Window, n: nat)
    requires w.Valid() && n < REJECT_AFTER_MSGS
    ensures n !in w.seen && (!w.any || w.max <= n + 1984) ==> w.Accepts(n)
    ensures w.any && n + WINDOW <= w.max ==> !w.Accepts(n)
    ensures n in w.seen ==> !w.Accepts(n)
    ensures w.Accepts(n) ==> w.Recorded(n).Valid() && !w.Recorded(n).Accepts(n)
  {
  }

  /** The 64 bits of ring word `w` are its recorded counters. */
  ghost predicate WordHolds(word: bv64, w: nat, seen: set<nat>) {
    forall j: nat | j < 64 :: Bit(word, j) <==> Counter(w, j) in seen
  }

  ghost predicate RingHolds(bits: seq<bv64>, top: nat, seen: set<nat>)
    requires |bits| == WORDS
  {
    forall w: nat | top - WORDS < w <= top :: WordHolds(bits[Slot(w)], w, seen)
  }

  lemma NoneInWord(w: nat, seen: set<nat>)
    requires forall n | n in seen :: WordOf(n) != w
    ensures WordHolds(0, w, seen)
  {
    forall j: nat | j < 64
      ensures Bit(0, j) <==> Counter(w, j) in seen
    {
      ZeroBit(j);
      assert WordOf(Counter(w, j)) == w;
    }
  }

  lemma SetInWord(word: bv64, n: nat, seen: set<nat>)
    requires WordHolds(word, WordOf(n), seen)
    ensures WordHolds(Set(word, BitOf(n)), WordOf(n), seen + {n})
  {
    hide Bit;
    hide Set;
    forall j: nat | j < 64
      ensures Bit(Set(word, BitOf(n)), j) <==> Counter(WordOf(n), j) in seen + {n}
    {
      SetBit(word, BitOf(n), j);
    }
  }

  lemma OtherWord(word: bv64, w: nat, n: nat, seen: set<nat>)
    requires WordHolds(word, w, seen) && WordOf(n) != w
    ensures WordHolds(word, w, seen + {n})
  {
    forall j: nat | j < 64
      ensures Bit(word, j) <==> Counter(w, j) in seen + {n}
    {
      assert WordOf(Counter(w, j)) == w;
    }
  }

  /** Two words less than a ring apart have different slots. */
  lemma SlotsDiffer(v: nat, w: nat)
    requires v < w < v + WORDS
    ensures Slot(v) != Slot(w)
  {
  }

  /** Recording a counter in a ring that already covers its word. */
  lemma RecordInRing(bits: seq<bv64>, top: nat, seen: set<nat>, n: nat)
    requires |bits| == WORDS && RingHolds(bits, top, seen)
    requires top - WORDS < WordOf(n) <= top
    ensures RingHolds(bits[Slot(WordOf(n)) := Set(bits[Slot(WordOf(n))], BitOf(n))], top, seen + {n})
  {
    hide Bit;
    hide Set;
    hide WordHolds;
    hide Slot;
    var m := WordOf(n);
    SetInWord(bits[Slot(m)], n, seen);
    forall w: nat | top - WORDS < w <= top
      ensures WordHolds(bits[Slot(m) := Set(bits[Slot(m)], BitOf(n))][Slot(w)], w, seen + {n})
    {
      if w < m {
        SlotsDiffer(w, m);
        OtherWord(bits[Slot(w)], w, n, seen);
      } else if m < w {
        SlotsDiffer(m, w);
        OtherWord(bits[Slot(w)], w, n, seen);
      }
    }
  }

  /** A ring moved up to word `top`: the words it moved over are cleared,
      those it still covers kept. */
  lemma MovedRing(bits: seq<bv64>, bits': seq<bv64>, cur: nat, top: nat, seen: set<nat>)
    requires |bits| == |bits'| == WORDS && cur <= top && RingHolds(bits, cur, seen)
    requires forall n | n in seen :: WordOf(n) <= cur
    requires forall w | cur < w <= top && top - WORDS < w :: bits'[Slot(w)] == 0
    requires forall w: nat | top - WORDS < w <= cur :: bits'[Slot(w)] == bits[Slot(w)]
    ensures RingHolds(bits', top, seen)
  {
    hide Bit;
    hide WordHolds;
    hide Slot;
    forall w: nat | top - WORDS < w <= top
      ensures WordHolds(bits'[Slot(w)], w, seen)
    {
      if w > cur {
        NoneInWord(w, seen);
      }
    }
  }

  lemma EmptyRing(bits: seq<bv64>, top: nat)
    requires |bits| == WORDS && forall s | 0 <= s < WORDS :: bits[s] == 0
    ensures RingHolds(bits, top, {})
  {
    hide Bit;
    hide WordHolds;
    hide Slot;
    forall w: nat | top - WORDS < w <= top
      ensures WordHolds(bits[Slot(w)], w, {})
    {
      NoneInWord(w, {});
    }
  }

  class ReplayWindow {
    var max: nat
    const bits: array<bv64>
    var any: bool
    ghost var seen: set<nat>

    ghost predicate Valid()
      reads this, bits
    {
      && bits.Length == WORDS
      && View().Valid()
      && (any ==> RingHolds(bits[..], WordOf(max), seen))
    }

    ghost function View(): Window
      reads this
    {
      Window(any, max, seen)
    }

    constructor ()
      ensures Valid() && View() == EMPTY_WINDOW && fresh(bits)
    {
      max, any, seen := 0, false, {};
      bits := new bv64[WORDS](_ => 0);
    }

    /** replay_check */
    method Check(n: nat) returns (ok: bool)
      requires Valid()
      ensures ok <==> View().Accepts(n)
    {
      if n >= REJECT_AFTER_MSGS {
        return false;
      }
      if !any || n > max {
        return true;
      }
      if WordOf(max) - WordOf(n) >= WORDS {
        return false;
      }
      assert WordHolds(bits[..][Slot(WordOf(n))], WordOf(n), seen);
      assert Counter(WordOf(n), BitOf(n)) == n;
      return !Bit(bits[Slot(WordOf(n))], BitOf(n));
    }

    method ClearAll()
      requires bits.Length == WORDS
      modifies bits
      ensures forall s | 0 <= s < WORDS :: bits[s] == 0
    {
      forall s | 0 <= s < bits.Length {
        bits[s] := 0;
      }
    }

    /** The window moves from word `cur` over words `cur + 1` to `top`. */
    method ClearWords(cur: nat, top: nat)
      requires bits.Length == WORDS && cur <= top < cur + WORDS
      modifies bits
      ensures forall w | cur < w <= top :: bits[Slot(w)] == 0
      ensures forall w: nat | top - WORDS < w <= cur :: bits[Slot(w)] == old(bits[Slot(w)])
    {
      hide Slot;
      var w := cur + 1;
      while w <= top
        invariant cur < w <= top + 1
        invariant forall v | cur < v < w :: bits[Slot(v)] == 0
        invariant forall v: nat | top - WORDS < v <= cur :: bits[Slot(v)] == old(bits[Slot(v)])
      {
        forall v: nat | top - WORDS < v < w
          ensures Slot(v) != Slot(w)
        {
          SlotsDiffer(v, w);
        }
        bits[Slot(w)] := 0;
        w := w + 1;
      }
    }

    /** replay_record, for a counter the check accepts, as its only caller
        calls it: afterwards the window stands for one more counter. */
    method Record(n: nat)
      requires Valid() && View().Accepts(n)
      modifies this, bits
      ensures Valid() && View() == old(View()).Recorded(n)
    {
      hide Bit;
      hide Set;
      hide RingHolds;
      hide Slot;
      if !any {
        ClearAll();
        max, any := n, true;
        EmptyRing(bits[..], WordOf(max));
      } else if n > max {
        var cur, top := WordOf(max), WordOf(n);
        ghost var bits0 := bits[..];
        if top - cur >= WORDS {
          ClearAll();
        } else {
          ClearWords(cur, top);
        }
        MovedRing(bits0, bits[..], cur, top, seen);
        max := n;
      }
      var s := Slot(WordOf(n));
      RecordInRing(bits[..], WordOf(max), seen, n);
      ghost var bits1 := bits[..];
      bits[s] := Set(bits[s], BitOf(n));
      assert bits[..] == bits1[s := Set(bits1[s], BitOf(n))];
      seen := seen + {n};
    }
  }
}
