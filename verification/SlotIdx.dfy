/** The hash index from a key to slot numbers (slotidx.c): open addressing
    with linear probing, never a deletion, at most half full.

    A table refines the set of (hash, slot) pairs put into it. The bucket
    count is a power of two, so `h & mask` is `h % (mask + 1)`. Whether an
    allocation succeeds is a nondeterministic choice. */
module SlotIdx {

  const MIN_BUCKETS: nat := 16
  const MAX_RESET_BUCKETS: nat := 0x4000_0000

  ghost function Pow2(k: nat): (r: nat)
    ensures r > 0
  {
    if k == 0 then 1 else 2 * Pow2(k - 1)
  }

  ghost predicate PowerOfTwo(n: nat) {
    exists k: nat :: n == Pow2(k)
  }

  /** The home bucket of a hash in a table of `n` buckets. */
  function Home(h: nat, n: nat): (r: nat)
    requires n > 0
    ensures r < n
  {
    h % n
  }

  /** The bucket `e` steps after `start` on a ring of `n`. */
  function Probe(start: nat, e: nat, n: nat): nat {
    if start + e < n then start + e else start + e - n
  }

  /** Occupied buckets. */
  ghost function Occupied(slot: seq<nat>): nat {
    if slot == [] then 0
    else Occupied(slot[..|slot| - 1]) + if slot[|slot| - 1] != 0 then 1 else 0
  }

  /** The (hash, slot) pairs of the first `k` buckets; a bucket stores slot + 1. */
  ghost function PairsOf(hash: seq<nat>, slot: seq<nat>, k: nat): set<(nat, nat)>
    requires |hash| == |slot| && k <= |slot|
  {
    set i | 0 <= i < k && slot[i] != 0 :: (hash[i], slot[i] - 1)
  }

  /** The first `d` buckets probed from bucket `start` are occupied. */
  ghost predicate FullPath(slot: seq<nat>, start: nat, d: nat)
    requires start < |slot|
  {
    d <= |slot| && forall e | 0 <= e < d :: slot[Probe(start, e, |slot|)] != 0
  }

  /** Steps of the probe from `start` to bucket `i`. */
  function Distance(start: nat, i: nat, n: nat): nat
    requires start < n && i < n
  {
    if start <= i then i - start else i + n - start
  }

  /** No gap on the way from an entry's home bucket to the entry. */
  ghost predicate NoGaps(hash: seq<nat>, slot: seq<nat>) {
    && |hash| == |slot| > 0
    && forall i | 0 <= i < |slot| && slot[i] != 0 ::
         FullPath(slot, Home(hash[i], |slot|), Distance(Home(hash[i], |slot|), i, |slot|))
  }

  /** What a lookup promises: the least slot under `h` that `match` accepts. */
  ghost predicate LeastMatch(best: int, pairs: set<(nat, nat)>, h: nat, match': nat -> bool) {
    && (best < 0 ==> best == -1 && forall s | (h, s) in pairs :: !match'(s))
    && (best >= 0 ==> (h, best) in pairs && match'(best)
                      && forall s | (h, s) in pairs && match'(s) :: best <= s)
  }

  lemma {:induction false} OccupiedBound(slot: seq<nat>)
    ensures Occupied(slot) <= |slot|
    ensures Occupied(slot) < |slot| ==> exists z :: 0 <= z < |slot| && slot[z] == 0
  {
    if slot != [] {
      var n := |slot| - 1;
      OccupiedBound(slot[..n]);
      if slot[n] != 0 && Occupied(slot) < |slot| {
        var z :| 0 <= z < n && slot[..n][z] == 0;
        assert slot[z] == 0;
      }
    }
  }

  lemma {:induction false} OccupiedUpdate(slot: seq<nat>, i: nat, v: nat)
    requires i < |slot| && slot[i] == 0 && v != 0
    ensures Occupied(slot[i := v]) == Occupied(slot) + 1
  {
    var n := |slot| - 1;
    if i == n {
      assert slot[i := v][..n] == slot[..n];
    } else {
      assert slot[i := v][..n] == slot[..n][i := v];
      OccupiedUpdate(slot[..n], i, v);
    }
  }

  lemma {:induction false} OccupiedZero(slot: seq<nat>)
    requires forall i | 0 <= i < |slot| :: slot[i] == 0
    ensures Occupied(slot) == 0
  {
    if slot != [] {
      OccupiedZero(slot[..|slot| - 1]);
    }
  }

  /** An entry under `h` lies before the first empty bucket of the probe. */
  lemma EntryBeforeGap(hash: seq<nat>, slot: seq<nat>, h: nat, d: nat, j: nat)
    requires NoGaps(hash, slot) && d < |slot| && j < |slot|
    requires slot[Probe(Home(h, |slot|), d, |slot|)] == 0
    requires slot[j] != 0 && hash[j] == h
    ensures Distance(Home(h, |slot|), j, |slot|) < d
    ensures Probe(Home(h, |slot|), Distance(Home(h, |slot|), j, |slot|), |slot|) == j
  {
    hide Home;
    assert FullPath(slot, Home(hash[j], |slot|), Distance(Home(hash[j], |slot|), j, |slot|));
  }

  /** Filling the first empty bucket of the probe of `h` keeps every path. */
  lemma PutKeepsNoGaps(hash: seq<nat>, slot: seq<nat>, h: nat, s: nat, d: nat)
    requires NoGaps(hash, slot) && d < |slot| && s != 0
    requires FullPath(slot, Home(h, |slot|), d)
    requires slot[Probe(Home(h, |slot|), d, |slot|)] == 0
    ensures var i := Probe(Home(h, |slot|), d, |slot|); NoGaps(hash[i := h], slot[i := s])
  {
    hide Home;
    var n := |slot|;
    var i := Probe(Home(h, n), d, n);
    var hash', slot' := hash[i := h], slot[i := s];
    forall j | 0 <= j < n && slot'[j] != 0
      ensures FullPath(slot', Home(hash'[j], n), Distance(Home(hash'[j], n), j, n))
    {
      if j != i {
        assert FullPath(slot, Home(hash[j], n), Distance(Home(hash[j], n), j, n));
      }
    }
  }

  lemma PutPairs(hash: seq<nat>, slot: seq<nat>, i: nat, h: nat, s: nat)
    requires |hash| == |slot| && i < |slot| && slot[i] == 0 && s != 0
    ensures PairsOf(hash[i := h], slot[i := s], |slot|) == PairsOf(hash, slot, |slot|) + {(h, s - 1)}
  {
    var hash', slot' := hash[i := h], slot[i := s];
    forall p | p in PairsOf(hash, slot, |slot|) + {(h, s - 1)}
      ensures p in PairsOf(hash', slot', |slot|)
    {
      if p == (h, s - 1) {
        assert slot'[i] != 0 && (hash'[i], slot'[i] - 1) == p;
      } else {
        var j :| 0 <= j < |slot| && slot[j] != 0 && (hash[j], slot[j] - 1) == p;
        assert slot'[j] != 0 && (hash'[j], slot'[j] - 1) == p;
      }
    }
  }

  /** A table of at least `MIN_BUCKETS` buckets: at most half full, no gaps,
      and exactly one bucket for each of its pairs. */
  ghost predicate TableOf(hash: seq<nat>, slot: seq<nat>, used: nat) {
    && |hash| == |slot| >= MIN_BUCKETS
    && PowerOfTwo(|slot|)
    && used * 2 <= |slot|
    && used == Occupied(slot) == |PairsOf(hash, slot, |slot|)|
    && NoGaps(hash, slot)
  }

  /** A probe from any bucket of a table meets an empty one. */
  lemma GapAhead(slot: seq<nat>, start: nat) returns (far: nat)
    requires start < |slot| && Occupied(slot) < |slot|
    ensures far < |slot| && slot[Probe(start, far, |slot|)] == 0
  {
    OccupiedBound(slot);
    var z :| 0 <= z < |slot| && slot[z] == 0;
    far := Distance(start, z, |slot|);
  }

  lemma TableGapAhead(hash: seq<nat>, slot: seq<nat>, used: nat, start: nat) returns (far: nat)
    requires TableOf(hash, slot, used) && start < |slot|
    ensures far < |slot| && slot[Probe(start, far, |slot|)] == 0
  {
    far := GapAhead(slot, start);
  }

  lemma PairAt(hash: seq<nat>, slot: seq<nat>, i: nat)
    requires |hash| == |slot| && i < |slot| && slot[i] != 0
    ensures var pairs := PairsOf(hash, slot, |slot|); pairs == pairs + {(hash[i], slot[i] - 1)}
  {
    assert (hash[i], slot[i] - 1) in PairsOf(hash, slot, |slot|);
  }

  /** Every pair under `h` is met by the probe of `h` before its first gap. */
  lemma PairOnProbe(hash: seq<nat>, slot: seq<nat>, used: nat, h: nat, s: nat, d: nat) returns (e: nat)
    requires TableOf(hash, slot, used) && d < |slot|
    requires slot[Probe(Home(h, |slot|), d, |slot|)] == 0
    requires (h, s) in PairsOf(hash, slot, |slot|)
    ensures e < d
    ensures var b := Probe(Home(h, |slot|), e, |slot|); slot[b] == s + 1 && hash[b] == h
  {
    hide Home;
    var j :| 0 <= j < |slot| && slot[j] != 0 && (hash[j], slot[j] - 1) == (h, s);
    EntryBeforeGap(hash, slot, h, d, j);
    e := Distance(Home(h, |slot|), j, |slot|);
  }

  /** The pair that the probe of `h` did not meet before its first empty
      bucket, put there, is new, and the table stays one. */
  lemma PutKeepsTable(hash: seq<nat>, slot: seq<nat>, used: nat, h: nat, s: nat, d: nat)
    requires TableOf(hash, slot, used) && (used + 1) * 2 <= |slot|
    requires d < |slot| && s != 0
    requires FullPath(slot, Home(h, |slot|), d)
    requires slot[Probe(Home(h, |slot|), d, |slot|)] == 0
    requires forall e | 0 <= e < d ::
               !(slot[Probe(Home(h, |slot|), e, |slot|)] == s && hash[Probe(Home(h, |slot|), e, |slot|)] == h)
    ensures var i := Probe(Home(h, |slot|), d, |slot|);
            && TableOf(hash[i := h], slot[i := s], used + 1)
            && PairsOf(hash[i := h], slot[i := s], |slot|) == PairsOf(hash, slot, |slot|) + {(h, s - 1)}
  {
    hide Home;
    var i := Probe(Home(h, |slot|), d, |slot|);
    var pairs := PairsOf(hash, slot, |slot|);
    if (h, s - 1) in pairs {
      var e := PairOnProbe(hash, slot, used, h, s - 1, d);
      assert false;
    }
    OccupiedUpdate(slot, i, s);
    PutPairs(hash, slot, i, h, s);
    PutKeepsNoGaps(hash, slot, h, s, d);
  }

  /** Buckets for about `entries` keys (buckets_for). */
  method BucketsFor(entries: nat) returns (n: nat)
    ensures PowerOfTwo(n) && MIN_BUCKETS <= n <= MAX_RESET_BUCKETS
    ensures n >= entries * 2 || n == MAX_RESET_BUCKETS
    ensures n == MIN_BUCKETS || n / 2 < entries * 2
  {
    n := MIN_BUCKETS;
    ghost var k := 4;
    assert Pow2(4) == MIN_BUCKETS;
    assert Pow2(10) == 1024;
    assert Pow2(20) == 1024 * Pow2(10);
    assert Pow2(30) == 1024 * Pow2(20);
    while n < entries * 2 && n < MAX_RESET_BUCKETS
      invariant 4 <= k <= 30 && n == Pow2(k)
      invariant MIN_BUCKETS <= n
      invariant n == MIN_BUCKETS || n / 2 < entries * 2
      decreases 30 - k
    {
      n, k := n * 2, k + 1;
    }
    Pow2Monotone(k, 30);
  }

  lemma Doubled(n: nat)
    requires n == 8 || PowerOfTwo(n)
    ensures PowerOfTwo(n * 2)
  {
    assert Pow2(3) == 8;
    var k: nat :| n == Pow2(k);
    assert n * 2 == Pow2(k + 1);
  }

  lemma {:induction false} Pow2Monotone(j: nat, k: nat)
    requires j <= k
    ensures Pow2(j) <= Pow2(k)
  {
    if j < k {
      Pow2Monotone(j, k - 1);
    }
  }

  class Index {
    var hash: array<nat>
    var slot: array<nat>
    var mask: nat   // bucket count - 1, 0 = no table
    var used: nat   // occupied buckets, stale ones included

    ghost function Repr(): set<object>
      reads this
    {
      {this, hash, slot}
    }

    ghost predicate Valid()
      reads Repr()
    {
      && hash != slot
      && (mask == 0 ==> hash.Length == slot.Length == 0 && used == 0)
      && (mask != 0 ==> hash.Length == slot.Length == mask + 1 >= MIN_BUCKETS && used * 2 <= mask + 1
                        && TableOf(hash[..], slot[..], used))
    }

    /** The set this table stands for. */
    ghost function Pairs(): set<(nat, nat)>
      requires Valid()
      reads Repr()
    {
      PairsOf(hash[..], slot[..], slot.Length)
    }

    constructor ()
      ensures Valid() && Pairs() == {} && fresh(Repr())
    {
      hash, slot := new nat[0], new nat[0];
      mask, used := 0, 0;
    }

    /** slotidx_free */
    method Free()
      requires Valid()
      modifies this
      ensures Valid() && Pairs() == {} && mask == 0
      ensures fresh(Repr() - {this})
    {
      hash, slot := new nat[0], new nat[0];
      mask, used := 0, 0;
    }

    /** alloc_table: `n` empty buckets, or no table when there is no memory. */
    method AllocTable(n: nat) returns (ok: bool)
      requires n >= MIN_BUCKETS && PowerOfTwo(n)
      modifies this
      ensures Valid() && Pairs() == {} && fresh(Repr() - {this})
      ensures ok ==> mask + 1 == n && used == 0
      ensures !ok ==> mask == 0
    {
      ok := *;
      if ok {
        hash := new nat[n](_ => 0);
        slot := new nat[n](_ => 0);
        mask, used := n - 1, 0;
        OccupiedZero(slot[..]);
        assert PairsOf(hash[..], slot[..], slot.Length) == {};
      } else {
        hash, slot := new nat[0], new nat[0];
        mask, used := 0, 0;
      }
    }

    /** slotidx_reset: an empty table for about `entries` keys, kept when
        the size does not change. */
    method Reset(entries: nat) returns (ok: bool)
      requires Valid()
      modifies Repr()
      ensures Valid() && Pairs() == {} && fresh(Repr() - old(Repr()))
      ensures ok ==> mask != 0
    {
      var n := BucketsFor(entries);
      if mask != 0 && mask + 1 == n {
        forall i | 0 <= i < hash.Length { hash[i] := 0; }
        forall i | 0 <= i < slot.Length { slot[i] := 0; }
        used := 0;
        OccupiedZero(slot[..]);
        assert PairsOf(hash[..], slot[..], slot.Length) == {};
        return true;
      }
      Free();
      ok := AllocTable(n);
    }

    /** put: the pair goes into the first empty bucket of its probe, unless
        the probe meets it first. */
    method Put(h: nat, slot1: nat)
      requires Valid() && mask != 0 && (used + 1) * 2 <= mask + 1 && slot1 != 0
      modifies hash, slot, `used
      ensures Valid() && mask == old(mask)
      ensures Pairs() == old(Pairs()) + {(h, slot1 - 1)}
    {
      hide Home;
      hide TableOf;
      hide PairsOf;
      var n := mask + 1;
      ghost var hash0, slot0, used0 := hash[..], slot[..], used;
      ghost var start := Home(h, n);
      ghost var far := TableGapAhead(hash0, slot0, used0, start);
      var i := Home(h, n);
      ghost var d := 0;
      while slot[i] != 0
        invariant 0 <= d <= far && i == Probe(start, d, n)
        invariant FullPath(slot0, start, d)
        invariant forall e | 0 <= e < d ::
                    !(slot0[Probe(start, e, n)] == slot1 && hash0[Probe(start, e, n)] == h)
        decreases far - d
      {
        if slot[i] == slot1 && hash[i] == h {
          PairAt(hash0, slot0, i);
          return;
        }
        i := if i + 1 < n then i + 1 else 0;
        d := d + 1;
      }
      PutKeepsTable(hash0, slot0, used0, h, slot1, d);
      hash[i] := h;
      slot[i] := slot1;
      used := used + 1;
      assert hash[..] == hash0[i := h] && slot[..] == slot0[i := slot1];
    }

    /** The copying loop of slotidx_insert: an empty table takes the pairs of
        one half its size. */
    method TakePairs(from: Index)
      requires Valid() && from.Valid() && Repr() !! from.Repr()
      requires Pairs() == {} && from.mask != 0 && mask + 1 == (from.mask + 1) * 2
      modifies hash, slot, `used
      ensures Valid() && mask == old(mask) && Pairs() == from.Pairs()
    {
      hide TableOf;
      hide PairsOf;
      ghost var hash0, slot0, used0 := from.hash[..], from.slot[..], from.used;
      from.Facts();
      var i := 0;
      while i <= from.mask
        invariant 0 <= i <= from.slot.Length == |hash0| == |slot0|
        invariant Valid() && mask == old(mask)
        invariant Pairs() == PairsOf(hash0, slot0, i)
      {
        NextBucket(hash0, slot0, used0, i);
        Facts();
        if from.slot[i] != 0 {
          Put(from.hash[i], from.slot[i]);
        }
        i := i + 1;
      }
    }

    /** The growing half of slotidx_insert: every pair moves into a table
        twice as large. */
    method Grow() returns (ok: bool)
      requires Valid()
      modifies this
      ensures Valid() && Pairs() == old(Pairs()) && fresh(Repr() - old(Repr()))
      ensures ok ==> mask != 0 && (used + 1) * 2 <= mask + 1
      ensures !ok ==> mask == old(mask)
    {
      hide TableOf;
      hide PairsOf;
      Facts();
      var bigger := new Index();
      assert PowerOfTwo(MIN_BUCKETS) && (mask != 0 ==> PowerOfTwo((mask + 1) * 2)) by {
        Doubled(8);
        if mask != 0 {
          Doubled(mask + 1);
        }
      }
      ok := bigger.AllocTable(if mask == 0 then MIN_BUCKETS else (mask + 1) * 2);
      if !ok {
        return;
      }
      if mask != 0 {
        bigger.TakePairs(this);
      }
      bigger.Facts();
      hash, slot, mask, used := bigger.hash, bigger.slot, bigger.mask, bigger.used;
    }

    /** What `Valid` says about the count and the size. */
    lemma Facts()
      requires Valid()
      ensures |Pairs()| == used
      ensures mask == 0 ==> Pairs() == {} == PairsOf(hash[..], slot[..], 0)
      ensures mask != 0 ==> PowerOfTwo(mask + 1) && PairsOf(hash[..], slot[..], 0) == {}
    {
    }

    /** slotidx_insert: add the pair, doubling a table that gets half full;
        false, and nothing changed, when there is no memory for that. */
    method Insert(h: nat, s: nat) returns (ok: bool)
      requires Valid()
      modifies Repr()
      ensures Valid() && fresh(Repr() - old(Repr()))
      ensures ok ==> Pairs() == old(Pairs()) + {(h, s)} && mask != 0
      ensures !ok ==> Pairs() == old(Pairs()) && mask == old(mask)
    {
      if mask == 0 || (used + 1) * 2 > mask + 1 {
        var grown := Grow();
        if !grown {
          return false;
        }
      }
      Put(h, s + 1);
      return true;
    }

    /** slotidx_crowded: stale pairs fill the table. */
    method Crowded(live: nat) returns (r: bool)
      requires Valid()
      ensures r <==> |Pairs()| > live * 2 + MIN_BUCKETS
    {
      Facts();
      r := used > live * 2 + MIN_BUCKETS;
    }

    /** slotidx_find */
    method Find(h: nat, match': nat -> bool) returns (best: int)
      requires Valid()
      ensures LeastMatch(best, Pairs(), h, match')
    {
      hide Home;
      hide TableOf;
      hide PairsOf;
      best := -1;
      if mask == 0 {
        Facts();
        return;
      }
      var n := mask + 1;
      ghost var start := Home(h, n);
      ghost var far := TableGapAhead(hash[..], slot[..], used, start);
      var i := Home(h, n);
      ghost var d := 0;
      while slot[i] != 0
        invariant 0 <= d <= far && i == Probe(start, d, n)
        invariant best >= -1
        invariant best >= 0 ==> (h, best) in Pairs() && match'(best)
        invariant forall e | 0 <= e < d ::
                    slot[Probe(start, e, n)] != 0 && hash[Probe(start, e, n)] == h
                    && match'(slot[Probe(start, e, n)] - 1)
                    ==> 0 <= best <= slot[Probe(start, e, n)] - 1
        decreases far - d
      {
        var s := slot[i] - 1;
        if hash[i] == h && (best < 0 || s < best) && match'(s) {
          best := s;
          PairAt(hash[..], slot[..], i);
        }
        i := if i + 1 < n then i + 1 else 0;
        d := d + 1;
      }
      forall s | (h, s) in Pairs() && match'(s)
        ensures 0 <= best <= s
      {
        var e := PairOnProbe(hash[..], slot[..], used, h, s, d);
      }
    }
  }

  /** One more bucket adds at most its own pair to those before it. */
  lemma NextBucket(hash: seq<nat>, slot: seq<nat>, used: nat, i: nat)
    requires TableOf(hash, slot, used) && i < |slot|
    ensures PairsOf(hash, slot, i + 1)
         == PairsOf(hash, slot, i) + if slot[i] != 0 then {(hash[i], slot[i] - 1)} else {}
    ensures |PairsOf(hash, slot, i)| <= used
  {
    CardinalityOfSubset(PairsOf(hash, slot, i), PairsOf(hash, slot, |slot|));
  }

  lemma {:induction false} CardinalityOfSubset<T>(a: set<T>, b: set<T>)
    requires a <= b
    ensures |a| <= |b|
  {
    if a != {} {
      var x :| x in a;
      CardinalityOfSubset(a - {x}, b - {x});
    }
  }
}
