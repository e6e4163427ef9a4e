/** The server's keystore (config.c): the global key and the clients' keys,
    with lookups through two hash indexes. The hash functions and what a psk=
    text derives to are parameters. */
module Keystore {
  import opened Wrappers
  import opened ServerTable
  import SlotIdx

  /** An entry without an owner holds the global key. A locked one keeps its
      owner's ID taken and matches no key. */
  datatype Entry = Entry(key: Key, owner: string, locked: bool)

  datatype Hashes = Hashes(key: nat -> nat, id: string -> nat)

  predicate HasKey(e: Entry, key: Key) {
    !e.locked && e.key == key
  }

  predicate OwnedBy(e: Entry, id: string) {
    e.owner != "" && SameId(e.owner, id)
  }

  /** The first of the entries before `n` with this key, or -1. */
  function FirstKey(es: seq<Entry>, key: Key, n: nat): (k: int)
    requires n <= |es|
    ensures -1 <= k < n
    ensures k >= 0 ==> HasKey(es[k], key) && forall j | 0 <= j < k :: !HasKey(es[j], key)
    ensures k < 0 ==> forall j | 0 <= j < n :: !HasKey(es[j], key)
  {
    if n == 0 then -1
    else
      var k := FirstKey(es, key, n - 1);
      if k >= 0 then k else if HasKey(es[n - 1], key) then n - 1 else -1
  }

  /** Only entry 0 can be without an owner. */
  predicate GlobalFirst(es: seq<Entry>) {
    forall i | 0 < i < |es| :: es[i].owner != ""
  }

  /* ---- building ---- */

  /** What a psk= text derives to. */
  datatype Derived = NoMemory | Invalid | Derived(key: Key)

  /** A [client ID] block; `psk` is None when it has none. */
  datatype Block = Block(id: string, psk: Option<Derived>)

  function EntryOf(b: Block): Entry
    requires b.psk.Some?
  {
    match b.psk.value
    case Derived(key) => Entry(key, b.id, false)
    case _ => Entry(0, b.id, true)
  }

  function EntriesOf(bs: seq<Block>): seq<Entry> {
    if bs == [] then []
    else EntriesOf(bs[..|bs| - 1]) + if bs[|bs| - 1].psk.None? then [] else [EntryOf(bs[|bs| - 1])]
  }

  function AllEntries(global: Option<Key>, bs: seq<Block>): seq<Entry> {
    (if global.Some? then [Entry(global.value, "", false)] else []) + EntriesOf(bs)
  }

  lemma {:induction false} EntriesHaveOwners(bs: seq<Block>)
    requires forall b | b in bs :: b.id != ""
    ensures forall i | 0 <= i < |EntriesOf(bs)| :: EntriesOf(bs)[i].owner != ""
  {
    if bs != [] {
      assert bs[|bs| - 1] in bs;
      EntriesHaveOwners(bs[..|bs| - 1]);
    }
  }

  /** In a built keystore only entry 0 can hold the global key. */
  lemma BuiltGlobalFirst(global: Option<Key>, bs: seq<Block>)
    requires forall b | b in bs :: b.id != ""
    ensures GlobalFirst(AllEntries(global, bs))
  {
    EntriesHaveOwners(bs);
  }

  /* ---- the indexes ---- */

  /** No entry before `i` has the key of entry `i`, which can be used. */
  ghost predicate IsFirst(es: seq<Entry>, i: nat)
    requires i < |es|
  {
    !es[i].locked && FirstKey(es, es[i].key, i) < 0
  }

  /** Of the entries before `n`: only the first with its key is indexed by
      key, and every one with an owner by it. */
  ghost predicate Indexed(byKey: set<(nat, nat)>, byOwner: set<(nat, nat)>, h: Hashes, es: seq<Entry>, n: nat)
    requires n <= |es|
  {
    && (forall i | 0 <= i < n && IsFirst(es, i) :: (h.key(es[i].key), i) in byKey)
    && (forall p | p in byKey :: p.1 < n && IsFirst(es, p.1))
    && (forall i | 0 <= i < n && es[i].owner != "" :: (h.id(Fold(es[i].owner)), i) in byOwner)
  }

  /** Entry `i` goes into the indexes. */
  lemma IndexedStep(byKey: set<(nat, nat)>, byOwner: set<(nat, nat)>, byKey': set<(nat, nat)>, byOwner': set<(nat, nat)>,
                    h: Hashes, es: seq<Entry>, i: nat)
    requires i < |es| && Indexed(byKey, byOwner, h, es, i)
    requires byKey' == byKey + if IsFirst(es, i) then {(h.key(es[i].key), i)} else {}
    requires byOwner' == byOwner + if es[i].owner != "" then {(h.id(Fold(es[i].owner)), i)} else {}
    ensures Indexed(byKey', byOwner', h, es, i + 1)
  {
    hide IsFirst;
  }

  lemma FirstIsFirst(es: seq<Entry>, key: Key, n: nat)
    requires n <= |es| && FirstKey(es, key, n) >= 0
    ensures IsFirst(es, FirstKey(es, key, n)) && es[FirstKey(es, key, n)].key == key
  {
    var f := FirstKey(es, key, n);
    var g := FirstKey(es, key, f);
    assert forall j | 0 <= j < f :: !HasKey(es[j], key);
  }

  /** What a lookup by key asks for: an owner, or any. */
  predicate Wanted(e: Entry, key: Key, owner: Option<string>) {
    HasKey(e, key) && (owner.None? || SameId(e.owner, owner.value))
  }

  /** A lookup by key answers for the first entry with the key and for no
      other. */
  lemma KeyLookup(byKey: set<(nat, nat)>, byOwner: set<(nat, nat)>, h: Hashes, es: seq<Entry>, n: nat,
                  key: Key, owner: Option<string>, best: int, accepts: nat -> bool)
    requires n <= |es| && Indexed(byKey, byOwner, h, es, n)
    requires forall k: nat :: accepts(k) == (k < |es| && k < n && Wanted(es[k], key, owner))
    requires SlotIdx.LeastMatch(best, byKey, h.key(key), accepts)
    ensures var f := FirstKey(es, key, n);
            best == if f >= 0 && Wanted(es[f], key, owner) then f else -1
  {
    hide FirstKey;
    var f := FirstKey(es, key, n);
    if f >= 0 {
      FirstIsFirst(es, key, n);
      assert (h.key(es[f].key), f) in byKey;
    }
    if best >= 0 {
      assert (h.key(key), best) in byKey;
      assert IsFirst(es, best) && HasKey(es[best], key);
    }
  }

  lemma OwnerLookup(byKey: set<(nat, nat)>, byOwner: set<(nat, nat)>, h: Hashes, es: seq<Entry>,
                    id: string, key: Option<Key>, best: int, accepts: nat -> bool)
    requires Indexed(byKey, byOwner, h, es, |es|)
    requires forall k: nat :: accepts(k) == (k < |es| && OwnedBy(es[k], id) && (key.None? || HasKey(es[k], key.value)))
    requires SlotIdx.LeastMatch(best, byOwner, h.id(Fold(id)), accepts)
    ensures best >= 0 <==> exists i :: 0 <= i < |es| && OwnedBy(es[i], id) && (key.None? || HasKey(es[i], key.value))
  {
    if i :| 0 <= i < |es| && OwnedBy(es[i], id) && (key.None? || HasKey(es[i], key.value)) {
      assert (h.id(Fold(es[i].owner)), i) in byOwner;
      assert accepts(i);
    }
  }

  class Store {
    const hashes: Hashes
    const byKey: SlotIdx.Index
    const byOwner: SlotIdx.Index
    var entries: seq<Entry>
    ghost var Repr: set<object>

    ghost predicate Shape()
      reads this, Repr
      ensures Shape() ==> this in Repr
    {
      && this in Repr && byKey in Repr && byOwner in Repr
      && byKey.Repr() <= Repr && byOwner.Repr() <= Repr && byKey.Repr() !! byOwner.Repr()
      && this !in byKey.Repr() && this !in byOwner.Repr()
      && byKey.Valid() && byOwner.Valid()
    }

    ghost predicate IndexedTo(n: nat)
      requires Shape() && n <= |entries|
      reads this, Repr
    {
      Indexed(byKey.Pairs(), byOwner.Pairs(), hashes, entries, n)
    }

    ghost predicate Valid()
      reads this, Repr
      ensures Valid() ==> this in Repr
    {
      Shape() && IndexedTo(|entries|)
    }

    constructor (hashes: Hashes)
      ensures Valid() && fresh(Repr) && entries == [] && this.hashes == hashes
    {
      hide SlotIdx.Index.Valid;
      hide SlotIdx.Index.Pairs;
      this.hashes := hashes;
      byKey := new SlotIdx.Index();
      byOwner := new SlotIdx.Index();
      entries := [];
      new;
      Repr := {this} + byKey.Repr() + byOwner.Repr();
    }

    /** ks_find_key, among the entries before `below`, all indexed. */
    method FindKey(key: Key, owner: Option<string>, below: nat) returns (k: int)
      requires Shape() && below <= |entries| && IndexedTo(below)
      ensures var f := FirstKey(entries, key, below);
              k == if f >= 0 && Wanted(entries[f], key, owner) then f else -1
    {
      hide SlotIdx.Index.Valid;
      hide SlotIdx.Index.Pairs;
      hide Indexed;
      var es := entries;
      var accepts := (slot: nat) => slot < |es| && slot < below && Wanted(es[slot], key, owner);
      k := byKey.Find(hashes.key(key), accepts);
      KeyLookup(byKey.Pairs(), byOwner.Pairs(), hashes, entries, below, key, owner, k, accepts);
    }

    /** config_ks_find: the first entry with the key, as a scan finds it. */
    method Find(key: Key) returns (k: int)
      requires Valid()
      ensures k == FirstKey(entries, key, |entries|)
    {
      k := FindKey(key, None, |entries|);
    }

    /** config_ks_owner: "" for the global key and for none. */
    method Owner(key: Key) returns (owner: string)
      requires Valid()
      ensures var f := FirstKey(entries, key, |entries|); owner == if f >= 0 then entries[f].owner else ""
    {
      var k := FindKey(key, None, |entries|);
      owner := if k >= 0 then entries[k].owner else "";
    }

    /** config_ks_contains */
    method Contains(key: Key) returns (r: bool)
      requires Valid()
      ensures r <==> exists i :: 0 <= i < |entries| && HasKey(entries[i], key)
    {
      var k := FindKey(key, None, |entries|);
      r := k >= 0;
    }

    /** config_ks_is_global: though only the first entry with a key is
        indexed, a global key is always found. */
    method IsGlobal(key: Key) returns (r: bool)
      requires Valid() && GlobalFirst(entries)
      ensures r <==> exists i :: 0 <= i < |entries| && HasKey(entries[i], key) && entries[i].owner == ""
    {
      var k := FindKey(key, Some(""), |entries|);
      r := k >= 0;
      if r {
        EmptyIdIsEmpty(entries[k].owner);
      }
    }

    /** config_ks_has_owner */
    method HasOwner(id: string) returns (r: bool)
      requires Valid()
      ensures r <==> id != "" && exists i :: 0 <= i < |entries| && OwnedBy(entries[i], id)
    {
      r := FindOwner(id, None);
    }

    /** config_ks_key_owned_by */
    method KeyOwnedBy(key: Key, id: string) returns (r: bool)
      requires Valid()
      ensures r <==> id != "" && exists i :: 0 <= i < |entries| && OwnedBy(entries[i], id) && HasKey(entries[i], key)
    {
      r := FindOwner(id, Some(key));
    }

    method FindOwner(id: string, key: Option<Key>) returns (r: bool)
      requires Valid()
      ensures r <==> id != "" && exists i :: 0 <= i < |entries| && OwnedBy(entries[i], id)
                                             && (key.None? || HasKey(entries[i], key.value))
    {
      hide SlotIdx.Index.Valid;
      hide SlotIdx.Index.Pairs;
      hide Indexed;
      if id == "" {
        return false;
      }
      var es := entries;
      var accepts := (slot: nat) => slot < |es| && OwnedBy(es[slot], id) && (key.None? || HasKey(es[slot], key.value));
      var k := byOwner.Find(hashes.id(Fold(id)), accepts);
      OwnerLookup(byKey.Pairs(), byOwner.Pairs(), hashes, entries, id, key, k, accepts);
      r := k >= 0;
    }

    /** config_keystore_free */
    method Free()
      requires Shape()
      modifies Repr
      ensures Valid() && fresh(Repr - old(Repr)) && entries == []
    {
      hide SlotIdx.Index.Valid;
      byKey.Free();
      Repr := Repr + byKey.Repr();
      byOwner.Free();
      Repr := Repr + byOwner.Repr();
      entries := [];
    }

    method ResetIndexes(size: nat) returns (done: bool)
      requires Shape()
      modifies Repr
      ensures Shape() && fresh(Repr - old(Repr)) && entries == []
      ensures done ==> IndexedTo(0)
    {
      hide SlotIdx.Index.Valid;
      hide SlotIdx.Index.Pairs;
      done := byKey.Reset(size);
      Repr := Repr + byKey.Repr();
      if done {
        done := byOwner.Reset(size);
        Repr := Repr + byOwner.Repr();
      }
      entries := [];
    }

    method SetEntries(es: seq<Entry>)
      requires Shape() && IndexedTo(0)
      modifies `entries
      ensures Shape() && Repr == old(Repr) && entries == es && IndexedTo(0)
    {
      hide SlotIdx.Index.Valid;
      hide SlotIdx.Index.Pairs;
      entries := es;
    }

    method PutKey(h: nat, k: nat) returns (done: bool)
      requires Shape()
      modifies Repr
      ensures Shape() && fresh(Repr - old(Repr)) && entries == old(entries)
      ensures byKey.Pairs() == (if done then old(byKey.Pairs()) + {(h, k)} else old(byKey.Pairs()))
      ensures byOwner.Pairs() == old(byOwner.Pairs())
    {
      hide SlotIdx.Index.Valid;
      hide SlotIdx.Index.Pairs;
      done := byKey.Insert(h, k);
      Repr := Repr + byKey.Repr();
    }

    method PutOwner(h: nat, k: nat) returns (done: bool)
      requires Shape()
      modifies Repr
      ensures Shape() && fresh(Repr - old(Repr)) && entries == old(entries)
      ensures byOwner.Pairs() == (if done then old(byOwner.Pairs()) + {(h, k)} else old(byOwner.Pairs()))
      ensures byKey.Pairs() == old(byKey.Pairs())
    {
      hide SlotIdx.Index.Valid;
      hide SlotIdx.Index.Pairs;
      done := byOwner.Insert(h, k);
      Repr := Repr + byOwner.Repr();
    }

    /** Entry `i` into the indexes; false when there is no memory. */
    method IndexEntry(i: nat) returns (done: bool)
      requires Shape() && i < |entries| && IndexedTo(i)
      modifies Repr
      ensures Shape() && fresh(Repr - old(Repr)) && entries == old(entries)
      ensures done ==> IndexedTo(i + 1)
    {
      hide SlotIdx.Index.Valid;
      hide Indexed;
      hide SlotIdx.Index.Pairs;
      ghost var keys, owners := byKey.Pairs(), byOwner.Pairs();
      var e := entries[i];
      done := true;
      if !e.locked {
        var k := FindKey(e.key, None, i);
        if k < 0 {
          done := PutKey(hashes.key(e.key), i);
        }
      }
      if done && e.owner != "" {
        done := PutOwner(hashes.id(Fold(e.owner)), i);
      }
      if done {
        assert byKey.Pairs() == keys + if IsFirst(entries, i) then {(hashes.key(e.key), i)} else {};
        assert byOwner.Pairs() == owners + if e.owner != "" then {(hashes.id(Fold(e.owner)), i)} else {};
        IndexedStep(keys, owners, byKey.Pairs(), byOwner.Pairs(), hashes, entries, i);
      }
    }

    method IndexAll() returns (done: bool)
      requires Shape() && IndexedTo(0)
      modifies Repr
      ensures Shape() && fresh(Repr - old(Repr)) && entries == old(entries)
      ensures done ==> Valid()
    {
      hide Shape;
      hide Indexed;
      for i := 0 to |entries|
        invariant Shape() && fresh(Repr - old(Repr)) && entries == old(entries) && IndexedTo(i)
      {
        done := IndexEntry(i);
        if !done {
          return;
        }
      }
      done := true;
    }

    /** config_build_keystore: 0, -1 without a usable key, -2 without memory
        (and then without entries). `ready`: encryption is on. */
    method Build(ready: bool, global: Option<Key>, bs: seq<Block>) returns (rc: int)
      requires Valid()
      modifies Repr
      ensures Valid() && fresh(Repr - old(Repr))
      ensures rc == 0 || rc == -1 || rc == -2
      ensures entries == if ready && rc != -2 then AllEntries(global, bs) else []
      ensures ready && rc != -2 ==> (rc == 0 <==> exists i :: 0 <= i < |entries| && !entries[i].locked)
      ensures ready && (exists b :: b in bs && b.psk == Some(NoMemory)) ==> rc == -2
      ensures !ready ==> rc == 0
    {
      hide Shape;
      hide Indexed;
      if !ready {
        Free();
        return 0;
      }
      var done := ResetIndexes(|bs| + 1);
      if !done {
        Free();
        return -2;
      }
      var es := Derive(global, bs);
      if es.None? {
        Free();
        return -2;
      }
      SetEntries(es.value);
      done := IndexAll();
      if !done {
        Free();
        return -2;
      }
      var usable := Usable(entries);
      rc := if usable then 0 else -1;
    }
  }

  /** The entries, None when there was no memory to derive a key. */
  method Derive(global: Option<Key>, bs: seq<Block>) returns (r: Option<seq<Entry>>)
    ensures r.Some? <==> forall b | b in bs :: b.psk != Some(NoMemory)
    ensures r.Some? ==> r.value == AllEntries(global, bs)
  {
    var es := if global.Some? then [Entry(global.value, "", false)] else [];
    for i := 0 to |bs|
      invariant es == AllEntries(global, bs[..i])
      invariant forall j | 0 <= j < i :: bs[j].psk != Some(NoMemory)
    {
      assert bs[..i + 1][..i] == bs[..i];
      if bs[i].psk.Some? {
        if bs[i].psk.value.NoMemory? {
          assert bs[i] in bs;
          return None;
        }
        es := es + [EntryOf(bs[i])];
      }
    }
    assert bs[..|bs|] == bs;
    r := Some(es);
  }

  method Usable(es: seq<Entry>) returns (r: bool)
    ensures r <==> exists i :: 0 <= i < |es| && !es[i].locked
  {
    r := false;
    for i := 0 to |es|
      invariant r <==> exists j :: 0 <= j < i && !es[j].locked
    {
      if !es[i].locked {
        r := true;
      }
    }
  }

  /** A client whose psk= is invalid keeps its ID, and no key is its: not even
      the global key may take the ID over (an owner exists), and it matches no
      key itself. */
  lemma LockedOwner(global: Option<Key>, bs: seq<Block>, i: nat, key: Key)
    requires i < |bs| && bs[i].psk == Some(Invalid) && bs[i].id != ""
    requires forall j | 0 <= j < |bs| && j != i :: !SameId(bs[j].id, bs[i].id)
    ensures exists k :: 0 <= k < |AllEntries(global, bs)| && OwnedBy(AllEntries(global, bs)[k], bs[i].id)
    ensures forall k | 0 <= k < |AllEntries(global, bs)| && OwnedBy(AllEntries(global, bs)[k], bs[i].id) ::
              !HasKey(AllEntries(global, bs)[k], key)
  {
    var es := AllEntries(global, bs);
    EntriesFromBlocks(bs);
    EntryOfBlock(bs, i);
    var e := EntryOf(bs[i]);
    assert e in es && OwnedBy(e, bs[i].id);
    forall k | 0 <= k < |es| && OwnedBy(es[k], bs[i].id)
      ensures !HasKey(es[k], key)
    {
      assert OfBlock(es[k], bs);
      var j :| 0 <= j < |bs| && bs[j].psk.Some? && es[k] == EntryOf(bs[j]);
    }
  }

  ghost predicate OfBlock(e: Entry, bs: seq<Block>) {
    exists j :: 0 <= j < |bs| && bs[j].psk.Some? && e == EntryOf(bs[j])
  }

  lemma {:induction false} EntriesFromBlocks(bs: seq<Block>)
    ensures forall k | 0 <= k < |EntriesOf(bs)| :: OfBlock(EntriesOf(bs)[k], bs)
  {
    if bs != [] {
      var front := bs[..|bs| - 1];
      EntriesFromBlocks(front);
      forall k | 0 <= k < |EntriesOf(bs)|
        ensures OfBlock(EntriesOf(bs)[k], bs)
      {
        if k < |EntriesOf(front)| {
          assert OfBlock(EntriesOf(front)[k], front);
          var j :| 0 <= j < |front| && front[j].psk.Some? && EntriesOf(front)[k] == EntryOf(front[j]);
          assert bs[j] == front[j];
        } else {
          assert EntriesOf(bs)[k] == EntryOf(bs[|bs| - 1]);
        }
      }
    }
  }

  lemma {:induction false} EntryOfBlock(bs: seq<Block>, i: nat)
    requires i < |bs| && bs[i].psk.Some?
    ensures EntryOf(bs[i]) in EntriesOf(bs)
  {
    if i < |bs| - 1 {
      EntryOfBlock(bs[..|bs| - 1], i);
    }
  }

  lemma EmptyIdIsEmpty(id: string)
    requires SameId(id, "")
    ensures id == ""
  {
    assert |Fold(id)| == |id|;
  }
}
