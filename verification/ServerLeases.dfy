/** Leases of the server (server.c): the address of an auto client that is
    gone stays kept under its ID. */
module ServerLeases {
  import opened ServerTable

  const LEASE_MAX: nat := 0x10_0000   // the table grows up to this

  /** `ip` 0 = unused; `prev`: the address of the client's previous session. */
  datatype Lease = Lease(id: string, ip: nat, since: nat, prev: bool)

  const UNUSED := Lease("", 0, 0, false)

  datatype Leases = Leases(table: seq<Lease>, used: int, next: nat)

  datatype LeaseQuery = LeaseOfIp(ip: nat) | LeaseOfId(id: string)

  predicate LeaseMatches(l: Lease, q: LeaseQuery) {
    match q
    case LeaseOfIp(ip) => ip != 0 && l.ip == ip
    case LeaseOfId(id) => l.ip != 0 && !l.prev && SameId(l.id, id)
  }

  function ScanLeases(ls: seq<Lease>, q: LeaseQuery, i: nat): (k: int)
    requires i <= |ls|
    ensures -1 <= k < |ls|
    ensures k >= 0 ==> i <= k && LeaseMatches(ls[k], q) && forall j | i <= j < k :: !LeaseMatches(ls[j], q)
    ensures k < 0 ==> forall j | i <= j < |ls| :: !LeaseMatches(ls[j], q)
    decreases |ls| - i
  {
    if i == |ls| then -1 else if LeaseMatches(ls[i], q) then i else ScanLeases(ls, q, i + 1)
  }

  /** server_lease_by_ip */
  function ByIp(ls: seq<Lease>, ip: nat): (k: int)
    ensures -1 <= k < |ls|
    ensures k >= 0 ==> ip != 0 && ls[k].ip == ip
    ensures k < 0 && ip != 0 ==> forall j | 0 <= j < |ls| :: ls[j].ip != ip
  {
    if ip == 0 then -1 else
    assert forall j | 0 <= j < |ls| :: LeaseMatches(ls[j], LeaseOfIp(ip)) == (ls[j].ip == ip);
    ScanLeases(ls, LeaseOfIp(ip), 0)
  }

  /** A lease of the ID that is not for a previous session. */
  predicate Own(l: Lease, id: string) {
    l.ip != 0 && !l.prev && SameId(l.id, id)
  }

  /** server_lease_by_id */
  function ById(ls: seq<Lease>, id: string): (k: int)
    ensures -1 <= k < |ls|
    ensures k >= 0 ==> id != "" && Own(ls[k], id)
    ensures k < 0 && id != "" ==> forall j | 0 <= j < |ls| :: !Own(ls[j], id)
  {
    if id == "" then -1 else
    assert forall j | 0 <= j < |ls| :: LeaseMatches(ls[j], LeaseOfId(id)) == Own(ls[j], id);
    ScanLeases(ls, LeaseOfId(id), 0)
  }

  lemma LeaseScanUnique(ls: seq<Lease>, q: LeaseQuery, k: int)
    requires -1 <= k < |ls|
    requires k >= 0 ==> LeaseMatches(ls[k], q) && forall j | 0 <= j < k :: !LeaseMatches(ls[j], q)
    requires k < 0 ==> forall j | 0 <= j < |ls| :: !LeaseMatches(ls[j], q)
    ensures k == ScanLeases(ls, q, 0)
  {
  }

  /** server_lease_allows: no lease of the address, or the ID's own. */
  predicate Allows(ls: seq<Lease>, ip: nat, id: string) {
    var k := ByIp(ls, ip);
    k < 0 || SameId(ls[k].id, id)
  }

  /** server_lease_drop */
  function Drop(t: Leases, k: int): Leases
    requires -1 <= k < |t.table|
  {
    if k < 0 || t.table[k].ip == 0 then t
    else Leases(t.table[k := UNUSED], t.used - 1, t.next)
  }

  /** The slot `i` steps after the cursor. */
  function Ring(next: nat, i: nat, cap: nat): (k: nat)
    requires i < cap && next <= cap
    ensures k < cap
  {
    if next + i < cap then next + i else next + i - cap
  }

  /** The first unused slot from the cursor on, from step `i`; -1 for none. */
  function FreeFrom(ls: seq<Lease>, next: nat, i: nat): (k: int)
    requires i <= |ls| && next <= |ls|
    ensures -1 <= k < |ls| && (k >= 0 ==> ls[k].ip == 0)
    ensures k < 0 ==> forall j | i <= j < |ls| :: ls[Ring(next, j, |ls|)].ip != 0
    decreases |ls| - i
  {
    if i == |ls| then -1
    else if ls[Ring(next, i, |ls|)].ip == 0 then Ring(next, i, |ls|)
    else FreeFrom(ls, next, i + 1)
  }

  /** The oldest of the first `n` slots, the lowest one among equals. */
  function Oldest(ls: seq<Lease>, n: nat): (k: nat)
    requires 0 < n <= |ls|
    ensures k < n && forall j | 0 <= j < n :: ls[k].since <= ls[j].since
  {
    if n == 1 then 0
    else
      var k := Oldest(ls, n - 1);
      if ls[n - 1].since < ls[k].since then n - 1 else k
  }

  /** The size the table grows to when its oldest lease is still young. */
  function GrownCap(db: Db, cap: nat): nat
    requires db.poolPrefix <= 30
  {
    var limit := if PoolSize(db) > LEASE_MAX then LEASE_MAX else PoolSize(db);
    if cap * 2 > limit then limit else cap * 2
  }

  predicate Young(db: Db, now: nat, l: Lease) {
    now - l.since < LeaseMin(db)
  }

  /** Both drops at the start of server_lease_add. */
  function Cleared(t: Leases, id: string, ip: nat, prev: bool): (t': Leases)
    ensures |t'.table| == |t.table|
  {
    var t1 := if prev then t else Drop(t, ById(t.table, id));
    Drop(t1, ByIp(t1.table, ip))
  }

  /** The slot server_lease_add writes to, before the table may grow. */
  function Chosen(t: Leases): (k: nat)
    requires |t.table| > 0 && t.next <= |t.table|
    ensures k < |t.table|
  {
    var f := if t.used < |t.table| then FreeFrom(t.table, t.next, 0) else -1;
    if f >= 0 then f else Oldest(t.table, |t.table|)
  }

  function NextCursor(t: Leases): (n: nat)
    requires |t.table| > 0 && t.next <= |t.table|
    ensures n <= |t.table|
  {
    var f := if t.used < |t.table| then FreeFrom(t.table, t.next, 0) else -1;
    if f < 0 then t.next else if f + 1 < |t.table| then f + 1 else 0
  }

  /** The table with the unused slot or the victim chosen, grown if the
      victim is young and there is memory (`memory`). */
  function MakeRoom(t: Leases, db: Db, now: nat, memory: bool): (r: (Leases, nat))
    requires |t.table| > 0 && t.next <= |t.table| && db.poolPrefix <= 30
    ensures r.1 < |r.0.table|
  {
    var k := Chosen(t);
    var cap := GrownCap(db, |t.table|);
    if t.table[k].ip != 0 && Young(db, now, t.table[k]) && cap > |t.table| && memory then
      (Leases(t.table + seq(cap - |t.table|, _ => UNUSED), t.used, |t.table| + 1), |t.table|)
    else (Leases(t.table, t.used, NextCursor(t)), k)
  }

  function Stored(t: Leases, k: nat, l: Lease): Leases
    requires k < |t.table|
  {
    Leases(t.table[k := l], if t.table[k].ip == 0 then t.used + 1 else t.used, t.next)
  }

  /** server_lease_add */
  function Add(t: Leases, db: Db, now: nat, id: string, ip: nat, prev: bool, memory: bool): (t': Leases)
    requires t.next <= |t.table| && db.poolPrefix <= 30
    ensures t'.next <= |t'.table|
  {
    if |t.table| == 0 || ip == 0 || id == "" then t
    else
      var (room, k) := MakeRoom(Cleared(t, id, ip, prev), db, now, memory);
      Stored(room, k, Lease(id, ip, now, prev))
  }

  /* ---- what every operation keeps ---- */

  ghost function InUse(ls: seq<Lease>): nat {
    if ls == [] then 0 else InUse(ls[..|ls| - 1]) + if ls[|ls| - 1].ip != 0 then 1 else 0
  }

  ghost predicate OnePerIp(ls: seq<Lease>) {
    forall i, j | 0 <= i < j < |ls| && ls[i].ip != 0 :: ls[i].ip != ls[j].ip
  }

  ghost predicate OneOwnPerId(ls: seq<Lease>) {
    forall i, j | 0 <= i < j < |ls| && Own(ls[i], ls[i].id) && Own(ls[j], ls[j].id) ::
      !SameId(ls[i].id, ls[j].id)
  }

  /** One lease per address, at most one per ID that is not for a previous
      session, an exact count of those in use, a cursor in the table. */
  ghost predicate LeaseInv(t: Leases) {
    && OnePerIp(t.table) && OneOwnPerId(t.table)
    && t.used == InUse(t.table)
    && t.next <= |t.table|
  }

  lemma {:induction false} InUseUpdate(ls: seq<Lease>, k: nat, l: Lease)
    requires k < |ls|
    ensures InUse(ls[k := l]) == InUse(ls) - (if ls[k].ip != 0 then 1 else 0) + (if l.ip != 0 then 1 else 0)
  {
    var n := |ls| - 1;
    if k == n {
      assert ls[k := l][..n] == ls[..n];
    } else {
      assert ls[k := l][..n] == ls[..n][k := l];
      InUseUpdate(ls[..n], k, l);
    }
  }

  lemma {:induction false} InUseAppended(ls: seq<Lease>, more: seq<Lease>)
    requires forall j | 0 <= j < |more| :: more[j].ip == 0
    ensures InUse(ls + more) == InUse(ls)
  {
    if more == [] {
      assert ls + more == ls;
    } else {
      var n := |more| - 1;
      assert (ls + more)[..|ls| + n] == ls + more[..n];
      InUseAppended(ls, more[..n]);
    }
  }

  lemma {:induction false} InUseBound(ls: seq<Lease>)
    ensures InUse(ls) <= |ls|
    ensures (forall j | 0 <= j < |ls| :: ls[j].ip != 0) <==> InUse(ls) == |ls|
  {
    if ls != [] {
      var n := |ls| - 1;
      InUseBound(ls[..n]);
      assert forall j | 0 <= j < n :: ls[..n][j] == ls[j];
      if InUse(ls[..n]) != n {
        var j :| 0 <= j < n && ls[..n][j].ip == 0;
        assert ls[j].ip == 0;
      }
    }
  }

  lemma DropKeepsInv(t: Leases, k: int)
    requires LeaseInv(t) && -1 <= k < |t.table|
    ensures LeaseInv(Drop(t, k))
  {
    if k >= 0 {
      InUseUpdate(t.table, k, UNUSED);
    }
  }

  /** After the drops no lease is in the way of the new one. */
  lemma ClearedFacts(t: Leases, id: string, ip: nat, prev: bool)
    requires LeaseInv(t) && ip != 0 && id != ""
    ensures var t' := Cleared(t, id, ip, prev);
            && LeaseInv(t')
            && (forall j | 0 <= j < |t'.table| :: t'.table[j].ip != ip)
            && (!prev ==> forall j | 0 <= j < |t'.table| :: !Own(t'.table[j], id))
            && (forall j | 0 <= j < |t.table| ::
                  t'.table[j] == if t.table[j].ip == ip || (!prev && Own(t.table[j], id)) then UNUSED else t.table[j])
  {
    hide InUse;
    var t1 := if prev then t else Drop(t, ById(t.table, id));
    if !prev {
      DropKeepsInv(t, ById(t.table, id));
      var k := ById(t.table, id);
      forall j | 0 <= j < |t.table|
        ensures t1.table[j] == if Own(t.table[j], id) then UNUSED else t.table[j]
      {
        if k >= 0 && j != k && Own(t.table[j], id) {
          assert false;
        }
      }
    }
    DropKeepsInv(t1, ByIp(t1.table, ip));
  }

  /** A table that counts an unused slot finds one. */
  lemma ChosenIsFree(t: Leases)
    requires LeaseInv(t) && |t.table| > 0
    ensures t.used < |t.table| ==> t.table[Chosen(t)].ip == 0
    ensures t.used == |t.table| <==> forall j | 0 <= j < |t.table| :: t.table[j].ip != 0
    ensures t.used <= |t.table|
    ensures t.used == |t.table| ==> forall j | 0 <= j < |t.table| :: t.table[Chosen(t)].since <= t.table[j].since
  {
    InUseBound(t.table);
    if t.used < |t.table| {
      var z :| 0 <= z < |t.table| && t.table[z].ip == 0;
      var i := if z >= t.next then z - t.next else z + |t.table| - t.next;
      assert Ring(t.next, i, |t.table|) == z;
    }
  }

  /** server_lease_add keeps the table's promises and keeps the new lease. */
  lemma AddKeepsInv(t: Leases, db: Db, now: nat, id: string, ip: nat, prev: bool, memory: bool)
    requires LeaseInv(t) && db.poolPrefix <= 30
    ensures var t' := Add(t, db, now, id, ip, prev, memory);
            && LeaseInv(t') && |t'.table| >= |t.table|
            && (|t.table| > 0 && ip != 0 && id != "" ==>
                  ByIp(t'.table, ip) >= 0 && t'.table[ByIp(t'.table, ip)] == Lease(id, ip, now, prev))
  {
    hide InUse;
    hide Cleared;
    if |t.table| > 0 && ip != 0 && id != "" {
      var c := Cleared(t, id, ip, prev);
      ClearedFacts(t, id, ip, prev);
      var (room, k) := MakeRoom(c, db, now, memory);
      RoomKeepsInv(c, db, now, memory, ip, id, prev);
      StoredKeepsInv(room, k, Lease(id, ip, now, prev));
      assert Stored(room, k, Lease(id, ip, now, prev)).table[k].ip == ip;
    }
  }

  /** A lease that is in nobody's way is given up only when every slot is
      taken: it is the oldest, and when it is still young there was no
      memory to grow the table, or it has a slot for every address of the pool
      or a million already. */
  lemma AddGivesUp(t: Leases, db: Db, now: nat, id: string, ip: nat, prev: bool, memory: bool, j: nat)
    requires LeaseInv(t) && db.poolPrefix <= 30 && |t.table| > 0 && ip != 0 && id != ""
    requires j < |t.table| && t.table[j].ip != 0
    requires t.table[j].ip != ip && (prev || !Own(t.table[j], id))
    ensures var t' := Add(t, db, now, id, ip, prev, memory);
            |t'.table| >= |t.table|
            && (t'.table[j] != t.table[j] ==>
                  var c := Cleared(t, id, ip, prev);
                  && (forall i | 0 <= i < |t.table| :: c.table[i].ip != 0 && t.table[j].since <= c.table[i].since)
                  && (Young(db, now, t.table[j]) ==> !memory || |t.table| >= PoolSize(db) || |t.table| >= 0x10_0000))
  {
    hide InUse;
    hide Cleared;
    ClearedFacts(t, id, ip, prev);
    ChosenIsFree(Cleared(t, id, ip, prev));
  }

  lemma RoomKeepsInv(c: Leases, db: Db, now: nat, memory: bool, ip: nat, id: string, prev: bool)
    requires LeaseInv(c) && |c.table| > 0 && db.poolPrefix <= 30 && ip != 0
    requires forall j | 0 <= j < |c.table| :: c.table[j].ip != ip
    requires !prev ==> forall j | 0 <= j < |c.table| :: !Own(c.table[j], id)
    ensures var (room, k) := MakeRoom(c, db, now, memory);
            && LeaseInv(room)
            && (forall j | 0 <= j < |room.table| :: room.table[j].ip != ip)
            && (!prev ==> forall j | 0 <= j < |room.table| :: !Own(room.table[j], id))
  {
    hide InUse;
    var cap := GrownCap(db, |c.table|);
    if cap > |c.table| {
      InUseAppended(c.table, seq(cap - |c.table|, _ => UNUSED));
    }
  }

  lemma StoredKeepsInv(t: Leases, k: nat, l: Lease)
    requires LeaseInv(t) && k < |t.table| && l.ip != 0
    requires forall j | 0 <= j < |t.table| :: t.table[j].ip != l.ip
    requires !l.prev ==> forall j | 0 <= j < |t.table| :: !Own(t.table[j], l.id)
    ensures LeaseInv(Stored(t, k, l))
  {
    InUseUpdate(t.table, k, l);
    var t' := Stored(t, k, l);
    forall i, j | 0 <= i < j < |t'.table| && Own(t'.table[i], t'.table[i].id) && Own(t'.table[j], t'.table[j].id)
      ensures !SameId(t'.table[i].id, t'.table[j].id)
    {
      if i == k {
        assert !Own(t.table[j], l.id);
      } else if j == k {
        assert !Own(t.table[i], l.id);
      }
    }
  }
}
