/** Which slot and which address of the pool a new client gets, and when the
    pool counts as full (server.c). */
module ServerChoice {
  import opened Wrappers
  import opened ServerTable
  import opened ServerLeases
  import opened ServerSteps
  import opened ServerAgreement
  import opened ServerRotation
  import opened ServerPool
  import opened ServerAdmission
  import opened ServerKeeping

  /* ---- slots ---- */

  /** How far an element is from the start, once around. */
  function Far(start: nat, k: nat, n: nat): (d: int) {
    if k >= start then k - start else k + n - start
  }

  lemma {:induction false} NearestFree(cs: seq<Client>, start: nat, i: nat)
    requires i <= |cs| && start < |cs|
    ensures var k := FreeSlot(cs, start, i);
            k >= 0 ==> i <= Far(start, k, |cs|)
                       && forall j | 0 <= j < |cs| && i <= Far(start, j, |cs|) < Far(start, k, |cs|) :: cs[j].active
    decreases |cs| - i
  {
    if i < |cs| {
      assert forall j | 0 <= j < |cs| && Far(start, j, |cs|) == i :: j == Ring(start, i, |cs|);
      NearestFree(cs, start, i + 1);
    }
  }

  /** A new client gets the free slot that is next after the one given last,
      so that a slot that has just become free waits longest. With none free
      it gets that of the client not heard of for the longest time. */
  lemma SlotExactly(s: State, memory: Memory)
    requires Shape(s) && !NoSlot(s)
    ensures var (s1, k) := AllocClient(s, memory);
            var n := |s.clients|;
            k >= 0 && s1.clients == s.clients[k := TAKEN] &&
            if exists j :: 0 <= j < n && !s.clients[j].active then
              && !s.clients[k].active && s1.allocNext == (if k + 1 == n then 0 else k + 1) && s1.leases == s.leases
              && forall j | 0 <= j < n && !s.clients[j].active :: Far(s.allocNext, k, n) <= Far(s.allocNext, j, n)
            else
              && s1.leases == EndClient(s, k, memory).leases
              && forall j | 0 <= j < n :: s.clients[k].lastSeen <= s.clients[j].lastSeen
                                          && (j < k ==> s.clients[k].lastSeen < s.clients[j].lastSeen)
  {
    NoFreeSlot(s.clients, s.allocNext);
    NoSlotExactly(s, memory);
    NearestFree(s.clients, s.allocNext, 0);
    QuietestFirst(s.clients, |s.clients|);
    var k := AllocClient(s, memory).1;
    AllocatedIs(s, memory);
    hide FreeSlot, LeasesAfterEnd, Quietest, AllocClient, EndClient, NoSlot, Far, Shape;
  }

  lemma AllocatedIs(s: State, memory: Memory)
    requires Shape(s)
    ensures var (s1, k) := AllocClient(s, memory);
            var f := FreeSlot(s.clients, s.allocNext, 0);
            if f >= 0 then
              && k == f && s1.clients == s.clients[k := TAKEN] && s1.leases == s.leases
              && s1.allocNext == (if k + 1 == |s.clients| then 0 else k + 1)
            else k >= 0 ==> k == Quietest(s.clients, |s.clients|) && s1.clients == s.clients[k := TAKEN]
                            && s1.leases == EndClient(s, k, memory).leases
  {
    hide FreeSlot, LeasesAfterEnd, Quietest;
  }

  lemma {:induction false} QuietestFirst(cs: seq<Client>, n: nat)
    requires 0 < n <= |cs|
    ensures var k := Quietest(cs, n); forall j | 0 <= j < k :: cs[k].lastSeen < cs[j].lastSeen
  {
    if n > 1 {
      QuietestFirst(cs, n - 1);
    }
  }

  /* ---- addresses ---- */

  /** How far a client address of the pool is from the cursor. */
  function FarInPool(db: Db, cursor: nat, ip: nat): int
    requires PoolOk(db)
  {
    Far(if PoolFirst(db) <= cursor <= PoolLast(db) then cursor else PoolFirst(db), ip, Clients(db))
  }

  lemma WalkedAt(db: Db, cursor: nat, n: nat)
    requires PoolOk(db) && n < Clients(db)
    ensures FarInPool(db, cursor, PoolAt(db, cursor, n)) == n
  {
  }

  lemma {:induction false} NearestUsable(s: State, k: nat, id: string, n: nat, m: nat)
    requires Shape(s) && n <= m < Clients(s.db) && Usable(s, k, PoolAt(s.db, s.poolNext, m), id)
    ensures var ip := WalkFrom(s, k, id, n);
            ip != 0 && FarInPool(s.db, s.poolNext, ip) <= m
    decreases m - n
  {
    hide Usable;
    WalkedAt(s.db, s.poolNext, n);
    if n < m {
      NearestUsable(s, k, id, n + 1, m);
    }
    PoolNotZero(s.db, s.poolNext, n);
    hide FarInPool, PoolAt;
  }

  lemma PoolNotZero(db: Db, cursor: nat, n: nat)
    requires PoolOk(db) && n < Clients(db)
    ensures PoolAt(db, cursor, n) != 0
  {
  }

  /** Which address the pool gives. A free one, if there is any, and of these
      the next after the one given last; only with none free one that is kept
      for another client, the one kept for the longest time. */
  lemma PoolChoice(s: State, k: nat, id: string)
    requires Shape(s) && LeaseInv(s.leases) && !KnownFull(s) && PoolTake(s, k, id).1 != 0
    ensures var (s', ip) := PoolTake(s, k, id);
            if exists a: nat :: Free(s, k, id, a) then
              && Free(s, k, id, ip)
              && (forall a: nat | Free(s, k, id, a) :: FarInPool(s.db, s.poolNext, ip) <= FarInPool(s.db, s.poolNext, a))
              && s'.poolNext == (if ip == PoolLast(s.db) then PoolFirst(s.db) else ip + 1)
            else s' == s && Reclaimed(s, k, id, ip)
  {
    var ip := PoolTake(s, k, id).1;
    forall a: nat
      ensures Usable(s, k, a, id) <==> Free(s, k, id, a)
    {
      UsableExactly(s, k, a, id);
    }
    hide Usable, Free;
    if a: nat :| Free(s, k, id, a) {
      FreeIsNear(s, k, id, a);
      forall b: nat | Free(s, k, id, b)
        ensures FarInPool(s.db, s.poolNext, ip) <= FarInPool(s.db, s.poolNext, b)
      {
        FreeIsNear(s, k, id, b);
      }
      UsableInPool(s, k, ip, id);
    } else {
      TakenIsOldest(s, k, id);
    }
    hide WalkFrom, OldestLease, FarInPool, Reclaimed;
  }

  lemma FreeIsNear(s: State, k: nat, id: string, a: nat)
    requires Shape(s) && LeaseInv(s.leases) && Usable(s, k, a, id)
    ensures var ip := WalkFrom(s, k, id, 0);
            ip != 0 && FarInPool(s.db, s.poolNext, ip) <= FarInPool(s.db, s.poolNext, a)
  {
    UsableInPool(s, k, a, id);
    var m := PoolCovered(s.db, s.poolNext, a);
    WalkedAt(s.db, s.poolNext, m);
    NearestUsable(s, k, id, 0, m);
    hide Usable, FarInPool, WalkFrom;
  }

  /** The address is kept for another client, long enough, and none that may be
      taken over is kept for longer. */
  ghost predicate Reclaimed(s: State, k: nat, id: string, ip: nat)
    requires PoolOk(s.db)
  {
    && CanReclaim(s, k, ip)
    && forall a: nat, i, j | CanReclaim(s, k, a) && 0 <= i < |s.leases.table| && 0 <= j < |s.leases.table|
                             && s.leases.table[i].ip == ip && s.leases.table[j].ip == a ::
         s.leases.table[i].since <= s.leases.table[j].since
  }

  /** A client address of the pool, not the server's or a profile's, found as
      no other entry's, and kept for longer than the minimum. */
  ghost predicate CanReclaim(s: State, k: nat, ip: nat)
    requires PoolOk(s.db)
  {
    && PoolAddress(s.db, ip) && (FindByIp(s.clients, ip) < 0 || FindByIp(s.clients, ip) == k)
    && exists l :: 0 <= l < |s.leases.table| && s.leases.table[l].ip == ip
                   && s.leases.table[l].since + 600 + s.db.clientTimeout <= s.now
  }

  lemma ReclaimExactly(s: State, k: nat, ip: nat)
    requires Shape(s) && LeaseInv(s.leases)
    ensures PoolHas(s.db, ip) && Reclaimable(s, k, ip) <==> CanReclaim(s, k, ip)
  {
    OwnerFromExact(s.db.profiles, ip, 0);
    var l := ByIp(s.leases.table, ip);
    if l >= 0 {
      assert s.leases.table[l].ip == ip && OnePerIp(s.leases.table);
    }
    hide FindByIp;
  }

  lemma TakenIsOldest(s: State, k: nat, id: string)
    requires Shape(s) && LeaseInv(s.leases) && !KnownFull(s)
    requires PoolTake(s, k, id).1 != 0 && WalkFrom(s, k, id, 0) == 0
    ensures PoolTake(s, k, id).0 == s && Reclaimed(s, k, id, PoolTake(s, k, id).1)
  {
    var ip := PoolTake(s, k, id).1;
    var l := OldestLease(s, k, Clients(s.db));
    ReclaimExactly(s, k, ip);
    forall a: nat, i, j | CanReclaim(s, k, a) && 0 <= i < |s.leases.table| && 0 <= j < |s.leases.table|
                          && s.leases.table[i].ip == ip && s.leases.table[j].ip == a
      ensures s.leases.table[i].since <= s.leases.table[j].since
    {
      ReclaimExactly(s, k, a);
      var m := PoolCovered(s.db, s.poolNext, a);
      OldestOfAll(s, k, Clients(s.db), m);
      OneLease(s.leases, i, l);
      OneLease(s.leases, j, ByIp(s.leases.table, a));
    }
    hide Reclaimable, CanReclaim, OldestLease, WalkFrom;
  }

  lemma OneLease(t: Leases, i: nat, j: int)
    requires LeaseInv(t) && i < |t.table| && -1 <= j < |t.table| && t.table[i].ip != 0
    requires j >= 0 ==> t.table[i].ip == t.table[j].ip
    ensures j >= 0 ==> i == j
  {
    assert OnePerIp(t.table);
  }

  /* ---- when the pool counts as full ---- */

  /** The pool was walked for this handshake and every client address of it was
      blocked. */
  ghost predicate FoundFull(s: State, e: Event)
    requires Shape(s) && EventOk(e)
  {
    e.Shake? && var r := PoolAsked(s, e.q, e.memory);
                r.Some? && forall a | PoolHas(s.db, a) :: Blocked(r.value.0, r.value.1, e.q.id, a)
  }

  predicate SameNote(s: State, s': State) {
    s'.fullAt == s.fullAt && s'.fullNet == s.fullNet && s'.fullPrefix == s.fullPrefix
  }

  /** The note says that the pool is full now. */
  predicate NotedNow(s: State, s': State) {
    s'.fullAt == s.now && s'.fullNet == s.db.poolNet && s'.fullPrefix == s.db.poolPrefix
  }

  lemma TakeNotes(s: State, k: nat, id: string)
    requires Shape(s) && LeaseInv(s.leases)
    ensures var s' := PoolTake(s, k, id).0;
            SameNote(s, s') || (NotedNow(s, s') && forall a | PoolHas(s.db, a) :: Blocked(s, k, id, a))
  {
    if !KnownFull(s) {
      PoolTakeExact(s, k, id);
    }
    hide Blocked, WalkFrom, OldestLease;
  }

  lemma ConfigNotes(s: State, k: nat, id: string, hint: Option<nat>, tooLong: bool)
    requires Shape(s) && LeaseInv(s.leases) && k < |s.clients| && s.clients[k].id == id
    ensures var s' := BuildConfig(s, k, id, hint, tooLong).0;
            var p := Merged(s.db, id);
            var s3 := s.(clients := s.clients[k := WithOldAddress(s, k, id, hint)]);
            SameNote(s, s')
            || (NotedNow(s, s') && !(p.cidr != NoCidr && p.gateway) && id != "" && !HasUsable(s3, k, id) && !Holding(s3)
                && forall a | PoolHas(s.db, a) :: Blocked(s3, k, id, a))
  {
    OldAddressId(s, k, id, hint);
    var s3 := s.(clients := s.clients[k := WithOldAddress(s, k, id, hint)]);
    TakeNotes(s3, k, id);
    hide PoolTake, Blocked, WithOldAddress, Usable, LeaseInv, Merged;
  }

  lemma AnswerNotes(s: State, k: nat, taken: bool, q: Init, fault: Fault, rand: seq<nat>)
    requires Shape(s) && k < |s.clients|
    requires |rand| == 16 && forall j | 0 <= j < 16 :: rand[j] < ServerTable.U32
    ensures var s1 := s.(clients := s.clients[k := Identified(s, s.clients[k], q)]);
            SameNote(if q.auto then BuildConfig(s1, k, q.id, q.ip, fault == ConfigTooLong).0 else s,
                     Answer(s, k, taken, q, fault, rand).0)
  {
    hide NewIndex, BuildConfig, Identified, WithSession, RolledBack, Settled;
  }

  lemma EntryNotes(s: State, q: Init, memory: Memory)
    requires Shape(s)
    ensures SameNote(s, EntryFor(s, q, memory).0)
  {
    hide AdoptTcp, FreeSlot, LeasesAfterEnd, Quietest, ManualRefused;
  }

  lemma HandshakeNotes(s: State, e: Event)
    requires Shape(s) && LeaseInv(s.leases) && EventOk(e) && e.Shake?
    ensures SameNote(s, Step(s, e)) || (NotedNow(s, Step(s, e)) && FoundFull(s, e))
  {
    var q := e.q;
    EntryNotes(s, q, e.memory);
    EntryForKeepsLeases(s, q, e.memory);
    var (s1, k, taken) := EntryFor(s, q, e.memory);
    if k >= 0 {
      var s2 := s1.(clients := s1.clients[k := Identified(s1, s1.clients[k], q)]);
      AnswerNotes(s1, k, taken, q, e.fault, e.rand);
      IdentifiedSessions(s1, s1.clients[k], q);
      ConfigNotes(s2, k, q.id, q.ip, e.fault == ConfigTooLong);
    }
    hide EntryFor, Answer, BuildConfig, Identified, Stale, ProfileTaken, LeaseInv, Blocked, WithOldAddress, HasUsable;
  }

  lemma {:induction false} PassNotes(s: State, n: nat, pass: Pass, memory: Memory)
    requires Shape(s) && n <= |s.clients|
    ensures SameNote(s, Visited(s, n, pass, memory))
  {
    if n > 0 {
      PassNotes(s, n - 1, pass, memory);
    }
    hide LeasesAfterEnd, SessionsExpired, OfferChecked;
  }

  lemma OtherNotes(s: State, e: Event)
    requires Shape(s) && EventOk(e) && !e.Shake?
    ensures SameNote(s, Step(s, e))
  {
    match e
    case Expire(memory) => PassNotes(s, |s.clients|, Expiry, memory);
    case Configure(db, allowed, memory) =>
      var s1 := Whole(s.(db := db), Keys(allowed), memory);
      PassNotes(s.(db := db), |s.clients|, Keys(allowed), memory);
      PassNotes(s1, |s.clients|, UnknownIds, memory);
      PassNotes(Whole(s1, UnknownIds, memory), |s.clients|, ProfileAddresses, memory);
    case _ =>
    hide Visited, LeasesAfterEnd, CountPreAuth, FreeSlot;
  }

  /** The note of `v` was made by the `i`-th event. */
  ghost predicate Noted(s: State, es: seq<Event>, i: nat, v: State)
    requires Shape(s) && (forall i | 0 <= i < |es| :: EventOk(es[i])) && i < |es|
  {
    var u := After(s, es, i);
    FoundFull(u, es[i]) && NotedNow(u, v)
  }

  lemma NoteStays(s: State, es: seq<Event>, i: nat, v: State, v': State)
    requires Shape(s) && (forall i | 0 <= i < |es| :: EventOk(es[i])) && i < |es|
    requires Noted(s, es, i, v) && SameNote(v, v')
    ensures Noted(s, es, i, v')
  {
    hide FoundFull;
  }

  lemma {:induction false} NoteInRun(s: State, es: seq<Event>, n: nat)
    requires Fresh(s) && s.fullAt == 0 && (forall i | 0 <= i < |es| :: EventOk(es[i])) && n <= |es|
    ensures var v := After(s, es, n);
            v.fullAt == 0 || exists i :: 0 <= i < n && Noted(s, es, i, v)
  {
    if n > 0 {
      var u, v := After(s, es, n - 1), After(s, es, n);
      NoteInRun(s, es, n - 1);
      LeasesInEveryRun(s, es[..n - 1]);
      AfterNext(s, es, n - 1);
      hide Step, Run, FoundFull, LeaseInv;
      if es[n - 1].Shake? {
        HandshakeNotes(u, es[n - 1]);
        assert SameNote(u, v) || Noted(s, es, n - 1, v);
      } else {
        OtherNotes(u, es[n - 1]);
      }
      if SameNote(u, v) && u.fullAt != 0 {
        var i :| 0 <= i < n - 1 && Noted(s, es, i, u);
        NoteStays(s, es, i, u, v);
      }
    }
  }

  /** In every run, whenever the pool counts as full without a walk, it was
      found full in the same second for another handshake: every client address
      of this same pool was blocked then. */
  lemma FullNoteIsTrue(s: State, es: seq<Event>, n: nat)
    requires Fresh(s) && s.fullAt == 0 && (forall i | 0 <= i < |es| :: EventOk(es[i])) && n <= |es|
    requires KnownFull(After(s, es, n))
    ensures var v := After(s, es, n);
            exists i :: 0 <= i < n && FoundFull(After(s, es, i), es[i]) && SamePool(After(s, es, i), v)
  {
    NoteInRun(s, es, n);
    var v := After(s, es, n);
    var i :| 0 <= i < n && Noted(s, es, i, v);
    hide After, FoundFull;
    assert SamePool(After(s, es, i), v);
  }

  predicate SamePool(s: State, s': State) {
    s'.now == s.now && s'.db.poolNet == s.db.poolNet && s'.db.poolPrefix == s.db.poolPrefix
  }
}
