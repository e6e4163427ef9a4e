/** The auto pool and the leases over every run of the server (server.c). */
module ServerPool {
  import opened Wrappers
  import opened ServerTable
  import opened ServerLeases
  import opened ServerSteps
  import opened ServerAddresses
  import opened ServerRotation

  /* ---- when the pool is full ---- */

  /** The address cannot be given to entry `k`: it is the server's, a
      profile's, that of another live client (the first one to have it, if
      there are several), or leased to another ID not long enough ago. */
  ghost predicate Blocked(s: State, k: nat, id: string, ip: nat) {
    || ip == s.db.tunnelIp
    || (exists i :: 0 <= i < |s.db.profiles| && s.db.profiles[i].cidr == At(ip))
    || (FindByIp(s.clients, ip) >= 0 && FindByIp(s.clients, ip) != k)
    || (exists l :: 0 <= l < |s.leases.table| && s.leases.table[l].ip == ip
                    && !SameId(s.leases.table[l].id, id) && Young(s.db, s.now, s.leases.table[l]))
  }

  lemma {:induction false} OwnerFromExact(ps: seq<Profile>, ip: nat, i: nat)
    requires i <= |ps|
    ensures OwnerFrom(ps, ip, i).Some? <==> exists j :: i <= j < |ps| && ps[j].cidr == At(ip)
    decreases |ps| - i
  {
    if i < |ps| {
      OwnerFromExact(ps, ip, i + 1);
    }
  }

  lemma LeaseExact(t: Leases, db: Db, now: nat, id: string, ip: nat)
    requires LeaseInv(t) && ip != 0
    ensures (Allows(t.table, ip, id) || !Young(db, now, t.table[ByIp(t.table, ip)]))
       <==> !exists l :: 0 <= l < |t.table| && t.table[l].ip == ip
                         && !SameId(t.table[l].id, id) && Young(db, now, t.table[l])
  {
    var k := ByIp(t.table, ip);
    if k >= 0 {
      assert t.table[k].ip == ip;
      forall l | 0 <= l < |t.table| && t.table[l].ip == ip
        ensures l == k
      {
        assert OnePerIp(t.table);
      }
    }
  }

  /** The walk offers an address, now or by taking over an old lease,
      exactly when it is not blocked. */
  lemma OfferExact(s: State, k: nat, id: string, ip: nat)
    requires Shape(s) && LeaseInv(s.leases) && PoolHas(s.db, ip)
    ensures Usable(s, k, ip, id) || Reclaimable(s, k, ip) <==> !Blocked(s, k, id, ip)
  {
    OwnerFromExact(s.db.profiles, ip, 0);
    LeaseExact(s.leases, s.db, s.now, id, ip);
  }

  /** The walk passes every client address of the pool. */
  lemma PoolCovered(db: Db, cursor: nat, ip: nat) returns (n: nat)
    requires PoolOk(db) && PoolHas(db, ip)
    ensures n < Clients(db) && PoolAt(db, cursor, n) == ip
  {
    var start := if PoolFirst(db) <= cursor <= PoolLast(db) then cursor - PoolFirst(db) else 0;
    var at := ip - PoolFirst(db);
    n := if start <= at then at - start else at + Clients(db) - start;
  }

  /** A walked pool is refused exactly when every client address of it is
      blocked; an address it gives is a pool address that is not. */
  lemma PoolTakeExact(s: State, k: nat, id: string)
    requires Shape(s) && LeaseInv(s.leases) && !KnownFull(s)
    ensures var ip := PoolTake(s, k, id).1;
            && (ip == 0 <==> forall a | PoolHas(s.db, a) :: Blocked(s, k, id, a))
            && (ip != 0 ==> PoolHas(s.db, ip) && !Blocked(s, k, id, ip))
  {
    hide Blocked;
    hide Usable;
    hide Reclaimable;
    var ip := PoolTake(s, k, id).1;
    if ip != 0 {
      assert PoolHas(s.db, ip) by {
        if WalkFrom(s, k, id, 0) != 0 {
          UsableInPool(s, k, ip, id);
        }
      }
      OfferExact(s, k, id, ip);
    } else {
      assert WalkFrom(s, k, id, 0) == 0;
      NoReclaimable(s, k, id);
      forall a | PoolHas(s.db, a)
        ensures Blocked(s, k, id, a)
      {
        var n := PoolCovered(s.db, s.poolNext, a);
        OfferExact(s, k, id, a);
      }
    }
  }

  lemma UsableInPool(s: State, k: nat, ip: nat, id: string)
    requires Shape(s) && Usable(s, k, ip, id)
    ensures PoolHas(s.db, ip)
  {
  }

  lemma NoReclaimable(s: State, k: nat, id: string)
    requires Shape(s) && !KnownFull(s) && PoolTake(s, k, id).1 == 0
    ensures forall m | 0 <= m < Clients(s.db) :: !Reclaimable(s, k, PoolAt(s.db, s.poolNext, m))
  {
    hide Reclaimable;
    var l := OldestLease(s, k, Clients(s.db));
  }

  /** The lease taken over is the oldest of those that may be. */
  lemma {:induction false} OldestOfAll(s: State, k: nat, n: nat, m: nat)
    requires Shape(s) && m < n <= Clients(s.db) && Reclaimable(s, k, PoolAt(s.db, s.poolNext, m))
    ensures var l := OldestLease(s, k, n);
            l >= 0 && s.leases.table[l].since
                      <= s.leases.table[ByIp(s.leases.table, PoolAt(s.db, s.poolNext, m))].since
  {
    hide Reclaimable;
    ReclaimableHasLease(s, k, PoolAt(s.db, s.poolNext, n - 1));
    if m < n - 1 {
      OldestOfAll(s, k, n - 1, m);
    }
  }

  lemma ReclaimableHasLease(s: State, k: nat, ip: nat)
    requires Shape(s)
    ensures Reclaimable(s, k, ip) ==> ByIp(s.leases.table, ip) >= 0
  {
  }

  /* ---- leases in every run ---- */

  lemma EndKeepsLeases(s: State, k: nat, memory: Memory)
    requires Shape(s) && LeaseInv(s.leases) && k < |s.clients|
    ensures LeaseInv(EndClient(s, k, memory).leases)
  {
    hide Add;
    hide LeaseInv;
    hide Leasable;
    var c := s.clients[k];
    AddKeepsInv(s.leases, s.db, s.now, c.id, c.ip, false, memory(k, false));
    AddKeepsInv(s.leases, s.db, s.now, c.id, c.prevIp, true, memory(k, true));
    var t := Add(s.leases, s.db, s.now, c.id, c.ip, false, memory(k, false));
    AddKeepsInv(t, s.db, s.now, c.id, c.prevIp, true, memory(k, true));
  }

  lemma AllocKeepsLeases(s: State, memory: Memory)
    requires Shape(s) && LeaseInv(s.leases)
    ensures LeaseInv(AllocClient(s, memory).0.leases)
  {
    hide EndClient;
    hide LeaseInv;
    EndKeepsLeases(s, Quietest(s.clients, |s.clients|), memory);
  }

  lemma SettledKeeps(t: Leases, id: string, ip: nat)
    requires LeaseInv(t)
    ensures LeaseInv(Settled(t, id, ip))
  {
    DropKeepsInv(t, ById(t.table, id));
    var t1 := Drop(t, ById(t.table, id));
    DropKeepsInv(t1, ByIp(t1.table, ip));
  }

  lemma BuildConfigLeases(s: State, k: nat, id: string, hint: Option<nat>, tooLong: bool)
    requires Shape(s) && k < |s.clients|
    ensures BuildConfig(s, k, id, hint, tooLong).0.leases == s.leases
  {
    hide ChooseIp;
    hide WithOldAddress;
  }

  lemma AnswerKeepsLeases(s: State, k: nat, taken: bool, q: Init, fault: Fault, rand: seq<nat>)
    requires Shape(s) && LeaseInv(s.leases) && k < |s.clients|
    requires |rand| == 16 && forall j | 0 <= j < 16 :: rand[j] < ServerTable.U32
    ensures LeaseInv(Answer(s, k, taken, q, fault, rand).0.leases)
  {
    hide NewIndex;
    hide BuildConfig;
    hide LeaseInv;
    hide Settled;
    hide Identified;
    hide WithSession;
    hide RolledBack;
    var s1 := s.(clients := s.clients[k := Identified(s, s.clients[k], q)]);
    BuildConfigLeases(s1, k, q.id, q.ip, fault == ConfigTooLong);
    forall ip {
      SettledKeeps(s.leases, q.id, ip);
    }
  }

  lemma EntryForKeepsLeases(s: State, q: Init, memory: Memory)
    requires Shape(s) && LeaseInv(s.leases)
    ensures LeaseInv(EntryFor(s, q, memory).0.leases)
  {
    hide AllocClient;
    hide AdoptTcp;
    hide LeaseInv;
    hide ManualRefused;
    hide FindByIp;
    hide FindByAddr;
    hide FindById;
    AllocKeepsLeases(s, memory);
  }

  lemma HandshakeKeepsLeases(s: State, q: Init, fault: Fault, rand: seq<nat>, memory: Memory)
    requires Shape(s) && LeaseInv(s.leases)
    requires |rand| == 16 && forall j | 0 <= j < 16 :: rand[j] < ServerTable.U32
    ensures LeaseInv(Handshake(s, q, fault, rand, memory).0.leases)
  {
    hide EntryFor;
    hide Answer;
    hide LeaseInv;
    EntryForKeepsLeases(s, q, memory);
    var (s1, k, taken) := EntryFor(s, q, memory);
    if k >= 0 {
      AnswerKeepsLeases(s1, k, taken, q, fault, rand);
    }
  }

  lemma {:induction false} PassKeepsLeases(s: State, n: nat, pass: Pass, memory: Memory)
    requires Shape(s) && LeaseInv(s.leases) && n <= |s.clients|
    ensures LeaseInv(Visited(s, n, pass, memory).leases)
  {
    hide LeaseInv;
    hide EndClient;
    if n > 0 {
      PassKeepsLeases(s, n - 1, pass, memory);
      var s1 := Visited(s, n - 1, pass, memory);
      VisitKeepsLeases(s1, n - 1, pass, memory);
    }
  }

  lemma VisitKeepsLeases(s: State, k: nat, pass: Pass, memory: Memory)
    requires Shape(s) && LeaseInv(s.leases) && k < |s.clients|
    ensures LeaseInv(Visit(s, k, pass, memory).leases)
  {
    hide LeaseInv;
    hide EndClient;
    hide SessionsExpired;
    hide OfferChecked;
    EndKeepsLeases(s, k, memory);
    EndKeepsLeases(s.(clients := s.clients[k := SessionsExpired(s.clients[k], s.now)]), k, memory);
  }

  lemma StepKeepsLeases(s: State, e: Event)
    requires Shape(s) && LeaseInv(s.leases) && EventOk(e)
    ensures LeaseInv(Step(s, e).leases)
  {
    hide LeaseInv;
    hide Handshake;
    hide EndClient;
    hide CountPreAuth;
    match e
    case Close(fd, memory) =>
      if FirstWithFd(s.clients, fd, 0) >= 0 {
        EndKeepsLeases(s, FirstWithFd(s.clients, fd, 0), memory);
      }
    case Shake(q, fault, rand, memory) => HandshakeKeepsLeases(s, q, fault, rand, memory);
    case Packet(d) => DataKeepsLeases(s, d);
    case Expire(memory) => PassKeepsLeases(s, |s.clients|, Expiry, memory);
    case Configure(db, allowed, memory) =>
      var s0 := s.(db := db);
      PassKeepsLeases(s0, |s.clients|, Keys(allowed), memory);
      var s1 := Whole(s0, Keys(allowed), memory);
      PassKeepsLeases(s1, |s.clients|, UnknownIds, memory);
      PassKeepsLeases(Whole(s1, UnknownIds, memory), |s.clients|, ProfileAddresses, memory);
    case _ =>
  }

  lemma DataKeepsLeases(s: State, d: Data)
    requires Shape(s) && LeaseInv(s.leases)
    ensures LeaseInv(AfterData(s, d).leases)
  {
    hide LeaseInv;
    hide SessionOf;
    var k := SlotOf(s, d.idx);
    if k >= 0 {
      DropKeepsInv(s.leases, ByIp(s.leases.table, Promoted(s.clients[k], s.now).ip));
    }
  }

  lemma {:induction false} FreshLeases(ls: seq<Lease>)
    requires forall k | 0 <= k < |ls| :: ls[k] == UNUSED
    ensures InUse(ls) == 0
  {
    if ls != [] {
      FreshLeases(ls[..|ls| - 1]);
    }
  }

  /** In every run the lease table has one lease an address, at most one of
      its own an ID, and an exact count. */
  lemma {:induction false} LeasesInEveryRun(s: State, es: seq<Event>)
    requires Fresh(s) && forall i | 0 <= i < |es| :: EventOk(es[i])
    ensures LeaseInv(Run(s, es).leases)
  {
    hide Step;
    if es == [] {
      FreshLeases(s.leases.table);
    } else {
      LeasesInEveryRun(s, es[..|es| - 1]);
      StepKeepsLeases(Run(s, es[..|es| - 1]), es[|es| - 1]);
    }
  }

  /** Where an automatic handshake asks the pool: the state its entry is in by
      then, and the entry. None if it needs no address, has one it can keep,
      or the start hold is not over. */
  function PoolAsked(s: State, q: Init, memory: Memory): (r: Option<(State, nat)>)
    requires Shape(s)
    ensures r.Some? ==> Shape(r.value.0) && r.value.1 < |r.value.0.clients|
  {
    if !q.auto || Stale(s, q) || ProfileTaken(s, q) then None
    else
      var (s1, k, _) := EntryFor(s, q, memory);
      if k < 0 then None
      else
        var s2 := s1.(clients := s1.clients[k := Identified(s1, s1.clients[k], q)]);
        var p := Merged(s2.db, q.id);
        if (p.cidr != NoCidr && p.gateway) || q.id == "" then None
        else
          var s3 := s2.(clients := s2.clients[k := WithOldAddress(s2, k, q.id, q.ip)]);
          if HasUsable(s3, k, q.id) || Holding(s3) then None else Some((s3, k))
  }

  /** The entry's latest or current address can be given to it again. */
  predicate HasUsable(s: State, k: nat, id: string)
    requires Shape(s) && k < |s.clients|
  {
    var c := s.clients[k];
    || (c.pending != 0 && Usable(s, k, c.pending, id))
    || (c.ip != 0 && Usable(s, k, c.ip, id))
  }

  /** The session the last handshake set up in an entry. */
  function Latest(c: Client): Session {
    if c.next.Live? then c.next else c.cur
  }

  /** No next session without a current one. */
  predicate HasCurrent(c: Client) {
    c.next.Live? ==> c.cur.Live?
  }

  lemma RotHasCurrent(cs: seq<Client>)
    requires RotInv(cs)
    ensures forall k | 0 <= k < |cs| :: HasCurrent(cs[k])
  {
    forall k | 0 <= k < |cs|
      ensures HasCurrent(cs[k])
    {
      assert SessionsOk(cs[k], k);
    }
  }

  /** What the CONFIG carries when the pool is asked. */
  lemma AskedConfig(s: State, k: nat, id: string, hint: Option<nat>, tooLong: bool)
    requires Shape(s) && k < |s.clients| && id != "" && s.clients[k].id == id
    requires var p := Merged(s.db, id); p.cidr == NoCidr || !p.gateway
    requires var s3 := s.(clients := s.clients[k := WithOldAddress(s, k, id, hint)]); !HasUsable(s3, k, id) && !Holding(s3)
    ensures var s3 := s.(clients := s.clients[k := WithOldAddress(s, k, id, hint)]);
            var ip := PoolTake(s3, k, id).1;
            BuildConfig(s, k, id, hint, tooLong).1 == if ip == 0 || tooLong then None else Some(ip)
  {
    hide PoolTake;
    hide Usable;
    OldAddressId(s, k, id, hint);
    hide WithOldAddress;
    var s3 := s.(clients := s.clients[k := WithOldAddress(s, k, id, hint)]);
    assert ChooseIp(s3, k, id) == PoolTake(s3, k, id);
  }

  /** An answered handshake fails without a CONFIG; its session has the
      address the CONFIG carries. */
  lemma AnswerCarries(s: State, k: nat, taken: bool, q: Init, fault: Fault, rand: seq<nat>)
    requires Shape(s) && k < |s.clients| && q.auto
    requires |rand| == 16 && forall j | 0 <= j < 16 :: rand[j] < ServerTable.U32
    ensures var s2 := s.(clients := s.clients[k := Identified(s, s.clients[k], q)]);
            var cfg := BuildConfig(s2, k, q.id, q.ip, fault == ConfigTooLong).1;
            var (s', r) := Answer(s, k, taken, q, fault, rand);
            && (cfg == None ==> r == Failed)
            && (r == Accepted && HasCurrent(s.clients[k]) ==>
                  cfg.Some? && Latest(s'.clients[k]).Live? && Latest(s'.clients[k]).cfg == cfg.value)
  {
    hide NewIndex;
    hide BuildConfig;
    hide RolledBack;
    hide Identified;
    IdentifiedSessions(s, s.clients[k], q);
    BuildConfigFrame(s.(clients := s.clients[k := Identified(s, s.clients[k], q)]), k, q.id, q.ip, fault == ConfigTooLong);
  }

  /** The handshake fails when the pool is refused, and its CONFIG carries the
      address the pool gave. */
  lemma AskedFails(s: State, e: Event)
    requires Shape(s) && EventOk(e) && e.Shake? && PoolAsked(s, e.q, e.memory).Some?
    ensures var (s3, k) := PoolAsked(s, e.q, e.memory).value;
            && s3.leases == EntryFor(s, e.q, e.memory).0.leases &&
            var (s', r) := Handshake(s, e.q, e.fault, e.rand, e.memory);
            && (PoolTake(s3, k, e.q.id).1 == 0 ==> r == Failed)
            && (r == Accepted && HasCurrent(EntryFor(s, e.q, e.memory).0.clients[k]) ==>
                  Latest(s'.clients[k]).Live? && Latest(s'.clients[k]).cfg == PoolTake(s3, k, e.q.id).1)
  {
    hide Stale;
    hide ProfileTaken;
    hide EntryFor;
    hide PoolTake;
    hide HasUsable;
    hide WithOldAddress;
    hide BuildConfig;
    hide Answer;
    hide HasCurrent;
    hide Merged;
    var q := e.q;
    var (s1, k, taken) := EntryFor(s, q, e.memory);
    var s2 := s1.(clients := s1.clients[k := Identified(s1, s1.clients[k], q)]);
    IdentifiedSessions(s1, s1.clients[k], q);
    AskedConfig(s2, k, q.id, q.ip, e.fault == ConfigTooLong);
    AnswerCarries(s1, k, taken, q, e.fault, e.rand);
  }

  lemma OldAddressId(s: State, k: nat, id: string, hint: Option<nat>)
    requires Shape(s) && k < |s.clients|
    ensures WithOldAddress(s, k, id, hint).id == s.clients[k].id
  {
  }

  /** In every run, a handshake that needs an address of the pool, and walks
      it, gets one that is not blocked into its CONFIG, or fails for want of
      one: the pool refuses exactly when every client address is blocked. */
  lemma PoolInEveryRun(s: State, es: seq<Event>, e: Event)
    requires Fresh(s) && forall i | 0 <= i < |es| :: EventOk(es[i])
    requires var v := Run(s, es);
             EventOk(e) && e.Shake? && var r := PoolAsked(v, e.q, e.memory); r.Some? && !KnownFull(r.value.0)
    ensures var v := Run(s, es);
            var (s3, k) := PoolAsked(v, e.q, e.memory).value;
            var ip := PoolTake(s3, k, e.q.id).1;
            && (ip == 0 <==> forall a | PoolHas(s3.db, a) :: Blocked(s3, k, e.q.id, a))
            && (ip != 0 ==> PoolHas(s3.db, ip) && !Blocked(s3, k, e.q.id, ip))
            && var (v', r) := Handshake(v, e.q, e.fault, e.rand, e.memory);
               && (ip == 0 ==> r == Failed)
               && (r == Accepted ==> Latest(v'.clients[k]).Live? && Latest(v'.clients[k]).cfg == ip)
  {
    hide Handshake;
    hide LeaseInv;
    hide EntryFor;
    hide Stale;
    hide ProfileTaken;
    hide HasUsable;
    hide WithOldAddress;
    hide RotInv;
    hide HasCurrent;
    hide PoolTake;
    var v := Run(s, es);
    LeasesInEveryRun(s, es);
    EntryForKeepsLeases(v, e.q, e.memory);
    IndexesInEveryRun(s, es);
    EntryForEffect(v, e.q, e.memory);
    RotHasCurrent(EntryFor(v, e.q, e.memory).0.clients);
    AskedFails(v, e);
    var (s3, k) := PoolAsked(v, e.q, e.memory).value;
    PoolTakeExact(s3, k, e.q.id);
  }

  lemma HeldExact(cs: seq<Client>, k: nat, ip: nat)
    requires Disjoint(cs)
    ensures (FindByIp(cs, ip) < 0 || FindByIp(cs, ip) == k)
       <==> !exists j :: 0 <= j < |cs| && j != k && Holds(cs[j], ip)
  {
    if FindByIp(cs, ip) < 0 || FindByIp(cs, ip) == k {
      OnlyHolder(cs, k, ip);
    } else {
      assert Holds(cs[FindByIp(cs, ip)], ip);
    }
  }

  /** In a run of auto clients that is another client's which any live entry
      but `k` has. */
  lemma HeldInAutoRuns(s: State, es: seq<Event>, k: nat, ip: nat)
    requires Fresh(s) && forall i | 0 <= i < |es| :: EventOk(es[i]) && AutoEvent(es[i])
    ensures var cs := Run(s, es).clients;
            (FindByIp(cs, ip) >= 0 && FindByIp(cs, ip) != k)
            <==> exists j :: 0 <= j < |cs| && j != k && Holds(cs[j], ip)
  {
    AddressesInEveryRun(s, es);
    HeldExact(Run(s, es).clients, k, ip);
  }
}
