/** What is kept for clients that are gone, and that nothing is kept for those
    that are there, over every run (server.c). */
module ServerEndings {
  import opened Wrappers
  import opened ServerTable
  import opened ServerLeases
  import opened ServerSteps
  import opened ServerAddresses
  import opened ServerRotation
  import opened ServerPool

  /** The lease of an address. */
  function LeaseOf(t: Leases, ip: nat): Option<Lease> {
    var k := ByIp(t.table, ip);
    if k < 0 then None else Some(t.table[k])
  }

  lemma LeaseIs(t: Leases, j: nat)
    requires LeaseInv(t) && j < |t.table| && t.table[j].ip != 0
    ensures LeaseOf(t, t.table[j].ip) == Some(t.table[j])
  {
    var k := ByIp(t.table, t.table[j].ip);
  }

  /** The other addresses have the lease they had, or none. */
  ghost predicate OthersLess(t: Leases, t': Leases, ip: nat) {
    forall a: nat | a != ip && LeaseOf(t', a).Some? :: LeaseOf(t', a) == LeaseOf(t, a)
  }

  /** The leases of other addresses that are not replaced are all there. */
  ghost predicate OthersStay(t: Leases, t': Leases, id: string, ip: nat, prev: bool) {
    forall a: nat | a != ip && LeaseOf(t, a).Some? && (prev || !Own(LeaseOf(t, a).value, id)) ::
      LeaseOf(t', a) == LeaseOf(t, a)
  }

  /** Adding a lease adds that one and no other, and gives none up while a slot
      is free. */
  lemma AddExactly(t: Leases, db: Db, now: nat, id: string, ip: nat, prev: bool, memory: bool)
    requires LeaseInv(t) && db.poolPrefix <= 30 && ip != 0 && id != ""
    ensures var t' := Add(t, db, now, id, ip, prev, memory);
            && LeaseInv(t') && OthersLess(t, t', ip) && |t'.table| >= |t.table|
            && (|t.table| > 0 ==> LeaseOf(t', ip) == Some(Lease(id, ip, now, prev)))
            && (|t.table| == 0 ==> t' == t)
            && (t.used < |t.table| ==> OthersStay(t, t', id, ip, prev) && t'.used <= t.used + 1)
  {
    AddKeepsInv(t, db, now, id, ip, prev, memory);
    var t' := Add(t, db, now, id, ip, prev, memory);
    if |t.table| > 0 {
      ClearedFacts(t, id, ip, prev);
      AddedSlots(Cleared(t, id, ip, prev), db, now, id, ip, prev, memory);
      ClearedUsed(t, id, ip, prev);
      hide Add, Cleared, InUse, ByIp;
      forall a: nat | a != ip && LeaseOf(t', a).Some?
        ensures LeaseOf(t', a) == LeaseOf(t, a)
      {
        var j := ByIp(t'.table, a);
        assert t'.table[j].ip == a && a != 0;
        LeaseIs(t, j);
      }
    }
    if |t.table| > 0 && t.used < |t.table| {
      forall a: nat | a != ip && LeaseOf(t, a).Some? && (prev || !Own(LeaseOf(t, a).value, id))
        ensures LeaseOf(t', a) == LeaseOf(t, a)
      {
        NothingGivenUp(t, db, now, id, ip, prev, memory, a);
      }
    }
  }

  lemma NothingGivenUp(t: Leases, db: Db, now: nat, id: string, ip: nat, prev: bool, memory: bool, a: nat)
    requires LeaseInv(t) && db.poolPrefix <= 30 && ip != 0 && id != "" && t.used < |t.table|
    requires a != ip && LeaseOf(t, a).Some? && (prev || !Own(LeaseOf(t, a).value, id))
    ensures LeaseOf(Add(t, db, now, id, ip, prev, memory), a) == LeaseOf(t, a)
  {
    hide Add, Cleared, InUse;
    var j := ByIp(t.table, a);
    assert t.table[j].ip == a && a != 0;
    ServerLeases.ChosenIsFree(t);
    var z :| 0 <= z < |t.table| && t.table[z].ip == 0;
    ClearedFacts(t, id, ip, prev);
    assert Cleared(t, id, ip, prev).table[z].ip == 0;
    AddGivesUp(t, db, now, id, ip, prev, memory, j);
    AddKeepsInv(t, db, now, id, ip, prev, memory);
    LeaseIs(Add(t, db, now, id, ip, prev, memory), j);
  }

  lemma ClearedUsed(t: Leases, id: string, ip: nat, prev: bool)
    requires LeaseInv(t)
    ensures Cleared(t, id, ip, prev).used <= t.used
  {
  }

  lemma AddedSlots(c: Leases, db: Db, now: nat, id: string, ip: nat, prev: bool, memory: bool)
    requires |c.table| > 0 && c.next <= |c.table| && db.poolPrefix <= 30 && ip != 0
    ensures var (room, k) := MakeRoom(c, db, now, memory);
            var t' := Stored(room, k, Lease(id, ip, now, prev));
            && t'.used <= c.used + 1
            && forall j | 0 <= j < |t'.table| && t'.table[j].ip != 0 && t'.table[j].ip != ip ::
                 j < |c.table| && t'.table[j] == c.table[j]
  {
    hide Chosen, NextCursor, GrownCap;
  }

  /** An address that is kept for a client: a client address of the pool that
      no block of the configuration has. */
  ghost predicate Kept(db: Db, ip: nat)
    requires db.poolPrefix <= 30
  {
    && ip != 0 && db.poolNet + 2 <= ip <= db.poolNet + PoolSize(db) - 2
    && forall i | 0 <= i < |db.profiles| :: db.profiles[i].cidr != At(ip)
  }

  lemma KeptExactly(db: Db, ip: nat)
    requires db.poolPrefix <= 30
    ensures Leasable(db, ip) <==> Kept(db, ip)
  {
    OwnerFromExact(db.profiles, ip, 0);
  }

  /** A registered automatic client with an ID. */
  predicate Named(c: Client) {
    c.active && c.registered && c.auto && c.id != ""
  }

  /** What ends with a client: its address is kept for it under its ID from now
      on, the one of its previous session too while that is valid, and nothing
      else. Those of other clients stay, and so do both of these, as long as
      two slots are free; a full table may give one up for each it adds. */
  lemma EndLeases(s: State, k: nat, memory: Memory)
    requires Shape(s) && LeaseInv(s.leases) && k < |s.clients| && |s.leases.table| > 0
    ensures var c, t, t' := s.clients[k], s.leases, EndClient(s, k, memory).leases;
            var one := Named(c) && Kept(s.db, c.ip);
            var two := Named(c) && c.prev.Live? && c.prevIp != c.ip && Kept(s.db, c.prevIp);
            var roomy := t.used + 2 <= |t.table|;
            && (two ==> LeaseOf(t', c.prevIp) == Some(Lease(c.id, c.prevIp, s.now, true)))
            && (one ==> LeaseOf(t', c.ip) == Some(Lease(c.id, c.ip, s.now, false))
                        || (two && !roomy && LeaseOf(t', c.ip) == None))
            && (!one && !two ==> t' == t)
            && (forall a: nat | LeaseOf(t', a).Some? && !(one && a == c.ip) && !(two && a == c.prevIp) ::
                  LeaseOf(t', a) == LeaseOf(t, a))
            && (roomy ==> forall a: nat | LeaseOf(t, a).Some? && !(one && (a == c.ip || Own(LeaseOf(t, a).value, c.id)))
                                          && !(two && a == c.prevIp) ::
                            LeaseOf(t', a) == LeaseOf(t, a))
  {
    var c := s.clients[k];
    KeptExactly(s.db, c.ip);
    KeptExactly(s.db, c.prevIp);
    hide Leasable, Add, LeaseInv, LeaseOf, Own;
    if Named(c) {
      if Leasable(s.db, c.ip) {
        AddExactly(s.leases, s.db, s.now, c.id, c.ip, false, memory(k, false));
      }
      var t := if Leasable(s.db, c.ip) then Add(s.leases, s.db, s.now, c.id, c.ip, false, memory(k, false)) else s.leases;
      if Leasable(s.db, c.prevIp) {
        AddExactly(t, s.db, s.now, c.id, c.prevIp, true, memory(k, true));
      }
    }
    hide Kept;
  }

  /* ---- no lease for an address in use ---- */

  /** The address of an entry with a session has no lease. */
  ghost predicate NoneLeased(s: State) {
    forall k | 0 <= k < |s.clients| && s.clients[k].cur.Live? :: LeaseOf(s.leases, s.clients[k].ip) == None
  }

  lemma EndKeepsNone(s: State, k: nat, memory: Memory)
    requires AddrInv(s) && LeaseInv(s.leases) && NoneLeased(s) && k < |s.clients|
    ensures NoneLeased(EndClient(s, k, memory))
  {
    var c, s' := s.clients[k], EndClient(s, k, memory);
    forall j | 0 <= j < |s.clients| && s'.clients[j].cur.Live?
      ensures LeaseOf(s'.leases, s'.clients[j].ip) == None
    {
      var d := s.clients[j];
      assert j != k && s'.clients[j] == d;
      if d.ip == 0 {
        NoLeaseOfNone(s'.leases);
      } else if |s.leases.table| > 0 {
        LiveHolds(s, j);
        EndLeases(s, k, memory);
        NotBoth(s, j, k, d.ip);
        hide Kept, LeaseOf, LeasesAfterEnd, LeaseInv;
      }
    }
    hide LeasesAfterEnd;
  }

  lemma NoLeaseOfNone(t: Leases)
    ensures LeaseOf(t, 0) == None
  {
  }

  lemma LiveHolds(s: State, k: nat)
    requires AddrInv(s) && k < |s.clients| && s.clients[k].cur.Live? && s.clients[k].ip != 0
    ensures Holds(s.clients[k], s.clients[k].ip)
  {
    assert EntryOk(s.clients[k]);
  }

  lemma NotBoth(s: State, j: nat, k: nat, ip: nat)
    requires AddrInv(s) && j < |s.clients| && k < |s.clients| && j != k && Holds(s.clients[j], ip)
    ensures var c := s.clients[k]; !(c.active && (c.ip == ip || c.pending == ip || (c.prev.Live? && c.prevIp == ip)))
  {
    assert !Holds(s.clients[k], ip);
  }

  /** The same leases, and addresses of sessions that were there before. */
  ghost predicate NoNewAddress(s: State, s': State) {
    && s'.leases == s.leases && |s'.clients| == |s.clients|
    && forall k | 0 <= k < |s.clients| && s'.clients[k].cur.Live? ::
         s.clients[k].cur.Live? && s'.clients[k].ip == s.clients[k].ip
  }

  lemma SameKeepsNone(s: State, s': State)
    requires NoneLeased(s) && NoNewAddress(s, s')
    ensures NoneLeased(s')
  {
    hide LeaseOf;
  }

  lemma VisitKeepsNone(s: State, k: nat, pass: Pass, memory: Memory)
    requires AddrInv(s) && LeaseInv(s.leases) && NoneLeased(s) && k < |s.clients|
    ensures NoneLeased(Visit(s, k, pass, memory))
  {
    var c := s.clients[k];
    EndKeepsNone(s, k, memory);
    var s1 := s.(clients := s.clients[k := SessionsExpired(c, s.now)]);
    ExpiredOk(c, s.now);
    ReplaceKeepsAddr(s, k, SessionsExpired(c, s.now));
    SameKeepsNone(s, s1) by { hide LeaseOf; }
    EndKeepsNone(s1, k, memory);
    var s2 := s.(clients := s.clients[k := OfferChecked(s, c)]);
    SameKeepsNone(s, s2) by { hide LeaseOf; }
    SameKeepsNone(s, s2.(clients := s2.clients[k := EMPTY])) by { hide LeaseOf; }
    hide EndClient, SessionsExpired, OfferChecked, AddrInv, NoneLeased, LeaseInv;
  }

  lemma {:induction false} PassKeepsNone(s: State, n: nat, pass: Pass, memory: Memory)
    requires Shape(s) && AddrInv(s) && LeaseInv(s.leases) && NoneLeased(s) && n <= |s.clients|
    ensures NoneLeased(Visited(s, n, pass, memory))
  {
    hide AddrInv, NoneLeased, LeaseInv, Visit;
    if n > 0 {
      PassKeepsNone(s, n - 1, pass, memory);
      PassKeepsAddr(s, n - 1, pass, memory);
      PassKeepsLeases(s, n - 1, pass, memory);
      VisitKeepsNone(Visited(s, n - 1, pass, memory), n - 1, pass, memory);
    }
  }

  lemma ReloadKeepsNone(s: State, db: Db, allowed: nat -> bool, memory: Memory)
    requires AddrInv(s) && LeaseInv(s.leases) && NoneLeased(s) && PoolOk(db)
    ensures NoneLeased(Reload(s, db, allowed, memory))
  {
    var s0 := s.(db := db);
    SameKeepsNone(s, s0) by { hide LeaseOf; }
    assert AddrInv(s0);
    hide AddrInv, NoneLeased, LeaseInv, Visited;
    PassKeepsAddr(s0, |s.clients|, Keys(allowed), memory);
    PassKeepsLeases(s0, |s.clients|, Keys(allowed), memory);
    PassKeepsNone(s0, |s.clients|, Keys(allowed), memory);
    var s1 := Whole(s0, Keys(allowed), memory);
    PassKeepsAddr(s1, |s.clients|, UnknownIds, memory);
    PassKeepsLeases(s1, |s.clients|, UnknownIds, memory);
    PassKeepsNone(s1, |s.clients|, UnknownIds, memory);
    PassKeepsNone(Whole(s1, UnknownIds, memory), |s.clients|, ProfileAddresses, memory);
  }

  /* Handshakes. */

  lemma EntryKeepsNone(s: State, q: Init, memory: Memory)
    requires AddrInv(s) && LeaseInv(s.leases) && NoneLeased(s) && q.auto
    ensures NoneLeased(EntryFor(s, q, memory).0)
  {
    var k := FindById(s.clients, q.id);
    if k >= 0 {
      var s1 := s.(clients := AdoptTcp(s.clients, k, q.fd));
      SameKeepsNone(s, s1) by { hide LeaseOf; }
    }
    AllocKeepsNone(s, memory);
    hide AllocClient, AdoptTcp, NoneLeased, FindById, FindByAddr, AddrInv, LeaseInv;
  }

  lemma AllocKeepsNone(s: State, memory: Memory)
    requires AddrInv(s) && LeaseInv(s.leases) && NoneLeased(s)
    ensures NoneLeased(AllocClient(s, memory).0)
  {
    var f := FreeSlot(s.clients, s.allocNext, 0);
    var s1 := AllocClient(s, memory).0;
    if f >= 0 {
      SameKeepsNone(s, s1) by { hide LeaseOf; }
    } else if !Holding(s) {
      var k := Quietest(s.clients, |s.clients|);
      EndKeepsNone(s, k, memory);
      SameKeepsNone(EndClient(s, k, memory), s1) by { hide LeaseOf, LeasesAfterEnd; }
    }
    hide NoneLeased, LeasesAfterEnd, FreeSlot, Quietest, AddrInv, LeaseInv;
  }

  /** A client that has its address keeps no lease for it, nor one of its own. */
  lemma SettledExactly(t: Leases, id: string, ip: nat)
    requires LeaseInv(t)
    ensures LeaseInv(Settled(t, id, ip))
    ensures forall a: nat :: LeaseOf(Settled(t, id, ip), a) ==
              if a == ip || (LeaseOf(t, a).Some? && id != "" && Own(LeaseOf(t, a).value, id)) then None else LeaseOf(t, a)
  {
    DropExactly(t, ById(t.table, id));
    var t1 := Drop(t, ById(t.table, id));
    DropExactly(t1, ByIp(t1.table, ip));
    OwnIsById(t, id);
    hide Drop, LeaseInv, ById;
  }

  lemma OwnIsById(t: Leases, id: string)
    requires LeaseInv(t)
    ensures forall a: nat | LeaseOf(t, a).Some? ::
              id != "" && Own(LeaseOf(t, a).value, id) <==> ById(t.table, id) >= 0 && t.table[ById(t.table, id)].ip == a
  {
  }

  lemma DropExactly(t: Leases, k: int)
    requires LeaseInv(t) && -1 <= k < |t.table|
    ensures LeaseInv(Drop(t, k))
    ensures forall a: nat :: LeaseOf(Drop(t, k), a) == if k >= 0 && t.table[k].ip == a then None else LeaseOf(t, a)
  {
    DropKeepsInv(t, k);
    var t' := Drop(t, k);
    hide InUse;
    forall a: nat
      ensures LeaseOf(t', a) == if k >= 0 && t.table[k].ip == a then None else LeaseOf(t, a)
    {
      if LeaseOf(t', a).Some? {
        LeaseIs(t, ByIp(t'.table, a));
      }
      if LeaseOf(t, a).Some? && ByIp(t.table, a) != k {
        LeaseIs(t', ByIp(t.table, a));
      }
    }
  }

  lemma AnswerLeases(s: State, k: nat, taken: bool, q: Init, fault: Fault, rand: seq<nat>)
    requires Shape(s) && k < |s.clients| && q.auto
    requires |rand| == 16 && forall j | 0 <= j < 16 :: rand[j] < ServerTable.U32
    ensures var (s', r) := Answer(s, k, taken, q, fault, rand);
            var c, c' := s.clients[k], s'.clients[k];
            && s'.clients == s.clients[k := c'] && r != Rejected
            && (r == Failed ==> s'.leases == s.leases && (c'.cur.Live? ==> c'.cur == c.cur && c'.ip == c.ip))
            && (r == Accepted ==> s'.leases == Settled(s.leases, q.id, c'.ip))
  {
    var s1 := s.(clients := s.clients[k := Identified(s, s.clients[k], q)]);
    BuildConfigFrame(s1, k, q.id, q.ip, fault == ConfigTooLong);
    BuildConfigLeases(s1, k, q.id, q.ip, fault == ConfigTooLong);
    hide NewIndex, BuildConfig, Identified, WithSession, Settled;
  }

  lemma AnswerKeepsNone(s: State, k: nat, taken: bool, q: Init, fault: Fault, rand: seq<nat>)
    requires Shape(s) && LeaseInv(s.leases) && NoneLeased(s) && k < |s.clients| && q.auto
    requires |rand| == 16 && forall j | 0 <= j < 16 :: rand[j] < ServerTable.U32
    ensures NoneLeased(Answer(s, k, taken, q, fault, rand).0)
  {
    var (s', r) := Answer(s, k, taken, q, fault, rand);
    AnswerLeases(s, k, taken, q, fault, rand);
    SettledExactly(s.leases, q.id, s'.clients[k].ip);
    hide Answer, LeaseOf, Settled, LeaseInv;
  }

  lemma HandshakeKeepsNone(s: State, q: Init, fault: Fault, rand: seq<nat>, memory: Memory)
    requires AddrInv(s) && LeaseInv(s.leases) && NoneLeased(s) && q.auto
    requires |rand| == 16 && forall j | 0 <= j < 16 :: rand[j] < ServerTable.U32
    ensures NoneLeased(Handshake(s, q, fault, rand, memory).0)
  {
    EntryKeepsNone(s, q, memory);
    EntryForKeepsLeases(s, q, memory);
    var (s1, k, taken) := EntryFor(s, q, memory);
    if k >= 0 {
      AnswerKeepsNone(s1, k, taken, q, fault, rand);
    }
    hide Answer, EntryFor, Stale, ProfileTaken, NoneLeased, LeaseInv;
  }

  lemma DataKeepsNone(s: State, d: Data)
    requires AddrInv(s) && LeaseInv(s.leases) && NoneLeased(s)
    ensures NoneLeased(AfterData(s, d))
  {
    var k := SlotOf(s, d.idx);
    if k >= 0 {
      assert EntryOk(s.clients[k]);
      DropExactly(s.leases, ByIp(s.leases.table, Promoted(s.clients[k], s.now).ip));
    }
    hide Drop, LeaseInv;
  }

  lemma StepKeepsNone(s: State, e: Event)
    requires AddrInv(s) && LeaseInv(s.leases) && NoneLeased(s) && EventOk(e) && AutoEvent(e)
    ensures NoneLeased(Step(s, e))
  {
    match e
    case Tick(_) => SameKeepsNone(s, Step(s, e)) by { hide LeaseOf; }
    case Connect(fd, peer) =>
      ConnectKeepsAddresses(s, fd, peer);
      SameKeepsNone(s, Step(s, e));
    case Close(fd, memory) =>
      var k := FirstWithFd(s.clients, fd, 0);
      if k >= 0 {
        EndKeepsNone(s, k, memory);
      }
    case Shake(q, fault, rand, memory) => HandshakeKeepsNone(s, q, fault, rand, memory);
    case Packet(d) => DataKeepsNone(s, d);
    case Expire(memory) => PassKeepsNone(s, |s.clients|, Expiry, memory);
    case Configure(db, allowed, memory) => ReloadKeepsNone(s, db, allowed, memory);
    hide AfterData, Connected, EndClient, Handshake, Visited, Reload, NoneLeased, LeaseInv, NoNewAddress;
  }

  lemma ConnectKeepsAddresses(s: State, fd: int, peer: Addr)
    requires Shape(s)
    ensures NoNewAddress(s, Connected(s, fd, peer))
  {
    hide CountPreAuth, FreeSlot;
  }

  /** In every run of auto clients, no address of a live client is kept for
      anyone: its lease goes when the client gets the address, or confirms it. */
  lemma {:induction false} NoneLeasedInEveryRun(s: State, es: seq<Event>)
    requires Fresh(s) && forall i | 0 <= i < |es| :: EventOk(es[i]) && AutoEvent(es[i])
    ensures NoneLeased(Run(s, es))
  {
    if es != [] {
      var before := es[..|es| - 1];
      NoneLeasedInEveryRun(s, before);
      AddressesInEveryRun(s, before);
      LeasesInEveryRun(s, before);
      StepKeepsNone(Run(s, before), es[|es| - 1]);
    }
    hide AddrInv, LeaseInv, Step, NoneLeased;
  }
}
