/** That a client keeps its address: at every rekey, and when it comes back
    (server.c). */
module ServerKeeping {
  import opened Wrappers
  import opened ServerTable
  import opened ServerLeases
  import opened ServerSteps
  import opened ServerAddresses
  import opened ServerRotation
  import opened ServerPool
  import opened ServerAdmission
  import opened ServerEndings

  /** One of the pool's client addresses, not the server's or a profile's. */
  ghost predicate PoolAddress(db: Db, ip: nat)
    requires db.poolPrefix <= 30
  {
    && ip != 0 && db.poolNet + 2 <= ip <= db.poolNet + PoolSize(db) - 2
    && ip != db.tunnelIp
    && forall i | 0 <= i < |db.profiles| :: db.profiles[i].cidr != At(ip)
  }

  /** The address has no lease of another ID. */
  ghost predicate NotAnothers(t: Leases, id: string, ip: nat) {
    forall l | 0 <= l < |t.table| && t.table[l].ip == ip :: SameId(t.table[l].id, id)
  }

  /** It can be given to entry `k` under the ID: found as no other entry's, and
      leased to no other ID. */
  ghost predicate Free(s: State, k: nat, id: string, ip: nat)
    requires s.db.poolPrefix <= 30
  {
    && PoolAddress(s.db, ip)
    && (FindByIp(s.clients, ip) < 0 || FindByIp(s.clients, ip) == k)
    && NotAnothers(s.leases, id, ip)
  }

  lemma UsableExactly(s: State, k: nat, ip: nat, id: string)
    requires Shape(s) && LeaseInv(s.leases)
    ensures Usable(s, k, ip, id) <==> Free(s, k, id, ip)
  {
    OwnerFromExact(s.db.profiles, ip, 0);
    if ip != 0 {
      var l := ByIp(s.leases.table, ip);
      if l >= 0 {
        assert OnePerIp(s.leases.table);
        assert s.leases.table[l].ip == ip;
      }
    }
    hide FindByIp;
  }

  /** A lease the ID has of its own, for an address that is free. */
  ghost predicate HasLease(s: State, k: nat, id: string, ip: nat)
    requires s.db.poolPrefix <= 30
  {
    Free(s, k, id, ip) && exists l :: 0 <= l < |s.leases.table| && Own(s.leases.table[l], id) && s.leases.table[l].ip == ip
  }

  /** What the entry gets without asking the pool: the address it was last
      given, if that is free; else its current one; with no address, the one
      leased to the ID, or else the one the client asks for. */
  ghost predicate Keeps(s: State, k: nat, id: string, hint: Option<nat>, ip: nat)
    requires s.db.poolPrefix <= 30 && k < |s.clients|
  {
    var c := s.clients[k];
    if c.ip == 0 then
      HasLease(s, k, id, ip)
      || (Free(s, k, id, ip) && hint == Some(ip) && !exists a :: HasLease(s, k, id, a))
    else if c.pending != 0 && Free(s, k, id, c.pending) then ip == c.pending
    else ip == c.ip && Free(s, k, id, ip)
  }

  lemma OwnLeaseIsOne(s: State, k: nat, id: string, ip: nat)
    requires Shape(s) && LeaseInv(s.leases) && id != ""
    ensures var l := ById(s.leases.table, id);
            HasLease(s, k, id, ip) <==> l >= 0 && s.leases.table[l].ip == ip && Free(s, k, id, ip)
  {
    var l := ById(s.leases.table, id);
    if j :| 0 <= j < |s.leases.table| && Own(s.leases.table[j], id) && s.leases.table[j].ip == ip {
      assert l >= 0 && Own(s.leases.table[l], id);
      OwnIsUnique(s.leases, l, j, id);
    }
  }

  lemma OwnIsUnique(t: Leases, i: nat, j: nat, id: string)
    requires LeaseInv(t) && i < |t.table| && j < |t.table| && Own(t.table[i], id) && Own(t.table[j], id)
    ensures i == j
  {
  }

  lemma NoEarlierHolder(cs: seq<Client>, k: nat, ip: nat)
    requires k < |cs| && (FindByIp(cs, ip) < 0 || FindByIp(cs, ip) == k)
    ensures forall j | 0 <= j < k :: !Matches(cs[j], CurrentIp(ip))
    ensures !cs[k].active ==> forall j | 0 <= j < |cs| :: !Holds(cs[j], ip)
  {
    var c := Scan(cs, CurrentIp(ip));
  }

  /** An address found as nobody's, or as the entry's, is the entry's once it
      is given to it. */
  lemma FoundOnceGiven(cs: seq<Client>, k: nat, ip: nat)
    requires k < |cs| && (FindByIp(cs, ip) < 0 || FindByIp(cs, ip) == k)
    ensures var cs' := cs[k := cs[k].(ip := ip)]; FindByIp(cs', ip) < 0 || FindByIp(cs', ip) == k
  {
    NoEarlierHolder(cs, k, ip);
    var cs' := cs[k := cs[k].(ip := ip)];
    if ip != 0 && cs[k].active {
      ScanUnique(cs', CurrentIp(ip), k);
    }
  }

  /** The entry when an address may be chosen for it. */
  lemma OldAddressExactly(s: State, k: nat, id: string, hint: Option<nat>)
    requires Shape(s) && LeaseInv(s.leases) && k < |s.clients| && id != "" && s.clients[k].ip == 0
    ensures var c := WithOldAddress(s, k, id, hint);
            && c == s.clients[k].(ip := c.ip)
            && (forall ip :: Keeps(s, k, id, hint, ip) ==> c.ip == ip)
            && (c.ip != 0 ==> Keeps(s, k, id, hint, c.ip))
  {
    forall ip
      ensures var l := ById(s.leases.table, id);
              HasLease(s, k, id, ip) <==> l >= 0 && s.leases.table[l].ip == ip && Free(s, k, id, ip)
      ensures Usable(s, k, ip, id) <==> Free(s, k, id, ip)
    {
      OwnLeaseIsOne(s, k, id, ip);
      UsableExactly(s, k, ip, id);
    }
    hide Usable;
    hide Free;
    hide HasLease;
  }


  /** The address an entry keeps is chosen for it, whatever the pool and the
      start hold are. */
  lemma ChoiceExactly(s: State, k: nat, id: string)
    requires Shape(s) && LeaseInv(s.leases) && k < |s.clients| && s.clients[k].id == id
    ensures var c, ip := s.clients[k], ChooseIp(s, k, id).1;
            if c.pending != 0 && Free(s, k, id, c.pending) then ip == c.pending
            else if c.ip != 0 && Free(s, k, id, c.ip) then ip == c.ip
            else if s.started != 0 && s.now < s.started + s.hold then ip == 0
            else ip == PoolTake(s, k, id).1
  {
    UsableExactly(s, k, s.clients[k].pending, id);
    UsableExactly(s, k, s.clients[k].ip, id);
    hide Usable, Free, PoolTake;
  }

  lemma ConfigIsChoice(s: State, k: nat, id: string, hint: Option<nat>)
    requires Shape(s) && k < |s.clients| && id != ""
    requires var p := Merged(s.db, id); p.cidr == NoCidr || !p.gateway
    ensures var ip := ChooseIp(s.(clients := s.clients[k := WithOldAddress(s, k, id, hint)]), k, id).1;
            BuildConfig(s, k, id, hint, false).1 == if ip == 0 then None else Some(ip)
  {
    hide ChooseIp, WithOldAddress, Merged;
  }

  /** A client keeps its address, and one that comes back gets its old one:
      whatever the pool and the start hold are, the CONFIG carries the address
      the entry keeps. With none to keep it carries one of the pool, and in the
      start hold there is no CONFIG. */
  lemma ConfigKeeps(s: State, k: nat, id: string, hint: Option<nat>)
    requires Shape(s) && LeaseInv(s.leases) && k < |s.clients| && id != "" && s.clients[k].id == id
    requires s.clients[k].pending != 0 ==> s.clients[k].ip != 0
    requires var p := Merged(s.db, id); p.cidr == NoCidr || !p.gateway
    ensures forall ip: nat | Keeps(s, k, id, hint, ip) :: BuildConfig(s, k, id, hint, false).1 == Some(ip)
    ensures (forall ip: nat :: !Keeps(s, k, id, hint, ip)) ==>
              BuildConfig(s, k, id, hint, false).1 ==
                if (s.started != 0 && s.now < s.started + s.hold) || PoolTake(s, k, id).1 == 0 then None
                else Some(PoolTake(s, k, id).1)
  {
    var c := s.clients[k];
    var c3 := WithOldAddress(s, k, id, hint);
    var s3 := s.(clients := s.clients[k := c3]);
    ConfigIsChoice(s, k, id, hint);
    ChoiceExactly(s3, k, id) by { OldAddressId(s, k, id, hint); }
    if c.ip == 0 {
      OldAddressExactly(s, k, id, hint);
      if c3.ip == 0 {
        assert s3 == s by { assert s.clients[k := c3] == s.clients; }
      } else {
        FreeOnceGiven(s, k, id, hint, c3.ip);
      }
    } else {
      assert s3 == s by { assert s.clients[k := c3] == s.clients; }
      assert Keeps(s, k, id, hint, c.ip) || Keeps(s, k, id, hint, c.pending) || !Free(s, k, id, c.ip);
    }
    NothingFree(s, k, id);
    hide WithOldAddress, PoolTake, ChooseIp, BuildConfig, Free, HasLease, Merged, LeaseInv;
  }

  lemma NothingFree(s: State, k: nat, id: string)
    requires s.db.poolPrefix <= 30
    ensures !Free(s, k, id, 0)
  {
  }

  lemma FreeOnceGiven(s: State, k: nat, id: string, hint: Option<nat>, ip: nat)
    requires s.db.poolPrefix <= 30 && k < |s.clients| && s.clients[k].ip == 0 && Keeps(s, k, id, hint, ip)
    ensures Free(s.(clients := s.clients[k := s.clients[k].(ip := ip)]), k, id, ip)
  {
    FoundOnceGiven(s.clients, k, ip);
    hide FindByIp;
  }

  /* ---- the answer ---- */

  /** The address an entry was last given. */
  function Given(c: Client): nat {
    if c.pending != 0 then c.pending else c.ip
  }

  /** The ID's profile leaves its address to the pool. */
  predicate LeftToPool(db: Db, id: string) {
    var p := Merged(db, id);
    !p.cidr.At? && (p.cidr == NoCidr || !p.gateway)
  }

  lemma {:induction false} SameDraws(c: Client, c': Client, k: nat, rand: seq<nat>, i: nat)
    requires i <= 16 && |rand| == 16 && k < MAX_CLIENTS && SameSessions(c', c)
    requires forall j | 0 <= j < 16 :: rand[j] < ServerTable.U32
    ensures NewIndex(c', k, rand, i) == NewIndex(c, k, rand, i)
    decreases 16 - i
  {
    if i < 16 {
      SameDraws(c, c', k, rand, i + 1);
    }
  }

  lemma SameFound(cs: seq<Client>, k: nat, c: Client, ip: nat)
    requires k < |cs| && c.active == cs[k].active && c.ip == cs[k].ip && c.pending == cs[k].pending
    requires c.prev == cs[k].prev && c.prevIp == cs[k].prevIp
    ensures FindByIp(cs[k := c], ip) == FindByIp(cs, ip)
  {
    var cs' := cs[k := c];
    assert forall j | 0 <= j < |cs| :: Matches(cs'[j], CurrentIp(ip)) == Matches(cs[j], CurrentIp(ip));
    assert forall j | 0 <= j < |cs| :: Matches(cs'[j], AnyIp(ip)) == Matches(cs[j], AnyIp(ip));
    ScanUnique(cs', CurrentIp(ip), Scan(cs, CurrentIp(ip)));
    ScanUnique(cs', AnyIp(ip), Scan(cs, AnyIp(ip)));
  }

  lemma SameKept(s: State, k: nat, c: Client, id: string, hint: Option<nat>, ip: nat)
    requires s.db.poolPrefix <= 30 && k < |s.clients| && Keeps(s, k, id, hint, ip)
    requires var c0 := s.clients[k]; c == c0.(auto := c.auto, addr := c.addr, lastSeen := c.lastSeen, id := c.id)
    ensures Keeps(s.(clients := s.clients[k := c]), k, id, hint, ip)
  {
    var s' := s.(clients := s.clients[k := c]);
    forall a: nat
      ensures Free(s', k, id, a) == Free(s, k, id, a)
      ensures HasLease(s', k, id, a) == HasLease(s, k, id, a)
    {
      SameFound(s.clients, k, c, a);
    }
    hide Free, HasLease;
  }

  /** What is assigned with a CONFIG of the pool is what it carries. */
  lemma ConfigIsGiven(s: State, k: nat, id: string, hint: Option<nat>, tooLong: bool)
    requires Shape(s) && k < |s.clients|
    requires var p := Merged(s.db, id); p.cidr == NoCidr || !p.gateway
    ensures var (s', cfg) := BuildConfig(s, k, id, hint, tooLong);
            && (tooLong ==> cfg == None) && (cfg.Some? ==> Given(s'.clients[k]) == cfg.value)
  {
    hide ChooseIp, WithOldAddress, Merged;
  }

  /** The CONFIG that is made once the entry has the handshake's identity. */
  lemma AnswerConfigKeeps(s: State, k: nat, q: Init, tooLong: bool, ip: nat)
    requires Shape(s) && LeaseInv(s.leases) && k < |s.clients|
    requires s.clients[k].pending != 0 ==> s.clients[k].ip != 0
    requires q.auto && q.id != "" && LeftToPool(s.db, q.id) && Keeps(s, k, q.id, q.ip, ip)
    ensures var c := s.clients[k];
            var s1 := s.(clients := s.clients[k := Identified(s, c, q)]);
            var (s2, cfg) := BuildConfig(s1, k, q.id, q.ip, tooLong);
            && (if tooLong then cfg == None else cfg == Some(ip) && Given(s2.clients[k]) == ip)
            && SameSessions(s2.clients[k], c)
  {
    var c1 := Identified(s, s.clients[k], q);
    var s1 := s.(clients := s.clients[k := c1]);
    IdentifiedSessions(s, s.clients[k], q);
    SameKept(s, k, c1, q.id, q.ip, ip);
    ConfigKeeps(s1, k, q.id, q.ip);
    ConfigIsGiven(s1, k, q.id, q.ip, tooLong);
    BuildConfigFrame(s1, k, q.id, q.ip, tooLong);
    hide BuildConfig, Keeps, LeaseInv, Merged, PoolTake;
  }

  /** An answered automatic handshake whose entry keeps an address succeeds,
      unless an index, the message or its sending fails, and its CONFIG carries
      that address, which is from then on the one the entry was last given. */
  lemma AnswerKeeps(s: State, k: nat, taken: bool, q: Init, fault: Fault, rand: seq<nat>, ip: nat)
    requires Shape(s) && LeaseInv(s.leases) && k < |s.clients| && HasCurrent(s.clients[k])
    requires s.clients[k].pending != 0 ==> s.clients[k].ip != 0
    requires |rand| == 16 && forall j | 0 <= j < 16 :: rand[j] < ServerTable.U32
    requires q.auto && q.id != "" && LeftToPool(s.db, q.id) && Keeps(s, k, q.id, q.ip, ip)
    ensures var (s', r) := Answer(s, k, taken, q, fault, rand);
            && r == (if fault == NoFault && NewIndex(s.clients[k], k, rand, 0) != 0 then Accepted else Failed)
            && (r == Accepted ==> Latest(s'.clients[k]).Live? && Latest(s'.clients[k]).cfg == ip
                                  && Given(s'.clients[k]) == ip)
  {
    hide NewIndex, BuildConfig, Keeps, LeaseInv, LeftToPool, Identified, RolledBack, Settled;
    AnswerConfigKeeps(s, k, q, fault == ConfigTooLong, ip);
    var s1 := s.(clients := s.clients[k := Identified(s, s.clients[k], q)]);
    SameDraws(s.clients[k], BuildConfig(s1, k, q.id, q.ip, fault == ConfigTooLong).0.clients[k], k, rand, 0);
  }

  /* ---- in every run ---- */

  lemma KnownEntry(s: State, q: Init, memory: Memory, k: nat)
    requires AddrInv(s) && q.auto && q.id != "" && k < |s.clients| && s.clients[k].cur.Live?
    requires SameId(s.clients[k].id, q.id) && !Stale(s, q) && !ProfileTaken(s, q) && EntryFor(s, q, memory).1 >= 0
    ensures var (s1, n, taken) := EntryFor(s, q, memory);
            && n == k && !taken && AddrInv(s1) && s1.leases == s.leases
            && s1.clients[k] == s.clients[k].(fd := s1.clients[k].fd)
  {
    AutoEntryKeepsAddr(s, q, memory);
    OwnerIs(s, q, k);
    hide AddrInv, AllocClient;
  }

  lemma OwnIsFound(cs: seq<Client>, k: nat, ip: nat)
    requires Disjoint(cs) && k < |cs| && Holds(cs[k], ip)
    ensures FindByIp(cs, ip) == k
  {
    var f := FindByIp(cs, ip);
    assert f >= 0 && Holds(cs[f], ip);
  }

  /** The address a client with a session has for its next one: the one it was
      last given if that can still be given to it, else its current one. */
  ghost predicate Stays(s: State, c: Client, id: string, ip: nat)
    requires s.db.poolPrefix <= 30
  {
    && PoolAddress(s.db, ip)
    && if c.pending != 0 && PoolAddress(s.db, c.pending) && NotAnothers(s.leases, id, c.pending) then ip == c.pending
       else ip == c.ip
  }

  lemma StaysIsKept(s: State, k: nat, id: string, hint: Option<nat>, ip: nat)
    requires AddrInv(s) && NoneLeased(s) && k < |s.clients| && s.clients[k].cur.Live? && Stays(s, s.clients[k], id, ip)
    ensures Keeps(s, k, id, hint, ip) && HasCurrent(s.clients[k])
    ensures s.clients[k].pending != 0 ==> s.clients[k].ip != 0
  {
    var c := s.clients[k];
    assert EntryOk(c);
    assert Holds(c, ip);
    OwnIsFound(s.clients, k, ip);
    if ip == c.ip {
      assert LeaseOf(s.leases, ip) == None;
    }
    hide FindByIp;
  }

  /** In every run of auto clients, a client whose address is one of the pool
      gets it again at every handshake that is not refused, in the start hold
      too, whatever else the pool has to give. */
  lemma ClientKeepsAddress(s: State, es: seq<Event>, q: Init, fault: Fault, rand: seq<nat>, memory: Memory, k: nat,
                           ip: nat)
    requires Fresh(s) && forall i | 0 <= i < |es| :: EventOk(es[i]) && AutoEvent(es[i])
    requires |rand| == 16 && forall j | 0 <= j < 16 :: rand[j] < ServerTable.U32
    requires var v := Run(s, es);
             && q.auto && q.id != "" && LeftToPool(v.db, q.id)
             && k < |v.clients| && v.clients[k].cur.Live? && SameId(v.clients[k].id, q.id)
             && Stays(v, v.clients[k], q.id, ip)
    ensures var v := Run(s, es);
            var (v', r) := Handshake(v, q, fault, rand, memory);
            r != Rejected ==>
              && r == (if fault == NoFault && NewIndex(v.clients[k], k, rand, 0) != 0 then Accepted else Failed)
              && (r == Accepted ==> Latest(v'.clients[k]).Live? && Latest(v'.clients[k]).cfg == ip
                                    && Given(v'.clients[k]) == ip)
  {
    var v := Run(s, es);
    AddressesInEveryRun(s, es);
    LeasesInEveryRun(s, es);
    NoneLeasedInEveryRun(s, es);
    hide Run, Stale, ProfileTaken, EntryFor, Answer, LeftToPool;
    var (s1, n, taken) := EntryFor(v, q, memory);
    if !Stale(v, q) && !ProfileTaken(v, q) && n >= 0 {
      KnownEntry(v, q, memory, k);
      EntryKeepsNone(v, q, memory);
      StaysIsKept(s1, k, q.id, q.ip, ip);
      AnswerKeeps(s1, k, false, q, fault, rand, ip);
      SameDraws(v.clients[k], s1.clients[k], k, rand, 0);
    }
    hide Keeps, LeaseInv, AddrInv, NoneLeased, NewIndex, Stays;
  }

  /** The address a client that has none will get: the one kept for its ID, and
      if there is none, the one it asks for; nobody else has it. */
  ghost predicate Waits(s: State, id: string, hint: Option<nat>, ip: nat)
    requires s.db.poolPrefix <= 30
  {
    && PoolAddress(s.db, ip) && (forall j | 0 <= j < |s.clients| :: !Holds(s.clients[j], ip))
    && if exists l :: 0 <= l < |s.leases.table| && Own(s.leases.table[l], id)
       then exists l :: 0 <= l < |s.leases.table| && Own(s.leases.table[l], id) && s.leases.table[l].ip == ip
       else hint == Some(ip) && NotAnothers(s.leases, id, ip)
  }

  lemma WaitsIsKept(s: State, k: nat, id: string, hint: Option<nat>, ip: nat)
    requires LeaseInv(s.leases) && s.db.poolPrefix <= 30 && k < |s.clients| && s.clients[k].ip == 0
    requires Waits(s, id, hint, ip)
    ensures Keeps(s, k, id, hint, ip)
  {
    assert FindByIp(s.clients, ip) < 0;
    if l :| 0 <= l < |s.leases.table| && Own(s.leases.table[l], id) && s.leases.table[l].ip == ip {
      forall j | 0 <= j < |s.leases.table| && s.leases.table[j].ip == ip
        ensures j == l
      {
        assert OnePerIp(s.leases.table);
      }
    }
    hide FindByIp;
  }

  /** The entry of an ID that has none: a free slot, or the entry of its
      connection, that has no address either. */
  lemma NewEntry(s: State, q: Init, memory: Memory)
    requires AddrInv(s) && q.auto && q.id != "" && !ProfileTaken(s, q)
    requires forall j | 0 <= j < |s.clients| && s.clients[j].active :: !SameId(s.clients[j].id, q.id)
    requires exists j :: 0 <= j < |s.clients| && !s.clients[j].active
    ensures var (s1, k, taken) := EntryFor(s, q, memory);
            && s1.leases == s.leases && AddrInv(s1)
            && (k >= 0 && taken ==> s1.clients[k].ip == 0)
            && (k >= 0 && !taken ==> s1.clients[k] == s.clients[k])
            && (forall j, ip: nat | 0 <= j < |s.clients| && Holds(s1.clients[j], ip) :: Holds(s.clients[j], ip))
  {
    AutoEntryKeepsAddr(s, q, memory);
    NoFreeSlot(s.clients, s.allocNext);
    hide FreeSlot, FindByAddr, AddrInv;
  }

  lemma NewEntryKeeps(s: State, q: Init, memory: Memory, ip: nat)
    requires AddrInv(s) && LeaseInv(s.leases) && q.auto && q.id != "" && !ProfileTaken(s, q)
    requires forall j | 0 <= j < |s.clients| && s.clients[j].active :: !SameId(s.clients[j].id, q.id)
    requires exists j :: 0 <= j < |s.clients| && !s.clients[j].active
    requires Waits(s, q.id, q.ip, ip)
    ensures var (s1, k, taken) := EntryFor(s, q, memory);
            k >= 0 && (taken || s.clients[k].ip == 0) ==>
              Keeps(s1, k, q.id, q.ip, ip) && HasCurrent(s1.clients[k]) && s1.clients[k].pending == 0
  {
    NewEntry(s, q, memory);
    var (s1, k, taken) := EntryFor(s, q, memory);
    hide EntryFor;
    if k >= 0 && (taken || s.clients[k].ip == 0) {
      WaitsIsKept(s1, k, q.id, q.ip, ip);
      assert EntryOk(s1.clients[k]);
    }
    hide Keeps, LeaseInv;
  }

  /** In every run of auto clients, a client that comes back while a slot is
      free gets the address kept for it, and one nothing is kept for the
      address it asks for, in the start hold too. */
  lemma ClientComesBack(s: State, es: seq<Event>, q: Init, fault: Fault, rand: seq<nat>, memory: Memory, ip: nat)
    requires Fresh(s) && forall i | 0 <= i < |es| :: EventOk(es[i]) && AutoEvent(es[i])
    requires |rand| == 16 && forall j | 0 <= j < 16 :: rand[j] < ServerTable.U32
    requires var v := Run(s, es);
             && q.auto && q.id != "" && LeftToPool(v.db, q.id) && Waits(v, q.id, q.ip, ip)
             && (forall j | 0 <= j < |v.clients| && v.clients[j].active :: !SameId(v.clients[j].id, q.id))
             && (exists j :: 0 <= j < |v.clients| && !v.clients[j].active)
    ensures var v := Run(s, es);
            var (v', r) := Handshake(v, q, fault, rand, memory);
            var (s1, k, taken) := EntryFor(v, q, memory);
            r != Rejected && (taken || v.clients[k].ip == 0) ==>
              && r == (if fault == NoFault && NewIndex(s1.clients[k], k, rand, 0) != 0 then Accepted else Failed)
              && (r == Accepted ==> Latest(v'.clients[k]).Live? && Latest(v'.clients[k]).cfg == ip
                                    && Given(v'.clients[k]) == ip)
  {
    var v := Run(s, es);
    AddressesInEveryRun(s, es);
    LeasesInEveryRun(s, es);
    hide Run, Stale, ProfileTaken, EntryFor, Answer, LeftToPool;
    var (s1, k, taken) := EntryFor(v, q, memory);
    if !Stale(v, q) && !ProfileTaken(v, q) && k >= 0 && (taken || v.clients[k].ip == 0) {
      NewEntryKeeps(v, q, memory, ip);
      EntryForKeepsLeases(v, q, memory);
      AnswerKeeps(s1, k, taken, q, fault, rand, ip);
    }
    hide Keeps, LeaseInv, Disjoint, UniqueIds, EntryOk, NewIndex, Waits;
  }
}
