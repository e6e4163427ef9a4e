/** The addresses of auto clients over every run, under any configuration: no
    address for two live clients (server.c). */
module ServerAddresses {
  import opened Wrappers
  import opened ServerTable
  import opened ServerLeases
  import opened ServerSteps

  /** An entry between two steps. */
  ghost predicate EntryOk(c: Client) {
    && (!c.active ==> c.cur == Wiped)
    && (c.registered <==> c.cur.Live?)
    && (!c.cur.Live? ==> c.ip == 0 && c.next == Wiped && c.prev == Wiped)
    && (c.cur.Live? ==> c.auto)
    && (c.pending != 0 ==> c.next.Live? && c.ip != 0)
  }

  /** No entry but `k` has the address. */
  ghost predicate NotHeld(cs: seq<Client>, k: nat, ip: nat) {
    forall j | 0 <= j < |cs| && j != k :: !Holds(cs[j], ip)
  }

  ghost predicate Disjoint(cs: seq<Client>) {
    forall i, j, ip | 0 <= i < |cs| && 0 <= j < |cs| && i != j && Holds(cs[i], ip) :: !Holds(cs[j], ip)
  }

  /** No active entry but `k` has the ID. */
  ghost predicate IdFree(cs: seq<Client>, k: nat, id: string) {
    forall j | 0 <= j < |cs| && j != k && cs[j].active :: !SameId(cs[j].id, id)
  }

  ghost predicate UniqueIds(cs: seq<Client>) {
    forall k | 0 <= k < |cs| && cs[k].active && cs[k].id != "" :: IdFree(cs, k, cs[k].id)
  }

  ghost predicate AddrInv(s: State) {
    && Shape(s)
    && (forall k | 0 <= k < |s.clients| :: EntryOk(s.clients[k]))
    && Disjoint(s.clients)
    && UniqueIds(s.clients)
  }

  /* ---- changing one entry ---- */

  lemma OnlyHolder(cs: seq<Client>, k: nat, ip: nat)
    requires Disjoint(cs) && (FindByIp(cs, ip) < 0 || FindByIp(cs, ip) == k)
    ensures NotHeld(cs, k, ip)
  {
    var f := FindByIp(cs, ip);
    if f >= 0 {
      assert Holds(cs[f], ip);
    }
  }

  lemma DisjointUpdate(cs: seq<Client>, k: nat, c: Client)
    requires k < |cs| && Disjoint(cs)
    requires forall ip | Holds(c, ip) :: Holds(cs[k], ip) || NotHeld(cs, k, ip)
    ensures Disjoint(cs[k := c])
  {
    var cs' := cs[k := c];
    forall i, j, ip | 0 <= i < |cs'| && 0 <= j < |cs'| && i != j && Holds(cs'[i], ip)
      ensures !Holds(cs'[j], ip)
    {
      if i == k {
        assert Holds(cs[k], ip) || NotHeld(cs, k, ip);
      }
    }
  }

  /** A new value of entry `k` that holds nothing another entry holds, under
      an ID no other entry has, keeps the table. */
  lemma UpdateKeeps(cs: seq<Client>, k: nat, c: Client)
    requires k < |cs| && Disjoint(cs) && UniqueIds(cs)
    requires forall ip | Holds(c, ip) :: Holds(cs[k], ip) || NotHeld(cs, k, ip)
    requires c.active && c.id != "" ==> IdFree(cs, k, c.id)
    ensures Disjoint(cs[k := c]) && UniqueIds(cs[k := c])
  {
    DisjointUpdate(cs, k, c);
    var cs' := cs[k := c];
    forall m | 0 <= m < |cs'| && cs'[m].active && cs'[m].id != ""
      ensures IdFree(cs', m, cs'[m].id)
    {
      if m != k {
        assert IdFree(cs, m, cs[m].id);
        assert |Fold(c.id)| == |c.id|;
      }
    }
  }

  /** An entry that keeps its ID and holds no more keeps the table. */
  lemma ShrinkKeeps(cs: seq<Client>, k: nat, c: Client)
    requires k < |cs| && Disjoint(cs) && UniqueIds(cs)
    requires forall ip | Holds(c, ip) :: Holds(cs[k], ip)
    requires c.active ==> c.id == "" || (cs[k].active && c.id == cs[k].id)
    ensures Disjoint(cs[k := c]) && UniqueIds(cs[k := c])
  {
    if c.active && c.id != "" {
      assert IdFree(cs, k, cs[k].id);
    }
    UpdateKeeps(cs, k, c);
  }

  /** A table whose entries are those of another one, or empty. */
  ghost predicate Wipes(cs: seq<Client>, cs': seq<Client>) {
    |cs'| == |cs| && forall j | 0 <= j < |cs| :: cs'[j] == cs[j] || cs'[j] == EMPTY
  }

  lemma WipesKeeps(cs: seq<Client>, cs': seq<Client>)
    requires Wipes(cs, cs') && Disjoint(cs) && UniqueIds(cs)
    ensures Disjoint(cs') && UniqueIds(cs')
  {
    forall i, j, ip | 0 <= i < |cs'| && 0 <= j < |cs'| && i != j && Holds(cs'[i], ip)
      ensures !Holds(cs'[j], ip)
    {
      assert cs'[i] == cs[i] && Holds(cs[i], ip);
    }
    forall k | 0 <= k < |cs'| && cs'[k].active && cs'[k].id != ""
      ensures IdFree(cs', k, cs'[k].id)
    {
      assert cs'[k] == cs[k] && IdFree(cs, k, cs[k].id);
    }
  }

  lemma EndKeepsAddr(s: State, k: nat, memory: Memory)
    requires AddrInv(s) && k < |s.clients|
    ensures AddrInv(EndClient(s, k, memory))
  {
    ShrinkKeeps(s.clients, k, EMPTY);
  }

  /* ---- server_entry_for ---- */

  lemma AllocKeepsAddr(s: State, memory: Memory)
    requires AddrInv(s)
    ensures var (s1, k) := AllocClient(s, memory);
            && AddrInv(s1) && s1.db == s.db && s1.now == s.now
            && (k >= 0 ==> s1.clients[k] == TAKEN)
            && forall j | 0 <= j < |s.clients| :: j == k || s1.clients[j] == s.clients[j]
  {
    var f := FreeSlot(s.clients, s.allocNext, 0);
    if f >= 0 {
      ShrinkKeeps(s.clients, f, TAKEN);
    } else if !Holding(s) {
      var k := Quietest(s.clients, |s.clients|);
      EndKeepsAddr(s, k, memory);
      ShrinkKeeps(EndClient(s, k, memory).clients, k, TAKEN);
    }
  }

  lemma AdoptKeepsAddr(cs: seq<Client>, k: nat, fd: int)
    requires k < |cs| && Disjoint(cs) && UniqueIds(cs)
    requires forall j | 0 <= j < |cs| :: EntryOk(cs[j])
    ensures var cs' := AdoptTcp(cs, k, fd);
            && Disjoint(cs') && UniqueIds(cs')
            && (forall j | 0 <= j < |cs| :: EntryOk(cs'[j]))
            && (forall j | 0 <= j < |cs| && j != k :: cs'[j] == cs[j] || cs'[j] == EMPTY)
            && cs'[k] == cs[k].(fd := cs'[k].fd)
  {
    if fd >= 0 && cs[k].fd != fd {
      var cs1 := WithoutFd(cs, k, fd, |cs|);
      WipesKeeps(cs, cs1);
      ShrinkKeeps(cs1, k, cs1[k].(fd := fd));
    }
  }

  /** The entry of an auto handshake: the only one with its ID, and the only
      one that may have the ID's profile address. */
  lemma AutoEntryKeepsAddr(s: State, q: Init, memory: Memory)
    requires AddrInv(s) && q.auto && q.id != "" && !ProfileTaken(s, q)
    ensures var (s1, k, taken) := AutoEntry(s, q, memory);
            && AddrInv(s1) && s1.db == s.db && s1.now == s.now
            && (k >= 0 ==>
                  && s1.clients[k].active
                  && IdFree(s1.clients, k, q.id)
                  && var p := Merged(s1.db, q.id);
                     p.cidr.At? ==> NotHeld(s1.clients, k, p.cidr.ip))
  {
    var (s1, k, taken) := AutoEntry(s, q, memory);
    var known := FindById(s.clients, q.id);
    if s.db.denyUnknown && FindProfile(s.db, q.id) == None {
    } else if known >= 0 {
      AdoptKeepsAddr(s.clients, known, q.fd);
      assert s.clients[known].id != "" by {
        assert |Fold(s.clients[known].id)| == |Fold(q.id)|;
      }
      assert IdFree(s.clients, known, s.clients[known].id);
    } else if FindByAddr(s.clients, q.from) >= 0 && s.clients[FindByAddr(s.clients, q.from)].fd >= 0 {
    } else {
      AllocKeepsAddr(s, memory);
    }
    var p := Merged(s.db, q.id);
    if k >= 0 && p.cidr.At? {
      var holder := FindByIp(s.clients, p.cidr.ip);
      if holder >= 0 {
        assert s.clients[holder].active && SameId(s.clients[holder].id, q.id);
        assert holder == known;
      }
      OnlyHolder(s.clients, k, p.cidr.ip);
    }
  }

  /* ---- the answer ---- */

  lemma UsableIsFree(s: State, k: nat, ip: nat, id: string)
    requires Shape(s) && Disjoint(s.clients)
    requires Usable(s, k, ip, id) || Reclaimable(s, k, ip)
    ensures NotHeld(s.clients, k, ip)
  {
    OnlyHolder(s.clients, k, ip);
  }

  lemma PoolTakeFree(s: State, k: nat, id: string)
    requires Shape(s) && Disjoint(s.clients)
    ensures var ip := PoolTake(s, k, id).1; ip != 0 ==> NotHeld(s.clients, k, ip)
  {
    var ip := PoolTake(s, k, id).1;
    if ip != 0 {
      UsableIsFree(s, k, ip, id);
    }
  }

  lemma ChosenIsFree(s: State, k: nat, id: string)
    requires Shape(s) && k < |s.clients| && Disjoint(s.clients)
    ensures var ip := ChooseIp(s, k, id).1; ip != 0 ==> NotHeld(s.clients, k, ip)
  {
    hide Usable;
    hide Reclaimable;
    hide PoolTake;
    var c := s.clients[k];
    PoolTakeFree(s, k, c.id);
    var ip := ChooseIp(s, k, id).1;
    if Usable(s, k, ip, id) {
      UsableIsFree(s, k, ip, id);
    }
  }

  lemma OldAddressIsFree(s: State, k: nat, id: string, hint: Option<nat>)
    requires Shape(s) && k < |s.clients| && Disjoint(s.clients)
    ensures var c := WithOldAddress(s, k, id, hint);
            && c == s.clients[k].(ip := c.ip)
            && (c.ip != s.clients[k].ip ==> s.clients[k].ip == 0 && c.ip != 0 && NotHeld(s.clients, k, c.ip))
            && Disjoint(s.clients[k := c])
  {
    var c := WithOldAddress(s, k, id, hint);
    if c.ip != s.clients[k].ip {
      UsableIsFree(s, k, c.ip, id);
      DisjointUpdate(s.clients, k, c);
    } else {
      assert s.clients[k := c] == s.clients;
    }
  }

  /** A pending address belongs to an entry with a current session and address. */
  predicate PendingOk(c: Client) {
    c.pending != 0 ==> c.cur.Live? && c.ip != 0
  }

  /** The two clients have the same sessions, identity and previous address. */
  predicate OnlyAddresses(c: Client, c': Client) {
    c' == c.(ip := c'.ip, pending := c'.pending)
  }

  /** What server_build_config does, for any profile: only the entry changes,
      only in its addresses, and to addresses nobody else has. The address it
      gives from the pool is one of them, and the entry was assigned it. */
  lemma BuildConfigEffect(s: State, k: nat, id: string, hint: Option<nat>, tooLong: bool)
    requires Shape(s) && k < |s.clients| && Disjoint(s.clients)
    ensures var (s', cfg) := BuildConfig(s, k, id, hint, tooLong);
            var c, c' := s.clients[k], s'.clients[k];
            && s'.clients == s.clients[k := c'] && OnlyAddresses(c, c') && s'.leases == s.leases
            && (forall ip | Holds(c', ip) :: Holds(c, ip) || NotHeld(s.clients, k, ip))
            && (PendingOk(c) ==> PendingOk(c'))
            && (Merged(s.db, id).cidr != NoCidr && Merged(s.db, id).gateway ==> c' == c)
            && (cfg.Some? && !(Merged(s.db, id).cidr != NoCidr && Merged(s.db, id).gateway) ==>
                  && cfg.value != 0 && NotHeld(s.clients, k, cfg.value)
                  && c' == AssignIp(WithOldAddress(s, k, id, hint), cfg.value))
  {
    hide WithOldAddress;
    hide ChooseIp;
    hide Disjoint;
    var p := Merged(s.db, id);
    if !(p.cidr != NoCidr && p.gateway) && id != "" {
      var c := WithOldAddress(s, k, id, hint);
      OldAddressIsFree(s, k, id, hint);
      var s1 := s.(clients := s.clients[k := c]);
      var (s2, ip) := ChooseIp(s1, k, id);
      ChosenIsFree(s1, k, id);
      if ip != 0 {
        forall j | 0 <= j < |s.clients| && j != k
          ensures !Holds(s.clients[j], ip)
        {
          assert s1.clients[j] == s.clients[j];
        }
      }
    }
  }

  /** Taking a handshake's identity leaves sessions alone and adds at most
      the profile's address. */
  lemma IdentifiedFrame(s: State, c: Client, q: Init)
    requires q.auto
    ensures var c' := Identified(s, c, q);
            var p := Merged(s.db, q.id);
            && c' == c.(ip := c'.ip, pending := c'.pending, auto := true, addr := c'.addr,
                        lastSeen := c'.lastSeen, id := q.id)
            && (forall ip | Holds(c', ip) :: Holds(c, ip) || (p.cidr.At? && ip == p.cidr.ip))
            && (PendingOk(c) ==> PendingOk(c'))
  {
  }

  lemma WithSessionFrame(s: State, c: Client, q: Init, idx: nat, cfg: nat)
    ensures var c' := WithSession(s, c, q, idx, cfg);
            && c' == c.(cur := c'.cur, next := c'.next, registered := true, psk := c'.psk, hsTs := c'.hsTs)
            && (if c.cur.Live? then c'.cur == c.cur && c'.next.Live? else c'.cur.Live? && c'.next == c.next)
  {
  }

  /** Entry `k` of an answered handshake, before its end: as it was, with its
      identity, and in its addresses as the CONFIG was made. */
  ghost predicate Prepared(c0: Client, c: Client, q: Init) {
    SameButAddresses(c0, c, q) && PendingOk(c)
  }

  predicate SameButAddresses(c0: Client, c: Client, q: Init) {
    c == c0.(ip := c.ip, pending := c.pending, auto := true, addr := c.addr, lastSeen := c.lastSeen, id := q.id)
  }

  /** A handshake that went wrong leaves an entry with the addresses and
      sessions it had. */
  lemma RolledBackOk(c0: Client, c: Client, q: Init, taken: bool)
    requires EntryOk(c0) && c.auto && c.id == q.id && c.active == c0.active
    requires c.prev == c0.prev && c.prevIp == c0.prevIp
    ensures EntryOk(RolledBack(c, c0, taken))
    ensures forall ip | Holds(RolledBack(c, c0, taken), ip) :: Holds(c0, ip)
    ensures if taken then RolledBack(c, c0, taken) == EMPTY else RolledBack(c, c0, taken).id == q.id
  {
  }

  lemma EntryPending(c: Client)
    requires EntryOk(c)
    ensures PendingOk(c)
  {
  }

  lemma AcceptedOk(s: State, c0: Client, c: Client, q: Init, idx: nat, cfg: nat)
    requires EntryOk(c0) && c0.active && Prepared(c0, c, q)
    ensures EntryOk(WithSession(s, c, q, idx, cfg))
    ensures forall ip | Holds(WithSession(s, c, q, idx, cfg), ip) :: Holds(c, ip)
  {
  }

  /** The entry when its CONFIG is made, and what it may hold then. */
  lemma AnswerConfig(s: State, k: nat, q: Init, tooLong: bool)
    requires Shape(s) && Disjoint(s.clients) && k < |s.clients| && q.auto
    requires var p := Merged(s.db, q.id); p.cidr.At? ==> NotHeld(s.clients, k, p.cidr.ip)
    ensures var c := s.clients[k];
            var c1 := Identified(s, c, q);
            var s2 := BuildConfig(s.(clients := s.clients[k := c1]), k, q.id, q.ip, tooLong).0;
            && s2.clients == s.clients[k := s2.clients[k]]
            && (PendingOk(c) ==> Prepared(c, s2.clients[k], q))
            && SameButAddresses(c, s2.clients[k], q)
            && forall ip | Holds(s2.clients[k], ip) :: Holds(c, ip) || NotHeld(s.clients, k, ip)
  {
    hide BuildConfig;
    hide Identified;
    hide WithOldAddress;
    hide AssignIp;
    var c := s.clients[k];
    var c1 := Identified(s, c, q);
    var s1 := s.(clients := s.clients[k := c1]);
    IdentifiedFrame(s, c, q);
    DisjointUpdate(s.clients, k, c1);
    BuildConfigEffect(s1, k, q.id, q.ip, tooLong);
    var s2 := BuildConfig(s1, k, q.id, q.ip, tooLong).0;
    forall ip | Holds(s2.clients[k], ip) && !Holds(c1, ip)
      ensures NotHeld(s.clients, k, ip)
    {
      forall j | 0 <= j < |s.clients| && j != k
        ensures !Holds(s.clients[j], ip)
      {
        assert s1.clients[j] == s.clients[j];
      }
    }
  }

  /** The rest of a handshake, through success and every failure. */
  lemma AnswerKeepsAddr(s: State, k: nat, taken: bool, q: Init, fault: Fault, rand: seq<nat>)
    requires AddrInv(s) && k < |s.clients| && s.clients[k].active && q.auto && q.id != ""
    requires |rand| == 16 && forall j | 0 <= j < 16 :: rand[j] < ServerTable.U32
    requires IdFree(s.clients, k, q.id)
    requires var p := Merged(s.db, q.id); p.cidr.At? ==> NotHeld(s.clients, k, p.cidr.ip)
    ensures AddrInv(Answer(s, k, taken, q, fault, rand).0)
  {
    hide NewIndex;
    hide BuildConfig;
    hide EntryOk;
    hide WithSession;
    hide RolledBack;
    hide Identified;
    hide Holds;
    hide Disjoint;
    hide UniqueIds;
    var c0 := s.clients[k];
    var c1 := Identified(s, c0, q);
    var s1 := s.(clients := s.clients[k := c1]);
    EntryPending(c0);
    AnswerConfig(s, k, q, fault == ConfigTooLong);
    var (s2, cfg) := BuildConfig(s1, k, q.id, q.ip, fault == ConfigTooLong);
    var c2 := s2.clients[k];
    var idx := NewIndex(c2, k, rand, 0);
    var s' := Answer(s, k, taken, q, fault, rand).0;
    var c' := s'.clients[k];
    assert s'.clients == s.clients[k := c'];
    if cfg.None? || fault == NoRandom || idx == 0 || fault == NoReply {
      RolledBackOk(c0, c2, q, taken);
      assert c' == RolledBack(c2, c0, taken);
    } else {
      AcceptedOk(s2, c0, c2, q, idx, cfg.value);
      WithSessionFrame(s2, c2, q, idx, cfg.value);
      var c3 := WithSession(s2, c2, q, idx, cfg.value);
      if fault == SendFails {
        RolledBackOk(c0, c3, q, taken);
        assert c' == RolledBack(c3, c0, taken);
      } else {
        assert c' == c3;
      }
    }
    UpdateKeeps(s.clients, k, c');
  }

  /** Every auto handshake, whatever goes wrong in it. */
  lemma HandshakeKeepsAddr(s: State, q: Init, fault: Fault, rand: seq<nat>, memory: Memory)
    requires AddrInv(s) && q.auto && q.id != ""
    requires |rand| == 16 && forall j | 0 <= j < 16 :: rand[j] < ServerTable.U32
    ensures AddrInv(Handshake(s, q, fault, rand, memory).0)
  {
    if !Stale(s, q) && !ProfileTaken(s, q) {
      AutoEntryKeepsAddr(s, q, memory);
      var (s1, k, taken) := EntryFor(s, q, memory);
      if k >= 0 {
        AnswerKeepsAddr(s1, k, taken, q, fault, rand);
      }
    }
  }

  /* ---- the other steps ---- */

  lemma DataKeepsAddr(s: State, d: Data)
    requires AddrInv(s)
    ensures AddrInv(AfterData(s, d))
  {
    if Opens(s, d) {
      var k := SlotOf(s, d.idx);
      ShrinkKeeps(s.clients, k, AfterData(s, d).clients[k]);
    }
  }

  lemma ExpiredOk(c: Client, now: nat)
    requires EntryOk(c)
    ensures EntryOk(SessionsExpired(c, now))
    ensures forall ip | Holds(SessionsExpired(c, now), ip) :: Holds(c, ip)
    ensures SessionsExpired(c, now).active == c.active && SessionsExpired(c, now).id == c.id
  {
  }

  lemma OfferCheckedOk(s: State, c: Client)
    requires EntryOk(c)
    ensures EntryOk(OfferChecked(s, c))
    ensures forall ip | Holds(OfferChecked(s, c), ip) :: Holds(c, ip)
    ensures OfferChecked(s, c).active == c.active && OfferChecked(s, c).id == c.id
  {
  }

  lemma ReplaceKeepsAddr(s: State, k: nat, c: Client)
    requires AddrInv(s) && k < |s.clients| && EntryOk(c)
    requires forall ip | Holds(c, ip) :: Holds(s.clients[k], ip)
    requires c.active ==> s.clients[k].active && c.id == s.clients[k].id
    ensures AddrInv(s.(clients := s.clients[k := c]))
  {
    ShrinkKeeps(s.clients, k, c);
  }

  lemma VisitKeepsAddr(s: State, k: nat, pass: Pass, memory: Memory)
    requires AddrInv(s) && k < |s.clients|
    ensures AddrInv(Visit(s, k, pass, memory))
  {
    hide EndClient;
    hide SessionsExpired;
    hide OfferChecked;
    hide EntryOk;
    hide Holds;
    hide Disjoint;
    hide UniqueIds;
    var c := s.clients[k];
    EndKeepsAddr(s, k, memory);
    match pass
    case Expiry =>
      ExpiredOk(c, s.now);
      ReplaceKeepsAddr(s, k, SessionsExpired(c, s.now));
      EndKeepsAddr(s.(clients := s.clients[k := SessionsExpired(c, s.now)]), k, memory);
    case ProfileAddresses =>
      OfferCheckedOk(s, c);
      ReplaceKeepsAddr(s, k, OfferChecked(s, c));
      EmptyKeepsAddr(s.(clients := s.clients[k := OfferChecked(s, c)]), k);
    case _ =>
  }

  lemma EmptyKeepsAddr(s: State, k: nat)
    requires AddrInv(s) && k < |s.clients|
    ensures AddrInv(s.(clients := s.clients[k := EMPTY]))
  {
    ReplaceKeepsAddr(s, k, EMPTY);
  }

  lemma {:induction false} PassKeepsAddr(s: State, n: nat, pass: Pass, memory: Memory)
    requires AddrInv(s) && n <= |s.clients|
    ensures AddrInv(Visited(s, n, pass, memory))
  {
    hide EntryOk;
    hide Disjoint;
    hide UniqueIds;
    hide Visit;
    if n > 0 {
      PassKeepsAddr(s, n - 1, pass, memory);
      VisitKeepsAddr(Visited(s, n - 1, pass, memory), n - 1, pass, memory);
    }
  }

  lemma ReloadKeepsAddr(s: State, db: Db, allowed: nat -> bool, memory: Memory)
    requires AddrInv(s) && PoolOk(db)
    ensures AddrInv(Reload(s, db, allowed, memory))
  {
    var s0 := s.(db := db);
    PassKeepsAddr(s0, |s.clients|, Keys(allowed), memory);
    var s1 := Whole(s0, Keys(allowed), memory);
    PassKeepsAddr(s1, |s.clients|, UnknownIds, memory);
    var s2 := Whole(s1, UnknownIds, memory);
    PassKeepsAddr(s2, |s.clients|, ProfileAddresses, memory);
  }

  lemma ConnectKeepsAddr(s: State, fd: int, peer: Addr)
    requires AddrInv(s)
    ensures AddrInv(Connected(s, fd, peer))
  {
    hide CountPreAuth;
    var (all, same, oldest) := CountPreAuth(s, peer.ip, |s.clients|);
    if !(same >= PREAUTH_PER_IP || (all >= PreAuthLimit(|s.clients|) && oldest < 0)) {
      var full := all >= PreAuthLimit(|s.clients|);
      var cs := if full then s.clients[oldest := EMPTY.(fd := 0)] else s.clients;
      if full {
        ShrinkKeeps(s.clients, oldest, EMPTY.(fd := 0));
      }
      var k := FreeSlot(cs, 0, 0);
      if k >= 0 {
        ShrinkKeeps(cs, k, EMPTY.(fd := fd, lastSeen := s.now, connectedAt := s.now, active := true, addr := peer));
      }
    }
  }

  /* ---- runs ---- */

  /** Auto handshakes only; their REGISTER has an ID. */
  predicate AutoEvent(e: Event) {
    e.Shake? ==> e.q.auto && e.q.id != ""
  }

  lemma StepKeepsAddr(s: State, e: Event)
    requires AddrInv(s) && EventOk(e) && AutoEvent(e)
    ensures AddrInv(Step(s, e))
  {
    hide AddrInv;
    hide AfterData;
    hide Connected;
    hide Closed;
    hide Handshake;
    hide Whole;
    hide Reload;
    match e
    case Tick(seconds) => TickKeepsAddr(s, seconds);
    case Connect(fd, peer) => ConnectKeepsAddr(s, fd, peer);
    case Close(fd, memory) => CloseKeepsAddr(s, fd, memory);
    case Shake(q, fault, rand, memory) => HandshakeKeepsAddr(s, q, fault, rand, memory);
    case Packet(d) => DataKeepsAddr(s, d);
    case Expire(memory) => WholeKeepsAddr(s, Expiry, memory);
    case Configure(db, allowed, memory) => ReloadKeepsAddr(s, db, allowed, memory);
  }

  lemma TickKeepsAddr(s: State, seconds: nat)
    requires AddrInv(s)
    ensures AddrInv(s.(now := s.now + seconds))
  {
  }

  lemma CloseKeepsAddr(s: State, fd: int, memory: Memory)
    requires AddrInv(s)
    ensures AddrInv(Closed(s, fd, memory))
  {
    var k := FirstWithFd(s.clients, fd, 0);
    if k >= 0 {
      EndKeepsAddr(s, k, memory);
    }
  }

  lemma WholeKeepsAddr(s: State, pass: Pass, memory: Memory)
    requires AddrInv(s)
    ensures AddrInv(Whole(s, pass, memory))
  {
    PassKeepsAddr(s, |s.clients|, pass, memory);
  }

  /** In every run of connections, auto handshakes (failed ones included),
      data, expiry, eviction and reloads, under any configuration the server
      takes: no address is held by two live entries, whether as their current
      one, pending, or previous while that session is valid; a pending address
      has a valid next session; and IDs are unique. */
  lemma {:induction false} AddressesInEveryRun(s: State, es: seq<Event>)
    requires Fresh(s) && forall i | 0 <= i < |es| :: EventOk(es[i]) && AutoEvent(es[i])
    ensures AddrInv(Run(s, es))
  {
    if es != [] {
      var before := es[..|es| - 1];
      AddressesInEveryRun(s, before);
      StepKeepsAddr(Run(s, before), es[|es| - 1]);
    }
  }
}
