/** The server (server.c, camex.c): its client table with the hash indexes
    and the lease table, in place. Every method does to the table what the
    functions of `ServerSteps` say over linear scans: the indexes, their
    stale buckets, their rebuilds in the middle of a handshake and the
    fallback when there is no memory for one never show. */
module Server {
  import opened Wrappers
  import opened ServerTable
  import opened ServerLeases
  import opened ServerSteps
  import opened ServerIndex
  import ServerRotation

  /** Entry `k` with another key is sound once that key is indexed. */
  lemma NewIpSound(x: Keys, h: Hashes, cs: seq<Client>, k: nat, c: Client, ip: nat)
    requires Sound(x, h, cs) && k < |cs|
    requires c == cs[k].(ip := c.ip, pending := c.pending)
    requires c.ip == cs[k].ip || c.ip == cs[k].pending || c.ip == ip || c.ip == 0
    requires c.pending == cs[k].pending || c.pending == ip || c.pending == 0
    ensures Sound(x.(ip := x.ip + {(h.ip(ip), k)}), h, cs[k := c])
    ensures ip == 0 ==> Sound(x, h, cs[k := c])
  {
    if x.ok && cs[k].active {
      assert Covers(x, h, cs[k], k);
    }
  }

  lemma NewIdSound(x: Keys, h: Hashes, cs: seq<Client>, k: nat, id: string)
    requires Sound(x, h, cs) && k < |cs|
    ensures Sound(x.(id := x.id + {(h.id(Fold(id)), k)}), h, cs[k := cs[k].(id := id)])
    ensures id == "" ==> Sound(x, h, cs[k := cs[k].(id := id)])
  {
    if x.ok && cs[k].active {
      assert Covers(x, h, cs[k], k);
    }
  }

  lemma NewAddrSound(x: Keys, h: Hashes, cs: seq<Client>, k: nat, a: Addr)
    requires Sound(x, h, cs) && k < |cs|
    ensures Sound(x.(addr := x.addr + {(h.addr(a), k)}), h, cs[k := cs[k].(addr := a)])
    ensures !AddrSet(a) ==> Sound(x, h, cs[k := cs[k].(addr := a)])
  {
    if x.ok && cs[k].active {
      assert Covers(x, h, cs[k], k);
    }
  }

  lemma DropSound(x: LeaseKeys, h: Hashes, ls: seq<Lease>, k: nat)
    requires LeasesSound(x, h, ls) && k < |ls|
    ensures LeasesSound(x, h, ls[k := UNUSED])
  {
  }

  lemma ScanIsFirst(cs: seq<Client>, a: Addr)
    ensures forall j | 0 <= j < |cs| && cs[j].active && cs[j].addr == a :: 0 <= FindByAddr(cs, a) <= j
  {
    forall j | 0 <= j < |cs| && cs[j].active && cs[j].addr == a
      ensures 0 <= FindByAddr(cs, a) <= j
    {
      assert Matches(cs[j], Peer(a));
    }
  }

  lemma ReclaimableLease(s: State, k: nat, ip: nat)
    requires Shape(s)
    ensures Reclaimable(s, k, ip) ==> ByIp(s.leases.table, ip) >= 0
  {
  }

  lemma StoreSound(x: LeaseKeys, h: Hashes, ls: seq<Lease>, k: nat, ls': seq<Lease>)
    requires LeasesSound(x, h, ls) && k < |ls| == |ls'| && ls' == ls[k := ls'[k]]
    ensures x.ok ==> forall j | 0 <= j < |ls| && j != k :: LeaseCovers(x, h, ls'[j], j)
  {
  }

  class Server {
    var clients: seq<Client>
    var allocNext: nat
    var leases: seq<Lease>
    var leaseUsed: int
    var leaseNext: nat
    var poolNext: nat
    var fullAt: nat
    var fullNet: nat
    var fullPrefix: nat
    var db: Db
    var now: nat
    var started: nat
    var hold: nat
    const index: ClientIndex
    const leaseIndex: LeaseIndex
    ghost var Repr: set<object>

    function View(): State
      reads this
    {
      State(clients, allocNext, Leases(leases, leaseUsed, leaseNext), poolNext, fullAt, fullNet, fullPrefix,
            db, now, started, hold)
    }

    ghost predicate Valid()
      reads this, Repr
      ensures Valid() ==> this in Repr && Shape(View())
    {
      && this in Repr && index in Repr && leaseIndex in Repr
      && index.Repr <= Repr && leaseIndex.Repr <= Repr && index.Repr !! leaseIndex.Repr
      && this !in index.Repr && this !in leaseIndex.Repr
      && index.Valid() && leaseIndex.Valid()
      && Shape(View())
      && index.SoundFor(clients) && leaseIndex.SoundFor(leases)
    }

    /** server_clients_init: empty slots, one lease a slot (none when there is
        no memory for them). */
    constructor (count: nat, db: Db, now: nat, hold: nat, hashes: Hashes)
      requires 0 < count <= MAX_CLIENTS && PoolOk(db) && now > 0
      ensures Valid() && fresh(Repr) && Fresh(View())
      ensures |clients| == count && this.db == db && this.now == now
    {
      hide ClientIndex.Valid;
      hide LeaseIndex.Valid;
      hide ClientIndex.View;
      hide LeaseIndex.View;
      clients := seq(count, _ => EMPTY);
      allocNext, leaseUsed, leaseNext, poolNext := 0, 0, 0, 0;
      var memory := *;
      leases := if memory then seq(count, _ => UNUSED) else [];
      fullAt, fullNet, fullPrefix := 0, 0, 0;
      this.db, this.now, this.started, this.hold := db, now, now, hold;
      index := new ClientIndex(hashes);
      leaseIndex := new LeaseIndex(hashes);
      Repr := {};
      new;
      assert Shape(View());
      BuildIndexes();
    }

    method BuildIndexes()
      requires index.Valid() && leaseIndex.Valid() && index.Repr !! leaseIndex.Repr
      requires this !in index.Repr && this !in leaseIndex.Repr
      requires Shape(View())
      modifies `Repr, index.Repr, leaseIndex.Repr
      ensures Valid() && View() == old(View())
      ensures fresh(Repr - {this} - old(index.Repr) - old(leaseIndex.Repr))
    {
      hide ClientIndex.Valid;
      hide LeaseIndex.Valid;
      hide ClientIndex.View;
      index.Rebuild(clients);
      leaseIndex.Rebuild(leases);
      Repr := {this} + index.Repr + leaseIndex.Repr;
    }

    /* ---- lookups ---- */

    /** server_find_by_ip */
    method FindIp(ip: nat) returns (k: int)
      requires Valid()
      ensures k == FindByIp(clients, ip)
    {
      hide ClientIndex.Valid;
      hide LeaseIndex.Valid;
      k := index.FindIp(clients, ip);
    }

    /** server_find_by_client_id */
    method FindId(id: string) returns (k: int)
      requires Valid()
      ensures k == FindById(clients, id)
    {
      hide ClientIndex.Valid;
      hide LeaseIndex.Valid;
      k := index.FindId(clients, id);
    }

    /** server_find_by_addr */
    method FindAddr(a: Addr) returns (k: int)
      requires Valid()
      ensures k == FindByAddr(clients, a)
    {
      hide ClientIndex.Valid;
      hide LeaseIndex.Valid;
      k := index.FindAddr(clients, a);
    }

    /** The client has sent authenticated data within the timeout. */
    predicate Recent(c: Client)
      reads this
    {
      c.registered && c.cur.Live? && c.lastData != 0 && now - c.lastData <= db.clientTimeout
    }

    /** The lookup of server_known_source: the live client at a source, which
        is the first active entry with that address, if that one is live. */
    method LiveSource(from: Addr) returns (client: Option<nat>)
      requires Valid()
      ensures client.Some? ==>
                var k := client.value;
                k < |clients| && clients[k].active && clients[k].addr == from && Recent(clients[k])
                && forall j | 0 <= j < k :: !(clients[j].active && clients[j].addr == from)
      ensures client.None? ==>
                forall k | 0 <= k < |clients| && clients[k].active && clients[k].addr == from && Recent(clients[k]) ::
                  exists j :: 0 <= j < k && clients[j].active && clients[j].addr == from && !Recent(clients[j])
    {
      hide ClientIndex.Valid;
      hide LeaseIndex.Valid;
      var k := FindAddr(from);
      ScanIsFirst(clients, from);
      if k < 0 || !clients[k].registered || !clients[k].cur.Live? || clients[k].lastData == 0
         || now - clients[k].lastData > db.clientTimeout {
        return None;
      }
      client := Some(k);
    }

    /** server_lease_by_ip */
    method LeaseByIp(ip: nat) returns (k: int)
      requires Valid()
      ensures k == ByIp(leases, ip)
    {
      hide ClientIndex.Valid;
      hide LeaseIndex.Valid;
      if ip == 0 {
        return -1;
      }
      k := leaseIndex.Lookup(leases, LeaseOfIp(ip));
    }

    /** server_lease_by_id */
    method LeaseById(id: string) returns (k: int)
      requires Valid()
      ensures k == ById(leases, id)
    {
      hide ClientIndex.Valid;
      hide LeaseIndex.Valid;
      if id == "" {
        return -1;
      }
      k := leaseIndex.Lookup(leases, LeaseOfId(id));
    }

    /* ---- changes of one entry ---- */

    /** Any change of an entry that gives it no key it did not have. */
    method PutEntry(k: nat, c: Client)
      requires Valid() && k < |clients|
      requires FewerKeys(c, clients[k]) || c == WithoutKeys(c)
      modifies this
      ensures Valid() && Repr == old(Repr)
      ensures View() == old(View()).(clients := old(clients)[k := c])
    {
      hide ClientIndex.Valid;
      hide LeaseIndex.Valid;
      hide ClientIndex.View;
      FewerKeysSound(index.View(), index.hashes, clients, k, c);
      clients := clients[k := c];
    }

    /** Entry `k` gets addresses among those it had and `ip`, which is indexed. */
    method PutAddresses(k: nat, c: Client, ip: nat)
      requires Valid() && k < |clients|
      requires c == clients[k].(ip := c.ip, pending := c.pending)
      requires c.ip == clients[k].ip || c.ip == clients[k].pending || c.ip == ip || c.ip == 0
      requires c.pending == clients[k].pending || c.pending == ip || c.pending == 0
      modifies Repr
      ensures Valid() && fresh(Repr - old(Repr))
      ensures View() == old(View()).(clients := old(clients)[k := c])
    {
      hide ClientIndex.Valid;
      hide LeaseIndex.Valid;
      hide ClientIndex.View;
      NewIpSound(index.View(), index.hashes, clients, k, c, ip);
      clients := clients[k := c];
      if ip != 0 {
        index.AddIp(clients, ip, k);
        Repr := Repr + index.Repr;
      }
    }

    /** server_set_ip */
    method SetIp(k: nat, ip: nat)
      requires Valid() && k < |clients|
      modifies Repr
      ensures Valid() && fresh(Repr - old(Repr))
      ensures View() == old(View()).(clients := old(clients)[k := old(clients)[k].(ip := ip)])
    {
      hide Valid;
      if clients[k].ip == ip {
        assert clients[k := clients[k].(ip := ip)] == clients;
        return;
      }
      PutAddresses(k, clients[k].(ip := ip), ip);
    }

    /** server_assign_ip */
    method AssignAddress(k: nat, ip: nat)
      requires Valid() && k < |clients|
      modifies Repr
      ensures Valid() && fresh(Repr - old(Repr))
      ensures View() == old(View()).(clients := old(clients)[k := AssignIp(old(clients)[k], ip)])
    {
      hide Valid;
      var c := clients[k];
      if c.cur.Live? && c.ip != 0 && ip != c.ip {
        if c.pending != ip {
          PutAddresses(k, c.(pending := ip), ip);
        } else {
          assert clients[k := c.(pending := ip)] == clients;
        }
        return;
      }
      PutEntry(k, c.(pending := 0));
      SetIp(k, ip);
    }

    /** server_restore_ip */
    method RestoreAddress(k: nat, ip: nat, pending: nat)
      requires Valid() && k < |clients|
      modifies Repr
      ensures Valid() && fresh(Repr - old(Repr))
      ensures View() == old(View()).(clients := old(clients)[k := old(clients)[k].(ip := ip, pending := pending)])
    {
      hide Valid;
      SetIp(k, ip);
      PutAddresses(k, clients[k].(pending := pending), pending);
      if ip != 0 {
        PutAddresses(k, clients[k], ip);
      }
    }

    /** server_set_id */
    method SetId(k: nat, id: string)
      requires Valid() && k < |clients|
      modifies Repr
      ensures Valid() && fresh(Repr - old(Repr))
      ensures View() == old(View()).(clients := old(clients)[k := old(clients)[k].(id := id)])
    {
      hide ClientIndex.Valid;
      hide LeaseIndex.Valid;
      hide ClientIndex.View;
      if clients[k].id == id {
        assert clients[k := clients[k].(id := id)] == clients;
        return;
      }
      NewIdSound(index.View(), index.hashes, clients, k, id);
      clients := clients[k := clients[k].(id := id)];
      if id != "" {
        index.AddId(clients, id, k);
        Repr := Repr + index.Repr;
      }
    }

    /** server_set_addr */
    method SetAddr(k: nat, a: Addr)
      requires Valid() && k < |clients|
      modifies Repr
      ensures Valid() && fresh(Repr - old(Repr))
      ensures View() == old(View()).(clients := old(clients)[k := old(clients)[k].(addr := a)])
    {
      hide ClientIndex.Valid;
      hide LeaseIndex.Valid;
      hide ClientIndex.View;
      if clients[k].addr == a && AddrSet(a) {
        assert clients[k := clients[k].(addr := a)] == clients;
        return;
      }
      NewAddrSound(index.View(), index.hashes, clients, k, a);
      clients := clients[k := clients[k].(addr := a)];
      if AddrSet(a) {
        index.AddAddr(clients, a, k);
        Repr := Repr + index.Repr;
      }
    }

    /* ---- leases ---- */

    /** server_lease_drop */
    method LeaseDrop(k: int)
      requires Valid() && -1 <= k < |leases|
      modifies this
      ensures Valid() && Repr == old(Repr)
      ensures View() == old(View()).(leases := Drop(old(View()).leases, k))
    {
      hide ClientIndex.Valid;
      hide LeaseIndex.Valid;
      hide LeaseIndex.View;
      if k >= 0 && leases[k].ip != 0 {
        DropSound(leaseIndex.View(), leaseIndex.hashes, leases, k);
        leases := leases[k := UNUSED];
        leaseUsed := leaseUsed - 1;
      }
    }

    /** server_lease_allows */
    method LeaseAllows(ip: nat, id: string) returns (ok: bool)
      requires Valid()
      ensures ok == Allows(leases, ip, id)
    {
      var k := LeaseByIp(ip);
      return k < 0 || SameId(leases[k].id, id);
    }

    /** A free lease slot from the cursor, else the oldest lease. */
    method ChooseLease() returns (k: nat, cursor: nat)
      requires Valid() && |leases| > 0
      ensures k == Chosen(View().leases) && cursor == NextCursor(View().leases)
    {
      cursor := leaseNext;
      if leaseUsed < |leases| {
        var i := 0;
        while i < |leases|
          invariant 0 <= i <= |leases|
          invariant FreeFrom(leases, leaseNext, 0) == FreeFrom(leases, leaseNext, i)
        {
          k := Ring(leaseNext, i, |leases|);
          if leases[k].ip == 0 {
            cursor := if k + 1 < |leases| then k + 1 else 0;
            return;
          }
          i := i + 1;
        }
      }
      k := 0;
      var i := 1;
      while i < |leases|
        invariant 1 <= i <= |leases| && k < i
        invariant k == Oldest(leases, i)
      {
        if leases[i].since < leases[k].since {
          k := i;
        }
        i := i + 1;
      }
    }

    /** Lease `k` is written; `moved`: the table was enlarged for it. */
    method StoreLease(k: nat, l: Lease, moved: bool)
      requires Valid() && k < |leases| && l.ip != 0
      modifies Repr
      ensures Valid() && fresh(Repr - old(Repr))
      ensures View() == old(View()).(leases := Stored(old(View()).leases, k, l))
    {
      hide ClientIndex.Valid;
      hide LeaseIndex.Valid;
      hide ClientIndex.View;
      hide LeaseIndex.View;
      StoreSound(leaseIndex.View(), leaseIndex.hashes, leases, k, leases[k := l]);
      leaseUsed := if leases[k].ip == 0 then leaseUsed + 1 else leaseUsed;
      leases := leases[k := l];
      leaseIndex.Store(leases, k, moved);
      Repr := Repr + leaseIndex.Repr;
    }

    /** The table grows to `cap` slots; its index is rebuilt with the next
        lease, until then lookups would scan. */
    method GrowLeases(cap: nat, k: nat, l: Lease)
      requires Valid() && cap > |leases| && k == |leases| && l.ip != 0
      modifies Repr
      ensures Valid() && fresh(Repr - old(Repr))
      ensures View() == old(View()).(leases :=
                Stored(Leases(old(leases) + seq(cap - old(|leases|), _ => UNUSED), old(leaseUsed), old(|leases|) + 1), k, l))
    {
      hide ClientIndex.Valid;
      hide LeaseIndex.Valid;
      hide ClientIndex.View;
      hide LeaseIndex.View;
      leaseNext := |leases| + 1;
      leases := (leases + seq(cap - |leases|, _ => UNUSED))[k := l];
      leaseUsed := leaseUsed + 1;
      leaseIndex.Store(leases, k, true);
      Repr := Repr + leaseIndex.Repr;
    }

    method MoveCursor(cursor: nat)
      requires Valid() && cursor <= |leases|
      modifies this
      ensures Valid() && Repr == old(Repr)
      ensures View() == old(View()).(leases := old(View()).leases.(next := cursor))
    {
      hide ClientIndex.Valid;
      hide LeaseIndex.Valid;
      leaseNext := cursor;
    }

    /** The drops at the start of server_lease_add. */
    method ClearLeases(id: string, ip: nat, prev: bool)
      requires Valid()
      modifies this
      ensures Valid() && Repr == old(Repr)
      ensures View() == old(View()).(leases := Cleared(old(View()).leases, id, ip, prev))
    {
      hide Valid;
      if !prev {
        var own := LeaseById(id);
        LeaseDrop(own);
      }
      var same := LeaseByIp(ip);
      LeaseDrop(same);
    }

    /** server_lease_add */
    method LeaseAdd(id: string, ip: nat, prev: bool, memory: bool)
      requires Valid()
      modifies Repr
      ensures Valid() && fresh(Repr - old(Repr))
      ensures View() == old(View()).(leases := Add(old(View()).leases, old(db), old(now), id, ip, prev, memory))
    {
      hide Valid;
      hide Cleared;
      hide Chosen;
      hide NextCursor;
      hide GrownCap;
      if |leases| == 0 || ip == 0 || id == "" {
        return;
      }
      ClearLeases(id, ip, prev);
      var k, cursor := ChooseLease();
      var cap := GrownCap(db, |leases|);
      if leases[k].ip != 0 && Young(db, now, leases[k]) && cap > |leases| && memory {
        GrowLeases(cap, |leases|, Lease(id, ip, now, prev));
      } else {
        MoveCursor(cursor);
        StoreLease(k, Lease(id, ip, now, prev), false);
      }
    }

    /* ---- ending an entry, taking a slot ---- */

    /** server_drop_entry */
    method DropEntry(k: nat)
      requires Valid() && k < |clients|
      modifies this
      ensures Valid() && Repr == old(Repr)
      ensures View() == old(View()).(clients := old(clients)[k := EMPTY])
    {
      hide Valid;
      PutEntry(k, EMPTY);
    }

    /** server_end_client */
    method End(k: nat, memory: Memory)
      requires Valid() && k < |clients|
      modifies Repr
      ensures Valid() && fresh(Repr - old(Repr))
      ensures View() == EndClient(old(View()), k, memory)
    {
      hide Valid;
      hide Add;
      var c := clients[k];
      if c.active && c.registered && c.auto && c.id != "" {
        if Leasable(db, c.ip) {
          LeaseAdd(c.id, c.ip, false, memory(k, false));
        }
        if c.prev.Live? && c.prevIp != c.ip && Leasable(db, c.prevIp) {
          LeaseAdd(c.id, c.prevIp, true, memory(k, true));
        }
      }
      DropEntry(k);
    }

    method SetAllocNext(next: nat)
      requires Valid() && next < |clients|
      modifies this
      ensures Valid() && Repr == old(Repr) && View() == old(View()).(allocNext := next)
    {
      hide ClientIndex.Valid;
      hide LeaseIndex.Valid;
      allocNext := next;
    }

    /** server_alloc_client */
    method Alloc(memory: Memory) returns (k: int)
      requires Valid()
      modifies Repr
      ensures Valid() && fresh(Repr - old(Repr))
      ensures (View(), k) == AllocClient(old(View()), memory)
    {
      hide Valid;
      hide EndClient;
      var n := 0;
      while n < |clients|
        invariant 0 <= n <= |clients|
        invariant FreeSlot(clients, allocNext, 0) == FreeSlot(clients, allocNext, n)
        invariant Valid() && View() == old(View()) && Repr == old(Repr)
      {
        k := Ring(allocNext, n, |clients|);
        if !clients[k].active {
          PutEntry(k, TAKEN);
          SetAllocNext(if k + 1 < |clients| then k + 1 else 0);
          return;
        }
        n := n + 1;
      }
      if Holding(View()) {
        return -1;
      }
      k := Evict(memory);
    }

    /** The table is full: the entry quiet longest gives up its slot. */
    method Evict(memory: Memory) returns (k: nat)
      requires Valid()
      modifies Repr
      ensures Valid() && fresh(Repr - old(Repr))
      ensures k == Quietest(old(clients), |old(clients)|)
      ensures var s1 := EndClient(old(View()), k, memory); View() == s1.(clients := s1.clients[k := TAKEN])
    {
      hide Valid;
      hide EndClient;
      k := 0;
      var i := 1;
      while i < |clients|
        invariant 1 <= i <= |clients| && k < i
        invariant k == Quietest(clients, i)
      {
        if clients[i].lastSeen < clients[k].lastSeen {
          k := i;
        }
        i := i + 1;
      }
      End(k, memory);
      PutEntry(k, TAKEN);
    }

    /** server_adopt_tcp */
    method Adopt(k: nat, fd: int)
      requires Valid() && k < |clients|
      modifies this
      ensures Valid() && Repr == old(Repr)
      ensures View() == old(View()).(clients := AdoptTcp(old(clients), k, fd))
    {
      hide Valid;
      if fd < 0 || clients[k].fd == fd {
        return;
      }
      WipeOthers(k, fd);
      PutEntry(k, clients[k].(fd := fd));
    }

    /** The slots of other entries with the connection are freed. */
    method WipeOthers(k: nat, fd: int)
      requires Valid() && k < |clients|
      modifies this
      ensures Valid() && Repr == old(Repr)
      ensures View() == old(View()).(clients := WithoutFd(old(clients), k, fd, |old(clients)|))
    {
      hide Valid;
      ghost var s := View();
      var j := 0;
      while j < |clients|
        invariant 0 <= j <= |clients| == |s.clients|
        invariant Valid() && Repr == old(Repr)
        invariant View() == s.(clients := WithoutFd(s.clients, k, fd, j))
      {
        if clients[j].active && clients[j].fd == fd && j != k {
          PutEntry(j, EMPTY);
        }
        j := j + 1;
      }
    }

    /* ---- the address of an auto client ---- */

    /** server_ip_usable */
    method IpUsable(k: nat, ip: nat, id: string) returns (ok: bool)
      requires Valid() && k < |clients|
      ensures ok == Usable(View(), k, ip, id)
    {
      if !PoolHas(db, ip) || ip == db.tunnelIp || ProfileOwner(db, ip) != None {
        return false;
      }
      var user := FindIp(ip);
      var allowed := LeaseAllows(ip, id);
      return (user < 0 || user == k) && allowed;
    }

    method IpReclaimable(k: nat, ip: nat) returns (ok: bool, l: int)
      requires Valid() && k < |clients|
      ensures ok == Reclaimable(View(), k, ip) && l == ByIp(leases, ip)
    {
      l := LeaseByIp(ip);
      var user := FindIp(ip);
      ok := l >= 0 && ip != db.tunnelIp && ProfileOwner(db, ip) == None
            && (user < 0 || user == k) && !Young(db, now, leases[l]);
    }

    method SetPool(next: nat, full: bool)
      requires Valid()
      modifies this
      ensures Valid() && Repr == old(Repr)
      ensures View() == if full then old(View()).(fullAt := now, fullNet := db.poolNet, fullPrefix := db.poolPrefix)
                        else old(View()).(poolNext := next)
    {
      hide ClientIndex.Valid;
      hide LeaseIndex.Valid;
      if full {
        fullAt, fullNet, fullPrefix := now, db.poolNet, db.poolPrefix;
      } else {
        poolNext := next;
      }
    }

    /** server_auto_pool_take */
    method TakeFromPool(k: nat, id: string) returns (ip: nat)
      requires Valid() && k < |clients|
      modifies this
      ensures Valid() && Repr == old(Repr)
      ensures (View(), ip) == PoolTake(old(View()), k, id)
    {
      hide Valid;
      hide Usable;
      hide Reclaimable;
      hide PoolAt;
      if KnownFull(View()) {
        return 0;
      }
      ghost var s := View();
      var size := Clients(db);
      var oldest := -1;
      var n := 0;
      while n < size
        invariant db == s.db && leases == s.leases.table && 0 <= n <= size
        invariant WalkFrom(s, k, id, 0) == WalkFrom(s, k, id, n)
        invariant oldest == OldestLease(s, k, n)
        invariant Valid() && View() == s && Repr == old(Repr)
        decreases size - n
      {
        var a := PoolAt(db, poolNext, n);
        var free := IpUsable(k, a, id);
        if free {
          SetPool(if a < PoolLast(db) then a + 1 else PoolFirst(db), false);
          return a;
        }
        var idle, l := IpReclaimable(k, a);
        ReclaimableLease(View(), k, a);
        if idle && (oldest < 0 || leases[l].since < leases[oldest].since) {
          oldest := l;
        }
        n := n + 1;
      }
      if oldest >= 0 {
        return leases[oldest].ip;
      }
      SetPool(0, true);
      return 0;
    }

    /** The start of server_build_config: a new entry takes the address
        leased to its ID, or the one it asks for. */
    method TakeOldAddress(k: nat, id: string, hint: Option<nat>)
      requires Valid() && k < |clients|
      modifies Repr
      ensures Valid() && fresh(Repr - old(Repr))
      ensures View() == old(View()).(clients := old(clients)[k := WithOldAddress(old(View()), k, id, hint)])
    {
      hide Valid;
      hide Usable;
      assert clients[k := clients[k]] == clients;
      if clients[k].ip != 0 {
        return;
      }
      var l := LeaseById(id);
      var leased := false;
      if l >= 0 {
        leased := IpUsable(k, leases[l].ip, id);
      }
      if leased {
        SetIp(k, leases[l].ip);
      } else if hint.Some? {
        var wanted := IpUsable(k, hint.value, id);
        if wanted {
          SetIp(k, hint.value);
        }
      }
    }

    /** The middle of server_build_config: which address to give. */
    method ChooseAddress(k: nat, id: string) returns (ip: nat)
      requires Valid() && k < |clients|
      modifies this
      ensures Valid() && Repr == old(Repr)
      ensures (View(), ip) == ChooseIp(old(View()), k, id)
    {
      hide Valid;
      hide Usable;
      hide PoolTake;
      var c := clients[k];
      var given := if c.pending != 0 then c.pending else c.ip;
      if given != 0 {
        var keep := IpUsable(k, given, id);
        if keep {
          return given;
        }
      }
      if given != c.ip && c.ip != 0 {
        var keep := IpUsable(k, c.ip, id);
        if keep {
          return c.ip;
        }
      }
      if Holding(View()) {
        return 0;
      }
      ip := TakeFromPool(k, c.id);
    }

    /** server_build_config; `tooLong`: the message does not fit. */
    method BuildAutoConfig(k: nat, id: string, hint: Option<nat>, tooLong: bool) returns (cfg: Option<nat>)
      requires Valid() && k < |clients|
      modifies Repr
      ensures Valid() && fresh(Repr - old(Repr))
      ensures (View(), cfg) == BuildConfig(old(View()), k, id, hint, tooLong)
    {
      hide Valid;
      hide ChooseIp;
      hide WithOldAddress;
      hide AssignIp;
      hide Merged;
      var p := Merged(db, id);
      if p.cidr != NoCidr && p.gateway {
        return if tooLong then None else Some(CidrIp(p.cidr));
      }
      if id == "" {
        return None;
      }
      TakeOldAddress(k, id, hint);
      var ip := ChooseAddress(k, id);
      if ip == 0 {
        return None;
      }
      AssignAddress(k, ip);
      return if tooLong then None else Some(ip);
    }

    /* ---- handshakes ---- */

    /** server_new_index */
    method DrawIndex(k: nat, rand: seq<nat>) returns (idx: nat)
      requires Valid() && k < |clients|
      requires |rand| == 16 && forall j | 0 <= j < 16 :: rand[j] < ServerTable.U32
      ensures idx == NewIndex(clients[k], k, rand, 0)
    {
      var c := clients[k];
      var tries := 0;
      while tries < 16
        invariant 0 <= tries <= 16
        invariant NewIndex(c, k, rand, 0) == NewIndex(c, k, rand, tries)
      {
        if rand[tries] == 0 {
          return 0;
        }
        idx := rand[tries] / 0x1_0000 * 0x1_0000 + k + 1;
        if !(HasIndex(c.cur, idx) || HasIndex(c.next, idx) || HasIndex(c.prev, idx)) {
          return;
        }
        tries := tries + 1;
      }
      return 0;
    }

    /** The entry of an auto handshake. */
    method AutoEntryFor(q: Init, memory: Memory) returns (k: int, taken: bool)
      requires Valid()
      modifies Repr
      ensures Valid() && fresh(Repr - old(Repr))
      ensures (View(), k, taken) == AutoEntry(old(View()), q, memory)
    {
      hide Valid;
      hide AllocClient;
      hide AdoptTcp;
      if db.denyUnknown && FindProfile(db, q.id) == None {
        return -1, false;
      }
      k := FindId(q.id);
      if k >= 0 {
        Adopt(k, q.fd);
        return k, false;
      }
      k := FindAddr(q.from);
      if k >= 0 && clients[k].fd >= 0 {
        return k, false;
      }
      k := Alloc(memory);
      taken := k >= 0;
    }

    /** May a manual client not have its address? */
    method RefusesManual(q: Init, byIp: int, byAddr: int) returns (refused: bool)
      requires Valid() && q.ip.Some?
      requires byIp == FindByIp(clients, q.ip.value) && byAddr == FindByAddr(clients, q.from)
      ensures refused == ManualRefused(View(), q)
    {
      hide Valid;
      var ip := q.ip.value;
      if byIp >= 0 && clients[byIp].ip != ip {
        return true;
      }
      if byIp >= 0 && (clients[byIp].auto
                       || (byIp != byAddr && (!SameId(clients[byIp].id, q.id) || clients[byIp].psk != q.key))) {
        return true;
      }
      var l := LeaseByIp(ip);
      return l >= 0 && !SameId(leases[l].id, q.id) && Young(db, now, leases[l]);
    }

    /** The entry of a manual handshake. */
    method ManualEntryFor(q: Init, memory: Memory) returns (k: int, taken: bool)
      requires Valid()
      modifies Repr
      ensures Valid() && fresh(Repr - old(Repr))
      ensures (View(), k, taken) == ManualEntry(old(View()), q, memory)
    {
      hide Valid;
      hide AllocClient;
      hide AdoptTcp;
      hide ManualRefused;
      hide FindByIp;
      hide FindByAddr;
      if q.ip.None? {
        return -1, false;
      }
      var byIp := FindIp(q.ip.value);
      var byAddr := FindAddr(q.from);
      var refused := RefusesManual(q, byIp, byAddr);
      if refused {
        return -1, false;
      }
      taken := false;
      if byIp >= 0 && (byAddr < 0 || byAddr == byIp || (clients[byAddr].fd >= 0 && !clients[byAddr].registered)) {
        Adopt(byIp, q.fd);
        k := byIp;
      } else if byAddr >= 0 && (q.fd >= 0 || !clients[byAddr].cur.Live?) {
        k := byAddr;
      } else {
        k := Alloc(memory);
        if k < 0 {
          return;
        }
        taken := true;
      }
      SetIp(k, q.ip.value);
    }

    /** A handshake that a live client's latest one, or the holder of the
        client's profile address, stands against. */
    method Refuses(q: Init) returns (refused: bool)
      requires Valid()
      ensures refused == (Stale(View(), q) || ProfileTaken(View(), q))
    {
      hide Valid;
      var owner := -1;
      if q.auto {
        owner := FindId(q.id);
      } else if q.ip.Some? {
        owner := FindIp(q.ip.value);
      }
      if owner >= 0 && clients[owner].cur.Live? && clients[owner].lastData != 0 && clients[owner].psk == q.key
         && now - clients[owner].lastData <= db.clientTimeout && q.ts <= clients[owner].hsTs {
        return true;
      }
      var p := Merged(db, q.id);
      if q.auto && p.cidr.At? {
        var holder := FindIp(p.cidr.ip);
        return holder >= 0 && !SameId(clients[holder].id, q.id);
      }
      return false;
    }

    method TakeIdentity(k: nat, q: Init)
      requires Valid() && k < |clients|
      modifies Repr
      ensures Valid() && fresh(Repr - old(Repr))
      ensures var c := old(clients)[k];
              View() == old(View()).(clients := old(clients)[k := c.(
                addr := if !c.cur.Live? || q.fd >= 0 then q.from else c.addr,
                lastSeen := now, auto := q.auto, id := q.id)])
    {
      hide Valid;
      if !clients[k].cur.Live? || q.fd >= 0 {
        SetAddr(k, q.from);
      }
      PutEntry(k, clients[k].(lastSeen := now, auto := q.auto));
      SetId(k, q.id);
    }

    /** The entry takes the handshake's identity, and its profile's address. */
    method Identify(k: nat, q: Init)
      requires Valid() && k < |clients|
      modifies Repr
      ensures Valid() && fresh(Repr - old(Repr))
      ensures View() == old(View()).(clients := old(clients)[k := Identified(old(View()), old(clients)[k], q)])
    {
      hide Valid;
      TakeIdentity(k, q);
      if q.auto {
        var p := Merged(db, q.id);
        if p.cidr.At? {
          AssignAddress(k, p.cidr.ip);
        }
      } else {
        PutEntry(k, clients[k].(pending := 0));
      }
    }

    /** The `fail:` exit of server_handle_init. */
    method RollBack(k: nat, c0: Client, taken: bool)
      requires Valid() && k < |clients| && clients[k].prev == c0.prev
      modifies Repr
      ensures Valid() && fresh(Repr - old(Repr))
      ensures View() == old(View()).(clients := old(clients)[k := RolledBack(old(clients)[k], c0, taken)])
    {
      hide Valid;
      if taken {
        PutEntry(k, EMPTY);
        return;
      }
      RestoreAddress(k, c0.ip, c0.pending);
      PutEntry(k, clients[k].(next := c0.next, cur := c0.cur, registered := c0.registered, psk := c0.psk));
    }

    /** server_handle_init, once the handshake has its entry. */
    method Respond(k: nat, taken: bool, q: Init, fault: Fault, rand: seq<nat>) returns (r: Outcome)
      requires Valid() && k < |clients|
      requires |rand| == 16 && forall j | 0 <= j < 16 :: rand[j] < ServerTable.U32
      modifies Repr
      ensures Valid() && fresh(Repr - old(Repr))
      ensures (View(), r) == Answer(old(View()), k, taken, q, fault, rand)
    {
      hide Valid;
      hide BuildConfig;
      hide Identified;
      hide NewIndex;
      hide WithSession;
      hide RolledBack;
      var c0 := clients[k];
      ghost var s0 := View();
      Identify(k, q);
      ghost var s1 := View();
      var cfg := Some(0);
      if q.auto {
        cfg := BuildAutoConfig(k, q.id, q.ip, fault == ConfigTooLong);
      }
      ghost var s2 := View();
      ResponseFrame(s0, s1, s2, k, q, fault);
      var idx := 0;
      if cfg.Some? && fault != NoRandom {
        idx := DrawIndex(k, rand);
      }
      if cfg.None? || fault == NoRandom || idx == 0 || fault == NoReply {
        RollBack(k, c0, taken);
        return Failed;
      }
      SessionKeys(View(), clients[k], q, idx, cfg.value);
      PutEntry(k, WithSession(View(), clients[k], q, idx, cfg.value));
      if fault == SendFails {
        ghost var s3 := View();
        RollBack(k, c0, taken);
        UpdatedTwice(s2.clients, k, s3.clients[k], RolledBack(s3.clients[k], c0, taken));
        return Failed;
      }
      if q.auto {
        SettleLeases(q.id, clients[k].ip);
      }
      return Accepted;
    }

    /** server_handle_init, after message 1 was opened: budgets, key trials
        and the REGISTER's permission come before it. */
    method HandleInit(q: Init, fault: Fault, rand: seq<nat>, memory: Memory) returns (r: Outcome)
      requires Valid()
      requires |rand| == 16 && forall j | 0 <= j < 16 :: rand[j] < ServerTable.U32
      modifies Repr
      ensures Valid() && fresh(Repr - old(Repr))
      ensures (View(), r) == Handshake(old(View()), q, fault, rand, memory)
    {
      hide Valid;
      hide Stale;
      hide ProfileTaken;
      hide Answer;
      hide AutoEntry;
      hide ManualEntry;
      var refused := Refuses(q);
      if refused {
        return Rejected;
      }
      var k, taken;
      if q.auto {
        k, taken := AutoEntryFor(q, memory);
      } else {
        k, taken := ManualEntryFor(q, memory);
      }
      if k < 0 {
        return Rejected;
      }
      r := Respond(k, taken, q, fault, rand);
    }

    /** A client that has its address keeps no lease. */
    method SettleLeases(id: string, ip: nat)
      requires Valid()
      modifies this
      ensures Valid() && Repr == old(Repr)
      ensures View() == old(View()).(leases := Settled(old(View()).leases, id, ip))
    {
      hide Valid;
      var own := LeaseById(id);
      LeaseDrop(own);
      var same := LeaseByIp(ip);
      LeaseDrop(same);
    }

    /* ---- data ---- */

    /** server_handle_data */
    method HandleData(d: Data) returns (r: DataResult)
      requires Valid()
      modifies Repr
      ensures Valid() && fresh(Repr - old(Repr))
      ensures View() == AfterData(old(View()), d) && r == DataVerdict(old(View()), d)
    {
      hide Valid;
      hide SlotOf;
      hide SessionOf;
      hide AfterData;
      hide OwnIp;
      var k := SlotOf(View(), d.idx);
      if k < 0 {
        NotOpened(View(), d);
        return Dropped;
      }
      var w := SessionOf(clients[k], d.idx, now);
      if w == Nowhere || (d.fd >= 0 && clients[k].fd != d.fd) || !d.authentic {
        NotOpened(View(), d);
        return Dropped;
      }
      Receive(k, w, d);
      match d.payload
      case Keepalive => return Answered;
      case NotIp => return Ignored;
      case Ip(src, dst) =>
        var own := OwnIp(clients[k], w);
        if own == 0 || src != own {
          return WrongSource;
        }
        if d.isolation {
          var to := FindIp(dst);
          if to >= 0 && to != k {
            return Isolated;
          }
        }
        return Forwarded;
    }

    /** The part of server_handle_data that an authentic packet changes. */
    method Receive(k: nat, w: Which, d: Data)
      requires Valid() && Opens(View(), d)
      requires k == SlotOf(View(), d.idx) && w == SessionOf(clients[k], d.idx, now)
      modifies Repr
      ensures Valid() && fresh(Repr - old(Repr))
      ensures View() == AfterData(old(View()), d)
    {
      hide Valid;
      hide SlotOf;
      hide SessionOf;
      hide Promoted;
      assert clients[k := clients[k]] == clients;
      if w == InNext {
        Promote(k);
      }
      if d.fd < 0 && clients[k].addr != d.from {
        SetAddr(k, d.from);
      }
      PutEntry(k, clients[k].(lastSeen := now, lastData := now));
    }

    /** The first packet on the new session. */
    method Promote(k: nat)
      requires Valid() && k < |clients|
      modifies Repr
      ensures Valid() && fresh(Repr - old(Repr))
      ensures var c := old(clients)[k];
              View() == old(View()).(
                clients := old(clients)[k := Promoted(c, now)],
                leases := if c.pending != 0
                          then Drop(old(View()).leases, ByIp(old(leases), Promoted(c, now).ip))
                          else old(View()).leases)
    {
      hide Valid;
      var c := clients[k];
      PutEntry(k, c.(prev := c.cur, prevUntil := now + PREV_SESSION_GRACE, prevIp := c.ip,
                     cur := c.next, next := Wiped));
      if c.pending != 0 {
        PutAddresses(k, clients[k].(ip := c.pending, pending := 0), c.pending);
        var l := LeaseByIp(clients[k].ip);
        LeaseDrop(l);
      }
    }

    /* ---- expiry and reload ---- */

    /** server_expire_clients */
    method Expire(memory: Memory)
      requires Valid()
      modifies Repr
      ensures Valid() && fresh(Repr - old(Repr))
      ensures View() == Whole(old(View()), Expiry, memory)
    {
      hide Valid;
      hide EndClient;
      hide SessionsExpired;
      var i := 0;
      while i < |clients|
        invariant Valid() && fresh(Repr - old(Repr))
        invariant 0 <= i <= |clients| == |old(clients)|
        invariant View() == Visited(old(View()), i, Expiry, memory)
      {
        if clients[i].active {
          var c := clients[i];
          ExpiredKeys(c, now);
          PutEntry(i, SessionsExpired(c, now));
          if TimedOut(View(), c) {
            End(i, memory);
          }
        }
        i := i + 1;
      }
    }

    /** server_revalidate_keys */
    method RevalidateKeys(allowed: nat -> bool, memory: Memory)
      requires Valid()
      modifies Repr
      ensures Valid() && fresh(Repr - old(Repr))
      ensures View() == Whole(old(View()), Pass.Keys(allowed), memory)
    {
      hide Valid;
      hide EndClient;
      var i := 0;
      while i < |clients|
        invariant Valid() && fresh(Repr - old(Repr))
        invariant 0 <= i <= |clients| == |old(clients)|
        invariant View() == Visited(old(View()), i, Pass.Keys(allowed), memory)
      {
        if clients[i].active && clients[i].registered && !allowed(i) {
          End(i, memory);
        }
        i := i + 1;
      }
    }

    /** server_revalidate_unknown_clients */
    method RevalidateUnknown(memory: Memory)
      requires Valid()
      modifies Repr
      ensures Valid() && fresh(Repr - old(Repr))
      ensures View() == Whole(old(View()), UnknownIds, memory)
    {
      hide Valid;
      hide EndClient;
      if !db.denyUnknown {
        NoUnknownPass(View(), |clients|, memory);
        return;
      }
      var i := 0;
      while i < |clients|
        invariant Valid() && fresh(Repr - old(Repr))
        invariant 0 <= i <= |clients| == |old(clients)|
        invariant View() == Visited(old(View()), i, UnknownIds, memory) && db.denyUnknown
      {
        if clients[i].active && clients[i].auto && FindProfile(db, clients[i].id) == None {
          End(i, memory);
        }
        i := i + 1;
      }
    }

    /** server_revalidate_profile_addresses */
    method RevalidateProfileAddresses(memory: Memory)
      requires Valid()
      modifies Repr
      ensures Valid() && fresh(Repr - old(Repr))
      ensures View() == Whole(old(View()), ProfileAddresses, memory)
    {
      hide Valid;
      hide OfferChecked;
      hide AddressLost;
      var i := 0;
      while i < |clients|
        invariant Valid() && Repr == old(Repr)
        invariant 0 <= i <= |clients| == |old(clients)|
        invariant View() == Visited(old(View()), i, ProfileAddresses, memory)
      {
        var c := clients[i];
        if c.active && c.registered {
          OfferKeys(View(), c);
          var lost := AddressLost(View(), c);
          PutEntry(i, OfferChecked(View(), c));
          if lost {
            DropEntry(i);
          }
        }
        i := i + 1;
      }
    }

    method SetDb(db: Db)
      requires Valid() && PoolOk(db)
      modifies this
      ensures Valid() && Repr == old(Repr) && View() == old(View()).(db := db)
    {
      hide ClientIndex.Valid;
      hide LeaseIndex.Valid;
      this.db := db;
    }

    /** A reload that succeeds. */
    method ReloadConfig(db: Db, allowed: nat -> bool, memory: Memory)
      requires Valid() && PoolOk(db)
      modifies Repr
      ensures Valid() && fresh(Repr - old(Repr))
      ensures View() == Reload(old(View()), db, allowed, memory)
    {
      hide Valid;
      hide Whole;
      SetDb(db);
      RevalidateKeys(allowed, memory);
      RevalidateUnknown(memory);
      RevalidateProfileAddresses(memory);
    }

    /* ---- TCP connections ---- */

    /** A new TCP connection (drain of the listening socket in camex.c). */
    method Connect(fd: int, peer: Addr)
      requires Valid()
      modifies Repr
      ensures Valid() && fresh(Repr - old(Repr))
      ensures View() == Connected(old(View()), fd, peer)
    {
      hide Valid;
      var all, same, oldest := 0, 0, -1;
      var i := 0;
      while i < |clients|
        invariant 0 <= i <= |clients|
        invariant (all, same, oldest) == CountPreAuth(View(), peer.ip, i)
      {
        var c := clients[i];
        if PreAuth(c) {
          all := all + 1;
          if c.addr.ip == peer.ip {
            same := same + 1;
          }
          if now - c.connectedAt >= PREAUTH_GRACE
             && (oldest < 0 || c.connectedAt < clients[oldest].connectedAt) {
            oldest := i;
          }
        }
        i := i + 1;
      }
      var full := all >= PreAuthLimit(|clients|);
      if same >= PREAUTH_PER_IP || (full && oldest < 0) {
        return;
      }
      if full {
        PutEntry(oldest, EMPTY.(fd := 0));
      }
      FillSlot(fd, peer);
    }

    /** The connection gets the first free slot, if there is one. */
    method FillSlot(fd: int, peer: Addr)
      requires Valid()
      modifies Repr
      ensures Valid() && fresh(Repr - old(Repr))
      ensures var k := FreeSlot(old(clients), 0, 0);
              View() == if k < 0 then old(View())
                        else old(View()).(clients := old(clients)[k := EMPTY.(
                               fd := fd, lastSeen := now, connectedAt := now, active := true, addr := peer)])
    {
      hide Valid;
      var i := 0;
      while i < |clients|
        invariant 0 <= i <= |clients|
        invariant FreeSlot(clients, 0, 0) == FreeSlot(clients, 0, i)
        invariant Valid() && View() == old(View()) && Repr == old(Repr)
      {
        if !clients[i].active {
          PutEntry(i, EMPTY.(fd := fd, lastSeen := now, connectedAt := now, active := true));
          SetAddr(i, peer);
          return;
        }
        i := i + 1;
      }
    }

    /** A TCP connection that closed. */
    method Close(fd: int, memory: Memory)
      requires Valid()
      modifies Repr
      ensures Valid() && fresh(Repr - old(Repr))
      ensures View() == Closed(old(View()), fd, memory)
    {
      hide Valid;
      hide EndClient;
      var i := 0;
      while i < |clients|
        invariant 0 <= i <= |clients|
        invariant FirstWithFd(clients, fd, 0) == FirstWithFd(clients, fd, i)
        invariant Valid() && View() == old(View()) && Repr == old(Repr)
      {
        if clients[i].active && clients[i].fd == fd {
          End(i, memory);
          return;
        }
        i := i + 1;
      }
    }

    method Tick(seconds: nat)
      requires Valid()
      modifies this
      ensures Valid() && Repr == old(Repr) && View() == old(View()).(now := old(now) + seconds)
    {
      hide ClientIndex.Valid;
      hide LeaseIndex.Valid;
      now := now + seconds;
    }

    /** Any run of the server is the run over linear scans. */
    method Serve(es: seq<Event>)
      requires Valid() && forall i | 0 <= i < |es| :: EventOk(es[i])
      modifies Repr
      ensures Valid() && fresh(Repr - old(Repr))
      ensures View() == Run(old(View()), es)
    {
      hide Valid;
      var i := 0;
      while i < |es|
        invariant 0 <= i <= |es|
        invariant Valid() && fresh(Repr - old(Repr))
        invariant View() == Run(old(View()), es[..i])
      {
        ghost var s := View();
        match es[i] {
          case Tick(seconds) => Tick(seconds);
          case Connect(fd, peer) => Connect(fd, peer);
          case Close(fd, memory) => Close(fd, memory);
          case Shake(q, fault, rand, memory) => var _ := HandleInit(q, fault, rand, memory);
          case Packet(d) => var _ := HandleData(d);
          case Expire(memory) => Expire(memory);
          case Configure(db, allowed, memory) => ReloadConfig(db, allowed, memory);
        }
        assert View() == Step(s, es[i]);
        assert es[..i + 1][..i] == es[..i];
        i := i + 1;
      }
      assert es[..|es|] == es;
    }
  }

  lemma UpdatedTwice<T>(s: seq<T>, k: nat, a: T, b: T)
    requires k < |s|
    ensures s[k := a][k := b] == s[k := b]
  {
  }

  lemma NotOpened(s: State, d: Data)
    requires Shape(s) && !Opens(s, d)
    ensures AfterData(s, d) == s
  {
  }

  /** What a handshake did to its entry before the response. */
  lemma ResponseFrame(s0: State, s1: State, s2: State, k: nat, q: Init, fault: Fault)
    requires Shape(s0) && k < |s0.clients|
    requires s1 == s0.(clients := s0.clients[k := Identified(s0, s0.clients[k], q)])
    requires s2 == if q.auto then BuildConfig(s1, k, q.id, q.ip, fault == ConfigTooLong).0 else s1
    ensures |s2.clients| == |s0.clients| && s2.clients[k].prev == s0.clients[k].prev
  {
    hide BuildConfig;
    hide Identified;
    ServerRotation.IdentifiedSessions(s0, s0.clients[k], q);
    ServerRotation.BuildConfigFrame(s1, k, q.id, q.ip, fault == ConfigTooLong);
  }

  lemma ExpiredKeys(c: Client, now: nat)
    ensures FewerKeys(SessionsExpired(c, now), c)
  {
  }

  lemma SessionKeys(s: State, c: Client, q: Init, idx: nat, cfg: nat)
    ensures FewerKeys(WithSession(s, c, q, idx, cfg), c) && WithSession(s, c, q, idx, cfg).prev == c.prev
  {
  }

  lemma OfferKeys(s: State, c: Client)
    ensures FewerKeys(OfferChecked(s, c), c)
  {
  }

  lemma {:induction false} NoUnknownPass(s: State, n: nat, memory: Memory)
    requires Shape(s) && n <= |s.clients| && !s.db.denyUnknown
    ensures Visited(s, n, UnknownIds, memory) == s
  {
    if n > 0 {
      NoUnknownPass(s, n - 1, memory);
    }
  }
}
