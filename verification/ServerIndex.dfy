/** The hash indexes over the client table and the leases (server.c): every
    lookup through them is the linear scan, whatever buckets went stale and
    whichever allocation failed. The three hash functions are parameters. */
module ServerIndex {
  import SlotIdx
  import opened ServerTable
  import opened ServerLeases

  /** Any hash functions; IDs are hashed without regard to case. */
  datatype Hashes = Hashes(ip: nat -> nat, id: string -> nat, addr: Addr -> nat)

  predicate AddrSet(a: Addr) { a.ip != 0 || a.port != 0 }

  /** What the indexes hold, as sets of (hash, slot) pairs. */
  datatype Keys = Keys(ok: bool, ip: set<(nat, nat)>, id: set<(nat, nat)>, addr: set<(nat, nat)>)

  /** Every key of the active entry is indexed. */
  ghost predicate Covers(x: Keys, h: Hashes, c: Client, k: nat) {
    && (c.ip != 0 ==> (h.ip(c.ip), k) in x.ip)
    && (c.pending != 0 ==> (h.ip(c.pending), k) in x.ip)
    && (c.prev.Live? && c.prevIp != 0 ==> (h.ip(c.prevIp), k) in x.ip)
    && (c.id != "" ==> (h.id(Fold(c.id)), k) in x.id)
    && (AddrSet(c.addr) ==> (h.addr(c.addr), k) in x.addr)
  }

  ghost predicate Sound(x: Keys, h: Hashes, cs: seq<Client>) {
    x.ok ==> forall k | 0 <= k < |cs| && cs[k].active :: Covers(x, h, cs[k], k)
  }

  predicate MoreKeys(x: Keys, y: Keys) {
    y.ip <= x.ip && y.id <= x.id && y.addr <= x.addr
  }

  lemma MoreKeysCover(x: Keys, y: Keys, h: Hashes, cs: seq<Client>)
    requires MoreKeys(x, y)
    ensures forall k | 0 <= k < |cs| :: Covers(y, h, cs[k], k) ==> Covers(x, h, cs[k], k)
  {
  }

  /** The keys of `c` are keys of `d`, which may have more. */
  predicate FewerKeys(c: Client, d: Client) {
    c.active ==>
      && d.active
      && (c.ip == 0 || c.ip == d.ip || c.ip == d.pending)
      && (c.pending == 0 || c.pending == d.pending)
      && (!c.prev.Live? || c.prevIp == 0 || c.prevIp == d.ip || (d.prev.Live? && c.prevIp == d.prevIp))
      && (c.id == "" || c.id == d.id)
      && (!AddrSet(c.addr) || c.addr == d.addr)
  }

  /** An entry changed without a new key keeps the indexes sound. */
  lemma FewerKeysSound(x: Keys, h: Hashes, cs: seq<Client>, k: nat, c: Client)
    requires Sound(x, h, cs) && k < |cs| && (FewerKeys(c, cs[k]) || c == WithoutKeys(c))
    ensures Sound(x, h, cs[k := c])
  {
    if x.ok && cs[k].active {
      assert Covers(x, h, cs[k], k);
    }
  }

  /** `c` without any key. */
  function WithoutKeys(c: Client): Client {
    c.(ip := 0, pending := 0, prev := Wiped, id := "", addr := NO_ADDR)
  }

  /** The lookup by a query: which index, under which hash. */
  function QueryHash(h: Hashes, q: Query): nat {
    match q
    case CurrentIp(ip) => h.ip(ip)
    case AnyIp(ip) => h.ip(ip)
    case Id(id) => h.id(Fold(id))
    case Peer(addr) => h.addr(addr)
  }

  function QueryPairs(x: Keys, q: Query): set<(nat, nat)> {
    match q
    case CurrentIp(_) => x.ip
    case AnyIp(_) => x.ip
    case Id(_) => x.id
    case Peer(_) => x.addr
  }

  /** A query an index can answer: not the unset address or the empty ID. */
  predicate Indexable(q: Query) {
    match q
    case Id(id) => id != ""
    case Peer(addr) => AddrSet(addr)
    case _ => true
  }

  /** The least slot the index gives is the first the scan finds. */
  lemma IndexIsScan(x: Keys, h: Hashes, cs: seq<Client>, q: Query, best: int, accepts: nat -> bool)
    requires Sound(x, h, cs) && x.ok && Indexable(q)
    requires forall k: nat :: accepts(k) == (k < |cs| && Matches(cs[k], q))
    requires SlotIdx.LeastMatch(best, QueryPairs(x, q), QueryHash(h, q), accepts)
    ensures best == Scan(cs, q)
  {
    forall k | 0 <= k < |cs| && Matches(cs[k], q)
      ensures (QueryHash(h, q), k) in QueryPairs(x, q)
    {
      assert Covers(x, h, cs[k], k);
      if q.Id? {
        assert |Fold(cs[k].id)| == |cs[k].id| && |Fold(q.id)| == |q.id|;
      }
    }
    ScanUnique(cs, q, best);
  }

  class ClientIndex {
    const hashes: Hashes
    const ip: SlotIdx.Index
    const id: SlotIdx.Index
    const addr: SlotIdx.Index
    var ok: bool
    ghost var Repr: set<object>

    ghost predicate Valid()
      reads this, Repr
      ensures Valid() ==> this in Repr
    {
      && this in Repr && ip in Repr && id in Repr && addr in Repr
      && ip.Repr() <= Repr && id.Repr() <= Repr && addr.Repr() <= Repr
      && ip.Repr() !! id.Repr() && ip.Repr() !! addr.Repr() && id.Repr() !! addr.Repr()
      && this !in ip.Repr() && this !in id.Repr() && this !in addr.Repr()
      && ip.Valid() && id.Valid() && addr.Valid()
    }

    ghost function View(): Keys
      requires Valid()
      reads this, Repr
    {
      Keys(ok, ip.Pairs(), id.Pairs(), addr.Pairs())
    }

    ghost predicate SoundFor(cs: seq<Client>)
      requires Valid()
      reads this, Repr
    {
      Sound(View(), hashes, cs)
    }

    constructor (hashes: Hashes)
      ensures Valid() && fresh(Repr) && this.hashes == hashes && !ok
    {
      hide SlotIdx.Index.Valid;
      hide SlotIdx.Index.Pairs;
      this.hashes := hashes;
      ip := new SlotIdx.Index();
      id := new SlotIdx.Index();
      addr := new SlotIdx.Index();
      ok := false;
      new;
      Repr := {this} + ip.Repr() + id.Repr() + addr.Repr();
    }

    method PutIp(h: nat, k: nat) returns (done: bool)
      requires Valid()
      modifies Repr
      ensures Valid() && fresh(Repr - old(Repr)) && ok == old(ok)
      ensures View() == old(View()).(ip := if done then old(View()).ip + {(h, k)} else old(View()).ip)
    {
      hide SlotIdx.Index.Valid;
      hide SlotIdx.Index.Pairs;
      done := ip.Insert(h, k);
      Repr := Repr + ip.Repr();
    }

    method PutId(h: nat, k: nat) returns (done: bool)
      requires Valid()
      modifies Repr
      ensures Valid() && fresh(Repr - old(Repr)) && ok == old(ok)
      ensures View() == old(View()).(id := if done then old(View()).id + {(h, k)} else old(View()).id)
    {
      hide SlotIdx.Index.Valid;
      hide SlotIdx.Index.Pairs;
      done := id.Insert(h, k);
      Repr := Repr + id.Repr();
    }

    method PutAddr(h: nat, k: nat) returns (done: bool)
      requires Valid()
      modifies Repr
      ensures Valid() && fresh(Repr - old(Repr)) && ok == old(ok)
      ensures View() == old(View()).(addr := if done then old(View()).addr + {(h, k)} else old(View()).addr)
    {
      hide SlotIdx.Index.Valid;
      hide SlotIdx.Index.Pairs;
      done := addr.Insert(h, k);
      Repr := Repr + addr.Repr();
    }

    /** The entry's tunnel addresses go in, as far as there is memory. */
    method AddAddresses(c: Client, k: nat) returns (done: bool)
      requires Valid()
      modifies Repr
      ensures Valid() && fresh(Repr - old(Repr)) && ok == old(ok)
      ensures MoreKeys(View(), old(View()))
      ensures done ==> Covers(View(), hashes, c.(id := "", addr := NO_ADDR), k)
    {
      hide SlotIdx.Index.Valid;
      hide SlotIdx.Index.Pairs;
      hide Valid;
      done := true;
      if c.ip != 0 {
        done := PutIp(hashes.ip(c.ip), k);
      }
      if done && c.pending != 0 {
        done := PutIp(hashes.ip(c.pending), k);
      }
      if done && c.prev.Live? && c.prevIp != 0 {
        done := PutIp(hashes.ip(c.prevIp), k);
      }
    }

    /** One entry's keys go in, as far as there is memory. */
    method AddAll(c: Client, k: nat) returns (done: bool)
      requires Valid()
      modifies Repr
      ensures Valid() && fresh(Repr - old(Repr)) && ok == old(ok)
      ensures MoreKeys(View(), old(View()))
      ensures done ==> Covers(View(), hashes, c, k)
    {
      hide Valid;
      hide SlotIdx.Index.Valid;
      hide SlotIdx.Index.Pairs;
      done := AddAddresses(c, k);
      if done && c.id != "" {
        done := PutId(hashes.id(Fold(c.id)), k);
      }
      if done && AddrSet(c.addr) {
        done := PutAddr(hashes.addr(c.addr), k);
      }
    }

    method CrowdedIp(live: nat) returns (r: bool)
      requires Valid()
      ensures r <==> |View().ip| > live * 2 + SlotIdx.MIN_BUCKETS
    {
      r := ip.Crowded(live);
    }

    method CrowdedId(live: nat) returns (r: bool)
      requires Valid()
      ensures r <==> |View().id| > live * 2 + SlotIdx.MIN_BUCKETS
    {
      r := id.Crowded(live);
    }

    method CrowdedAddr(live: nat) returns (r: bool)
      requires Valid()
      ensures r <==> |View().addr| > live * 2 + SlotIdx.MIN_BUCKETS
    {
      r := addr.Crowded(live);
    }

    method ResetIp(entries: nat) returns (done: bool)
      requires Valid()
      modifies Repr
      ensures Valid() && fresh(Repr - old(Repr))
    {
      hide SlotIdx.Index.Valid;
      hide SlotIdx.Index.Pairs;
      done := ip.Reset(entries);
      Repr := Repr + ip.Repr();
    }

    method ResetId(entries: nat) returns (done: bool)
      requires Valid()
      modifies Repr
      ensures Valid() && fresh(Repr - old(Repr))
    {
      hide SlotIdx.Index.Valid;
      hide SlotIdx.Index.Pairs;
      done := id.Reset(entries);
      Repr := Repr + id.Repr();
    }

    method ResetAddr(entries: nat) returns (done: bool)
      requires Valid()
      modifies Repr
      ensures Valid() && fresh(Repr - old(Repr))
    {
      hide SlotIdx.Index.Valid;
      hide SlotIdx.Index.Pairs;
      done := addr.Reset(entries);
      Repr := Repr + addr.Repr();
    }

    method SetOk(b: bool)
      requires Valid()
      modifies Repr
      ensures Valid() && Repr == old(Repr) && View() == old(View()).(ok := b)
    {
      hide SlotIdx.Index.Valid;
      hide SlotIdx.Index.Pairs;
      ok := b;
    }

    /** server_index_rebuild */
    method Rebuild(cs: seq<Client>)
      requires Valid()
      modifies Repr
      ensures Valid() && fresh(Repr - old(Repr)) && SoundFor(cs)
    {
      hide Valid;
      hide SlotIdx.Index.Valid;
      hide SlotIdx.Index.Pairs;
      hide Covers;
      var done := ResetIp(|cs|);
      if done {
        done := ResetId(|cs|);
      }
      if done {
        done := ResetAddr(|cs|);
      }
      SetOk(done);
      var i := 0;
      while ok && i < |cs|
        invariant 0 <= i <= |cs|
        invariant Valid() && fresh(Repr - old(Repr))
        invariant ok ==> forall k | 0 <= k < i && cs[k].active :: Covers(View(), hashes, cs[k], k)
        decreases |cs| - i, ok
      {
        if cs[i].active {
          ghost var before := View();
          done := AddAll(cs[i], i);
          MoreKeysCover(View(), before, hashes, cs);
          if !done {
            SetOk(false);
          }
        }
        i := i + 1;
      }
    }

    /** server_index_add for an address: entry `k` has it already. */
    method AddIp(cs: seq<Client>, key: nat, k: nat)
      requires Valid() && k < |cs|
      requires Sound(View().(ip := View().ip + {(hashes.ip(key), k)}), hashes, cs)
      modifies Repr
      ensures Valid() && fresh(Repr - old(Repr)) && SoundFor(cs)
    {
      hide SlotIdx.Index.Valid;
      hide SlotIdx.Index.Pairs;
      if !ok {
        return;
      }
      /* up to three keys a client: current, pending and previous */
      var crowded := CrowdedIp(|cs| * 3);
      var done := false;
      if !crowded {
        done := PutIp(hashes.ip(key), k);
      }
      if !done {
        Rebuild(cs);
      }
    }

    method AddId(cs: seq<Client>, key: string, k: nat)
      requires Valid() && k < |cs|
      requires Sound(View().(id := View().id + {(hashes.id(Fold(key)), k)}), hashes, cs)
      modifies Repr
      ensures Valid() && fresh(Repr - old(Repr)) && SoundFor(cs)
    {
      hide SlotIdx.Index.Valid;
      hide SlotIdx.Index.Pairs;
      if !ok {
        return;
      }
      var crowded := CrowdedId(|cs|);
      var done := false;
      if !crowded {
        done := PutId(hashes.id(Fold(key)), k);
      }
      if !done {
        Rebuild(cs);
      }
    }

    method AddAddr(cs: seq<Client>, key: Addr, k: nat)
      requires Valid() && k < |cs|
      requires Sound(View().(addr := View().addr + {(hashes.addr(key), k)}), hashes, cs)
      modifies Repr
      ensures Valid() && fresh(Repr - old(Repr)) && SoundFor(cs)
    {
      hide SlotIdx.Index.Valid;
      hide SlotIdx.Index.Pairs;
      if !ok {
        return;
      }
      var crowded := CrowdedAddr(|cs|);
      var done := false;
      if !crowded {
        done := PutAddr(hashes.addr(key), k);
      }
      if !done {
        Rebuild(cs);
      }
    }

    /** One lookup: through the index, or by a scan when there is none. */
    method Lookup(cs: seq<Client>, q: Query) returns (k: int)
      requires Valid() && SoundFor(cs)
      ensures k == Scan(cs, q)
    {
      hide SlotIdx.Index.Valid;
      hide SlotIdx.Index.Pairs;
      if ok && Indexable(q) {
        var accepts := (slot: nat) => slot < |cs| && Matches(cs[slot], q);
        var h := QueryHash(hashes, q);
        match q
        case CurrentIp(_) => k := ip.Find(h, accepts);
        case AnyIp(_) => k := ip.Find(h, accepts);
        case Id(_) => k := id.Find(h, accepts);
        case Peer(_) => k := addr.Find(h, accepts);
        IndexIsScan(View(), hashes, cs, q, k, accepts);
        return;
      }
      k := 0;
      while k < |cs|
        invariant 0 <= k <= |cs|
        invariant forall j | 0 <= j < k :: !Matches(cs[j], q)
      {
        if Matches(cs[k], q) {
          ScanUnique(cs, q, k);
          return;
        }
        k := k + 1;
      }
      k := -1;
      ScanUnique(cs, q, k);
    }

    /** server_find_by_ip */
    method FindIp(cs: seq<Client>, key: nat) returns (k: int)
      requires Valid() && SoundFor(cs)
      ensures k == FindByIp(cs, key)
    {
      k := Lookup(cs, CurrentIp(key));
      if k < 0 {
        k := Lookup(cs, AnyIp(key));
      }
    }

    /** server_find_by_client_id */
    method FindId(cs: seq<Client>, key: string) returns (k: int)
      requires Valid() && SoundFor(cs)
      ensures k == FindById(cs, key)
    {
      if key == "" {
        return -1;
      }
      k := Lookup(cs, Id(key));
    }

    /** server_find_by_addr */
    method FindAddr(cs: seq<Client>, key: Addr) returns (k: int)
      requires Valid() && SoundFor(cs)
      ensures k == FindByAddr(cs, key)
    {
      k := Lookup(cs, Peer(key));
    }
  }

  /* ---- leases ---- */

  datatype LeaseKeys = LeaseKeys(ok: bool, ip: set<(nat, nat)>, id: set<(nat, nat)>)

  ghost predicate LeaseCovers(x: LeaseKeys, h: Hashes, l: Lease, k: nat) {
    l.ip != 0 ==> (h.ip(l.ip), k) in x.ip && (h.id(Fold(l.id)), k) in x.id
  }

  ghost predicate LeasesSound(x: LeaseKeys, h: Hashes, ls: seq<Lease>) {
    x.ok ==> forall k | 0 <= k < |ls| :: LeaseCovers(x, h, ls[k], k)
  }

  predicate MoreLeaseKeys(x: LeaseKeys, y: LeaseKeys) {
    y.ip <= x.ip && y.id <= x.id
  }

  lemma MoreLeaseKeysCover(x: LeaseKeys, y: LeaseKeys, h: Hashes, ls: seq<Lease>)
    requires MoreLeaseKeys(x, y)
    ensures forall k | 0 <= k < |ls| :: LeaseCovers(y, h, ls[k], k) ==> LeaseCovers(x, h, ls[k], k)
  {
  }

  lemma LeaseIndexIsScan(x: LeaseKeys, h: Hashes, ls: seq<Lease>, q: LeaseQuery, best: int, accepts: nat -> bool)
    requires LeasesSound(x, h, ls) && x.ok
    requires forall k: nat :: accepts(k) == (k < |ls| && LeaseMatches(ls[k], q))
    requires SlotIdx.LeastMatch(best, if q.LeaseOfIp? then x.ip else x.id,
                                if q.LeaseOfIp? then h.ip(q.ip) else h.id(Fold(q.id)), accepts)
    ensures best == ScanLeases(ls, q, 0)
  {
    forall k | 0 <= k < |ls| && LeaseMatches(ls[k], q)
      ensures LeaseCovers(x, h, ls[k], k)
    {
    }
    LeaseScanUnique(ls, q, best);
  }

  class LeaseIndex {
    const hashes: Hashes
    const ip: SlotIdx.Index
    const id: SlotIdx.Index
    var ok: bool
    ghost var Repr: set<object>

    ghost predicate Valid()
      reads this, Repr
      ensures Valid() ==> this in Repr
    {
      && this in Repr && ip in Repr && id in Repr
      && ip.Repr() <= Repr && id.Repr() <= Repr && ip.Repr() !! id.Repr()
      && this !in ip.Repr() && this !in id.Repr()
      && ip.Valid() && id.Valid()
    }

    ghost function View(): LeaseKeys
      requires Valid()
      reads this, Repr
    {
      LeaseKeys(ok, ip.Pairs(), id.Pairs())
    }

    ghost predicate SoundFor(ls: seq<Lease>)
      requires Valid()
      reads this, Repr
    {
      LeasesSound(View(), hashes, ls)
    }

    constructor (hashes: Hashes)
      ensures Valid() && fresh(Repr) && this.hashes == hashes && !ok
    {
      hide SlotIdx.Index.Valid;
      hide SlotIdx.Index.Pairs;
      this.hashes := hashes;
      ip := new SlotIdx.Index();
      id := new SlotIdx.Index();
      ok := false;
      new;
      Repr := {this} + ip.Repr() + id.Repr();
    }

    method PutIp(h: nat, k: nat) returns (done: bool)
      requires Valid()
      modifies Repr
      ensures Valid() && fresh(Repr - old(Repr)) && ok == old(ok)
      ensures View() == old(View()).(ip := if done then old(View()).ip + {(h, k)} else old(View()).ip)
    {
      hide SlotIdx.Index.Valid;
      hide SlotIdx.Index.Pairs;
      done := ip.Insert(h, k);
      Repr := Repr + ip.Repr();
    }

    method PutId(h: nat, k: nat) returns (done: bool)
      requires Valid()
      modifies Repr
      ensures Valid() && fresh(Repr - old(Repr)) && ok == old(ok)
      ensures View() == old(View()).(id := if done then old(View()).id + {(h, k)} else old(View()).id)
    {
      hide SlotIdx.Index.Valid;
      hide SlotIdx.Index.Pairs;
      done := id.Insert(h, k);
      Repr := Repr + id.Repr();
    }

    method ResetAll(entries: nat) returns (done: bool)
      requires Valid()
      modifies Repr
      ensures Valid() && fresh(Repr - old(Repr)) && ok == old(ok)
    {
      hide SlotIdx.Index.Valid;
      hide SlotIdx.Index.Pairs;
      done := ip.Reset(entries);
      Repr := Repr + ip.Repr();
      if done {
        done := id.Reset(entries);
        Repr := Repr + id.Repr();
      }
    }

    /** Both keys of a lease; false when there is no memory. */
    method AddBoth(l: Lease, k: nat) returns (done: bool)
      requires Valid()
      modifies Repr
      ensures Valid() && fresh(Repr - old(Repr)) && ok == old(ok)
      ensures MoreLeaseKeys(View(), old(View()))
      ensures done ==> LeaseCovers(View(), hashes, l, k)
    {
      hide SlotIdx.Index.Valid;
      hide SlotIdx.Index.Pairs;
      done := PutIp(hashes.ip(l.ip), k);
      if done {
        done := PutId(hashes.id(Fold(l.id)), k);
      }
    }

    method SetOk(b: bool)
      requires Valid()
      modifies Repr
      ensures Valid() && Repr == old(Repr) && View() == old(View()).(ok := b)
    {
      hide SlotIdx.Index.Valid;
      hide SlotIdx.Index.Pairs;
      ok := b;
    }

    /** server_lease_index_rebuild */
    method Rebuild(ls: seq<Lease>)
      requires Valid()
      modifies Repr
      ensures Valid() && fresh(Repr - old(Repr)) && SoundFor(ls)
    {
      hide Valid;
      hide SlotIdx.Index.Valid;
      hide SlotIdx.Index.Pairs;
      var done := ResetAll(|ls|);
      SetOk(done);
      var i := 0;
      while ok && i < |ls|
        invariant 0 <= i <= |ls|
        invariant Valid() && fresh(Repr - old(Repr))
        invariant ok ==> forall k | 0 <= k < i :: LeaseCovers(View(), hashes, ls[k], k)
        decreases |ls| - i, ok
      {
        if ls[i].ip != 0 {
          ghost var before := View();
          done := AddBoth(ls[i], i);
          MoreLeaseKeysCover(View(), before, hashes, ls);
          if !done {
            SetOk(false);
          }
        }
        i := i + 1;
      }
    }

    /** The end of server_lease_add: lease `k` of `ls` is new; the others are
        indexed unless the table was moved. */
    method Store(ls: seq<Lease>, k: nat, moved: bool)
      requires Valid() && k < |ls|
      requires !moved && View().ok ==> forall j | 0 <= j < |ls| && j != k :: LeaseCovers(View(), hashes, ls[j], j)
      modifies Repr
      ensures Valid() && fresh(Repr - old(Repr)) && SoundFor(ls)
    {
      hide SlotIdx.Index.Valid;
      hide SlotIdx.Index.Pairs;
      hide LeaseCovers;
      if moved {
        ok := false;
      }
      var indexed := false;
      if ok {
        var a := ip.Crowded(|ls|);
        var b := id.Crowded(|ls|);
        if !a && !b {
          ghost var before := View();
          indexed := AddBoth(ls[k], k);
          MoreLeaseKeysCover(View(), before, hashes, ls);
        }
      }
      if !indexed {
        Rebuild(ls);
      }
    }

    method Lookup(ls: seq<Lease>, q: LeaseQuery) returns (k: int)
      requires Valid() && SoundFor(ls)
      ensures k == ScanLeases(ls, q, 0)
    {
      hide SlotIdx.Index.Valid;
      hide SlotIdx.Index.Pairs;
      if ok {
        var accepts := (slot: nat) => slot < |ls| && LeaseMatches(ls[slot], q);
        if q.LeaseOfIp? {
          k := ip.Find(hashes.ip(q.ip), accepts);
        } else {
          k := id.Find(hashes.id(Fold(q.id)), accepts);
        }
        LeaseIndexIsScan(View(), hashes, ls, q, k, accepts);
        return;
      }
      k := 0;
      while k < |ls|
        invariant 0 <= k <= |ls|
        invariant forall j | 0 <= j < k :: !LeaseMatches(ls[j], q)
      {
        if LeaseMatches(ls[k], q) {
          LeaseScanUnique(ls, q, k);
          return;
        }
        k := k + 1;
      }
      k := -1;
      LeaseScanUnique(ls, q, k);
    }
  }
}
