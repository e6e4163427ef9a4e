/** What each step of the server does to its state (server.c, camex.c), as
    functions over the client table as linear scans see it. The class
    `Server` does the same with loops and hash indexes.

    Results of the outside world are inputs: the AEAD's verdict on a packet,
    random numbers, send failures, and whether there is memory for a larger
    lease table (`memory(slot, prev)`, asked for the lease of that slot's
    current or previous address). */
module ServerSteps {
  import opened Wrappers
  import opened ServerTable
  import opened ServerLeases

  datatype State = State(
    clients: seq<Client>, allocNext: nat,
    leases: Leases,
    poolNext: nat,                                    // 0 = pool start
    fullAt: nat, fullNet: nat, fullPrefix: nat,       // the pool last found full
    db: Db, now: nat, started: nat, hold: nat)

  type Memory = (nat, bool) -> bool

  ghost predicate Shape(s: State) {
    && 0 < |s.clients| <= MAX_CLIENTS
    && s.allocNext < |s.clients|
    && PoolOk(s.db)
    && s.leases.next <= |s.leases.table|
    && s.now > 0
  }

  /* ---- ending an entry, taking a slot ---- */

  /** An address that server_end_client keeps: one of the pool that is not a
      profile's. */
  predicate Leasable(db: Db, ip: nat)
    requires db.poolPrefix <= 30
  {
    PoolHas(db, ip) && ProfileOwner(db, ip) == None
  }

  function LeasesAfterEnd(s: State, k: nat, memory: Memory): (t: Leases)
    requires Shape(s) && k < |s.clients|
    ensures t.next <= |t.table|
  {
    var c := s.clients[k];
    if !(c.active && c.registered && c.auto && c.id != "") then s.leases
    else
      var t := if Leasable(s.db, c.ip) then Add(s.leases, s.db, s.now, c.id, c.ip, false, memory(k, false))
               else s.leases;
      if c.prev.Live? && c.prevIp != c.ip && Leasable(s.db, c.prevIp)
      then Add(t, s.db, s.now, c.id, c.prevIp, true, memory(k, true))
      else t
  }

  /** server_end_client */
  function EndClient(s: State, k: nat, memory: Memory): (s': State)
    requires Shape(s) && k < |s.clients|
    ensures s'.db == s.db && s'.now == s.now
    ensures |s'.clients| == |s.clients|
    ensures Shape(s')
  {
    s.(clients := s.clients[k := EMPTY], leases := LeasesAfterEnd(s, k, memory))
  }

  /** server_pool_holding */
  predicate Holding(s: State) {
    s.started != 0 && s.now - s.started < s.hold
  }

  /** The first free slot from the cursor on, from step `i`; -1 for none. */
  function FreeSlot(cs: seq<Client>, start: nat, i: nat): (k: int)
    requires i <= |cs| && start <= |cs|
    ensures -1 <= k < |cs| && (k >= 0 ==> !cs[k].active)
    ensures k < 0 ==> forall j | i <= j < |cs| :: cs[Ring(start, j, |cs|)].active
    decreases |cs| - i
  {
    if i == |cs| then -1
    else if !cs[Ring(start, i, |cs|)].active then Ring(start, i, |cs|)
    else FreeSlot(cs, start, i + 1)
  }

  /** The entry quiet longest among the first `n`. */
  function Quietest(cs: seq<Client>, n: nat): (k: nat)
    requires 0 < n <= |cs|
    ensures k < n && forall j | 0 <= j < n :: cs[k].lastSeen <= cs[j].lastSeen
  {
    if n == 1 then 0
    else
      var k := Quietest(cs, n - 1);
      if cs[n - 1].lastSeen < cs[k].lastSeen then n - 1 else k
  }

  const TAKEN := EMPTY.(active := true)

  /** server_alloc_client: the state with the slot taken, and the slot, -1
      for none. */
  function AllocClient(s: State, memory: Memory): (r: (State, int))
    requires Shape(s)
    ensures r.0.db == s.db && r.0.now == s.now
    ensures Shape(r.0) && -1 <= r.1 < |r.0.clients| == |s.clients|
  {
    var f := FreeSlot(s.clients, s.allocNext, 0);
    if f >= 0 then
      (s.(clients := s.clients[f := TAKEN], allocNext := if f + 1 < |s.clients| then f + 1 else 0), f)
    else if Holding(s) then (s, -1)
    else
      var k := Quietest(s.clients, |s.clients|);
      var s1 := EndClient(s, k, memory);
      (s1.(clients := s1.clients[k := TAKEN]), k)
  }

  /** server_adopt_tcp, up to slot `n`: other slots of the connection are wiped. */
  function WithoutFd(cs: seq<Client>, k: nat, fd: int, n: nat): (cs': seq<Client>)
    requires n <= |cs|
    ensures |cs'| == |cs|
    ensures forall j | 0 <= j < |cs| ::
              cs'[j] == if j < n && j != k && cs[j].active && cs[j].fd == fd then EMPTY else cs[j]
  {
    if n == 0 then cs
    else
      var cs1 := WithoutFd(cs, k, fd, n - 1);
      if n - 1 != k && cs1[n - 1].active && cs1[n - 1].fd == fd then cs1[n - 1 := EMPTY] else cs1
  }

  function AdoptTcp(cs: seq<Client>, k: nat, fd: int): (cs': seq<Client>)
    requires k < |cs|
    ensures |cs'| == |cs|
  {
    if fd < 0 || cs[k].fd == fd then cs
    else WithoutFd(cs, k, fd, |cs|)[k := cs[k].(fd := fd)]
  }

  /* ---- addresses ---- */

  /** server_assign_ip: a client with a working session keeps its address
      until it confirms the new session; until then the new one is pending. */
  function AssignIp(c: Client, ip: nat): Client {
    if c.cur.Live? && c.ip != 0 && ip != c.ip then c.(pending := ip)
    else c.(pending := 0, ip := ip)
  }

  /** server_ip_usable */
  predicate Usable(s: State, k: nat, ip: nat, id: string)
    requires Shape(s)
  {
    && PoolHas(s.db, ip) && ip != s.db.tunnelIp && ProfileOwner(s.db, ip) == None
    && (var user := FindByIp(s.clients, ip); user < 0 || user == k)
    && Allows(s.leases.table, ip, id)
  }

  /** Leased to another ID long enough ago, and free otherwise. */
  predicate Reclaimable(s: State, k: nat, ip: nat)
    requires Shape(s)
  {
    var l := ByIp(s.leases.table, ip);
    && l >= 0 && ip != s.db.tunnelIp && ProfileOwner(s.db, ip) == None
    && (var user := FindByIp(s.clients, ip); user < 0 || user == k)
    && !Young(s.db, s.now, s.leases.table[l])
  }

  function Clients(db: Db): (n: nat)
    requires PoolOk(db)
    ensures n > 0
  {
    PoolLast(db) - PoolFirst(db) + 1
  }

  /** The address `n` steps after the cursor of the pool. */
  function PoolAt(db: Db, cursor: nat, n: nat): (ip: nat)
    requires PoolOk(db) && n < Clients(db)
    ensures PoolHas(db, ip)
  {
    var start := if PoolFirst(db) <= cursor <= PoolLast(db) then cursor - PoolFirst(db) else 0;
    PoolFirst(db) + if start + n < Clients(db) then start + n else start + n - Clients(db)
  }

  /** The first usable address from step `n` on, 0 for none. */
  function WalkFrom(s: State, k: nat, id: string, n: nat): (ip: nat)
    requires Shape(s) && n <= Clients(s.db)
    ensures ip != 0 ==> Usable(s, k, ip, id)
    ensures ip == 0 ==> forall m | n <= m < Clients(s.db) :: !Usable(s, k, PoolAt(s.db, s.poolNext, m), id)
    decreases Clients(s.db) - n
  {
    if n == Clients(s.db) then 0
    else if Usable(s, k, PoolAt(s.db, s.poolNext, n), id) then PoolAt(s.db, s.poolNext, n)
    else WalkFrom(s, k, id, n + 1)
  }

  /** Of the first `n` addresses walked, the reclaimable one with the oldest
      lease, as a lease slot; -1 for none. */
  function OldestLease(s: State, k: nat, n: nat): (l: int)
    requires Shape(s) && n <= Clients(s.db)
    ensures -1 <= l < |s.leases.table|
    ensures l >= 0 ==> PoolHas(s.db, s.leases.table[l].ip) && Reclaimable(s, k, s.leases.table[l].ip)
    ensures l < 0 ==> forall m | 0 <= m < n :: !Reclaimable(s, k, PoolAt(s.db, s.poolNext, m))
  {
    if n == 0 then -1
    else
      var l := OldestLease(s, k, n - 1);
      var ip := PoolAt(s.db, s.poolNext, n - 1);
      if Reclaimable(s, k, ip)
         && (l < 0 || s.leases.table[ByIp(s.leases.table, ip)].since < s.leases.table[l].since)
      then ByIp(s.leases.table, ip) else l
  }

  /** The pool was found full earlier in this second. */
  predicate KnownFull(s: State) {
    s.fullAt == s.now && s.fullAt != 0 && s.fullNet == s.db.poolNet && s.fullPrefix == s.db.poolPrefix
  }

  /** server_auto_pool_take: the state, and the address, 0 when there is none. */
  function PoolTake(s: State, k: nat, id: string): (r: (State, nat))
    requires Shape(s)
    ensures Shape(r.0) && r.0.clients == s.clients && r.0.leases == s.leases
    ensures r.0.db == s.db && r.0.now == s.now
  {
    if KnownFull(s) then (s, 0)
    else
      var ip := WalkFrom(s, k, id, 0);
      if ip != 0 then (s.(poolNext := if ip < PoolLast(s.db) then ip + 1 else PoolFirst(s.db)), ip)
      else
        var l := OldestLease(s, k, Clients(s.db));
        if l >= 0 then (s, s.leases.table[l].ip)
        else (s.(fullAt := s.now, fullNet := s.db.poolNet, fullPrefix := s.db.poolPrefix), 0)
  }

  /** The address of a CONFIG whose profile has an address and a gateway. */
  function CidrIp(c: Cidr): nat {
    if c.At? then c.ip else 0
  }

  /** A new entry of an ID takes the address leased to it, or the one it
      asks for. */
  function WithOldAddress(s: State, k: nat, id: string, hint: Option<nat>): (c: Client)
    requires Shape(s) && k < |s.clients|
  {
    var c := s.clients[k];
    if c.ip != 0 then c
    else
      var l := ById(s.leases.table, id);
      if l >= 0 && Usable(s, k, s.leases.table[l].ip, id) then c.(ip := s.leases.table[l].ip)
      else if hint.Some? && Usable(s, k, hint.value, id) then c.(ip := hint.value)
      else c
  }

  /** server_build_config for an auto client: the state, and the address the
      CONFIG carries; None when there is no CONFIG. */
  function BuildConfig(s: State, k: nat, id: string, hint: Option<nat>, tooLong: bool): (r: (State, Option<nat>))
    requires Shape(s) && k < |s.clients|
    ensures r.0.db == s.db && r.0.now == s.now
    ensures Shape(r.0) && |r.0.clients| == |s.clients|
  {
    var p := Merged(s.db, id);
    if p.cidr != NoCidr && p.gateway then
      (s, if tooLong then None else Some(CidrIp(p.cidr)))
    else if id == "" then (s, None)
    else
      var c := WithOldAddress(s, k, id, hint);
      var s1 := s.(clients := s.clients[k := c]);
      var (s2, ip) := ChooseIp(s1, k, id);
      if ip == 0 then (s2, None) else Configured(s2, k, ip, tooLong)
  }

  /** The address to give: the one the client was last given, else its
      current one, while they are usable, else one of the pool; 0 for none. */
  function ChooseIp(s: State, k: nat, id: string): (r: (State, nat))
    requires Shape(s) && k < |s.clients|
    ensures Shape(r.0) && r.0.clients == s.clients && r.0.leases == s.leases
    ensures r.0.db == s.db && r.0.now == s.now
  {
    var c := s.clients[k];
    var given := if c.pending != 0 then c.pending else c.ip;
    if given != 0 && Usable(s, k, given, id) then (s, given)
    else if given != c.ip && c.ip != 0 && Usable(s, k, c.ip, id) then (s, c.ip)
    else if Holding(s) then (s, 0)
    else PoolTake(s, k, c.id)
  }

  function Configured(s: State, k: nat, ip: nat, tooLong: bool): (r: (State, Option<nat>))
    requires Shape(s) && k < |s.clients|
    ensures r.0.db == s.db && r.0.now == s.now
    ensures Shape(r.0) && |r.0.clients| == |s.clients|
  {
    (s.(clients := s.clients[k := AssignIp(s.clients[k], ip)]), if tooLong then None else Some(ip))
  }

  /* ---- handshakes ---- */

  /** An INIT whose message 1 a keystore key opened and whose REGISTER is
      allowed for that key. `ip`: its LOCAL_IP, if it parses. */
  datatype Init = Init(key: Key, auto: bool, id: string, ip: Option<nat>, from: Addr, fd: int,
                       ts: nat, remote: nat, kSend: Key, kRecv: Key)

  /** What may go wrong while the answer is made. */
  datatype Fault = NoFault | ConfigTooLong | NoRandom | NoReply | SendFails

  /** server_new_index: random numbers with the slot in their low 16 bits,
      up to 16 tries; 0 when there is none. */
  function NewIndex(c: Client, k: nat, rand: seq<nat>, i: nat): (idx: nat)
    requires i <= 16 && |rand| == 16 && k < MAX_CLIENTS
    requires forall j | 0 <= j < 16 :: rand[j] < U32
    ensures idx != 0 ==> idx < U32 && idx % 0x1_0000 == k + 1
    ensures idx != 0 ==> !HasIndex(c.cur, idx) && !HasIndex(c.next, idx) && !HasIndex(c.prev, idx)
    decreases 16 - i
  {
    if i == 16 || rand[i] == 0 then 0
    else
      var idx := rand[i] / 0x1_0000 * 0x1_0000 + k + 1;
      if HasIndex(c.cur, idx) || HasIndex(c.next, idx) || HasIndex(c.prev, idx)
      then NewIndex(c, k, rand, i + 1) else idx
  }

  predicate HasIndex(s: Session, idx: nat) {
    s.Live? && s.local == idx
  }

  /** A handshake not newer than the latest of its live client. */
  predicate Stale(s: State, q: Init) {
    var owner := if q.auto then FindById(s.clients, q.id)
                 else if q.ip.Some? then FindByIp(s.clients, q.ip.value) else -1;
    owner >= 0
    && var c := s.clients[owner];
       c.cur.Live? && c.lastData != 0 && c.psk == q.key
       && s.now - c.lastData <= s.db.clientTimeout && q.ts <= c.hsTs
  }

  /** The client's profile address is held by a client with another ID. */
  predicate ProfileTaken(s: State, q: Init) {
    q.auto
    && var p := Merged(s.db, q.id);
       p.cidr.At?
       && var holder := FindByIp(s.clients, p.cidr.ip);
          holder >= 0 && !SameId(s.clients[holder].id, q.id)
  }

  /** server_entry_for: the state, the entry's slot (-1: rejected), and
      whether the slot was taken for this handshake. */
  function EntryFor(s: State, q: Init, memory: Memory): (r: (State, int, bool))
    requires Shape(s)
    ensures r.0.db == s.db && r.0.now == s.now
    ensures Shape(r.0) && -1 <= r.1 < |r.0.clients| == |s.clients|
  {
    if q.auto then AutoEntry(s, q, memory) else ManualEntry(s, q, memory)
  }

  function AutoEntry(s: State, q: Init, memory: Memory): (r: (State, int, bool))
    requires Shape(s)
    ensures r.0.db == s.db && r.0.now == s.now
    ensures Shape(r.0) && -1 <= r.1 < |r.0.clients| == |s.clients|
  {
    if s.db.denyUnknown && FindProfile(s.db, q.id) == None then (s, -1, false)
    else
      var k := FindById(s.clients, q.id);
      if k >= 0 then (s.(clients := AdoptTcp(s.clients, k, q.fd)), k, false)
      else
        var a := FindByAddr(s.clients, q.from);
        if a >= 0 && s.clients[a].fd >= 0 then (s, a, false)
        else
          var (s1, n) := AllocClient(s, memory);
          (s1, n, n >= 0)
  }

  /** Another client's claim on the address a manual client wants. */
  predicate ManualRefused(s: State, q: Init)
    requires q.ip.Some?
  {
    var ip := q.ip.value;
    var byIp := FindByIp(s.clients, ip);
    var byAddr := FindByAddr(s.clients, q.from);
    || (byIp >= 0 && s.clients[byIp].ip != ip)
    || (byIp >= 0 && (s.clients[byIp].auto
                      || (byIp != byAddr && (!SameId(s.clients[byIp].id, q.id) || s.clients[byIp].psk != q.key))))
    || (var l := ByIp(s.leases.table, ip);
        l >= 0 && !SameId(s.leases.table[l].id, q.id) && Young(s.db, s.now, s.leases.table[l]))
  }

  function ManualEntry(s: State, q: Init, memory: Memory): (r: (State, int, bool))
    requires Shape(s)
    ensures r.0.db == s.db && r.0.now == s.now
    ensures Shape(r.0) && -1 <= r.1 < |r.0.clients| == |s.clients|
  {
    if q.ip.None? || ManualRefused(s, q) then (s, -1, false)
    else
      var ip := q.ip.value;
      var byIp := FindByIp(s.clients, ip);
      var byAddr := FindByAddr(s.clients, q.from);
      if byIp >= 0 && (byAddr < 0 || byAddr == byIp
                       || (s.clients[byAddr].fd >= 0 && !s.clients[byAddr].registered)) then
        var cs := AdoptTcp(s.clients, byIp, q.fd);
        (s.(clients := cs[byIp := cs[byIp].(ip := ip)]), byIp, false)
      else if byAddr >= 0 && (q.fd >= 0 || !s.clients[byAddr].cur.Live?) then
        (s.(clients := s.clients[byAddr := s.clients[byAddr].(ip := ip)]), byAddr, false)
      else
        var (s1, n) := AllocClient(s, memory);
        if n < 0 then (s1, -1, false)
        else (s1.(clients := s1.clients[n := s1.clients[n].(ip := ip)]), n, true)
  }

  datatype Outcome = Rejected | Failed | Accepted

  /** The entry after it took the handshake's identity, and after the
      profile's address, if it has one. */
  function Identified(s: State, c: Client, q: Init): Client {
    var c1 := c.(addr := if !c.cur.Live? || q.fd >= 0 then q.from else c.addr,
                 lastSeen := s.now, auto := q.auto, id := q.id);
    if q.auto && Merged(s.db, q.id).cidr.At? then AssignIp(c1, Merged(s.db, q.id).cidr.ip)
    else if q.auto then c1
    else c1.(pending := 0)
  }

  /** The session set up: waiting in `next` when there is a current one. */
  function WithSession(s: State, c: Client, q: Init, idx: nat, cfg: nat): Client {
    var session := Live(idx, q.remote, q.kSend, q.kRecv, s.now, cfg);
    var c1 := if c.cur.Live? then c.(next := session) else c.(cur := session);
    c1.(psk := q.key, hsTs := q.ts, registered := true)
  }

  /** The `fail:` exit: a slot taken for the handshake is freed, another
      entry gets back what it had (`c0`). */
  function RolledBack(c: Client, c0: Client, taken: bool): Client {
    if taken then EMPTY
    else c.(ip := c0.ip, pending := c0.pending, next := c0.next, cur := c0.cur,
            registered := c0.registered, psk := c0.psk)
  }

  /** server_handle_init, after message 1 was opened. */
  function Handshake(s: State, q: Init, fault: Fault, rand: seq<nat>, memory: Memory): (r: (State, Outcome))
    requires Shape(s) && |rand| == 16 && forall j | 0 <= j < 16 :: rand[j] < U32
    ensures r.0.db == s.db && r.0.now == s.now
    ensures Shape(r.0) && |r.0.clients| == |s.clients|
  {
    if Stale(s, q) || ProfileTaken(s, q) then (s, Rejected)
    else
      var (s1, k, taken) := EntryFor(s, q, memory);
      if k < 0 then (s1, Rejected)
      else Answer(s1, k, taken, q, fault, rand)
  }

  /** The rest of server_handle_init, once the handshake has its entry `k`. */
  function Answer(s: State, k: nat, taken: bool, q: Init, fault: Fault, rand: seq<nat>): (r: (State, Outcome))
    requires Shape(s) && k < |s.clients|
    requires |rand| == 16 && forall j | 0 <= j < 16 :: rand[j] < U32
    ensures r.0.db == s.db && r.0.now == s.now
    ensures Shape(r.0) && |r.0.clients| == |s.clients|
  {
    var c0 := s.clients[k];
    var s1 := s.(clients := s.clients[k := Identified(s, c0, q)]);
    var (s2, cfg) := if q.auto then BuildConfig(s1, k, q.id, q.ip, fault == ConfigTooLong) else (s1, Some(0));
    var c2 := s2.clients[k];
    var idx := NewIndex(c2, k, rand, 0);
    if cfg.None? || fault == NoRandom || idx == 0 || fault == NoReply then
      (s2.(clients := s2.clients[k := RolledBack(c2, c0, taken)]), Failed)
    else
      var c3 := WithSession(s2, c2, q, idx, cfg.value);
      if fault == SendFails then
        (s2.(clients := s2.clients[k := RolledBack(c3, c0, taken)]), Failed)
      else
        (s2.(clients := s2.clients[k := c3],
             leases := if q.auto then Settled(s2.leases, q.id, c3.ip) else s2.leases), Accepted)
  }

  /** A client that has its address keeps no lease for its ID or address. */
  function Settled(t: Leases, id: string, ip: nat): (t': Leases)
    ensures |t'.table| == |t.table| && t'.next == t.next
  {
    var t1 := Drop(t, ById(t.table, id));
    Drop(t1, ByIp(t1.table, ip))
  }

  /* ---- data ---- */

  datatype Which = InCur | InNext | InPrev | Nowhere

  /** The entry's session with this index that may still receive. */
  function SessionOf(c: Client, idx: nat, now: nat): Which {
    if !c.active then Nowhere
    else if HasIndex(c.cur, idx) then InCur
    else if HasIndex(c.next, idx) then InNext
    else if HasIndex(c.prev, idx) && now <= c.prevUntil then InPrev
    else Nowhere
  }

  /** The slot an index names, -1 for none. */
  function SlotOf(s: State, idx: nat): (k: int)
    ensures -1 <= k < |s.clients|
  {
    var slot1 := idx % 0x1_0000;
    if slot1 != 0 && slot1 <= |s.clients| then slot1 - 1 else -1
  }

  /** The client's first packet on the new session: it becomes current. */
  function Promoted(c: Client, now: nat): Client {
    var c1 := c.(prev := c.cur, prevUntil := now + PREV_SESSION_GRACE, prevIp := c.ip,
                 cur := c.next, next := Wiped);
    if c1.pending != 0 then c1.(ip := c1.pending, pending := 0) else c1
  }

  datatype Payload = Keepalive | NotIp | Ip(src: nat, dst: nat)
  datatype DataResult = Dropped | Answered | Ignored | WrongSource | Isolated | Forwarded

  /** A DATA packet with receiver index `idx`; `authentic`: the session opens it. */
  datatype Data = Data(idx: nat, from: Addr, fd: int, authentic: bool, payload: Payload, isolation: bool)

  predicate Opens(s: State, d: Data) {
    var k := SlotOf(s, d.idx);
    && k >= 0 && SessionOf(s.clients[k], d.idx, s.now) != Nowhere
    && (d.fd < 0 || s.clients[k].fd == d.fd) && d.authentic
  }

  /** The state after server_handle_data. */
  function AfterData(s: State, d: Data): (s': State)
    requires Shape(s)
    ensures s'.db == s.db && s'.now == s.now
    ensures Shape(s') && |s'.clients| == |s.clients|
  {
    if !Opens(s, d) then s
    else
      var k := SlotOf(s, d.idx);
      var c := s.clients[k];
      var moved := SessionOf(c, d.idx, s.now) == InNext;
      var c1 := if moved then Promoted(c, s.now) else c;
      var c2 := c1.(addr := if d.fd < 0 then d.from else c1.addr, lastSeen := s.now, lastData := s.now);
      s.(clients := s.clients[k := c2],
         leases := if moved && c.pending != 0 then Drop(s.leases, ByIp(s.leases.table, c1.ip)) else s.leases)
  }

  /** The address a packet on the given session must come from. */
  function OwnIp(c: Client, w: Which): nat {
    if w == InPrev && c.prevIp != 0 then c.prevIp else c.ip
  }

  /** What server_handle_data does with the payload. */
  function DataVerdict(s: State, d: Data): DataResult
    requires Shape(s)
  {
    if !Opens(s, d) then Dropped
    else
      var k := SlotOf(s, d.idx);
      var w := SessionOf(s.clients[k], d.idx, s.now);
      var s' := AfterData(s, d);
      match d.payload
      case Keepalive => Answered
      case NotIp => Ignored
      case Ip(src, dst) =>
        var own := OwnIp(s'.clients[k], w);
        if own == 0 || src != own then WrongSource
        else if d.isolation && FindByIp(s'.clients, dst) >= 0 && FindByIp(s'.clients, dst) != k then Isolated
        else Forwarded
  }

  /* ---- expiry and reload: one pass over the table each ---- */

  /** Sessions whose time is over are wiped. */
  function SessionsExpired(c: Client, now: nat): Client {
    var c1 := if c.prev.Live? && now > c.prevUntil then c.(prev := Wiped, prevIp := 0) else c;
    if c1.next.Live? && now - c1.next.created > PREV_SESSION_GRACE then c1.(next := Wiped, pending := 0) else c1
  }

  predicate TimedOut(s: State, c: Client) {
    if c.fd >= 0 && !c.registered then s.now - c.connectedAt > TCP_PREAUTH_TIMEOUT
    else s.now - c.lastSeen > s.db.clientTimeout
  }

  datatype Pass =
    | Expiry
    | Keys(allowed: nat -> bool)   // the keystore's verdict on each entry's key
    | UnknownIds
    | ProfileAddresses

  /** An offered address that is now another client's profile is withdrawn. */
  function OfferChecked(s: State, c: Client): Client {
    if c.pending != 0 && ProfileOwner(s.db, c.pending).Some?
       && !SameId(ProfileOwner(s.db, c.pending).value, c.id)
    then c.(pending := 0, next := Wiped) else c
  }

  predicate AddressLost(s: State, c: Client) {
    && ProfileOwner(s.db, c.ip).Some? && !SameId(ProfileOwner(s.db, c.ip).value, c.id)
    && (c.auto || c.id != "")
  }

  /** One slot of a pass. */
  function Visit(s: State, k: nat, pass: Pass, memory: Memory): (s': State)
    requires Shape(s) && k < |s.clients|
    ensures s'.db == s.db && s'.now == s.now
    ensures Shape(s') && |s'.clients| == |s.clients|
  {
    var c := s.clients[k];
    if !c.active then s
    else
      match pass
      case Expiry =>
        var s1 := s.(clients := s.clients[k := SessionsExpired(c, s.now)]);
        if TimedOut(s, c) then EndClient(s1, k, memory) else s1
      case Keys(allowed) => if c.registered && !allowed(k) then EndClient(s, k, memory) else s
      case UnknownIds =>
        if s.db.denyUnknown && c.auto && FindProfile(s.db, c.id) == None then EndClient(s, k, memory) else s
      case ProfileAddresses =>
        if !c.registered then s
        else
          var s1 := s.(clients := s.clients[k := OfferChecked(s, c)]);
          if AddressLost(s, c) then s1.(clients := s1.clients[k := EMPTY]) else s1
  }

  /** The first `n` slots of a pass. */
  function Visited(s: State, n: nat, pass: Pass, memory: Memory): (s': State)
    requires Shape(s) && n <= |s.clients|
    ensures s'.db == s.db && s'.now == s.now
    ensures Shape(s') && |s'.clients| == |s.clients|
  {
    if n == 0 then s else Visit(Visited(s, n - 1, pass, memory), n - 1, pass, memory)
  }

  function Whole(s: State, pass: Pass, memory: Memory): (s': State)
    requires Shape(s)
    ensures s'.db == s.db && s'.now == s.now
    ensures Shape(s') && |s'.clients| == |s.clients|
  {
    Visited(s, |s.clients|, pass, memory)
  }

  /** A successful reload: the new configuration, then the revalidations. */
  function Reload(s: State, db: Db, allowed: nat -> bool, memory: Memory): (s': State)
    requires Shape(s) && PoolOk(db)
    ensures s'.db == db && s'.now == s.now
    ensures Shape(s') && |s'.clients| == |s.clients|
  {
    Whole(Whole(Whole(s.(db := db), Keys(allowed), memory), UnknownIds, memory), ProfileAddresses, memory)
  }

  /* ---- TCP connections (camex.c) ---- */

  const PREAUTH_MAX: nat := 32
  const PREAUTH_PER_IP: nat := 4
  const PREAUTH_GRACE: nat := 2

  predicate PreAuth(c: Client) {
    c.active && c.fd >= 0 && !c.registered
  }

  /** Of the first `n` slots: the pre-auth ones, those from `ip`, and the
      oldest past the grace period (-1: none). */
  function CountPreAuth(s: State, ip: nat, n: nat): (r: (nat, nat, int))
    requires n <= |s.clients|
    ensures -1 <= r.2 < n
    ensures r.2 >= 0 ==> PreAuth(s.clients[r.2])
  {
    if n == 0 then (0, 0, -1)
    else
      var (all, same, oldest) := CountPreAuth(s, ip, n - 1);
      var c := s.clients[n - 1];
      if !PreAuth(c) then (all, same, oldest)
      else (all + 1, if c.addr.ip == ip then same + 1 else same,
            if s.now - c.connectedAt >= PREAUTH_GRACE
               && (oldest < 0 || c.connectedAt < s.clients[oldest].connectedAt) then n - 1 else oldest)
  }

  function PreAuthLimit(slots: nat): nat {
    var half := slots / 2;
    var m := if half < PREAUTH_MAX then half else PREAUTH_MAX;
    if m == 0 then 1 else m
  }

  /** A new TCP connection gets the first free slot, within the limits. */
  function Connected(s: State, fd: int, peer: Addr): (s': State)
    requires Shape(s)
    ensures s'.db == s.db && s'.now == s.now
    ensures Shape(s') && |s'.clients| == |s.clients|
  {
    var (all, same, oldest) := CountPreAuth(s, peer.ip, |s.clients|);
    var full := all >= PreAuthLimit(|s.clients|);
    if same >= PREAUTH_PER_IP || (full && oldest < 0) then s
    else
      var cs := if full then s.clients[oldest := EMPTY.(fd := 0)] else s.clients;
      var k := FreeSlot(cs, 0, 0);
      if k < 0 then s.(clients := cs)
      else s.(clients := cs[k := EMPTY.(fd := fd, lastSeen := s.now, connectedAt := s.now,
                                        active := true, addr := peer)])
  }

  /** The connection closed: its entry ends. */
  function FirstWithFd(cs: seq<Client>, fd: int, i: nat): (k: int)
    requires i <= |cs|
    ensures -1 <= k < |cs| && (k >= 0 ==> cs[k].active && cs[k].fd == fd)
    decreases |cs| - i
  {
    if i == |cs| then -1 else if cs[i].active && cs[i].fd == fd then i else FirstWithFd(cs, fd, i + 1)
  }

  function Closed(s: State, fd: int, memory: Memory): (s': State)
    requires Shape(s)
    ensures s'.db == s.db && s'.now == s.now
    ensures Shape(s') && |s'.clients| == |s.clients|
  {
    var k := FirstWithFd(s.clients, fd, 0);
    if k < 0 then s else EndClient(s, k, memory)
  }

  /* ---- runs ---- */

  datatype Event =
    | Tick(seconds: nat)
    | Connect(fd: int, peer: Addr)
    | Close(fd: int, memory: Memory)
    | Shake(q: Init, fault: Fault, rand: seq<nat>, memory: Memory)
    | Packet(d: Data)
    | Expire(memory: Memory)
    | Configure(db: Db, allowed: nat -> bool, memory: Memory)

  predicate EventOk(e: Event) {
    match e
    case Shake(q, _, rand, _) => |rand| == 16 && forall j | 0 <= j < 16 :: rand[j] < U32
    case Configure(db, _, _) => PoolOk(db)
    case _ => true
  }

  function Step(s: State, e: Event): (s': State)
    requires Shape(s) && EventOk(e)
    ensures s'.db == if e.Configure? then e.db else s.db
    ensures Shape(s') && |s'.clients| == |s.clients|
  {
    match e
    case Tick(seconds) => s.(now := s.now + seconds)
    case Connect(fd, peer) => Connected(s, fd, peer)
    case Close(fd, memory) => Closed(s, fd, memory)
    case Shake(q, fault, rand, memory) => Handshake(s, q, fault, rand, memory).0
    case Packet(d) => AfterData(s, d)
    case Expire(memory) => Whole(s, Expiry, memory)
    case Configure(db, allowed, memory) => Reload(s, db, allowed, memory)
  }

  function Run(s: State, es: seq<Event>): (s': State)
    requires Shape(s) && forall i | 0 <= i < |es| :: EventOk(es[i])
    ensures Shape(s') && |s'.clients| == |s.clients|
  {
    if es == [] then s else Step(Run(s, es[..|es| - 1]), es[|es| - 1])
  }

  /** The table server_clients_init sets up. */
  ghost predicate Fresh(s: State) {
    && Shape(s)
    && (forall k | 0 <= k < |s.clients| :: s.clients[k] == EMPTY)
    && (forall k | 0 <= k < |s.leases.table| :: s.leases.table[k] == UNUSED)
    && s.leases.used == 0
  }
}
