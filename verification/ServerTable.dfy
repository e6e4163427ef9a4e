/** The server's client table, its configuration and the linear scans that
    give its lookups their meaning (server.c, config.c).

    Addresses are numbers in host order, 0 = none. A session is `Wiped`
    exactly when its `valid` flag is 0. The fields that only feed log lines
    and counters are left out. */
module ServerTable {
  import opened Wrappers

  type Key = nat

  const MAX_CLIENTS: nat := 65534
  const U32: nat := 0x1_0000_0000
  const PREV_SESSION_GRACE: nat := 30
  const REKEY_AFTER_TIME: nat := 600
  const TCP_PREAUTH_TIMEOUT: nat := 10

  /* ---- client IDs: compared without regard to case ---- */

  function LowerChar(c: char): char {
    if 'A' <= c <= 'Z' then c - 'A' + 'a' else c
  }

  function Fold(s: string): string {
    seq(|s|, i requires 0 <= i < |s| => LowerChar(s[i]))
  }

  predicate SameId(a: string, b: string) {
    Fold(a) == Fold(b)
  }

  /* ---- entries ---- */

  datatype Addr = Addr(ip: nat, port: nat)

  const NO_ADDR := Addr(0, 0)

  /** `cfg` is a history field: the tunnel address of the CONFIG that went
      out with the session's handshake, 0 when it carried none. */
  datatype Session =
    | Wiped
    | Live(local: nat, remote: nat, kSend: Key, kRecv: Key, created: nat, cfg: nat)

  datatype Client = Client(
    active: bool, registered: bool, auto: bool,
    addr: Addr, ip: nat, pending: nat, prevIp: nat,
    lastSeen: nat, lastData: nat, connectedAt: nat,
    id: string, fd: int, psk: Key, hsTs: nat,
    cur: Session, next: Session, prev: Session, prevUntil: nat)

  const EMPTY := Client(false, false, false, NO_ADDR, 0, 0, 0, 0, 0, 0, "", -1, 0, 0,
                        Wiped, Wiped, Wiped, 0)

  /* ---- configuration ---- */

  /** A local_cidr= text: absent, one that does not parse, or an address. */
  datatype Cidr = NoCidr | BadCidr | At(ip: nat)

  datatype Profile = Profile(id: string, cidr: Cidr, gateway: bool)

  datatype Db = Db(
    profiles: seq<Profile>,      // [client ID] blocks
    defaults: Profile,           // [defaults]
    poolNet: nat, poolPrefix: nat,
    tunnelIp: nat,               // the server's own tunnel address
    clientTimeout: nat,
    denyUnknown: bool)

  function Pow2(k: nat): (r: nat)
    ensures r > 0
  {
    if k == 0 then 1 else 2 * Pow2(k - 1)
  }

  /** What config_parse_pool accepts. */
  predicate PoolOk(db: Db) {
    && 8 <= db.poolPrefix <= 30
    && db.poolNet + PoolSize(db) <= U32
  }

  function PoolSize(db: Db): (r: nat)
    requires db.poolPrefix <= 30
    ensures r >= 4
  {
    4 * Pow2(30 - db.poolPrefix)
  }

  function PoolFirst(db: Db): nat { db.poolNet + 2 }

  function PoolLast(db: Db): nat
    requires db.poolPrefix <= 30
  {
    db.poolNet + PoolSize(db) - 2
  }

  predicate PoolHas(db: Db, ip: nat)
    requires db.poolPrefix <= 30
  {
    ip != 0 && PoolFirst(db) <= ip <= PoolLast(db)
  }

  function LeaseMin(db: Db): nat { REKEY_AFTER_TIME + db.clientTimeout }

  /** config_db_find_client, from block `i` on */
  function ProfileFrom(ps: seq<Profile>, id: string, i: nat): Option<Profile>
    requires i <= |ps|
    decreases |ps| - i
  {
    if i == |ps| then None
    else if SameId(ps[i].id, id) then Some(ps[i])
    else ProfileFrom(ps, id, i + 1)
  }

  function FindProfile(db: Db, id: string): Option<Profile> {
    if id == "" then None else ProfileFrom(db.profiles, id, 0)
  }

  /** config_db_find_profile_by_ip: the first block with this address. */
  function OwnerFrom(ps: seq<Profile>, ip: nat, i: nat): Option<string>
    requires i <= |ps|
    decreases |ps| - i
  {
    if i == |ps| then None
    else if ps[i].cidr == At(ip) then Some(ps[i].id)
    else OwnerFrom(ps, ip, i + 1)
  }

  function ProfileOwner(db: Db, ip: nat): Option<string> {
    OwnerFrom(db.profiles, ip, 0)
  }

  /** config_db_lookup_profile: the client's block over [defaults]. */
  function Merged(db: Db, id: string): Profile {
    match FindProfile(db, id)
    case None => db.defaults
    case Some(p) => Profile(id, if p.cidr == NoCidr then db.defaults.cidr else p.cidr,
                            p.gateway || db.defaults.gateway)
  }

  /* ---- the scans of the client table ---- */

  datatype Query = CurrentIp(ip: nat) | AnyIp(ip: nat) | Id(id: string) | Peer(addr: Addr)

  predicate Holds(c: Client, ip: nat) {
    ip != 0 && c.active && (c.ip == ip || c.pending == ip || (c.prev.Live? && c.prevIp == ip))
  }

  predicate Matches(c: Client, q: Query) {
    match q
    case CurrentIp(ip) => ip != 0 && c.active && c.ip == ip
    case AnyIp(ip) => Holds(c, ip)
    case Id(id) => c.active && SameId(c.id, id)
    case Peer(addr) => c.active && c.addr == addr
  }

  /** The first matching entry from `i` on, or -1. */
  function ScanFrom(cs: seq<Client>, q: Query, i: nat): (k: int)
    requires i <= |cs|
    ensures -1 <= k < |cs|
    ensures k >= 0 ==> i <= k && Matches(cs[k], q) && forall j | i <= j < k :: !Matches(cs[j], q)
    ensures k < 0 ==> forall j | i <= j < |cs| :: !Matches(cs[j], q)
    decreases |cs| - i
  {
    if i == |cs| then -1 else if Matches(cs[i], q) then i else ScanFrom(cs, q, i + 1)
  }

  function Scan(cs: seq<Client>, q: Query): (k: int)
    ensures -1 <= k < |cs|
    ensures k >= 0 ==> Matches(cs[k], q) && forall j | 0 <= j < k :: !Matches(cs[j], q)
    ensures k < 0 ==> forall j | 0 <= j < |cs| :: !Matches(cs[j], q)
  {
    ScanFrom(cs, q, 0)
  }

  /** server_find_by_ip: a current address wins over a pending or previous one. */
  function FindByIp(cs: seq<Client>, ip: nat): (k: int)
    ensures -1 <= k < |cs|
    ensures k >= 0 ==> Holds(cs[k], ip)
    ensures k < 0 <==> forall j | 0 <= j < |cs| :: !Holds(cs[j], ip)
  {
    var k := Scan(cs, CurrentIp(ip));
    if k >= 0 then assert Matches(cs[k], CurrentIp(ip)); k else
    assert forall j | 0 <= j < |cs| :: Holds(cs[j], ip) <==> Matches(cs[j], AnyIp(ip));
    Scan(cs, AnyIp(ip))
  }

  /** server_find_by_client_id */
  function FindById(cs: seq<Client>, id: string): (k: int)
    ensures -1 <= k < |cs|
    ensures k >= 0 ==> cs[k].active && SameId(cs[k].id, id)
    ensures k < 0 && id != "" ==> forall j | 0 <= j < |cs| :: !(cs[j].active && SameId(cs[j].id, id))
  {
    if id == "" then -1 else
    assert forall j | 0 <= j < |cs| :: (cs[j].active && SameId(cs[j].id, id)) == Matches(cs[j], Id(id));
    Scan(cs, Id(id))
  }

  /** server_find_by_addr */
  function FindByAddr(cs: seq<Client>, a: Addr): (k: int)
    ensures -1 <= k < |cs|
    ensures k >= 0 ==> cs[k].active && cs[k].addr == a
  {
    Scan(cs, Peer(a))
  }

  lemma ScanUnique(cs: seq<Client>, q: Query, k: int)
    requires -1 <= k < |cs|
    requires k >= 0 ==> Matches(cs[k], q) && forall j | 0 <= j < k :: !Matches(cs[j], q)
    requires k < 0 ==> forall j | 0 <= j < |cs| :: !Matches(cs[j], q)
    ensures k == Scan(cs, q)
  {
  }
}
