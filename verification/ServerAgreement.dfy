/** What a client's CONFIG says and what the server accepts from it, over
    every run and under any configuration (server.c). */
module ServerAgreement {
  import opened Wrappers
  import opened ServerTable
  import opened ServerLeases
  import opened ServerSteps
  import opened ServerAddresses
  import T = ServerTransport

  /** The address the entry has once it confirms its latest session. */
  function Offered(c: Client): nat {
    if c.pending != 0 then c.pending else c.ip
  }

  /** The source address that the entry's packets on a session must have. */
  function Accepts(c: Client, w: Which): nat {
    match w
    case InCur => c.ip
    case InNext => Offered(c)
    case InPrev => if c.prevIp != 0 then c.prevIp else c.ip
    case Nowhere => 0
  }

  /** The address of the CONFIG that set up the given session. */
  function ConfigOf(c: Client, w: Which): nat {
    match w
    case InCur => if c.cur.Live? then c.cur.cfg else 0
    case InNext => if c.next.Live? then c.next.cfg else 0
    case InPrev => if c.prev.Live? then c.prev.cfg else 0
    case Nowhere => 0
  }

  /** Every valid session of the entry is accepted from the address its
      CONFIG carried. */
  ghost predicate Agrees(c: Client) {
    && (c.cur.Live? ==> Accepts(c, InCur) == ConfigOf(c, InCur))
    && (c.next.Live? ==> Accepts(c, InNext) == ConfigOf(c, InNext))
    && (c.prev.Live? ==> Accepts(c, InPrev) == ConfigOf(c, InPrev))
  }

  /** What the server does with an authentic packet: it passes the source
      check exactly when its source is the address of its session; while the
      entry agrees, the one of that session's CONFIG. */
  lemma SourceIsConfig(s: State, d: Data)
    requires AddrInv(s) && Opens(s, d) && d.payload.Ip?
    ensures var c := s.clients[SlotOf(s, d.idx)];
            var w := SessionOf(c, d.idx, s.now);
            && (DataVerdict(s, d) == WrongSource <==> Accepts(c, w) == 0 || d.payload.src != Accepts(c, w))
            && (Agrees(c) ==> Accepts(c, w) == ConfigOf(c, w))
  {
  }

  /** A complete profile of the ID has an address a client can be given. */
  ghost predicate ConfigAddressOk(db: Db, id: string) {
    var p := Merged(db, id);
    p.cidr != NoCidr && p.gateway ==> p.cidr.At? && p.cidr.ip != 0
  }

  /* ---- one handshake ---- */

  /** When an accepted handshake keeps the agreement: the entry has no
      session yet, or it has an address exactly if the profile is usable. */
  ghost predicate KeepsAgreement(db: Db, c: Client, id: string) {
    !c.cur.Live? || (ConfigAddressOk(db, id) <==> c.ip != 0)
  }

  /** The entry of an answered handshake, by its profile and its address. */
  lemma ConfigAddress(s: State, k: nat, q: Init, tooLong: bool)
    requires Shape(s) && Disjoint(s.clients) && k < |s.clients| && EntryOk(s.clients[k]) && q.auto
    requires var p := Merged(s.db, q.id); p.cidr.At? ==> NotHeld(s.clients, k, p.cidr.ip)
    ensures var c := s.clients[k];
            var (s2, cfg) := BuildConfig(s.(clients := s.clients[k := Identified(s, c, q)]), k, q.id, q.ip, tooLong);
            var c2 := s2.clients[k];
            && SameSessionsAs(c2, c)
            && (cfg.Some? && ConfigAddressOk(s.db, q.id) ==>
                  && cfg.value != 0
                  && (!c.cur.Live? ==> c2.ip == cfg.value && c2.pending == 0)
                  && (c.cur.Live? && c.ip != 0 ==> c2.ip == c.ip && Offered(c2) == cfg.value)
                  && (c.cur.Live? && c.ip == 0 ==> c2.ip != 0))
            && (cfg.Some? && !ConfigAddressOk(s.db, q.id) ==>
                  cfg.value == 0 && c2.ip == c.ip && (c.ip == 0 <==> Offered(c2) == 0))
  {
    hide WithOldAddress;
    hide Disjoint;
    hide NotHeld;
    hide ChooseIp;
    var c := s.clients[k];
    var c1 := Identified(s, c, q);
    var s1 := s.(clients := s.clients[k := c1]);
    AnswerConfig(s, k, q, tooLong);
    IdentifiedFrame(s, c, q);
    DisjointUpdate(s.clients, k, c1);
    BuildConfigEffect(s1, k, q.id, q.ip, tooLong);
    OldAddressIsFree(s1, k, q.id, q.ip);
  }

  ghost predicate SameSessionsAs(c: Client, d: Client) {
    c.cur == d.cur && c.next == d.next && c.prev == d.prev && c.prevIp == d.prevIp
  }

  /** Exactly when an answered handshake leaves the entry agreeing. */
  lemma AnswerAgreesExactly(s: State, k: nat, taken: bool, q: Init, fault: Fault, rand: seq<nat>)
    requires AddrInv(s) && k < |s.clients| && q.auto
    requires |rand| == 16 && forall j | 0 <= j < 16 :: rand[j] < ServerTable.U32
    requires var p := Merged(s.db, q.id); p.cidr.At? ==> NotHeld(s.clients, k, p.cidr.ip)
    ensures var (s', r) := Answer(s, k, taken, q, fault, rand);
            && (Agrees(s.clients[k]) ==>
                  (Agrees(s'.clients[k]) <==> (r == Accepted ==> KeepsAgreement(s.db, s.clients[k], q.id))))
            && (forall j | 0 <= j < |s.clients| && j != k :: s'.clients[j] == s.clients[j])
  {
    hide NewIndex;
    hide BuildConfig;
    hide Identified;
    hide Disjoint;
    hide UniqueIds;
    hide ConfigAddressOk;
    AnswerConfig(s, k, q, fault == ConfigTooLong);
    ConfigAddress(s, k, q, fault == ConfigTooLong);
  }

  /** The entry a handshake is accepted on, with the state it finds it in;
      -1 for any other event. */
  function AcceptedOn(s: State, e: Event): (r: (State, int))
    requires Shape(s) && EventOk(e)
    ensures -1 <= r.1 < |r.0.clients| == |s.clients|
  {
    if e.Shake? && !Stale(s, e.q) && !ProfileTaken(s, e.q)
       && Handshake(s, e.q, e.fault, e.rand, e.memory).1 == Accepted
    then
      var (s1, k, _) := EntryFor(s, e.q, e.memory);
      (s1, k)
    else (s, -1)
  }

  /** The event keeps entry `k`'s agreement. */
  ghost predicate Harmless(s: State, e: Event, k: nat)
    requires Shape(s) && EventOk(e)
  {
    var (s1, j) := AcceptedOn(s, e);
    j == k ==> KeepsAgreement(s.db, s1.clients[j], e.q.id)
  }

  /** Taking an entry for a handshake leaves every entry's agreement as it is. */
  lemma EntryForAgrees(s: State, q: Init, memory: Memory, k: nat)
    requires Shape(s) && q.auto && k < |s.clients| && Agrees(s.clients[k])
    ensures Agrees(EntryFor(s, q, memory).0.clients[k])
  {
  }

  /** Exactly when a handshake leaves an entry agreeing. */
  lemma HandshakeAgreesExactly(s: State, e: Event, k: nat)
    requires AddrInv(s) && EventOk(e) && AutoEvent(e) && e.Shake? && k < |s.clients| && Agrees(s.clients[k])
    ensures Agrees(Step(s, e).clients[k]) <==> Harmless(s, e, k)
  {
    hide Agrees;
    hide AutoEntry;
    hide Answer;
    hide KeepsAgreement;
    hide Disjoint;
    hide UniqueIds;
    hide Stale;
    hide ProfileTaken;
    var q := e.q;
    if !Stale(s, q) && !ProfileTaken(s, q) {
      AutoEntryKeepsAddr(s, q, e.memory);
      EntryForAgrees(s, q, e.memory, k);
      var (s1, j, taken) := EntryFor(s, q, e.memory);
      if j >= 0 {
        AnswerAgreesExactly(s1, j, taken, q, e.fault, e.rand);
      }
    }
  }

  /* ---- the other steps ---- */

  lemma DataAgrees(s: State, d: Data, k: nat)
    requires AddrInv(s) && k < |s.clients| && Agrees(s.clients[k])
    ensures Agrees(AfterData(s, d).clients[k])
  {
    assert EntryOk(s.clients[k]);
  }

  lemma VisitAgrees(s: State, j: nat, pass: Pass, memory: Memory, k: nat)
    requires Shape(s) && j < |s.clients| && k < |s.clients| && Agrees(s.clients[k])
    ensures Agrees(Visit(s, j, pass, memory).clients[k])
  {
  }

  lemma {:induction false} PassAgrees(s: State, n: nat, pass: Pass, memory: Memory, k: nat)
    requires Shape(s) && n <= |s.clients| && k < |s.clients| && Agrees(s.clients[k])
    ensures Agrees(Visited(s, n, pass, memory).clients[k])
  {
    hide Agrees;
    hide Visit;
    if n > 0 {
      PassAgrees(s, n - 1, pass, memory, k);
      VisitAgrees(Visited(s, n - 1, pass, memory), n - 1, pass, memory, k);
    }
  }

  lemma ReloadAgrees(s: State, db: Db, allowed: nat -> bool, memory: Memory, k: nat)
    requires Shape(s) && PoolOk(db) && k < |s.clients| && Agrees(s.clients[k])
    ensures Agrees(Reload(s, db, allowed, memory).clients[k])
  {
    hide Agrees;
    var s0 := s.(db := db);
    PassAgrees(s0, |s.clients|, Keys(allowed), memory, k);
    var s1 := Whole(s0, Keys(allowed), memory);
    PassAgrees(s1, |s.clients|, UnknownIds, memory, k);
    PassAgrees(Whole(s1, UnknownIds, memory), |s.clients|, ProfileAddresses, memory, k);
  }

  lemma ConnectAgrees(s: State, fd: int, peer: Addr, k: nat)
    requires Shape(s) && k < |s.clients| && Agrees(s.clients[k])
    ensures Agrees(Connected(s, fd, peer).clients[k])
  {
    hide CountPreAuth;
  }

  lemma CloseAgrees(s: State, fd: int, memory: Memory, k: nat)
    requires Shape(s) && k < |s.clients| && Agrees(s.clients[k])
    ensures Agrees(Closed(s, fd, memory).clients[k])
  {
  }

  /** Exactly when a step leaves an entry agreeing. */
  lemma StepAgreesExactly(s: State, e: Event, k: nat)
    requires AddrInv(s) && EventOk(e) && AutoEvent(e) && k < |s.clients| && Agrees(s.clients[k])
    ensures Agrees(Step(s, e).clients[k]) <==> Harmless(s, e, k)
  {
    hide Agrees;
    hide AfterData;
    hide Connected;
    hide Closed;
    hide Handshake;
    hide Reload;
    match e
    case Tick(_) =>
    case Connect(fd, peer) => ConnectAgrees(s, fd, peer, k);
    case Close(fd, memory) => CloseAgrees(s, fd, memory, k);
    case Shake(_, _, _, _) => HandshakeAgreesExactly(s, e, k);
    case Packet(d) => DataAgrees(s, d, k);
    case Expire(memory) => PassAgrees(s, |s.clients|, Expiry, memory, k);
    case Configure(db, allowed, memory) => ReloadAgrees(s, db, allowed, memory, k);
  }

  /* ---- runs ---- */

  /** The state after `n` events of the run. */
  function After(s: State, es: seq<Event>, n: nat): (s': State)
    requires Shape(s) && n <= |es| && forall i | 0 <= i < |es| :: EventOk(es[i])
    ensures Shape(s') && |s'.clients| == |s.clients|
  {
    Run(s, es[..n])
  }

  lemma AfterNext(s: State, es: seq<Event>, n: nat)
    requires Shape(s) && n < |es| && forall i | 0 <= i < |es| :: EventOk(es[i])
    ensures After(s, es, n + 1) == Step(After(s, es, n), es[n])
  {
    assert es[..n + 1][..n] == es[..n];
  }

  /** An entry without a session agrees. */
  lemma NoSessionAgrees(c: Client)
    requires EntryOk(c) && !c.cur.Live?
    ensures Agrees(c)
  {
  }

  /** In every run, exactly when an entry that has no session yet, or agrees,
      agrees from then on: each handshake accepted on it is its first, or
      finds it with an address exactly if the profile is usable. */
  lemma {:induction false} AgreementInEveryRun(s: State, es: seq<Event>, k: nat, m: nat)
    requires Fresh(s) && k < |s.clients| && forall i | 0 <= i < |es| :: EventOk(es[i]) && AutoEvent(es[i])
    requires m <= |es| && var c := After(s, es, m).clients[k]; c.cur.Live? ==> Agrees(c)
    ensures (forall n | m <= n <= |es| :: Agrees(After(s, es, n).clients[k]))
            <==> (forall n | m <= n < |es| :: Harmless(After(s, es, n), es[n], k))
    decreases |es| - m
  {
    hide Agrees;
    hide After;
    hide Harmless;
    AfterKeepsAddr(s, es, m);
    var c := After(s, es, m).clients[k];
    if !c.cur.Live? {
      assert EntryOk(c);
      NoSessionAgrees(c);
    }
    hide AddrInv;
    if m < |es| {
      AfterNext(s, es, m);
      StepAgreesExactly(After(s, es, m), es[m], k);
      if Harmless(After(s, es, m), es[m], k) {
        AgreementInEveryRun(s, es, k, m + 1);
      }
    }
  }

  lemma AfterKeepsAddr(s: State, es: seq<Event>, n: nat)
    requires Fresh(s) && n <= |es| && forall i | 0 <= i < |es| :: EventOk(es[i]) && AutoEvent(es[i])
    ensures AddrInv(After(s, es, n))
  {
    AddressesInEveryRun(s, es[..n]);
  }

  /* ---- usable profiles ---- */

  predicate CidrOk(c: Cidr) {
    c == NoCidr || (c.At? && c.ip != 0)
  }

  /** Every local_cidr of the file parses, to an address that is not 0.0.0.0. */
  ghost predicate DbOk(db: Db) {
    && CidrOk(db.defaults.cidr)
    && forall i | 0 <= i < |db.profiles| :: CidrOk(db.profiles[i].cidr)
  }

  lemma {:induction false} ProfileFromOk(ps: seq<Profile>, id: string, i: nat)
    requires i <= |ps| && forall j | 0 <= j < |ps| :: CidrOk(ps[j].cidr)
    ensures ProfileFrom(ps, id, i).Some? ==> CidrOk(ProfileFrom(ps, id, i).value.cidr)
    decreases |ps| - i
  {
    if i < |ps| {
      ProfileFromOk(ps, id, i + 1);
    }
  }

  lemma DbOkConfigs(db: Db, id: string)
    requires DbOk(db)
    ensures ConfigAddressOk(db, id)
  {
    ProfileFromOk(db.profiles, id, 0);
  }

  /** A client with a session has an address. */
  predicate Addressed(c: Client) {
    c.cur.Live? ==> c.ip != 0
  }

  lemma HandshakeAddresses(s: State, e: Event, k: nat)
    requires AddrInv(s) && EventOk(e) && AutoEvent(e) && e.Shake? && k < |s.clients| && Addressed(s.clients[k])
    requires ConfigAddressOk(s.db, e.q.id)
    ensures Addressed(Step(s, e).clients[k])
    ensures Harmless(s, e, k)
  {
    hide AutoEntry;
    hide Answer;
    hide ConfigAddressOk;
    hide Disjoint;
    hide UniqueIds;
    hide Stale;
    hide ProfileTaken;
    if !Stale(s, e.q) && !ProfileTaken(s, e.q) {
      AutoEntryKeepsAddr(s, e.q, e.memory);
      EntryAddressed(s, e.q, e.memory, k);
      var (s1, j, taken) := EntryFor(s, e.q, e.memory);
      if j >= 0 {
        AnswerAddresses(s1, j, taken, e.q, e.fault, e.rand);
      }
    }
  }

  lemma EntryAddressed(s: State, q: Init, memory: Memory, k: nat)
    requires Shape(s) && k < |s.clients| && Addressed(s.clients[k])
    ensures Addressed(AutoEntry(s, q, memory).0.clients[k])
  {
  }

  lemma AnswerAddresses(s: State, k: nat, taken: bool, q: Init, fault: Fault, rand: seq<nat>)
    requires AddrInv(s) && k < |s.clients| && q.auto && ConfigAddressOk(s.db, q.id)
    requires |rand| == 16 && forall j | 0 <= j < 16 :: rand[j] < ServerTable.U32
    requires var p := Merged(s.db, q.id); p.cidr.At? ==> NotHeld(s.clients, k, p.cidr.ip)
    ensures var s' := Answer(s, k, taken, q, fault, rand).0;
            && (Addressed(s.clients[k]) ==> Addressed(s'.clients[k]))
            && (forall j | 0 <= j < |s.clients| && j != k :: s'.clients[j] == s.clients[j])
  {
    hide NewIndex;
    hide BuildConfig;
    hide Identified;
    hide Disjoint;
    hide UniqueIds;
    hide ConfigAddressOk;
    AnswerConfig(s, k, q, fault == ConfigTooLong);
    ConfigAddress(s, k, q, fault == ConfigTooLong);
  }

  lemma VisitAddressed(s: State, j: nat, pass: Pass, memory: Memory, k: nat)
    requires Shape(s) && j < |s.clients| && k < |s.clients| && Addressed(s.clients[k])
    ensures Addressed(Visit(s, j, pass, memory).clients[k])
  {
  }

  lemma {:induction false} PassAddressed(s: State, n: nat, pass: Pass, memory: Memory, k: nat)
    requires Shape(s) && n <= |s.clients| && k < |s.clients| && Addressed(s.clients[k])
    ensures Addressed(Visited(s, n, pass, memory).clients[k])
  {
    hide Addressed;
    hide Visit;
    if n > 0 {
      PassAddressed(s, n - 1, pass, memory, k);
      VisitAddressed(Visited(s, n - 1, pass, memory), n - 1, pass, memory, k);
    }
  }

  lemma StepAddressed(s: State, e: Event, k: nat)
    requires AddrInv(s) && DbOk(s.db) && EventOk(e) && AutoEvent(e)
    requires k < |s.clients| && Addressed(s.clients[k])
    ensures Addressed(Step(s, e).clients[k]) && Harmless(s, e, k)
  {
    hide DbOk;
    hide Handshake;
    hide CountPreAuth;
    assert EntryOk(s.clients[k]);
    match e
    case Shake(q, _, _, _) =>
      DbOkConfigs(s.db, q.id);
      HandshakeAddresses(s, e, k);
    case Expire(memory) => PassAddressed(s, |s.clients|, Expiry, memory, k);
    case Configure(db, allowed, memory) =>
      var s0 := s.(db := db);
      PassAddressed(s0, |s.clients|, Keys(allowed), memory, k);
      var s1 := Whole(s0, Keys(allowed), memory);
      PassAddressed(s1, |s.clients|, UnknownIds, memory, k);
      PassAddressed(Whole(s1, UnknownIds, memory), |s.clients|, ProfileAddresses, memory, k);
    case _ =>
  }

  /** While every configuration's addresses are usable, each client with a
      session has an address, and each session's packets are accepted from
      the address of its CONFIG. */
  lemma {:induction false} GoodProfilesAgree(s: State, es: seq<Event>, k: nat)
    requires Fresh(s) && DbOk(s.db) && k < |s.clients|
    requires forall i | 0 <= i < |es| :: EventOk(es[i]) && AutoEvent(es[i]) && (es[i].Configure? ==> DbOk(es[i].db))
    ensures var s' := Run(s, es); DbOk(s'.db) && Agrees(s'.clients[k]) && Addressed(s'.clients[k])
  {
    hide DbOk;
    hide AddrInv;
    hide Step;
    hide Harmless;
    if es != [] {
      var before := es[..|es| - 1];
      GoodProfilesAgree(s, before, k);
      AddressesInEveryRun(s, before);
      StepAddressed(Run(s, before), es[|es| - 1], k);
      StepAgreesExactly(Run(s, before), es[|es| - 1], k);
    }
  }

  /* ---- profiles that break the agreement ---- */

  const GOOD := Profile("a", At(0x0AC80005), true)
  const BAD := Profile("a", BadCidr, true)

  function OneProfile(p: Profile): Db {
    Db([p], Profile("", NoCidr, false), 0x0AC80000, 24, 0x0AC80001, 120, false)
  }

  /** A server with one slot at its start. */
  function Started(p: Profile): State {
    ServerSteps.State([EMPTY], 0, Leases([], 0, 0), 0, 0, 0, 0, OneProfile(p), 1000, 1000, 60)
  }

  /** Client "a" makes its `n`-th handshake, and nothing goes wrong. */
  function Asks(n: nat, memory: Memory): Event {
    Shake(Init(7, true, "a", None, Addr(1, 2), -1, n, 5, 3, 4), NoFault, seq(16, _ => n * 0x1_0000), memory)
  }

  lemma StartedOk(p: Profile)
    ensures Fresh(Started(p)) && PoolOk(OneProfile(p))
  {
    assert Pow2(3) == 8;
    assert Pow2(6) == 64;
  }

  /** The entry of client "a" between its handshakes, or none. */
  predicate Waiting(c: Client, n: nat) {
    || c == EMPTY
    || (c.active && c.id == "a" && c.fd == -1 && c.lastData == 0 && c.pending == 0 && n == 2
        && c.cur.Live? && c.cur.local == 0x1_0001 && c.next == Wiped && c.prev == Wiped)
  }

  lemma AsksEntry(p: Profile, s: State, n: nat, memory: Memory)
    requires p in [GOOD, BAD] && Shape(s) && s.db == OneProfile(p) && |s.clients| == 1
    requires Waiting(s.clients[0], n)
    ensures var q := Asks(n, memory).q;
            var c := s.clients[0];
            && Merged(s.db, q.id) == p && !Stale(s, q) && !ProfileTaken(s, q)
            && EntryFor(s, q, memory) == (s.(clients := [if c == EMPTY then TAKEN else c],
                                             allocNext := if c == EMPTY then 0 else s.allocNext), 0, c == EMPTY)
  {
    assert s.clients == [s.clients[0]];
    assert Merged(s.db, "a") == p;
    var k := FindById(s.clients, "a");
    assert k == if s.clients[0] == EMPTY then -1 else 0;
    if k < 0 {
      assert FindByAddr(s.clients, Addr(1, 2)) == -1;
      assert FreeSlot(s.clients, s.allocNext, 0) == 0;
      assert s.clients[0 := TAKEN] == [TAKEN];
    }
  }

  /** What the handshake leads to under the client's own profile. */
  lemma AsksAnswer(p: Profile, s: State, n: nat, memory: Memory)
    requires p in [GOOD, BAD] && Shape(s) && s.db == OneProfile(p) && s.leases.table == []
    requires 0 < n < 3 && |s.clients| == 1
    requires s.clients[0] == TAKEN || (s.clients[0] != EMPTY && Waiting(s.clients[0], n))
    requires Merged(s.db, "a") == p
    ensures EventOk(Asks(n, memory))
    ensures var e := Asks(n, memory);
            var c := s.clients[0];
            var (s', r) := Answer(s, 0, c == TAKEN, e.q, NoFault, e.rand);
            var made := Live(n * 0x1_0000 + 1, 5, 3, 4, s.now, CidrIp(p.cidr));
            var c' := s'.clients[0];
            && s'.leases.table == [] && c'.active && c'.id == "a" && c'.fd == -1 && c'.lastData == 0
            && c'.prev == Wiped && (p == BAD || c.ip in [0, 0x0AC80005] ==> c'.pending == 0)
            && c'.ip == (if p == GOOD && c.ip == 0 then 0x0AC80005 else c.ip)
            && (if c == TAKEN then c'.cur == made && c'.next == Wiped else c'.cur == c.cur && c'.next == made)
  {
    hide BuildConfig;
    hide NewIndex;
    hide PoolOk;
    var e := Asks(n, memory);
    var c1 := Identified(s, s.clients[0], e.q);
    AsksConfig(p, s.(clients := s.clients[0 := c1]), e.q);
    AsksIndex(c1, n, memory);
  }

  /** A complete profile gives the CONFIG. */
  lemma AsksConfig(p: Profile, s: State, q: Init)
    requires Shape(s) && Merged(s.db, q.id) == p && p in [GOOD, BAD]
    ensures BuildConfig(s, 0, q.id, q.ip, false) == (s, Some(CidrIp(p.cidr)))
  {
  }

  lemma AsksIndex(c: Client, n: nat, memory: Memory)
    requires 0 < n < 3 && c.prev == Wiped && c.next == Wiped
    requires c.cur == Wiped || (n == 2 && c.cur.local == 0x1_0001)
    ensures NewIndex(c, 0, Asks(n, memory).rand, 0) == n * 0x1_0000 + 1
  {
    assert Asks(n, memory).rand[0] == n * 0x1_0000;
  }

  lemma AsksShake(p: Profile, s: State, n: nat, memory: Memory)
    requires p in [GOOD, BAD] && Shape(s) && s.db == OneProfile(p) && |s.clients| == 1 && s.leases.table == []
    requires 0 < n < 3 && Waiting(s.clients[0], n) && s.clients[0].ip in [0, 0x0AC80005]
    ensures EventOk(Asks(n, memory)) && AutoEvent(Asks(n, memory))
    ensures var s' := Step(s, Asks(n, memory));
            var made := Live(n * 0x1_0000 + 1, 5, 3, 4, s.now, CidrIp(p.cidr));
            var c, c' := s.clients[0], s'.clients[0];
            && s'.leases.table == [] && c'.active && c'.id == "a" && c'.fd == -1 && c'.lastData == 0
            && c'.prev == Wiped && c'.pending == 0
            && c'.ip == (if p == GOOD then 0x0AC80005 else c.ip)
            && (if c == EMPTY then c'.cur == made && c'.next == Wiped else c'.cur == c.cur && c'.next == made)
  {
    hide Answer;
    hide EntryFor;
    hide Stale;
    hide ProfileTaken;
    var e := Asks(n, memory);
    AsksEntry(p, s, n, memory);
    AsksAnswer(p, EntryFor(s, e.q, memory).0, n, memory);
  }

  /** Another block for client "a" is loaded: its entry stays as it is. */
  function Loads(p: Profile, memory: Memory): Event {
    Configure(OneProfile(p), _ => true, memory)
  }

  lemma LoadsKeeps(p: Profile, s: State, memory: Memory)
    requires p in [GOOD, BAD] && Shape(s) && |s.clients| == 1 && s.clients[0].pending == 0 && s.clients[0].id == "a"
    ensures EventOk(Loads(p, memory)) && Step(s, Loads(p, memory)) == s.(db := OneProfile(p))
  {
    StartedOk(p);
    var s' := s.(db := OneProfile(p));
    VisitKeeps(s', Keys(_ => true), memory);
    VisitKeeps(s', UnknownIds, memory);
    VisitKeeps(s', ProfileAddresses, memory);
    assert Step(s, Loads(p, memory)) == Reload(s, OneProfile(p), _ => true, memory);
  }

  lemma VisitKeeps(s: State, pass: Pass, memory: Memory)
    requires Shape(s) && |s.clients| == 1 && s.clients[0].pending == 0 && s.clients[0].id == "a"
    requires s.db in [OneProfile(GOOD), OneProfile(BAD)]
    requires pass == UnknownIds || pass == ProfileAddresses || (pass.Keys? && forall k: nat :: pass.allowed(k))
    ensures Whole(s, pass, memory) == s
  {
    assert Visited(s, 0, pass, memory) == s;
    assert s.clients[0 := s.clients[0]] == s.clients;
  }

  /** The run of a first handshake under one block, a reload with another
      one, and a second handshake. */
  function TwoBlocks(p: Profile, p': Profile, memory: Memory): seq<Event> {
    [Asks(1, memory), Loads(p', memory), Asks(2, memory)]
  }

  lemma TwoBlocksRun(p: Profile, p': Profile, memory: Memory)
    requires p in [GOOD, BAD] && p' in [GOOD, BAD]
    ensures var s, es := Started(p), TwoBlocks(p, p', memory);
            && Fresh(s) && (forall i | 0 <= i < |es| :: EventOk(es[i]) && AutoEvent(es[i]) && T.OverUdp(es[i]))
            && Agrees(After(s, es, 2).clients[0])
            && var c := Run(s, es).clients[0];
               && c.cur.Live? && ConfigOf(c, InCur) == CidrIp(p.cidr)
               && c.next.Live? && ConfigOf(c, InNext) == CidrIp(p'.cidr)
               && c.pending == 0
               && c.ip == if p == BAD && p' == BAD then 0 else 0x0AC80005
  {
    hide Handshake;
    hide Reload;
    hide PoolOk;
    hide EntryFor;
    hide Answer;
    var s, es := Started(p), TwoBlocks(p, p', memory);
    StartedOk(p);
    AsksShake(p, s, 1, memory);
    var s1 := Step(s, es[0]);
    LoadsKeeps(p', s1, memory);
    var s2 := Step(s1, es[1]);
    AsksShake(p', s2, 2, memory);
    assert es[..1] == [es[0]] && es[..2] == [es[0], es[1]];
    assert es[..2][..1] == es[..1] && es[..1][..0] == [];
    assert Run(s, es[..1]) == s1;
    assert Run(s, es[..2]) == s2;
    assert Run(s, es) == Step(s2, es[2]);
  }

  /** A client whose block now has an address that does not parse: its next
      session comes with a CONFIG without the address its packets need. */
  lemma BadProfileBreaksAgreement(memory: Memory)
    ensures var s, es := Started(GOOD), TwoBlocks(GOOD, BAD, memory);
            && Fresh(s) && (forall i | 0 <= i < |es| :: EventOk(es[i]) && AutoEvent(es[i])) && T.Carried(T.Udp, s, es)
            && Agrees(After(s, es, 2).clients[0])
            && var c := Run(s, es).clients[0];
               c.next.Live? && ConfigOf(c, InNext) == 0 && Accepts(c, InNext) == 0x0AC80005
  {
    TwoBlocksRun(GOOD, BAD, memory);
    T.UdpCarried(Started(GOOD), TwoBlocks(GOOD, BAD, memory));
  }

  /** A client that got its session under such a block: once the address is
      right, its current session needs one that its CONFIG did not have. */
  lemma MendedProfileBreaksAgreement(memory: Memory)
    ensures var s, es := Started(BAD), TwoBlocks(BAD, GOOD, memory);
            && Fresh(s) && (forall i | 0 <= i < |es| :: EventOk(es[i]) && AutoEvent(es[i])) && T.Carried(T.Udp, s, es)
            && Agrees(After(s, es, 2).clients[0])
            && var c := Run(s, es).clients[0];
               c.cur.Live? && ConfigOf(c, InCur) == 0 && Accepts(c, InCur) == 0x0AC80005
  {
    TwoBlocksRun(BAD, GOOD, memory);
    T.UdpCarried(Started(BAD), TwoBlocks(BAD, GOOD, memory));
  }
}
