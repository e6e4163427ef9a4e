/** Which handshakes the server takes: none that repeats one of a live client,
    over every run, and exactly what it refuses otherwise (server.c). */
module ServerAdmission {
  import opened Wrappers
  import opened ServerTable
  import opened ServerLeases
  import opened ServerSteps
  import opened ServerAddresses
  import opened ServerAgreement
  import opened ServerRotation
  import opened ServerPool

  /* ---- replays ---- */

  /** The entry whose client a handshake claims to be: the one with its ID, or
      with the address it names; -1 for none. */
  function OwnerOf(s: State, q: Init): (k: int)
    ensures -1 <= k < |s.clients|
  {
    if q.auto then FindById(s.clients, q.id)
    else if q.ip.Some? then FindByIp(s.clients, q.ip.value)
    else -1
  }

  /** The client has a session and sent authentic data within the timeout. */
  predicate Recent(s: State, c: Client) {
    c.cur.Live? && c.lastData != 0 && s.now - c.lastData <= s.db.clientTimeout
  }

  /** The entry on which a handshake sets up a session, whether or not its RESP
      can be sent; -1 for none. */
  function SetsUp(s: State, e: Event): (k: int)
    requires Shape(s) && EventOk(e)
    ensures -1 <= k < |s.clients|
  {
    if e.Shake?
       && Handshake(s, e.q, if e.fault == SendFails then NoFault else e.fault, e.rand, e.memory).1 == Accepted
    then EntryFor(s, e.q, e.memory).1 else -1
  }

  lemma ReplayRejected(s: State, q: Init, fault: Fault, rand: seq<nat>, memory: Memory, k: nat)
    requires Shape(s) && |rand| == 16 && forall j | 0 <= j < 16 :: rand[j] < ServerTable.U32
    requires OwnerOf(s, q) == k && Recent(s, s.clients[k]) && s.clients[k].psk == q.key && q.ts <= s.clients[k].hsTs
    ensures Handshake(s, q, fault, rand, memory) == (s, Rejected)
  {
  }

  /** The key and the latest timestamp of an entry. */
  predicate SameStamp(c: Client, c': Client) {
    c'.psk == c.psk && c'.hsTs == c.hsTs
  }

  lemma StampFrames(s: State, c: Client, q: Init, idx: nat, cfg: nat, c0: Client)
    ensures SameStamp(c, Identified(s, c, q)) && Identified(s, c, q).id == q.id
    ensures var c1 := WithSession(s, c, q, idx, cfg); c1.psk == q.key && c1.hsTs == q.ts && c1.id == c.id
    ensures var c1 := RolledBack(c, c0, false); c1.psk == c0.psk && c1.hsTs == c.hsTs && c1.id == c.id
  {
  }

  /** What an answered handshake does to the key and timestamp of its entry. */
  lemma AnswerStamp(s: State, k: nat, taken: bool, q: Init, fault: Fault, rand: seq<nat>)
    requires Shape(s) && k < |s.clients|
    requires |rand| == 16 && forall j | 0 <= j < 16 :: rand[j] < ServerTable.U32
    ensures var (s', r) := Answer(s, k, taken, q, fault, rand);
            var sent := Answer(s, k, taken, q, if fault == SendFails then NoFault else fault, rand).1 == Accepted;
            var c, c' := s.clients[k], s'.clients[k];
            && r != Rejected && (r == Accepted ==> sent)
            && s'.clients == s.clients[k := c']
            && if r == Failed && taken then c' == EMPTY
               else
                 && c'.id == q.id
                 && c'.psk == (if r == Accepted then q.key else c.psk)
                 && c'.hsTs == (if sent then q.ts else c.hsTs)
  {
    hide NewIndex;
    hide BuildConfig;
    hide RolledBack;
    hide WithSession;
    hide Identified;
    var c0 := s.clients[k];
    var s1 := s.(clients := s.clients[k := Identified(s, c0, q)]);
    BuildConfigFrame(s1, k, q.id, q.ip, fault == ConfigTooLong);
    var (s2, cfg) := if q.auto then BuildConfig(s1, k, q.id, q.ip, fault == ConfigTooLong) else (s1, Some(0));
    var c2 := s2.clients[k];
    var idx := NewIndex(c2, k, rand, 0);
    StampFrames(s, c0, q, idx, 0, c0);
    StampFrames(s2, c2, q, idx, 0, c0);
    if cfg.Some? {
      StampFrames(s2, c2, q, idx, cfg.value, c0);
      StampFrames(s2, WithSession(s2, c2, q, idx, cfg.value), q, idx, cfg.value, c0);
    }
    assert RolledBack(c2, c0, true) == EMPTY by { TakenIsFreed(c2, c0); }
    if cfg.Some? {
      TakenIsFreed(WithSession(s2, c2, q, idx, cfg.value), c0);
    }
  }

  lemma TakenIsFreed(c: Client, c0: Client)
    ensures RolledBack(c, c0, true) == EMPTY
  {
  }

  /** Getting an entry keeps or empties the others, and keeps the key and
      timestamp of one that was there. */
  lemma EntryStamp(s: State, q: Init, memory: Memory)
    requires Shape(s)
    ensures var (s1, k, taken) := EntryFor(s, q, memory);
            && (k < 0 ==> s1 == s)
            && (forall j | 0 <= j < |s.clients| && j != k :: s1.clients[j] == s.clients[j] || s1.clients[j] == EMPTY)
            && (k >= 0 && !taken ==> SameStamp(s.clients[k], s1.clients[k]))
  {
    hide ManualRefused;
    hide LeasesAfterEnd;
    hide FreeSlot;
  }

  lemma HandshakeStamp(s: State, e: Event, k: nat)
    requires Shape(s) && EventOk(e) && e.Shake? && k < |s.clients|
    requires Step(s, e).clients[k].cur.Live?
    ensures var c, c' := s.clients[k], Step(s, e).clients[k];
            if SetsUp(s, e) == k then
              && c'.hsTs == e.q.ts && c'.id == e.q.id
              && (if Handshake(s, e.q, e.fault, e.rand, e.memory).1 == Accepted then c'.psk == e.q.key else c'.psk == c.psk)
            else SameStamp(c, c')
  {
    hide Stale;
    hide ProfileTaken;
    hide EntryFor;
    hide Answer;
    var q := e.q;
    EntryStamp(s, q, e.memory);
    var (s1, j, taken) := EntryFor(s, q, e.memory);
    if !Stale(s, q) && !ProfileTaken(s, q) && j >= 0 {
      AnswerStamp(s1, j, taken, q, e.fault, e.rand);
    }
  }

  /** Entries with a session had one, with the same key and timestamp. */
  ghost predicate StampsKept(cs: seq<Client>, cs': seq<Client>) {
    |cs'| == |cs| && forall k | 0 <= k < |cs| && cs'[k].cur.Live? :: SameStamp(cs[k], cs'[k]) && cs[k].id == cs'[k].id
  }

  lemma VisitStamps(s: State, k: nat, pass: Pass, memory: Memory)
    requires Shape(s) && k < |s.clients|
    ensures StampsKept(s.clients, Visit(s, k, pass, memory).clients)
    ensures forall j | 0 <= j < |s.clients| && Visit(s, k, pass, memory).clients[j].cur.Live? :: s.clients[j].cur.Live?
  {
    hide LeasesAfterEnd;
  }

  lemma {:induction false} PassStamps(s: State, n: nat, pass: Pass, memory: Memory)
    requires Shape(s) && n <= |s.clients|
    ensures StampsKept(s.clients, Visited(s, n, pass, memory).clients)
    ensures forall j | 0 <= j < |s.clients| && Visited(s, n, pass, memory).clients[j].cur.Live? :: s.clients[j].cur.Live?
  {
    hide Visit;
    if n > 0 {
      PassStamps(s, n - 1, pass, memory);
      VisitStamps(Visited(s, n - 1, pass, memory), n - 1, pass, memory);
    }
  }

  lemma OtherStamps(s: State, e: Event)
    requires Shape(s) && EventOk(e) && !e.Shake?
    ensures StampsKept(s.clients, Step(s, e).clients)
  {
    hide LeasesAfterEnd;
    hide CountPreAuth;
    hide FreeSlot;
    hide Visited;
    match e
    case Expire(memory) => PassStamps(s, |s.clients|, Expiry, memory);
    case Configure(db, allowed, memory) =>
      var s1 := Whole(s.(db := db), Keys(allowed), memory);
      var s2 := Whole(s1, UnknownIds, memory);
      PassStamps(s.(db := db), |s.clients|, Keys(allowed), memory);
      PassStamps(s1, |s.clients|, UnknownIds, memory);
      PassStamps(s2, |s.clients|, ProfileAddresses, memory);
    case _ =>
  }

  /** A later handshake on the entry keeps its guard against replays of `q`: it
      is of the same key, and newer, or checked against the guard itself. */
  predicate KeepsGuard(s: State, e: Event, k: nat, q: Init)
    requires Shape(s) && EventOk(e) && k < |s.clients|
  {
    SetsUp(s, e) == k ==>
      && e.q.key == q.key
      && (q.ts <= e.q.ts || (OwnerOf(s, e.q) == k && Recent(s, s.clients[k])))
  }

  /** The entry guards against replays of `q`. */
  predicate Guards(c: Client, q: Init) {
    c.psk == q.key && q.ts <= c.hsTs
  }

  lemma StepKeepsGuard(s: State, e: Event, k: nat, q: Init)
    requires Shape(s) && EventOk(e) && k < |s.clients| && Guards(s.clients[k], q) && KeepsGuard(s, e, k, q)
    requires Step(s, e).clients[k].cur.Live?
    ensures Guards(Step(s, e).clients[k], q)
  {
    hide Handshake;
    if e.Shake? {
      HandshakeStamp(s, e, k);
      if SetsUp(s, e) == k && e.q.ts < q.ts {
        ReplayRejected(s, e.q, if e.fault == SendFails then NoFault else e.fault, e.rand, e.memory, k);
      }
    } else {
      OtherStamps(s, e);
    }
  }

  /** From an INIT that sets up a session on an entry (if its RESP could not be
      sent, on one with the same key already): as long as the entry has a
      session, and each later session on it was set up by a newer INIT of the
      same key or by one of the entry's client while that was live, an INIT of
      this key that is not newer, and claims to be the entry's client while
      that is live, is rejected and changes nothing. */
  lemma {:induction false} ReplaysAreRejected(s: State, es: seq<Event>, m: nat, k: nat, q: Init, fault: Fault,
                                              rand: seq<nat>, memory: Memory)
    requires Shape(s) && (forall i | 0 <= i < |es| :: EventOk(es[i])) && m < |es| && k < |s.clients|
    requires SetsUp(After(s, es, m), es[m]) == k && After(s, es, m + 1).clients[k].psk == es[m].q.key
    requires forall i | m < i <= |es| :: After(s, es, i).clients[k].cur.Live?
    requires forall i | m < i < |es| :: KeepsGuard(After(s, es, i), es[i], k, es[m].q)
    requires q.key == es[m].q.key && q.ts <= es[m].q.ts
    requires |rand| == 16 && forall j | 0 <= j < 16 :: rand[j] < ServerTable.U32
    ensures var v := After(s, es, |es|);
            OwnerOf(v, q) == k && Recent(v, v.clients[k]) ==> Handshake(v, q, fault, rand, memory) == (v, Rejected)
  {
    hide Handshake;
    hide OwnerOf;
    GuardsFrom(s, es, m, k, |es|);
    var v := After(s, es, |es|);
    if OwnerOf(v, q) == k && Recent(v, v.clients[k]) {
      ReplayRejected(v, q, fault, rand, memory, k);
    }
  }

  lemma {:induction false} GuardsFrom(s: State, es: seq<Event>, m: nat, k: nat, n: nat)
    requires Shape(s) && (forall i | 0 <= i < |es| :: EventOk(es[i])) && m < n <= |es| && k < |s.clients|
    requires SetsUp(After(s, es, m), es[m]) == k && After(s, es, m + 1).clients[k].psk == es[m].q.key
    requires forall i | m < i <= n :: After(s, es, i).clients[k].cur.Live?
    requires forall i | m < i < n :: KeepsGuard(After(s, es, i), es[i], k, es[m].q)
    ensures Guards(After(s, es, n).clients[k], es[m].q)
  {
    hide After;
    hide KeepsGuard;
    hide Step;
    hide Handshake;
    hide EntryFor;
    AfterNext(s, es, n - 1);
    if n == m + 1 {
      SetUpStamp(After(s, es, m), es[m], k);
    } else {
      GuardsFrom(s, es, m, k, n - 1);
      StepKeepsGuard(After(s, es, n - 1), es[n - 1], k, es[m].q);
    }
  }

  lemma SetUpStamp(s: State, e: Event, k: nat)
    requires Shape(s) && EventOk(e) && k < |s.clients| && SetsUp(s, e) == k && Step(s, e).clients[k].cur.Live?
    ensures e.Shake? && Step(s, e).clients[k].hsTs == e.q.ts && Step(s, e).clients[k].id == e.q.id
  {
    hide Handshake;
    HandshakeStamp(s, e, k);
  }

  /** In a run of automatic clients: from a session that an INIT set up for an
      ID, as long as the entry keeps a session under that ID, the ID's INITs
      have one key, and those answered before the client's first data are not
      older, an INIT of that ID and key that is not newer is rejected while the
      client is live, and changes nothing. */
  lemma ReplaysOfAClient(s: State, es: seq<Event>, m: nat, k: nat, q: Init, fault: Fault, rand: seq<nat>,
                         memory: Memory)
    requires Fresh(s) && (forall i | 0 <= i < |es| :: EventOk(es[i]) && AutoEvent(es[i]))
    requires m < |es| && k < |s.clients|
    requires SetsUp(After(s, es, m), es[m]) == k && After(s, es, m + 1).clients[k].psk == es[m].q.key
    requires forall i | m < i <= |es| ::
               var c := After(s, es, i).clients[k]; c.cur.Live? && SameId(c.id, es[m].q.id)
    requires forall i | m < i < |es| && SetsUp(After(s, es, i), es[i]) == k ::
               Recent(After(s, es, i), After(s, es, i).clients[k]) || es[m].q.ts <= es[i].q.ts
    requires forall i | m < i < |es| && es[i].Shake? && SameId(es[i].q.id, es[m].q.id) :: es[i].q.key == es[m].q.key
    requires q.auto && SameId(q.id, es[m].q.id) && q.key == es[m].q.key && q.ts <= es[m].q.ts
    requires |rand| == 16 && forall j | 0 <= j < 16 :: rand[j] < ServerTable.U32
    ensures var v := After(s, es, |es|);
            Recent(v, v.clients[k]) ==> Handshake(v, q, fault, rand, memory) == (v, Rejected)
  {
    hide After;
    hide Handshake;
    hide OwnerOf;
    hide EntryFor;
    hide Step;
    hide Recent;
    hide SameId;
    forall i | m < i < |es|
      ensures KeepsGuard(After(s, es, i), es[i], k, es[m].q)
    {
      if SetsUp(After(s, es, i), es[i]) == k {
        AfterNext(s, es, i);
        assert After(s, es, i + 1).clients[k].cur.Live?;
        SetUpStamp(After(s, es, i), es[i], k);
        SameIds(After(s, es, i + 1).clients[k].id, es[m].q.id, After(s, es, i).clients[k].id);
        AfterKeepsAddr(s, es, i);
        OwnerIs(After(s, es, i), es[i].q, k);
      }
    }
    ReplaysAreRejected(s, es, m, k, q, fault, rand, memory);
    AfterKeepsAddr(s, es, |es|);
    SameIds(q.id, es[m].q.id, After(s, es, |es|).clients[k].id);
    NotNoId(es[m].q.id, q.id);
    OwnerIs(After(s, es, |es|), q, k);
  }

  lemma SameIds(a: string, b: string, c: string)
    requires SameId(a, b)
    ensures SameId(c, b) ==> SameId(c, a)
    ensures SameId(b, a)
  {
  }

  lemma NotNoId(a: string, b: string)
    ensures SameId(b, a) && a != "" ==> b != ""
  {
    assert |Fold(a)| == |a| && |Fold(b)| == |b|;
  }

  lemma OwnerIs(s: State, q: Init, k: nat)
    requires AddrInv(s) && q.auto && q.id != "" && k < |s.clients| && s.clients[k].cur.Live?
    requires SameId(s.clients[k].id, q.id)
    ensures OwnerOf(s, q) == k
  {
    assert EntryOk(s.clients[k]);
    assert s.clients[k].id != "" by {
      assert |Fold(s.clients[k].id)| == |Fold(q.id)|;
    }
    assert IdFree(s.clients, k, s.clients[k].id);
    var f := FindById(s.clients, q.id);
    assert f >= 0;
  }

  /* ---- what is refused ---- */

  /** The handshake is not newer than the latest of its live client. */
  predicate NotNewer(s: State, q: Init) {
    var k := OwnerOf(s, q);
    k >= 0 && Recent(s, s.clients[k]) && s.clients[k].psk == q.key && q.ts <= s.clients[k].hsTs
  }

  /** No slot is free, and the server has just started. */
  ghost predicate NoSlot(s: State) {
    && (forall j | 0 <= j < |s.clients| :: s.clients[j].active)
    && s.started != 0 && s.now < s.started + s.hold
  }

  lemma NoFreeSlot(cs: seq<Client>, start: nat)
    requires start < |cs|
    ensures FreeSlot(cs, start, 0) < 0 <==> forall j | 0 <= j < |cs| :: cs[j].active
  {
    if FreeSlot(cs, start, 0) < 0 {
      forall j | 0 <= j < |cs|
        ensures cs[j].active
      {
        var i := if j >= start then j - start else j + |cs| - start;
        assert Ring(start, i, |cs|) == j;
      }
    }
  }

  lemma NoSlotExactly(s: State, memory: Memory)
    requires Shape(s)
    ensures AllocClient(s, memory).1 < 0 <==> NoSlot(s)
    ensures AllocClient(s, memory).1 < 0 ==> AllocClient(s, memory).0 == s
  {
    NoFreeSlot(s.clients, s.allocNext);
  }

  /** The ID has a block in the configuration. */
  ghost predicate HasBlock(db: Db, id: string) {
    id != "" && exists i :: 0 <= i < |db.profiles| && SameId(db.profiles[i].id, id)
  }

  lemma {:induction false} ProfileFromExists(ps: seq<Profile>, id: string, i: nat)
    requires i <= |ps|
    ensures ProfileFrom(ps, id, i).Some? <==> exists j :: i <= j < |ps| && SameId(ps[j].id, id)
    decreases |ps| - i
  {
    if i < |ps| {
      ProfileFromExists(ps, id, i + 1);
    }
  }

  /** The first entry at the source has a TCP connection. */
  ghost predicate ConnectionAt(s: State, a: Addr) {
    exists k :: 0 <= k < |s.clients| && s.clients[k].active && s.clients[k].addr == a && s.clients[k].fd >= 0
                && forall j | 0 <= j < k :: !(s.clients[j].active && s.clients[j].addr == a)
  }

  lemma ConnectionIsFirst(s: State, a: Addr)
    ensures ConnectionAt(s, a) <==> FindByAddr(s.clients, a) >= 0 && s.clients[FindByAddr(s.clients, a)].fd >= 0
  {
    var f := FindByAddr(s.clients, a);
    assert forall j | 0 <= j < |s.clients| ::
             Matches(s.clients[j], Peer(a)) == (s.clients[j].active && s.clients[j].addr == a);
  }

  /** A client with the ID has an entry. */
  ghost predicate HasEntry(s: State, id: string) {
    exists j :: 0 <= j < |s.clients| && s.clients[j].active && SameId(s.clients[j].id, id)
  }

  /** When an automatic handshake gets no entry. */
  lemma NoEntryExactly(s: State, q: Init, memory: Memory)
    requires Shape(s) && q.auto && q.id != ""
    ensures EntryFor(s, q, memory).1 < 0 <==>
              (s.db.denyUnknown && !HasBlock(s.db, q.id)) || (!HasEntry(s, q.id) && !ConnectionAt(s, q.from) && NoSlot(s))
    ensures EntryFor(s, q, memory).1 < 0 ==> EntryFor(s, q, memory).0 == s
  {
    ProfileFromExists(s.db.profiles, q.id, 0);
    ConnectionIsFirst(s, q.from);
    NoSlotExactly(s, memory);
    hide AllocClient, NoSlot, ConnectionAt, FindByAddr, AdoptTcp;
  }

  /** Exactly which automatic handshakes are refused; nothing changes then. */
  lemma AutoRejectedExactly(s: State, q: Init, fault: Fault, rand: seq<nat>, memory: Memory)
    requires Shape(s) && q.auto && q.id != ""
    requires |rand| == 16 && forall j | 0 <= j < 16 :: rand[j] < ServerTable.U32
    ensures var (s', r) := Handshake(s, q, fault, rand, memory);
            var p := Merged(s.db, q.id);
            && (r == Rejected ==> s' == s)
            && (r == Rejected <==>
                  || NotNewer(s, q)
                  || (p.cidr.At? && var had := FindByIp(s.clients, p.cidr.ip); had >= 0 && !SameId(s.clients[had].id, q.id))
                  || (s.db.denyUnknown && !HasBlock(s.db, q.id))
                  || (!HasEntry(s, q.id) && !ConnectionAt(s, q.from) && NoSlot(s)))
  {
    NoEntryExactly(s, q, memory);
    var (s1, k, taken) := EntryFor(s, q, memory);
    if k >= 0 {
      AnswerStamp(s1, k, taken, q, fault, rand);
    }
    hide Answer, EntryFor, HasBlock, HasEntry, NoSlot, ConnectionAt, Merged, FindById, FindByIp, SameId;
  }

  /** Exactly which manual ones are: of those with an address that parses, the
      replays, those for an address reserved for a client, in use by another,
      or kept for one that is gone, and those there is no slot for. */
  lemma ManualRejectedExactly(s: State, q: Init, fault: Fault, rand: seq<nat>, memory: Memory)
    requires Shape(s) && LeaseInv(s.leases) && !q.auto && q.ip.Some? && q.ip.value != 0
    requires |rand| == 16 && forall j | 0 <= j < 16 :: rand[j] < ServerTable.U32
    ensures var (s', r) := Handshake(s, q, fault, rand, memory);
            var ip := q.ip.value;
            var had, at := FindByIp(s.clients, ip), FindByAddr(s.clients, q.from);
            && (r == Rejected ==> s' == s)
            && (r == Rejected <==>
                  || NotNewer(s, q)
                  || (had >= 0 && s.clients[had].ip != ip)
                  || (had >= 0 && s.clients[had].auto)
                  || (had >= 0 && had != at && !(SameId(s.clients[had].id, q.id) && s.clients[had].psk == q.key))
                  || (exists l :: 0 <= l < |s.leases.table| && s.leases.table[l].ip == ip
                                  && !SameId(s.leases.table[l].id, q.id)
                                  && s.now < s.leases.table[l].since + REKEY_AFTER_TIME + s.db.clientTimeout)
                  || (NoSlot(s)
                      && (had < 0 || (at >= 0 && at != had && (s.clients[at].fd < 0 || s.clients[at].registered)))
                      && (at < 0 || (q.fd < 0 && s.clients[at].cur.Live?))))
  {
    hide Answer;
    hide AllocClient;
    hide FindByIp;
    hide FindByAddr;
    NoSlotExactly(s, memory);
    hide NoSlot;
    LeaseExact(s.leases, s.db, s.now, q.id, q.ip.value);
    var (s1, k, taken) := EntryFor(s, q, memory);
    if k >= 0 {
      AnswerStamp(s1, k, taken, q, fault, rand);
    }
  }

  /** A manual handshake gets an entry that is in use only from its own source,
      or one of a manual client with its ID, key and address. */
  lemma ManualTakesItsOwn(s: State, q: Init, memory: Memory)
    requires Shape(s) && !q.auto && EntryFor(s, q, memory).1 >= 0 && !EntryFor(s, q, memory).2
    ensures var c := s.clients[EntryFor(s, q, memory).1];
            && c.active
            && (c.addr == q.from
                || (!c.auto && SameId(c.id, q.id) && c.psk == q.key && q.ip == Some(c.ip)))
  {
    hide AllocClient;
  }
}
