/** The addresses of a server that has manual clients as well: exactly when a
    manual handshake leaves an address with two entries, and what keeps them
    apart over every run (server.c). */
module ServerManual {
  import opened Wrappers
  import opened ServerTable
  import opened ServerLeases
  import opened ServerSteps
  import opened ServerAddresses
  import opened ServerAgreement
  import opened ServerRotation

  /* ---- manual clients ---- */

  /** A manual handshake gets the entry at its source: it came over that
      entry's connection, or the entry has no session. */
  predicate TakesOver(s: State, q: Init) {
    var a := FindByAddr(s.clients, q.from);
    a >= 0 && (q.fd >= 0 || !s.clients[a].cur.Live?)
  }

  /** A manual handshake, not refused, claims the address of an entry and gets
      another one: that at its source, which is no connection waiting to be
      registered, or a new slot, unless the entry is the one given up for it. */
  predicate ClaimsAnothers(s: State, q: Init)
    requires Shape(s)
  {
    && q.ip.Some? && !ManualRefused(s, q)
    && var had, a := FindByIp(s.clients, q.ip.value), FindByAddr(s.clients, q.from);
       && had >= 0 && a >= 0 && a != had
       && (s.clients[a].fd < 0 || s.clients[a].registered)
       && (TakesOver(s, q) || FreeSlot(s.clients, s.allocNext, 0) >= 0
           || (!Holding(s) && had != Quietest(s.clients, |s.clients|)))
  }

  /** Exactly when a manual handshake's entry leaves an address with two. */
  lemma ManualEntryDisjoint(s: State, q: Init, memory: Memory)
    requires Shape(s) && Disjoint(s.clients) && !q.auto
    ensures Disjoint(EntryFor(s, q, memory).0.clients) <==> !ClaimsAnothers(s, q)
  {
    hide ManualRefused;
    hide LeasesAfterEnd;
    hide Disjoint;
    hide FreeSlot;
    if q.ip.Some? && !ManualRefused(s, q) {
      var ip := q.ip.value;
      var (s1, k, taken) := EntryFor(s, q, memory);
      var had := FindByIp(s.clients, ip);
      if k >= 0 && had >= 0 && had != k {
        assert s1.clients[had] == s.clients[had];
        HeldTwice(s1.clients, had, k, ip);
      } else if k >= 0 {
        OnlyHolder(s.clients, k, ip);
        LaterHolders(s.clients, s1.clients, k, ip);
      }
    }
  }

  lemma HeldTwice(cs: seq<Client>, j: nat, k: nat, ip: nat)
    requires j < |cs| && k < |cs| && j != k && Holds(cs[j], ip) && Holds(cs[k], ip)
    ensures !Disjoint(cs)
  {
  }

  lemma LaterHolders(cs: seq<Client>, cs': seq<Client>, k: nat, ip: nat)
    requires Disjoint(cs) && |cs'| == |cs| && k < |cs| && NotHeld(cs, k, ip)
    requires forall j | 0 <= j < |cs| && j != k :: cs'[j] == cs[j] || cs'[j] == EMPTY
    requires forall a | Holds(cs'[k], a) :: a == ip || Holds(cs[k], a)
    ensures Disjoint(cs')
  {
    forall i, j, a | 0 <= i < |cs'| && 0 <= j < |cs'| && i != j && Holds(cs'[i], a)
      ensures !Holds(cs'[j], a)
    {
      if j == k {
        assert Holds(cs[i], a);
      }
    }
  }

  /** The table when a manual handshake has its entry. */
  lemma ManualEntryTable(s: State, q: Init, memory: Memory)
    requires Shape(s) && !q.auto
    ensures EntryFor(s, q, memory).1 < 0 ==> EntryFor(s, q, memory).0 == s
    ensures EntryFor(s, q, memory).1 >= 0 ==> q.ip.Some? && !ManualRefused(s, q)
    ensures var (s1, k, taken) := EntryFor(s, q, memory);
            k >= 0 ==>
            var ip := q.ip.value;
            var had := FindByIp(s.clients, ip);
            && s1.clients[k].active && s1.clients[k].ip == ip
            && (forall a | Holds(s1.clients[k], a) :: a == ip || Holds(s.clients[k], a))
            && (forall j | 0 <= j < |s.clients| && j != k :: s1.clients[j] == s.clients[j] || s1.clients[j] == EMPTY)
            && (had >= 0 && had != k ==> s1.clients[had] == s.clients[had] && (taken <==> !TakesOver(s, q)))
  {
    hide ManualRefused;
    hide LeasesAfterEnd;
    hide FreeSlot;
  }

  lemma ManualAnswerHolds(s: State, k: nat, taken: bool, q: Init, fault: Fault, rand: seq<nat>)
    requires Shape(s) && !q.auto && k < |s.clients|
    requires |rand| == 16 && forall j | 0 <= j < 16 :: rand[j] < ServerTable.U32
    ensures var (s', r) := Answer(s, k, taken, q, fault, rand);
            var c, c' := s.clients[k], s'.clients[k];
            && r != Rejected && s'.clients == s.clients[k := c']
            && if r == Failed && taken then c' == EMPTY
               else c'.active == c.active && c'.ip == c.ip && forall a | Holds(c', a) :: Holds(c, a)
  {
    hide NewIndex;
  }

  /** Exactly when a whole manual handshake does: it claims another entry's
      address and succeeds, or fails on an entry that was there before. */
  lemma ManualHandshakeDisjoint(s: State, q: Init, fault: Fault, rand: seq<nat>, memory: Memory)
    requires Shape(s) && Disjoint(s.clients) && !q.auto
    requires |rand| == 16 && forall j | 0 <= j < 16 :: rand[j] < ServerTable.U32
    ensures var (s', r) := Handshake(s, q, fault, rand, memory);
            Disjoint(s'.clients) <==> !(!Stale(s, q) && ClaimsAnothers(s, q) && (r == Accepted || TakesOver(s, q)))
  {
    hide ManualRefused;
    hide Disjoint;
    hide FreeSlot;
    hide Stale;
    hide EntryFor;
    hide Answer;
    hide TakesOver;
    ManualEntryDisjoint(s, q, memory);
    ManualEntryTable(s, q, memory);
    var (s1, k, taken) := EntryFor(s, q, memory);
    if !Stale(s, q) && k >= 0 {
      var ip := q.ip.value;
      var had := FindByIp(s.clients, ip);
      ManualAnswerHolds(s1, k, taken, q, fault, rand);
      var (s', r) := Answer(s1, k, taken, q, fault, rand);
      if had >= 0 && had != k {
        HeldTwice(s1.clients, had, k, ip);
      } else {
        OnlyHolder(s.clients, k, ip);
        LaterHolders(s.clients, s1.clients, k, ip);
      }
      if r == Failed && taken {
        LaterHolders(s.clients, s'.clients, k, 0);
      } else if had >= 0 && had != k {
        HeldTwice(s'.clients, had, k, ip);
      } else {
        DisjointUpdate(s1.clients, k, s'.clients[k]);
      }
    }
  }

  /* ---- automatic handshakes beside manual clients ---- */

  /** An automatic handshake takes the address of its profile while an entry
      with the same ID, but not the one it gets, has that address and stays. */
  predicate TakesAnothers(s: State, q: Init)
    requires Shape(s)
  {
    && !Stale(s, q) && !ProfileTaken(s, q) && Merged(s.db, q.id).cidr.At?
    && var had := FindByIp(s.clients, Merged(s.db, q.id).cidr.ip);
       && had >= 0 && !Evicts(s, q, had) && !WipesFd(s, q, had)
       && var w := WayOf(s, q); w != NoWay && (w.Entry? ==> w.k != had)
  }

  /** The handshake gives an entry the address of another one; an automatic
      one may give it up again for one of the pool, if its profile has no
      gateway. */
  predicate Clashes(s: State, e: Event)
    requires Shape(s)
  {
    e.Shake? &&
    if e.q.auto then TakesAnothers(s, e.q) && Succeeds(s, e)
    else !Stale(s, e.q) && ClaimsAnothers(s, e.q) && (TakesOver(s, e.q) || Succeeds(s, e))
  }

  /** The client keeps the address its handshake gives it. */
  predicate Keeps(s: State, e: Event) {
    e.Shake? && e.q.auto ==> Merged(s.db, e.q.id).gateway
  }

  predicate Succeeds(s: State, e: Event)
    requires Shape(s) && e.Shake?
  {
    EventOk(e) && Handshake(s, e.q, e.fault, e.rand, e.memory).1 == Accepted
  }

  /** The table when an automatic handshake has its entry. */
  lemma AutoEntryTable(s: State, q: Init, memory: Memory)
    requires Shape(s) && q.auto && !Stale(s, q) && !ProfileTaken(s, q)
    ensures var (s1, k, taken) := EntryFor(s, q, memory);
            && s1.db == s.db
            && (forall j | 0 <= j < |s.clients| && j != k :: s1.clients[j] == s.clients[j] || s1.clients[j] == EMPTY)
            && (k >= 0 ==>
                  && (forall a | Holds(s1.clients[k], a) :: Holds(s.clients[k], a))
                  && WayOf(s, q) != NoWay && (WayOf(s, q).Entry? ==> WayOf(s, q).k == k)
                  && s1.clients[k].active
                  && (WayOf(s, q) == NewSlot && s.clients[k].active ==> Evicts(s, q, k))
                  && (forall j | 0 <= j < |s.clients| && WipesFd(s, q, j) :: j != k && s1.clients[j] == EMPTY)
                  && (forall j | 0 <= j < |s.clients| && j != k && !WipesFd(s, q, j) :: s1.clients[j] == s.clients[j])
                  && forall j | 0 <= j < |s.clients| && Evicts(s, q, j) :: j == k)
  {
    hide Stale;
    hide ProfileTaken;
    hide LeasesAfterEnd;
    hide Quietest;
    hide FreeSlot;
  }

  /** An address only the entry has, if any. */
  lemma ProfileIsFree(s: State, q: Init, memory: Memory)
    requires Shape(s) && Disjoint(s.clients) && q.auto && !Stale(s, q) && !ProfileTaken(s, q) && !TakesAnothers(s, q)
    requires EntryFor(s, q, memory).1 >= 0
    ensures var (s1, k, _) := EntryFor(s, q, memory);
            var p := Merged(s1.db, q.id);
            Disjoint(s1.clients) && (p.cidr.At? ==> NotHeld(s1.clients, k, p.cidr.ip))
  {
    hide Stale;
    hide ProfileTaken;
    hide EntryFor;
    hide WayOf;
    hide Evicts;
    hide WipesFd;
    AutoEntryTable(s, q, memory);
    var (s1, k, _) := EntryFor(s, q, memory);
    LaterHolders(s.clients, s1.clients, k, 0);
    if Merged(s.db, q.id).cidr.At? {
      var x := Merged(s.db, q.id).cidr.ip;
      var had := FindByIp(s.clients, x);
      if had < 0 || had == k {
        OnlyHolder(s.clients, k, x);
      } else {
        assert s1.clients[had] == EMPTY;
        OnlyHolder(s.clients, had, x);
      }
    }
  }

  lemma AutoAnswerDisjoint(s: State, k: nat, taken: bool, q: Init, fault: Fault, rand: seq<nat>)
    requires Shape(s) && Disjoint(s.clients) && k < |s.clients| && q.auto
    requires |rand| == 16 && forall j | 0 <= j < 16 :: rand[j] < ServerTable.U32
    requires var p := Merged(s.db, q.id); p.cidr.At? ==> NotHeld(s.clients, k, p.cidr.ip)
    ensures Disjoint(Answer(s, k, taken, q, fault, rand).0.clients)
  {
    hide NewIndex;
    hide BuildConfig;
    hide Identified;
    hide Disjoint;
    hide NotHeld;
    AnswerConfig(s, k, q, fault == ConfigTooLong);
    var cs := Answer(s, k, taken, q, fault, rand).0.clients;
    assert cs == s.clients[k := cs[k]];
    DisjointUpdate(s.clients, k, cs[k]);
  }

  /** A failed handshake gives its entry nothing. */
  lemma FailedAnswerDisjoint(s: State, k: nat, taken: bool, q: Init, fault: Fault, rand: seq<nat>)
    requires Shape(s) && Disjoint(s.clients) && k < |s.clients| && q.auto
    requires |rand| == 16 && forall j | 0 <= j < 16 :: rand[j] < ServerTable.U32
    requires Answer(s, k, taken, q, fault, rand).1 == Failed
    ensures Disjoint(Answer(s, k, taken, q, fault, rand).0.clients)
  {
    hide NewIndex;
    hide BuildConfig;
    hide Disjoint;
    var s1 := s.(clients := s.clients[k := Identified(s, s.clients[k], q)]);
    BuildConfigFrame(s1, k, q.id, q.ip, fault == ConfigTooLong);
    var cs := Answer(s, k, taken, q, fault, rand).0.clients;
    assert cs == s.clients[k := cs[k]];
    DisjointUpdate(s.clients, k, cs[k]);
  }

  /** A successful one under a complete profile has the profile's address. */
  lemma CompleteAnswerHolds(s: State, k: nat, taken: bool, q: Init, fault: Fault, rand: seq<nat>)
    requires Shape(s) && k < |s.clients| && s.clients[k].active && q.auto
    requires |rand| == 16 && forall j | 0 <= j < 16 :: rand[j] < ServerTable.U32
    requires var p := Merged(s.db, q.id); p.cidr.At? && p.cidr.ip != 0 && p.gateway
    requires Answer(s, k, taken, q, fault, rand).1 == Accepted
    ensures Holds(Answer(s, k, taken, q, fault, rand).0.clients[k], Merged(s.db, q.id).cidr.ip)
  {
    hide NewIndex;
    var s1 := s.(clients := s.clients[k := Identified(s, s.clients[k], q)]);
    assert BuildConfig(s1, k, q.id, q.ip, fault == ConfigTooLong).0 == s1;
  }

  /** Exactly when a step leaves an address with two entries. */
  lemma StepDisjoint(s: State, e: Event)
    requires Shape(s) && EventOk(e) && Disjoint(s.clients)
    ensures !Clashes(s, e) ==> Disjoint(Step(s, e).clients)
    ensures Clashes(s, e) && Keeps(s, e) ==> !Disjoint(Step(s, e).clients)
  {
    hide Disjoint;
    hide Handshake;
    hide AfterData;
    hide Connected;
    hide Closed;
    hide Whole;
    hide Reload;
    hide ClaimsAnothers;
    hide TakesAnothers;
    var cs := Step(s, e).clients;
    match e
    case Tick(_) =>
    case Connect(fd, peer) => ConnectHolds(s, fd, peer); LessKeeps(s.clients, cs);
    case Close(fd, memory) => CloseHolds(s, fd, memory); LessKeeps(s.clients, cs);
    case Shake(q, fault, rand, memory) =>
      if q.auto {
        AutoHandshakeDisjoint(s, e);
      } else {
        ManualHandshakeDisjoint(s, q, fault, rand, memory);
      }
    case Packet(d) => DataHolds(s, d); LessKeeps(s.clients, cs);
    case Expire(memory) => WholeHolds(s, Expiry, memory); LessKeeps(s.clients, cs);
    case Configure(db, allowed, memory) =>
      var s1 := Whole(s.(db := db), Keys(allowed), memory);
      var s2 := Whole(s1, UnknownIds, memory);
      WholeHolds(s.(db := db), Keys(allowed), memory);
      WholeHolds(s1, UnknownIds, memory);
      WholeHolds(s2, ProfileAddresses, memory);
      LessKeeps(s.clients, s1.clients);
      LessKeeps(s1.clients, s2.clients);
      LessKeeps(s2.clients, Whole(s2, ProfileAddresses, memory).clients);
      ReloadIs(s, db, allowed, memory);
  }

  lemma ReloadIs(s: State, db: Db, allowed: nat -> bool, memory: Memory)
    requires Shape(s) && PoolOk(db)
    ensures Reload(s, db, allowed, memory)
         == Whole(Whole(Whole(s.(db := db), Keys(allowed), memory), UnknownIds, memory), ProfileAddresses, memory)
  {
  }

  lemma AutoHandshakeDisjoint(s: State, e: Event)
    requires Shape(s) && Disjoint(s.clients) && e.Shake? && EventOk(e) && e.q.auto
    ensures !Clashes(s, e) ==> Disjoint(Step(s, e).clients)
    ensures Clashes(s, e) && Keeps(s, e) ==> !Disjoint(Step(s, e).clients)
  {
    hide Disjoint;
    hide Stale;
    hide ProfileTaken;
    hide EntryFor;
    hide Answer;
    hide WayOf;
    hide Evicts;
    hide WipesFd;
    var q := e.q;
    if !Stale(s, q) && !ProfileTaken(s, q) {
      var (s1, k, taken) := EntryFor(s, q, e.memory);
      if k < 0 {
        AutoRejected(s, q, e.memory);
      } else {
        AutoEntryTable(s, q, e.memory);
        AnswerOutcome(s1, k, taken, q, e.fault, e.rand);
        if Answer(s1, k, taken, q, e.fault, e.rand).1 == Failed {
          LaterHolders(s.clients, s1.clients, k, 0);
          FailedAnswerDisjoint(s1, k, taken, q, e.fault, e.rand);
        } else if !TakesAnothers(s, q) {
          ProfileIsFree(s, q, e.memory);
          AutoAnswerDisjoint(s1, k, taken, q, e.fault, e.rand);
        } else if Merged(s.db, q.id).gateway {
          var x := Merged(s.db, q.id).cidr.ip;
          var had := FindByIp(s.clients, x);
          CompleteAnswerHolds(s1, k, taken, q, e.fault, e.rand);
          HeldTwice(Step(s, e).clients, had, k, x);
        }
      }
    }
  }

  lemma AnswerOutcome(s: State, k: nat, taken: bool, q: Init, fault: Fault, rand: seq<nat>)
    requires Shape(s) && k < |s.clients| && q.auto
    requires |rand| == 16 && forall j | 0 <= j < 16 :: rand[j] < ServerTable.U32
    ensures var (s', r) := Answer(s, k, taken, q, fault, rand);
            r != Rejected && s'.clients == s.clients[k := s'.clients[k]]
  {
    hide NewIndex;
    hide BuildConfig;
    var s1 := s.(clients := s.clients[k := Identified(s, s.clients[k], q)]);
    BuildConfigFrame(s1, k, q.id, q.ip, fault == ConfigTooLong);
  }

  lemma AutoRejected(s: State, q: Init, memory: Memory)
    requires Shape(s) && q.auto && EntryFor(s, q, memory).1 < 0
    ensures EntryFor(s, q, memory).0 == s
  {
  }

  /** Every entry holds no more than before. */
  ghost predicate HoldLess(cs: seq<Client>, cs': seq<Client>) {
    |cs'| == |cs| && forall k, a | 0 <= k < |cs| && Holds(cs'[k], a) :: Holds(cs[k], a)
  }

  lemma LessKeeps(cs: seq<Client>, cs': seq<Client>)
    requires Disjoint(cs) && HoldLess(cs, cs')
    ensures Disjoint(cs')
  {
    forall i, j, a | 0 <= i < |cs'| && 0 <= j < |cs'| && i != j && Holds(cs'[i], a)
      ensures !Holds(cs'[j], a)
    {
      assert Holds(cs[i], a);
    }
  }

  lemma ConnectHolds(s: State, fd: int, peer: Addr)
    requires Shape(s)
    ensures HoldLess(s.clients, Connected(s, fd, peer).clients)
  {
    hide CountPreAuth;
    hide FreeSlot;
  }

  lemma CloseHolds(s: State, fd: int, memory: Memory)
    requires Shape(s)
    ensures HoldLess(s.clients, Closed(s, fd, memory).clients)
  {
    hide LeasesAfterEnd;
  }

  lemma DataHolds(s: State, d: Data)
    requires Shape(s)
    ensures HoldLess(s.clients, AfterData(s, d).clients)
  {
  }

  lemma VisitHolds(s: State, k: nat, pass: Pass, memory: Memory)
    requires Shape(s) && k < |s.clients|
    ensures HoldLess(s.clients, Visit(s, k, pass, memory).clients)
  {
    hide LeasesAfterEnd;
  }

  lemma {:induction false} PassHolds(s: State, n: nat, pass: Pass, memory: Memory)
    requires Shape(s) && n <= |s.clients|
    ensures HoldLess(s.clients, Visited(s, n, pass, memory).clients)
  {
    hide Visit;
    if n > 0 {
      PassHolds(s, n - 1, pass, memory);
      VisitHolds(Visited(s, n - 1, pass, memory), n - 1, pass, memory);
    }
  }

  lemma WholeHolds(s: State, pass: Pass, memory: Memory)
    requires Shape(s)
    ensures HoldLess(s.clients, Whole(s, pass, memory).clients)
  {
    PassHolds(s, |s.clients|, pass, memory);
  }

  /* ---- runs ---- */

  lemma {:induction false} DisjointFrom(s: State, es: seq<Event>, m: nat)
    requires Shape(s) && forall i | 0 <= i < |es| :: EventOk(es[i])
    requires m <= |es| && Disjoint(After(s, es, m).clients)
    ensures (forall n | m <= n < |es| :: !Clashes(After(s, es, n), es[n])) ==>
              forall n | m <= n <= |es| :: Disjoint(After(s, es, n).clients)
    ensures (forall n | m <= n <= |es| :: Disjoint(After(s, es, n).clients)) ==>
              forall n | m <= n < |es| && Keeps(After(s, es, n), es[n]) :: !Clashes(After(s, es, n), es[n])
    decreases |es| - m
  {
    hide After;
    hide Clashes;
    hide Disjoint;
    if m < |es| {
      AfterNext(s, es, m);
      StepDisjoint(After(s, es, m), es[m]);
      if Disjoint(After(s, es, m + 1).clients) {
        DisjointFrom(s, es, m + 1);
      }
    }
  }

  /** In every run of automatic and manual clients, under any configuration:
      no address is ever with two entries as long as no handshake clashes, and
      one is once one does whose client keeps the address. */
  lemma AddressesWithManual(s: State, es: seq<Event>)
    requires Fresh(s) && forall i | 0 <= i < |es| :: EventOk(es[i])
    ensures (forall n | 0 <= n < |es| :: !Clashes(After(s, es, n), es[n])) ==>
              forall n | 0 <= n <= |es| :: Disjoint(After(s, es, n).clients)
    ensures (forall n | 0 <= n <= |es| :: Disjoint(After(s, es, n).clients)) ==>
              forall n | 0 <= n < |es| && Keeps(After(s, es, n), es[n]) :: !Clashes(After(s, es, n), es[n])
  {
    assert es[..0] == [];
    DisjointFrom(s, es, 0);
  }
}
