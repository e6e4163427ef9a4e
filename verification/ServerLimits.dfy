/** How many TCP connections may wait to register, over every run (camex.c). */
module ServerLimits {
  import opened Wrappers
  import opened ServerTable
  import opened ServerSteps
  import opened ServerRotation

  /* ---- one connection ---- */

  /** The connections that have not registered: an active entry with a
      descriptor, of no client yet. */
  function Waiting(cs: seq<Client>): set<nat> {
    set k: nat | k < |cs| && cs[k].active && cs[k].fd >= 0 && !cs[k].registered
  }

  function WaitingFrom(cs: seq<Client>, ip: nat): set<nat> {
    set k: nat | k in Waiting(cs) && cs[k].addr.ip == ip
  }

  /** Half the slots, but at most 32, and at least one. */
  predicate IsLimit(limit: nat, slots: nat) {
    limit == if slots < 4 then 1 else if slots < 64 then slots / 2 else 32
  }

  /** The slot waits longest of those past the grace period, the first one
      among equals. */
  ghost predicate Longest(s: State, k: nat) {
    && k in Waiting(s.clients) && s.clients[k].connectedAt + 2 <= s.now
    && forall j | j in Waiting(s.clients) :: s.clients[k].connectedAt <= s.clients[j].connectedAt
                                             && (j < k ==> s.clients[k].connectedAt < s.clients[j].connectedAt)
  }

  lemma OneMore(cs: seq<Client>, ip: nat, n: nat)
    requires 0 < n <= |cs|
    ensures var c, cs0, cs1 := cs[n - 1], cs[..n - 1], cs[..n];
            && Waiting(cs1) == (if PreAuth(c) then Waiting(cs0) + {n - 1} else Waiting(cs0))
            && WaitingFrom(cs1, ip) == (if PreAuth(c) && c.addr.ip == ip then WaitingFrom(cs0, ip) + {n - 1}
                                        else WaitingFrom(cs0, ip))
            && n - 1 !in Waiting(cs0) && n - 1 !in WaitingFrom(cs0, ip)
  {
  }

  lemma {:induction false} CountIsCard(s: State, ip: nat, n: nat)
    requires n <= |s.clients|
    ensures var (all, same, oldest) := CountPreAuth(s, ip, n);
            all == |Waiting(s.clients[..n])| && same == |WaitingFrom(s.clients[..n], ip)|
  {
    if n == 0 {
      assert Waiting(s.clients[..0]) == {} && WaitingFrom(s.clients[..0], ip) == {};
    } else {
      CountIsCard(s, ip, n - 1);
      OneMore(s.clients, ip, n);
      hide Waiting, WaitingFrom, PreAuth;
    }
  }

  lemma {:induction false} OldestWaits(s: State, ip: nat, n: nat)
    requires n <= |s.clients|
    ensures var k := CountPreAuth(s, ip, n).2;
            if k < 0 then forall j | 0 <= j < n && PreAuth(s.clients[j]) :: s.now < s.clients[j].connectedAt + 2
            else
              && s.clients[k].connectedAt + 2 <= s.now
              && forall j | 0 <= j < n && PreAuth(s.clients[j]) ::
                   s.clients[k].connectedAt <= s.clients[j].connectedAt
                   && (j < k ==> s.clients[k].connectedAt < s.clients[j].connectedAt)
  {
    if n > 0 {
      OldestWaits(s, ip, n - 1);
    }
    hide PreAuth;
  }

  /** The slot a connection gets: the first that is not active. */
  ghost predicate FirstFree(cs: seq<Client>, k: nat) {
    k < |cs| && !cs[k].active && forall j | 0 <= j < k :: cs[j].active
  }

  /** The table a connection finds, and its slot in it: if `full`, the one
      waiting longest is closed before. */
  ghost predicate RoomFor(s: State, full: bool, cs: seq<Client>, k: nat) {
    && (if full then exists v: nat :: Longest(s, v) && cs == s.clients[v := EMPTY.(fd := 0)] else cs == s.clients)
    && FirstFree(cs, k)
  }

  lemma {:induction false} FirstFreeIs(cs: seq<Client>, i: nat)
    requires i <= |cs| && forall j | 0 <= j < i :: cs[j].active
    ensures var k := FreeSlot(cs, 0, i);
            if k >= 0 then FirstFree(cs, k) else forall j | 0 <= j < |cs| :: cs[j].active
    decreases |cs| - i
  {
    if i < |cs| && cs[i].active {
      FirstFreeIs(cs, i + 1);
    }
  }

  lemma WaitingIs(cs: seq<Client>)
    ensures forall j: nat :: j in Waiting(cs) <==> j < |cs| && PreAuth(cs[j])
  {
  }

  lemma OldestIsLongest(s: State, ip: nat)
    ensures var k := CountPreAuth(s, ip, |s.clients|).2;
            if k < 0 then forall j | j in Waiting(s.clients) :: s.now < s.clients[j].connectedAt + 2 else Longest(s, k)
  {
    OldestWaits(s, ip, |s.clients|);
    WaitingIs(s.clients);
    hide CountPreAuth, Waiting, PreAuth;
  }

  function FreshLine(fd: int, peer: Addr, now: nat): Client {
    EMPTY.(active := true, fd := fd, addr := peer, lastSeen := now, connectedAt := now)
  }

  lemma ConnectedIn(s: State, fd: int, peer: Addr)
    requires Shape(s)
    ensures var s' := Connected(s, fd, peer);
            var (all, same, oldest) := CountPreAuth(s, peer.ip, |s.clients|);
            var full := all >= PreAuthLimit(|s.clients|);
            if same >= PREAUTH_PER_IP || (full && oldest < 0) then s' == s
            else
              var cs := if full then s.clients[oldest := EMPTY.(fd := 0)] else s.clients;
              var k := FreeSlot(cs, 0, 0);
              if k >= 0 then s' == s.(clients := cs[k := FreshLine(fd, peer, s.now)]) else s' == s
  {
    hide CountPreAuth, FreeSlot;
    var (all, same, oldest) := CountPreAuth(s, peer.ip, |s.clients|);
    if all >= PreAuthLimit(|s.clients|) && oldest >= 0 {
      FirstFreeIs(s.clients[oldest := EMPTY.(fd := 0)], 0);
    }
  }

  /** Exactly what a new connection does. It is refused, and nothing changes,
      if four from its address wait already, if the limit is reached and none
      has waited for two seconds, or if there is no slot. Otherwise it gets the
      first free slot, after the one waiting longest was closed if the limit is
      reached. */
  lemma ConnectExactly(s: State, fd: int, peer: Addr, limit: nat)
    requires Shape(s) && IsLimit(limit, |s.clients|)
    ensures var s' := Connected(s, fd, peer);
            var full := |Waiting(s.clients)| >= limit;
            if || |WaitingFrom(s.clients, peer.ip)| >= 4
               || (full && forall j | j in Waiting(s.clients) :: s.now < s.clients[j].connectedAt + 2)
               || (!full && forall j | 0 <= j < |s.clients| :: s.clients[j].active)
            then s' == s
            else exists cs, k: nat :: RoomFor(s, full, cs, k) && s' == s.(clients := cs[k := FreshLine(fd, peer, s.now)])
  {
    CountIsCard(s, peer.ip, |s.clients|);
    OldestIsLongest(s, peer.ip);
    assert s.clients[..|s.clients|] == s.clients;
    ConnectedIn(s, fd, peer);
    var (all, same, oldest) := CountPreAuth(s, peer.ip, |s.clients|);
    hide CountPreAuth, Waiting, WaitingFrom, PreAuth, Connected, FreeSlot;
    var full := all >= PreAuthLimit(|s.clients|);
    var cs := if full && oldest >= 0 then s.clients[oldest := EMPTY.(fd := 0)] else s.clients;
    FirstFreeIs(cs, 0);
    if !(full && oldest < 0) && FreeSlot(cs, 0, 0) >= 0 {
      assert RoomFor(s, full, cs, FreeSlot(cs, 0, 0));
    }
    hide RoomFor, Longest, FirstFree;
  }

  /* ---- every run ---- */

  /** An active entry that is of no client yet has a connection. */
  ghost predicate Lined(cs: seq<Client>) {
    forall k | 0 <= k < |cs| && cs[k].active && !cs[k].registered :: cs[k].fd >= 0
  }

  predicate SameLine(c: Client, c': Client) {
    c'.active == c.active && c'.registered == c.registered && c'.fd == c.fd
  }

  lemma LineFrames(s: State, c: Client, q: Init, idx: nat, cfg: nat, c0: Client)
    ensures SameLine(c, Identified(s, c, q))
    ensures SameLine(c.(registered := true), WithSession(s, c, q, idx, cfg))
    ensures SameLine(c.(registered := c0.registered), RolledBack(c, c0, false)) && RolledBack(c, c0, true) == EMPTY
  {
  }

  lemma AnswerLine(s: State, k: nat, taken: bool, q: Init, fault: Fault, rand: seq<nat>)
    requires Shape(s) && k < |s.clients|
    requires |rand| == 16 && forall j | 0 <= j < 16 :: rand[j] < ServerTable.U32
    ensures var (s', r) := Answer(s, k, taken, q, fault, rand);
            var c, c' := s.clients[k], s'.clients[k];
            && s'.clients == s.clients[k := c']
            && (c' == EMPTY || SameLine(c.(registered := true), c') || (!taken && SameLine(c, c')))
  {
    hide NewIndex, BuildConfig, RolledBack, WithSession, Identified;
    var c0 := s.clients[k];
    var s1 := s.(clients := s.clients[k := Identified(s, c0, q)]);
    BuildConfigFrame(s1, k, q.id, q.ip, fault == ConfigTooLong);
    var (s2, cfg) := if q.auto then BuildConfig(s1, k, q.id, q.ip, fault == ConfigTooLong) else (s1, Some(0));
    var c2 := s2.clients[k];
    var idx := NewIndex(c2, k, rand, 0);
    LineFrames(s, c0, q, idx, 0, c0);
    LineFrames(s2, c2, q, idx, 0, c0);
    if cfg.Some? {
      LineFrames(s2, c2, q, idx, cfg.value, c0);
      LineFrames(s2, WithSession(s2, c2, q, idx, cfg.value), q, idx, cfg.value, c0);
    }
  }

  lemma EntryLine(s: State, q: Init, memory: Memory)
    requires Shape(s)
    ensures var (s1, k, taken) := EntryFor(s, q, memory);
            && (k < 0 ==> s1 == s)
            && (forall j | 0 <= j < |s.clients| && j != k :: s1.clients[j] == s.clients[j] || s1.clients[j] == EMPTY)
            && (k >= 0 && !taken ==> SameLine(s.clients[k].(fd := s1.clients[k].fd), s1.clients[k])
                                     && (s1.clients[k].fd == s.clients[k].fd || s1.clients[k].fd >= 0))
  {
    hide ManualRefused, LeasesAfterEnd, FreeSlot;
  }

  /** No other slot waits than did before. */
  ghost predicate NoMoreWait(cs: seq<Client>, cs': seq<Client>) {
    |cs'| == |cs| && forall k | 0 <= k < |cs| && cs'[k].active && !cs'[k].registered ::
                       cs[k].active && !cs[k].registered && (cs'[k].fd == cs[k].fd || cs'[k].fd >= 0)
  }

  lemma HandshakeLines(s: State, q: Init, fault: Fault, rand: seq<nat>, memory: Memory)
    requires Shape(s) && |rand| == 16 && forall j | 0 <= j < 16 :: rand[j] < ServerTable.U32
    ensures NoMoreWait(s.clients, Handshake(s, q, fault, rand, memory).0.clients)
  {
    hide Stale, ProfileTaken, EntryFor, Answer;
    EntryLine(s, q, memory);
    var (s1, k, taken) := EntryFor(s, q, memory);
    if !Stale(s, q) && !ProfileTaken(s, q) && k >= 0 {
      AnswerLine(s1, k, taken, q, fault, rand);
    }
  }

  lemma {:induction false} PassLines(s: State, n: nat, pass: Pass, memory: Memory)
    requires Shape(s) && n <= |s.clients|
    ensures NoMoreWait(s.clients, Visited(s, n, pass, memory).clients)
  {
    hide Visit;
    if n > 0 {
      PassLines(s, n - 1, pass, memory);
      VisitLines(Visited(s, n - 1, pass, memory), n - 1, pass, memory);
    }
  }

  lemma VisitLines(s: State, k: nat, pass: Pass, memory: Memory)
    requires Shape(s) && k < |s.clients|
    ensures NoMoreWait(s.clients, Visit(s, k, pass, memory).clients)
  {
    hide LeasesAfterEnd;
  }

  lemma OtherLines(s: State, e: Event)
    requires Shape(s) && EventOk(e) && !e.Connect?
    ensures NoMoreWait(s.clients, Step(s, e).clients)
  {
    match e
    case Shake(q, fault, rand, memory) => HandshakeLines(s, q, fault, rand, memory);
    case Expire(memory) => PassLines(s, |s.clients|, Expiry, memory);
    case Configure(db, allowed, memory) =>
      var s1 := Whole(s.(db := db), Keys(allowed), memory);
      var s2 := Whole(s1, UnknownIds, memory);
      PassLines(s.(db := db), |s.clients|, Keys(allowed), memory);
      PassLines(s1, |s.clients|, UnknownIds, memory);
      PassLines(s2, |s.clients|, ProfileAddresses, memory);
    case _ =>
    hide Handshake, Visited, LeasesAfterEnd;
  }

  lemma FewerWait(cs: seq<Client>, cs': seq<Client>)
    requires Lined(cs) && NoMoreWait(cs, cs')
    ensures Lined(cs') && |Waiting(cs')| <= |Waiting(cs)|
  {
    assert Waiting(cs') <= Waiting(cs);
    SubsetCard(Waiting(cs'), Waiting(cs));
  }

  lemma {:induction false} SubsetCard(a: set<nat>, b: set<nat>)
    requires a <= b
    ensures |a| <= |b|
  {
    assert b == a + (b - a);
  }

  lemma ConnectLimited(s: State, fd: int, peer: Addr, limit: nat)
    requires Shape(s) && fd >= 0 && Lined(s.clients) && IsLimit(limit, |s.clients|) && |Waiting(s.clients)| <= limit
    ensures var s' := Connected(s, fd, peer); Lined(s'.clients) && |Waiting(s'.clients)| <= limit
  {
    ConnectExactly(s, fd, peer, limit);
    var s' := Connected(s, fd, peer);
    hide Connected, Lined, Waiting;
    if s' != s {
      var full := |Waiting(s.clients)| >= limit;
      var cs, k: nat :| RoomFor(s, full, cs, k)
        && s' == s.(clients := cs[k := FreshLine(fd, peer, s.now)]);
      RoomIsMade(s, full, cs, k);
      OneConnects(cs, k, s'.clients[k]);
    }
  }

  lemma RoomIsMade(s: State, full: bool, cs: seq<Client>, k: nat)
    requires Lined(s.clients) && RoomFor(s, full, cs, k)
    ensures Lined(cs) && |Waiting(cs)| == |Waiting(s.clients)| - if full then 1 else 0
  {
    if full {
      var v: nat :| Longest(s, v) && cs == s.clients[v := EMPTY.(fd := 0)];
      assert Waiting(cs) == Waiting(s.clients) - {v};
    }
  }

  lemma OneConnects(cs: seq<Client>, k: nat, c: Client)
    requires FirstFree(cs, k) && Lined(cs) && c.fd >= 0
    ensures Lined(cs[k := c]) && |Waiting(cs[k := c])| <= |Waiting(cs)| + 1
  {
    assert Waiting(cs[k := c]) <= Waiting(cs) + {k};
    SubsetCard(Waiting(cs[k := c]), Waiting(cs) + {k});
  }

  /** In every run the connections that wait to register are within the limit,
      whatever comes over them. */
  lemma {:induction false} WaitingInEveryRun(s: State, es: seq<Event>, limit: nat)
    requires Fresh(s) && forall i | 0 <= i < |es| :: EventOk(es[i]) && (es[i].Connect? ==> es[i].fd >= 0)
    requires IsLimit(limit, |s.clients|)
    ensures Lined(Run(s, es).clients) && |Waiting(Run(s, es).clients)| <= limit
  {
    if es == [] {
      assert Waiting(s.clients) == {};
    } else {
      var v, e := Run(s, es[..|es| - 1]), es[|es| - 1];
      WaitingInEveryRun(s, es[..|es| - 1], limit);
      if e.Connect? {
        ConnectLimited(v, e.fd, e.peer, limit);
      } else {
        OtherLines(v, e);
        FewerWait(v.clients, Step(v, e).clients);
      }
    }
    hide Connected, Handshake, Visited, AfterData, Closed, Lined, Waiting;
  }
}
