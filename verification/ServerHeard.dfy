/** When the server has last heard of each client, over every run (server.c). */
module ServerHeard {
  import opened Wrappers
  import opened ServerTable
  import opened ServerLeases
  import opened ServerSteps
  import opened ServerAgreement
  import opened ServerRotation
  import opened ServerAdmission

  /** The event is a packet that opens on entry `k`. */
  predicate HearsData(s: State, e: Event, k: nat) {
    e.Packet? && Opens(s, e.d) && SlotOf(s, e.d.idx) == k
  }

  /** The entry a handshake is answered on, whatever comes of it; -1 for none. */
  function AnsweredOn(s: State, e: Event): (k: int)
    requires Shape(s) && EventOk(e)
    ensures -1 <= k < |s.clients|
  {
    if e.Shake? && Handshake(s, e.q, e.fault, e.rand, e.memory).1 != Rejected
    then EntryFor(s, e.q, e.memory).1 else -1
  }

  /** It takes the slot for a new client. */
  predicate TakesSlot(s: State, e: Event, k: nat)
    requires Shape(s) && EventOk(e)
  {
    AnsweredOn(s, e) == k && EntryFor(s, e.q, e.memory).2
  }

  /** The same times, and the same peer address. */
  predicate SameTimes(c: Client, c': Client) {
    c'.lastSeen == c.lastSeen && c'.lastData == c.lastData && c'.connectedAt == c.connectedAt && c'.addr == c.addr
  }

  /** Where an entry sends to after a handshake from `q.from`: a client with a
      session moves only with its connection. */
  function Moved(c: Client, q: Init): Addr {
    if c.cur.Live? && q.fd < 0 then c.addr else q.from
  }

  /** A connection that has just come. */
  predicate NewLine(c: Client, peer: Addr, now: nat) {
    c.lastSeen == now && c.connectedAt == now && c.lastData == 0 && !c.registered && c.addr == peer
  }

  lemma TimeFrames(s: State, c: Client, q: Init, idx: nat, cfg: nat, c0: Client)
    ensures Identified(s, c, q).lastSeen == s.now && Identified(s, c, q).lastData == c.lastData
    ensures Identified(s, c, q).connectedAt == c.connectedAt && Identified(s, c, q).active == c.active
    ensures Identified(s, c, q).addr == Moved(c, q)
    ensures SameTimes(c, WithSession(s, c, q, idx, cfg)) && WithSession(s, c, q, idx, cfg).active == c.active
    ensures SameTimes(c, RolledBack(c, c0, false)) && RolledBack(c, c0, false).active == c.active
    ensures RolledBack(c, c0, true) == EMPTY
  {
  }

  lemma AnswerTimes(s: State, k: nat, taken: bool, q: Init, fault: Fault, rand: seq<nat>)
    requires Shape(s) && k < |s.clients|
    requires |rand| == 16 && forall j | 0 <= j < 16 :: rand[j] < ServerTable.U32
    ensures var (s', r) := Answer(s, k, taken, q, fault, rand);
            var c, c' := s.clients[k], s'.clients[k];
            && r != Rejected && s'.clients == s.clients[k := c']
            && if r == Failed && taken then c' == EMPTY
               else && c'.lastSeen == s.now && c'.lastData == c.lastData && c'.connectedAt == c.connectedAt
                    && c'.active == c.active && c'.addr == Moved(c, q)
  {
    hide NewIndex;
    hide BuildConfig;
    hide RolledBack;
    hide WithSession;
    hide Identified;
    var c0 := s.clients[k];
    var s1 := s.(clients := s.clients[k := Identified(s, c0, q)]);
    BuildConfigFrame(s1, k, q.id, q.ip, fault == ConfigTooLong);
    var (s2, cfg) := if q.auto then BuildConfig(s1, k, q.id, q.ip, fault == ConfigTooLong) else (s1, Some(0));
    var c2 := s2.clients[k];
    var idx := NewIndex(c2, k, rand, 0);
    TimeFrames(s, c0, q, idx, 0, c0);
    TimeFrames(s2, c2, q, idx, 0, c0);
    if cfg.Some? {
      TimeFrames(s2, c2, q, idx, cfg.value, c0);
      TimeFrames(s2, WithSession(s2, c2, q, idx, cfg.value), q, idx, cfg.value, c0);
    }
  }

  lemma EntryTimes(s: State, q: Init, memory: Memory)
    requires Shape(s)
    ensures var (s1, k, taken) := EntryFor(s, q, memory);
            && s1.now == s.now && (k < 0 ==> s1 == s)
            && (forall j | 0 <= j < |s.clients| && j != k :: s1.clients[j] == s.clients[j] || s1.clients[j] == EMPTY)
            && (k >= 0 ==> s1.clients[k].active
                           && if taken then s1.clients[k].lastData == 0 && s1.clients[k].cur == Wiped
                              else s.clients[k].active && SameTimes(s.clients[k], s1.clients[k])
                                   && s1.clients[k].cur == s.clients[k].cur)
  {
    hide ManualRefused;
    hide LeasesAfterEnd;
    hide FreeSlot;
  }

  lemma HandshakeTimes(s: State, e: Event, k: nat)
    requires Shape(s) && EventOk(e) && e.Shake? && k < |s.clients|
    ensures var c, c' := s.clients[k], Step(s, e).clients[k];
            if AnsweredOn(s, e) == k then
              c' == EMPTY || (c'.active && c'.lastSeen == s.now
                              && if TakesSlot(s, e, k) then c'.lastData == 0 && c'.addr == e.q.from
                                 else c.active && c'.lastData == c.lastData && c'.addr == Moved(c, e.q))
            else c' == EMPTY || c' == c
  {
    hide Stale;
    hide ProfileTaken;
    hide EntryFor;
    hide Answer;
    EntryTimes(s, e.q, e.memory);
    var (s1, j, taken) := EntryFor(s, e.q, e.memory);
    if !Stale(s, e.q) && !ProfileTaken(s, e.q) && j >= 0 {
      AnswerTimes(s1, j, taken, e.q, e.fault, e.rand);
    }
  }

  ghost predicate TimesKept(cs: seq<Client>, cs': seq<Client>) {
    |cs'| == |cs| && forall k | 0 <= k < |cs| && cs'[k].active :: cs[k].active && SameTimes(cs[k], cs'[k])
  }

  lemma VisitTimes(s: State, k: nat, pass: Pass, memory: Memory)
    requires Shape(s) && k < |s.clients|
    ensures TimesKept(s.clients, Visit(s, k, pass, memory).clients)
  {
    hide LeasesAfterEnd;
  }

  lemma {:induction false} PassTimes(s: State, n: nat, pass: Pass, memory: Memory)
    requires Shape(s) && n <= |s.clients|
    ensures TimesKept(s.clients, Visited(s, n, pass, memory).clients)
  {
    hide Visit;
    if n > 0 {
      PassTimes(s, n - 1, pass, memory);
      VisitTimes(Visited(s, n - 1, pass, memory), n - 1, pass, memory);
    }
  }

  /** What each event does to the times and the peer address of an entry: data
      counts as heard and as data, an answered handshake as heard, a new
      connection as heard. The peer of a session moves only with authentic
      data, over TCP only with a handshake on another connection. Nothing else
      changes them while the entry lasts. */
  lemma TimesExactly(s: State, e: Event, k: nat)
    requires Shape(s) && EventOk(e) && k < |s.clients|
    ensures var c, c' := s.clients[k], Step(s, e).clients[k];
            if HearsData(s, e, k) then
              && c'.active && c'.lastSeen == s.now && c'.lastData == s.now
              && c'.addr == (if e.d.fd < 0 then e.d.from else c.addr)
            else if AnsweredOn(s, e) == k then
              c' == EMPTY || (c'.active && c'.lastSeen == s.now
                              && if TakesSlot(s, e, k) then c'.lastData == 0 && c'.addr == e.q.from
                                 else c.active && c'.lastData == c.lastData && c'.addr == Moved(c, e.q))
            else !c'.active || (c.active && SameTimes(c, c')) || (e.Connect? && NewLine(c', e.peer, s.now))
  {
    hide Handshake;
    hide LeasesAfterEnd;
    hide CountPreAuth;
    hide FreeSlot;
    hide Visited;
    match e
    case Shake(_, _, _, _) => HandshakeTimes(s, e, k);
    case Expire(memory) => PassTimes(s, |s.clients|, Expiry, memory);
    case Configure(db, allowed, memory) =>
      var s1 := Whole(s.(db := db), Keys(allowed), memory);
      var s2 := Whole(s1, UnknownIds, memory);
      PassTimes(s.(db := db), |s.clients|, Keys(allowed), memory);
      PassTimes(s1, |s.clients|, UnknownIds, memory);
      PassTimes(s2, |s.clients|, ProfileAddresses, memory);
    case _ =>
  }

  /* ---- runs ---- */

  lemma NowGrows(s: State, e: Event)
    requires Shape(s) && EventOk(e)
    ensures Step(s, e).now == s.now + if e.Tick? then e.seconds else 0
  {
    hide Handshake;
    hide LeasesAfterEnd;
    hide Visited;
    hide AfterData;
    hide Connected;
  }

  lemma {:induction false} NowInRun(s: State, es: seq<Event>, i: nat, n: nat)
    requires Shape(s) && (forall j | 0 <= j < |es| :: EventOk(es[j])) && i <= n <= |es|
    ensures After(s, es, i).now <= After(s, es, n).now
    decreases n
  {
    hide After;
    hide Step;
    if i < n {
      NowInRun(s, es, i, n - 1);
      AfterNext(s, es, n - 1);
      NowGrows(After(s, es, n - 1), es[n - 1]);
    }
  }

  /** An entry's time is over: a connection that has not registered within its
      timeout, or a client not heard of within the server's. */
  predicate Overdue(s: State, c: Client) {
    if c.fd >= 0 && !c.registered then s.now > c.connectedAt + 10
    else s.now > c.lastSeen + s.db.clientTimeout
  }

  /** From a packet that opens on it on, an entry that keeps a session was heard
      then or later; so for the timeout it counts as live and is not overdue. */
  lemma {:induction false} HeardSince(s: State, es: seq<Event>, i: nat, n: nat, k: nat)
    requires Fresh(s) && (forall j | 0 <= j < |es| :: EventOk(es[j])) && i < n <= |es| && k < |s.clients|
    requires HearsData(After(s, es, i), es[i], k)
    requires forall j | i < j <= n :: After(s, es, j).clients[k].cur.Live?
    requires forall j | i < j < n :: !TakesSlot(After(s, es, j), es[j], k)
    ensures var c, t := After(s, es, n).clients[k], After(s, es, i).now;
            t <= c.lastData && t <= c.lastSeen
    ensures var v := After(s, es, n);
            v.now - After(s, es, i).now <= v.db.clientTimeout ==> Recent(v, v.clients[k]) && !Overdue(v, v.clients[k])
    decreases n
  {
    hide After;
    hide Step;
    hide TakesSlot;
    hide AnsweredOn;
    hide HearsData;
    AfterNext(s, es, n - 1);
    TimesExactly(After(s, es, n - 1), es[n - 1], k);
    NowInRun(s, es, i, n - 1);
    NowInRun(s, es, 0, i);
    Registered(s, es, n, k);
    if i < n - 1 {
      HeardSince(s, es, i, n - 1, k);
    }
  }

  lemma Registered(s: State, es: seq<Event>, n: nat, k: nat)
    requires Fresh(s) && (forall j | 0 <= j < |es| :: EventOk(es[j])) && n <= |es| && k < |s.clients|
    ensures var c := After(s, es, n).clients[k]; c.cur.Live? ==> c.registered && c.active
  {
    IndexesInEveryRun(s, es[..n]);
    assert SessionsOk(After(s, es, n).clients[k], k);
  }

  /** And the server knows no later time of a client's data than that of a
      packet which opened on its entry, nor of its being heard than that of a
      packet, an answered handshake or its connection. */
  lemma {:induction false} HeardWhen(s: State, es: seq<Event>, n: nat, k: nat)
    requires Fresh(s) && (forall j | 0 <= j < |es| :: EventOk(es[j])) && n <= |es| && k < |s.clients|
    ensures var c := After(s, es, n).clients[k];
            c.active && c.lastData != 0 ==>
              exists i :: 0 <= i < n && HearsData(After(s, es, i), es[i], k) && After(s, es, i).now == c.lastData
    ensures var c := After(s, es, n).clients[k];
            c.active ==> exists i :: 0 <= i < n && Hears(After(s, es, i), es[i], k) && After(s, es, i).now == c.lastSeen
  {
    hide After;
    hide Step;
    hide TakesSlot;
    hide AnsweredOn;
    hide HearsData;
    hide NewLine;
    hide Hears;
    if n == 0 {
      AfterNone(s, es);
    } else {
      HeardWhen(s, es, n - 1, k);
      AfterNext(s, es, n - 1);
      HearsStep(After(s, es, n - 1), es[n - 1], k);
    }
  }

  /** The event makes the server hear of the entry. */
  predicate Hears(s: State, e: Event, k: nat)
    requires Shape(s) && EventOk(e)
  {
    HearsData(s, e, k) || AnsweredOn(s, e) == k || e.Connect?
  }

  lemma HearsStep(s: State, e: Event, k: nat)
    requires Shape(s) && EventOk(e) && k < |s.clients|
    ensures var c, c' := s.clients[k], Step(s, e).clients[k];
            && (c'.active && c'.lastData != 0 ==>
                  (HearsData(s, e, k) && c'.lastData == s.now)
                  || (c.active && c'.lastData == c.lastData))
            && (c'.active ==> (Hears(s, e, k) && c'.lastSeen == s.now) || (c.active && c'.lastSeen == c.lastSeen))
  {
    hide Step;
    hide AnsweredOn;
    hide HearsData;
    TimesExactly(s, e, k);
  }

  lemma AfterNone(s: State, es: seq<Event>)
    requires Fresh(s) && forall j | 0 <= j < |es| :: EventOk(es[j])
    ensures After(s, es, 0) == s && forall k | 0 <= k < |s.clients| :: !s.clients[k].active
  {
  }
}
