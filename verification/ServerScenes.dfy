/** Steps of a small server with known clients, for runs that show what can
    happen. */
module ServerScenes {
  import opened Wrappers
  import opened ServerTable
  import opened ServerLeases
  import opened ServerSteps
  import opened ServerRotation

  const HOST := Addr(0x0A000001, 1)
  const OTHER := Addr(0x0A000002, 2)
  const A_IP: nat := 0x0AC80005
  const B_IP: nat := 0x0AC80006

  /** Client "b" has a block with an address. */
  const DB := Db([Profile("b", At(B_IP), true)], Profile("", NoCidr, false), 0x0AC80000, 24, 0x0AC80001, 120, false)

  const HOLD: nat := 60   // seconds; SERVER_POOL_HOLD

  /** A server with `n` slots at its start. */
  function Started(n: nat): State {
    ServerSteps.State(seq(n, _ => EMPTY), 0, Leases([], 0, 0), 0, 0, 0, 0, DB, 1000, 1000, HOLD)
  }

  lemma StartedOk(n: nat)
    requires 0 < n <= MAX_CLIENTS
    ensures Fresh(Started(n)) && RotInv(Started(n).clients)
  {
    assert Pow2(3) == 8;
    assert Pow2(6) == 64;
  }

  /** A handshake in which nothing goes wrong; the random numbers differ from
      one time stamp to the next. */
  function Asks(q: Init, memory: Memory): Event {
    Shake(q, NoFault, seq(16, _ => Drawn(q.ts)), memory)
  }

  function Drawn(ts: nat): nat {
    (4 + ts) * 0x1_0000
  }

  lemma AsksOk(q: Init, memory: Memory)
    requires q.ts < 100
    ensures EventOk(Asks(q, memory)) && Asks(q, memory).rand[0] == Drawn(q.ts)
  {
  }

  /** The entry of a client after its first handshake; an automatic one asks
      for the address of its block. */
  function Entered(c: Client, now: nat, k: nat, q: Init): Client {
    c.(addr := q.from, lastSeen := now, auto := q.auto, id := q.id, psk := q.key, hsTs := q.ts, pending := 0,
       registered := true, cur := Made(now, k, q))
  }

  function Made(now: nat, k: nat, q: Init): Session {
    Live(Drawn(q.ts) + 1 + k, q.remote, q.kSend, q.kRecv, now, if q.auto && q.ip.Some? then q.ip.value else 0)
  }

  lemma ManualAnswer(s: State, k: nat, taken: bool, q: Init, memory: Memory)
    requires Shape(s) && k < |s.clients| && !q.auto && q.ts < 100
    requires var c := s.clients[k]; c.active && c.cur == Wiped && c.next == Wiped && c.prev == Wiped
    ensures var e := Asks(q, memory);
            EventOk(e)
            && Answer(s, k, taken, q, e.fault, e.rand) ==
                 (s.(clients := s.clients[k := Entered(s.clients[k], s.now, k, q)]), Accepted)
  {
    hide PoolOk;
    AsksOk(q, memory);
    var c1 := Identified(s, s.clients[k], q);
    IndexDrawn(c1, k, q, memory);
    assert s.clients[k := c1][k := Entered(s.clients[k], s.now, k, q)] == s.clients[k := Entered(s.clients[k], s.now, k, q)];
  }

  lemma AutoAnswer(s: State, k: nat, q: Init, memory: Memory)
    requires Shape(s) && s.leases.table == [] && k < |s.clients| && q.auto && q.ts < 100 && q.ip.Some?
    requires Merged(s.db, q.id).cidr == At(q.ip.value) && Merged(s.db, q.id).gateway
    requires var c := s.clients[k]; c.active && c.cur == Wiped && c.next == Wiped && c.prev == Wiped
    ensures var e := Asks(q, memory);
            EventOk(e)
            && Answer(s, k, false, q, e.fault, e.rand) ==
                 (s.(clients := s.clients[k := Entered(s.clients[k].(ip := q.ip.value), s.now, k, q)]), Accepted)
  {
    hide PoolOk;
    hide NewIndex;
    AsksOk(q, memory);
    var c := s.clients[k];
    var c1 := Identified(s, c, q);
    IndexDrawn(c1, k, q, memory);
    assert s.clients[k := c1][k := Entered(c.(ip := q.ip.value), s.now, k, q)]
        == s.clients[k := Entered(c.(ip := q.ip.value), s.now, k, q)];
  }

  lemma IndexDrawn(c: Client, k: nat, q: Init, memory: Memory)
    requires k < MAX_CLIENTS && q.ts < 100 && c.cur == Wiped && c.next == Wiped && c.prev == Wiped
    ensures EventOk(Asks(q, memory)) && NewIndex(c, k, Asks(q, memory).rand, 0) == Drawn(q.ts) + 1 + k
  {
    AsksOk(q, memory);
  }

  /** A new manual client with an unknown address takes a free slot. */
  lemma ManualEnters(s: State, q: Init, memory: Memory, k: nat)
    requires Shape(s) && s.leases.table == [] && !q.auto && q.ip.Some? && q.fd < 0 && q.ts < 100
    requires FindByIp(s.clients, q.ip.value) < 0 && FindByAddr(s.clients, q.from) < 0
    requires k == FreeSlot(s.clients, s.allocNext, 0)
    ensures var e := Asks(q, memory);
            EventOk(e)
            && Step(s, e) == s.(clients := s.clients[k := Entered(TAKEN.(ip := q.ip.value), s.now, k, q)],
                                allocNext := if k + 1 < |s.clients| then k + 1 else 0)
  {
    hide PoolOk;
    hide FindByIp;
    hide FindByAddr;
    hide Answer;
    hide FreeSlot;
    var (s1, n, taken) := EntryFor(s, q, memory);
    var c := TAKEN.(ip := q.ip.value);
    assert n == k && taken;
    assert s.clients[k := TAKEN][k := c] == s.clients[k := c];
    ManualAnswer(s1, k, taken, q, memory);
    assert s1.clients[k := Entered(c, s.now, k, q)] == s.clients[k := Entered(c, s.now, k, q)];
  }

  lemma EnteredCur(c: Client, now: nat, k: nat, q: Init)
    ensures Entered(c, now, k, q).cur == Made(now, k, q)
    ensures Entered(c, now, k, q).id == q.id
  {
  }
}
