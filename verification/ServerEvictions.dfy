/** Runs of one transport in which a valid current session goes with a
    handshake of another client; and one in which a manual client leaves its
    address with two entries (server.c). */
module ServerEvictions {
  import opened Wrappers
  import opened ServerTable
  import opened ServerLeases
  import opened ServerSteps
  import opened ServerRotation
  import opened ServerTransport
  import opened ServerScenes

  /** The handshakes of the two clients: manual "a" with the keys 3 and 4, "b"
      with 13 and 14. */
  function InitOfA(from: Addr, fd: int): Init {
    Init(7, false, "a", Some(A_IP), from, fd, 1, 5, 3, 4)
  }

  function InitOfB(auto: bool, from: Addr, fd: int, ts: nat): Init {
    Init(8, auto, "b", Some(B_IP), from, fd, ts, 6, 13, 14)
  }

  lemma TwoIds()
    ensures !SameId("a", "b")
  {
    assert Fold("a")[0] == 'a' && Fold("b")[0] == 'b';
  }

  /* ---- UDP: a full table ---- */

  /** Client "a" has the only slot when client "b" asks for one, after the
      start hold. */
  function Crowding(auto: bool, memory: Memory): seq<Event> {
    [Asks(InitOfA(HOST, -1), memory), Tick(HOLD), Asks(InitOfB(auto, OTHER, -1, 1), memory)]
  }

  const A_ON_UDP := Entered(TAKEN.(ip := A_IP), 1000, 0, InitOfA(HOST, -1))

  /** The session of "a" is gone, whether "b" is automatic or manual. */
  lemma EvictedInRun(auto: bool, memory: Memory)
    ensures var s, es := Started(1), Crowding(auto, memory);
            && Fresh(s) && (forall i | 0 <= i < |es| :: EventOk(es[i])) && Carried(Udp, s, es)
            && var s2 := Run(s, es[..2]);
               && s2.clients[0].id == "a" && s2.clients[0].cur.Live? && Evicts(s2, es[2].q, 0)
               && Run(s, es).clients[0].cur != s2.clients[0].cur
  {
    hide Handshake;
    hide Evicts;
    hide PoolOk;
    hide Entered;
    var s, es := Started(1), Crowding(auto, memory);
    StartedOk(1);
    AsksOk(es[2].q, memory);
    ManualEnters(s, es[0].q, memory, 0);
    var s1 := Step(s, es[0]);
    assert s1.clients == [A_ON_UDP];
    var s2 := Step(s1, es[1]);
    EvictsOnly(s2, auto);
    ThreeSteps(Udp, s, es);
    IndexesInEveryRun(s, es[..2]);
    EnteredCur(TAKEN.(ip := A_IP), 1000, 0, es[0].q);
    HandshakeKeepsCurrent(s2, es[2].q, NoFault, es[2].rand, memory, 0);
  }

  lemma EvictsOnly(s: State, auto: bool)
    requires Shape(s) && s == Started(1).(clients := [A_ON_UDP], now := 1000 + HOLD)
    ensures Evicts(s, InitOfB(auto, OTHER, -1, 1), 0)
  {
    TwoIds();
    assert FindById(s.clients, "b") == -1;
    assert FindByIp(s.clients, B_IP) == -1;
    assert FindByAddr(s.clients, OTHER) == -1;
    assert WayOf(s, InitOfB(auto, OTHER, -1, 1)) == NewSlot;
  }

  lemma ThreeSteps(t: Transport, s: State, es: seq<Event>)
    requires Shape(s) && |es| == 3 && forall i | 0 <= i < |es| :: EventOk(es[i])
    ensures Run(s, es[..2]) == Step(Step(s, es[0]), es[1])
    ensures Run(s, es) == Step(Run(s, es[..2]), es[2])
    ensures Carried(t, s, es) <==>
              Comes(t, s, es[0]) && Comes(t, Step(s, es[0]), es[1]) && Comes(t, Run(s, es[..2]), es[2])
  {
    hide Step;
    hide Comes;
    assert es[..2][..1] == es[..1] && es[..1][..0] == [];
    assert Run(s, es[..1]) == Step(s, es[0]);
    assert Carried(t, s, es[..1]) == Comes(t, s, es[0]);
    assert Carried(t, s, es[..2]) == (Carried(t, s, es[..1]) && Comes(t, Step(s, es[0]), es[1]));
  }

  /* ---- TCP: two connections ---- */

  /** Client "a" registers on connection 5, client "b" on connection 6; then
      "b" comes with a handshake on connection 5. */
  function TakeOver(auto: bool, memory: Memory): seq<Event> {
    [Connect(5, HOST), Asks(InitOfA(HOST, 5), memory), Connect(6, OTHER),
     Asks(InitOfB(auto, OTHER, 6, 1), memory), Asks(InitOfB(auto, HOST, 5, 2), memory)]
  }

  function Line(fd: int, peer: Addr): Client {
    EMPTY.(fd := fd, lastSeen := 1000, connectedAt := 1000, active := true, addr := peer)
  }

  const A_ON_5 := Entered(Line(5, HOST).(ip := A_IP), 1000, 0, InitOfA(HOST, 5))

  function BOn6(auto: bool): Client {
    Entered(Line(6, OTHER).(ip := B_IP), 1000, 1, InitOfB(auto, OTHER, 6, 1))
  }

  function With(cs: seq<Client>): State {
    Started(2).(clients := cs)
  }

  lemma Connects(c: Client, fd: int, peer: Addr)
    requires Shape(With([c, EMPTY])) && (c == EMPTY || c == A_ON_5)
    ensures Step(With([c, EMPTY]), Connect(fd, peer))
         == With(if c == EMPTY then [Line(fd, peer), EMPTY] else [c, Line(fd, peer)])
  {
    hide PoolOk;
    var s := With([c, EMPTY]);
    assert CountPreAuth(s, peer.ip, 1) == (0, 0, -1);
    assert CountPreAuth(s, peer.ip, 2) == (0, 0, -1);
    assert FreeSlot(s.clients, 0, 1) == 1;
    assert FreeSlot(s.clients, 0, 0) == if c == EMPTY then 0 else 1;
    assert s.clients[0 := Line(fd, peer)] == [Line(fd, peer), EMPTY];
    assert s.clients[1 := Line(fd, peer)] == [c, Line(fd, peer)];
  }

  lemma RegistersA(s: State, memory: Memory)
    requires Shape(s) && s == With([Line(5, HOST), EMPTY])
    ensures var e := Asks(InitOfA(HOST, 5), memory);
            EventOk(e) && Comes(Tcp, s, e) && Step(s, e) == With([A_ON_5, EMPTY])
  {
    hide PoolOk;
    hide Answer;
    hide Entered;
    var q := InitOfA(HOST, 5);
    assert FindByIp(s.clients, A_IP) == -1;
    assert FindByAddr(s.clients, HOST) == 0;
    var (s1, n, taken) := EntryFor(s, q, memory);
    var c := Line(5, HOST).(ip := A_IP);
    assert s.clients[0 := c] == [c, EMPTY];
    assert n == 0 && s1.clients == [c, EMPTY];
    ManualAnswer(s1, 0, taken, q, memory);
    assert s1.clients[0 := A_ON_5] == [A_ON_5, EMPTY];
  }

  lemma RegistersB(s: State, auto: bool, memory: Memory)
    requires Shape(s) && s == With([A_ON_5, Line(6, OTHER)])
    ensures var e := Asks(InitOfB(auto, OTHER, 6, 1), memory);
            EventOk(e) && Comes(Tcp, s, e) && Step(s, e) == With([A_ON_5, BOn6(auto)])
  {
    hide PoolOk;
    hide Answer;
    var q := InitOfB(auto, OTHER, 6, 1);
    TwoIds();
    assert !SameId("", "b") by {
      assert |Fold("")| == 0 && |Fold("b")| == 1;
    }
    assert FindById(s.clients, "b") == -1;
    assert FindByIp(s.clients, B_IP) == -1;
    ScanUnique(s.clients, Peer(OTHER), 1);
    assert FindByAddr(s.clients, OTHER) == 1;
    assert FirstWithFd(s.clients, 6, 1) == 1;
    ProfileOfB(s.db);
    var (s1, n, taken) := EntryFor(s, q, memory);
    var c := Line(6, OTHER).(ip := if auto then 0 else B_IP);
    assert s.clients[1 := c] == [A_ON_5, c];
    assert n == 1 && !taken && s1.clients == [A_ON_5, c];
    if auto {
      AutoAnswer(s1, 1, q, memory);
    } else {
      ManualAnswer(s1, 1, taken, q, memory);
    }
    assert s1.clients[1 := BOn6(auto)] == [A_ON_5, BOn6(auto)];
  }

  lemma ProfileOfB(db: Db)
    requires db == DB
    ensures Merged(db, "b") == Profile("b", At(B_IP), true)
  {
  }

  /** The run up to the last event. */
  lemma BothOnLines(auto: bool, memory: Memory)
    ensures var s, es := Started(2), TakeOver(auto, memory);
            && Fresh(s) && (forall i | 0 <= i < |es| :: EventOk(es[i])) && Carried(Tcp, s, es)
            && Run(s, es[..4]) == With([A_ON_5, BOn6(auto)])
            && Run(s, es) == Step(Run(s, es[..4]), es[4])
  {
    hide PoolOk;
    hide Handshake;
    hide Connected;
    hide Entered;
    var s, es := Started(2), TakeOver(auto, memory);
    StartedOk(2);
    AsksOk(es[4].q, memory);
    LinesAre(auto);
    assert s.clients == [EMPTY, EMPTY];
    Connects(EMPTY, 5, HOST);
    var s1 := Step(s, es[0]);
    RegistersA(s1, memory);
    var s2 := Step(s1, es[1]);
    Connects(A_ON_5, 6, OTHER);
    var s3 := Step(s2, es[2]);
    RegistersB(s3, auto, memory);
    FiveSteps(Tcp, s, es);
  }

  lemma LinesAre(auto: bool)
    ensures A_ON_5 != EMPTY && FirstWithFd([EMPTY, EMPTY], 5, 0) == -1
    ensures FirstWithFd([A_ON_5, EMPTY], 6, 0) == -1
    ensures FirstWithFd([A_ON_5, BOn6(auto)], 5, 0) == 0 && A_ON_5.addr == HOST
  {
    assert FirstWithFd([A_ON_5, EMPTY], 6, 1) == -1;
    assert FirstWithFd([EMPTY, EMPTY], 5, 1) == -1;
  }

  lemma FiveSteps(t: Transport, s: State, es: seq<Event>)
    requires Shape(s) && |es| == 5 && forall i | 0 <= i < |es| :: EventOk(es[i])
    ensures Run(s, es[..4]) == Step(Step(Step(Step(s, es[0]), es[1]), es[2]), es[3])
    ensures Run(s, es) == Step(Run(s, es[..4]), es[4])
    ensures var s1 := Step(s, es[0]);
            var s2 := Step(s1, es[1]);
            var s3 := Step(s2, es[2]);
            Carried(t, s, es) <==> Comes(t, s, es[0]) && Comes(t, s1, es[1]) && Comes(t, s2, es[2]) && Comes(t, s3, es[3])
                                   && Comes(t, Run(s, es[..4]), es[4])
  {
    hide Step;
    hide Comes;
    var three := es[..3];
    assert es[..4][..3] == three && three[..2] == es[..2];
    assert es[..4][3] == es[3];
    ThreeSteps(t, s, three);
    assert Carried(t, s, es[..4]) == (Carried(t, s, three) && Comes(t, Run(s, three), es[3]));
  }

  /** Automatic client "b" comes over the connection that client "a" has
      registered on: the entry of "a" is gone, with its session. */
  lemma WipedInRun(memory: Memory)
    ensures var s, es := Started(2), TakeOver(true, memory);
            && Fresh(s) && (forall i | 0 <= i < |es| :: EventOk(es[i])) && Carried(Tcp, s, es)
            && var s4 := Run(s, es[..4]);
               && s4.clients[0].id == "a" && s4.clients[0].cur.Live? && WipesFd(s4, es[4].q, 0)
               && Run(s, es).clients[0] == EMPTY
  {
    hide PoolOk;
    hide Handshake;
    hide WipesFd;
    hide Entered;
    var s, es := Started(2), TakeOver(true, memory);
    BothOnLines(true, memory);
    var s4 := Run(s, es[..4]);
    WipesOnly(s4);
    IndexesInEveryRun(s, es[..4]);
    EnteredCur(Line(5, HOST).(ip := A_IP), 1000, 0, InitOfA(HOST, 5));
    HandshakeKeepsCurrent(s4, es[4].q, NoFault, es[4].rand, memory, 0);
  }

  lemma WipesOnly(s: State)
    requires Shape(s) && s == With([A_ON_5, BOn6(true)])
    ensures WipesFd(s, InitOfB(true, HOST, 5, 2), 0)
  {
    hide PoolOk;
    var q := InitOfB(true, HOST, 5, 2);
    TwoIds();
    ProfileOfB(s.db);
    assert s.clients[0].id == "a" && s.clients[1].id == "b";
    ScanUnique(s.clients, Id("b"), 1);
    ScanUnique(s.clients, CurrentIp(B_IP), 1);
    assert FindById(s.clients, "b") == 1 && FindByIp(s.clients, B_IP) == 1;
    assert WayOf(s, q) == ServerRotation.Entry(1, true);
  }

  /** Manual client "b" comes over that connection: it gets the entry of "a",
      and its address is with two entries. */
  lemma ManualSharesAddress(memory: Memory)
    ensures var s, es := Started(2), TakeOver(false, memory);
            && Fresh(s) && (forall i | 0 <= i < |es| :: EventOk(es[i])) && Carried(Tcp, s, es)
            && var cs := Run(s, es).clients;
               |cs| == 2 && Holds(cs[0], B_IP) && Holds(cs[1], B_IP)
  {
    hide Step;
    BothOnLines(false, memory);
    TakesTheLine(Run(Started(2), TakeOver(false, memory)[..4]), memory);
  }

  lemma TakesTheLine(s: State, memory: Memory)
    requires Shape(s) && s == With([A_ON_5, BOn6(false)])
    ensures EventOk(Asks(InitOfB(false, HOST, 5, 2), memory))
    ensures var cs := Step(s, Asks(InitOfB(false, HOST, 5, 2), memory)).clients;
            |cs| == 2 && Holds(cs[0], B_IP) && Holds(cs[1], B_IP)
  {
    hide PoolOk;
    hide NewIndex;
    var q := InitOfB(false, HOST, 5, 2);
    AsksOk(q, memory);
    ScanUnique(s.clients, CurrentIp(B_IP), 1);
    assert FindByIp(s.clients, B_IP) == 1;
    assert FindByAddr(s.clients, HOST) == 0;
    assert !Stale(s, q) && !ManualRefused(s, q);
    var c := A_ON_5.(ip := B_IP);
    assert s.clients[0 := c] == [c, BOn6(false)];
    assert EntryFor(s, q, memory) == (s.(clients := [c, BOn6(false)]), 0, false);
  }
}
