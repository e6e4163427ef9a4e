/** Runs of both parties that end otherwise than one would wish: a promoted
    session whose indexes do not cross, and a previous session that is not
    found any more. */
module RotationRuns {
  import opened Wrappers
  import opened ServerTable
  import opened ServerLeases
  import opened ServerSteps
  import SR = ServerRotation
  import S = ServerScenes
  import C = Client
  import R = Rotation

  const ADDRESS: nat := 0x0AC80005

  /** The client's INIT number `n` as it gets to the server, with `remote` as
      the client index in its header. */
  function InitAs(n: nat, remote: nat): Init {
    Init(7, false, "a", Some(ADDRESS), S.HOST, -1, n + 1, remote, R.ToClient(n), R.ToServer(n))
  }

  function Arrives(n: nat, remote: nat, memory: Memory): R.Move {
    R.AnswerTo(n, S.Asks(InitAs(n, remote), memory))
  }

  function Beginning(): R.World {
    R.World.World(S.Started(1), C.NO_PEER, [], [], [], {})
  }

  /** The client makes two handshakes, under the indexes `i0` and `i1`; the
      second INIT gets to the server with `remote` in its header; the second
      reply is still on its way. */
  function TwoHandshakes(i0: nat, i1: nat, remote: nat, memory: Memory): seq<R.Move> {
    [R.SendInit(i0), Arrives(0, i0, memory), R.Respond(0, i0, 0x5_0001, true),
     R.SendInit(i1), Arrives(1, remote, memory)]
  }

  /** The server's entry after the first and after the second handshake. */
  function First(i0: nat): Client {
    S.Entered(TAKEN.(ip := ADDRESS), 1000, 0, InitAs(0, i0))
  }

  function Second(i0: nat, remote: nat): Client {
    First(i0).(psk := 7, hsTs := 2, next := Live(0x6_0001, remote, R.ToClient(1), R.ToServer(1), 1000, 0))
  }

  lemma FirstArrives(i0: nat, memory: Memory)
    requires Shape(S.Started(1))
    ensures var e := S.Asks(InitAs(0, i0), memory);
            EventOk(e) && Step(S.Started(1), e) == S.Started(1).(clients := [First(i0)])
  {
    hide PoolOk;
    hide S.Entered;
    var s := S.Started(1);
    S.ManualEnters(s, InitAs(0, i0), memory, 0);
    assert s.clients[0 := First(i0)] == [First(i0)];
  }

  lemma SecondArrives(i0: nat, remote: nat, memory: Memory)
    requires Shape(S.Started(1).(clients := [First(i0)]))
    ensures var s := S.Started(1).(clients := [First(i0)]);
            var e := S.Asks(InitAs(1, remote), memory);
            EventOk(e) && Step(s, e) == s.(clients := [Second(i0, remote)])
  {
    hide PoolOk;
    hide Answer;
    var s := S.Started(1).(clients := [First(i0)]);
    var q := InitAs(1, remote);
    S.AsksOk(q, memory);
    assert FindByIp(s.clients, ADDRESS) == 0;
    assert FindByAddr(s.clients, S.HOST) == 0;
    assert s.clients[0 := s.clients[0]] == s.clients;
    assert EntryFor(s, q, memory) == (s, 0, false);
    SecondAnswer(s, i0, remote, memory);
  }

  lemma SecondAnswer(s: State, i0: nat, remote: nat, memory: Memory)
    requires Shape(s) && s == S.Started(1).(clients := [First(i0)])
    ensures var e := S.Asks(InitAs(1, remote), memory);
            EventOk(e) && Answer(s, 0, false, e.q, e.fault, e.rand) == (s.(clients := [Second(i0, remote)]), Accepted)
  {
    hide PoolOk;
    var q := InitAs(1, remote);
    S.AsksOk(q, memory);
    var c1 := Identified(s, s.clients[0], q);
    assert NewIndex(c1, 0, S.Asks(q, memory).rand, 0) == 0x6_0001;
    assert s.clients[0 := c1][0 := Second(i0, remote)] == [Second(i0, remote)];
  }

  /** The client's session from the first handshake. */
  function Old(i0: nat): Session {
    Live(i0, 0x5_0001, R.ToServer(0), R.ToClient(0), 1000, 0)
  }

  /** The world after the two handshakes. */
  function Met(i0: nat, i1: nat, remote: nat): R.World {
    R.World.World(
      S.Started(1).(clients := [Second(i0, remote)]),
      C.Peer.Peer(Some(1), true, i1, 1000, Old(i0), Wiped, 0, 1000, true, true),
      [i0, i1], [R.Reply(0, i0), R.Reply(1, remote)], [R.Install(0, 0, Old(i0))],
      {(R.ToServer(0), 0x5_0001)})
  }

  lemma TwoHandshakesRun(i0: nat, i1: nat, remote: nat, memory: Memory)
    requires i0 != 0 && i1 != 0
    ensures R.Started(Beginning())
    ensures R.Run(Beginning(), TwoHandshakes(i0, i1, remote, memory)) == Met(i0, i1, remote)
  {
    hide Step, R.Run, PoolOk, EventOk, First, Second;
    S.StartedOk(1);
    var w, ms := Beginning(), TwoHandshakes(i0, i1, remote, memory);
    var s := S.Started(1);
    R.RunStart(w);
    assert ms[..0] == [];
    R.RunNext(w, ms, 0);
    FirstArrives(i0, memory);
    R.RunNext(w, ms, 1);
    R.RunNext(w, ms, 2);
    R.RunNext(w, ms, 3);
    SecondArrives(i0, remote, memory);
    R.RunNext(w, ms, 4);
    assert ms[..5] == ms;
  }

  const REPLY_READ := R.Respond(1, 200, 0x6_0001, true)
  const CONFIRMATION := Data(0x6_0001, S.HOST, -1, true, Keepalive, false)

  /** The header of the second INIT came with another index: the session the
      client's first packet promotes sends under an index the client does not
      have. */
  lemma AlteredInitIsPromoted(memory: Memory)
    ensures var w, ms := Beginning(), TwoHandshakes(100, 200, 999, memory) + [REPLY_READ];
            && R.Started(w)
            && var v := R.Run(w, ms);
               && R.Promotes(v, CONFIRMATION)
               && var x := v.server.clients[0].next;
                  && R.Counterpart(v, x, 1) && v.installs[1].session == v.peer.cur
                  && !R.Paired(x, v.peer.cur) && x.remote == 999 && v.peer.cur.local == 200
  {
    hide R.Run, PoolOk;
    var w, ms := Beginning(), TwoHandshakes(100, 200, 999, memory) + [REPLY_READ];
    TwoHandshakesRun(100, 200, 999, memory);
    assert ms[..5] == TwoHandshakes(100, 200, 999, memory);
    R.RunNext(w, ms, 5);
    assert ms[..6] == ms;
    var v := R.Run(w, ms);
    assert v.installs[1] == R.Install(1, 1, v.peer.cur);
    assert v.server.clients[0] == Second(100, 999);
  }

  /** The client drew the index of its old session again: once it has read
      the reply, nothing finds the old session any more. */
  lemma OldIndexDrawnAgain(memory: Memory, later: nat)
    ensures var w, ms := Beginning(), TwoHandshakes(100, 100, 100, memory);
            && R.Started(w)
            && var v := R.Run(w, ms);
               var c := v.server.clients[0];
               && R.Paired(c.cur, v.peer.cur) && |v.replies| == 2 && R.Reads(v, 1, v.peer.hsIndex, true)
               && c.next.Live? && c.next.kRecv == R.ToServer(1) && c.next.remote == v.peer.hsIndex
               && var v1 := R.Next(v, R.Respond(1, v.peer.hsIndex, c.next.local, true));
                  R.Paired(v1.server.clients[0].cur, v1.peer.prev) && C.Receiving(v1.peer, 100, later) != C.InPrev
  {
    hide R.Run, PoolOk;
    TwoHandshakesRun(100, 100, 100, memory);
    assert Met(100, 100, 100).server.clients[0] == Second(100, 100);
  }
}
