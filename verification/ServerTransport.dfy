/** What one server process can receive: it has one transport, and a frame on
    a TCP connection comes with the address of the entry that holds it
    (camex.c). What follows for the ways to lose an entry (server.c). */
module ServerTransport {
  import opened Wrappers
  import opened ServerTable
  import opened ServerLeases
  import opened ServerSteps
  import opened ServerRotation

  datatype Transport = Udp | Tcp

  /** A packet with the address `from` can come, on descriptor `fd` over TCP. */
  predicate OnLine(t: Transport, s: State, fd: int, from: Addr) {
    if t == Udp then fd == -1
    else
      var k := FirstWithFd(s.clients, fd, 0);
      fd >= 0 && k >= 0 && s.clients[k].addr == from
  }

  /** The event can come over the transport. A new connection has a descriptor
      that is not in use. */
  predicate Comes(t: Transport, s: State, e: Event) {
    match e
    case Connect(fd, _) => t == Tcp && fd >= 0 && FirstWithFd(s.clients, fd, 0) < 0
    case Close(fd, _) => t == Tcp && fd >= 0
    case Shake(q, _, _, _) => OnLine(t, s, q.fd, q.from)
    case Packet(d) => OnLine(t, s, d.fd, d.from)
    case _ => true
  }

  /** A run whose events all come over the transport. */
  ghost predicate Carried(t: Transport, s: State, es: seq<Event>)
    requires Shape(s) && forall i | 0 <= i < |es| :: EventOk(es[i])
  {
    es == [] || (var before := es[..|es| - 1]; Carried(t, s, before) && Comes(t, Run(s, before), es[|es| - 1]))
  }

  /** What can come over UDP does not depend on the state. */
  predicate OverUdp(e: Event) {
    match e
    case Connect(_, _) => false
    case Close(_, _) => false
    case Shake(q, _, _, _) => q.fd == -1
    case Packet(d) => d.fd == -1
    case _ => true
  }

  lemma {:induction false} UdpCarried(s: State, es: seq<Event>)
    requires Shape(s) && forall i | 0 <= i < |es| :: EventOk(es[i]) && OverUdp(es[i])
    ensures Carried(Udp, s, es)
  {
    hide Step;
    if es != [] {
      UdpCarried(s, es[..|es| - 1]);
    }
  }

  /** Over UDP no entry has a connection; over TCP each has one of its own. */
  ghost predicate LinesOk(t: Transport, cs: seq<Client>) {
    && (forall k | 0 <= k < |cs| && cs[k].active :: t == Tcp <==> cs[k].fd >= 0)
    && (forall j, k | 0 <= j < |cs| && 0 <= k < |cs| && j != k && cs[j].active && cs[k].active && cs[j].fd >= 0 ::
          cs[j].fd != cs[k].fd)
  }

  /** No two entries have the same peer address. */
  ghost predicate PeersDiffer(cs: seq<Client>) {
    forall j, k | 0 <= j < |cs| && 0 <= k < |cs| && j != k && cs[j].active && cs[k].active :: cs[j].addr != cs[k].addr
  }

  /* ---- what every step keeps ---- */

  /** The table loses entries, and keeps the connections and addresses of the
      rest. */
  ghost predicate Thins(cs: seq<Client>, cs': seq<Client>) {
    && |cs'| == |cs|
    && forall k | 0 <= k < |cs| && cs'[k].active ::
         cs[k].active && cs'[k].fd == cs[k].fd && cs'[k].addr == cs[k].addr
  }

  lemma ThinsKeeps(t: Transport, cs: seq<Client>, cs': seq<Client>)
    requires LinesOk(t, cs) && Thins(cs, cs')
    ensures LinesOk(t, cs') && (PeersDiffer(cs) ==> PeersDiffer(cs'))
  {
  }

  lemma HolderIsOne(s: State, fd: int, j: nat)
    requires LinesOk(Tcp, s.clients) && j < |s.clients| && s.clients[j].active && s.clients[j].fd == fd
    ensures FirstWithFd(s.clients, fd, 0) == j
  {
    NoneBefore(s.clients, fd, 0, j);
  }

  lemma {:induction false} NoneBefore(cs: seq<Client>, fd: int, i: nat, j: nat)
    requires i <= j < |cs| && cs[j].active && cs[j].fd == fd
    ensures 0 <= FirstWithFd(cs, fd, i) <= j
    decreases j - i
  {
    if i < j && !(cs[i].active && cs[i].fd == fd) {
      NoneBefore(cs, fd, i + 1, j);
    }
  }

  lemma FirstOfAddr(cs: seq<Client>, a: Addr, k: nat)
    requires k < |cs| && cs[k].active && cs[k].addr == a
    ensures 0 <= FindByAddr(cs, a) <= k
  {
    assert Matches(cs[k], Peer(a));
  }

  /** Over TCP a handshake never takes a slot: its connection has one. */
  lemma TcpHasEntry(s: State, q: Init)
    requires Shape(s) && LinesOk(Tcp, s.clients) && OnLine(Tcp, s, q.fd, q.from)
    ensures WayOf(s, q) != NewSlot
  {
    FirstOfAddr(s.clients, q.from, FirstWithFd(s.clients, q.fd, 0));
    hide Stale;
    hide ProfileTaken;
    hide ManualRefused;
  }

  /** What a handshake does to its entry leaves the connection alone; over TCP
      the entry has the address of the connection. */
  predicate SameLine(c: Client, c': Client, q: Init) {
    c'.active == c.active && c'.fd == c.fd && (q.fd >= 0 ==> c'.addr == q.from)
  }

  lemma IdentifiedLine(s: State, c: Client, q: Init)
    ensures SameLine(c, Identified(s, c, q), q)
  {
  }

  lemma EndingsLine(s: State, c: Client, c0: Client, q: Init, idx: nat, cfg: nat, taken: bool)
    ensures SameLine(c0, c, q) ==> SameLine(c0, WithSession(s, c, q, idx, cfg), q)
    ensures SameLine(c0, c, q) && !taken ==> SameLine(c0, RolledBack(c, c0, taken), q)
    ensures taken ==> RolledBack(c, c0, taken) == EMPTY
  {
  }

  /** The connection and address of an answered handshake's entry. */
  lemma AnswerLine(s: State, k: nat, taken: bool, q: Init, fault: Fault, rand: seq<nat>)
    requires Shape(s) && k < |s.clients|
    requires |rand| == 16 && forall j | 0 <= j < 16 :: rand[j] < ServerTable.U32
    ensures var cs := Answer(s, k, taken, q, fault, rand).0.clients;
            cs == s.clients[k := cs[k]] && (SameLine(s.clients[k], cs[k], q) || (taken && cs[k] == EMPTY))
  {
    hide NewIndex;
    hide BuildConfig;
    hide RolledBack;
    hide WithSession;
    hide Identified;
    var c0 := s.clients[k];
    var s1 := s.(clients := s.clients[k := Identified(s, c0, q)]);
    IdentifiedLine(s, c0, q);
    BuildConfigFrame(s1, k, q.id, q.ip, fault == ConfigTooLong);
    var (s2, cfg) := if q.auto then BuildConfig(s1, k, q.id, q.ip, fault == ConfigTooLong) else (s1, Some(0));
    var c2 := s2.clients[k];
    var idx := NewIndex(c2, k, rand, 0);
    EndingsLine(s2, c2, c0, q, idx, 0, taken);
    if cfg.Some? {
      EndingsLine(s2, c2, c0, q, idx, cfg.value, taken);
      EndingsLine(s2, WithSession(s2, c2, q, idx, cfg.value), c0, q, idx, cfg.value, taken);
    }
  }

  /** Getting the entry of a handshake over UDP leaves connections alone. */
  lemma UdpEntryLines(s: State, q: Init, memory: Memory)
    requires Shape(s) && LinesOk(Udp, s.clients) && q.fd == -1
    ensures LinesOk(Udp, EntryFor(s, q, memory).0.clients)
  {
    hide Stale;
    hide ProfileTaken;
    hide ManualRefused;
    hide LeasesAfterEnd;
  }

  /** A handshake that takes no slot gets the entry its way names. */
  lemma EntryOfWay(s: State, q: Init, memory: Memory)
    requires Shape(s) && !Stale(s, q) && !ProfileTaken(s, q) && WayOf(s, q) != NewSlot
    ensures var (s1, k, taken) := EntryFor(s, q, memory);
            var w := WayOf(s, q);
            if w == NoWay then k < 0 && s1 == s
            else
              && k == w.k && !taken && s.clients[k].active
              && (!w.adopt ==> s.clients[k].addr == q.from)
              && (forall j | 0 <= j < |s.clients| && j != k ::
                    s1.clients[j] == if WipesFd(s, q, j) then EMPTY else s.clients[j])
              && s1.clients[k] == s.clients[k].(ip := s1.clients[k].ip,
                                                fd := if w.adopt && q.fd >= 0 then q.fd else s.clients[k].fd)
  {
    hide Stale;
    hide ProfileTaken;
    hide ManualRefused;
    hide AllocClient;
  }

  /** The entry a handshake gets over TCP, its own or another connection's. */
  lemma TcpEntryLines(s: State, q: Init, memory: Memory)
    requires Shape(s) && LinesOk(Tcp, s.clients) && OnLine(Tcp, s, q.fd, q.from)
    requires !Stale(s, q) && !ProfileTaken(s, q) && EntryFor(s, q, memory).1 >= 0
    ensures var (s1, k, taken) := EntryFor(s, q, memory);
            && !taken && s1.clients[k].active && LinesOk(Tcp, s1.clients)
            && (PeersDiffer(s.clients) ==>
                  forall j | 0 <= j < |s.clients| && j != k && s1.clients[j].active ::
                    s1.clients[j] == s.clients[j] && s.clients[j].addr != q.from)
  {
    hide Stale;
    hide ProfileTaken;
    hide ManualRefused;
    hide EntryFor;
    TcpHasEntry(s, q);
    EntryOfWay(s, q, memory);
    hide WayOf;
  }

  lemma NewEntryLines(t: Transport, cs: seq<Client>, k: nat, c: Client)
    requires k < |cs| && LinesOk(t, cs) && (c == EMPTY || (c.active == cs[k].active && c.fd == cs[k].fd))
    ensures LinesOk(t, cs[k := c])
  {
  }

  lemma PeersLeft(cs: seq<Client>, cs': seq<Client>, k: nat, c: Client, a: Addr)
    requires |cs'| == |cs| && k < |cs| && c.addr == a
    requires PeersDiffer(cs) ==>
               forall j | 0 <= j < |cs| && j != k && cs'[j].active :: cs'[j] == cs[j] && cs[j].addr != a
    ensures PeersDiffer(cs) ==> PeersDiffer(cs'[k := c])
  {
  }

  lemma HandshakeKeepsLines(t: Transport, s: State, e: Event)
    requires Shape(s) && EventOk(e) && e.Shake? && LinesOk(t, s.clients) && Comes(t, s, e)
    ensures var cs := Step(s, e).clients;
            LinesOk(t, cs) && (t == Tcp && PeersDiffer(s.clients) ==> PeersDiffer(cs))
  {
    var q := e.q;
    hide Stale;
    hide ProfileTaken;
    hide EntryFor;
    hide Answer;
    hide FirstWithFd;
    hide LinesOk;
    hide PeersDiffer;
    hide WayOf;
    if !Stale(s, q) && !ProfileTaken(s, q) {
      var (s1, k, taken) := EntryFor(s, q, e.memory);
      if t == Udp {
        UdpEntryLines(s, q, e.memory);
      } else if k >= 0 {
        TcpEntryLines(s, q, e.memory);
      } else {
        TcpHasEntry(s, q);
        EntryOfWay(s, q, e.memory);
      }
      if k >= 0 {
        AnswerLine(s1, k, taken, q, e.fault, e.rand);
        var c := Answer(s1, k, taken, q, e.fault, e.rand).0.clients[k];
        NewEntryLines(t, s1.clients, k, c);
        if t == Tcp {
          PeersLeft(s.clients, s1.clients, k, c, q.from);
        }
      }
    }
  }

  lemma ConnectKeepsLines(s: State, fd: int, peer: Addr)
    requires Shape(s) && LinesOk(Tcp, s.clients) && fd >= 0 && FirstWithFd(s.clients, fd, 0) < 0
    ensures var cs := Connected(s, fd, peer).clients;
            && LinesOk(Tcp, cs)
            && (PeersDiffer(s.clients)
                && (forall k | 0 <= k < |s.clients| && s.clients[k].active :: s.clients[k].addr != peer)
                ==> PeersDiffer(cs))
  {
    hide CountPreAuth;
    hide FreeSlot;
    forall k | 0 <= k < |s.clients| && s.clients[k].active
      ensures s.clients[k].fd != fd
    {
      if s.clients[k].fd == fd {
        HolderIsOne(s, fd, k);
      }
    }
  }

  lemma VisitThins(s: State, k: nat, pass: Pass, memory: Memory)
    requires Shape(s) && k < |s.clients|
    ensures Thins(s.clients, Visit(s, k, pass, memory).clients)
  {
    hide LeasesAfterEnd;
  }

  lemma {:induction false} PassThins(s: State, n: nat, pass: Pass, memory: Memory)
    requires Shape(s) && n <= |s.clients|
    ensures Thins(s.clients, Visited(s, n, pass, memory).clients)
  {
    hide Visit;
    if n > 0 {
      PassThins(s, n - 1, pass, memory);
      VisitThins(Visited(s, n - 1, pass, memory), n - 1, pass, memory);
    }
  }

  lemma ReloadThins(s: State, db: Db, allowed: nat -> bool, memory: Memory)
    requires Shape(s) && PoolOk(db)
    ensures Thins(s.clients, Reload(s, db, allowed, memory).clients)
  {
    var s0 := s.(db := db);
    PassThins(s0, |s.clients|, Keys(allowed), memory);
    var s1 := Whole(s0, Keys(allowed), memory);
    PassThins(s1, |s.clients|, UnknownIds, memory);
    PassThins(Whole(s1, UnknownIds, memory), |s.clients|, ProfileAddresses, memory);
  }

  lemma DataKeepsLines(t: Transport, s: State, d: Data)
    requires Shape(s) && LinesOk(t, s.clients) && OnLine(t, s, d.fd, d.from)
    ensures var cs := AfterData(s, d).clients;
            LinesOk(t, cs) && (t == Tcp && PeersDiffer(s.clients) ==> PeersDiffer(cs))
  {
    hide FirstWithFd;
  }

  /** A connection comes from an address no entry has. */
  predicate NewPeer(s: State, e: Event) {
    e.Connect? ==> forall k | 0 <= k < |s.clients| && s.clients[k].active :: s.clients[k].addr != e.peer
  }

  lemma StepKeepsLines(t: Transport, s: State, e: Event)
    requires Shape(s) && EventOk(e) && LinesOk(t, s.clients) && Comes(t, s, e)
    ensures var cs := Step(s, e).clients;
            LinesOk(t, cs) && (t == Tcp && PeersDiffer(s.clients) && NewPeer(s, e) ==> PeersDiffer(cs))
  {
    hide LinesOk;
    hide PeersDiffer;
    hide FirstWithFd;
    hide Handshake;
    hide AfterData;
    hide Connected;
    hide Whole;
    hide Reload;
    hide LeasesAfterEnd;
    var cs := Step(s, e).clients;
    match e
    case Tick(_) =>
    case Connect(fd, peer) => ConnectKeepsLines(s, fd, peer);
    case Close(fd, memory) => ThinsKeeps(t, s.clients, cs);
    case Shake(_, _, _, _) => HandshakeKeepsLines(t, s, e);
    case Packet(d) => DataKeepsLines(t, s, d);
    case Expire(memory) => WholeThins(s, Expiry, memory); ThinsKeeps(t, s.clients, cs);
    case Configure(db, allowed, memory) => ReloadThins(s, db, allowed, memory); ThinsKeeps(t, s.clients, cs);
  }

  lemma WholeThins(s: State, pass: Pass, memory: Memory)
    requires Shape(s)
    ensures Thins(s.clients, Whole(s, pass, memory).clients)
  {
    PassThins(s, |s.clients|, pass, memory);
  }

  /* ---- what it means for current sessions ---- */

  /** In every run over one transport: over UDP no entry has a connection;
      over TCP each has its own. */
  lemma {:induction false} LinesInEveryRun(t: Transport, s: State, es: seq<Event>)
    requires Fresh(s) && (forall i | 0 <= i < |es| :: EventOk(es[i])) && Carried(t, s, es)
    ensures LinesOk(t, Run(s, es).clients)
  {
    hide Step;
    hide Comes;
    if es != [] {
      var before := es[..|es| - 1];
      LinesInEveryRun(t, s, before);
      StepKeepsLines(t, Run(s, before), es[|es| - 1]);
    }
  }

  /** A connection that closes ends its own entry and no other: no entry is left
      with its descriptor, whose number the next connection may get. */
  lemma CloseInEveryRun(s: State, es: seq<Event>, fd: int, memory: Memory)
    requires Fresh(s) && (forall i | 0 <= i < |es| :: EventOk(es[i])) && Carried(Tcp, s, es) && fd >= 0
    ensures var v, v' := Run(s, es), Closed(Run(s, es), fd, memory);
            && (forall k | 0 <= k < |v.clients| ::
                  v'.clients[k] == if v.clients[k].active && v.clients[k].fd == fd then EMPTY else v.clients[k])
            && (forall k | 0 <= k < |v.clients| && v.clients[k].active && v.clients[k].fd == fd ::
                  v'.leases == EndClient(v, k, memory).leases)
  {
    LinesInEveryRun(Tcp, s, es);
    var v := Run(s, es);
    forall k | 0 <= k < |v.clients| && v.clients[k].active && v.clients[k].fd == fd
      ensures FirstWithFd(v.clients, fd, 0) == k
    {
      HolderIsOne(v, fd, k);
    }
    hide Run, LeasesAfterEnd;
  }

  /** What a handshake can do to a valid current session of another client, in
      every run over one transport: over UDP it can only evict it, over TCP it
      can only come over its connection. */
  lemma OneWayToGo(t: Transport, s: State, es: seq<Event>, e: Event, j: nat)
    requires Fresh(s) && (forall i | 0 <= i < |es| :: EventOk(es[i])) && Carried(t, s, es)
    requires var v := Run(s, es);
             EventOk(e) && e.Shake? && Comes(t, v, e) && j < |v.clients| && v.clients[j].cur.Live?
    ensures var v := Run(s, es);
            var c, c' := v.clients[j], Step(v, e).clients[j];
            var goes := if t == Udp then Evicts(v, e.q, j) else WipesFd(v, e.q, j);
            && (!goes ==> c'.cur == c.cur)
            && (c.cur.kSend != e.q.kSend ==> (goes <==> c'.cur != c.cur))
  {
    hide Handshake;
    hide Evicts;
    hide WipesFd;
    hide Comes;
    var v := Run(s, es);
    LinesInEveryRun(t, s, es);
    IndexesInEveryRun(s, es);
    HandshakeKeepsCurrent(v, e.q, e.fault, e.rand, e.memory, j);
    OtherWay(t, v, e, j);
  }

  lemma OtherWay(t: Transport, s: State, e: Event, j: nat)
    requires Shape(s) && LinesOk(t, s.clients) && e.Shake? && Comes(t, s, e) && j < |s.clients|
    ensures if t == Udp then !WipesFd(s, e.q, j) else !Evicts(s, e.q, j)
  {
    if t == Tcp {
      TcpHasEntry(s, e.q);
    }
  }

  /** A manual handshake that comes over the connection of a registered entry
      ends it only if an earlier entry has the same peer address. */
  lemma ManualWipeNeedsTwin(s: State, q: Init, j: nat) returns (i: nat)
    requires Shape(s) && j < |s.clients| && !q.auto && WipesFd(s, q, j)
    requires s.clients[j].registered && s.clients[j].addr == q.from
    ensures i < j && s.clients[i].active && s.clients[i].addr == q.from
  {
    hide Stale;
    hide ProfileTaken;
    hide ManualRefused;
    FirstOfAddr(s.clients, q.from, j);
    i := FindByAddr(s.clients, q.from);
  }

  /** A run in which each new connection comes from an address of its own, as
      the connections of one listening socket do while they are open. */
  ghost predicate OwnPeers(s: State, es: seq<Event>)
    requires Shape(s) && forall i | 0 <= i < |es| :: EventOk(es[i])
  {
    es == [] || (var before := es[..|es| - 1]; OwnPeers(s, before) && NewPeer(Run(s, before), es[|es| - 1]))
  }

  lemma {:induction false} PeersInEveryRun(s: State, es: seq<Event>)
    requires Fresh(s) && (forall i | 0 <= i < |es| :: EventOk(es[i])) && Carried(Tcp, s, es) && OwnPeers(s, es)
    ensures PeersDiffer(Run(s, es).clients)
  {
    hide Step;
    hide Comes;
    hide NewPeer;
    if es != [] {
      var before := es[..|es| - 1];
      PeersInEveryRun(s, before);
      LinesInEveryRun(Tcp, s, before);
      StepKeepsLines(Tcp, Run(s, before), es[|es| - 1]);
    }
  }

  /** In every such run no manual handshake ends another client's session. */
  lemma ManualKeepsCurrent(s: State, es: seq<Event>, e: Event, j: nat)
    requires Fresh(s) && (forall i | 0 <= i < |es| :: EventOk(es[i])) && Carried(Tcp, s, es) && OwnPeers(s, es)
    requires var v := Run(s, es);
             EventOk(e) && e.Shake? && !e.q.auto && Comes(Tcp, v, e) && j < |v.clients| && v.clients[j].cur.Live?
    ensures var v := Run(s, es); Step(v, e).clients[j].cur == v.clients[j].cur
  {
    hide Step;
    hide WipesFd;
    var v := Run(s, es);
    LinesInEveryRun(Tcp, s, es);
    PeersInEveryRun(s, es);
    IndexesInEveryRun(s, es);
    OneWayToGo(Tcp, s, es, e, j);
    if WipesFd(v, e.q, j) {
      WipedHolds(v, e.q, j);
      HolderIsOne(v, e.q.fd, j);
      assert SessionsOk(v.clients[j], j);
      var i := ManualWipeNeedsTwin(v, e.q, j);
    }
  }

  lemma WipedHolds(s: State, q: Init, j: nat)
    requires Shape(s) && j < |s.clients| && WipesFd(s, q, j)
    ensures s.clients[j].active && s.clients[j].fd == q.fd
  {
  }
}
