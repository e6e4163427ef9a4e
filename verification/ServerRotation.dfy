/** Sessions over every run of the server, auto and manual handshakes alike:
    an index names one session, only data on the new session replaces the
    current one, and an entry goes only as a whole (server.c). */
module ServerRotation {
  import opened Wrappers
  import opened ServerTable
  import opened ServerLeases
  import opened ServerSteps

  ghost predicate IndexOk(s: Session, k: nat) {
    s.Live? ==> s.local < ServerTable.U32 && s.local % 0x1_0000 == k + 1
  }

  predicate SameIndex(a: Session, b: Session) {
    a.Live? && b.Live? && a.local == b.local
  }

  /** Entry `k` between two steps: its sessions carry its slot in their low
      16 bits and differ in the rest; there is none without a current one. */
  ghost predicate SessionsOk(c: Client, k: nat) {
    && IndexOk(c.cur, k) && IndexOk(c.next, k) && IndexOk(c.prev, k)
    && !SameIndex(c.cur, c.next) && !SameIndex(c.cur, c.prev) && !SameIndex(c.next, c.prev)
    && (c.next.Live? || c.prev.Live? ==> c.cur.Live?)
    && (c.registered <==> c.cur.Live?)
    && (!c.active ==> !c.cur.Live?)
  }

  ghost predicate RotInv(cs: seq<Client>) {
    forall k | 0 <= k < |cs| :: SessionsOk(cs[k], k)
  }

  function SessionAt(c: Client, w: Which): Session {
    match w
    case InCur => c.cur
    case InNext => c.next
    case InPrev => c.prev
    case Nowhere => Wiped
  }

  /** An index names at most one session of the whole table. */
  lemma IndexNamesOneSession(cs: seq<Client>, i: nat, v: Which, j: nat, w: Which)
    requires RotInv(cs) && i < |cs| && j < |cs|
    requires SameIndex(SessionAt(cs[i], v), SessionAt(cs[j], w))
    ensures i == j && v == w
  {
    assert SessionsOk(cs[i], i) && SessionsOk(cs[j], j);
  }

  /** A packet that opens does so on the session its index names, the only
      one in the table with that index. */
  lemma IndexFindsSession(s: State, idx: nat, i: nat, v: Which)
    requires RotInv(s.clients) && |s.clients| <= MAX_CLIENTS && i < |s.clients| && s.clients[i].active
    requires HasIndex(SessionAt(s.clients[i], v), idx) && (v == InPrev ==> s.now <= s.clients[i].prevUntil)
    ensures SlotOf(s, idx) == i && SessionOf(s.clients[i], idx, s.now) == v
  {
    assert SessionsOk(s.clients[i], i);
  }

  lemma UpdateKeepsRot(cs: seq<Client>, k: nat, c: Client)
    requires RotInv(cs) && k < |cs| && SessionsOk(c, k)
    ensures RotInv(cs[k := c])
  {
  }

  /** How a handshake gets its entry: not at all; the entry `k`, which may
      `adopt` the handshake's connection; or a slot for a new client. */
  datatype Way = NoWay | Entry(k: nat, adopt: bool) | NewSlot

  function WayOf(s: State, q: Init): (w: Way)
    requires Shape(s)
    ensures w.Entry? ==> w.k < |s.clients|
  {
    if Stale(s, q) || ProfileTaken(s, q) then NoWay
    else if q.auto then AutoWay(s, q)
    else if q.ip.None? || ManualRefused(s, q) then NoWay
    else ManualWay(s, q, FindByIp(s.clients, q.ip.value), FindByAddr(s.clients, q.from))
  }

  function AutoWay(s: State, q: Init): (w: Way)
    ensures w.Entry? ==> w.k < |s.clients|
  {
    var k, a := FindById(s.clients, q.id), FindByAddr(s.clients, q.from);
    if s.db.denyUnknown && FindProfile(s.db, q.id) == None then NoWay
    else if k >= 0 then Entry(k, true)
    else if a >= 0 && s.clients[a].fd >= 0 then Entry(a, false)
    else NewSlot
  }

  function ManualWay(s: State, q: Init, byIp: int, byAddr: int): (w: Way)
    requires byIp < |s.clients| && byAddr < |s.clients|
    ensures w.Entry? ==> w.k < |s.clients|
  {
    if byIp >= 0 && (byAddr < 0 || byAddr == byIp
                     || (s.clients[byAddr].fd >= 0 && !s.clients[byAddr].registered)) then Entry(byIp, true)
    else if byAddr >= 0 && (q.fd >= 0 || !s.clients[byAddr].cur.Live?) then Entry(byAddr, false)
    else NewSlot
  }

  /** Entry `j` goes because its connection now carries another entry. */
  predicate WipesFd(s: State, q: Init, j: nat)
    requires Shape(s) && j < |s.clients|
  {
    var w := WayOf(s, q);
    && w.Entry? && w.adopt && w.k != j && q.fd >= 0 && s.clients[w.k].fd != q.fd
    && s.clients[j].active && s.clients[j].fd == q.fd
  }

  /** Entry `j` goes to make room: no slot is free, the start hold is over,
      and it has been quiet longest. */
  predicate Evicts(s: State, q: Init, j: nat)
    requires Shape(s) && j < |s.clients|
  {
    && WayOf(s, q) == NewSlot && FreeSlot(s.clients, s.allocNext, 0) < 0 && !Holding(s)
    && j == Quietest(s.clients, |s.clients|)
  }

  /** What getting the entry `k` of a handshake does to the sessions of all. */
  ghost predicate EntryEffect(s: State, q: Init, s1: State, k: int, taken: bool)
    requires Shape(s)
  {
    && |s1.clients| == |s.clients| && -1 <= k < |s.clients|
    && (forall j | 0 <= j < |s.clients| && j != k ::
          !Evicts(s, q, j) && s1.clients[j] == if WipesFd(s, q, j) then EMPTY else s.clients[j])
    && (k >= 0 ==>
          && s1.clients[k].active && !WipesFd(s, q, k)
          && if taken then SameSessions(s1.clients[k], TAKEN) && (Evicts(s, q, k) || !s.clients[k].active)
             else SameSessions(s1.clients[k], s.clients[k]) && !Evicts(s, q, k))
  }

  predicate SameSessions(c: Client, d: Client) {
    c.cur == d.cur && c.next == d.next && c.prev == d.prev
    && c.registered == d.registered && c.active == d.active
  }

  lemma AllocEffect(s: State, q: Init, memory: Memory)
    requires Shape(s) && RotInv(s.clients) && WayOf(s, q) == NewSlot
    ensures var (s1, k) := AllocClient(s, memory);
            && RotInv(s1.clients) && EntryEffect(s, q, s1, k, k >= 0)
            && (k >= 0 ==> s1.clients[k] == TAKEN)
  {
    hide WayOf;
    hide RotInv;
    hide SessionsOk;
    var (s1, k) := AllocClient(s, memory);
    if k >= 0 {
      assert s1.clients == s.clients[k := TAKEN];
      TakenOk(k);
      UpdateKeepsRot(s.clients, k, TAKEN);
    }
  }

  lemma TakenOk(k: nat)
    ensures SessionsOk(TAKEN, k)
  {
  }

  lemma AdoptEffect(s: State, q: Init, k: nat)
    requires Shape(s) && RotInv(s.clients) && WayOf(s, q) == Entry(k, true) && s.clients[k].active
    ensures var cs := AdoptTcp(s.clients, k, q.fd);
            && RotInv(cs) && EntryEffect(s, q, s.(clients := cs), k, false)
            && cs[k] == s.clients[k].(fd := cs[k].fd)
  {
    hide WayOf;
    var cs := AdoptTcp(s.clients, k, q.fd);
    forall j | 0 <= j < |cs|
      ensures SessionsOk(cs[j], j)
    {
      assert SessionsOk(s.clients[j], j);
    }
  }

  /** Getting the entry of a handshake, auto or manual. */
  lemma EntryForEffect(s: State, q: Init, memory: Memory)
    requires Shape(s) && RotInv(s.clients) && !Stale(s, q) && !ProfileTaken(s, q)
    ensures var (s1, k, taken) := EntryFor(s, q, memory);
            RotInv(s1.clients) && EntryEffect(s, q, s1, k, taken)
  {
    hide ManualRefused;
    hide AllocClient;
    hide AdoptTcp;
    hide SessionsOk;
    hide RotInv;
    hide Stale;
    hide ProfileTaken;
    hide Evicts;
    hide WipesFd;
    match WayOf(s, q)
    case NoWay => NothingGoes(s, q);
    case Entry(k, adopt) =>
      if adopt {
        AdoptEffect(s, q, k);
      } else {
        NothingGoes(s, q);
      }
      if !q.auto {
        var cs := if adopt then AdoptTcp(s.clients, k, q.fd) else s.clients;
        SetIpEffect(s, s.(clients := cs), q, k, q.ip.value, false);
      }
    case NewSlot =>
      AllocEffect(s, q, memory);
      var (s1, n) := AllocClient(s, memory);
      if !q.auto && n >= 0 {
        SetIpEffect(s, s1, q, n, q.ip.value, true);
      }
  }

  lemma NothingGoes(s: State, q: Init)
    requires Shape(s) && WayOf(s, q) != NewSlot && !(WayOf(s, q).Entry? && WayOf(s, q).adopt)
    ensures forall j | 0 <= j < |s.clients| :: !WipesFd(s, q, j) && !Evicts(s, q, j)
  {
  }

  lemma SetIpEffect(s: State, s1: State, q: Init, k: nat, ip: nat, taken: bool)
    requires Shape(s) && k < |s1.clients| && RotInv(s1.clients)
    requires EntryEffect(s, q, s1, k, taken)
    ensures var cs := s1.clients[k := s1.clients[k].(ip := ip)];
            RotInv(cs) && EntryEffect(s, q, s1.(clients := cs), k, taken)
  {
    hide WayOf;
    UpdateKeepsRot(s1.clients, k, s1.clients[k].(ip := ip));
  }

  lemma OldAddressFrame(s: State, k: nat, id: string, hint: Option<nat>)
    requires Shape(s) && k < |s.clients|
    ensures var c := WithOldAddress(s, k, id, hint); c == s.clients[k].(ip := c.ip)
  {
    hide Usable;
  }

  lemma BuildConfigFrame(s: State, k: nat, id: string, hint: Option<nat>, tooLong: bool)
    requires Shape(s) && k < |s.clients|
    ensures var cs := BuildConfig(s, k, id, hint, tooLong).0.clients;
            && |cs| == |s.clients|
            && (forall j | 0 <= j < |cs| && j != k :: cs[j] == s.clients[j])
            && cs[k] == s.clients[k].(ip := cs[k].ip, pending := cs[k].pending)
  {
    hide ChooseIp;
    hide WithOldAddress;
    hide Merged;
    OldAddressFrame(s, k, id, hint);
    var c := WithOldAddress(s, k, id, hint);
    var s1 := s.(clients := s.clients[k := c]);
    var cs := BuildConfig(s, k, id, hint, tooLong).0.clients;
    assert cs == s.clients || cs == s1.clients || exists ip :: cs == s1.clients[k := AssignIp(c, ip)];
  }

  /** Changing addresses and identity of an entry leaves its sessions alone. */
  lemma IdentifiedSessions(s: State, c: Client, q: Init)
    ensures SameSessions(Identified(s, c, q), c) && Identified(s, c, q).id == q.id
  {
  }

  lemma WithSessionOk(s: State, c: Client, k: nat, q: Init, idx: nat, cfg: nat)
    requires SessionsOk(c, k) && c.active && IndexOk(Live(idx, q.remote, q.kSend, q.kRecv, s.now, cfg), k)
    requires !HasIndex(c.cur, idx) && !HasIndex(c.next, idx) && !HasIndex(c.prev, idx)
    ensures SessionsOk(WithSession(s, c, q, idx, cfg), k)
    ensures var c' := WithSession(s, c, q, idx, cfg);
            && (if c.cur.Live? then c'.cur == c.cur else c'.next == c.next)
            && c'.prev == c.prev && c'.active && c'.id == c.id
            && (if c.cur.Live? then c'.next else c'.cur) == Live(idx, q.remote, q.kSend, q.kRecv, s.now, cfg)
  {
  }

  lemma RolledBackSessions(c: Client, c0: Client, k: nat, taken: bool)
    requires SessionsOk(c0, k) && c.prev == c0.prev && c.active == c0.active
    requires taken ==> c0.cur == Wiped
    ensures var c' := RolledBack(c, c0, taken);
            SessionsOk(c', k) && if taken then c' == EMPTY else SameSessions(c', c0)
  {
  }

  /** The session a handshake sets up. */
  predicate MadeFor(q: Init, now: nat, x: Session) {
    x.Live? && x == Live(x.local, q.remote, q.kSend, q.kRecv, now, x.cfg)
  }

  /** A successful answer sets up one session and leaves a current one
      alone; a failed one leaves all sessions of the entry as they were. */
  lemma AnswerEffect(s: State, k: nat, taken: bool, q: Init, fault: Fault, rand: seq<nat>)
    requires Shape(s) && RotInv(s.clients) && k < |s.clients| && s.clients[k].active
    requires taken ==> s.clients[k].cur == Wiped
    requires |rand| == 16 && forall j | 0 <= j < 16 :: rand[j] < ServerTable.U32
    ensures var (s', r) := Answer(s, k, taken, q, fault, rand);
            var c, c' := s.clients[k], s'.clients[k];
            && RotInv(s'.clients)
            && (forall j | 0 <= j < |s.clients| && j != k :: s'.clients[j] == s.clients[j])
            && (c.cur.Live? ==> c'.cur == c.cur && c'.prev == c.prev)
            && (r == Accepted ==>
                  && MadeFor(q, s.now, if c.cur.Live? then c'.next else c'.cur)
                  && c'.prev == c.prev && (!c.cur.Live? ==> c'.next == c.next) && c'.id == q.id)
            && (r == Failed ==> if taken then c' == EMPTY else SameSessions(c', c))
            && r != Rejected
  {
    hide NewIndex;
    hide BuildConfig;
    hide RolledBack;
    hide WithSession;
    hide Identified;
    var c0 := s.clients[k];
    var c1 := Identified(s, c0, q);
    IdentifiedSessions(s, c0, q);
    var s1 := s.(clients := s.clients[k := c1]);
    BuildConfigFrame(s1, k, q.id, q.ip, fault == ConfigTooLong);
    var (s2, cfg) := if q.auto then BuildConfig(s1, k, q.id, q.ip, fault == ConfigTooLong) else (s1, Some(0));
    var c2 := s2.clients[k];
    var idx := NewIndex(c2, k, rand, 0);
    var s' := Answer(s, k, taken, q, fault, rand).0;
    assert SessionsOk(c0, k);
    assert s'.clients == s.clients[k := s'.clients[k]];
    if cfg.None? || fault == NoRandom || idx == 0 || fault == NoReply {
      RolledBackSessions(c2, c0, k, taken);
    } else {
      WithSessionOk(s2, c2, k, q, idx, cfg.value);
      RolledBackSessions(WithSession(s2, c2, q, idx, cfg.value), c0, k, taken);
    }
    UpdateKeepsRot(s.clients, k, s'.clients[k]);
  }

  /** What a handshake, successful or failed, does to every valid current
      session. It stays, with two exceptions: its entry goes with its TCP
      connection, which now carries another client; or the entry is given up
      to a new client, and holds that client's first session, if any. */
  lemma HandshakeKeepsCurrent(s: State, q: Init, fault: Fault, rand: seq<nat>, memory: Memory, j: nat)
    requires Shape(s) && RotInv(s.clients) && j < |s.clients| && s.clients[j].cur.Live?
    requires |rand| == 16 && forall j | 0 <= j < 16 :: rand[j] < ServerTable.U32
    ensures var (s', r) := Handshake(s, q, fault, rand, memory);
            var c, c' := s.clients[j], s'.clients[j];
            && (WipesFd(s, q, j) ==> c' == EMPTY)
            && (Evicts(s, q, j) ==>
                  if r == Accepted then MadeFor(q, s.now, c'.cur) && c'.next == Wiped && c'.prev == Wiped && c'.id == q.id
                  else c' == EMPTY)
            && (!WipesFd(s, q, j) && !Evicts(s, q, j) ==> c'.cur == c.cur)
            && (c.cur.kSend != q.kSend ==> (c'.cur == c.cur <==> !WipesFd(s, q, j) && !Evicts(s, q, j)))
  {
    hide Stale;
    hide ProfileTaken;
    hide EntryFor;
    hide Answer;
    hide Evicts;
    hide WipesFd;
    assert SessionsOk(s.clients[j], j);
    if Stale(s, q) || ProfileTaken(s, q) {
      NothingGoes(s, q);
    } else {
      EntryForEffect(s, q, memory);
      var (s1, k, taken) := EntryFor(s, q, memory);
      if k >= 0 {
        AnswerEffect(s1, k, taken, q, fault, rand);
      }
    }
  }

  lemma HandshakeKeepsRot(s: State, q: Init, fault: Fault, rand: seq<nat>, memory: Memory)
    requires Shape(s) && RotInv(s.clients)
    requires |rand| == 16 && forall j | 0 <= j < 16 :: rand[j] < ServerTable.U32
    ensures RotInv(Handshake(s, q, fault, rand, memory).0.clients)
  {
    hide Stale;
    hide ProfileTaken;
    hide EntryFor;
    hide Answer;
    hide SessionsOk;
    if !Stale(s, q) && !ProfileTaken(s, q) {
      EntryForEffect(s, q, memory);
      var (s1, k, taken) := EntryFor(s, q, memory);
      if k >= 0 {
        AnswerEffect(s1, k, taken, q, fault, rand);
      }
    }
  }

  /** Data changes a current session only as the first authentic packet on
      the entry's next one, which becomes current; the old one becomes the
      previous one. Nothing else changes any session. */
  lemma DataRotates(s: State, d: Data)
    requires Shape(s) && RotInv(s.clients)
    ensures RotInv(AfterData(s, d).clients)
    ensures forall j | 0 <= j < |s.clients| ::
              var c, c' := s.clients[j], AfterData(s, d).clients[j];
              if j == SlotOf(s, d.idx) && Opens(s, d) && HasIndex(c.next, d.idx)
              then c'.cur == c.next && c'.prev == c.cur && c'.next == Wiped
              else SameSessions(c', c)
  {
    var k := SlotOf(s, d.idx);
    if Opens(s, d) {
      assert SessionsOk(s.clients[k], k);
      UpdateKeepsRot(s.clients, k, AfterData(s, d).clients[k]);
    }
  }

  lemma VisitKeepsRot(s: State, k: nat, pass: Pass, memory: Memory)
    requires Shape(s) && RotInv(s.clients) && k < |s.clients|
    ensures RotInv(Visit(s, k, pass, memory).clients)
  {
    assert SessionsOk(s.clients[k], k);
    var s' := Visit(s, k, pass, memory);
    assert SessionsOk(s'.clients[k], k);
  }

  lemma {:induction false} PassKeepsRot(s: State, n: nat, pass: Pass, memory: Memory)
    requires Shape(s) && RotInv(s.clients) && n <= |s.clients|
    ensures RotInv(Visited(s, n, pass, memory).clients)
  {
    hide SessionsOk;
    hide Visit;
    if n > 0 {
      PassKeepsRot(s, n - 1, pass, memory);
      VisitKeepsRot(Visited(s, n - 1, pass, memory), n - 1, pass, memory);
    }
  }

  lemma ConnectKeepsRot(s: State, fd: int, peer: Addr)
    requires Shape(s) && RotInv(s.clients)
    ensures RotInv(Connected(s, fd, peer).clients)
  {
    forall j | 0 <= j < |s.clients|
      ensures SessionsOk(Connected(s, fd, peer).clients[j], j)
    {
      assert SessionsOk(s.clients[j], j);
    }
  }

  lemma StepKeepsRot(s: State, e: Event)
    requires Shape(s) && RotInv(s.clients) && EventOk(e)
    ensures RotInv(Step(s, e).clients)
  {
    hide SessionsOk;
    hide Handshake;
    hide AfterData;
    hide Connected;
    match e
    case Tick(seconds) =>
    case Connect(fd, peer) => ConnectKeepsRot(s, fd, peer);
    case Close(fd, memory) => CloseKeepsRot(s, fd, memory);
    case Shake(q, fault, rand, memory) => HandshakeKeepsRot(s, q, fault, rand, memory);
    case Packet(d) => DataRotates(s, d);
    case Expire(memory) => PassKeepsRot(s, |s.clients|, Expiry, memory);
    case Configure(db, allowed, memory) =>
      var s0 := s.(db := db);
      PassKeepsRot(s0, |s.clients|, Keys(allowed), memory);
      var s1 := Whole(s0, Keys(allowed), memory);
      PassKeepsRot(s1, |s.clients|, UnknownIds, memory);
      PassKeepsRot(Whole(s1, UnknownIds, memory), |s.clients|, ProfileAddresses, memory);
  }

  lemma CloseKeepsRot(s: State, fd: int, memory: Memory)
    requires Shape(s) && RotInv(s.clients)
    ensures RotInv(Closed(s, fd, memory).clients)
  {
  }

  /** In every run, of auto and manual handshakes: all valid sessions have
      distinct indexes, each naming its slot. */
  lemma {:induction false} IndexesInEveryRun(s: State, es: seq<Event>)
    requires Fresh(s) && forall i | 0 <= i < |es| :: EventOk(es[i])
    ensures RotInv(Run(s, es).clients)
  {
    hide Step;
    if es != [] {
      IndexesInEveryRun(s, es[..|es| - 1]);
      StepKeepsRot(Run(s, es[..|es| - 1]), es[|es| - 1]);
    }
  }
}
