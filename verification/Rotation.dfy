/** The client half of session rotation (client.c). The handshake in progress
    is known by its number; what reading message 2 in it gives is a
    parameter. */
module Client {
  import opened Wrappers
  import opened ServerTable

  /** The value of client_state_t, as far as sessions go. `hs` is the number
      of the INIT whose handshake state is held, None for one no INIT was made
      of. */
  datatype Peer = Peer(hs: Option<nat>, pending: bool, hsIndex: nat, hsSent: nat,
                       cur: Session, prev: Session, prevUntil: nat,
                       lastRecv: nat, established: bool, confirmPending: bool)

  const NO_PEER := Peer.Peer(None, false, 0, 0, Wiped, Wiped, 0, 0, false, false)

  datatype Which = InCur | InPrev | Nowhere

  predicate HasLocal(s: Session, idx: nat) {
    s.Live? && s.local == idx
  }

  /** The session a DATA packet with this index is tried on. */
  function Receiving(p: Peer, idx: nat, now: nat): Which {
    if HasLocal(p.cur, idx) then InCur
    else if HasLocal(p.prev, idx) && now <= p.prevUntil then InPrev
    else Nowhere
  }

  /** An INIT was made, with number `h` and index `index`. */
  function Asked(p: Peer, h: nat, index: nat, now: nat): Peer {
    p.(hs := Some(h), pending := true, hsIndex := index, hsSent := now)
  }

  /** An INIT could not be made after the old handshake state was given up. */
  function AskFailed(p: Peer, index: nat): Peer {
    p.(hs := None, hsIndex := index)
  }

  /** A RESP was read: its session is the current one. */
  function Installed(p: Peer, serverIndex: nat, kSend: Key, kRecv: Key, now: nat): Peer {
    p.(hs := None, pending := false,
       prev := if p.cur.Live? then p.cur else Wiped,
       prevUntil := if p.cur.Live? then now + PREV_SESSION_GRACE else p.prevUntil,
       cur := Live(p.hsIndex, serverIndex, kSend, kRecv, now, 0),
       lastRecv := now, established := true, confirmPending := true)
  }

  /** client_wipe */
  function WipedPeer(p: Peer): Peer {
    p.(hs := None, pending := false, cur := Wiped, prev := Wiped)
  }

  /** client_reconnect; `up`: there is a socket and an INIT could be sent. */
  function Reconnected(p: Peer, up: bool, now: nat): Peer {
    WipedPeer(p).(established := false, lastRecv := if up then now else 0)
  }

  /** An authentic DATA packet came on the given session. */
  function Heard(p: Peer, w: Which, now: nat): Peer {
    p.(lastRecv := now, confirmPending := if w == InCur then false else p.confirmPending)
  }

  class ClientState {
    var hs: Option<nat>
    var pending: bool
    var hsIndex: nat
    var hsSent: nat
    var cur: Session
    var prev: Session
    var prevUntil: nat
    var lastRecv: nat
    var established: bool
    var confirmPending: bool

    function Value(): Peer
      reads this
    {
      Peer.Peer(hs, pending, hsIndex, hsSent, cur, prev, prevUntil, lastRecv, established, confirmPending)
    }

    /** client_state_init */
    constructor ()
      ensures Value() == NO_PEER
    {
      hs, pending, hsIndex, hsSent := None, false, 0, 0;
      cur, prev, prevUntil, lastRecv := Wiped, Wiped, 0, 0;
      established, confirmPending := false, false;
    }

    /** client_wipe */
    method Wipe()
      modifies this
      ensures Value() == WipedPeer(old(Value()))
    {
      hs := None;
      cur := Wiped;
      prev := Wiped;
      pending := false;
    }

    /** client_reconnect, up to its handshake */
    method Reconnect(up: bool, now: nat)
      modifies this
      ensures Value() == Reconnected(old(Value()), up, now)
    {
      Wipe();
      established := false;
      if !up {
        lastRecv := 0;
        return;
      }
      lastRecv := now;
    }

    /** client_send_init. `ready`: keys, REGISTER text and randomness are
        there; `index` is 0 if none could be drawn; `written`: message 1 could
        be made. */
    method SendInit(h: nat, ready: bool, index: nat, written: bool, sent: bool, now: nat) returns (ok: bool)
      modifies this
      ensures Value() == if !ready then old(Value())
                         else if index == 0 || !written then AskFailed(old(Value()), index)
                         else Asked(old(Value()), h, index, now)
      ensures ok <==> ready && index != 0 && written && sent
    {
      if !ready {
        return false;
      }
      hs := None;
      hsIndex := index;
      if index == 0 {
        return false;
      }
      if !written {
        return false;
      }
      hs := Some(h);
      pending := true;
      hsSent := now;
      ok := sent;
    }

    /** client_handle_resp; `keys` is what message 2 gives in the handshake
        held, `config` whether its CONFIG was taken. */
    method HandleResp(clientIndex: nat, serverIndex: nat, keys: Option<(Key, Key)>, config: bool, now: nat)
      returns (ok: bool)
      modifies this
      ensures ok <==> old(pending) && clientIndex == old(hsIndex) && keys.Some? && config
      ensures Value() == if ok then Installed(old(Value()), serverIndex, keys.value.0, keys.value.1, now)
                         else old(Value())
    {
      if !pending || clientIndex != hsIndex {
        return false;
      }
      if keys.None? {
        return false;
      }
      if !config {
        return false;
      }
      hs := None;
      pending := false;
      prev := Wiped;
      if cur.Live? {
        prev := cur;
        prevUntil := now + PREV_SESSION_GRACE;
      }
      cur := Live(hsIndex, serverIndex, keys.value.0, keys.value.1, now, 0);
      lastRecv := now;
      established := true;
      confirmPending := true;
      ok := true;
    }

    /** The DATA part of client_handle_net_packet; `opens` says of either
        session whether the packet opens on it. */
    method HandleData(idx: nat, opens: Session -> bool, now: nat) returns (ok: bool)
      modifies this
      ensures ok <==> match Receiving(old(Value()), idx, now)
                      case InCur => opens(old(cur))
                      case InPrev => opens(old(prev))
                      case Nowhere => false
      ensures Value() == if ok then Heard(old(Value()), Receiving(old(Value()), idx, now), now) else old(Value())
    {
      var which := Nowhere;
      if cur.Live? && idx == cur.local {
        which := InCur;
      } else if prev.Live? && idx == prev.local && now <= prevUntil {
        which := InPrev;
      }
      if which == Nowhere || !opens(if which == InCur then cur else prev) {
        return false;
      }
      lastRecv := now;
      if which == InCur {
        confirmPending := false;
      }
      ok := true;
    }
  }
}

/** Both parties: one client and the whole server with all its other clients,
    joined by a network that drops, repeats, reorders and alters what the
    handshake does not authenticate (the indexes in the headers of INIT and
    RESP). Message 2 is only read in the handshake it answers, and DATA only
    opens if a holder of the key sealed it for that index. */
module Rotation {
  import opened Wrappers
  import opened ServerTable
  import opened ServerSteps
  import SR = ServerRotation
  import C = Client

  /** The keys of reply `r`: keys of every reply differ, and those of other
      clients' handshakes (`Foreign`) differ from all of them. */
  function ToServer(r: nat): Key { 3 * r }
  function ToClient(r: nat): Key { 3 * r + 1 }
  predicate Foreign(k: Key) { k % 3 == 2 }

  /** The server's answer to INIT number `h`; `remote` is the client index it
      read in the header of that INIT. */
  datatype Reply = Reply(h: nat, remote: nat)

  /** A session the client has installed from reply `r`, in handshake `h`. */
  datatype Install = Install(r: nat, h: nat, session: Session)

  datatype World = World(server: State, peer: C.Peer, inits: seq<nat>, replies: seq<Reply>,
                         installs: seq<Install>, sealed: set<(Key, nat)>)

  datatype Move =
    | Server(e: Event)                     // not a handshake of this client
    | AnswerTo(h: nat, e: Event)           // INIT number h gets to the server
    | SendInit(index: nat)
    | InitFails(index: nat)
    | Respond(r: nat, clientIndex: nat, serverIndex: nat, config: bool)   // reply r gets to the client
    | Seal                                 // DATA from the client
    | Hear(idx: nat, opens: bool)          // DATA gets to the client; its session opens it or not
    | Reconnect(up: bool)                  // the client starts over

  function SessionOfData(s: State, d: Data): Session {
    var k := SlotOf(s, d.idx);
    if k < 0 then Wiped else SR.SessionAt(s.clients[k], SessionOf(s.clients[k], d.idx, s.now))
  }

  /** What the network cannot do. */
  predicate Possible(w: World, m: Move) {
    match m
    case Server(Shake(q, _, _, _)) => EventOk(m.e) && Foreign(q.kSend) && Foreign(q.kRecv)
    case Server(Packet(d)) =>
      var x := SessionOfData(w.server, d);
      d.authentic && x.Live? && !Foreign(x.kRecv) ==> (x.kRecv, d.idx) in w.sealed
    case Server(e) => EventOk(e)
    case AnswerTo(h, e) =>
      e.Shake? && EventOk(e) && h < |w.inits|
      && e.q.kRecv == ToServer(|w.replies|) && e.q.kSend == ToClient(|w.replies|)
    case SendInit(index) => index != 0
    case Respond(r, _, _, _) => r < |w.replies|
    case _ => true
  }

  /** The keys message 2 of reply `r` gives the client. */
  function KeysOf(w: World, r: nat): Option<(Key, Key)>
    requires r < |w.replies|
  {
    if w.peer.hs == Some(w.replies[r].h) then Some((ToServer(r), ToClient(r))) else None
  }

  predicate Reads(w: World, r: nat, clientIndex: nat, config: bool)
    requires r < |w.replies|
  {
    w.peer.pending && clientIndex == w.peer.hsIndex && KeysOf(w, r).Some? && config
  }

  function Next(w: World, m: Move): (w': World)
    requires Shape(w.server)
    ensures Shape(w'.server)
  {
    if !Possible(w, m) then w
    else
      match m
      case Server(e) => w.(server := Step(w.server, e))
      case AnswerTo(h, e) => w.(server := Step(w.server, e), replies := w.replies + [Reply(h, e.q.remote)])
      case SendInit(index) =>
        w.(peer := C.Asked(w.peer, |w.inits|, index, w.server.now), inits := w.inits + [index])
      case InitFails(index) => w.(peer := C.AskFailed(w.peer, index))
      case Respond(r, clientIndex, serverIndex, config) =>
        if !Reads(w, r, clientIndex, config) then w
        else
          var p := C.Installed(w.peer, serverIndex, ToServer(r), ToClient(r), w.server.now);
          w.(peer := p, installs := w.installs + [Install(r, w.replies[r].h, p.cur)],
             sealed := w.sealed + {(ToServer(r), serverIndex)})
      case Seal => if w.peer.cur.Live? then w.(sealed := w.sealed + {(w.peer.cur.kSend, w.peer.cur.remote)}) else w
      case Hear(idx, opens) =>
        var which := C.Receiving(w.peer, idx, w.server.now);
        if which == C.Nowhere || !opens then w else w.(peer := C.Heard(w.peer, which, w.server.now))
      case Reconnect(up) => w.(peer := C.Reconnected(w.peer, up, w.server.now))
  }

  /* ---- where the server's sessions come from ---- */

  predicate Has(c: Client, x: Session) {
    x.Live? && (c.cur == x || c.next == x || c.prev == x)
  }

  predicate MadeBy(x: Session, q: Init) {
    x.Live? && x.remote == q.remote && x.kSend == q.kSend && x.kRecv == q.kRecv
  }

  predicate Before(c: Client, x: Session, q: Option<Init>) {
    Has(c, x) || (q.Some? && MadeBy(x, q.value))
  }

  /** Every session after a step was in its entry before, or is the one the
      step's handshake made. */
  ghost predicate Come(cs: seq<Client>, cs': seq<Client>, q: Option<Init>) {
    && |cs'| == |cs|
    && forall j, x | 0 <= j < |cs| && Has(cs'[j], x) :: Before(cs[j], x, q)
  }

  predicate Fewer(c: Client, c': Client) {
    && (c'.cur.Live? ==> Has(c, c'.cur)) && (c'.next.Live? ==> Has(c, c'.next)) && (c'.prev.Live? ==> Has(c, c'.prev))
  }

  lemma SlotsCome(cs: seq<Client>, cs': seq<Client>)
    requires |cs'| == |cs| && forall j | 0 <= j < |cs| :: Fewer(cs[j], cs'[j])
    ensures Come(cs, cs', None)
  {
    forall j, x | 0 <= j < |cs| && Has(cs'[j], x)
      ensures Has(cs[j], x)
    {
      assert Fewer(cs[j], cs'[j]);
    }
  }

  lemma ComeTrans(cs: seq<Client>, cs': seq<Client>, cs'': seq<Client>)
    requires Come(cs, cs', None) && Come(cs', cs'', None)
    ensures Come(cs, cs'', None)
  {
    forall j, x | 0 <= j < |cs| && Has(cs''[j], x)
      ensures Has(cs[j], x)
    {
      assert Has(cs'[j], x);
    }
  }

  lemma AnswerCome(s: State, k: nat, taken: bool, q: Init, fault: Fault, rand: seq<nat>)
    requires Shape(s) && k < |s.clients|
    requires |rand| == 16 && forall j | 0 <= j < 16 :: rand[j] < ServerTable.U32
    ensures Come(s.clients, Answer(s, k, taken, q, fault, rand).0.clients, Some(q))
  {
    hide NewIndex;
    hide BuildConfig;
    hide RolledBack;
    hide WithSession;
    hide Identified;
    var c0 := s.clients[k];
    SR.IdentifiedSessions(s, c0, q);
    var s1 := s.(clients := s.clients[k := Identified(s, c0, q)]);
    SR.BuildConfigFrame(s1, k, q.id, q.ip, fault == ConfigTooLong);
    var (s2, cfg) := if q.auto then BuildConfig(s1, k, q.id, q.ip, fault == ConfigTooLong) else (s1, Some(0));
    var c2 := s2.clients[k];
    var idx := NewIndex(c2, k, rand, 0);
    RolledBackCome(c2, c0, taken);
    if cfg.Some? {
      WithSessionCome(s2, c2, q, idx, cfg.value);
      RolledBackCome(WithSession(s2, c2, q, idx, cfg.value), c0, taken);
    }
  }

  lemma RolledBackCome(c: Client, c0: Client, taken: bool)
    ensures forall x | Has(RolledBack(c, c0, taken), x) :: Has(c0, x) || c.prev == x
  {
  }

  lemma WithSessionCome(s: State, c: Client, q: Init, idx: nat, cfg: nat)
    ensures WithSession(s, c, q, idx, cfg).prev == c.prev
    ensures forall x | Has(WithSession(s, c, q, idx, cfg), x) :: Has(c, x) || MadeBy(x, q)
  {
  }

  lemma HandshakeCome(s: State, q: Init, fault: Fault, rand: seq<nat>, memory: Memory)
    requires Shape(s) && SR.RotInv(s.clients)
    requires |rand| == 16 && forall j | 0 <= j < 16 :: rand[j] < ServerTable.U32
    ensures Come(s.clients, Handshake(s, q, fault, rand, memory).0.clients, Some(q))
  {
    hide Stale;
    hide ProfileTaken;
    hide EntryFor;
    hide Answer;
    if !Stale(s, q) && !ProfileTaken(s, q) {
      SR.EntryForEffect(s, q, memory);
      var (s1, k, taken) := EntryFor(s, q, memory);
      EntryCome(s, q, s1, k, taken);
      if k >= 0 {
        AnswerCome(s1, k, taken, q, fault, rand);
      }
    }
  }

  lemma EntryCome(s: State, q: Init, s1: State, k: int, taken: bool)
    requires Shape(s) && SR.EntryEffect(s, q, s1, k, taken) && SR.RotInv(s1.clients)
    ensures Come(s.clients, s1.clients, None)
  {
    if k >= 0 {
      assert SR.SessionsOk(s1.clients[k], k);
    }
  }

  lemma VisitCome(s: State, k: nat, pass: Pass, memory: Memory)
    requires Shape(s) && k < |s.clients|
    ensures Come(s.clients, Visit(s, k, pass, memory).clients, None)
  {
    SlotsCome(s.clients, Visit(s, k, pass, memory).clients);
  }

  lemma {:induction false} PassCome(s: State, n: nat, pass: Pass, memory: Memory)
    requires Shape(s) && n <= |s.clients|
    ensures Come(s.clients, Visited(s, n, pass, memory).clients, None)
  {
    hide Visit, Has;
    if n > 0 {
      PassCome(s, n - 1, pass, memory);
      var s1 := Visited(s, n - 1, pass, memory);
      VisitCome(s1, n - 1, pass, memory);
      ComeTrans(s.clients, s1.clients, Visited(s, n, pass, memory).clients);
    }
  }

  lemma DataCome(s: State, d: Data)
    requires Shape(s) && SR.RotInv(s.clients)
    ensures Come(s.clients, AfterData(s, d).clients, None)
  {
    SR.DataRotates(s, d);
    SlotsCome(s.clients, AfterData(s, d).clients);
  }

  lemma CloseCome(s: State, fd: int, memory: Memory)
    requires Shape(s)
    ensures Come(s.clients, Closed(s, fd, memory).clients, None)
  {
    SlotsCome(s.clients, Closed(s, fd, memory).clients);
  }

  lemma ConnectCome(s: State, fd: int, peer: Addr)
    requires Shape(s)
    ensures Come(s.clients, Connected(s, fd, peer).clients, None)
  {
    SlotsCome(s.clients, Connected(s, fd, peer).clients);
  }

  lemma StepCome(s: State, e: Event)
    requires Shape(s) && SR.RotInv(s.clients) && EventOk(e)
    ensures Come(s.clients, Step(s, e).clients, if e.Shake? then Some(e.q) else None)
  {
    hide Handshake;
    hide AfterData;
    hide Connected;
    hide Has;
    match e
    case Tick(seconds) =>
    case Connect(fd, peer) => ConnectCome(s, fd, peer);
    case Close(fd, memory) => CloseCome(s, fd, memory);
    case Shake(q, fault, rand, memory) => HandshakeCome(s, q, fault, rand, memory);
    case Packet(d) => DataCome(s, d);
    case Expire(memory) => PassCome(s, |s.clients|, Expiry, memory);
    case Configure(db, allowed, memory) =>
      var s0 := s.(db := db);
      var s1 := Whole(s0, Keys(allowed), memory);
      var s2 := Whole(s1, UnknownIds, memory);
      PassCome(s0, |s.clients|, Keys(allowed), memory);
      PassCome(s1, |s.clients|, UnknownIds, memory);
      PassCome(s2, |s.clients|, ProfileAddresses, memory);
      ComeTrans(s.clients, s1.clients, s2.clients);
      ComeTrans(s.clients, s2.clients, Step(s, e).clients);
  }

  /* ---- what every move keeps ---- */

  /** A session of one of this client's handshakes has the keys and the
      client index of the reply that made it. */
  predicate Known(x: Session, replies: seq<Reply>) {
    x.Live? && !Foreign(x.kRecv) ==>
      x.kRecv % 3 == 0 && x.kRecv / 3 < |replies| && x.kSend == x.kRecv + 1 && x.remote == replies[x.kRecv / 3].remote
  }

  ghost predicate ServerKnows(cs: seq<Client>, replies: seq<Reply>) {
    forall j, x | 0 <= j < |cs| && Has(cs[j], x) :: Known(x, replies)
  }

  predicate InstallOk(a: Install, inits: seq<nat>, replies: seq<Reply>) {
    && a.r < |replies| && a.h == replies[a.r].h < |inits|
    && a.session.Live? && a.session.local == inits[a.h]
    && a.session.kSend == ToServer(a.r) && a.session.kRecv == ToClient(a.r)
  }

  predicate IsInstalled(s: Session, installs: seq<Install>) {
    s.Live? ==> exists i :: 0 <= i < |installs| && installs[i].session == s
  }

  predicate SealedBy(p: (Key, nat), a: Install) {
    a.session.Live? && a.session.kSend == p.0 && a.session.remote == p.1
  }

  ghost predicate Inv(w: World) {
    && Shape(w.server) && SR.RotInv(w.server.clients)
    && ServerKnows(w.server.clients, w.replies)
    && (forall r | 0 <= r < |w.replies| :: w.replies[r].h < |w.inits|)
    && (forall i | 0 <= i < |w.installs| :: InstallOk(w.installs[i], w.inits, w.replies))
    && (forall i, j | 0 <= i < j < |w.installs| :: w.installs[i].h != w.installs[j].h)
    && (forall p | p in w.sealed :: exists i :: 0 <= i < |w.installs| && SealedBy(p, w.installs[i]))
    && IsInstalled(w.peer.cur, w.installs) && IsInstalled(w.peer.prev, w.installs)
    && (w.peer.hs.Some? ==>
          w.peer.hs.value < |w.inits| && w.peer.hsIndex == w.inits[w.peer.hs.value]
          && forall i | 0 <= i < |w.installs| :: w.installs[i].h != w.peer.hs.value)
  }

  lemma KnownLater(cs: seq<Client>, replies: seq<Reply>, r: Reply)
    requires ServerKnows(cs, replies)
    ensures ServerKnows(cs, replies + [r])
  {
    forall j, x | 0 <= j < |cs| && Has(cs[j], x)
      ensures Known(x, replies + [r])
    {
      assert Known(x, replies);
    }
  }

  lemma ServerMove(w: World, e: Event, replies: seq<Reply>)
    requires Inv(w) && EventOk(e) && ServerKnows(w.server.clients, replies)
    requires e.Shake? ==> forall x | MadeBy(x, e.q) :: Known(x, replies)
    ensures var s := Step(w.server, e); Shape(s) && SR.RotInv(s.clients) && ServerKnows(s.clients, replies)
  {
    hide Step;
    SR.StepKeepsRot(w.server, e);
    StepCome(w.server, e);
    var cs := Step(w.server, e).clients;
    forall j, x | 0 <= j < |cs| && Has(cs[j], x)
      ensures Known(x, replies)
    {
      assert Before(w.server.clients[j], x, if e.Shake? then Some(e.q) else None);
    }
  }

  lemma RespondKeeps(w: World, r: nat, clientIndex: nat, serverIndex: nat, config: bool)
    requires Inv(w) && r < |w.replies| && Reads(w, r, clientIndex, config)
    ensures Inv(Next(w, Respond(r, clientIndex, serverIndex, config)))
  {
    var w' := Next(w, Respond(r, clientIndex, serverIndex, config));
    var n := |w.installs|;
    assert w'.installs[n].session == w'.peer.cur;
    assert forall i | 0 <= i < n :: w'.installs[i] == w.installs[i];
    if w.peer.cur.Live? {
      var i :| 0 <= i < n && w.installs[i].session == w.peer.cur;
      assert w'.installs[i].session == w'.peer.prev;
    }
    forall p | p in w'.sealed
      ensures exists i :: 0 <= i < |w'.installs| && SealedBy(p, w'.installs[i])
    {
      if p in w.sealed {
        var i :| 0 <= i < n && SealedBy(p, w.installs[i]);
        assert SealedBy(p, w'.installs[i]);
      } else {
        assert SealedBy(p, w'.installs[n]);
      }
    }
  }

  lemma NextKeepsInv(w: World, m: Move)
    requires Inv(w)
    ensures Inv(Next(w, m))
  {
    hide Step;
    hide SR.RotInv;
    if Possible(w, m) {
      match m
      case Server(e) => ServerMove(w, e, w.replies);
      case AnswerTo(h, e) =>
        var r := Reply(h, e.q.remote);
        KnownLater(w.server.clients, w.replies, r);
        ServerMove(w, e, w.replies + [r]);
      case SendInit(index) =>
      case InitFails(index) =>
      case Respond(r, clientIndex, serverIndex, config) =>
        if Reads(w, r, clientIndex, config) {
          RespondKeeps(w, r, clientIndex, serverIndex, config);
        }
      case Seal =>
        if w.peer.cur.Live? {
          var i :| 0 <= i < |w.installs| && w.installs[i].session == w.peer.cur;
          assert SealedBy((w.peer.cur.kSend, w.peer.cur.remote), w.installs[i]);
        }
      case Hear(_, _) =>
      case Reconnect(_) =>
    }
  }

  /* ---- the theorems ---- */

  /** A server that has just started and a client that has not. */
  ghost predicate Started(w: World) {
    Fresh(w.server) && w.peer == C.NO_PEER && w.inits == [] && w.replies == [] && w.installs == [] && w.sealed == {}
  }

  function Run(w: World, ms: seq<Move>): (w': World)
    requires Shape(w.server)
    ensures Shape(w'.server)
  {
    if ms == [] then w else Next(Run(w, ms[..|ms| - 1]), ms[|ms| - 1])
  }

  /** A client that makes its moves of a run ends in the state the run has
      for it: what is proved of runs is proved of `ClientState`. */
  method PlayClient(w: World, ms: seq<Move>) returns (c: C.ClientState)
    requires Shape(w.server) && w.peer == C.NO_PEER
    ensures fresh(c) && c.Value() == Run(w, ms).peer
  {
    hide Step, Run;
    c := new C.ClientState();
    var v := w;
    assert ms[..0] == [];
    RunStart(w);
    for n := 0 to |ms|
      invariant fresh(c) && Shape(v.server) && v == Run(w, ms[..n]) && c.Value() == v.peer
    {
      var now := v.server.now;
      if Possible(v, ms[n]) {
        match ms[n]
        case SendInit(index) =>
          var _ := c.SendInit(|v.inits|, true, index, true, true, now);
        case InitFails(index) =>
          var _ := c.SendInit(|v.inits|, true, index, false, false, now);
        case Respond(r, clientIndex, serverIndex, config) =>
          var _ := c.HandleResp(clientIndex, serverIndex, KeysOf(v, r), config, now);
        case Hear(idx, opens) =>
          var _ := c.HandleData(idx, _ => opens, now);
        case Reconnect(up) =>
          c.Reconnect(up, now);
        case _ =>
      }
      RunNext(w, ms, n);
      v := Next(v, ms[n]);
    }
    assert ms[..|ms|] == ms;
  }

  lemma RunStart(w: World)
    requires Shape(w.server)
    ensures Run(w, []) == w
  {
  }

  lemma RunNext(w: World, ms: seq<Move>, n: nat)
    requires Shape(w.server) && n < |ms|
    ensures Run(w, ms[..n + 1]) == Next(Run(w, ms[..n]), ms[n])
  {
    assert ms[..n + 1][..n] == ms[..n];
  }

  lemma {:induction false} InvInEveryRun(w: World, ms: seq<Move>)
    requires Started(w)
    ensures Inv(Run(w, ms))
  {
    hide Next;
    if ms != [] {
      InvInEveryRun(w, ms[..|ms| - 1]);
      NextKeepsInv(Run(w, ms[..|ms| - 1]), ms[|ms| - 1]);
    }
  }

  /** Crossed indexes and swapped keys. */
  predicate Paired(server: Session, client: Session) {
    && server.Live? && client.Live?
    && server.local == client.remote && server.remote == client.local
    && server.kSend == client.kRecv && server.kRecv == client.kSend
  }

  /** The packet makes the entry's next session current. */
  ghost predicate Promotes(w: World, d: Data) {
    Possible(w, Server(Packet(d))) && Opens(w.server, d)
    && HasIndex(w.server.clients[SlotOf(w.server, d.idx)].next, d.idx)
  }

  /** The client's `i`-th install is the counterpart of the server's session
      `x`: from the reply that made it, in the handshake that reply answers,
      the only one in that handshake, with the keys swapped and the server's
      index as its remote index. */
  ghost predicate Counterpart(w: World, x: Session, i: nat)
    requires x.Live?
  {
    && i < |w.installs| && x.kRecv / 3 < |w.replies|
    && var a := w.installs[i];
       && a.r == x.kRecv / 3 && a.h == w.replies[a.r].h < |w.inits|
       && (forall j | 0 <= j < |w.installs| && w.installs[j].h == a.h :: j == i)
       && a.session.Live? && a.session.kSend == x.kRecv && a.session.kRecv == x.kSend && a.session.remote == x.local
  }

  lemma PromotedIsInstalled(w: World, d: Data) returns (i: nat)
    requires Inv(w) && Promotes(w, d)
    requires !Foreign(w.server.clients[SlotOf(w.server, d.idx)].next.kRecv)
    ensures Counterpart(w, w.server.clients[SlotOf(w.server, d.idx)].next, i)
    ensures var x := w.server.clients[SlotOf(w.server, d.idx)].next;
            Paired(x, w.installs[i].session) <==> w.replies[w.installs[i].r].remote == w.inits[w.installs[i].h]
  {
    hide AfterData;
    var k := SlotOf(w.server, d.idx);
    var x := w.server.clients[k].next;
    assert SR.SessionsOk(w.server.clients[k], k);
    assert SessionOfData(w.server, d) == x;
    assert Has(w.server.clients[k], x) && Known(x, w.replies);
    assert (x.kRecv, d.idx) in w.sealed;
    i :| 0 <= i < |w.installs| && SealedBy((x.kRecv, d.idx), w.installs[i]);
    assert InstallOk(w.installs[i], w.inits, w.replies);
  }

  /** In every run: a session of this client's that becomes current has a
      counterpart the client installed from the matching RESP. Their indexes
      are crossed in both directions exactly if the INIT came with the
      client's own index in its header. */
  lemma PromotedInEveryRun(w: World, ms: seq<Move>, d: Data) returns (i: nat)
    requires Started(w) && Promotes(Run(w, ms), d)
    requires !Foreign(Run(w, ms).server.clients[SlotOf(Run(w, ms).server, d.idx)].next.kRecv)
    ensures var v := Run(w, ms);
            var k := SlotOf(v.server, d.idx);
            var x := v.server.clients[k].next;
            var c' := Next(v, Server(Packet(d))).server.clients[k];
            && c'.cur == x && c'.prev == v.server.clients[k].cur && Counterpart(v, x, i)
            && (Paired(x, v.installs[i].session) <==> v.replies[v.installs[i].r].remote == v.inits[v.installs[i].h])
  {
    hide Counterpart, Paired, Inv;
    InvInEveryRun(w, ms);
    i := PromotedIsInstalled(Run(w, ms), d);
    PromotionRotates(Run(w, ms), d);
  }

  lemma PromotionRotates(w: World, d: Data)
    requires Inv(w) && Promotes(w, d)
    ensures var k := SlotOf(w.server, d.idx);
            var c, c' := w.server.clients[k], Next(w, Server(Packet(d))).server.clients[k];
            c'.cur == c.next && c'.prev == c.cur
  {
    hide AfterData;
    SR.DataRotates(w.server, d);
  }

  /** The client has read the reply its handshake waits for. While the server
      has not heard it on the new session, what the server sends still opens
      at the client, on the previous session, for the grace period; that this
      session is found needs the client's new index, drawn at random, to
      differ from its old one. */
  lemma ReadReplyKeepsOld(w: World, k: nat, r: nat, later: nat)
    requires Inv(w) && r < |w.replies| && k < |w.server.clients|
    requires Paired(w.server.clients[k].cur, w.peer.cur) && Reads(w, r, w.peer.hsIndex, true)
    requires var x := w.server.clients[k].next;
             x.Live? && x.kRecv == ToServer(r) && x.remote == w.peer.hsIndex
    ensures var x := w.server.clients[k].next;
            var w1 := Next(w, Respond(r, w.peer.hsIndex, x.local, true));
            && w1.server == w.server
            && Paired(w1.server.clients[k].cur, w1.peer.prev) && Paired(x, w1.peer.cur)
            && (ToServer(r), x.local) in w1.sealed
            && (C.Receiving(w1.peer, w.peer.cur.local, later) == C.InPrev <==>
                  w.peer.cur.local != w.peer.hsIndex && later <= w.server.now + PREV_SESSION_GRACE)
  {
    var c := w.server.clients[k];
    assert Has(c, c.next) && Known(c.next, w.replies);
  }

  /** Then its first packet through the network makes both use the new
      session; what it had sent on the old one still opens at the server for
      the grace period. */
  lemma ConfirmationCompletes(w: World, k: nat, d: Data, later: nat)
    requires Inv(w) && k < |w.server.clients| && w.server.clients[k].active
    requires Paired(w.server.clients[k].cur, w.peer.prev) && Paired(w.server.clients[k].next, w.peer.cur)
    requires (w.peer.cur.kSend, w.peer.cur.remote) in w.sealed
    requires d.idx == w.peer.cur.remote && d.authentic && d.fd < 0
    ensures var w' := Next(w, Server(Packet(d)));
            && Promotes(w, d)
            && Paired(w'.server.clients[k].cur, w'.peer.cur) && Paired(w'.server.clients[k].prev, w'.peer.prev)
            && (w.server.now <= later <= w.server.now + PREV_SESSION_GRACE ==>
                  SessionOf(w'.server.clients[k], w'.peer.prev.remote, later) == InPrev)
  {
    assert SR.SessionsOk(w.server.clients[k], k);
    SR.IndexFindsSession(w.server, d.idx, k, InNext);
  }
}
