/** What the client knows of its server, over every run of the whole system:
    when it last heard it, whether the server uses the new session, and how long
    the old one still receives (client.c). */
module RotationClient {
  import opened Wrappers
  import opened ServerTable
  import opened Rotation
  import S = ServerSteps
  import C = Client

  /** The client reads a reply: the one its handshake waits for, with its
      index, and a CONFIG it can use. */
  predicate TakesReply(w: World, m: Move) {
    m.Respond? && m.r < |w.replies| && w.peer.pending && m.clientIndex == w.peer.hsIndex
    && w.peer.hs == Some(w.replies[m.r].h) && m.config
  }

  /** It takes a packet on its current session. */
  predicate HearsCurrent(w: World, m: Move) {
    m.Hear? && m.opens && w.peer.cur.Live? && w.peer.cur.local == m.idx
  }

  /** It takes one on its previous session. */
  predicate HearsPrevious(w: World, m: Move) {
    m.Hear? && m.opens && !HearsCurrent(w, m)
    && w.peer.prev.Live? && w.peer.prev.local == m.idx && w.server.now <= w.peer.prevUntil
  }

  predicate Hears(w: World, m: Move) {
    TakesReply(w, m) || HearsCurrent(w, m) || HearsPrevious(w, m)
  }

  /** What a move does to what the client knows. */
  lemma MoveExactly(w: World, m: Move)
    requires S.Shape(w.server)
    ensures var p, p' := w.peer, Next(w, m).peer;
            && p'.lastRecv == (if Hears(w, m) || m == Reconnect(true) then w.server.now
                               else if m == Reconnect(false) then 0 else p.lastRecv)
            && p'.established == (TakesReply(w, m) || (p.established && !m.Reconnect?))
            && (p'.confirmPending <==> TakesReply(w, m) || (p.confirmPending && !HearsCurrent(w, m)))
            && (if TakesReply(w, m) then
                  p'.cur.Live? && p'.cur.local == p.hsIndex && p'.cur.remote == m.serverIndex && p'.prev == p.cur
                  && (p.cur.Live? ==> p'.prevUntil == w.server.now + 30)
                else if m.Reconnect? then p'.cur == Wiped && p'.prev == Wiped && p'.prevUntil == p.prevUntil
                else p'.cur == p.cur && p'.prev == p.prev && p'.prevUntil == p.prevUntil)
  {
    hide S.Step;
  }

  /** The world before the `i`-th move. */
  function At(w: World, ms: seq<Move>, i: nat): (w': World)
    requires S.Shape(w.server) && i <= |ms|
    ensures S.Shape(w'.server)
  {
    Run(w, ms[..i])
  }

  lemma AtNext(w: World, ms: seq<Move>, i: nat)
    requires S.Shape(w.server) && i < |ms|
    ensures At(w, ms, i + 1) == Next(At(w, ms, i), ms[i])
  {
    assert ms[..i + 1][..i] == ms[..i];
    hide Next;
  }

  lemma AtStart(w: World, ms: seq<Move>)
    requires S.Shape(w.server)
    ensures At(w, ms, 0) == w
  {
  }

  /** In every run the client still has to be told that the server uses its
      session exactly if no packet has come on it since its reply was read. */
  lemma {:induction false} ConfirmExactly(w: World, ms: seq<Move>, n: nat)
    requires Started(w) && n <= |ms|
    ensures At(w, ms, n).peer.confirmPending <==>
              exists i :: 0 <= i < n && TakesReply(At(w, ms, i), ms[i])
                          && forall j | i < j < n :: !HearsCurrent(At(w, ms, j), ms[j])
  {
    hide At, Next, TakesReply, HearsCurrent;
    AtStart(w, ms);
    if n > 0 {
      ConfirmExactly(w, ms, n - 1);
      AtNext(w, ms, n - 1);
      var v := At(w, ms, n - 1);
      MoveExactly(v, ms[n - 1]);
    }
  }

  /** It counts as connected exactly if it has read a reply since it last
      started over. */
  lemma {:induction false} EstablishedExactly(w: World, ms: seq<Move>, n: nat)
    requires Started(w) && n <= |ms|
    ensures At(w, ms, n).peer.established <==>
              exists i :: 0 <= i < n && TakesReply(At(w, ms, i), ms[i]) && forall j | i < j < n :: !ms[j].Reconnect?
  {
    hide At, Next, TakesReply;
    AtStart(w, ms);
    if n > 0 {
      EstablishedExactly(w, ms, n - 1);
      AtNext(w, ms, n - 1);
      MoveExactly(At(w, ms, n - 1), ms[n - 1]);
    }
  }

  /** The time from which the client waits for a sign of its server is that of
      the last reply it read, packet it took, or connection it made; 0 with no
      connection. */
  lemma {:induction false} LastHeardExactly(w: World, ms: seq<Move>, n: nat)
    requires Started(w) && n <= |ms|
    ensures if forall i | 0 <= i < n :: !Sign(At(w, ms, i), ms[i]) then At(w, ms, n).peer.lastRecv == 0
            else exists i :: 0 <= i < n && Sign(At(w, ms, i), ms[i])
                             && At(w, ms, n).peer.lastRecv
                                == (if ms[i] == Reconnect(false) then 0 else At(w, ms, i).server.now)
                             && forall j | i < j < n :: !Sign(At(w, ms, j), ms[j])
  {
    hide At, Next, Sign;
    AtStart(w, ms);
    if n > 0 {
      LastHeardExactly(w, ms, n - 1);
      AtNext(w, ms, n - 1);
      SignExactly(At(w, ms, n - 1), ms[n - 1]);
    }
  }

  predicate Sign(w: World, m: Move) {
    Hears(w, m) || m.Reconnect?
  }

  lemma SignExactly(w: World, m: Move)
    requires S.Shape(w.server)
    ensures Next(w, m).peer.lastRecv
         == if !Sign(w, m) then w.peer.lastRecv else if m == Reconnect(false) then 0 else w.server.now
  {
    MoveExactly(w, m);
    hide Next;
  }

  /** The previous session is the one that was current when the last reply was
      read, and it receives for 30 seconds from then on. */
  lemma {:induction false} PreviousExactly(w: World, ms: seq<Move>, n: nat)
    requires Started(w) && n <= |ms|
    ensures var p := At(w, ms, n).peer;
            p.prev.Live? ==>
              exists i :: 0 <= i < n && TakesReply(At(w, ms, i), ms[i])
                          && (forall j | i < j < n :: !TakesReply(At(w, ms, j), ms[j]) && !ms[j].Reconnect?)
                          && p.prev == At(w, ms, i).peer.cur && p.prevUntil == At(w, ms, i).server.now + 30
  {
    hide At, Next, TakesReply;
    AtStart(w, ms);
    if n > 0 {
      PreviousExactly(w, ms, n - 1);
      AtNext(w, ms, n - 1);
      var v := At(w, ms, n - 1);
      MoveExactly(v, ms[n - 1]);
    }
  }
}
