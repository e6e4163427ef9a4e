/** What the server does with every DATA packet (server.c). */
module ServerData {
  import opened Wrappers
  import opened ServerTable
  import opened ServerSteps
  import opened ServerAddresses
  import opened ServerAgreement
  import opened ServerManual
  import R = ServerRotation

  /** Session `w` of entry `k` takes packets with the index `idx`: the entry is
      there, the index is the session's, and a previous session is within its
      grace period. */
  predicate Takes(s: State, k: nat, w: Which, idx: nat)
    requires k < |s.clients|
  {
    && s.clients[k].active && HasIndex(R.SessionAt(s.clients[k], w), idx)
    && (w == InPrev ==> s.now <= s.clients[k].prevUntil)
  }

  /** Exactly which packets open: authentic ones for a session that takes
      them, over TCP on its entry's own connection. */
  lemma OpensExactly(s: State, d: Data)
    requires Shape(s) && R.RotInv(s.clients)
    ensures Opens(s, d) <==>
              d.authentic
              && exists k, w :: 0 <= k < |s.clients| && Takes(s, k, w, d.idx) && (d.fd < 0 || s.clients[k].fd == d.fd)
    ensures forall k, w | 0 <= k < |s.clients| && Takes(s, k, w, d.idx) ::
              k == SlotOf(s, d.idx) && w == SessionOf(s.clients[k], d.idx, s.now)
  {
    forall k, w | 0 <= k < |s.clients| && Takes(s, k, w, d.idx)
      ensures k == SlotOf(s, d.idx) && w == SessionOf(s.clients[k], d.idx, s.now)
    {
      R.IndexFindsSession(s, d.idx, k, w);
    }
    if Opens(s, d) {
      var k := SlotOf(s, d.idx);
      assert Takes(s, k, SessionOf(s.clients[k], d.idx, s.now), d.idx);
    }
  }

  /** With the first packet on the next session the packets still under way on
      the old one have 30 seconds, and no other session changes. */
  lemma GraceExactly(s: State, d: Data, later: nat)
    requires Shape(s) && R.RotInv(s.clients) && Opens(s, d)
    ensures var k := SlotOf(s, d.idx);
            var c := s.clients[k];
            var s1 := AfterData(s, d).(now := later);
            if HasIndex(c.next, d.idx) then
              && Takes(s1, k, InCur, d.idx) && s1.clients[k].next == Wiped
              && (Takes(s1, k, InPrev, c.cur.local) <==> later <= s.now + 30)
            else forall w, idx :: Takes(s1, k, w, idx) <==> Takes(s.(now := later), k, w, idx)
  {
    var k := SlotOf(s, d.idx);
    assert R.SessionsOk(s.clients[k], k);
  }

  /** Another entry than `k` has the address. */
  ghost predicate AnothersIp(cs: seq<Client>, k: nat, ip: nat) {
    exists j :: 0 <= j < |cs| && j != k && Holds(cs[j], ip)
  }

  /** Exactly what becomes of a packet. One that opens is answered if it is a
      keepalive and ignored if it is no IP packet. An IP packet from another
      source than its session's is refused; one for another client's address
      is kept back exactly under isolation; everything else goes on. */
  lemma VerdictExactly(s: State, d: Data)
    requires Shape(s) && Disjoint(s.clients)
    ensures DataVerdict(s, d) == Dropped <==> !Opens(s, d)
    ensures Opens(s, d) ==>
              && (DataVerdict(s, d) == Answered <==> d.payload.Keepalive?)
              && (DataVerdict(s, d) == Ignored <==> d.payload.NotIp?)
    ensures Opens(s, d) && d.payload.Ip? ==>
              var k := SlotOf(s, d.idx);
              var own := Accepts(s.clients[k], SessionOf(s.clients[k], d.idx, s.now));
              var after := AfterData(s, d).clients;
              && (DataVerdict(s, d) == WrongSource <==> own == 0 || d.payload.src != own)
              && (DataVerdict(s, d) == Isolated <==>
                    own != 0 && d.payload.src == own && d.isolation && AnothersIp(after, k, d.payload.dst))
              && (DataVerdict(s, d) == Forwarded <==>
                    own != 0 && d.payload.src == own && !(d.isolation && AnothersIp(after, k, d.payload.dst)))
  {
    if Opens(s, d) && d.payload.Ip? {
      DataHolds(s, d);
      LessKeeps(s.clients, AfterData(s, d).clients);
      OtherHolder(AfterData(s, d).clients, SlotOf(s, d.idx), d.payload.dst);
      hide FindByIp;
      hide Disjoint;
    }
  }

  lemma OtherHolder(cs: seq<Client>, k: nat, ip: nat)
    requires Disjoint(cs)
    ensures FindByIp(cs, ip) >= 0 && FindByIp(cs, ip) != k <==> AnothersIp(cs, k, ip)
  {
    if FindByIp(cs, ip) < 0 || FindByIp(cs, ip) == k {
      OnlyHolder(cs, k, ip);
    }
  }
}
