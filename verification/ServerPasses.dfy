/** Which entries a reload and an expiry pass leave, and with what (server.c). */
module ServerPasses {
  import opened Wrappers
  import opened ServerTable
  import opened ServerSteps
  import opened ServerAdmission
  import opened ServerHeard

  /** The first block with the address is another client's. */
  ghost predicate AnothersBlock(db: Db, ip: nat, id: string) {
    exists i :: 0 <= i < |db.profiles| && db.profiles[i].cidr == At(ip) && !SameId(db.profiles[i].id, id)
                && forall j | 0 <= j < i :: db.profiles[j].cidr != At(ip)
  }

  lemma {:induction false} OwnerIsFirst(ps: seq<Profile>, ip: nat, i: nat)
    requires i <= |ps|
    ensures var o := OwnerFrom(ps, ip, i);
            if o.Some? then exists j :: i <= j < |ps| && ps[j].cidr == At(ip) && ps[j].id == o.value
                                        && forall m | i <= m < j :: ps[m].cidr != At(ip)
            else forall j | i <= j < |ps| :: ps[j].cidr != At(ip)
    decreases |ps| - i
  {
    if i < |ps| {
      OwnerIsFirst(ps, ip, i + 1);
    }
  }

  lemma BlockExactly(db: Db, ip: nat, id: string)
    ensures ProfileOwner(db, ip).Some? && !SameId(ProfileOwner(db, ip).value, id) <==> AnothersBlock(db, ip, id)
  {
    OwnerIsFirst(db.profiles, ip, 0);
  }

  lemma BlockOfId(db: Db, id: string)
    ensures FindProfile(db, id).Some? <==> HasBlock(db, id)
  {
    ProfileFromExists(db.profiles, id, 0);
  }

  /* ---- one pass, slot by slot ---- */

  /** What a visit does to the entry it visits. */
  function VisitedEntry(s: State, k: nat, c: Client, pass: Pass): Client {
    if !c.active then c
    else
      match pass
      case Expiry => if TimedOut(s, c) then EMPTY else SessionsExpired(c, s.now)
      case Keys(allowed) => if c.registered && !allowed(k) then EMPTY else c
      case UnknownIds => if s.db.denyUnknown && c.auto && FindProfile(s.db, c.id) == None then EMPTY else c
      case ProfileAddresses =>
        if !c.registered then c else if AddressLost(s, c) then EMPTY else OfferChecked(s, c)
  }

  lemma SameTable(s: State, s': State, k: nat, c: Client, pass: Pass)
    requires s'.db == s.db && s'.now == s.now
    ensures VisitedEntry(s', k, c, pass) == VisitedEntry(s, k, c, pass)
  {
  }

  lemma {:induction false} PassSlots(s: State, n: nat, pass: Pass, memory: Memory, k: nat)
    requires Shape(s) && n <= |s.clients| && k < |s.clients|
    ensures Visited(s, n, pass, memory).clients[k]
         == if k < n then VisitedEntry(s, k, s.clients[k], pass) else s.clients[k]
  {
    hide LeasesAfterEnd;
    hide SessionsExpired;
    hide OfferChecked;
    hide TimedOut;
    hide AddressLost;
    if n > 0 {
      PassSlots(s, n - 1, pass, memory, k);
      var v := Visited(s, n - 1, pass, memory);
      VisitSlots(v, n - 1, pass, memory, k);
      SameTable(s, v, k, s.clients[k], pass);
      hide Visit, VisitedEntry;
    }
  }

  lemma VisitSlots(s: State, j: nat, pass: Pass, memory: Memory, k: nat)
    requires Shape(s) && j < |s.clients| && k < |s.clients|
    ensures Visit(s, j, pass, memory).clients[k]
         == if k == j then VisitedEntry(s, k, s.clients[k], pass) else s.clients[k]
  {
    hide LeasesAfterEnd;
    hide SessionsExpired;
    hide OfferChecked;
    hide TimedOut;
    hide AddressLost;
  }

  /* ---- expiry ---- */

  /** What an expiry pass leaves of an entry. */
  predicate Expired(s: State, c: Client, c': Client) {
    && (c'.active <==> c.active && !Overdue(s, c))
    && (c'.active ==>
          && c'.cur == c.cur && c'.ip == c.ip && c'.id == c.id
          && (if c.prev.Live? && s.now > c.prevUntil then c'.prev == Wiped && c'.prevIp == 0
              else c'.prev == c.prev && c'.prevIp == c.prevIp)
          && (if c.next.Live? && s.now > c.next.created + 30 then c'.next == Wiped && c'.pending == 0
              else c'.next == c.next && c'.pending == c.pending))
    && (c.active && !c'.active ==> c' == EMPTY)
  }

  lemma ExpiredEntry(s: State, k: nat, c: Client)
    ensures Expired(s, c, VisitedEntry(s, k, c, Expiry))
  {
  }

  /** Exactly what an expiry pass leaves: the entries that are not overdue, with
      their previous session until its time is over, and the next one until it
      has waited too long for the client. */
  lemma ExpiryExactly(s: State, memory: Memory, k: nat)
    requires Shape(s) && k < |s.clients|
    ensures Expired(s, s.clients[k], Whole(s, Expiry, memory).clients[k])
  {
    PassSlots(s, |s.clients|, Expiry, memory, k);
    ExpiredEntry(s, k, s.clients[k]);
    hide Visited, VisitedEntry, Expired;
  }

  /* ---- reload ---- */

  /** The entry may go on under the new configuration: its key is allowed, its
      ID known if unknown ones are denied, and its address no other client's. */
  ghost predicate Welcome(db: Db, allowed: nat -> bool, k: nat, c: Client) {
    && (c.registered ==> allowed(k))
    && (db.denyUnknown && c.auto ==> HasBlock(db, c.id))
    && (c.registered && (c.auto || c.id != "") ==> !AnothersBlock(db, c.ip, c.id))
  }

  /** Exactly what a reload leaves: the entries that are welcome, with all they
      had but an offered address that is another client's now. The others are
      gone with their sessions. */
  lemma ReloadExactly(s: State, db: Db, allowed: nat -> bool, memory: Memory, k: nat)
    requires Shape(s) && PoolOk(db) && k < |s.clients|
    ensures var c, c' := s.clients[k], Reload(s, db, allowed, memory).clients[k];
            && (c'.active <==> c.active && Welcome(db, allowed, k, c))
            && (c.active && !c'.active ==> c' == EMPTY)
            && (c'.active ==>
                  if c.registered && c.pending != 0 && AnothersBlock(db, c.pending, c.id)
                  then c' == c.(pending := 0, next := Wiped) else c' == c)
  {
    ReloadSlots(s, db, allowed, memory, k);
    ReloadedEntry(s.(db := db), allowed, k, s.clients[k]);
    hide Reload;
  }

  lemma ReloadSlots(s: State, db: Db, allowed: nat -> bool, memory: Memory, k: nat)
    requires Shape(s) && PoolOk(db) && k < |s.clients|
    ensures var s0 := s.(db := db);
            var c1 := VisitedEntry(s0, k, s.clients[k], Keys(allowed));
            var c2 := VisitedEntry(s0, k, c1, UnknownIds);
            Reload(s, db, allowed, memory).clients[k] == VisitedEntry(s0, k, c2, ProfileAddresses)
  {
    var s0 := s.(db := db);
    var s1 := Whole(s0, Keys(allowed), memory);
    var s2 := Whole(s1, UnknownIds, memory);
    PassSlots(s0, |s.clients|, Keys(allowed), memory, k);
    PassSlots(s1, |s.clients|, UnknownIds, memory, k);
    PassSlots(s2, |s.clients|, ProfileAddresses, memory, k);
    SameTable(s0, s1, k, s1.clients[k], UnknownIds);
    SameTable(s0, s2, k, s2.clients[k], ProfileAddresses);
    hide Visited, VisitedEntry;
  }

  lemma ReloadedEntry(s: State, allowed: nat -> bool, k: nat, c: Client)
    ensures var c1 := VisitedEntry(s, k, c, Keys(allowed));
            var c2 := VisitedEntry(s, k, c1, UnknownIds);
            var c' := VisitedEntry(s, k, c2, ProfileAddresses);
            && (c'.active <==> c.active && Welcome(s.db, allowed, k, c))
            && (c.active && !c'.active ==> c' == EMPTY)
            && (c'.active ==>
                  if c.registered && c.pending != 0 && AnothersBlock(s.db, c.pending, c.id)
                  then c' == c.(pending := 0, next := Wiped) else c' == c)
  {
    BlockOfId(s.db, c.id);
    BlockExactly(s.db, c.ip, c.id);
    BlockExactly(s.db, c.pending, c.id);
    hide HasBlock, AnothersBlock, FindProfile, ProfileOwner;
  }

  /** So after a reload no registered client is left with a key that is not
      allowed, with an unknown ID that is denied, or with another's address. */
  lemma ReloadLeavesOnlyWelcome(s: State, db: Db, allowed: nat -> bool, memory: Memory)
    requires Shape(s) && PoolOk(db)
    ensures var s' := Reload(s, db, allowed, memory);
            forall k | 0 <= k < |s'.clients| && s'.clients[k].active :: Welcome(db, allowed, k, s'.clients[k])
  {
    forall k | 0 <= k < |s.clients| && Reload(s, db, allowed, memory).clients[k].active
      ensures Welcome(db, allowed, k, Reload(s, db, allowed, memory).clients[k])
    {
      ReloadExactly(s, db, allowed, memory, k);
    }
    hide Reload;
  }
}
