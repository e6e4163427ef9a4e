/** The per-second budgets for handshakes and key trials and their shares by
    source (server.c). */
module Budgets {
  import opened Wrappers

  const HANDSHAKES: nat := 200
  const KEY_TRIALS: nat := 200 * 256
  const KNOWN_PER_SEC: nat := 4
  const SLOTS: nat := 512
  const PROBES: nat := 8

  function UnknownShare(n: nat): nat { n / 4 * 3 }

  /** A source address, or its /24. */
  datatype Source = Source(key: nat, isNet: bool)

  function Address(a: nat): Source {
    Source(a, false)
  }

  function Net(a: nat): Source {
    Source(a - a % 256, true)
  }

  datatype Share = Share(source: Source, window: int, handshakes: nat, trials: nat)

  /** One asked-for handshake or key trial of the current second. */
  datatype Event =
    | Init(a: nat, known: bool, accepted: bool)
    | Trial(a: nat, own: bool, accepted: bool)

  datatype Kind = Inits | UnknownInits | KnownInits | InitsOf(s: Source)
                | Trials | UnknownTrials | OwnTrials | TrialsOf(t: Source)

  predicate From(a: nat, s: Source) {
    s == if s.isNet then Net(a) else Address(a)
  }

  predicate Is(e: Event, k: Kind) {
    e.accepted &&
    match k
    case Inits => e.Init?
    case UnknownInits => e.Init? && !e.known
    case KnownInits => e.Init? && e.known
    case InitsOf(s) => e.Init? && !e.known && From(e.a, s)
    case Trials => e.Trial?
    case UnknownTrials => e.Trial? && !e.own
    case OwnTrials => e.Trial? && e.own
    case TrialsOf(s) => e.Trial? && !e.own && From(e.a, s)
  }

  /** How many of the events were accepted and are of the kind. */
  function Count(log: seq<Event>, k: Kind): nat {
    if log == [] then 0
    else Count(log[..|log| - 1], k) + if Is(log[|log| - 1], k) then 1 else 0
  }

  lemma CountAdd(log: seq<Event>, e: Event, k: Kind)
    ensures Count(log + [e], k) == Count(log, k) + if Is(e, k) then 1 else 0
  {
    assert (log + [e])[..|log|] == log;
  }

  lemma {:induction false} CountSplits(log: seq<Event>)
    ensures Count(log, Inits) == Count(log, UnknownInits) + Count(log, KnownInits)
    ensures Count(log, Trials) == Count(log, UnknownTrials) + Count(log, OwnTrials)
  {
    if log != [] {
      CountSplits(log[..|log| - 1]);
    }
  }

  /* ---- limits ---- */

  /** server_key_trials_limit */
  function TrialLimit(keys: nat): nat {
    if keys * 4 > KEY_TRIALS then keys * 4 else KEY_TRIALS
  }

  function HandshakeShare(isNet: bool): nat {
    if isNet then HANDSHAKES / 4 else HANDSHAKES / 8
  }

  /** server_trial_share */
  function TrialShare(keys: nat, isNet: bool): nat {
    var share := if isNet then TrialLimit(keys) / 4 else TrialLimit(keys) / 8;
    var floor := if isNet then keys * 2 else keys;
    if share > floor then share else floor
  }

  /* ---- the table of sources ---- */

  function Probe(home: nat, p: nat): (i: nat)
    ensures i < SLOTS
  {
    (home + p) % SLOTS
  }

  /** Source `s` has the slot `i` in second `now`. */
  predicate Holds(shares: seq<Share>, now: int, i: nat, s: Source)
    requires i < |shares|
  {
    shares[i].window == now && shares[i].source == s
  }

  ghost predicate Tracked(shares: seq<Share>, now: int, s: Source) {
    exists i :: 0 <= i < |shares| && Holds(shares, now, i, s)
  }

  /** All probes of a source are taken in this second. */
  predicate Crowded(shares: seq<Share>, now: int, home: nat)
    requires |shares| == SLOTS
  {
    forall p | 0 <= p < PROBES :: shares[Probe(home, p)].window == now
  }

  /** Slot `i` is a probe of `home` with only taken ones before it. */
  ghost predicate Reached(shares: seq<Share>, now: int, home: nat, i: nat)
    requires |shares| == SLOTS
  {
    exists p :: 0 <= p < PROBES && i == Probe(home, p)
                && forall q | 0 <= q < p :: shares[Probe(home, q)].window == now
  }

  /** Every source of this second has one slot, where a search finds it. */
  ghost predicate Placed(shares: seq<Share>, now: int, place: (nat, Source) -> nat, key: nat)
    requires |shares| == SLOTS
  {
    && (forall i | 0 <= i < SLOTS && shares[i].window == now ::
          Reached(shares, now, place(key, shares[i].source), i))
    && (forall i, j | 0 <= i < j < SLOTS && shares[i].window == now && shares[j].window == now ::
          shares[i].source != shares[j].source)
  }

  /** Within a second slots are taken and never given to another source. */
  ghost predicate Grows(shares: seq<Share>, shares': seq<Share>, now: int) {
    |shares| == |shares'|
    && forall i | 0 <= i < |shares| && shares[i].window == now ::
         shares'[i].window == now && shares'[i].source == shares[i].source
  }

  lemma HolderIsReached(shares: seq<Share>, now: int, place: (nat, Source) -> nat, key: nat, s: Source)
    requires |shares| == SLOTS && Placed(shares, now, place, key)
    ensures forall i | 0 <= i < SLOTS && Holds(shares, now, i, s) :: Reached(shares, now, place(key, s), i)
  {
  }

  /** A source has its slot for the whole second, and one that found none
      has none for the whole second. */
  lemma SlotForTheSecond(shares: seq<Share>, shares': seq<Share>, now: int, place: (nat, Source) -> nat, key: nat,
                         s: Source)
    requires |shares| == SLOTS && Grows(shares, shares', now)
    requires Placed(shares, now, place, key) && Placed(shares', now, place, key)
    ensures forall i | 0 <= i < SLOTS && Holds(shares, now, i, s) ::
              forall j | 0 <= j < SLOTS :: Holds(shares', now, j, s) <==> j == i
    ensures Crowded(shares, now, place(key, s)) && !Tracked(shares, now, s) ==>
              Crowded(shares', now, place(key, s)) && !Tracked(shares', now, s)
  {
    if Crowded(shares, now, place(key, s)) && !Tracked(shares, now, s) {
      if i :| 0 <= i < SLOTS && Holds(shares', now, i, s) {
        assert Reached(shares', now, place(key, s), i);
        assert Holds(shares, now, i, s);
      }
    }
  }

  /** Slot `i` is one of the probes of `home`. */
  predicate Probed(home: nat, i: nat) {
    exists p: nat :: p < PROBES && i == Probe(home, p)
  }

  /** What a search for a source comes to. */
  ghost predicate Searched(shares: seq<Share>, shares': seq<Share>, now: int, home: nat, s: Source, slot: int)
    requires |shares| == SLOTS
  {
    if slot < 0 then
      slot == -1 && shares' == shares && Crowded(shares, now, home)
      && forall p | 0 <= p < PROBES :: shares[Probe(home, p)].source != s
    else
      slot < SLOTS && Probed(home, slot)
      && if shares[slot].window == now then shares' == shares && shares[slot].source == s
         else shares' == shares[slot := Share(s, now, 0, 0)] && Reached(shares, now, home, slot)
              && forall p | 0 <= p < PROBES :: !Holds(shares, now, Probe(home, p), s)
  }

  lemma SearchKeepsPlaced(shares: seq<Share>, shares': seq<Share>, now: int, place: (nat, Source) -> nat, key: nat,
                          s: Source, slot: int)
    requires |shares| == SLOTS && Placed(shares, now, place, key)
    requires Searched(shares, shares', now, place(key, s), s, slot)
    ensures |shares'| == SLOTS && Placed(shares', now, place, key) && Grows(shares, shares', now)
    ensures slot >= 0 ==> Holds(shares', now, slot, s)
    ensures slot < 0 ==> !Tracked(shares, now, s)
    ensures slot >= 0 && shares[slot].window != now ==> !Tracked(shares, now, s) && !Crowded(shares, now, place(key, s))
  {
    HolderIsReached(shares, now, place, key, s);
    if slot >= 0 && shares[slot].window != now {
      forall i | 0 <= i < SLOTS && shares'[i].window == now
        ensures Reached(shares', now, place(key, shares'[i].source), i)
      {
        if i != slot {
          assert Reached(shares, now, place(key, shares[i].source), i);
        }
      }
    }
  }

  /* ---- the counts ---- */

  /** The shares count every accepted request of their source in this second,
      and only a source with no free probe left goes uncounted. */
  ghost predicate Counted(shares: seq<Share>, now: int, place: (nat, Source) -> nat, key: nat, log: seq<Event>)
    requires |shares| == SLOTS
  {
    && (forall i | 0 <= i < SLOTS && shares[i].window == now ::
          shares[i].handshakes == Count(log, InitsOf(shares[i].source))
          && shares[i].trials == Count(log, TrialsOf(shares[i].source)))
    && (forall s: Source | Count(log, InitsOf(s)) > 0 || Count(log, TrialsOf(s)) > 0 ::
          Tracked(shares, now, s) || Crowded(shares, now, place(key, s)))
  }

  ghost predicate Within(shares: seq<Share>, keys: nat) {
    forall i | 0 <= i < |shares| ::
      shares[i].handshakes <= HandshakeShare(shares[i].source.isNet)
      && shares[i].trials <= TrialShare(keys, shares[i].source.isNet)
  }

  lemma SearchKeepsCounted(shares: seq<Share>, shares': seq<Share>, now: int, place: (nat, Source) -> nat, key: nat,
                           log: seq<Event>, s: Source, slot: int)
    requires |shares| == SLOTS && Placed(shares, now, place, key) && Counted(shares, now, place, key, log)
    requires Searched(shares, shares', now, place(key, s), s, slot)
    ensures |shares'| == SLOTS && Counted(shares', now, place, key, log)
  {
    SearchKeepsPlaced(shares, shares', now, place, key, s, slot);
    forall t: Source | Count(log, InitsOf(t)) > 0 || Count(log, TrialsOf(t)) > 0
      ensures Tracked(shares', now, t) || Crowded(shares', now, place(key, t))
    {
      if i :| 0 <= i < SLOTS && Holds(shares, now, i, t) {
        assert Holds(shares', now, i, t);
      }
    }
  }

  /** One more counted request from `a` at its slots (-1: none). */
  function Charged(shares: seq<Share>, addr: int, net: int, isInit: bool): seq<Share>
    requires -1 <= addr < |shares| && -1 <= net < |shares|
  {
    Bumped(Bumped(shares, addr, isInit), net, isInit)
  }

  function Bumped(shares: seq<Share>, i: int, isInit: bool): seq<Share>
    requires -1 <= i < |shares|
  {
    if i < 0 then shares
    else if isInit then shares[i := shares[i].(handshakes := shares[i].handshakes + 1)]
    else shares[i := shares[i].(trials := shares[i].trials + 1)]
  }

  /** `i` is the slot of `s`; -1 when it has none. */
  ghost predicate SlotOf(shares: seq<Share>, now: int, place: (nat, Source) -> nat, key: nat, s: Source, i: int)
    requires |shares| == SLOTS
  {
    if i < 0 then i == -1 && Crowded(shares, now, place(key, s)) && !Tracked(shares, now, s)
    else i < SLOTS && Holds(shares, now, i, s)
  }

  lemma ChargedAt(shares: seq<Share>, now: int, place: (nat, Source) -> nat, key: nat, a: nat,
                  addr: int, net: int, i: nat, isInit: bool)
    requires |shares| == SLOTS && Placed(shares, now, place, key) && i < SLOTS && shares[i].window == now
    requires SlotOf(shares, now, place, key, Address(a), addr) && SlotOf(shares, now, place, key, Net(a), net)
    ensures var more := if From(a, shares[i].source) then 1 else 0;
            Charged(shares, addr, net, isInit)[i] ==
            if isInit then shares[i].(handshakes := shares[i].handshakes + more)
            else shares[i].(trials := shares[i].trials + more)
  {
    assert From(a, shares[i].source) <==> shares[i].source == Address(a) || shares[i].source == Net(a);
    assert Holds(shares, now, i, shares[i].source);
    assert shares[i].source == Address(a) <==> i == addr;
    assert shares[i].source == Net(a) <==> i == net;
  }

  /** Taken by the same source. */
  ghost predicate SameSources(shares: seq<Share>, shares': seq<Share>) {
    |shares'| == |shares|
    && forall i | 0 <= i < |shares| :: shares'[i].window == shares[i].window && shares'[i].source == shares[i].source
  }

  lemma SameSourcesPlaced(shares: seq<Share>, shares': seq<Share>, now: int, place: (nat, Source) -> nat, key: nat)
    requires |shares| == SLOTS && Placed(shares, now, place, key) && SameSources(shares, shares')
    ensures Placed(shares', now, place, key) && Grows(shares, shares', now)
    ensures forall s :: Tracked(shares, now, s) ==> Tracked(shares', now, s)
    ensures forall home :: Crowded(shares, now, home) ==> Crowded(shares', now, home)
  {
    forall i | 0 <= i < SLOTS && shares'[i].window == now
      ensures Reached(shares', now, place(key, shares'[i].source), i)
    {
      assert Reached(shares, now, place(key, shares[i].source), i);
    }
    forall s | Tracked(shares, now, s)
      ensures Tracked(shares', now, s)
    {
      var i :| 0 <= i < |shares| && Holds(shares, now, i, s);
      assert Holds(shares', now, i, s);
    }
  }

  lemma ChargeKeepsCounted(shares: seq<Share>, now: int, place: (nat, Source) -> nat, key: nat, log: seq<Event>,
                           addr: int, net: int, e: Event)
    requires |shares| == SLOTS && Placed(shares, now, place, key) && Counted(shares, now, place, key, log)
    requires e.accepted && (e.Init? ==> !e.known) && (e.Trial? ==> !e.own)
    requires SlotOf(shares, now, place, key, Address(e.a), addr) && SlotOf(shares, now, place, key, Net(e.a), net)
    ensures var shares' := Charged(shares, addr, net, e.Init?);
            Placed(shares', now, place, key) && Counted(shares', now, place, key, log + [e])
            && Grows(shares, shares', now)
  {
    hide Count, Reached, Crowded, Tracked;
    var shares' := Charged(shares, addr, net, e.Init?);
    SameSourcesPlaced(shares, shares', now, place, key);
    forall i | 0 <= i < SLOTS && shares'[i].window == now
      ensures shares'[i].handshakes == Count(log + [e], InitsOf(shares'[i].source))
      ensures shares'[i].trials == Count(log + [e], TrialsOf(shares'[i].source))
    {
      ChargedAt(shares, now, place, key, e.a, addr, net, i, e.Init?);
      CountAdd(log, e, InitsOf(shares'[i].source));
      CountAdd(log, e, TrialsOf(shares'[i].source));
    }
    forall s: Source | Count(log + [e], InitsOf(s)) > 0 || Count(log + [e], TrialsOf(s)) > 0
      ensures Tracked(shares', now, s) || Crowded(shares', now, place(key, s))
    {
      CountAdd(log, e, InitsOf(s));
      CountAdd(log, e, TrialsOf(s));
      if From(e.a, s) {
        SlotIsTracked(shares, now, place, key, Address(e.a), addr);
        SlotIsTracked(shares, now, place, key, Net(e.a), net);
      }
    }
  }

  lemma SlotIsTracked(shares: seq<Share>, now: int, place: (nat, Source) -> nat, key: nat, s: Source, i: int)
    requires |shares| == SLOTS && SlotOf(shares, now, place, key, s, i)
    ensures Tracked(shares, now, s) || Crowded(shares, now, place(key, s))
  {
  }

  /** As long as no slot is taken the placement may change. */
  lemma NoneIsFair(shares: seq<Share>, now: int, place: (nat, Source) -> nat, key: nat, key': nat, log: seq<Event>)
    requires |shares| == SLOTS && Counted(shares, now, place, key, log)
    requires forall i | 0 <= i < SLOTS :: shares[i].window != now
    ensures Placed(shares, now, place, key') && Counted(shares, now, place, key', log)
  {
    forall s: Source
      ensures !Crowded(shares, now, place(key, s))
    {
      assert shares[Probe(place(key, s), 0)].window != now;
    }
  }

  /** server_source_t: where a request comes from. -1 = no slot. */
  datatype Asker = Asker(a: nat, known: bool, lookedUp: bool, addr: int, net: int)

  /** The totals of a second. */
  datatype Totals = Totals(handshakes: nat, unknownHandshakes: nat, trials: nat, unknownTrials: nat)

  predicate Adds(t: Totals, log: seq<Event>, keys: nat) {
    && t.handshakes == Count(log, Inits) <= HANDSHAKES
    && t.unknownHandshakes == Count(log, UnknownInits) <= UnknownShare(HANDSHAKES)
    && t.trials == Count(log, Trials) <= TrialLimit(keys)
    && t.unknownTrials == Count(log, UnknownTrials) <= UnknownShare(TrialLimit(keys))
  }

  function Plus(t: Totals, e: Event): Totals {
    match e
    case Init(_, known, accepted) =>
      if !accepted then t
      else t.(handshakes := t.handshakes + 1,
              unknownHandshakes := t.unknownHandshakes + if known then 0 else 1)
    case Trial(_, own, accepted) =>
      if !accepted then t
      else t.(trials := t.trials + 1, unknownTrials := t.unknownTrials + if own then 0 else 1)
  }

  /** Refused: -1 all taken, -2 those of unknown sources. */
  function Verdict(t: Totals, e: Event, keys: nat): int {
    match e
    case Init(_, known, _) =>
      if t.handshakes >= HANDSHAKES then -1
      else if !known && t.unknownHandshakes >= UnknownShare(HANDSHAKES) then -2 else 0
    case Trial(_, own, _) =>
      if t.trials >= TrialLimit(keys) then -1
      else if !own && t.unknownTrials >= UnknownShare(TrialLimit(keys)) then -2 else 0
  }

  lemma AddsOne(t: Totals, log: seq<Event>, keys: nat, e: Event)
    requires Adds(t, log, keys) && (e.accepted ==> Verdict(t, e, keys) == 0)
    ensures Adds(Plus(t, e), log + [e], keys)
  {
    CountAdd(log, e, Inits);
    CountAdd(log, e, UnknownInits);
    CountAdd(log, e, Trials);
    CountAdd(log, e, UnknownTrials);
  }

  lemma RefusedIsNotCounted(shares: seq<Share>, now: int, place: (nat, Source) -> nat, key: nat, log: seq<Event>,
                            e: Event)
    requires |shares| == SLOTS && Counted(shares, now, place, key, log)
    requires !e.accepted || (e.Init? && e.known) || (e.Trial? && e.own)
    ensures Counted(shares, now, place, key, log + [e])
  {
    hide Tracked, Crowded;
    forall s: Source
      ensures Count(log + [e], InitsOf(s)) == Count(log, InitsOf(s))
      ensures Count(log + [e], TrialsOf(s)) == Count(log, TrialsOf(s))
    {
      CountAdd(log, e, InitsOf(s));
      CountAdd(log, e, TrialsOf(s));
    }
  }

  /** The budgets of one server. `place` is the keyed hash, `keys` the size of
      the keystore; `log` records the requests of the second `window`. */
  class Budgets {
    const keys: nat
    const place: (nat, Source) -> nat
    const shares: array<Share>
    var now: int
    var window: int
    var totals: Totals
    var drawn: Option<nat>
    var knownCounts: map<nat, (int, nat)>
    ghost var log: seq<Event>
    ghost var steady: bool   // the placement has been the same in all of this second

    function Key(): nat
      reads this
    {
      if drawn.Some? then drawn.value else 0
    }

    ghost predicate Fair()
      reads this, shares
      requires shares.Length == SLOTS
    {
      Placed(shares[..], window, place, Key()) && Counted(shares[..], window, place, Key(), log)
    }

    ghost predicate Valid()
      reads this, shares
    {
      && shares.Length == SLOTS && window <= now
      && (forall i | 0 <= i < SLOTS :: shares[i].window <= window)
      && Adds(totals, log, keys) && Within(shares[..], keys)
      && (steady ==> Fair())
    }

    constructor (keys: nat, place: (nat, Source) -> nat, now: int)
      requires now >= 0
      ensures Valid() && log == [] && this.keys == keys && this.place == place && this.now == now
      ensures fresh(shares) && drawn == None && forall i | 0 <= i < SLOTS :: shares[i].window == 0
    {
      this.keys, this.place, this.now := keys, place, now;
      shares := new Share[SLOTS](_ => Share(Source(0, false), 0, 0, 0));
      window, totals, drawn, knownCounts := 0, Totals(0, 0, 0, 0), None, map[];
      log, steady := [], false;
    }

    /** Time passes. */
    method Tick(t: int)
      requires Valid() && t >= now
      modifies `now
      ensures Valid() && now == t
    {
      now := t;
    }

    /** server_budget_window */
    method OpenWindow()
      requires Valid()
      modifies `window, `totals, `log, `steady
      ensures Valid() && window == now
      ensures old(window) == now ==> log == old(log) && steady == old(steady)
      ensures old(window) != now ==> log == [] && steady
    {
      if window != now {
        window, totals := now, Totals(0, 0, 0, 0);
        log, steady := [], true;
      }
    }

    /** The key for the placement, once there was randomness for it. */
    method EnsureKey(draw: Option<nat>)
      requires Valid()
      modifies `drawn, `steady
      ensures Valid()
      ensures drawn == if old(drawn).Some? then old(drawn) else draw
      ensures steady == (old(steady) && (drawn == old(drawn) || forall i | 0 <= i < SLOTS :: shares[i].window != window))
    {
      if drawn.None? && draw.Some? {
        steady := steady && forall i | 0 <= i < SLOTS :: shares[i].window != window;
        if steady {
          NoneIsFair(shares[..], window, place, 0, draw.value, log);
        }
        drawn := draw;
      }
    }
  
    /** The probes of server_share_of. */
    method Search(s: Source) returns (slot: int)
      requires shares.Length == SLOTS
      modifies shares
      ensures Searched(old(shares[..]), shares[..], now, place(Key(), s), s, slot)
    {
      hide Probe;
      ghost var sh := shares[..];
      var h := place(Key(), s);
      var free := -1;
      for p := 0 to PROBES
        invariant free < 0 ==> free == -1 && forall q | 0 <= q < p :: sh[Probe(h, q)].window == now
        invariant free >= 0 ==> free < SLOTS && sh[free].window != now && Reached(sh, now, h, free)
        invariant forall q | 0 <= q < p :: !Holds(sh, now, Probe(h, q), s)
        invariant shares[..] == sh
      {
        var i := Probe(h, p);
        assert shares[i] == sh[i];
        if shares[i].window != now {
          if free < 0 {
            free := i;
          }
        } else if shares[i].source == s {
          return i;
        }
      }
      if free >= 0 {
        shares[free] := Share(s, now, 0, 0);
      }
      slot := free;
    }

    /** server_share_of: the slot of a source for this second, or -1. */
    method ShareOf(s: Source, draw: Option<nat>) returns (slot: int)
      requires Valid() && window == now
      modifies `drawn, `steady, shares
      ensures Valid() && -1 <= slot < SLOTS
      ensures slot >= 0 ==> Holds(shares[..], window, slot, s)
      ensures steady ==> SlotOf(shares[..], window, place, Key(), s, slot)
      ensures Grows(old(shares[..]), shares[..], window)
      ensures drawn == if old(drawn).Some? then old(drawn) else draw
      ensures Searched(old(shares[..]), shares[..], now, place(Key(), s), s, slot)
      ensures old(drawn.Some?) ==> steady == old(steady)
      ensures steady ==> old(steady)
      ensures steady && drawn != old(drawn) ==> forall i | 0 <= i < SLOTS :: old(shares[i].window) != window
    {
      EnsureKey(draw);
      ghost var sh := shares[..];
      slot := Search(s);
      Found(sh, s, slot);
    }

    lemma Found(sh: seq<Share>, s: Source, slot: int)
      requires shares.Length == SLOTS == |sh| && window == now
      requires Searched(sh, shares[..], window, place(Key(), s), s, slot)
      requires (forall i | 0 <= i < SLOTS :: sh[i].window <= window) && Within(sh, keys)
      requires steady ==> Placed(sh, window, place, Key()) && Counted(sh, window, place, Key(), log)
      ensures forall i | 0 <= i < SLOTS :: shares[i].window <= window
      ensures Within(shares[..], keys) && (steady ==> Fair())
      ensures -1 <= slot < SLOTS && Grows(sh, shares[..], window)
      ensures slot >= 0 ==> Holds(shares[..], window, slot, s)
      ensures steady ==> SlotOf(shares[..], window, place, Key(), s, slot)
    {
      assert forall i | 0 <= i < SLOTS :: shares[i] == shares[..][i];
      if steady {
        SearchKeepsPlaced(sh, shares[..], window, place, Key(), s, slot);
        SearchKeepsCounted(sh, shares[..], window, place, Key(), log, s, slot);
      }
    }

    function KnownCount(c: nat): nat
      reads this
    {
      if c in knownCounts && knownCounts[c].0 == now then knownCounts[c].1 else 0
    }

    /** server_known_source: whether a request counts as one of the live
        client at its source. */
    method KnownSource(client: Option<nat>) returns (known: bool)
      modifies `knownCounts
      ensures known <==> client.Some? && old(KnownCount(client.value)) < KNOWN_PER_SEC
      ensures forall c :: KnownCount(c) == old(KnownCount(c)) + if known && c == client.value then 1 else 0
    {
      if client.None? {
        return false;
      }
      var c := client.value;
      if c !in knownCounts || knownCounts[c].0 != now {
        knownCounts := knownCounts[c := (now, 0)];
      }
      if knownCounts[c].1 >= KNOWN_PER_SEC {
        return false;
      }
      knownCounts := knownCounts[c := (now, knownCounts[c].1 + 1)];
      known := true;
    }

    /** server_source_for */
    method SourceFor(a: nat, client: Option<nat>) returns (src: Asker)
      requires Valid()
      modifies `window, `totals, `log, `steady, `knownCounts
      ensures Valid() && window == now && src == Asker(a, src.known, false, -1, -1)
      ensures src.known <==> client.Some? && old(KnownCount(client.value)) < KNOWN_PER_SEC
      ensures old(window) == now ==> log == old(log) && steady == old(steady)
      ensures old(window) != now ==> log == [] && steady
    {
      OpenWindow();
      var known := KnownSource(client);
      src := Asker(a, known, false, -1, -1);
    }

    /** The slots in the source's record are its slots. */
    ghost predicate Looked(src: Asker)
      reads this, shares
      requires shares.Length == SLOTS
    {
      src.lookedUp ==>
        && -1 <= src.addr < SLOTS && -1 <= src.net < SLOTS
        && (src.addr >= 0 ==> Holds(shares[..], window, src.addr, Address(src.a)))
        && (src.net >= 0 ==> Holds(shares[..], window, src.net, Net(src.a)))
        && (steady ==> SlotOf(shares[..], window, place, Key(), Address(src.a), src.addr)
                       && SlotOf(shares[..], window, place, Key(), Net(src.a), src.net))
    }

    /** server_source_shares */
    method SourceShares(src: Asker, draw1: Option<nat>, draw2: Option<nat>) returns (r: Asker)
      requires Valid() && window == now && Looked(src)
      modifies `drawn, `steady, shares
      ensures Valid() && Looked(r) && r.lookedUp && r.a == src.a && r.known == src.known
      ensures Grows(old(shares[..]), shares[..], window) && (steady ==> old(steady))
      ensures old(drawn.Some?) ==> drawn == old(drawn) && steady == old(steady)
    {
      hide Placed, Counted, Within, Crowded, Tracked;
      if src.lookedUp {
        return src;
      }
      var addr := ShareOf(Address(src.a), draw1);
      ghost var sh, key := shares[..], Key();
      assert steady ==> Placed(sh, window, place, key);
      var net := ShareOf(Net(src.a), draw2);
      r := Asker(src.a, src.known, true, addr, net);
      if steady {
        SlotIsTaken(sh, window, place, key, Address(src.a), addr);
        assert key == Key();
        StillSlotOf(sh, shares[..], window, place, key, Address(src.a), addr);
      }
    }

    /** One more of the source at its shares. */
    method Charge(src: Asker, isInit: bool)
      requires shares.Length == SLOTS && -1 <= src.addr < SLOTS && -1 <= src.net < SLOTS
      modifies shares
      ensures shares[..] == Charged(old(shares[..]), src.addr, src.net, isInit)
    {
      BumpAt(src.addr, isInit);
      BumpAt(src.net, isInit);
    }

    method BumpAt(i: int, isInit: bool)
      requires shares.Length == SLOTS && -1 <= i < SLOTS
      modifies shares
      ensures shares[..] == Bumped(old(shares[..]), i, isInit)
    {
      if i >= 0 {
        if isInit {
          shares[i] := shares[i].(handshakes := shares[i].handshakes + 1);
        } else {
          shares[i] := shares[i].(trials := shares[i].trials + 1);
        }
      }
    }

    /** The shares of the source have room. */
    predicate Room(src: Asker, isInit: bool)
      reads this, shares
      requires shares.Length == SLOTS && -1 <= src.addr < SLOTS && -1 <= src.net < SLOTS
    {
      && (src.addr >= 0 ==> if isInit then shares[src.addr].handshakes < HandshakeShare(false)
                            else shares[src.addr].trials < TrialShare(keys, false))
      && (src.net >= 0 ==> if isInit then shares[src.net].handshakes < HandshakeShare(true)
                           else shares[src.net].trials < TrialShare(keys, true))
    }

    /** There is room exactly if no share the source has is used up. */
    lemma RoomExactly(src: Asker, isInit: bool)
      requires Valid() && Looked(src) && src.lookedUp && steady
      ensures !Room(src, isInit) <==>
              if isInit then
                (src.addr >= 0 && Count(log, InitsOf(Address(src.a))) >= HandshakeShare(false))
                || (src.net >= 0 && Count(log, InitsOf(Net(src.a))) >= HandshakeShare(true))
              else
                (src.addr >= 0 && Count(log, TrialsOf(Address(src.a))) >= TrialShare(keys, false))
                || (src.net >= 0 && Count(log, TrialsOf(Net(src.a))) >= TrialShare(keys, true))
    {
      hide Placed, Count, Crowded, Tracked;
    }

    method Refuse(ghost e: Event)
      requires Valid() && !e.accepted
      modifies `log
      ensures Valid() && log == old(log) + [e]
    {
      hide Placed, Counted, Within, Adds;
      AddsOne(totals, log, keys, e);
      PlusRefused(totals, e);
      if steady {
        RefusedIsNotCounted(shares[..], window, place, Key(), log, e);
      }
      log := log + [e];
    }

    /** A request of a known source, or a trial of its own key. */
    method AcceptKnown(e: Event)
      requires Valid() && e.accepted && Verdict(totals, e, keys) == 0
      requires (e.Init? && e.known) || (e.Trial? && e.own)
      modifies `totals, `log
      ensures Valid() && log == old(log) + [e] && totals == Plus(old(totals), e)
    {
      hide Placed, Counted, Within, Adds, Plus;
      AddsOne(totals, log, keys, e);
      if steady {
        RefusedIsNotCounted(shares[..], window, place, Key(), log, e);
      }
      totals := Plus(totals, e);
      log := log + [e];
    }

    /** Any other, at its shares. */
    method AcceptUnknown(src: Asker, e: Event)
      requires Valid() && e.accepted && Verdict(totals, e, keys) == 0 && e.a == src.a
      requires (e.Init? ==> !e.known) && (e.Trial? ==> !e.own)
      requires Looked(src) && src.lookedUp && Room(src, e.Init?)
      modifies `totals, `log, shares
      ensures Valid() && Looked(src) && log == old(log) + [e] && totals == Plus(old(totals), e)
      ensures Grows(old(shares[..]), shares[..], window)
    {
      hide Placed, Counted, Adds, Plus, Tracked, Crowded, Verdict;
      ghost var sh := shares[..];
      AddsOne(totals, log, keys, e);
      Charge(src, e.Init?);
      ChargedSame(sh, src.addr, src.net, e.Init?);
      if steady {
        ChargeKeepsCounted(sh, window, place, Key(), log, src.addr, src.net, e);
        StillSlotOf(sh, shares[..], window, place, Key(), Address(src.a), src.addr);
        StillSlotOf(sh, shares[..], window, place, Key(), Net(src.a), src.net);
      }
      assert forall i | 0 <= i < SLOTS :: shares[i] == shares[..][i];
      totals := Plus(totals, e);
      log := log + [e];
    }

    /** server_handshake_budget: 0, or -1 all taken, -2 those of unknown
        sources, -3 those of this source or its /24. */
    method HandshakeBudget(src: Asker, draw1: Option<nat>, draw2: Option<nat>) returns (rc: int, r: Asker)
      requires Valid() && window == now && Looked(src)
      modifies `totals, `log, `drawn, `steady, shares
      ensures Valid() && Looked(r) && r.a == src.a && r.known == src.known
      ensures log == old(log) + [Init(src.a, src.known, rc == 0)]
      ensures rc == 0 || rc == -1 || rc == -2 || rc == -3
      ensures rc == -1 <==> Count(old(log), Inits) >= HANDSHAKES
      ensures rc == -2 <==> rc != -1 && !src.known && Count(old(log), UnknownInits) >= UnknownShare(HANDSHAKES)
      ensures rc == -3 ==> !src.known
      ensures rc == -3 && steady ==> Count(old(log), InitsOf(Address(src.a))) >= HandshakeShare(false)
                                     || Count(old(log), InitsOf(Net(src.a))) >= HandshakeShare(true)
      ensures steady && !src.known && rc != -1 && rc != -2 ==>
                r.lookedUp
                && (rc == -3 <==>
                      (r.addr >= 0 && Count(old(log), InitsOf(Address(src.a))) >= HandshakeShare(false))
                      || (r.net >= 0 && Count(old(log), InitsOf(Net(src.a))) >= HandshakeShare(true)))
      ensures src.known && Count(old(log), KnownInits) < HANDSHAKES - UnknownShare(HANDSHAKES) ==> rc == 0
      ensures Grows(old(shares[..]), shares[..], window) && (steady ==> old(steady))
    {
      hide Placed, Counted, Within, Plus, Count, Tracked, Crowded;
      CountSplits(log);
      r := src;
      if totals.handshakes >= HANDSHAKES {
        Refuse(Init(src.a, src.known, false));
        return -1, r;
      }
      if !src.known {
        if totals.unknownHandshakes >= UnknownShare(HANDSHAKES) {
          Refuse(Init(src.a, src.known, false));
          return -2, r;
        }
        r := SourceShares(src, draw1, draw2);
        if steady {
          RoomExactly(r, true);
        }
        if !Room(r, true) {
          Refuse(Init(src.a, src.known, false));
          return -3, r;
        }
        AcceptUnknown(r, Init(src.a, false, true));
      } else {
        AcceptKnown(Init(src.a, true, true));
      }
      rc := 0;
    }

    /** server_key_trial_budget, alike; `own`: the trial of a known source's
        own key. */
    method KeyTrialBudget(src: Asker, own: bool, draw1: Option<nat>, draw2: Option<nat>) returns (rc: int, r: Asker)
      requires Valid() && window == now && Looked(src)
      modifies `totals, `log, `drawn, `steady, shares
      ensures Valid() && Looked(r) && r.a == src.a && r.known == src.known
      ensures log == old(log) + [Trial(src.a, own, rc == 0)]
      ensures rc == 0 || rc == -1 || rc == -2 || rc == -3
      ensures rc == -1 <==> Count(old(log), Trials) >= TrialLimit(keys)
      ensures rc == -2 <==> rc != -1 && !own && Count(old(log), UnknownTrials) >= UnknownShare(TrialLimit(keys))
      ensures rc == -3 ==> !own
      ensures rc == -3 && steady ==> Count(old(log), TrialsOf(Address(src.a))) >= TrialShare(keys, false)
                                     || Count(old(log), TrialsOf(Net(src.a))) >= TrialShare(keys, true)
      ensures steady && !own && rc != -1 && rc != -2 ==>
                r.lookedUp
                && (rc == -3 <==>
                      (r.addr >= 0 && Count(old(log), TrialsOf(Address(src.a))) >= TrialShare(keys, false))
                      || (r.net >= 0 && Count(old(log), TrialsOf(Net(src.a))) >= TrialShare(keys, true)))
      ensures own && Count(old(log), OwnTrials) < TrialLimit(keys) - UnknownShare(TrialLimit(keys)) ==> rc == 0
      ensures Grows(old(shares[..]), shares[..], window) && (steady ==> old(steady))
      ensures old(drawn.Some?) ==> drawn == old(drawn) && steady == old(steady)
    {
      hide Placed, Counted, Within, Plus, Count, Tracked, Crowded, TrialLimit, TrialShare;
      CountSplits(log);
      r := src;
      if totals.trials >= TrialLimit(keys) {
        Refuse(Trial(src.a, own, false));
        return -1, r;
      }
      if !own {
        if totals.unknownTrials >= UnknownShare(TrialLimit(keys)) {
          Refuse(Trial(src.a, own, false));
          return -2, r;
        }
        r := SourceShares(src, draw1, draw2);
        if steady {
          RoomExactly(r, false);
        }
        if !Room(r, false) {
          Refuse(Trial(src.a, own, false));
          return -3, r;
        }
        AcceptUnknown(r, Trial(src.a, false, true));
      } else {
        AcceptKnown(Trial(src.a, true, true));
      }
      rc := 0;
    }

    /** What every second keeps to: the whole budgets, the unknown sources'
        part, and each source's share unless its probes were all taken. */
    lemma SecondIsBounded(s: Source)
      requires Valid()
      ensures Count(log, Inits) <= 200 && Count(log, UnknownInits) <= 150
      ensures Count(log, Trials) <= TrialLimit(keys) && Count(log, UnknownTrials) <= UnknownShare(TrialLimit(keys))
      ensures steady ==> Tracked(shares[..], window, s) || Crowded(shares[..], window, place(Key(), s))
                         || Count(log, InitsOf(s)) == Count(log, TrialsOf(s)) == 0
      ensures steady && Tracked(shares[..], window, s) ==>
                Count(log, InitsOf(s)) <= (if s.isNet then 50 else 25)
                && Count(log, TrialsOf(s)) <= TrialShare(keys, s.isNet)
    {
      hide Placed, Count, Crowded;
    }

    /** The placement is settled, the source at `a` and its /24 have tried no
        key yet in this second, and the budgets have room for a trial of each
        key. */
    ghost predicate EveryKeyFits(a: nat)
      reads this
    {
      && steady && drawn.Some?
      && Count(log, TrialsOf(Address(a))) == 0 && Count(log, TrialsOf(Net(a))) == 0
      && Count(log, Trials) + keys <= TrialLimit(keys)
      && Count(log, UnknownTrials) + keys <= UnknownShare(TrialLimit(keys))
    }

    /** The key trials of one handshake: the index of the key that opens
        message 1, or -1, with the budget's verdict. */
    method TryKeys(src: Asker, keystore: seq<StoredKey>, own: int, opens: seq<bool>) returns (used: int, rc: int)
      requires Valid() && window == now && Looked(src)
      requires |keystore| == |opens| == keys && -1 <= own < keys
      modifies `totals, `log, `drawn, `steady, shares
      ensures Valid() && -1 <= used < keys
      ensures used >= 0 ==> opens[used] && !keystore[used].locked
      ensures used < 0 && rc == 0 ==> forall i | 0 <= i < keys :: keystore[i].locked || !opens[i]
      ensures used < 0 && Ahead(keystore) > 0 ==> keystore[0].locked || !opens[0]
      ensures own > 0 && opens[own] && !keystore[own].locked
              && Count(old(log), OwnTrials) < TrialLimit(keys) - UnknownShare(TrialLimit(keys)) ==>
                used == own || (used == 0 && Ahead(keystore) > 0)
      ensures old(EveryKeyFits(src.a)) ==> rc == 0
    {
      hide Count, Placed, Counted, Within, Adds, TrialLimit, TrialShare, UnknownShare, Crowded, Tracked;
      ghost var log0 := log;
      ghost var fits := EveryKeyFits(src.a);
      SharesReachEveryKey(keys);
      var ahead := Ahead(keystore);
      var r := src;
      used, rc := -1, 0;
      for n := 0 to keys
        invariant Valid() && window == now && Looked(r) && rc == 0
        invariant forall m | 0 <= m < n :: keystore[Turn(m, own, ahead)].locked || !opens[Turn(m, own, ahead)]
        invariant own > 0 && n <= ahead ==> log == log0
        invariant r.a == src.a && (fits ==> steady && drawn.Some? && FewTrials(log0, log, src.a, n))
      {
        var i := Turn(n, own, ahead);
        assert own > 0 ==> Turn(ahead, own, ahead) == own;
        assert ahead > 0 ==> Turn(0, own, ahead) == 0;
        if !keystore[i].locked {
          if i != 0 || !keystore[i].isGlobal {
            var draw1: Option<nat>, draw2: Option<nat> := *, *;
            ghost var before := log;
            rc, r := KeyTrialBudget(r, i == own, draw1, draw2);
            OneMoreTrial(log0, before, Trial(r.a, i == own, rc == 0), src.a, n);
            if rc != 0 {
              AllTurns(keys, own, ahead);
              return -1, rc;
            }
          }
          if opens[i] {
            return i, 0;
          }
        }
      }
      AllTurns(keys, own, ahead);
      forall i | 0 <= i < keys
        ensures keystore[i].locked || !opens[i]
      {
        assert Turn(TurnOf(i, own, ahead), own, ahead) == i;
      }
    }
  }

  /** A key of the keystore; the global one has no owner. */
  datatype StoredKey = StoredKey(isGlobal: bool, locked: bool)

  function Ahead(keystore: seq<StoredKey>): nat {
    if keystore != [] && keystore[0].isGlobal then 1 else 0
  }

  /** Which key is tried as number `n`: the global one first, then the known
      client's own, then the rest in turn. */
  function Turn(n: nat, own: int, ahead: nat): nat {
    if own > 0 && n == ahead then own
    else if own > 0 && ahead < n <= own then n - 1
    else n
  }

  /** When key `i` is tried. */
  function TurnOf(i: nat, own: int, ahead: nat): nat {
    if own <= 0 || i > own || i < ahead then i
    else if i == own then ahead
    else i + 1
  }

  /** Every key has exactly one turn. */
  lemma AllTurns(keys: nat, own: int, ahead: nat)
    requires -1 <= own < keys && ahead <= 1 && ahead <= keys
    ensures forall i | 0 <= i < keys ::
              TurnOf(i, own, ahead) < keys && Turn(TurnOf(i, own, ahead), own, ahead) == i
    ensures forall n | 0 <= n < keys :: Turn(n, own, ahead) < keys && TurnOf(Turn(n, own, ahead), own, ahead) == n
  {
  }

  lemma PlusRefused(t: Totals, e: Event)
    requires !e.accepted
    ensures Plus(t, e) == t
  {
  }

  lemma ChargedSame(shares: seq<Share>, addr: int, net: int, isInit: bool)
    requires -1 <= addr < |shares| && -1 <= net < |shares| && (addr == net ==> addr == -1)
    ensures var shares' := Charged(shares, addr, net, isInit);
            |shares'| == |shares| && SameSources(shares, shares')
            && forall i | 0 <= i < |shares| ::
                 shares'[i] == if i == addr || i == net then Bumped([shares[i]], 0, isInit)[0] else shares[i]
  {
  }

  lemma SlotIsTaken(shares: seq<Share>, now: int, place: (nat, Source) -> nat, key: nat, s: Source, i: int)
    requires |shares| == SLOTS && SlotOf(shares, now, place, key, s, i)
    ensures exists j | 0 <= j < SLOTS :: shares[j].window == now
  {
    if i < 0 {
      assert shares[Probe(place(key, s), 0)].window == now;
    }
  }

  lemma StillSlotOf(shares: seq<Share>, shares': seq<Share>, now: int, place: (nat, Source) -> nat, key: nat,
                    s: Source, i: int)
    requires |shares| == SLOTS && Grows(shares, shares', now) && SlotOf(shares, now, place, key, s, i)
    requires Placed(shares, now, place, key) && Placed(shares', now, place, key)
    ensures SlotOf(shares', now, place, key, s, i)
  {
    SlotForTheSecond(shares, shares', now, place, key, s);
  }

  lemma SharesReachEveryKey(keys: nat)
    ensures TrialShare(keys, false) >= keys && TrialShare(keys, true) >= 2 * keys
    ensures UnknownShare(TrialLimit(keys)) >= 3 * keys
  {
  }

  /** At most `n` trials more than before, of any kind. */
  ghost predicate FewTrials(log0: seq<Event>, log: seq<Event>, a: nat, n: nat) {
    && Count(log, TrialsOf(Address(a))) <= Count(log0, TrialsOf(Address(a))) + n
    && Count(log, TrialsOf(Net(a))) <= Count(log0, TrialsOf(Net(a))) + n
    && Count(log, Trials) <= Count(log0, Trials) + n
    && Count(log, UnknownTrials) <= Count(log0, UnknownTrials) + n
  }

  lemma OneMoreTrial(log0: seq<Event>, log: seq<Event>, e: Event, a: nat, n: nat)
    ensures FewTrials(log0, log, a, n) ==> FewTrials(log0, log + [e], a, n + 1)
  {
    CountAdd(log, e, TrialsOf(Address(a)));
    CountAdd(log, e, TrialsOf(Net(a)));
    CountAdd(log, e, Trials);
    CountAdd(log, e, UnknownTrials);
  }

  /** Exactly when a search gives a source with a slot a second one: the slot
      it has is no probe of where it is looked for, and a probe is free. */
  lemma SplitExactly(shares: seq<Share>, shares': seq<Share>, now: int, home: nat, s: Source, i: nat, slot: int)
    requires |shares| == SLOTS && i < SLOTS && Searched(shares, shares', now, home, s, slot)
    requires forall k | 0 <= k < SLOTS :: Holds(shares, now, k, s) <==> k == i
    ensures slot >= 0 && slot != i <==> !Probed(home, i) && !Crowded(shares, now, home)
    ensures slot >= 0 && slot != i ==> Holds(shares', now, i, s) && Holds(shares', now, slot, s)
  {
    assert Holds(shares, now, i, s);
    if slot >= 0 {
      assert shares[slot].window == now ==> Holds(shares, now, slot, s);
    }
  }

  /** A placement key drawn while slots are taken can give a source a second
      slot in the same second, counted anew: for every tracked source there
      is a placement that does, if some slot far enough away is free. So the
      "steady" second is needed. */
  lemma NewKeyCanSplitASource(shares: seq<Share>, now: int, s: Source, i: nat, j: nat)
    requires |shares| == SLOTS && i < SLOTS && j < SLOTS && shares[j].window != now
    requires forall k | 0 <= k < SLOTS :: Holds(shares, now, k, s) <==> k == i
    requires forall p | 0 <= p < PROBES :: Probe(j, p) != i
    ensures var shares' := shares[j := Share(s, now, 0, 0)];
            Searched(shares, shares', now, j, s, j) && i != j && Holds(shares', now, i, s) && Holds(shares', now, j, s)
  {
    assert Holds(shares, now, i, s);
    assert Probe(j, 0) == j;
    assert Reached(shares, now, j, j);
  }

  /** Such a second: the first request of a source comes before there was
      randomness for the key, the second one after. The source has two shares
      then, and the counts of each start at 0. */
  method LateKeyGivesTwoShares() returns (b: Budgets, first: int, second: int)
    ensures fresh(b) && b.Valid() && b.drawn == Some(1) && !b.steady
    ensures 0 <= first < SLOTS && 0 <= second < SLOTS && first != second
    ensures Holds(b.shares[..], b.window, first, Address(7)) && Holds(b.shares[..], b.window, second, Address(7))
    ensures b.shares[first] == b.shares[second] == Share(Address(7), b.now, 0, 0)
  {
    hide Placed, Counted, Adds, Within, Tracked, SlotOf;
    var place := (key: nat, s: Source) => if key == 0 then 0 else 100;
    b := new Budgets(1, place, 1000);
    b.OpenWindow();
    ghost var sh := b.shares[..];
    assert sh[Probe(0, 0)].window == 0;
    first := b.ShareOf(Address(7), None);
    assert 0 <= first < 8;
    sh := b.shares[..];
    assert sh[Probe(100, 0)].window == 0;
    second := b.ShareOf(Address(7), Some(1));
    assert 100 <= second < 108;
  }
}
