/** A transport session (session.c): sealing and opening DATA packets.

    The AEAD is ideal: a sealed body is a term over its key, nonce,
    associated data and plaintext, and opens with exactly those. */
module Transport {
  import opened Wrappers
  import opened Codec
  import opened Replay

  type Key = nat

  const MAGIC: seq<Byte> := [0x43, 0x58, 0x76, 0x32]   // "CXv2"
  const TYPE_INIT: Byte := 1
  const TYPE_RESP: Byte := 2
  const TYPE_DATA: Byte := 3
  const TAGLEN: nat := 16
  const DHLEN: nat := 32
  const DATA_HDR: nat := 17
  const OVERHEAD: nat := DATA_HDR + TAGLEN
  const INIT_MIN: nat := 9 + DHLEN + TAGLEN + 12 + 16
  const RESP_MIN: nat := 13 + DHLEN + TAGLEN

  datatype Body =
    | Sealed(key: Key, nonce: nat, ad: seq<Byte>, plain: seq<Byte>)
    | Junk(bytes: seq<Byte>)
  {
    function Len(): nat {
      match this
      case Sealed(_, _, _, plain) => |plain| + TAGLEN
      case Junk(bytes) => |bytes|
    }
  }

  /** A packet on the wire: up to 17 header bytes, then the rest. */
  datatype Packet = Packet(header: seq<Byte>, body: Body) {
    ghost predicate WellFormed() {
      |header| == DATA_HDR || (|header| < DATA_HDR && body == Junk([]))
    }

    function Len(): nat { |header| + body.Len() }
  }

  /** v2_packet_type: 0 for anything but a long enough v2 packet. */
  function PacketType(p: Packet): Byte
    requires p.WellFormed()
  {
    if p.Len() < 5 || p.header[..4] != MAGIC then 0
    else if p.header[4] == TYPE_INIT then (if p.Len() >= INIT_MIN then TYPE_INIT else 0)
    else if p.header[4] == TYPE_RESP then (if p.Len() >= RESP_MIN then TYPE_RESP else 0)
    else if p.header[4] == TYPE_DATA then (if p.Len() >= OVERHEAD then TYPE_DATA else 0)
    else 0
  }

  function DataHeader(receiver: nat, n: nat): (h: seq<Byte>)
    ensures |h| == DATA_HDR
  {
    MAGIC + [TYPE_DATA] + Be32(receiver) + LeBytes(n, 8)
  }

  /** What a built header says when it is read back. */
  lemma HeaderRoundTrip(receiver: nat, n: nat)
    requires receiver < U32 && n < U64
    ensures var h := DataHeader(receiver, n);
            && h[..4] == MAGIC && h[4] == TYPE_DATA
            && ReadU32(h[5..9]) == receiver && LeValue(h[9..17]) == n
  {
    var h := DataHeader(receiver, n);
    assert h[5..9] == Be32(receiver);
    assert h[9..17] == LeBytes(n, 8);
    Be32RoundTrip(receiver);
    U64IsPow();
    LeRoundTrip(n, 8);
  }

  /** The value of a session. */
  datatype State = State(valid: bool, local: nat, remote: nat, kSend: Key, kRecv: Key,
                         sendN: nat, window: Window)
  {
    ghost predicate Valid() {
      && local < U32 && remote < U32
      && sendN <= REJECT_AFTER_MSGS
      && window.Valid()
    }
  }

  const WIPED := State(false, 0, 0, 0, 0, 0, EMPTY_WINDOW)

  function NewSession(local: nat, remote: nat, kSend: Key, kRecv: Key): State {
    State(true, local, remote, kSend, kRecv, 0, EMPTY_WINDOW)
  }

  function CanSeal(s: State, plain: seq<Byte>, outSize: nat): bool {
    s.valid && s.sendN < REJECT_AFTER_MSGS && outSize >= OVERHEAD + |plain|
  }

  function SealedPacket(s: State, plain: seq<Byte>): Packet {
    var h := DataHeader(s.remote, s.sendN);
    Packet(h, Sealed(s.kSend, s.sendN, h, plain))
  }

  /** The payload session_open gives for `p`, if any. */
  function Opened(s: State, p: Packet, plainSize: nat): Option<seq<Byte>>
    requires p.WellFormed()
  {
    if !s.valid || PacketType(p) != TYPE_DATA || ReadU32(p.header[5..9]) != s.local
       || plainSize < p.Len() - OVERHEAD then None
    else
      var n := LeValue(p.header[9..17]);
      if !s.window.Accepts(n) then None
      else if p.body.Sealed? && p.body == Sealed(s.kRecv, n, p.header, p.body.plain) then Some(p.body.plain)
      else None
  }

  function AfterOpen(s: State, p: Packet, plainSize: nat): State
    requires p.WellFormed()
  {
    if Opened(s, p, plainSize).Some? then s.(window := s.window.Recorded(LeValue(p.header[9..17]))) else s
  }

  class Session {
    var valid: bool
    var localIndex: nat
    var remoteIndex: nat
    var kSend: Key
    var kRecv: Key
    var sendN: nat
    var replay: ReplayWindow

    ghost function Repr(): set<object>
      reads this, replay
    {
      {this, replay, replay.bits}
    }

    ghost predicate Valid()
      reads Repr()
    {
      replay.Valid() && View().Valid()
    }

    ghost function View(): State
      reads this, replay
    {
      State(valid, localIndex, remoteIndex, kSend, kRecv, sendN, replay.View())
    }

    /** session_init */
    constructor (local: nat, remote: nat, kSend: Key, kRecv: Key)
      requires local < U32 && remote < U32
      ensures Valid() && View() == NewSession(local, remote, kSend, kRecv) && fresh(Repr())
    {
      valid, localIndex, remoteIndex := true, local, remote;
      this.kSend, this.kRecv, sendN := kSend, kRecv, 0;
      replay := new ReplayWindow();
    }

    /** session_wipe */
    method Wipe()
      modifies this
      ensures Valid() && View() == WIPED && fresh(Repr() - {this})
    {
      valid, localIndex, remoteIndex, kSend, kRecv, sendN := false, 0, 0, 0, 0, 0;
      replay := new ReplayWindow();
    }

    /** session_seal */
    method Seal(plain: seq<Byte>, outSize: nat) returns (r: Option<Packet>)
      requires Valid()
      modifies this
      ensures Valid() && replay == old(replay)
      ensures r.Some? == CanSeal(old(View()), plain, outSize)
      ensures r.Some? ==> r.value == SealedPacket(old(View()), plain)
      ensures View() == if r.Some? then old(View()).(sendN := old(sendN) + 1) else old(View())
    {
      if !valid || sendN >= REJECT_AFTER_MSGS || outSize < OVERHEAD + |plain| {
        return None;
      }
      var counter := WriteLe64(sendN);
      var header := MAGIC + [TYPE_DATA] + Be32(remoteIndex) + counter;
      r := Some(Packet(header, Sealed(kSend, sendN, header, plain)));
      sendN := sendN + 1;
    }

    /** session_open: the cheap checks first; the counter is recorded only
        once the packet is authentic. */
    method Open(p: Packet, plainSize: nat) returns (r: Option<seq<Byte>>)
      requires Valid() && p.WellFormed()
      modifies Repr()
      ensures Valid() && Repr() == old(Repr())
      ensures r == Opened(old(View()), p, plainSize)
      ensures View() == AfterOpen(old(View()), p, plainSize)
    {
      if !valid || PacketType(p) != TYPE_DATA || ReadU32(p.header[5..9]) != localIndex
         || plainSize < p.Len() - OVERHEAD {
        return None;
      }
      var n := ReadLe64(p.header[9..17]);
      var isNew := replay.Check(n);
      if !isNew {
        return None;
      }
      if !(p.body.Sealed? && p.body == Sealed(kRecv, n, p.header, p.body.plain)) {
        return None;
      }
      replay.Record(n);
      return Some(p.body.plain);
    }
  }

  /** A packet just sealed opens at a peer with matching index and key whose
      window takes its counter. */
  lemma SealThenOpen(tx: State, rx: State, plain: seq<Byte>, outSize: nat, plainSize: nat)
    requires tx.Valid() && CanSeal(tx, plain, outSize) && plainSize >= |plain|
    requires rx.valid && rx.local == tx.remote && rx.kRecv == tx.kSend
    requires rx.window.Accepts(tx.sendN)
    ensures Opened(rx, SealedPacket(tx, plain), plainSize) == Some(plain)
  {
    HeaderRoundTrip(tx.remote, tx.sendN);
  }

  /** One direction of a session over a hostile network. `log` are the
      payloads sealed so far, `wire` the packets made of them, `got` the
      (counter, payload) pairs delivered. */
  datatype Channel = Channel(tx: State, rx: State, log: seq<seq<Byte>>, wire: set<Packet>,
                             got: seq<(nat, seq<Byte>)>)

  /** The network drops, repeats, reorders and alters packets and makes up
      new ones: anything may arrive, at any time, any number of times. */
  datatype Event =
    | Send(plain: seq<Byte>, outSize: nat)
    | Arrive(p: Packet, plainSize: nat)

  /** The one thing it cannot do: produce a body sealed under the session
      key that the sender did not seal. */
  ghost predicate Unforged(c: Channel, p: Packet) {
    p.WellFormed() && (p.body.Sealed? && p.body.key == c.tx.kSend ==> exists q :: q in c.wire && q.body == p.body)
  }

  ghost function Step(c: Channel, e: Event): Channel {
    match e
    case Send(plain, outSize) =>
      if !CanSeal(c.tx, plain, outSize) then c
      else c.(tx := c.tx.(sendN := c.tx.sendN + 1), log := c.log + [plain],
              wire := c.wire + {SealedPacket(c.tx, plain)})
    case Arrive(p, plainSize) =>
      if !Unforged(c, p) || Opened(c.rx, p, plainSize).None? then c
      else c.(rx := AfterOpen(c.rx, p, plainSize),
              got := c.got + [(LeValue(p.header[9..17]), Opened(c.rx, p, plainSize).value)])
  }

  ghost function Run(c: Channel, es: seq<Event>): Channel {
    if es == [] then c else Step(Run(c, es[..|es| - 1]), es[|es| - 1])
  }

  ghost predicate WirePacket(c: Channel, p: Packet) {
    && p.body.Sealed? && p.body.nonce < |c.log|
    && p.header == DataHeader(c.tx.remote, p.body.nonce)
    && p.body == Sealed(c.tx.kSend, p.body.nonce, p.header, c.log[p.body.nonce])
  }

  ghost predicate ChannelInv(c: Channel) {
    && c.tx.Valid() && c.rx.Valid() && c.tx.kSend == c.rx.kRecv
    && c.tx.sendN == |c.log|
    && (forall p | p in c.wire :: WirePacket(c, p))
    && (forall i | 0 <= i < |c.got| :: c.got[i].0 < |c.log| && c.got[i].1 == c.log[c.got[i].0])
    && (forall i | 0 <= i < |c.got| :: c.got[i].0 in c.rx.window.seen)
    && (forall i, j | 0 <= i < j < |c.got| :: c.got[i].0 != c.got[j].0)
  }

  lemma SendKeepsInv(c: Channel, plain: seq<Byte>, outSize: nat)
    requires ChannelInv(c)
    ensures ChannelInv(Step(c, Send(plain, outSize)))
  {
    if CanSeal(c.tx, plain, outSize) {
      var c' := Step(c, Send(plain, outSize));
      forall p | p in c'.wire
        ensures WirePacket(c', p)
      {
        if p in c.wire {
          assert WirePacket(c, p);
        }
      }
    }
  }

  lemma ArriveKeepsInv(c: Channel, p: Packet, plainSize: nat)
    requires ChannelInv(c)
    ensures ChannelInv(Step(c, Arrive(p, plainSize)))
  {
    if Unforged(c, p) && Opened(c.rx, p, plainSize).Some? {
      var n := LeValue(p.header[9..17]);
      var q :| q in c.wire && q.body == p.body;
      assert WirePacket(c, q);
      WindowGuarantee(c.rx.window, n);
      var c' := Step(c, Arrive(p, plainSize));
      forall q | q in c'.wire
        ensures WirePacket(c', q)
      {
        assert WirePacket(c, q);
      }
    }
  }

  /** Over every run from a fresh session pair, whatever the network does:
      only sealed payloads are delivered, each under the counter it was
      sealed with and each counter at most once; and no nonce is used for
      two packets. */
  lemma {:induction false} AtMostOnce(c: Channel, es: seq<Event>)
    requires c.tx.Valid() && c.rx.Valid() && c.tx.kSend == c.rx.kRecv
    requires c.tx.sendN == 0 && c.rx.window == EMPTY_WINDOW
    requires c.log == [] && c.wire == {} && c.got == []
    ensures var r := Run(c, es);
            && ChannelInv(r)
            && (forall i | 0 <= i < |r.got| :: r.got[i].0 < |r.log| && r.got[i].1 == r.log[r.got[i].0])
            && (forall i, j | 0 <= i < j < |r.got| :: r.got[i].0 != r.got[j].0)
            && (forall p, q | p in r.wire && q in r.wire ::
                  p.body.Sealed? && q.body.Sealed? && (p.body.nonce == q.body.nonce ==> p == q))
  {
    if es != [] {
      var c1 := Run(c, es[..|es| - 1]);
      AtMostOnce(c, es[..|es| - 1]);
      match es[|es| - 1]
      case Send(plain, outSize) => SendKeepsInv(c1, plain, outSize);
      case Arrive(p, plainSize) => ArriveKeepsInv(c1, p, plainSize);
    }
    var r := Run(c, es);
    forall p, q | p in r.wire && q in r.wire
      ensures p.body.Sealed? && q.body.Sealed? && (p.body.nonce == q.body.nonce ==> p == q)
    {
      assert WirePacket(r, p) && WirePacket(r, q);
    }
  }
}
