/** Noise_NKpsk0_25519_ChaChaPoly_BLAKE2b (noise.c): psk, e, es / e, ee. The
    hash, HMAC, Diffie-Hellman function and AEAD are parameters. */
module Noise {
  import opened Wrappers
  import opened Codec

  type Bytes = seq<Byte>

  const DH_LEN: nat := 32
  const HASH_LEN: nat := 64
  const KEY_LEN: nat := 32
  const TAG_LEN: nat := 16
  const MSG_OVERHEAD: nat := DH_LEN + TAG_LEN

  /** `seal` and `open` take key, nonce, associated data and text. */
  datatype Primitives = Primitives(
    hash: Bytes -> Bytes,
    hmac: (Bytes, Bytes) -> Bytes,
    dh: (Bytes, Bytes) -> Bytes,
    pub: Bytes -> Bytes,
    seal: (Bytes, nat, Bytes, Bytes) -> Bytes,
    open: (Bytes, nat, Bytes, Bytes) -> Option<Bytes>,
    name: Bytes)
  {
    ghost predicate Sized() {
      && (forall x :: |hash(x)| == HASH_LEN)
      && (forall k, x :: |hmac(k, x)| == HASH_LEN)
      && (forall a, b :: |dh(a, b)| == DH_LEN)
      && (forall a :: |pub(a)| == DH_LEN)
      && (forall k, n, ad, x :: |seal(k, n, ad, x)| == |x| + TAG_LEN)
      && |name| == HASH_LEN
    }

    ghost predicate Commutes() {
      forall a, b :: dh(a, pub(b)) == dh(b, pub(a))
    }

    ghost predicate Opens() {
      forall k, n, ad, x :: open(k, n, ad, seal(k, n, ad, x)) == Some(x)
    }

    ghost predicate Lawful() {
      Sized() && Commutes() && Opens()
    }
  }

  /** The value of a handshake state (noise_hs_t). */
  datatype State = State(k: Bytes, n: nat, hasKey: bool, ck: Bytes, h: Bytes, sPriv: Bytes, sPub: Bytes,
                         ePriv: Bytes, ePub: Bytes, re: Bytes, initiator: bool)

  /** The shared secret of a low-order point. */
  predicate Zero(s: Bytes) {
    forall b | b in s :: b == 0
  }

  /** Section 4.3 of the Noise Protocol Framework. */
  function Hkdf(p: Primitives, ck: Bytes, ikm: Bytes): (Bytes, Bytes, Bytes) {
    var temp := p.hmac(ck, ikm);
    var o1 := p.hmac(temp, [1]);
    var o2 := p.hmac(temp, o1 + [2]);
    (o1, o2, p.hmac(temp, o2 + [3]))
  }

  function Cut(k: Bytes): Bytes {
    if |k| <= KEY_LEN then k else k[..KEY_LEN]
  }

  function Hashed(p: Primitives, s: State, data: Bytes): State {
    s.(h := p.hash(s.h + data))
  }

  function Keyed(p: Primitives, s: State, ikm: Bytes): State {
    var o := Hkdf(p, s.ck, ikm);
    s.(ck := o.0, k := Cut(o.1), n := 0, hasKey := true)
  }

  function KeyedAndHashed(p: Primitives, s: State, ikm: Bytes): State {
    var o := Hkdf(p, s.ck, ikm);
    Hashed(p, s, o.1).(ck := o.0, k := Cut(o.2), n := 0, hasKey := true)
  }

  function SealedText(p: Primitives, s: State, plain: Bytes): Bytes {
    p.seal(s.k, s.n, s.h, plain)
  }

  function AfterText(p: Primitives, s: State, text: Bytes): State {
    Hashed(p, s, text).(n := s.n + 1)
  }

  function OpenedText(p: Primitives, s: State, text: Bytes): Option<Bytes> {
    if |text| < TAG_LEN then None else p.open(s.k, s.n, s.h, text)
  }

  /** init_common */
  function Common(p: Primitives, prologue: Bytes, serverPub: Bytes): State {
    Hashed(p, Hashed(p, State([], 0, false, p.name, p.name, [], [], [], [], [], false), prologue), serverPub)
  }

  function Initiator(p: Primitives, prologue: Bytes, serverPub: Bytes): State {
    Common(p, prologue, serverPub).(sPub := serverPub, initiator := true)
  }

  function Responder(p: Primitives, prologue: Bytes, sPriv: Bytes, sPub: Bytes): State {
    Common(p, prologue, sPub).(sPriv := sPriv, sPub := sPub)
  }

  /* Both sides of message 1: psk and e are mixed in, then es. */

  function Mixed1(p: Primitives, s: State, psk: Bytes, e: Bytes): State {
    Keyed(p, Hashed(p, KeyedAndHashed(p, s, psk), e), e)
  }

  function Mixed2(p: Primitives, s: State, e: Bytes): State {
    Keyed(p, Hashed(p, s, e), e)
  }

  /** What a write comes to: the state, and the message if there is one. */
  datatype Written = Written(state: State, msg: Option<Bytes>)

  function Finished(p: Primitives, s: State, shared: Bytes, payload: Bytes): Written {
    if Zero(shared) then Written(s, None)
    else
      var s1 := Keyed(p, s, shared);
      var text := SealedText(p, s1, payload);
      Written(AfterText(p, s1, text), Some(s.ePub + text))
  }

  predicate Fits(payload: Bytes, outSize: nat) {
    MSG_OVERHEAD + |payload| <= outSize
  }

  function Write1(p: Primitives, s: State, psk: Bytes, seed: Bytes, payload: Bytes, outSize: nat): Written {
    if !s.initiator || !Fits(payload, outSize) then Written(s, None)
    else
      var s1 := Mixed1(p, s, psk, p.pub(seed)).(ePriv := seed, ePub := p.pub(seed));
      Finished(p, s1, p.dh(seed, s.sPub), payload)
  }

  function Write2(p: Primitives, s: State, seed: Bytes, payload: Bytes, outSize: nat): Written {
    if s.initiator || !Fits(payload, outSize) then Written(s, None)
    else
      var s1 := Mixed2(p, s, p.pub(seed)).(ePriv := seed, ePub := p.pub(seed));
      Finished(p, s1, p.dh(seed, s.re), payload)
  }

  datatype Read = Read(state: State, payload: Bytes)

  function Received(p: Primitives, s: State, shared: Bytes, text: Bytes): Option<Read> {
    var s1 := Keyed(p, s, shared);
    match OpenedText(p, s1, text)
    case None => None
    case Some(plain) => Some(Read(AfterText(p, s1, text), plain))
  }

  /** noise_msg1_es */
  function Es(p: Primitives, s: State, msg: Bytes): Option<Bytes> {
    if s.initiator || |msg| < MSG_OVERHEAD then None
    else
      var es := p.dh(s.sPriv, msg[..DH_LEN]);
      if Zero(es) then None else Some(es)
  }

  function Read1(p: Primitives, s: State, psk: Bytes, es: Bytes, msg: Bytes, size: nat): Option<Read> {
    if s.initiator || |msg| < MSG_OVERHEAD || size < |msg| - MSG_OVERHEAD then None
    else
      var e := msg[..DH_LEN];
      Received(p, Mixed1(p, s, psk, e).(re := e), es, msg[DH_LEN..])
  }

  function Read2(p: Primitives, s: State, msg: Bytes, size: nat): Option<Read> {
    if !s.initiator || |msg| < MSG_OVERHEAD || size < |msg| - MSG_OVERHEAD then None
    else
      var e := msg[..DH_LEN];
      var shared := p.dh(s.ePriv, e);
      if Zero(shared) then None
      else Received(p, Mixed2(p, s, e).(re := e), shared, msg[DH_LEN..])
  }

  /** noise_split: the keys to and from the responder. */
  function Split(p: Primitives, s: State): (Bytes, Bytes) {
    var o := Hkdf(p, s.ck, []);
    (Cut(o.0), Cut(o.1))
  }

  /** The keys a side sends and receives with. */
  function SendKey(p: Primitives, s: State): Bytes {
    if s.initiator then Split(p, s).0 else Split(p, s).1
  }

  function ReceiveKey(p: Primitives, s: State): Bytes {
    if s.initiator then Split(p, s).1 else Split(p, s).0
  }

  /* ---- agreement ---- */

  /** Both sides have come to the same secrets and the same transcript. */
  predicate Agree(a: State, b: State) {
    a.k == b.k && a.n == b.n && a.ck == b.ck && a.h == b.h
  }

  lemma Message1Agrees(p: Primitives, i: State, r: State, psk: Bytes, seed: Bytes, payload: Bytes, outSize: nat,
                       size: nat)
    requires p.Lawful() && !r.initiator && i.h == r.h && i.ck == r.ck
    requires r.sPub == p.pub(r.sPriv) == i.sPub && size >= |payload|
    requires Write1(p, i, psk, seed, payload, outSize).msg.Some?
    ensures var w := Write1(p, i, psk, seed, payload, outSize);
            var es := Es(p, r, w.msg.value);
            es.Some? && Read1(p, r, psk, es.value, w.msg.value, size).Some?
            && var d := Read1(p, r, psk, es.value, w.msg.value, size).value;
               d.payload == payload && Agree(w.state, d.state) && d.state.re == w.state.ePub == p.pub(w.state.ePriv)
               && !d.state.initiator && w.state.initiator
  {
    hide Hkdf;
    var e := p.pub(seed);
    var w := Write1(p, i, psk, seed, payload, outSize);
    var s := Keyed(p, Mixed1(p, i, psk, e).(ePriv := seed, ePub := e), p.dh(seed, i.sPub));
    var text := SealedText(p, s, payload);
    assert w.msg.value == e + text;
    assert (e + text)[..DH_LEN] == e && (e + text)[DH_LEN..] == text;
  }

  lemma Message2Agrees(p: Primitives, i: State, r: State, seed: Bytes, payload: Bytes, outSize: nat, size: nat)
    requires p.Lawful() && i.initiator && !r.initiator && Agree(i, r) && r.re == p.pub(i.ePriv) && size >= |payload|
    requires Write2(p, r, seed, payload, outSize).msg.Some?
    ensures var w := Write2(p, r, seed, payload, outSize);
            Read2(p, i, w.msg.value, size).Some?
            && var d := Read2(p, i, w.msg.value, size).value;
               d.payload == payload && Agree(w.state, d.state) && Split(p, d.state) == Split(p, w.state)
  {
    hide Hkdf;
    var e := p.pub(seed);
    var s := Keyed(p, Mixed2(p, r, e).(ePriv := seed, ePub := e), p.dh(seed, r.re));
    var text := SealedText(p, s, payload);
    assert Write2(p, r, seed, payload, outSize).msg.value == e + text;
    assert (e + text)[..DH_LEN] == e && (e + text)[DH_LEN..] == text;
  }

  /** An honest exchange that no low-order point stops delivers both payloads
      and gives both sides the same transcript hash, chaining key and keys. */
  lemma Agreement(p: Primitives, prologue: Bytes, sPriv: Bytes, psk: Bytes, e1: Bytes, e2: Bytes,
                  payload1: Bytes, payload2: Bytes, size1: nat, size2: nat)
    requires p.Lawful() && size1 >= |payload1| && size2 >= |payload2|
    requires !Zero(p.dh(e1, p.pub(sPriv))) && !Zero(p.dh(e2, p.pub(e1)))
    ensures var w1 := Write1(p, Initiator(p, prologue, p.pub(sPriv)), psk, e1, payload1, MSG_OVERHEAD + |payload1|);
            var r := Responder(p, prologue, sPriv, p.pub(sPriv));
            w1.msg.Some? && Es(p, r, w1.msg.value).Some?
            && var d1 := Read1(p, r, psk, Es(p, r, w1.msg.value).value, w1.msg.value, size1);
               d1.Some? && d1.value.payload == payload1
               && var w2 := Write2(p, d1.value.state, e2, payload2, MSG_OVERHEAD + |payload2|);
                  w2.msg.Some?
                  && var d2 := Read2(p, w1.state, w2.msg.value, size2);
                     d2.Some? && d2.value.payload == payload2
                     && d2.value.state.h == w2.state.h && d2.value.state.ck == w2.state.ck
                     && Split(p, d2.value.state) == Split(p, w2.state)
  {
    hide Hkdf, Mixed1, Mixed2, Received;
    var i := Initiator(p, prologue, p.pub(sPriv));
    var r := Responder(p, prologue, sPriv, p.pub(sPriv));
    Message1Agrees(p, i, r, psk, e1, payload1, MSG_OVERHEAD + |payload1|, size1);
    var w1 := Write1(p, i, psk, e1, payload1, MSG_OVERHEAD + |payload1|);
    var d1 := Read1(p, r, psk, Es(p, r, w1.msg.value).value, w1.msg.value, size1).value;
    Message2Agrees(p, w1.state, d1.state, e2, payload2, MSG_OVERHEAD + |payload2|, size2);
  }

  /* ---- whom message 1 reaches ---- */

  predicate NoHashCollision(p: Primitives, x: Bytes, y: Bytes) {
    p.hash(x) == p.hash(y) ==> x == y
  }

  predicate NoHmacCollision(p: Primitives, k: Bytes, x: Bytes, k': Bytes, y: Bytes) {
    p.hmac(k, x) == p.hmac(k', y) ==> k == k' && x == y
  }

  /** What one side takes into message 1. */
  datatype View = View(prologue: Bytes, serverPub: Bytes, psk: Bytes)

  function H1(p: Primitives, v: View): Bytes { p.hash(p.name + v.prologue) }

  function H2(p: Primitives, v: View): Bytes { p.hash(H1(p, v) + v.serverPub) }

  function H3(p: Primitives, v: View): Bytes { p.hash(H2(p, v) + Hkdf(p, p.name, v.psk).1) }

  /** None of the hashes of the two transcripts collide. */
  predicate Apart(p: Primitives, v: View, w: View, e: Bytes) {
    var tv, tw := p.hmac(p.name, v.psk), p.hmac(p.name, w.psk);
    && NoHashCollision(p, p.name + v.prologue, p.name + w.prologue)
    && NoHashCollision(p, H1(p, v) + v.serverPub, H1(p, w) + w.serverPub)
    && NoHashCollision(p, H2(p, v) + Hkdf(p, p.name, v.psk).1, H2(p, w) + Hkdf(p, p.name, w.psk).1)
    && NoHashCollision(p, H3(p, v) + e, H3(p, w) + e)
    && NoHmacCollision(p, p.name, v.psk, p.name, w.psk)
    && NoHmacCollision(p, tv, p.hmac(tv, [1]) + [2], tw, p.hmac(tw, [1]) + [2])
  }

  lemma FrontsAgree(a: Bytes, x: Bytes, b: Bytes, y: Bytes)
    requires |a| == |b| && a + x == b + y
    ensures a == b && x == y
  {
    assert a == (a + x)[..|a|];
    assert x == (a + x)[|a|..];
    assert b == (b + y)[..|a|];
    assert y == (b + y)[|a|..];
  }

  /** The associated data of message 1 stands for everything both sides must
      have in common. */
  lemma SameTranscript(p: Primitives, v: View, w: View, e: Bytes)
    requires p.Sized() && Apart(p, v, w, e)
    ensures p.hash(H3(p, v) + e) == p.hash(H3(p, w) + e) <==> v == w
  {
    if p.hash(H3(p, v) + e) == p.hash(H3(p, w) + e) {
      FrontsAgree(H3(p, v), e, H3(p, w), e);
      FrontsAgree(H2(p, v), Hkdf(p, p.name, v.psk).1, H2(p, w), Hkdf(p, p.name, w.psk).1);
      FrontsAgree(H1(p, v), v.serverPub, H1(p, w), w.serverPub);
      FrontsAgree(p.name, v.prologue, p.name, w.prologue);
    }
  }

  /** A server reads an honest message 1 exactly if the client's prologue,
      key and idea of the server's public key are the server's own. The AEAD
      is assumed not to open this text under other associated data, and the
      hashes of the two transcripts not to collide. */
  lemma Message1Reaches(p: Primitives, v: View, w: View, sPriv: Bytes, seed: Bytes, payload: Bytes, size: nat)
    requires p.Lawful() && w.serverPub == p.pub(sPriv) && size >= |payload|
    requires Apart(p, v, w, p.pub(seed))
    requires !Zero(p.dh(seed, v.serverPub)) && !Zero(p.dh(sPriv, p.pub(seed)))
    requires var e := p.pub(seed);
             var i := Keyed(p, Mixed1(p, Initiator(p, v.prologue, v.serverPub), v.psk, e), p.dh(seed, v.serverPub));
             var r := Keyed(p, Mixed1(p, Responder(p, w.prologue, sPriv, w.serverPub), w.psk, e), p.dh(sPriv, e));
             p.open(r.k, 0, r.h, SealedText(p, i, payload)).Some? ==> i.h == r.h
    ensures var m := Write1(p, Initiator(p, v.prologue, v.serverPub), v.psk, seed, payload, MSG_OVERHEAD + |payload|).msg;
            var r := Responder(p, w.prologue, sPriv, w.serverPub);
            m.Some? && Es(p, r, m.value).Some?
            && (Read1(p, r, w.psk, Es(p, r, m.value).value, m.value, size).Some? <==> v == w)
  {
    var e := p.pub(seed);
    var i0 := Initiator(p, v.prologue, v.serverPub);
    var r0 := Responder(p, w.prologue, sPriv, w.serverPub);
    var i := Keyed(p, Mixed1(p, i0, v.psk, e), p.dh(seed, v.serverPub));
    var r := Keyed(p, Mixed1(p, r0, w.psk, e), p.dh(sPriv, e));
    var text := SealedText(p, i, payload);
    SameTranscript(p, v, w, e);
    assert i.h == p.hash(H3(p, v) + e) && r.h == p.hash(H3(p, w) + e);
    assert (e + text)[..DH_LEN] == e && (e + text)[DH_LEN..] == text;
    var m := Write1(p, i0, v.psk, seed, payload, MSG_OVERHEAD + |payload|).msg;
    assert m == Some(e + text);
    if v == w {
      Message1Agrees(p, i0, r0, v.psk, seed, payload, MSG_OVERHEAD + |payload|, size);
    }
  }

  /* ---- what the keys stand for ---- */

  predicate NoCutCollision(p: Primitives, k: Bytes, x: Bytes, k': Bytes, y: Bytes) {
    Cut(p.hmac(k, x)) == Cut(p.hmac(k', y)) ==> k == k' && x == y
  }

  /** None of the keys the two chaining keys are split into collide. */
  predicate SplitsApart(p: Primitives, a: Bytes, b: Bytes) {
    var ta, tb := p.hmac(a, []), p.hmac(b, []);
    && NoHmacCollision(p, a, [], b, [])
    && NoCutCollision(p, ta, [1], tb, [1])
    && NoCutCollision(p, ta, p.hmac(ta, [1]) + [2], tb, p.hmac(tb, [1]) + [2])
    && NoCutCollision(p, ta, [1], tb, p.hmac(tb, [1]) + [2])
    && NoCutCollision(p, ta, p.hmac(ta, [1]) + [2], tb, [1])
  }

  /** Two sides have a key in common exactly if their chaining keys are the
      same: then the one's for sending is the other's for receiving. The keys
      of the two directions always differ. */
  lemma SplitKeys(p: Primitives, a: State, b: State)
    requires p.Sized() && SplitsApart(p, a.ck, b.ck) && SplitsApart(p, a.ck, a.ck)
    ensures SendKey(p, a) != ReceiveKey(p, a)
    ensures Split(p, a).0 == Split(p, b).0 <==> a.ck == b.ck
    ensures Split(p, a).1 == Split(p, b).1 <==> a.ck == b.ck
    ensures Split(p, a).0 != Split(p, b).1 && Split(p, a).1 != Split(p, b).0
  {
    var ta, tb := p.hmac(a.ck, []), p.hmac(b.ck, []);
    assert |p.hmac(ta, [1]) + [2]| == HASH_LEN + 1 && |p.hmac(tb, [1]) + [2]| == HASH_LEN + 1;
  }

  /** The chaining key after some secrets were mixed in. */
  function Chain(p: Primitives, secrets: seq<Bytes>): Bytes {
    if secrets == [] then p.name
    else Hkdf(p, Chain(p, secrets[..|secrets| - 1]), secrets[|secrets| - 1]).0
  }

  /** None of the HMACs of the two chains collide. */
  ghost predicate ChainsApart(p: Primitives, xs: seq<Bytes>, ys: seq<Bytes>) {
    |xs| == |ys|
    && forall i | 0 <= i < |xs| ::
         var a, b := Chain(p, xs[..i]), Chain(p, ys[..i]);
         && NoHmacCollision(p, a, xs[i], b, ys[i])
         && NoHmacCollision(p, p.hmac(a, xs[i]), [1], p.hmac(b, ys[i]), [1])
  }

  lemma FewerApart(p: Primitives, xs: seq<Bytes>, ys: seq<Bytes>)
    requires ChainsApart(p, xs, ys) && xs != []
    ensures ChainsApart(p, xs[..|xs| - 1], ys[..|xs| - 1])
  {
    hide Chain, NoHmacCollision;
    var n := |xs| - 1;
    assert forall i | 0 <= i < n :: xs[..n][..i] == xs[..i] && ys[..n][..i] == ys[..i];
  }

  lemma LinkBinds(p: Primitives, a: Bytes, x: Bytes, b: Bytes, y: Bytes)
    requires NoHmacCollision(p, a, x, b, y) && NoHmacCollision(p, p.hmac(a, x), [1], p.hmac(b, y), [1])
    ensures Hkdf(p, a, x).0 == Hkdf(p, b, y).0 <==> a == b && x == y
  {
  }

  lemma LastApart(p: Primitives, xs: seq<Bytes>, ys: seq<Bytes>)
    requires ChainsApart(p, xs, ys) && xs != []
    ensures var n := |xs| - 1;
            var a, b := Chain(p, xs[..n]), Chain(p, ys[..n]);
            && NoHmacCollision(p, a, xs[n], b, ys[n])
            && NoHmacCollision(p, p.hmac(a, xs[n]), [1], p.hmac(b, ys[n]), [1])
            && Chain(p, xs) == Hkdf(p, a, xs[n]).0 && Chain(p, ys) == Hkdf(p, b, ys[n]).0
  {
    hide NoHmacCollision, Hkdf;
  }

  lemma EqualByLast(xs: seq<Bytes>, ys: seq<Bytes>)
    requires |xs| == |ys| > 0
    ensures var n := |xs| - 1; xs == ys <==> xs[..n] == ys[..n] && xs[n] == ys[n]
  {
    var n := |xs| - 1;
    assert xs == xs[..n] + [xs[n]] && ys == ys[..n] + [ys[n]];
  }

  /** A chaining key stands for all the secrets, in their order. */
  lemma {:induction false} ChainBinds(p: Primitives, xs: seq<Bytes>, ys: seq<Bytes>)
    requires ChainsApart(p, xs, ys)
    ensures Chain(p, xs) == Chain(p, ys) <==> xs == ys
  {
    if xs == [] {
      assert ys == [];
    } else {
      var n := |xs| - 1;
      FewerApart(p, xs, ys);
      LastApart(p, xs, ys);
      hide Hkdf, NoHmacCollision, ChainsApart, Chain;
      ChainBinds(p, xs[..n], ys[..n]);
      LinkBinds(p, Chain(p, xs[..n]), xs[n], Chain(p, ys[..n]), ys[n]);
      EqualByLast(xs, ys);
    }
  }

  /** What the client has mixed in once it has read a message 2. */
  function ClientSecrets(p: Primitives, serverPub: Bytes, psk: Bytes, seed: Bytes, msg2: Bytes): seq<Bytes>
    requires |msg2| >= MSG_OVERHEAD
  {
    [psk, p.pub(seed), p.dh(seed, serverPub), msg2[..DH_LEN], p.dh(seed, msg2[..DH_LEN])]
  }

  /** And the server that has read a message 1 and answered it. */
  function ServerSecrets(p: Primitives, psk: Bytes, es: Bytes, msg1: Bytes, seed: Bytes): seq<Bytes>
    requires |msg1| >= MSG_OVERHEAD
  {
    [psk, msg1[..DH_LEN], es, p.pub(seed), p.dh(seed, msg1[..DH_LEN])]
  }

  lemma ChainOfFive(p: Primitives, a: Bytes, b: Bytes, c: Bytes, d: Bytes, e: Bytes)
    ensures Chain(p, [a, b, c]) == Hkdf(p, Hkdf(p, Hkdf(p, p.name, a).0, b).0, c).0
    ensures Chain(p, [a, b, c, d, e]) == Hkdf(p, Hkdf(p, Chain(p, [a, b, c]), d).0, e).0
  {
    hide Hkdf;
    assert [a][..0] == [] && [a, b][..1] == [a] && [a, b, c][..2] == [a, b];
    assert [a, b, c, d][..3] == [a, b, c] && [a, b, c, d, e][..4] == [a, b, c, d];
    assert Chain(p, [a]) == Hkdf(p, p.name, a).0;
    assert Chain(p, [a, b]) == Hkdf(p, Chain(p, [a]), b).0;
    assert Chain(p, [a, b, c, d]) == Hkdf(p, Chain(p, [a, b, c]), d).0;
  }

  lemma ClientChain(p: Primitives, prologue: Bytes, serverPub: Bytes, psk: Bytes, seed: Bytes, payload: Bytes,
                    outSize: nat, msg2: Bytes, size: nat)
    requires var w := Write1(p, Initiator(p, prologue, serverPub), psk, seed, payload, outSize);
             w.msg.Some? && Read2(p, w.state, msg2, size).Some?
    ensures var w := Write1(p, Initiator(p, prologue, serverPub), psk, seed, payload, outSize);
            var s := Read2(p, w.state, msg2, size).value.state;
            && |msg2| >= MSG_OVERHEAD && s.initiator
            && s.ck == Chain(p, ClientSecrets(p, serverPub, psk, seed, msg2))
  {
    hide Hkdf;
    ChainOfFive(p, psk, p.pub(seed), p.dh(seed, serverPub), msg2[..DH_LEN], p.dh(seed, msg2[..DH_LEN]));
  }

  lemma ServerChain(p: Primitives, prologue: Bytes, sPriv: Bytes, sPub: Bytes, psk: Bytes, es: Bytes, msg1: Bytes,
                    size: nat, seed: Bytes, payload: Bytes, outSize: nat)
    requires var d := Read1(p, Responder(p, prologue, sPriv, sPub), psk, es, msg1, size);
             d.Some? && Write2(p, d.value.state, seed, payload, outSize).msg.Some?
    ensures var d := Read1(p, Responder(p, prologue, sPriv, sPub), psk, es, msg1, size);
            var s := Write2(p, d.value.state, seed, payload, outSize).state;
            && |msg1| >= MSG_OVERHEAD && !s.initiator
            && s.ck == Chain(p, ServerSecrets(p, psk, es, msg1, seed))
  {
    hide Hkdf;
    ChainOfFive(p, psk, msg1[..DH_LEN], es, p.pub(seed), p.dh(seed, msg1[..DH_LEN]));
  }

  /** Whatever messages a client and a server took part in, what the one sends
      with is what the other receives with exactly if they have the same
      pre-shared key, ephemeral keys and both shared secrets; then it is so in
      the other direction too. Neither receives with what it sends with. */
  lemma KeysExactly(p: Primitives, prologue: Bytes, serverPub: Bytes, psk: Bytes, seed1: Bytes, payload1: Bytes,
                    outSize1: nat, msg2: Bytes, size2: nat,
                    prologue': Bytes, sPriv: Bytes, sPub: Bytes, psk': Bytes, es: Bytes, msg1: Bytes, size1: nat,
                    seed2: Bytes, payload2: Bytes, outSize2: nat)
    requires p.Sized()
    requires var w := Write1(p, Initiator(p, prologue, serverPub), psk, seed1, payload1, outSize1);
             w.msg.Some? && Read2(p, w.state, msg2, size2).Some? && |msg2| >= MSG_OVERHEAD
    requires var d := Read1(p, Responder(p, prologue', sPriv, sPub), psk', es, msg1, size1);
             d.Some? && Write2(p, d.value.state, seed2, payload2, outSize2).msg.Some? && |msg1| >= MSG_OVERHEAD
    requires var xs := ClientSecrets(p, serverPub, psk, seed1, msg2);
             var ys := ServerSecrets(p, psk', es, msg1, seed2);
             && ChainsApart(p, xs, ys) && SplitsApart(p, Chain(p, xs), Chain(p, ys))
             && SplitsApart(p, Chain(p, xs), Chain(p, xs)) && SplitsApart(p, Chain(p, ys), Chain(p, ys))
    ensures var c := Read2(p, Write1(p, Initiator(p, prologue, serverPub), psk, seed1, payload1, outSize1).state,
                           msg2, size2).value.state;
            var s := Write2(p, Read1(p, Responder(p, prologue', sPriv, sPub), psk', es, msg1, size1).value.state,
                            seed2, payload2, outSize2).state;
            var same := ClientSecrets(p, serverPub, psk, seed1, msg2) == ServerSecrets(p, psk', es, msg1, seed2);
            && (SendKey(p, c) == ReceiveKey(p, s) <==> same)
            && (ReceiveKey(p, c) == SendKey(p, s) <==> same)
            && SendKey(p, c) != ReceiveKey(p, c) && SendKey(p, s) != ReceiveKey(p, s)
            && SendKey(p, c) != SendKey(p, s)
  {
    ClientChain(p, prologue, serverPub, psk, seed1, payload1, outSize1, msg2, size2);
    ServerChain(p, prologue', sPriv, sPub, psk', es, msg1, size1, seed2, payload2, outSize2);
    hide Write1, Read2, Read1, Write2, SplitsApart, ChainsApart, Chain, Hkdf;
    var c := Read2(p, Write1(p, Initiator(p, prologue, serverPub), psk, seed1, payload1, outSize1).state,
                   msg2, size2).value.state;
    var s := Write2(p, Read1(p, Responder(p, prologue', sPriv, sPub), psk', es, msg1, size1).value.state,
                    seed2, payload2, outSize2).state;
    ChainBinds(p, ClientSecrets(p, serverPub, psk, seed1, msg2), ServerSecrets(p, psk', es, msg1, seed2));
    SplitKeys(p, c, s);
    SplitKeys(p, s, s);
  }

  /* ---- the handshake object, changed in place ---- */

  class Handshake {
    const p: Primitives
    var k: Bytes
    var n: nat
    var hasKey: bool
    var ck: Bytes
    var h: Bytes
    var sPriv: Bytes
    var sPub: Bytes
    var ePriv: Bytes
    var ePub: Bytes
    var re: Bytes
    var initiator: bool

    function Value(): State
      reads this
    {
      State(k, n, hasKey, ck, h, sPriv, sPub, ePriv, ePub, re, initiator)
    }

    /** noise_init_initiator */
    constructor Initiate(p: Primitives, prologue: Bytes, serverPub: Bytes)
      ensures this.p == p && Value() == Initiator(p, prologue, serverPub)
    {
      this.p := p;
      k, n, hasKey, ck, h := [], 0, false, p.name, p.name;
      sPriv, sPub, ePriv, ePub, re, initiator := [], [], [], [], [], false;
      new;
      MixHash(prologue);
      MixHash(serverPub);
      sPub, initiator := serverPub, true;
    }

    /** noise_init_responder */
    constructor Respond(p: Primitives, prologue: Bytes, sPriv: Bytes, sPub: Bytes)
      ensures this.p == p && Value() == Responder(p, prologue, sPriv, sPub)
    {
      this.p := p;
      k, n, hasKey, ck, h := [], 0, false, p.name, p.name;
      this.sPriv, this.sPub, ePriv, ePub, re, initiator := [], [], [], [], [], false;
      new;
      MixHash(prologue);
      MixHash(sPub);
      this.sPriv, this.sPub := sPriv, sPub;
    }

    constructor Copy(other: Handshake)
      ensures p == other.p && Value() == other.Value()
    {
      p := other.p;
      k, n, hasKey, ck, h := other.k, other.n, other.hasKey, other.ck, other.h;
      sPriv, sPub, ePriv, ePub, re, initiator :=
        other.sPriv, other.sPub, other.ePriv, other.ePub, other.re, other.initiator;
    }

    method Assign(other: Handshake)
      modifies this
      ensures Value() == other.Value()
    {
      k, n, hasKey, ck, h := other.k, other.n, other.hasKey, other.ck, other.h;
      sPriv, sPub, ePriv, ePub, re, initiator :=
        other.sPriv, other.sPub, other.ePriv, other.ePub, other.re, other.initiator;
    }

    /** mix_hash */
    method MixHash(data: Bytes)
      modifies `h
      ensures Value() == Hashed(p, old(Value()), data)
    {
      h := p.hash(h + data);
    }

    /** mix_key: the first output replaces the chaining key it is made of. */
    method MixKey(ikm: Bytes)
      modifies `ck, `k, `n, `hasKey
      ensures Value() == Keyed(p, old(Value()), ikm)
    {
      var temp := p.hmac(ck, ikm);
      ck := p.hmac(temp, [1]);
      k := Cut(p.hmac(temp, ck + [2]));
      n := 0;
      hasKey := true;
    }

    /** mix_key_and_hash */
    method MixKeyAndHash(ikm: Bytes)
      modifies `ck, `k, `n, `hasKey, `h
      ensures Value() == KeyedAndHashed(p, old(Value()), ikm)
    {
      var temp := p.hmac(ck, ikm);
      ck := p.hmac(temp, [1]);
      var tempH := p.hmac(temp, ck + [2]);
      var tempK := p.hmac(temp, tempH + [3]);
      MixHash(tempH);
      k := Cut(tempK);
      n := 0;
      hasKey := true;
    }

    /** encrypt_and_hash */
    method EncryptAndHash(plain: Bytes) returns (text: Bytes)
      modifies `n, `h
      ensures text == SealedText(p, old(Value()), plain)
      ensures Value() == AfterText(p, old(Value()), text)
    {
      text := p.seal(k, n, h, plain);
      n := n + 1;
      MixHash(text);
    }

    /** decrypt_and_hash: the state changes only if the text opens. */
    method DecryptAndHash(text: Bytes) returns (plain: Option<Bytes>)
      modifies `n, `h
      ensures plain == OpenedText(p, old(Value()), text)
      ensures Value() == if plain.Some? then AfterText(p, old(Value()), text) else old(Value())
    {
      var nextH := p.hash(h + text);
      if |text| < TAG_LEN {
        return None;
      }
      plain := p.open(k, n, h, text);
      if plain.None? {
        return;
      }
      n := n + 1;
      h := nextH;
    }

    /** The rest of either message: the DH result, then the payload. */
    method Finish(shared: Bytes, payload: Bytes) returns (msg: Option<Bytes>)
      modifies this
      ensures Written(Value(), msg) == Finished(p, old(Value()), shared, payload)
    {
      if Zero(shared) {
        return None;
      }
      MixKey(shared);
      var text := EncryptAndHash(payload);
      msg := Some(ePub + text);
    }

    /** noise_write_msg1 */
    method WriteMsg1(psk: Bytes, seed: Bytes, payload: Bytes, outSize: nat) returns (msg: Option<Bytes>)
      modifies this
      ensures Written(Value(), msg) == Write1(p, old(Value()), psk, seed, payload, outSize)
    {
      if !initiator || !Fits(payload, outSize) {
        return None;
      }
      MixKeyAndHash(psk);
      ePriv := seed;
      ePub := p.pub(ePriv);
      MixHash(ePub);
      MixKey(ePub);
      msg := Finish(p.dh(ePriv, sPub), payload);
    }

    /** noise_write_msg2 */
    method WriteMsg2(seed: Bytes, payload: Bytes, outSize: nat) returns (msg: Option<Bytes>)
      modifies this
      ensures Written(Value(), msg) == Write2(p, old(Value()), seed, payload, outSize)
    {
      if initiator || !Fits(payload, outSize) {
        return None;
      }
      ePriv := seed;
      ePub := p.pub(ePriv);
      MixHash(ePub);
      MixKey(ePub);
      msg := Finish(p.dh(ePriv, re), payload);
    }

    /** read_msg1, on a copy. */
    method TryRead1(psk: Bytes, es: Bytes, msg: Bytes, size: nat) returns (payload: Option<Bytes>)
      modifies this
      ensures payload.Some? ==> Read1(p, old(Value()), psk, es, msg, size) == Some(Read(Value(), payload.value))
      ensures payload.None? ==> Read1(p, old(Value()), psk, es, msg, size).None?
    {
      hide Hkdf;
      if initiator || |msg| < MSG_OVERHEAD || size < |msg| - MSG_OVERHEAD {
        return None;
      }
      MixKeyAndHash(psk);
      re := msg[..DH_LEN];
      MixHash(re);
      MixKey(re);
      MixKey(es);
      payload := DecryptAndHash(msg[DH_LEN..]);
    }

    /** read_msg2, on a copy. */
    method TryRead2(msg: Bytes, size: nat) returns (payload: Option<Bytes>)
      modifies this
      ensures payload.Some? ==> Read2(p, old(Value()), msg, size) == Some(Read(Value(), payload.value))
      ensures payload.None? ==> Read2(p, old(Value()), msg, size).None?
    {
      hide Hkdf;
      if !initiator || |msg| < MSG_OVERHEAD || size < |msg| - MSG_OVERHEAD {
        return None;
      }
      re := msg[..DH_LEN];
      MixHash(re);
      MixKey(re);
      var shared := p.dh(ePriv, re);
      if Zero(shared) {
        return None;
      }
      MixKey(shared);
      payload := DecryptAndHash(msg[DH_LEN..]);
    }

    /** noise_split */
    method SplitInTwo() returns (c1: Bytes, c2: Bytes)
      ensures (c1, c2) == Split(p, Value())
    {
      var temp := p.hmac(ck, []);
      var k1 := p.hmac(temp, [1]);
      var k2 := p.hmac(temp, k1 + [2]);
      c1, c2 := Cut(k1), Cut(k2);
    }

    /** noise_read_msg1: a message that fails leaves the state as it was. */
    method ReadMsg1(psk: Bytes, es: Bytes, msg: Bytes, size: nat) returns (payload: Option<Bytes>)
      modifies this
      ensures var r := Read1(p, old(Value()), psk, es, msg, size);
              if r.Some? then payload == Some(r.value.payload) && Value() == r.value.state
              else payload.None? && Value() == old(Value())
    {
      var t := new Handshake.Copy(this);
      payload := t.TryRead1(psk, es, msg, size);
      if payload.Some? {
        Assign(t);
      }
    }

    /** noise_read_msg2 */
    method ReadMsg2(msg: Bytes, size: nat) returns (payload: Option<Bytes>)
      modifies this
      ensures var r := Read2(p, old(Value()), msg, size);
              if r.Some? then payload == Some(r.value.payload) && Value() == r.value.state
              else payload.None? && Value() == old(Value())
    {
      var t := new Handshake.Copy(this);
      payload := t.TryRead2(msg, size);
      if payload.Some? {
        Assign(t);
      }
    }

    /** The trial of one key after the other on a received message 1: the
        first one in `psks` that reads it, none if none does. Those tried
        before have left no trace. */
    method ReadWithAny(psks: seq<Bytes>, es: Bytes, msg: Bytes, size: nat) returns (payload: Option<Bytes>, used: nat)
      modifies this
      ensures payload.None? ==> Value() == old(Value())
                                && forall i | 0 <= i < |psks| :: Read1(p, old(Value()), psks[i], es, msg, size).None?
      ensures payload.Some? ==> used < |psks|
                                && Read1(p, old(Value()), psks[used], es, msg, size) == Some(Read(Value(), payload.value))
                                && forall i | 0 <= i < used :: Read1(p, old(Value()), psks[i], es, msg, size).None?
    {
      hide Read1;
      payload := None;
      used := 0;
      while used < |psks|
        invariant used <= |psks| && payload.None? && Value() == old(Value())
        invariant forall i | 0 <= i < used :: Read1(p, old(Value()), psks[i], es, msg, size).None?
      {
        payload := ReadMsg1(psks[used], es, msg, size);
        if payload.Some? {
          return;
        }
        used := used + 1;
      }
    }
  }
}
