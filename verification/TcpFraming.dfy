/** TCP framing (net.c): a two-byte big-endian length before each frame,
    under arbitrary partial writes and reads. */
module TcpFraming {
  import opened Wrappers
  import opened Codec

  const TUN_PACKET_MAX: nat := 9216
  const MAX_FRAME: nat := 33 + TUN_PACKET_MAX   // without the length

  type Frame = seq<Byte>

  function Framed(f: Frame): seq<Byte>
    requires |f| < 0x1_0000
  {
    [|f| / 256, |f| % 256] + f
  }

  lemma FramedLength(f: Frame)
    requires |f| < 0x1_0000
    ensures |Framed(f)| == 2 + |f|
  {
  }

  /** The bytes of a sequence of frames. */
  function Stream(fs: seq<Frame>): seq<Byte>
    requires forall i | 0 <= i < |fs| :: |fs[i]| < 0x1_0000
  {
    if fs == [] then [] else Framed(fs[0]) + Stream(fs[1..])
  }

  ghost predicate Fit(fs: seq<Frame>, size: nat) {
    forall i | 0 <= i < |fs| :: |fs[i]| <= size
  }

  lemma {:induction false} StreamAppend(fs: seq<Frame>, f: Frame)
    requires Fit(fs, 0xffff) && |f| <= 0xffff
    ensures Stream(fs + [f]) == Stream(fs) + Framed(f)
  {
    if fs == [] {
      assert fs + [f] == [f];
      assert Stream([f]) == Framed(f) + Stream([f][1..]);
    } else {
      assert (fs + [f])[1..] == fs[1..] + [f];
      StreamAppend(fs[1..], f);
    }
  }

  /* ---- sending ---- */

  /** A slot holds the unsent rest of one frame of its descriptor; -1 = free.
      Its buffer, once allocated, is kept. */
  datatype Pending = Pending(fd: int, hasBuf: bool, data: seq<Byte>, offset: nat)

  const FREE := Pending(-1, false, [], 0)

  function Rest(slot: Pending): (r: seq<Byte>)
    requires slot.offset <= |slot.data|
    ensures |r| == |slot.data| - slot.offset
  {
    slot.data[slot.offset..]
  }

  function Advanced(slot: Pending, n: nat): (r: Pending)
    requires slot.offset + n <= |slot.data|
    ensures r.data == slot.data && r.offset == slot.offset + n && r.fd == slot.fd && Rest(r) == Rest(slot)[n..]
  {
    slot.(offset := slot.offset + n)
  }

  lemma Join(a: seq<Byte>, b: seq<Byte>, n: nat)
    requires n <= |b|
    ensures (a + b[..n]) + b[n..] == a + b
  {
    assert b == b[..n] + b[n..];
  }

  /** tcp_pending_release */
  function Released(slot: Pending): Pending {
    slot.(fd := -1, data := [], offset := 0)
  }

  datatype Sent = Bytes(n: nat) | Again | HardError

  predicate Owns(slots: seq<Pending>, i: nat, fd: int)
    requires i < |slots|
  {
    slots[i].fd == fd
  }

  /** What a descriptor's slot still has to send. */
  ghost function Unsent(slots: seq<Pending>, fd: int): seq<Byte>
    requires fd >= 0 && SlotsOk(slots)
  {
    if exists i :: 0 <= i < |slots| && Owns(slots, i, fd) then
      var i :| 0 <= i < |slots| && Owns(slots, i, fd);
      Rest(slots[i])
    else []
  }

  /** At most one slot a descriptor, each with bytes left to send. */
  ghost predicate SlotsOk(slots: seq<Pending>) {
    && (forall i, j | 0 <= i < j < |slots| && slots[i].fd >= 0 :: slots[i].fd != slots[j].fd)
    && (forall i | 0 <= i < |slots| :: slots[i].fd >= -1 && (slots[i].fd >= 0 ==> slots[i].offset < |slots[i].data|))
  }

  lemma UnsentOf(slots: seq<Pending>, i: nat)
    requires SlotsOk(slots) && i < |slots| && slots[i].fd >= 0
    ensures Unsent(slots, slots[i].fd) == Rest(slots[i])
  {
    assert Owns(slots, i, slots[i].fd);
    forall j | 0 <= j < |slots| && Owns(slots, j, slots[i].fd)
      ensures j == i
    {
    }
  }

  lemma UnsentNone(slots: seq<Pending>, fd: int)
    requires SlotsOk(slots) && fd >= 0 && forall i | 0 <= i < |slots| :: slots[i].fd != fd
    ensures Unsent(slots, fd) == []
  {
  }

  /** Changing one slot leaves the other descriptors' rests alone. */
  lemma UnsentOther(slots: seq<Pending>, slots': seq<Pending>, k: nat, fd: int)
    requires SlotsOk(slots) && SlotsOk(slots') && |slots'| == |slots| && k < |slots| && fd >= 0
    requires slots' == slots[k := slots'[k]] && slots[k].fd != fd && slots'[k].fd != fd
    ensures Unsent(slots', fd) == Unsent(slots, fd)
  {
    if i :| 0 <= i < |slots| && Owns(slots, i, fd) {
      UnsentOf(slots, i);
      UnsentOf(slots', i);
    } else {
      forall i | 0 <= i < |slots|
        ensures slots[i].fd != fd
      {
        assert !Owns(slots, i, fd);
      }
      UnsentNone(slots, fd);
      UnsentNone(slots', fd);
    }
  }

  /** A descriptor whose slot changes, is taken or is given back leaves the
      others their rests. */
  lemma OthersKeep(slots: seq<Pending>, slots': seq<Pending>, k: nat, fd: int)
    requires SlotsOk(slots) && SlotsOk(slots') && |slots'| == |slots| && k < |slots|
    requires slots' == slots[k := slots'[k]] && slots[k].fd in {-1, fd} && slots'[k].fd in {-1, fd}
    ensures forall other | other >= 0 && other != fd :: Unsent(slots', other) == Unsent(slots, other)
  {
    forall other | other >= 0 && other != fd
      ensures Unsent(slots', other) == Unsent(slots, other)
    {
      UnsentOther(slots, slots', k, other);
    }
  }

  lemma LeftToSend(slots: seq<Pending>, k: nat)
    requires SlotsOk(slots) && k < |slots| && slots[k].fd >= 0
    ensures slots[k].offset < |slots[k].data|
  {
  }

  lemma EmptyRest(slot: Pending, wire: seq<Byte>)
    requires slot.offset == |slot.data|
    ensures wire + Rest(slot) == wire + [] == wire
  {
  }

  lemma SlotChanged(slots: seq<Pending>, slots': seq<Pending>, k: nat)
    requires SlotsOk(slots) && |slots'| == |slots| && k < |slots| && slots' == slots[k := slots'[k]]
    requires slots[k].fd == slots'[k].fd >= 0 && slots'[k].offset < |slots'[k].data|
    ensures SlotsOk(slots')
    ensures forall other | other >= 0 && other != slots[k].fd :: Unsent(slots', other) == Unsent(slots, other)
  {
    OthersKeep(slots, slots', k, slots[k].fd);
  }

  lemma SlotReleased(slots: seq<Pending>, slots': seq<Pending>, k: nat)
    requires SlotsOk(slots) && k < |slots| && slots[k].fd >= 0
    requires |slots'| == |slots| && slots' == slots[k := slots'[k]] && slots'[k].fd == -1
    ensures SlotsOk(slots') && Unsent(slots', slots[k].fd) == []
    ensures forall i | 0 <= i < |slots'| :: slots'[i].fd != slots[k].fd
    ensures forall other | other >= 0 && other != slots[k].fd :: Unsent(slots', other) == Unsent(slots, other)
  {
    OthersKeep(slots, slots', k, slots[k].fd);
    UnsentNone(slots', slots[k].fd);
  }

  function At<T>(m: map<int, seq<T>>, fd: int): seq<T> {
    if fd in m then m[fd] else []
  }

  /** Written bytes and the rest are the accepted frames, end to end. */
  ghost predicate InOrder(wire: seq<Byte>, unsent: seq<Byte>, frames: seq<Frame>) {
    Fit(frames, MAX_FRAME) && wire + unsent == Stream(frames)
  }

  /** What was written to each descriptor and the frames accepted for it,
      since it was opened; `broken` are those with a hard error. */
  datatype History = History(wire: map<int, seq<Byte>>, frames: map<int, seq<Frame>>, broken: set<int>)
  {
    function Wire(fd: int): seq<Byte> {
      At(wire, fd)
    }

    function Frames(fd: int): seq<Frame> {
      At(frames, fd)
    }

    function Wrote(fd: int, bytes: seq<Byte>): History {
      this.(wire := wire[fd := Wire(fd) + bytes])
    }

    function Accepted(fd: int, f: Frame): History {
      this.(frames := frames[fd := Frames(fd) + [f]])
    }

    function Broke(fd: int): History {
      this.(broken := broken + {fd})
    }

    function Closed(fd: int): History {
      History(wire[fd := []], frames[fd := []], broken - {fd})
    }
  }

  /** On every connection without a hard error the written bytes and the
      unsent rest are the accepted frames. */
  ghost predicate Ordered(slots: seq<Pending>, h: History) {
    && SlotsOk(slots)
    && forall fd | fd >= 0 && fd !in h.broken :: InOrder(h.Wire(fd), Unsent(slots, fd), h.Frames(fd))
  }

  /** Nothing has changed for the other descriptors. */
  ghost predicate OnlyOf(fd: int, slots: seq<Pending>, h: History, slots': seq<Pending>, h': History)
    requires SlotsOk(slots) && SlotsOk(slots')
  {
    && h'.broken - {fd} == h.broken - {fd}
    && forall other | other >= 0 && other != fd ::
         Unsent(slots', other) == Unsent(slots, other) && h'.Wire(other) == h.Wire(other)
         && h'.Frames(other) == h.Frames(other)
  }

  lemma OrderedAt(slots: seq<Pending>, h: History, fd: int)
    requires Ordered(slots, h)
    ensures SlotsOk(slots)
    ensures fd >= 0 && fd !in h.broken ==> InOrder(h.Wire(fd), Unsent(slots, fd), h.Frames(fd))
  {
  }

  lemma StillOrdered(fd: int, slots: seq<Pending>, h: History, slots': seq<Pending>, h': History)
    requires Ordered(slots, h) && SlotsOk(slots') && OnlyOf(fd, slots, h, slots', h')
    requires fd >= 0 && (fd in h'.broken || InOrder(h'.Wire(fd), Unsent(slots', fd), h'.Frames(fd)))
    ensures Ordered(slots', h')
  {
    hide InOrder, Unsent;
    forall other | other >= 0 && other !in h'.broken
      ensures InOrder(h'.Wire(other), Unsent(slots', other), h'.Frames(other))
    {
      if other != fd {
        assert other !in h'.broken - {fd};
      }
    }
  }

  lemma OnlyOfTrans(fd: int, s1: seq<Pending>, h1: History, s2: seq<Pending>, h2: History, s3: seq<Pending>, h3: History)
    requires SlotsOk(s1) && SlotsOk(s2) && SlotsOk(s3)
    requires OnlyOf(fd, s1, h1, s2, h2) && OnlyOf(fd, s2, h2, s3, h3)
    ensures OnlyOf(fd, s1, h1, s3, h3)
  {
    hide Unsent;
  }

  /** The connections of one process. */
  class Sender {
    var slots: seq<Pending>
    ghost var history: History

    ghost predicate Valid()
      reads this
    {
      Ordered(slots, history)
    }

    constructor (count: nat)
      ensures Valid() && |slots| == count && history == History(map[], map[], {})
    {
      slots := seq(count, _ => FREE);
      history := History(map[], map[], {});
      new;
      forall fd | fd >= 0
        ensures InOrder(history.Wire(fd), Unsent(slots, fd), history.Frames(fd))
      {
        UnsentNone(slots, fd);
      }
    }

    /** tcp_pending_find */
    method Find(fd: int) returns (k: int)
      ensures -1 <= k < |slots|
      ensures k >= 0 ==> slots[k].fd == fd
      ensures k < 0 ==> forall i | 0 <= i < |slots| :: slots[i].fd != fd
    {
      k := 0;
      while k < |slots|
        invariant 0 <= k <= |slots|
        invariant forall i | 0 <= i < k :: slots[i].fd != fd
      {
        if slots[k].fd == fd {
          return;
        }
        k := k + 1;
      }
      k := -1;
    }

    /** The free slot tcp_pending_acquire takes, one with a buffer if there is
        one; -1 if there is none, or memory for a buffer was needed and not
        there. */
    method Acquire(memory: bool) returns (k: int)
      ensures -1 <= k < |slots|
      ensures k >= 0 ==> slots[k].fd == -1
      ensures k >= 0 && !slots[k].hasBuf ==>
                memory && forall i | 0 <= i < |slots| && slots[i].fd == -1 :: !slots[i].hasBuf
      ensures k < 0 ==> forall i | 0 <= i < |slots| && slots[i].fd == -1 :: !memory && !slots[i].hasBuf
    {
      k := -1;
      var i := 0;
      while i < |slots|
        invariant 0 <= i <= |slots| && -1 <= k < i
        invariant k >= 0 ==> slots[k].fd == -1
        invariant forall j | 0 <= j < i && slots[j].fd == -1 :: !slots[j].hasBuf && k >= 0
      {
        if slots[i].fd == -1 {
          if slots[i].hasBuf {
            return i;
          }
          if k < 0 {
            k := i;
          }
        }
        i := i + 1;
      }
      if k >= 0 && !memory {
        return -1;
      }
    }

    /** send(): some of the bytes, none for now, or a hard error. */
    method Write(fd: int, data: seq<Byte>) returns (r: Sent)
      requires data != []
      modifies `history
      ensures r.Bytes? ==> 0 < r.n <= |data|
      ensures history == if r.Bytes? then old(history).Wrote(fd, data[..r.n]) else old(history)
    {
      var choice: int := *;
      if choice <= -2 {
        return HardError;
      } else if choice <= 0 {
        return Again;
      }
      var n := if choice <= |data| then choice else |data|;
      history := history.Wrote(fd, data[..n]);
      return Bytes(n);
    }

    /** send() for the slot `k` until it is empty or the socket is full. */
    method FlushSlot(k: nat) returns (r: Sent)
      requires k < |slots| && slots[k].offset < |slots[k].data|
      modifies `slots, `history
      ensures |slots| == |old(slots)| && slots == old(slots)[k := slots[k]]
      ensures slots[k].fd == old(slots[k]).fd && slots[k].offset <= |slots[k].data|
      ensures r.Bytes? <==> slots[k].offset == |slots[k].data|
      ensures history.Wire(slots[k].fd) + Rest(slots[k]) == old(history.Wire(slots[k].fd) + Rest(slots[k]))
      ensures forall other | other != slots[k].fd :: history.Wire(other) == old(history.Wire(other))
      ensures history == old(history).(wire := history.wire)
    {
      hide Rest, Advanced;
      var fd := slots[k].fd;
      r := Again;
      while slots[k].offset < |slots[k].data|
        invariant |slots| == |old(slots)| && slots == old(slots)[k := slots[k]]
        invariant slots[k].fd == fd && slots[k].offset <= |slots[k].data|
        invariant history.Wire(fd) + Rest(slots[k]) == old(history.Wire(slots[k].fd) + Rest(slots[k]))
        invariant forall other | other != fd :: history.Wire(other) == old(history.Wire(other))
        invariant history == old(history).(wire := history.wire)
        decreases |slots[k].data| - slots[k].offset
      {
        var rest := Rest(slots[k]);
        ghost var before := history.Wire(fd);
        r := Write(fd, rest);
        if !r.Bytes? {
          return;
        }
        slots := slots[k := Advanced(slots[k], r.n)];
        Join(before, rest, r.n);
      }
      r := Bytes(0);
    }

    /** tcp_send_flush_pending: 0 = all sent, 1 = some left, -1 = error. */
    method Flush(fd: int) returns (rc: int)
      requires Valid()
      modifies this
      ensures Valid() && |slots| == |old(slots)|
      ensures rc == 0 || rc == 1 || (rc == -1 && fd >= 0)
      ensures history == old(history).(wire := history.wire, broken := history.broken)
      ensures history.broken == if rc == -1 then old(history.broken) + {fd} else old(history.broken)
      ensures rc != 1 && fd >= 0 ==> forall i | 0 <= i < |slots| :: slots[i].fd != fd
      ensures SlotsOk(old(slots)) && SlotsOk(slots) && OnlyOf(fd, old(slots), old(history), slots, history)
    {
      hide Stream, Unsent, Fit, Ordered, SlotsOk, Rest;
      OrderedAt(slots, history, fd);
      var k := Find(fd);
      if fd < 0 || k < 0 {
        return 0;
      }
      ghost var slots0, history0 := slots, history;
      UnsentOf(slots, k);
      LeftToSend(slots, k);
      var r := FlushSlot(k);
      if r.Again? {
        SlotChanged(slots0, slots, k);
        UnsentOf(slots, k);
        StillOrdered(fd, slots0, history0, slots, history);
        return 1;
      }
      if r.HardError? {
        history := history.Broke(fd);
      } else {
        EmptyRest(slots[k], history.Wire(fd));
      }
      slots := slots[k := Released(slots[k])];
      SlotReleased(slots0, slots, k);
      StillOrdered(fd, slots0, history0, slots, history);
      rc := if r.HardError? then -1 else 0;
    }

    /** net_tcp_send_frame_ex. A frame that is not accepted leaves the stream
        as it was, or the connection is broken. */
    method SendFrame(fd: int, data: Frame, memory: bool) returns (rc: int, accepted: bool)
      requires Valid()
      modifies this
      ensures Valid() && |slots| == |old(slots)|
      ensures accepted ==> fd >= 0 && |data| <= MAX_FRAME && rc >= 0
      ensures fd !in history.broken ==>
                history.frames == if accepted then old(history).Accepted(fd, data).frames else old(history.frames)
      ensures history.broken == old(history.broken) || (history.broken == old(history.broken) + {fd} && rc == -1)
      ensures SlotsOk(old(slots)) && SlotsOk(slots) && OnlyOf(fd, old(slots), old(history), slots, history)
    {
      hide Unsent, Ordered, OnlyOf;
      OrderedAt(slots, history, fd);
      accepted := false;
      if fd < 0 || |data| > MAX_FRAME {
        Unchanged(fd, slots, history);
        return -1, false;
      }
      ghost var slots0, history0 := slots, history;
      rc := Flush(fd);
      if rc != 0 {
        return;
      }
      var k := Acquire(memory);
      if k < 0 {
        return -1, false;
      }
      ghost var slots1, history1 := slots, history;
      Enqueue(k, fd, data);
      OnlyOfTrans(fd, slots0, history0, slots1, history1, slots, history);
      ghost var slots2, history2 := slots, history;
      rc := Flush(fd);
      OnlyOfTrans(fd, slots0, history0, slots2, history2, slots, history);
      accepted := rc >= 0;
    }

    lemma Unchanged(fd: int, s: seq<Pending>, h: History)
      requires SlotsOk(s)
      ensures OnlyOf(fd, s, h, s, h)
    {
    }

    /** The frame is built in the free slot `k`. */
    method Enqueue(k: nat, fd: int, data: Frame)
      requires Valid() && fd >= 0 && |data| <= MAX_FRAME
      requires k < |slots| && slots[k].fd == -1 && forall i | 0 <= i < |slots| :: slots[i].fd != fd
      modifies this
      ensures Valid() && |slots| == |old(slots)|
      ensures history == old(history).Accepted(fd, data)
      ensures SlotsOk(old(slots)) && SlotsOk(slots) && OnlyOf(fd, old(slots), old(history), slots, history)
    {
      hide Stream, Unsent, Framed, Ordered;
      ghost var slots0, history0 := slots, history;
      OrderedAt(slots, history, fd);
      UnsentNone(slots0, fd);
      FramedLength(data);
      slots := slots[k := Pending(fd, true, Framed(data), 0)];
      UnsentOf(slots, k);
      OthersKeep(slots0, slots, k, fd);
      history := history.Accepted(fd, data);
      if fd !in history.broken {
        assert history.Wire(fd) + [] == history.Wire(fd);
        StreamAppend(history0.Frames(fd), data);
        assert Rest(slots[k]) == Framed(data);
      }
      StillOrdered(fd, slots0, history0, slots, history);
    }

    /** net_tcp_close: nothing pending outlives the descriptor, whose number
        may then be a new connection's. */
    method Close(fd: int)
      requires Valid()
      modifies this
      ensures Valid() && |slots| == |old(slots)|
      ensures history == if fd < 0 then old(history) else old(history).Closed(fd)
      ensures fd >= 0 ==> Unsent(slots, fd) == []
      ensures SlotsOk(old(slots)) && SlotsOk(slots) && OnlyOf(fd, old(slots), old(history), slots, history)
    {
      hide Unsent, Ordered;
      OrderedAt(slots, history, fd);
      if fd < 0 {
        return;
      }
      var k := Find(fd);
      ghost var slots0, history0 := slots, history;
      if k >= 0 {
        slots := slots[k := Released(slots[k])];
        SlotReleased(slots0, slots, k);
      } else {
        UnsentNone(slots, fd);
      }
      history := history.Closed(fd);
      StillOrdered(fd, slots0, history0, slots, history);
    }
  }

  /* ---- receiving ---- */

  function Length(header: seq<Byte>): nat
    requires |header| >= 2
  {
    header[0] as int * 256 + header[1] as int
  }

  /** The beginning of a frame that is not all there. */
  predicate Incomplete(part: seq<Byte>) {
    |part| < 2 || |part| < 2 + Length(part)
  }

  /** One frame off the front of equal streams. */
  lemma SameFront(f: Frame, g: Frame, a: seq<Byte>, b: seq<Byte>)
    requires |f| <= 0xffff && |g| <= 0xffff && Framed(f) + a == Framed(g) + b
    ensures f == g && a == b
  {
    var s := Framed(f) + a;
    assert Length(s[..2]) == |f|;
    assert Length((Framed(g) + b)[..2]) == |g|;
    assert f == s[2..2 + |f|] == g;
    assert a == s[2 + |f|..] == b;
  }

  lemma StreamOfFirst(gs: seq<Frame>, tail: seq<Byte>)
    requires Fit(gs, 0xffff) && gs != []
    ensures Stream(gs) + tail == Framed(gs[0]) + (Stream(gs[1..]) + tail)
  {
  }

  lemma StreamIsComplete(fs: seq<Frame>)
    requires Fit(fs, 0xffff) && fs != []
    ensures !Incomplete(Stream(fs))
  {
    assert Length(Stream(fs)[..2]) == |fs[0]|;
  }

  /** However a stream is cut, whole frames `gs` and an incomplete one taken
      off its front are the first frames that were put in; and once all was
      taken, all of them. */
  lemma {:induction false} Decodes(fs: seq<Frame>, gs: seq<Frame>, part: seq<Byte>, more: seq<Byte>)
    requires Fit(fs, 0xffff) && Fit(gs, 0xffff) && Incomplete(part)
    requires Stream(gs) + (part + more) == Stream(fs)
    ensures gs <= fs
    ensures more == [] ==> gs == fs && part == []
    decreases |gs|
  {
    if gs == [] {
      if more == [] && fs != [] {
        assert part + more == part;
        assert Stream(gs) + part == part;
        StreamIsComplete(fs);
      }
    } else {
      StreamOfFirst(gs, part + more);
      if fs != [] {
        StreamOfFirst(fs, []);
        assert Stream(fs) + [] == Stream(fs);
        SameFront(gs[0], fs[0], Stream(gs[1..]) + (part + more), Stream(fs[1..]) + []);
        assert Stream(fs[1..]) + [] == Stream(fs[1..]);
        Decodes(fs[1..], gs[1..], part, more);
      }
    }
  }

  /** Between the frames of a stream, the next two bytes are the length of
      the next frame. */
  lemma {:induction false} NextLength(fs: seq<Frame>, gs: seq<Frame>, header: seq<Byte>, more: seq<Byte>)
    requires Fit(fs, 0xffff) && Fit(gs, 0xffff) && |header| == 2
    requires Stream(gs) + (header + more) == Stream(fs)
    ensures |gs| < |fs| && Length(header) == |fs[|gs|]|
    decreases |gs|
  {
    StreamOfFirst(fs, []);
    assert Stream(fs) + [] == Stream(fs);
    if gs == [] {
      assert Length(Stream(fs)[..2]) == |fs[0]|;
      assert (header + more)[..2] == header;
    } else {
      StreamOfFirst(gs, header + more);
      SameFront(gs[0], fs[0], Stream(gs[1..]) + (header + more), Stream(fs[1..]) + []);
      assert Stream(fs[1..]) + [] == Stream(fs[1..]);
      NextLength(fs[1..], gs[1..], header, more);
    }
  }

  datatype ReadResult = Data(bytes: seq<Byte>) | WouldBlock | Ended

  /** A connection's incoming bytes, handed out in arbitrary chunks; a `prompt`
      one hands out all it has. */
  class Socket {
    const prompt: bool
    var rest: seq<Byte>
    var ended: bool

    constructor (rest: seq<Byte>, prompt: bool)
      ensures this.rest == rest && !ended && this.prompt == prompt
    {
      this.rest, ended, this.prompt := rest, false, prompt;
    }

    method Read(k: nat) returns (r: ReadResult)
      requires k > 0
      modifies this
      ensures r.Data? ==> 1 <= |r.bytes| <= k && old(rest) == r.bytes + rest
      ensures !r.Data? ==> rest == old(rest)
      ensures r.Ended? ==> ended
      ensures prompt ==> ended == old(ended) && (r.WouldBlock? <==> old(rest) == []) && !r.Ended?
    {
      var choice: int := *;
      if prompt {
        choice := k;
      }
      if choice < 0 {
        ended := true;
        return Ended;
      }
      if choice == 0 || rest == [] {
        return WouldBlock;
      }
      var n := if choice < k then choice else k;
      if n > |rest| {
        n := |rest|;
      }
      r := Data(rest[..n]);
      rest := rest[n..];
    }
  }

  /** The state of a connection's partial frame (tcp_recv_state_t). The part
      of the body that was read lives in the caller's buffer; `body` is what
      was read, `frames` the frames completed before. */
  class Receiver {
    var header: seq<Byte>
    var headerDone: bool
    var bodyLen: nat
    var bodyHave: nat
    ghost var frames: seq<Frame>
    ghost var body: seq<Byte>

    /** All bytes read so far. */
    ghost function Consumed(): seq<Byte>
      requires Fit(frames, 0xffff)
      reads this
    {
      Stream(frames) + (header + body)
    }

    ghost predicate Reading()
      reads this
    {
      && Fit(frames, 0xffff)
      && |header| <= 2 && |body| == bodyHave
      && (headerDone ==> |header| == 2 && bodyLen == Length(header) && 0 < bodyLen && bodyHave <= bodyLen)
      && (!headerDone ==> bodyHave == 0)
    }

    ghost predicate Valid()
      reads this
    {
      Reading() && (headerDone ==> bodyHave < bodyLen)
    }

    /** A length was read that no frame for this buffer has: the error is
        final, as the state keeps it. */
    ghost predicate Rejected(size: nat)
      reads this
    {
      !headerDone && |header| == 2 && !(0 < Length(header) <= size)
    }

    /** The caller's buffer has the part of the body that was read. */
    ghost predicate Kept(buffer: array<Byte>)
      reads this, buffer
    {
      bodyHave <= buffer.Length && buffer[..bodyHave] == body
    }

    constructor ()
      ensures Valid() && frames == [] && Consumed() == [] && bodyHave == 0 && header == []
    {
      header, headerDone, bodyLen, bodyHave := [], false, 0, 0;
      frames, body := [], [];
    }

    /** The header phase. */
    method ReadHeader(sock: Socket) returns (r: ReadResult)
      requires Valid() && !headerDone
      modifies `header, sock
      ensures Valid()
      ensures old(Consumed()) + old(sock.rest) == Consumed() + sock.rest
      ensures r.Data? <==> |header| == 2
      ensures r.Ended? ==> sock.ended
      ensures sock.prompt ==> sock.ended == old(sock.ended) && !r.Ended? && (r.WouldBlock? ==> sock.rest == [])
    {
      while |header| < 2
        invariant Valid()
        invariant old(Consumed()) + old(sock.rest) == Consumed() + sock.rest
        invariant sock.prompt ==> sock.ended == old(sock.ended)
        decreases 2 - |header|
      {
        ghost var header0 := header;
        r := sock.Read(2 - |header|);
        if !r.Data? {
          return;
        }
        header := header + r.bytes;
        Moved(Stream(frames), header0, r.bytes, [], sock.rest);
      }
      r := Data([]);
    }

    /** The body phase. `have0` bytes of the body were read before. */
    method ReadBody(sock: Socket, buffer: array<Byte>) returns (r: ReadResult)
      requires Valid() && headerDone && bodyLen <= buffer.Length
      modifies `bodyHave, `body, sock, buffer
      ensures Reading() && (r.Data? <==> bodyHave == bodyLen)
      ensures old(Consumed()) + old(sock.rest) == Consumed() + sock.rest
      ensures old(bodyHave) <= bodyHave && old(body) <= body
      ensures buffer[..old(bodyHave)] == old(buffer[..bodyHave])
      ensures buffer[old(bodyHave)..bodyHave] == body[old(bodyHave)..]
      ensures r.Ended? ==> sock.ended
      ensures sock.prompt ==> sock.ended == old(sock.ended) && !r.Ended? && (r.WouldBlock? ==> sock.rest == [])
    {
      hide Stream, Consumed, Length, Fit;
      ghost var body0, was, all := body, buffer[..bodyHave], Consumed() + sock.rest;
      while bodyHave < bodyLen
        invariant Reading() && Grown(buffer, body0, was)
        invariant all == Consumed() + sock.rest
        invariant sock.prompt ==> sock.ended == old(sock.ended)
        decreases bodyLen - bodyHave
      {
        r := sock.Read(bodyLen - bodyHave);
        if !r.Data? {
          return;
        }
        TakeBody(buffer, body0, was, r.bytes, sock.rest);
      }
      r := Data([]);
    }

    /** Since the buffer began with `was` and the body was `body0`, the
        buffer has taken what the body has. */
    ghost predicate Grown(buffer: array<Byte>, body0: seq<Byte>, was: seq<Byte>)
      reads this, buffer
    {
      && |was| == |body0| <= bodyHave == |body| <= buffer.Length
      && body0 <= body && buffer[..|was|] == was
      && buffer[|was|..bodyHave] == body[|was|..]
    }

    method TakeBody(buffer: array<Byte>, ghost body0: seq<Byte>, ghost was: seq<Byte>, bytes: seq<Byte>,
                    ghost rest: seq<Byte>)
      requires Reading() && headerDone && bodyHave + |bytes| <= bodyLen <= buffer.Length
      requires Grown(buffer, body0, was)
      modifies `bodyHave, `body, buffer
      ensures Reading() && bodyHave == old(bodyHave) + |bytes| && Grown(buffer, body0, was)
      ensures Consumed() + rest == old(Consumed()) + (bytes + rest)
    {
      hide Stream;
      Store(buffer, bodyHave, bytes);
      MovedBody(Stream(frames), header, body, bytes, rest);
      assert buffer[..bodyHave][..|was|] == buffer[..|was|];
      assert buffer[|was|..bodyHave] == buffer[..bodyHave][|was|..];
      assert buffer[|was|..bodyHave + |bytes|] == buffer[|was|..bodyHave] + buffer[bodyHave..bodyHave + |bytes|];
      bodyHave := bodyHave + |bytes|;
      body := body + bytes;
    }

    /** net_tcp_recv_frame: 0 = a frame of `len` bytes is in the buffer, 1 =
        not yet, -1 = the connection ended or no frame can follow. The bytes
        in the buffer are the frame's exactly if the buffer had kept those of
        the earlier calls. */
    method Recv(sock: Socket, buffer: array<Byte>) returns (rc: int, len: nat)
      requires Valid() && (headerDone ==> bodyLen <= buffer.Length)
      modifies this, sock, buffer
      ensures Valid() && (headerDone ==> bodyLen <= buffer.Length)
      ensures old(Consumed()) + old(sock.rest) == Consumed() + sock.rest
      ensures rc == 0 || rc == 1 || rc == -1
      ensures rc == 0 ==> 0 < len <= buffer.Length && |frames| == |old(frames)| + 1
      ensures rc == 0 ==> frames[..|old(frames)|] == old(frames) && |frames[|old(frames)|]| == len
      ensures rc == 0 ==> (buffer[..len] == frames[|old(frames)|] <==> old(Kept(buffer)))
      ensures rc == 0 ==> header == [] && bodyHave == 0
      ensures rc != 0 ==> frames == old(frames) && (old(Kept(buffer)) ==> Kept(buffer))
      ensures rc == 1 ==> !Rejected(buffer.Length)
      ensures rc == -1 ==> sock.ended || Rejected(buffer.Length)
      ensures sock.prompt ==> sock.ended == old(sock.ended) && (rc == 1 ==> sock.rest == [])
    {
      hide Stream, Framed;
      len := 0;
      if !headerDone {
        var h := ReadHeader(sock);
        if !h.Data? {
          return if h.WouldBlock? then 1 else -1, 0;
        }
        var n := Length(header);
        if n == 0 || n > buffer.Length {
          return -1, 0;
        }
        headerDone, bodyLen := true, n;
      }
      ghost var have0, body0, was := bodyHave, body, buffer[..bodyHave];
      var r := ReadBody(sock, buffer);
      KeptIff(body0, body, was, buffer[..bodyHave]);
      if !r.Data? {
        return if r.WouldBlock? then 1 else -1, 0;
      }
      len := bodyLen;
      rc := 0;
      Complete();
    }

    /** The frame is complete, and the state as it was before its header. */
    method Complete()
      requires Reading() && headerDone && bodyHave == bodyLen
      modifies this
      ensures Valid() && header == [] && bodyHave == 0 && !headerDone
      ensures frames == old(frames) + [old(body)] && Consumed() == old(Consumed())
    {
      assert header + body == Framed(body);
      StreamAppend(frames, body);
      frames := frames + [body];
      header, headerDone, bodyLen, bodyHave, body := [], false, 0, 0, [];
    }

    /** read() into the buffer at `at`. */
    method Store(buffer: array<Byte>, at: nat, bytes: seq<Byte>)
      requires at + |bytes| <= buffer.Length
      modifies buffer
      ensures buffer[..at] == old(buffer[..at]) && buffer[at..at + |bytes|] == bytes
    {
      for i := 0 to |bytes|
        invariant buffer[..at] == old(buffer[..at]) && buffer[at..at + i] == bytes[..i]
      {
        buffer[at + i] := bytes[i];
      }
    }

    /** The frame of two bytes takes four. */
    lemma TakesFour()
      requires Valid() && frames <= [[7, 8]]
      ensures frames != [] ==> |Consumed()| >= 4
    {
      if frames != [] {
        assert frames == [[7, 8]];
        TwoByteFrame();
      }
    }

    lemma HasSeven()
      requires Valid() && frames == [] && Consumed() == [0, 2, 7]
      ensures headerDone && bodyLen == 2 && bodyHave == 1 && body == [7]
    {
      assert Stream(frames) == [];
      assert header + body == [0, 2, 7];
      assert |header| == 2;
      assert body == (header + body)[2..];
      assert header == (header + body)[..2];
    }

    /** What the receiver has taken off the bytes `sent` on a connection: the
        frames sent, in order and unchanged, and no other; all of them once
        all bytes were taken. Frames that fit its buffer are not rejected. */
    lemma FramesArrive(fs: seq<Frame>, more: seq<Byte>, size: nat)
      requires Valid() && Fit(fs, 0xffff) && forall i | 0 <= i < |fs| :: 0 < |fs[i]| <= size
      requires Consumed() + more == Stream(fs)
      ensures frames <= fs && !Rejected(size)
      ensures more == [] ==> frames == fs
    {
      assert Stream(frames) + (header + body) + more == Stream(frames) + ((header + body) + more);
      if !headerDone && |header| == 2 {
        assert (header + body) + more == header + more;
        NextLength(fs, frames, header, more);
        if Length(header) > 0 {
          Decodes(fs, frames, header, more);
        }
      } else {
        Decodes(fs, frames, header + body, more);
      }
    }
  }

  /** What the server's way of reading comes to when a frame arrives in two
      parts, each read into a buffer of its own: the frame that is handed on
      is not the one that was sent. */
  method TwoBuffers() returns (receiver: Receiver, second: array<Byte>)
    ensures receiver.frames == [[7, 8]] && second.Length == 2 && second[..] != [7, 8]
  {
    hide Stream, Framed;
    var first := new Byte[2][0, 0];
    second := new Byte[2][0, 0];
    receiver := new Receiver();
    var sock := new Socket([0, 2, 7], true);
    TwoByteFrame();
    var rc, len := receiver.Recv(sock, first);
    assert receiver.Consumed() + sock.rest == [0, 2, 7];
    assert receiver.Consumed() + (sock.rest + [8]) == [0, 2, 7] + [8];
    receiver.FramesArrive([[7, 8]], sock.rest + [8], 2);
    receiver.TakesFour();
    assert rc == 1 && sock.rest == [];
    receiver.HasSeven();
    assert second[..1] == [0];
    sock.rest := [8];
    rc, len := receiver.Recv(sock, second);
    assert receiver.Consumed() + sock.rest == [0, 2, 7] + [8];
    receiver.FramesArrive([[7, 8]], sock.rest, 2);
    assert rc == 0 && len == 2;
    assert second[..2] == second[..];
  }

  lemma TwoByteFrame()
    ensures Stream([[7, 8]]) == [0, 2, 7, 8]
  {
    assert Stream([[7, 8]]) == Framed([7, 8]) + Stream([]);
  }

  /** End to end: what is delivered is what was accepted, in order, as far as
      the bytes have come; nothing is lost while the connection holds. */
  lemma DeliveredIsAccepted(sender: Sender, fd: int, receiver: Receiver, inFlight: seq<Byte>)
    requires sender.Valid() && receiver.Valid() && fd >= 0 && fd !in sender.history.broken
    requires sender.history.Wire(fd) == receiver.Consumed() + inFlight
    requires forall f | f in sender.history.Frames(fd) :: f != []
    ensures receiver.frames <= sender.history.Frames(fd) && !receiver.Rejected(MAX_FRAME)
    ensures inFlight == [] && Unsent(sender.slots, fd) == [] ==> receiver.frames == sender.history.Frames(fd)
  {
    hide Stream, Unsent;
    var fs := sender.history.Frames(fd);
    var unsent := Unsent(sender.slots, fd);
    assert InOrder(sender.history.Wire(fd), unsent, fs);
    assert (receiver.Consumed() + inFlight) + unsent == receiver.Consumed() + (inFlight + unsent);
    forall i | 0 <= i < |fs|
      ensures 0 < |fs[i]| <= MAX_FRAME
    {
      assert fs[i] in fs;
    }
    receiver.FramesArrive(fs, inFlight + unsent, MAX_FRAME);
  }

  /** Two sequences that agree after their first parts agree throughout
      exactly if these do. */
  lemma KeptIff(body0: seq<Byte>, body: seq<Byte>, was: seq<Byte>, now: seq<Byte>)
    requires body0 <= body && was <= now && |was| == |body0| && |now| == |body|
    requires now[|was|..] == body[|body0|..]
    ensures now == body <==> was == body0
  {
    assert body == body0 + body[|body0|..];
    assert now == was + now[|was|..];
  }

  lemma Moved(a: seq<Byte>, b: seq<Byte>, c: seq<Byte>, d: seq<Byte>, e: seq<Byte>)
    requires d == []
    ensures a + ((b + c) + d) + e == a + (b + d) + (c + e)
  {
  }

  lemma MovedBody(a: seq<Byte>, h: seq<Byte>, b: seq<Byte>, c: seq<Byte>, e: seq<Byte>)
    ensures a + (h + (b + c)) + e == a + (h + b) + (c + e)
  {
  }
}
