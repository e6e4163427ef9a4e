/** The input buffer of BLAKE2b (monocypher.c), against section 3.3 of
    RFC 7693. The compression function and the initial hash are parameters.

    A buffer of sixteen 64-bit words is held as its 128 little-endian bytes:
    `input[word] |= (u64)b << (8 * byte)` is an OR into byte `8 * word + byte`. */
module Blake2b {
  import opened Codec

  const BLOCK: nat := 128

  type Word = w: nat | w < U64

  /** The eight words of the state. */
  type HashWords = h: seq<Word> | |h| == 8 witness [0, 0, 0, 0, 0, 0, 0, 0]

  /** hash, block, offset modulo 2^128, last block */
  type Compression = (HashWords, seq<bv8>, nat, bool) -> HashWords

  function Zeros(k: nat): (z: seq<bv8>)
    ensures |z| == k && forall i | 0 <= i < k :: z[i] == 0
  {
    seq(k, _ => 0)
  }

  /** A block, padded with zeros. */
  function Padded(b: seq<bv8>): (p: seq<bv8>)
    requires |b| <= BLOCK
    ensures |p| == BLOCK
  {
    b + Zeros(BLOCK - |b|)
  }

  function Offset(n: nat): nat { n % (U64 * U64) }

  /** The hash after the first `n` blocks of `m`, none of them the last. */
  function Chain(f: Compression, h0: HashWords, m: seq<bv8>, n: nat): HashWords
    requires n * BLOCK <= |m|
  {
    if n == 0 then h0
    else f(Chain(f, h0, m, n - 1), m[(n - 1) * BLOCK..n * BLOCK], Offset(n * BLOCK), false)
  }

  /** Blocks before the last one, which is never empty unless all is. */
  function Before(m: seq<bv8>): (n: nat)
    ensures n * BLOCK <= |m| <= n * BLOCK + BLOCK
  {
    if m == [] then 0 else (|m| - 1) / BLOCK
  }

  /** The hash of section 3.3 of RFC 7693; `m` starts with the key block if
      there is a key. */
  function Hash(f: Compression, h0: HashWords, m: seq<bv8>): HashWords {
    var n := Before(m);
    f(Chain(f, h0, m, n), Padded(m[n * BLOCK..]), Offset(|m|), true)
  }

  /** More input leaves the blocks already there alone. */
  lemma {:induction false} ChainPrefix(f: Compression, h0: HashWords, m: seq<bv8>, more: seq<bv8>, n: nat)
    requires n * BLOCK <= |m|
    ensures Chain(f, h0, m + more, n) == Chain(f, h0, m, n)
  {
    if n > 0 {
      ChainPrefix(f, h0, m, more, n - 1);
      assert (m + more)[(n - 1) * BLOCK..n * BLOCK] == m[(n - 1) * BLOCK..n * BLOCK];
    }
  }

  /** Words as bytes, each lowest byte first. */
  function LeWords(ws: seq<Word>): (s: seq<Byte>)
    ensures |s| == 8 * |ws|
  {
    if ws == [] then [] else LeWords(ws[..|ws| - 1]) + LeBytes(ws[|ws| - 1], 8)
  }

  lemma {:induction false} LeBytesAt(v: nat, k: nat, j: nat)
    requires j < k
    ensures LeBytes(v, k)[j] == Low(Shifted(v, j))
  {
    if j < k - 1 {
      LeBytesAt(v, k - 1, j);
    }
  }

  lemma {:induction false} LeWordsAt(ws: seq<Word>, i: nat)
    requires i < 8 * |ws|
    ensures LeWords(ws)[i] == Low(Shifted(ws[i / 8], i % 8))
  {
    if i / 8 == |ws| - 1 {
      LeBytesAt(ws[|ws| - 1], 8, i % 8);
    } else {
      LeWordsAt(ws[..|ws| - 1], i);
    }
  }

  /** The digest of `size` bytes (at most 64) of section 3.3 of RFC 7693: the
      first ones of the state's words. */
  function Digest(h: HashWords, size: nat): (s: seq<Byte>)
    ensures |s| == if size < 64 then size else 64
  {
    LeWords(h)[..if size < 64 then size else 64]
  }

  class Context {
    const f: Compression
    const h0: HashWords
    const hashSize: nat
    var hash: HashWords
    var x0: nat      // input_offset, low and high word
    var x1: nat
    const input: array<bv8>
    var inputIdx: nat
    ghost var msg: seq<bv8>
    ghost var blocks: nat   // compressed so far

    /** All but the last `inputIdx` bytes are compressed, and at least one
        byte is kept back once there is one. */
    ghost predicate Valid()
      reads this, input
    {
      && Holding()
      && (if msg == [] then ZerosFrom(0) else inputIdx > 0)
    }

    ghost predicate ZerosFrom(k: nat)
      requires input.Length == BLOCK
      reads input
    {
      forall i | k <= i < BLOCK :: input[i] == 0
    }

    ghost predicate Holding()
      reads this, input
    {
      && input.Length == BLOCK && inputIdx <= BLOCK && |msg| == blocks * BLOCK + inputIdx
      && input[..inputIdx] == msg[blocks * BLOCK..]
      && (inputIdx > 0 ==> ZerosFrom(inputIdx))
      && hash == Chain(f, h0, msg, blocks)
      && x0 < U64 && x1 < U64 && x1 * U64 + x0 == Offset(blocks * BLOCK)
    }

    /** crypto_blake2b_keyed_init: a key is a first block, padded. */
    constructor (f: Compression, h0: HashWords, hashSize: nat, key: seq<bv8>)
      requires |key| <= BLOCK
      ensures Valid() && fresh(input) && this.f == f && this.h0 == h0 && this.hashSize == hashSize
      ensures msg == if key == [] then [] else Padded(key)
    {
      hide Offset;
      this.f, this.h0, this.hashSize, hash := f, h0, hashSize, h0;
      x0, x1 := 0, 0;
      var block := Padded(key);
      input := new bv8[BLOCK](i requires 0 <= i < BLOCK => block[i]);
      inputIdx := if |key| > 0 then BLOCK else 0;
      msg, blocks := if key == [] then [] else block, 0;
      new;
      OffsetZero();
      assert input[..] == block;
      assert input[..BLOCK] == input[..];
    }

    /** The offset of blake2b_compress: a 128-bit counter of two words. */
    method AddOffset(y: nat)
      requires y <= BLOCK && x0 < U64 && x1 < U64
      modifies `x0, `x1
      ensures x0 < U64 && x1 < U64
      ensures x1 * U64 + x0 == Offset(old(x1) * U64 + old(x0) + y)
    {
      ghost var total := x1 * U64 + x0 + y;
      x0 := (x0 + y) % U64;
      if x0 < y {
        x1 := (x1 + 1) % U64;
      }
    }

    /** blake2b_compress of a full block that is not the last, and an empty
        buffer after it. */
    method Flush()
      requires Holding() && inputIdx == BLOCK
      modifies this
      ensures Holding() && inputIdx == 0 && msg == old(msg)
    {
      hide Offset;
      AddOffset(BLOCK);
      OffsetAdds(blocks * BLOCK, BLOCK);
      assert input[..] == input[..BLOCK] == msg[blocks * BLOCK..(blocks + 1) * BLOCK];
      hash := f(hash, input[..], x1 * U64 + x0, false);
      inputIdx := 0;
      blocks := blocks + 1;
    }

    /** Bytes go into the buffer one by one, up to its end. */
    method OrBytes(bytes: seq<bv8>)
      requires Holding() && inputIdx + |bytes| <= BLOCK
      requires ZerosFrom(inputIdx)
      modifies this, input
      ensures Holding() && msg == old(msg) + bytes && inputIdx == old(inputIdx) + |bytes|
      ensures ZerosFrom(inputIdx)
    {
      hide Offset;
      hide Chain;
      ghost var m0, start := msg, inputIdx;
      for i := 0 to |bytes|
        invariant inputIdx == start + i && blocks == old(blocks) && msg == m0
        invariant unchanged(`hash) && unchanged(`x0) && unchanged(`x1)
        invariant input[..inputIdx] == old(input[..inputIdx]) + bytes[..i]
        invariant forall j | inputIdx <= j < BLOCK :: input[j] == 0
      {
        var b := bytes[i];
        OrZero(b);
        input[inputIdx] := input[inputIdx] | b;
        inputIdx := inputIdx + 1;
      }
      msg := m0 + bytes;
      ChainPrefix(f, h0, m0, bytes, blocks);
      assert msg[blocks * BLOCK..] == m0[blocks * BLOCK..] + bytes;
    }

    /** Whole words go into the buffer at once (load64_le_buf). */
    method LoadWords(bytes: seq<bv8>)
      requires Holding() && inputIdx + |bytes| <= BLOCK && |bytes| % 8 == 0 && (bytes != [] ==> inputIdx % 8 == 0)
      requires ZerosFrom(inputIdx)
      modifies this, input
      ensures Holding() && msg == old(msg) + bytes && inputIdx == old(inputIdx) + |bytes|
      ensures ZerosFrom(inputIdx)
    {
      hide Offset;
      hide Chain;
      ghost var m0 := msg;
      forall i | inputIdx <= i < inputIdx + |bytes| {
        input[i] := bytes[i - inputIdx];
      }
      inputIdx := inputIdx + |bytes|;
      assert input[..inputIdx] == old(input[..inputIdx]) + bytes;
      msg := m0 + bytes;
      ChainPrefix(f, h0, m0, bytes, blocks);
      assert msg[blocks * BLOCK..] == m0[blocks * BLOCK..] + bytes;
    }

    /** A whole block into an empty buffer. */
    method LoadBlock(block: seq<bv8>)
      requires Holding() && inputIdx == 0 && |block| == BLOCK
      modifies this, input
      ensures Holding() && msg == old(msg) + block && inputIdx == BLOCK
    {
      forall i | 0 <= i < BLOCK {
        input[i] := block[i];
      }
      inputIdx := BLOCK;
      assert input[..BLOCK] == block;
      ChainPrefix(f, h0, msg, block, blocks);
      msg := msg + block;
    }

    method ClearInput()
      requires Holding() && inputIdx == 0
      modifies input
      ensures Holding() && ZerosFrom(0)
    {
      forall i | 0 <= i < BLOCK {
        input[i] := 0;
      }
    }

    /** crypto_blake2b_update: first up to a word boundary, */
    method AlignWord(message: seq<bv8>) returns (rest: seq<bv8>)
      requires Valid()
      modifies this, input
      ensures Valid() && msg + rest == old(msg) + message
      ensures inputIdx % 8 == 0 || rest == []
    {
      hide Offset;
      hide Chain;
      rest := message;
      if inputIdx % 8 != 0 {
        var gap := 8 - inputIdx % 8;
        var n := if gap < |message| then gap else |message|;
        OrBytes(message[..n]);
        rest := message[n..];
        assert message[..n] + rest == message;
      }
    }

    /** then up to a block boundary, as whole words go, */
    method AlignBlock(message: seq<bv8>) returns (rest: seq<bv8>)
      requires Valid() && (inputIdx % 8 == 0 || message == [])
      modifies this, input
      ensures Valid() && msg + rest == old(msg) + message
      ensures inputIdx == 0 || inputIdx == BLOCK || |rest| < 8
      ensures inputIdx % 8 == 0 || rest == []
    {
      hide WordsToBlockEnd;
      hide Offset;
      hide Chain;
      rest := message;
      if inputIdx % BLOCK != 0 {
        var n := WordsToBlockEnd(inputIdx, |message|);
        LoadWords(message[..n]);
        rest := message[n..];
        assert message[..n] + rest == message;
      }
    }

    /** then whole blocks, */
    method Blocks(data: seq<bv8>)
      requires Valid() && |data| % BLOCK == 0 && (inputIdx == 0 || inputIdx == BLOCK || data == [])
      modifies this, input
      ensures Valid() && msg == old(msg) + data
      ensures inputIdx == if data == [] then old(inputIdx) else BLOCK
    {
      hide Offset;
      hide Chain;
      ghost var m0 := msg;
      assert m0 + data[..0] == m0;
      for i := 0 to |data| / BLOCK
        invariant Valid() && msg == m0 + data[..i * BLOCK]
        invariant inputIdx == if i == 0 then old(inputIdx) else BLOCK
      {
        if inputIdx == BLOCK {
          Flush();
        }
        LoadBlock(data[i * BLOCK..(i + 1) * BLOCK]);
        assert data[..(i + 1) * BLOCK] == data[..i * BLOCK] + data[i * BLOCK..(i + 1) * BLOCK];
      }
      assert data[..|data|] == data;
    }

    lemma HoldingFacts()
      requires Holding()
      ensures input.Length == BLOCK && inputIdx <= BLOCK && (inputIdx > 0 ==> ZerosFrom(inputIdx))
    {
    }

    /** and last what is left of them, less than a block. */
    method Rest(tail: seq<bv8>)
      requires Valid() && |tail| < BLOCK && (inputIdx == 0 || inputIdx == BLOCK || |tail| < 8)
      requires inputIdx % 8 == 0 || tail == []
      requires inputIdx % BLOCK + |tail| <= BLOCK
      modifies this, input
      ensures Valid() && msg == old(msg) + tail
    {
      hide Holding;
      hide Offset;
      hide Chain;
      if |tail| != 0 {
        HoldingFacts();
        if inputIdx == BLOCK {
          Flush();
        }
        if inputIdx == 0 {
          ClearInput();
        }
        // the words go to the front of the buffer: there are none otherwise
        var n := |tail| / 8 * 8;
        assert n > 0 ==> inputIdx == 0;
        LoadWords(tail[..n]);
        OrBytes(tail[n..]);
        assert tail == tail[..n] + tail[n..];
      } else {
        assert msg + tail == msg;
      }
    }

    /** crypto_blake2b_update */
    method Update(message: seq<bv8>)
      requires Valid()
      modifies this, input
      ensures Valid() && msg == old(msg) + message
    {
      hide Holding;
      if |message| == 0 {
        assert msg + message == msg;
        return;
      }
      var rest := AlignWord(message);
      rest := AlignBlock(rest);
      var n := |rest| / BLOCK * BLOCK;
      assert rest == rest[..n] + rest[n..];
      Blocks(rest[..n]);
      Rest(rest[n..]);
    }

    /** crypto_blake2b_final: the digest of the whole message. */
    method Final(out: array<Byte>)
      requires Valid() && out.Length >= |Digest(hash, hashSize)|
      modifies this, out
      ensures var size := |Digest(hash, hashSize)|;
              out[..size] == Digest(Hash(f, h0, old(msg)), hashSize) && out[size..] == old(out[size..])
    {
      hide Offset;
      hide Chain;
      AddOffset(inputIdx);
      OffsetAdds(blocks * BLOCK, inputIdx);
      assert blocks == Before(msg);
      assert input[..] == Padded(msg[blocks * BLOCK..]);
      hash := f(hash, input[..], x1 * U64 + x0, true);
      Store(hash, hashSize, out);
    }
  }

  /** The first bytes of the words: whole words, then the rest of the next. */
  method Store(h: HashWords, hashSize: nat, out: array<Byte>)
    requires out.Length >= |Digest(h, hashSize)|
    modifies out
    ensures var size := |Digest(h, hashSize)|;
            out[..size] == Digest(h, hashSize) && out[size..] == old(out[size..])
  {
    hide Shifted;
    var size := if hashSize < 64 then hashSize else 64;
    var words := size / 8;
    for i := 0 to words
      invariant forall j | 0 <= j < 8 * i :: out[j] == LeWords(h)[j]
      invariant forall j | 8 * i <= j < out.Length :: out[j] == old(out[j])
    {
      var bytes := WriteLe64(h[i]);
      forall j | 8 * i <= j < 8 * i + 8 {
        out[j] := bytes[j - 8 * i];
      }
      forall j | 8 * i <= j < 8 * i + 8
        ensures out[j] == LeWords(h)[j]
      {
        LeBytesAt(h[i], 8, j - 8 * i);
        LeWordsAt(h, j);
      }
    }
    for i := 8 * words to size
      invariant forall j | 0 <= j < i :: out[j] == LeWords(h)[j]
      invariant forall j | i <= j < out.Length :: out[j] == old(out[j])
    {
      LeWordsAt(h, i);
      out[i] := Low(Shifted(h[i / 8], i % 8));
    }
  }

  /** The digest of a message does not depend on how it is split over updates. */
  method HashParts(f: Compression, h0: HashWords, hashSize: nat, key: seq<bv8>, parts: seq<seq<bv8>>)
    returns (digest: seq<Byte>)
    requires |key| <= BLOCK
    ensures digest == Digest(Hash(f, h0, (if key == [] then [] else Padded(key)) + Joined(parts)), hashSize)
  {
    hide Hash;
    hide Padded;
    hide Context.Valid;
    var ctx := new Context(f, h0, hashSize, key);
    ghost var m0 := ctx.msg;
    for i := 0 to |parts|
      invariant ctx.Valid() && fresh(ctx) && fresh(ctx.input) && ctx.f == f && ctx.h0 == h0 && ctx.hashSize == hashSize
      invariant ctx.msg == m0 + Joined(parts[..i])
    {
      assert parts[..i + 1][..i] == parts[..i];
      ctx.Update(parts[i]);
    }
    assert parts[..|parts|] == parts;
    var out := new Byte[if hashSize < 64 then hashSize else 64];
    ctx.Final(out);
    digest := out[..];
  }

  function Joined(parts: seq<seq<bv8>>): seq<bv8> {
    if parts == [] then [] else Joined(parts[..|parts| - 1]) + parts[|parts| - 1]
  }

  /** The bytes that go in as whole words up to the end of the block. */
  function WordsToBlockEnd(idx: nat, len: nat): (n: nat)
    requires 0 < idx < BLOCK && (idx % 8 == 0 || len == 0)
    ensures n <= len && n % 8 == 0 && idx + n <= BLOCK
    ensures (idx + n) % 8 == 0 || len == 0
    ensures idx + n == BLOCK || len - n < 8
  {
    var gap := BLOCK - idx % BLOCK;
    (if gap < len then gap else len) / 8 * 8
  }

  lemma OffsetZero()
    ensures Offset(0) == 0
  {
  }

  lemma OffsetAdds(a: nat, b: nat)
    ensures Offset(Offset(a) + b) == Offset(a + b)
  {
  }

  lemma OrZero(b: bv8)
    ensures 0 | b == b
  {
  }
}
