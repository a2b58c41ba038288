/** SHA-256 over whole byte strings. */
module Sha256 {
  import opened Prelude
  import opened LittleEndian
  import opened Sha256Words

  // The functions say what FIPS 180-4 asks for: the padding of section 5.1.1, the schedule and the rounds of
  // section 6.2.2, the fold over the blocks. The methods below them work in place, as the source does, and are
  // proved to compute that. Nothing in the proofs depends on what the word operations do, so they are a
  // parameter; `SHA256_WORDS` gives them on 32-bit words.

  const BLOCK := 64

  // ---------- big-endian words ----------

  function EncBig(v: nat, n: nat): (b: Bytes)
    ensures |b| == n
  {
    if n == 0 then [] else EncBig(v / 0x100, n - 1) + [v % 0x100]
  }

  function DecBig(b: Bytes): (v: nat)
    ensures v < LittleLimit(|b|)
  {
    if |b| == 0 then 0 else 0x100 * DecBig(b[..|b| - 1]) + b[|b| - 1]
  }

  lemma {:induction false} BigBack(v: nat, n: nat)
    requires v < LittleLimit(n)
    ensures DecBig(EncBig(v, n)) == v
  {
    if n > 0 {
      assert EncBig(v, n)[..n - 1] == EncBig(v / 0x100, n - 1);
      BigBack(v / 0x100, n - 1);
    }
  }

  // ---------- padding ----------

  /** The whole bytes of zeros between the marker byte and the length. */
  function PadZeros(n: nat): nat {
    (119 - n % BLOCK) % BLOCK
  }

  /** Section 5.1.1 for a message of whole bytes: a one bit, zero bits, the length in bits. */
  function Pad(data: Bytes): (p: Bytes)
    ensures |p| == |data| + 9 + PadZeros(|data|) && |p| % BLOCK == 0
  {
    data + ([0x80] + Zeros(PadZeros(|data|)) + EncBig(8 * |data|, 8))
  }

  lemma PadEndsBlock(n: nat)
    ensures 8 * n + 8 + 8 * PadZeros(n) == 512 * ((n + 8) / 64) + 448
  {
  }

  /** The zero bits after the one bit bring the length to 448 modulo 512, and are as few as can. */
  lemma FewestZeroBits(n: nat, k: nat)
    ensures (8 * n + 1 + (7 + 8 * PadZeros(n))) % 512 == 448
    ensures (8 * n + 1 + k) % 512 == 448 ==> k >= 7 + 8 * PadZeros(n)
  {
    PadEndsBlock(n);
    LastBits(8 * n + 1 + k, (n + 8) / 64);
  }

  /** Below 512 q + 448 the next smaller number of that form is 512 less. */
  lemma LastBits(bits: nat, q: nat)
    ensures (512 * q + 448) % 512 == 448
    ensures bits % 512 == 448 && bits < 512 * q + 448 ==> bits <= 512 * q - 64
  {
  }

  /** Different messages never pad to the same blocks. */
  lemma PadInjective(x: Bytes, y: Bytes)
    requires 8 * |x| <= UINT64_MAX && 8 * |y| <= UINT64_MAX && Pad(x) == Pad(y)
    ensures x == y
  {
    WordLimits();
    LengthAtEnd(x);
    LengthAtEnd(y);
    assert |x| == |y|;
    assert Pad(x)[..|x|] == x && Pad(y)[..|y|] == y;
  }

  lemma LengthAtEnd(data: Bytes)
    requires 8 * |data| <= UINT64_MAX
    ensures DecBig(Pad(data)[|Pad(data)| - 8..]) == 8 * |data|
  {
    WordLimits();
    BigBack(8 * |data|, 8);
    assert Pad(data)[|Pad(data)| - 8..] == EncBig(8 * |data|, 8);
  }

  // ---------- the word operations ----------

  /** The operations of sections 4.1.2 and 3.2 and the constants of section 4.2.2, on some type of words. */
  datatype Words<!W> = Words(
    of: (byte, byte, byte, byte) -> W,
    value: W -> nat,
    add: (W, W) -> W,
    smallSigma0: W -> W,
    smallSigma1: W -> W,
    bigSigma0: W -> W,
    bigSigma1: W -> W,
    ch: (W, W, W) -> W,
    maj: (W, W, W) -> W,
    k: nat -> W)

  /** Section 4.2.2, in rows of eight. */
  const K_ROWS: seq<seq<bv32>> := [
    [0x428a2f98, 0x71374491, 0xb5c0fbcf, 0xe9b5dba5, 0x3956c25b, 0x59f111f1, 0x923f82a4, 0xab1c5ed5],
    [0xd807aa98, 0x12835b01, 0x243185be, 0x550c7dc3, 0x72be5d74, 0x80deb1fe, 0x9bdc06a7, 0xc19bf174],
    [0xe49b69c1, 0xefbe4786, 0x0fc19dc6, 0x240ca1cc, 0x2de92c6f, 0x4a7484aa, 0x5cb0a9dc, 0x76f988da],
    [0x983e5152, 0xa831c66d, 0xb00327c8, 0xbf597fc7, 0xc6e00bf3, 0xd5a79147, 0x06ca6351, 0x14292967],
    [0x27b70a85, 0x2e1b2138, 0x4d2c6dfc, 0x53380d13, 0x650a7354, 0x766a0abb, 0x81c2c92e, 0x92722c85],
    [0xa2bfe8a1, 0xa81a664b, 0xc24b8b70, 0xc76c51a3, 0xd192e819, 0xd6990624, 0xf40e3585, 0x106aa070],
    [0x19a4c116, 0x1e376c08, 0x2748774c, 0x34b0bcb5, 0x391c0cb3, 0x4ed8aa4a, 0x5b9cca4f, 0x682e6ff3],
    [0x748f82ee, 0x78a5636f, 0x84c87814, 0x8cc70208, 0x90befffa, 0xa4506ceb, 0xbef9a3f7, 0xc67178f2]]

  function K(t: nat): bv32
    requires t < 64
  {
    K_ROWS[t / 8][t % 8]
  }

  /** Four bytes, the most significant first. */
  function FromBytes(a: byte, b: byte, c: byte, d: byte): bv32 {
    (a as bv32 << 24) | (b as bv32 << 16) | (c as bv32 << 8) | d as bv32
  }

  const SHA256_WORDS: Words<bv32> := Words(
    FromBytes, x => x as nat, Plus, SmallSigma0, SmallSigma1, BigSigma0, BigSigma1, Ch, Maj,
    t => if t < 64 then K(t) else 0)

  /** Section 5.3.3. */
  const INITIAL: Hash<bv32> := Hash(0x6a09e667, 0xbb67ae85, 0x3c6ef372, 0xa54ff53a, 0x510e527f, 0x9b05688c, 0x1f83d9ab, 0x5be0cd19)

  // ---------- compression ----------

  /** Eight words: the hash value, and the working variables a to h. */
  datatype Hash<W> = Hash(a: W, b: W, c: W, d: W, e: W, f: W, g: W, h: W)

  type Block = b: Bytes | |b| == BLOCK witness Zeros(BLOCK)

  /** The message schedule. */
  function Schedule<W>(ops: Words<W>, block: Block, t: nat): W {
    if t < 16 then ops.of(block[4 * t], block[4 * t + 1], block[4 * t + 2], block[4 * t + 3])
    else
      ops.add(ops.add(ops.add(Schedule(ops, block, t - 16), ops.smallSigma0(Schedule(ops, block, t - 15))), Schedule(ops, block, t - 7)),
              ops.smallSigma1(Schedule(ops, block, t - 2)))
  }

  function Round<W>(ops: Words<W>, r: Hash<W>, k: W, w: W): Hash<W> {
    var t1 := ops.add(ops.add(ops.add(ops.add(r.h, ops.bigSigma1(r.e)), ops.ch(r.e, r.f, r.g)), k), w);
    var t2 := ops.add(ops.bigSigma0(r.a), ops.maj(r.a, r.b, r.c));
    Hash(ops.add(t1, t2), r.a, r.b, r.c, ops.add(r.d, t1), r.e, r.f, r.g)
  }

  function Rounds<W>(ops: Words<W>, r: Hash<W>, block: Block, t: nat): Hash<W> {
    if t == 0 then r else Round(ops, Rounds(ops, r, block, t - 1), ops.k(t - 1), Schedule(ops, block, t - 1))
  }

  function AddHash<W>(ops: Words<W>, h: Hash<W>, r: Hash<W>): Hash<W> {
    Hash(ops.add(h.a, r.a), ops.add(h.b, r.b), ops.add(h.c, r.c), ops.add(h.d, r.d),
         ops.add(h.e, r.e), ops.add(h.f, r.f), ops.add(h.g, r.g), ops.add(h.h, r.h))
  }

  function CompressBlock<W>(ops: Words<W>, h: Hash<W>, block: Block): Hash<W> {
    AddHash(ops, h, Rounds(ops, h, block, 64))
  }

  /** The blocks of a padded message one after the other; nothing is left over of such a message. */
  function Fold<W>(ops: Words<W>, h: Hash<W>, b: Bytes): Hash<W>
    decreases |b|
  {
    if |b| < BLOCK then h else Fold(ops, CompressBlock(ops, h, b[..BLOCK]), b[BLOCK..])
  }

  lemma {:induction false} FoldConcat<W>(ops: Words<W>, h: Hash<W>, a: Bytes, b: Bytes)
    requires |a| % BLOCK == 0
    ensures Fold(ops, h, a + b) == Fold(ops, Fold(ops, h, a), b)
    decreases |a|
  {
    if |a| == 0 {
      assert a + b == b;
    } else {
      assert (a + b)[..BLOCK] == a[..BLOCK] && (a + b)[BLOCK..] == a[BLOCK..] + b;
      FoldConcat(ops, CompressBlock(ops, h, a[..BLOCK]), a[BLOCK..], b);
    }
  }

  lemma FoldOne<W>(ops: Words<W>, h: Hash<W>, block: Block)
    ensures Fold(ops, h, block) == CompressBlock(ops, h, block)
  {
    assert block[..BLOCK] == block && block[BLOCK..] == [];
  }

  lemma FoldSnoc<W>(ops: Words<W>, h: Hash<W>, a: Bytes, block: Block)
    requires |a| % BLOCK == 0
    ensures Fold(ops, h, a + block) == CompressBlock(ops, Fold(ops, h, a), block)
  {
    FoldConcat(ops, h, a, block);
    FoldOne(ops, Fold(ops, h, a), block);
  }

  lemma FoldNext<W>(ops: Words<W>, h: Hash<W>, data: Bytes, off: nat, block: Block)
    requires off % BLOCK == 0 && off + BLOCK <= |data| && data[off..off + BLOCK] == block
    ensures Fold(ops, h, data[..off + BLOCK]) == CompressBlock(ops, Fold(ops, h, data[..off]), block)
  {
    NextSlice(data, off);
    FoldSnoc(ops, h, data[..off], block);
  }

  lemma NextMultiple(off: nat)
    requires off % BLOCK == 0
    ensures (off + BLOCK) % BLOCK == 0
  {
  }

  lemma NextSlice(data: Bytes, off: nat)
    requires off + BLOCK <= |data|
    ensures data[..off + BLOCK] == data[..off] + data[off..off + BLOCK]
  {
  }

  function EncHash<W>(ops: Words<W>, h: Hash<W>): (b: Bytes)
    ensures |b| == 32
  {
    EncBig(ops.value(h.a), 4) + EncBig(ops.value(h.b), 4) + EncBig(ops.value(h.c), 4) + EncBig(ops.value(h.d), 4) +
    EncBig(ops.value(h.e), 4) + EncBig(ops.value(h.f), 4) + EncBig(ops.value(h.g), 4) + EncBig(ops.value(h.h), 4)
  }

  /** The whole standard: pad, fold the blocks into the initial hash, write the words out. */
  function DigestWith<W>(ops: Words<W>, initial: Hash<W>, data: Bytes): Bytes {
    EncHash(ops, Fold(ops, initial, Pad(data)))
  }

  // ---------- in place ----------

  function HashOf<W>(h: seq<W>): Hash<W>
    requires |h| == 8
  {
    Hash(h[0], h[1], h[2], h[3], h[4], h[5], h[6], h[7])
  }

  method FillSchedule<W>(ops: Words<W>, w: array<W>, block: Block)
    requires w.Length == 64
    modifies w
    ensures forall i :: 0 <= i < 64 ==> w[i] == Schedule(ops, block, i)
  {
    for t := 0 to 16
      invariant forall i :: 0 <= i < t ==> w[i] == Schedule(ops, block, i)
    {
      w[t] := ops.of(block[4 * t], block[4 * t + 1], block[4 * t + 2], block[4 * t + 3]);
    }
    for t := 16 to 64
      invariant forall i :: 0 <= i < t ==> w[i] == Schedule(ops, block, i)
    {
      var s0 := ops.smallSigma0(w[t - 15]);
      var s1 := ops.smallSigma1(w[t - 2]);
      w[t] := ops.add(ops.add(ops.add(w[t - 16], s0), w[t - 7]), s1);
    }
  }

  method RunRounds<W>(ops: Words<W>, w: array<W>, block: Block, start: Hash<W>) returns (r: Hash<W>)
    requires w.Length == 64 && forall i :: 0 <= i < 64 ==> w[i] == Schedule(ops, block, i)
    ensures r == Rounds(ops, start, block, 64)
  {
    var a, b, c, d, e, f, g, h := start.a, start.b, start.c, start.d, start.e, start.f, start.g, start.h;
    for t := 0 to 64
      invariant Hash(a, b, c, d, e, f, g, h) == Rounds(ops, start, block, t)
    {
      var t1 := ops.add(ops.add(ops.add(ops.add(h, ops.bigSigma1(e)), ops.ch(e, f, g)), ops.k(t)), w[t]);
      var t2 := ops.add(ops.bigSigma0(a), ops.maj(a, b, c));
      h := g;
      g := f;
      f := e;
      e := ops.add(d, t1);
      d := c;
      c := b;
      b := a;
      a := ops.add(t1, t2);
    }
    r := Hash(a, b, c, d, e, f, g, h);
  }

  /** The schedule and the rounds of one block, added into the hash. */
  method Compress<W(0)>(ops: Words<W>, h: array<W>, block: Block)
    requires h.Length == 8
    modifies h
    ensures HashOf(h[..]) == CompressBlock(ops, old(HashOf(h[..])), block)
  {
    var w := new W[64];
    FillSchedule(ops, w, block);
    var r := RunRounds(ops, w, block, HashOf(h[..]));
    AddInto(ops, h, r);
  }

  method AddInto<W>(ops: Words<W>, h: array<W>, r: Hash<W>)
    requires h.Length == 8
    modifies h
    ensures HashOf(h[..]) == AddHash(ops, old(HashOf(h[..])), r)
  {
    h[0] := ops.add(h[0], r.a);
    h[1] := ops.add(h[1], r.b);
    h[2] := ops.add(h[2], r.c);
    h[3] := ops.add(h[3], r.d);
    h[4] := ops.add(h[4], r.e);
    h[5] := ops.add(h[5], r.f);
    h[6] := ops.add(h[6], r.g);
    h[7] := ops.add(h[7], r.h);
  }

  method CopyRest(tail: array<byte>, rest: Bytes)
    requires |rest| <= tail.Length && forall j :: 0 <= j < tail.Length ==> tail[j] == 0
    modifies tail
    ensures tail[..] == rest + Zeros(tail.Length - |rest|)
  {
    for i := 0 to |rest|
      invariant tail[..i] == rest[..i] && forall j :: i <= j < tail.Length ==> tail[j] == 0
    {
      tail[i] := rest[i];
    }
  }

  /** The eight bytes before `end`, from the last to the first. */
  method WriteLength(tail: array<byte>, end: nat, bitLength: uint64)
    requires 8 <= end <= tail.Length
    modifies tail
    ensures tail[..end - 8] == old(tail[..end - 8]) && tail[end - 8..end] == EncBig(bitLength, 8)
  {
    var left := bitLength;
    for i := 0 to 8
      invariant left >= 0 && tail[..end - 8] == old(tail[..end - 8])
      invariant EncBig(bitLength, 8) == EncBig(left, 8 - i) + tail[end - i..end]
    {
      ghost var before := tail[end - i..end];
      tail[end - 1 - i] := left % 0x100;
      assert tail[end - 1 - i..end] == [left % 0x100] + before;
      left := left / 0x100;
    }
  }

  lemma ZerosOfRest(n: nat, blocks: nat, rest: nat)
    requires n == BLOCK * blocks + rest && rest < BLOCK
    ensures PadZeros(n) == if rest <= 55 then 55 - rest else 119 - rest
  {
    assert n % BLOCK == rest;
  }

  lemma TailClosesMessage(data: Bytes, off: nat, tail: Bytes)
    requires off <= |data| && tail == data[off..] + ([0x80] + Zeros(PadZeros(|data|)) + EncBig(8 * |data|, 8))
    ensures data[..off] + tail == Pad(data)
  {
    SplitJoin(data, off, [0x80] + Zeros(PadZeros(|data|)) + EncBig(8 * |data|, 8));
  }

  lemma SplitJoin(data: Bytes, off: nat, t: Bytes)
    requires off <= |data|
    ensures data[..off] + (data[off..] + t) == data + t
  {
  }

  /** The one or two blocks that close the message: its last bytes, the marker byte, zeros, the length in
      bits; two blocks when fewer than nine bytes are free. */
  method FillTail(data: Bytes, off: nat) returns (tail: array<byte>, tailBlocks: nat)
    requires off <= |data| < off + BLOCK && off % BLOCK == 0 && 8 * |data| <= UINT64_MAX
    ensures fresh(tail) && tail.Length == 2 * BLOCK && 1 <= tailBlocks <= 2
    ensures data[..off] + tail[..tailBlocks * BLOCK] == Pad(data)
  {
    tail := new byte[2 * BLOCK](_ => 0);
    var rem := |data| - off;
    CopyRest(tail, data[off..]);
    tail[rem] := 0x80;
    tailBlocks := if rem + 1 + 8 <= BLOCK then 1 else 2;
    var end := tailBlocks * BLOCK;
    ghost var zeros := end - 9 - rem;
    assert tail[..end - 8] == data[off..] + [0x80] + Zeros(zeros);
    WriteLength(tail, end, 8 * |data|);
    assert tail[..end] == tail[..end - 8] + tail[end - 8..end];
    ZerosOfRest(|data|, off / BLOCK, rem);
    TailClosesMessage(data, off, tail[..end]);
  }

  method CompressTail<W(0)>(ops: Words<W>, h: array<W>, tail: array<byte>, tailBlocks: nat)
    requires h.Length == 8 && tail.Length == 2 * BLOCK && 1 <= tailBlocks <= 2
    modifies h
    ensures HashOf(h[..]) == Fold(ops, old(HashOf(h[..])), tail[..tailBlocks * BLOCK])
  {
    ghost var first, second := tail[..BLOCK], tail[BLOCK..];
    FoldOne(ops, HashOf(h[..]), first);
    FoldConcat(ops, HashOf(h[..]), first, second);
    assert tail[..2 * BLOCK] == first + second;
    Compress(ops, h, tail[..BLOCK]);
    if tailBlocks == 2 {
      FoldOne(ops, HashOf(h[..]), second);
      Compress(ops, h, tail[BLOCK..]);
    }
  }

  method CompressNext<W(0)>(ops: Words<W>, h: array<W>, data: Bytes, off: nat, ghost start: Hash<W>)
    requires h.Length == 8 && off % BLOCK == 0 && off + BLOCK <= |data|
    requires HashOf(h[..]) == Fold(ops, start, data[..off])
    modifies h
    ensures HashOf(h[..]) == Fold(ops, start, data[..off + BLOCK])
  {
    var block := data[off..off + BLOCK];
    FoldNext(ops, start, data, off, block);
    Compress(ops, h, block);
  }

  method CompressWholeBlocks<W(0)>(ops: Words<W>, h: array<W>, data: Bytes) returns (off: nat)
    requires h.Length == 8
    modifies h
    ensures off <= |data| < off + BLOCK && off % BLOCK == 0
    ensures HashOf(h[..]) == Fold(ops, old(HashOf(h[..])), data[..off])
  {
    off := 0;
    ghost var start := HashOf(h[..]);
    assert Fold(ops, start, data[..off]) == start;
    while off + BLOCK <= |data|
      invariant off <= |data| && off % BLOCK == 0
      invariant HashOf(h[..]) == Fold(ops, start, data[..off])
    {
      CompressNext(ops, h, data, off, start);
      NextMultiple(off);
      off := off + BLOCK;
    }
  }

  method LoadHash<W(0)>(initial: Hash<W>) returns (h: array<W>)
    ensures fresh(h) && h.Length == 8 && HashOf(h[..]) == initial
  {
    h := new W[] [initial.a, initial.b, initial.c, initial.d, initial.e, initial.f, initial.g, initial.h];
  }

  method HashMessage<W(0)>(ops: Words<W>, initial: Hash<W>, data: Bytes) returns (digest: Bytes)
    requires 8 * |data| <= UINT64_MAX
    ensures digest == DigestWith(ops, initial, data)
  {
    var h := LoadHash(initial);
    var off := CompressWholeBlocks(ops, h, data);
    var tail, tailBlocks := FillTail(data, off);
    FoldConcat(ops, initial, data[..off], tail[..tailBlocks * BLOCK]);
    CompressTail(ops, h, tail, tailBlocks);
    digest := EncHash(ops, HashOf(h[..]));
  }

  /** For every message shorter than 2^61 bytes. */
  method Sha256(data: Bytes) returns (digest: Bytes)
    requires 8 * |data| <= UINT64_MAX
    ensures |digest| == 32 && digest == DigestWith(SHA256_WORDS, INITIAL, data)
  {
    digest := HashMessage(SHA256_WORDS, INITIAL, data);
  }
}
