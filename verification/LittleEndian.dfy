/** Unsigned words as byte strings, least significant byte first. */
module LittleEndian {
  import opened Prelude

  function EncLittle(v: nat, n: nat): (b: Bytes)
    ensures |b| == n
  {
    if n == 0 then [] else [v % 0x100] + EncLittle(v / 0x100, n - 1)
  }

  function LittleLimit(n: nat): (l: nat)
    ensures l > 0
  {
    if n == 0 then 1 else 0x100 * LittleLimit(n - 1)
  }

  function DecLittle(b: Bytes): (v: nat)
    ensures v < LittleLimit(|b|)
  {
    if |b| == 0 then 0 else b[0] + 0x100 * DecLittle(b[1..])
  }

  lemma {:induction false} LittleBack(v: nat, n: nat)
    requires v < LittleLimit(n)
    ensures DecLittle(EncLittle(v, n)) == v
  {
    if n > 0 {
      assert EncLittle(v, n)[1..] == EncLittle(v / 0x100, n - 1);
      LittleBack(v / 0x100, n - 1);
    }
  }

  lemma {:induction false} LittleForth(b: Bytes)
    ensures EncLittle(DecLittle(b), |b|) == b
  {
    if |b| > 0 {
      LittleForth(b[1..]);
    }
  }

  lemma WordLimits()
    ensures LittleLimit(1) == 0x100 && LittleLimit(2) == 0x1_0000
    ensures LittleLimit(4) == TWO_TO_THE_32 && LittleLimit(8) == TWO_TO_THE_64
  {
    assert LittleLimit(2) == 0x1_0000;
    assert LittleLimit(6) == 0x1_0000_0000_0000;
  }

  /** The word of `n` bytes at a position. */
  function WordAt(b: Bytes, pos: nat, n: nat): (v: nat)
    requires pos + n <= |b|
    ensures v < LittleLimit(n)
  {
    DecLittle(b[pos..pos + n])
  }

  lemma WordInFirst(a: Bytes, b: Bytes, pos: nat, n: nat)
    requires pos + n <= |a|
    ensures WordAt(a + b, pos, n) == WordAt(a, pos, n)
  {
    assert (a + b)[pos..pos + n] == a[pos..pos + n];
  }

  lemma WordInSecond(a: Bytes, b: Bytes, pos: nat, n: nat)
    requires |a| <= pos && pos + n <= |a| + |b|
    ensures WordAt(a + b, pos, n) == WordAt(b, pos - |a|, n)
  {
    assert (a + b)[pos..pos + n] == b[pos - |a|..pos - |a| + n];
  }

  lemma WordWritten(v: nat, n: nat, t: Bytes)
    requires v < LittleLimit(n)
    ensures WordAt(EncLittle(v, n) + t, 0, n) == v
  {
    LittleBack(v, n);
    assert (EncLittle(v, n) + t)[0..n] == EncLittle(v, n);
  }

  /** Reads off the next word of a block and says where the rest of it lies. */
  lemma NextWord(b: Bytes, pos: nat, v: nat, n: nat, rest: Bytes)
    requires pos <= |b| && b[pos..] == EncLittle(v, n) + rest && v < LittleLimit(n)
    ensures pos + n <= |b| && WordAt(b, pos, n) == v && b[pos + n..] == rest
  {
    WordWritten(v, n, rest);
    assert b[pos..pos + n] == b[pos..][0..n];
    assert b[pos + n..] == b[pos..][n..];
  }

  // ---------- words told by their bytes ----------

  function TwoAt(b: Bytes, i: nat): nat
    requires i + 2 <= |b|
  {
    var b0: int, b1: int := b[i], b[i + 1];
    b0 + 0x100 * b1
  }

  function FourAt(b: Bytes, i: nat): (v: nat)
    requires i + 4 <= |b|
    ensures v < TWO_TO_THE_32
  {
    var b0: int, b1: int, b2: int, b3: int := b[i], b[i + 1], b[i + 2], b[i + 3];
    b0 + 0x100 * b1 + 0x1_0000 * b2 + 0x100_0000 * b3
  }

  function EightAt(b: Bytes, i: nat): (v: nat)
    requires i + 8 <= |b|
    ensures v < TWO_TO_THE_64
  {
    FourAt(b, i) + TWO_TO_THE_32 * FourAt(b, i + 4)
  }

  lemma FourBytesValue(p: Bytes)
    requires |p| == 4
    ensures DecLittle(p) == FourAt(p, 0)
  {
    assert p[1..][1..] == p[2..] && p[2..][1..] == p[3..] && p[3..][1..] == [];
    assert DecLittle(p[2..]) == p[2] as int + 0x100 * DecLittle(p[3..]);
    assert DecLittle(p[1..]) == p[1] as int + 0x100 * DecLittle(p[2..]);
  }

  lemma LittleHalves(p: Bytes, limit: nat)
    requires |p| == 8 && limit == LittleLimit(4)
    ensures DecLittle(p) == DecLittle(p[..4]) + limit * DecLittle(p[4..])
  {
    LittleInTwo(p, 4);
  }

  lemma {:induction false} LittleInTwo(p: Bytes, n: nat)
    requires n <= |p|
    ensures DecLittle(p) == DecLittle(p[..n]) + LittleLimit(n) * DecLittle(p[n..])
    decreases n
  {
    if n > 0 {
      LittleInTwo(p[1..], n - 1);
      assert p[1..][..n - 1] == p[..n][1..] && p[1..][n - 1..] == p[n..];
      Scaled(LittleLimit(n - 1), DecLittle(p[n..]));
    } else {
      assert p[0..] == p;
    }
  }

  lemma Scaled(limit: nat, v: nat)
    ensures 0x100 * (limit * v) == (0x100 * limit) * v
  {
  }

  lemma EightBytesValue(p: Bytes)
    requires |p| == 8
    ensures DecLittle(p) == EightAt(p, 0)
  {
    WordLimits();
    LittleHalves(p, TWO_TO_THE_32);
    FourBytesValue(p[..4]);
    FourBytesValue(p[4..]);
    assert FourAt(p[..4], 0) == FourAt(p, 0);
    assert FourAt(p[4..], 0) == FourAt(p, 4);
  }

  /** The word at a position, by its bytes. */
  lemma WordBytes(b: Bytes, pos: nat)
    ensures pos + 1 <= |b| ==> WordAt(b, pos, 1) == b[pos]
    ensures pos + 2 <= |b| ==> WordAt(b, pos, 2) == TwoAt(b, pos)
    ensures pos + 4 <= |b| ==> WordAt(b, pos, 4) == FourAt(b, pos)
  {
    if pos + 1 <= |b| {
      assert b[pos..pos + 1][1..] == [];
    }
    if pos + 2 <= |b| {
      assert b[pos..pos + 2][1..] == [b[pos + 1]] && [b[pos + 1]][1..] == [];
      assert DecLittle([b[pos + 1]]) == b[pos + 1];
    }
    if pos + 4 <= |b| {
      FourBytesValue(b[pos..pos + 4]);
    }
  }

  lemma LongWordBytes(b: Bytes, pos: nat)
    requires pos + 8 <= |b|
    ensures WordAt(b, pos, 8) == EightAt(b, pos)
  {
    var p := b[pos..pos + 8];
    EightBytesValue(p);
    assert FourAt(p, 0) == FourAt(b, pos) && FourAt(p, 4) == FourAt(b, pos + 4);
  }
}
