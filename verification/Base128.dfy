/** Base-128 numbers: seven bits a byte, lowest first, the top bit set on all bytes but the last. The protobuf
    varint and the wasm LEB128 integer are both written this way; each has its own reader. */
module Base128 {
  import opened Prelude
  import opened Arithmetic

  function EncVarint(v: nat): Bytes {
    if v < 0x80 then [v] else [v % 0x80 + 0x80] + EncVarint(v / 0x80)
  }

  /** A reader's value with one more seven-bit group in; the groups do not overlap, so or-ing them in is adding
      them. `scale` is what the group counts for. */
  function JoinGroup(value: nat, payload: nat, scale: nat): nat {
    value + payload * scale
  }

  /** It stays below the word, and the groups still to come count for 0x80 times as much. */
  lemma Accumulate(word: nat, value: nat, scale: nat, payload: nat, limit: nat, later: nat)
    requires value < scale && payload < limit && payload < 0x80 && scale * limit == word
    ensures JoinGroup(value, payload, scale) < word
    ensures JoinGroup(value, payload, scale) < 0x80 * scale
    ensures value + scale * (payload + 0x80 * later) == JoinGroup(value, payload, scale) + (0x80 * scale) * later
  {
    MulMono(payload + 1, limit, scale);
    MulMono(payload + 1, 0x80, scale);
    Distribute(payload, 0x80 * later, scale);
    SwapFactors(0x80, later, scale);
  }

  // ---------- which bytes are a number ----------

  /** The first n bytes are a base-128 number: only the last of them has its top bit clear. */
  predicate EndsAt(b: Bytes, n: nat) {
    0 < n <= |b| && b[n - 1] < 0x80 && forall i :: 0 <= i < n - 1 ==> b[i] >= 0x80
  }

  /** Seven bits a byte, lowest first. */
  function Base128Value(p: Bytes): nat {
    if |p| == 0 then 0 else p[0] % 0x80 + 0x80 * Base128Value(p[1..])
  }

  lemma RestEndsAt(b: Bytes, n: nat)
    requires EndsAt(b, n) && n > 1
    ensures EndsAt(b[1..], n - 1) && b[1..][n - 2] == b[n - 1] && b[1..][n - 1..] == b[n..]
    ensures Base128Value(b[..n]) == b[0] % 0x80 + 0x80 * Base128Value(b[1..][..n - 1])
  {
    assert b[..n][1..] == b[1..][..n - 1];
  }

  lemma OneEndsAt(b: Bytes)
    requires EndsAt(b, 1)
    ensures Base128Value(b[..1]) == b[0]
  {
    assert b[..1][1..] == [];
  }

  /** What is written is such a number, of the value given, and the shortest there is. */
  lemma {:induction false} VarintIsWritten(v: nat, p: Bytes)
    ensures EndsAt(EncVarint(v), |EncVarint(v)|) && Base128Value(EncVarint(v)) == v
    ensures Base128Value(p) == v && |p| > 0 ==> |EncVarint(v)| <= |p|
    decreases v
  {
    if v >= 0x80 {
      assert EncVarint(v)[1..] == EncVarint(v / 0x80);
      VarintIsWritten(v / 0x80, if |p| > 0 then p[1..] else []);
      if |p| == 1 {
        assert Base128Value(p) < 0x80 by { assert p[1..] == []; }
      }
    } else {
      assert EncVarint(v)[1..] == [];
    }
  }

  lemma SmallVarint(v: nat)
    requires v < 0x80
    ensures EncVarint(v) == [v]
  {
  }
}
