/** The word operations of FIPS 180-4, sections 3.2 and 4.1.2, and what they do bit by bit. */
module Sha256Words {
  function Rotr(x: bv32, n: bv32): bv32
    requires 0 < n < 32
  {
    (x >> n) | (x << (32 - n))
  }

  function SmallSigma0(x: bv32): bv32 {
    Rotr(x, 7) ^ Rotr(x, 18) ^ (x >> 3)
  }

  function SmallSigma1(x: bv32): bv32 {
    Rotr(x, 17) ^ Rotr(x, 19) ^ (x >> 10)
  }

  function BigSigma0(x: bv32): bv32 {
    Rotr(x, 2) ^ Rotr(x, 13) ^ Rotr(x, 22)
  }

  function BigSigma1(x: bv32): bv32 {
    Rotr(x, 6) ^ Rotr(x, 11) ^ Rotr(x, 25)
  }

  function Ch(x: bv32, y: bv32, z: bv32): bv32 {
    (x & y) ^ (!x & z)
  }

  function Maj(x: bv32, y: bv32, z: bv32): bv32 {
    (x & y) ^ (x & z) ^ (y & z)
  }

  function Plus(x: bv32, y: bv32): bv32 {
    x + y
  }

  // ---------- bit by bit ----------

  function Bit(x: bv32, i: bv32): bv32
    requires i < 32
  {
    (x >> i) & 1
  }

  /** A rotation to the right by n: bit i is bit i + n, counted round the word. */
  lemma RotrBits(x: bv32, n: bv32, i: bv32)
    requires 0 < n < 32 && i < 32
    ensures Bit(Rotr(x, n), i) == Bit(x, (i + n) % 32)
  {
    assert (i + n) % 32 == (i + n) & 31;
  }

  /** Ch chooses: on any bits m where x has ones it is y, and on any where x has none it is z. */
  lemma ChBits(x: bv32, y: bv32, z: bv32, m: bv32)
    ensures x & m == m ==> Ch(x, y, z) & m == y & m
    ensures x & m == 0 ==> Ch(x, y, z) & m == z & m
  {
  }

  /** Maj is the majority: on any bits m where two of the three agree it is what they are. */
  lemma MajFirstTwo(x: bv32, y: bv32, z: bv32, m: bv32)
    requires x & m == y & m
    ensures Maj(x, y, z) & m == x & m
  {
    assert Maj(x, y, z) & m == ((x & m) & (y & m)) ^ ((x & m) & (z & m)) ^ ((y & m) & (z & m));
  }

  lemma MajOuterTwo(x: bv32, y: bv32, z: bv32, m: bv32)
    requires x & m == z & m
    ensures Maj(x, y, z) & m == x & m
  {
    assert Maj(x, y, z) & m == ((x & m) & (y & m)) ^ ((x & m) & (z & m)) ^ ((y & m) & (z & m));
  }

  lemma MajLastTwo(x: bv32, y: bv32, z: bv32, m: bv32)
    requires y & m == z & m
    ensures Maj(x, y, z) & m == y & m
  {
    assert Maj(x, y, z) & m == ((x & m) & (y & m)) ^ ((x & m) & (z & m)) ^ ((y & m) & (z & m));
  }
}
