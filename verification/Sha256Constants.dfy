/** Where the constants of `Sha256` come from, by sections 4.2.2 and 5.3.3 of FIPS 180-4. Powers of whole numbers are all it
    takes: the first 32 bits of the fraction of the cube root of p are k if, for some whole part r, the cube of r * 2^32 + k
    does not exceed p * 2^96 and the cube of the next number does. */
module Sha256Constants {
  import opened Prelude
  import opened Arithmetic
  import opened Sha256

  // ---------- primes ----------

  ghost predicate IsPrime(n: nat) {
    n >= 2 && forall d :: 2 <= d < n ==> n % d != 0
  }

  const PRIME_ROWS: seq<seq<nat>> := [
    [2, 3, 5, 7, 11, 13, 17, 19],
    [23, 29, 31, 37, 41, 43, 47, 53],
    [59, 61, 67, 71, 73, 79, 83, 89],
    [97, 101, 103, 107, 109, 113, 127, 131],
    [137, 139, 149, 151, 157, 163, 167, 173],
    [179, 181, 191, 193, 197, 199, 211, 223],
    [227, 229, 233, 239, 241, 251, 257, 263],
    [269, 271, 277, 281, 283, 293, 307, 311]]

  function Prime(t: nat): nat
    requires t < 64
  {
    PRIME_ROWS[t / 8][t % 8]
  }

  /** `Prime` leaves nothing out: it gives a prime, there is none between it and the one before, and none before the first. */
  ghost predicate InOrder(t: nat, n: nat)
    requires t < 64
  {
    IsPrime(Prime(t)) && ((t > 0 ==> Prime(t - 1) < n) && n < Prime(t) ==> !IsPrime(n))
  }

  predicate SmallFactor(n: nat) {
    exists d :: 2 <= d < 18 && d < n && n % d == 0
  }

  predicate LowFactor(n: nat) {
    n % 2 == 0 || n % 3 == 0 || n % 5 == 0 || n % 7 == 0 || n % 11 == 0 || n % 13 == 0 || n % 17 == 0
  }

  predicate NextPrime(before: nat, p: nat, n: nat) {
    !SmallFactor(p) && (before < n < p ==> SmallFactor(n))
  }

  /** Of two factors of a number below 18 * 18 one is below 18. */
  lemma CoFactor(n: nat, d: nat)
    requires 2 <= d < n < 324 && n % d == 0
    ensures SmallFactor(n)
  {
    var q := n / d;
    assert d * q == n;
    if d >= 18 {
      if q >= 18 {
        MulMono(18, q, d);
        assert false;
      }
      assert 2 <= q < n;
      Divides(n, d, q);
    }
  }

  lemma Divides(n: nat, d: nat, q: nat)
    requires n == d * q && q > 0
    ensures n % q == 0
  {
    DivUnique(n, q, d);
  }

  lemma PrimeIff(n: nat)
    requires 2 <= n < 324
    ensures IsPrime(n) <==> !SmallFactor(n)
  {
    if !IsPrime(n) {
      var d :| 2 <= d < n && n % d == 0;
      CoFactor(n, d);
    }
  }

  lemma Composite(n: nat, before: nat, p: nat)
    requires NextPrime(before, p, n)
    ensures before < n < p ==> !IsPrime(n)
  {
  }

  // ---------- roots ----------

  const TWO32: nat := 0x1_0000_0000

  function Square(n: int): int {
    n * n
  }

  function Cube(n: int): int {
    n * n * n
  }

  /** r + k / 2^32 is the cube root of p, rounded down to 32 bits of fraction. */
  predicate CubeRoot(p: nat, r: nat, k: int) {
    0 <= k < TWO32 && Cube(r * TWO32 + k) <= p * TWO32 * TWO32 * TWO32 < Cube(r * TWO32 + k + 1)
  }

  predicate SquareRoot(p: nat, r: nat, k: int) {
    0 <= k < TWO32 && Square(r * TWO32 + k) <= p * TWO32 * TWO32 < Square(r * TWO32 + k + 1)
  }

  ghost predicate FirstCubeRootBits(p: nat, k: int) {
    exists r: nat :: CubeRoot(p, r, k)
  }

  ghost predicate FirstSquareRootBits(p: nat, k: int) {
    exists r: nat :: SquareRoot(p, r, k)
  }

  ghost predicate IsDocumented(t: nat, n: nat)
    requires t < 64
  {
    InOrder(t, n) && FirstCubeRootBits(Prime(t), K(t) as int)
  }

  /** What the cases below have to give for the t-th constant. */
  lemma Documented(t: nat, n: nat, before: nat, p: nat, r: nat, k: int)
    requires t < 64 && Prime(t) == p && 2 <= p < 324 && NextPrime(before, p, n)
    requires if t == 0 then before == 1 else Prime(t - 1) == before
    requires K(t) as int == k && CubeRoot(p, r, k)
    ensures IsDocumented(t, n)
  {
    PrimeIff(p);
    Composite(n, before, p);
  }

  // ---------- the cases: each prime with the gap before it, and the bits of its roots ----------

  lemma Constant0(n: nat)
    ensures IsDocumented(0, n)
  {
    assert NextPrime(1, 2, n);
    Documented(0, n, 1, 2, 1, 0x428a2f98);
  }

  lemma Constant1(n: nat)
    ensures IsDocumented(1, n)
  {
    assert NextPrime(2, 3, n);
    Documented(1, n, 2, 3, 1, 0x71374491);
  }

  lemma Constant2(n: nat)
    ensures IsDocumented(2, n)
  {
    assert 3 < n < 5 ==> n % 2 == 0;
    assert NextPrime(3, 5, n);
    Documented(2, n, 3, 5, 1, 0xb5c0fbcf);
  }

  lemma Constant3(n: nat)
    ensures IsDocumented(3, n)
  {
    assert 5 < n < 7 ==> n % 2 == 0;
    assert NextPrime(5, 7, n);
    Documented(3, n, 5, 7, 1, 0xe9b5dba5);
  }

  lemma Constant4(n: nat)
    ensures IsDocumented(4, n)
  {
    assert 7 < n < 11 ==> n % 2 == 0 || n == 9;
    assert 7 < n < 11 ==> n % 2 == 0 || n % 3 == 0;
    assert NextPrime(7, 11, n);
    Documented(4, n, 7, 11, 2, 0x3956c25b);
  }

  lemma Constant5(n: nat)
    ensures IsDocumented(5, n)
  {
    assert 11 < n < 13 ==> n % 2 == 0;
    assert NextPrime(11, 13, n);
    Documented(5, n, 11, 13, 2, 0x59f111f1);
  }

  lemma Constant6(n: nat)
    ensures IsDocumented(6, n)
  {
    assert 13 < n < 17 ==> n % 2 == 0 || n == 15;
    assert 13 < n < 17 ==> n % 2 == 0 || n % 3 == 0;
    assert NextPrime(13, 17, n);
    Documented(6, n, 13, 17, 2, 0x923f82a4);
  }

  lemma Constant7(n: nat)
    ensures IsDocumented(7, n)
  {
    assert 17 < n < 19 ==> n % 2 == 0;
    assert NextPrime(17, 19, n);
    Documented(7, n, 17, 19, 2, 0xab1c5ed5);
  }

  lemma Constant8(n: nat)
    ensures IsDocumented(8, n)
  {
    assert 19 < n < 23 ==> n % 2 == 0 || n == 21;
    assert 19 < n < 23 ==> n % 2 == 0 || n % 3 == 0;
    assert NextPrime(19, 23, n);
    Documented(8, n, 19, 23, 2, 0xd807aa98);
  }

  lemma Constant9(n: nat)
    ensures IsDocumented(9, n)
  {
    assert 23 < n < 29 ==> n % 2 == 0 || n == 25 || n == 27;
    assert 23 < n < 29 ==> n % 2 == 0 || n % 3 == 0 || n % 5 == 0;
    assert NextPrime(23, 29, n);
    Documented(9, n, 23, 29, 3, 0x12835b01);
  }

  lemma Constant10(n: nat)
    ensures IsDocumented(10, n)
  {
    assert 29 < n < 31 ==> n % 2 == 0;
    assert NextPrime(29, 31, n);
    Documented(10, n, 29, 31, 3, 0x243185be);
  }

  lemma Constant11(n: nat)
    ensures IsDocumented(11, n)
  {
    assert 31 < n < 37 ==> n % 2 == 0 || n == 33 || n == 35;
    assert 31 < n < 37 ==> n % 2 == 0 || n % 3 == 0 || n % 5 == 0;
    assert NextPrime(31, 37, n);
    Documented(11, n, 31, 37, 3, 0x550c7dc3);
  }

  lemma Constant12(n: nat)
    ensures IsDocumented(12, n)
  {
    assert 37 < n < 41 ==> n % 2 == 0 || n == 39;
    assert 37 < n < 41 ==> n % 2 == 0 || n % 3 == 0;
    assert NextPrime(37, 41, n);
    Documented(12, n, 37, 41, 3, 0x72be5d74);
  }

  lemma Constant13(n: nat)
    ensures IsDocumented(13, n)
  {
    assert 41 < n < 43 ==> n % 2 == 0;
    assert NextPrime(41, 43, n);
    Documented(13, n, 41, 43, 3, 0x80deb1fe);
  }

  lemma Constant14(n: nat)
    ensures IsDocumented(14, n)
  {
    assert 43 < n < 47 ==> n % 2 == 0 || n == 45;
    assert 43 < n < 47 ==> n % 2 == 0 || n % 3 == 0;
    assert NextPrime(43, 47, n);
    Documented(14, n, 43, 47, 3, 0x9bdc06a7);
  }

  lemma Constant15(n: nat)
    ensures IsDocumented(15, n)
  {
    assert 47 < n < 53 ==> n % 2 == 0 || n == 49 || n == 51;
    assert 47 < n < 53 ==> n % 2 == 0 || n % 3 == 0 || n % 7 == 0;
    assert NextPrime(47, 53, n);
    Documented(15, n, 47, 53, 3, 0xc19bf174);
  }

  lemma Constant16(n: nat)
    ensures IsDocumented(16, n)
  {
    assert 53 < n < 59 ==> n % 2 == 0 || n == 55 || n == 57;
    assert 53 < n < 59 ==> n % 2 == 0 || n % 3 == 0 || n % 5 == 0;
    assert NextPrime(53, 59, n);
    Documented(16, n, 53, 59, 3, 0xe49b69c1);
  }

  lemma Constant17(n: nat)
    ensures IsDocumented(17, n)
  {
    assert 59 < n < 61 ==> n % 2 == 0;
    assert NextPrime(59, 61, n);
    Documented(17, n, 59, 61, 3, 0xefbe4786);
  }

  lemma Constant18(n: nat)
    ensures IsDocumented(18, n)
  {
    assert 61 < n < 67 ==> n % 2 == 0 || n == 63 || n == 65;
    assert 61 < n < 67 ==> n % 2 == 0 || n % 3 == 0 || n % 5 == 0;
    assert NextPrime(61, 67, n);
    Documented(18, n, 61, 67, 4, 0x0fc19dc6);
  }

  lemma Constant19(n: nat)
    ensures IsDocumented(19, n)
  {
    assert 67 < n < 71 ==> n % 2 == 0 || n == 69;
    assert 67 < n < 71 ==> n % 2 == 0 || n % 3 == 0;
    assert NextPrime(67, 71, n);
    Documented(19, n, 67, 71, 4, 0x240ca1cc);
  }

  lemma Constant20(n: nat)
    ensures IsDocumented(20, n)
  {
    assert 71 < n < 73 ==> n % 2 == 0;
    assert NextPrime(71, 73, n);
    Documented(20, n, 71, 73, 4, 0x2de92c6f);
  }

  lemma Constant21(n: nat)
    ensures IsDocumented(21, n)
  {
    assert 73 < n < 79 ==> n % 2 == 0 || n == 75 || n == 77;
    assert 73 < n < 79 ==> n % 2 == 0 || n % 3 == 0 || n % 7 == 0;
    assert NextPrime(73, 79, n);
    Documented(21, n, 73, 79, 4, 0x4a7484aa);
  }

  lemma Constant22(n: nat)
    ensures IsDocumented(22, n)
  {
    assert 79 < n < 83 ==> n % 2 == 0 || n == 81;
    assert 79 < n < 83 ==> n % 2 == 0 || n % 3 == 0;
    assert NextPrime(79, 83, n);
    Documented(22, n, 79, 83, 4, 0x5cb0a9dc);
  }

  lemma Constant23(n: nat)
    ensures IsDocumented(23, n)
  {
    assert 83 < n < 89 ==> n % 2 == 0 || n == 85 || n == 87;
    assert 83 < n < 89 ==> n % 2 == 0 || n % 3 == 0 || n % 5 == 0;
    assert NextPrime(83, 89, n);
    Documented(23, n, 83, 89, 4, 0x76f988da);
  }

  lemma Constant24(n: nat)
    ensures IsDocumented(24, n)
  {
    assert 89 < n < 97 ==> n % 2 == 0 || n == 91 || n == 93 || n == 95;
    assert 89 < n < 97 ==> n % 2 == 0 || n % 3 == 0 || n % 5 == 0 || n % 7 == 0;
    assert NextPrime(89, 97, n);
    Documented(24, n, 89, 97, 4, 0x983e5152);
  }

  lemma Constant25(n: nat)
    ensures IsDocumented(25, n)
  {
    assert 97 < n < 101 ==> n % 2 == 0 || n == 99;
    assert 97 < n < 101 ==> n % 2 == 0 || n % 3 == 0;
    assert NextPrime(97, 101, n);
    Documented(25, n, 97, 101, 4, 0xa831c66d);
  }

  lemma Constant26(n: nat)
    ensures IsDocumented(26, n)
  {
    assert 101 < n < 103 ==> n % 2 == 0;
    assert NextPrime(101, 103, n);
    Documented(26, n, 101, 103, 4, 0xb00327c8);
  }

  lemma Constant27(n: nat)
    ensures IsDocumented(27, n)
  {
    assert 103 < n < 107 ==> n % 2 == 0 || n == 105;
    assert 103 < n < 107 ==> n % 2 == 0 || n % 3 == 0;
    assert NextPrime(103, 107, n);
    Documented(27, n, 103, 107, 4, 0xbf597fc7);
  }

  lemma Constant28(n: nat)
    ensures IsDocumented(28, n)
  {
    assert 107 < n < 109 ==> n % 2 == 0;
    assert NextPrime(107, 109, n);
    Documented(28, n, 107, 109, 4, 0xc6e00bf3);
  }

  lemma Constant29(n: nat)
    ensures IsDocumented(29, n)
  {
    assert 109 < n < 113 ==> n % 2 == 0 || n == 111;
    assert 109 < n < 113 ==> n % 2 == 0 || n % 3 == 0;
    assert NextPrime(109, 113, n);
    Documented(29, n, 109, 113, 4, 0xd5a79147);
  }

  lemma Constant30(n: nat)
    ensures IsDocumented(30, n)
  {
    assert 113 < n < 127 ==> n % 2 == 0 || n == 115 || n == 117 || n == 119 || n == 121 || n == 123 || n == 125;
    assert 113 < n < 127 ==> n % 2 == 0 || n % 3 == 0 || n % 5 == 0 || n % 7 == 0 || n % 11 == 0;
    assert NextPrime(113, 127, n);
    Documented(30, n, 113, 127, 5, 0x06ca6351);
  }

  lemma Constant31(n: nat)
    ensures IsDocumented(31, n)
  {
    assert 127 < n < 131 ==> n % 2 == 0 || n == 129;
    assert 127 < n < 131 ==> n % 2 == 0 || n % 3 == 0;
    assert NextPrime(127, 131, n);
    Documented(31, n, 127, 131, 5, 0x14292967);
  }

  lemma Constant32(n: nat)
    ensures IsDocumented(32, n)
  {
    assert 131 < n < 137 ==> n % 2 == 0 || n == 133 || n == 135;
    assert 131 < n < 137 ==> n % 2 == 0 || n % 3 == 0 || n % 7 == 0;
    assert NextPrime(131, 137, n);
    Documented(32, n, 131, 137, 5, 0x27b70a85);
  }

  lemma Constant33(n: nat)
    ensures IsDocumented(33, n)
  {
    assert 137 < n < 139 ==> n % 2 == 0;
    assert NextPrime(137, 139, n);
    Documented(33, n, 137, 139, 5, 0x2e1b2138);
  }

  lemma Constant34(n: nat)
    ensures IsDocumented(34, n)
  {
    assert 139 < n < 149 ==> n % 2 == 0 || n == 141 || n == 143 || n == 145 || n == 147;
    assert 139 < n < 149 ==> n % 2 == 0 || n % 3 == 0 || n % 5 == 0 || n % 11 == 0;
    assert NextPrime(139, 149, n);
    Documented(34, n, 139, 149, 5, 0x4d2c6dfc);
  }

  lemma Constant35(n: nat)
    ensures IsDocumented(35, n)
  {
    assert 149 < n < 151 ==> n % 2 == 0;
    assert NextPrime(149, 151, n);
    Documented(35, n, 149, 151, 5, 0x53380d13);
  }

  lemma Constant36(n: nat)
    ensures IsDocumented(36, n)
  {
    assert 151 < n < 157 ==> n % 2 == 0 || n == 153 || n == 155;
    assert 151 < n < 157 ==> n % 2 == 0 || n % 3 == 0 || n % 5 == 0;
    assert NextPrime(151, 157, n);
    Documented(36, n, 151, 157, 5, 0x650a7354);
  }

  lemma Constant37(n: nat)
    ensures IsDocumented(37, n)
  {
    assert 157 < n < 163 ==> n % 2 == 0 || n == 159 || n == 161;
    assert 157 < n < 163 ==> n % 2 == 0 || n % 3 == 0 || n % 7 == 0;
    assert NextPrime(157, 163, n);
    Documented(37, n, 157, 163, 5, 0x766a0abb);
  }

  lemma Constant38(n: nat)
    ensures IsDocumented(38, n)
  {
    assert 163 < n < 167 ==> n % 2 == 0 || n == 165;
    assert 163 < n < 167 ==> n % 2 == 0 || n % 3 == 0;
    assert NextPrime(163, 167, n);
    Documented(38, n, 163, 167, 5, 0x81c2c92e);
  }

  lemma Constant39(n: nat)
    ensures IsDocumented(39, n)
  {
    assert 167 < n < 173 ==> n % 2 == 0 || n == 169 || n == 171;
    assert 167 < n < 173 ==> n % 2 == 0 || n % 3 == 0 || n % 13 == 0;
    assert NextPrime(167, 173, n);
    Documented(39, n, 167, 173, 5, 0x92722c85);
  }

  lemma Constant40(n: nat)
    ensures IsDocumented(40, n)
  {
    assert 173 < n < 179 ==> n % 2 == 0 || n == 175 || n == 177;
    assert 173 < n < 179 ==> n % 2 == 0 || n % 3 == 0 || n % 5 == 0;
    assert NextPrime(173, 179, n);
    Documented(40, n, 173, 179, 5, 0xa2bfe8a1);
  }

  lemma Constant41(n: nat)
    ensures IsDocumented(41, n)
  {
    assert 179 < n < 181 ==> n % 2 == 0;
    assert NextPrime(179, 181, n);
    Documented(41, n, 179, 181, 5, 0xa81a664b);
  }

  lemma Constant42(n: nat)
    ensures IsDocumented(42, n)
  {
    assert 181 < n < 191 ==> n % 2 == 0 || n == 183 || n == 185 || n == 187 || n == 189;
    assert 181 < n < 191 ==> n % 2 == 0 || n % 3 == 0 || n % 5 == 0 || n % 11 == 0;
    assert NextPrime(181, 191, n);
    Documented(42, n, 181, 191, 5, 0xc24b8b70);
  }

  lemma Constant43(n: nat)
    ensures IsDocumented(43, n)
  {
    assert 191 < n < 193 ==> n % 2 == 0;
    assert NextPrime(191, 193, n);
    Documented(43, n, 191, 193, 5, 0xc76c51a3);
  }

  lemma Constant44(n: nat)
    ensures IsDocumented(44, n)
  {
    assert 193 < n < 197 ==> n % 2 == 0 || n == 195;
    assert 193 < n < 197 ==> n % 2 == 0 || n % 3 == 0;
    assert NextPrime(193, 197, n);
    Documented(44, n, 193, 197, 5, 0xd192e819);
  }

  lemma Constant45(n: nat)
    ensures IsDocumented(45, n)
  {
    assert 197 < n < 199 ==> n % 2 == 0;
    assert NextPrime(197, 199, n);
    Documented(45, n, 197, 199, 5, 0xd6990624);
  }

  lemma Constant46(n: nat)
    ensures IsDocumented(46, n)
  {
    assert 199 < n < 211 ==> n % 2 == 0 || n == 201 || n == 203 || n == 205 || n == 207 || n == 209;
    assert 199 < n < 211 ==> n % 2 == 0 || n % 3 == 0 || n % 5 == 0 || n % 7 == 0 || n % 11 == 0;
    assert NextPrime(199, 211, n);
    Documented(46, n, 199, 211, 5, 0xf40e3585);
  }

  lemma Constant47(n: nat)
    ensures IsDocumented(47, n)
  {
    assert 211 < n < 223 ==> n % 2 == 0 || n == 213 || n == 215 || n == 217 || n == 219 || n == 221;
    assert 211 < n < 223 ==> n % 2 == 0 || n % 3 == 0 || n % 5 == 0 || n % 7 == 0 || n % 13 == 0;
    assert NextPrime(211, 223, n);
    Documented(47, n, 211, 223, 6, 0x106aa070);
  }

  lemma Constant48(n: nat)
    ensures IsDocumented(48, n)
  {
    assert 223 < n < 227 ==> n % 2 == 0 || n == 225;
    assert 223 < n < 227 ==> n % 2 == 0 || n % 3 == 0;
    assert NextPrime(223, 227, n);
    Documented(48, n, 223, 227, 6, 0x19a4c116);
  }

  lemma Constant49(n: nat)
    ensures IsDocumented(49, n)
  {
    assert 227 < n < 229 ==> n % 2 == 0;
    assert NextPrime(227, 229, n);
    Documented(49, n, 227, 229, 6, 0x1e376c08);
  }

  lemma Constant50(n: nat)
    ensures IsDocumented(50, n)
  {
    assert 229 < n < 233 ==> n % 2 == 0 || n == 231;
    assert 229 < n < 233 ==> n % 2 == 0 || n % 3 == 0;
    assert NextPrime(229, 233, n);
    Documented(50, n, 229, 233, 6, 0x2748774c);
  }

  lemma Constant51(n: nat)
    ensures IsDocumented(51, n)
  {
    assert 233 < n < 239 ==> n % 2 == 0 || n == 235 || n == 237;
    assert 233 < n < 239 ==> n % 2 == 0 || n % 3 == 0 || n % 5 == 0;
    assert NextPrime(233, 239, n);
    Documented(51, n, 233, 239, 6, 0x34b0bcb5);
  }

  lemma Constant52(n: nat)
    ensures IsDocumented(52, n)
  {
    assert 239 < n < 241 ==> n % 2 == 0;
    assert NextPrime(239, 241, n);
    Documented(52, n, 239, 241, 6, 0x391c0cb3);
  }

  lemma Constant53(n: nat)
    ensures IsDocumented(53, n)
  {
    assert 241 < n < 251 ==> n % 2 == 0 || n == 243 || n == 245 || n == 247 || n == 249;
    assert 241 < n < 251 ==> n % 2 == 0 || n % 3 == 0 || n % 5 == 0 || n % 13 == 0;
    assert NextPrime(241, 251, n);
    Documented(53, n, 241, 251, 6, 0x4ed8aa4a);
  }

  lemma Constant54(n: nat)
    ensures IsDocumented(54, n)
  {
    assert 251 < n < 257 ==> n % 2 == 0 || n == 253 || n == 255;
    assert 251 < n < 257 ==> n % 2 == 0 || n % 3 == 0 || n % 11 == 0;
    assert NextPrime(251, 257, n);
    Documented(54, n, 251, 257, 6, 0x5b9cca4f);
  }

  lemma Constant55(n: nat)
    ensures IsDocumented(55, n)
  {
    assert 257 < n < 263 ==> n % 2 == 0 || n == 259 || n == 261;
    assert 257 < n < 263 ==> n % 2 == 0 || n % 3 == 0 || n % 7 == 0;
    assert NextPrime(257, 263, n);
    Documented(55, n, 257, 263, 6, 0x682e6ff3);
  }

  lemma Constant56(n: nat)
    ensures IsDocumented(56, n)
  {
    assert 263 < n < 269 ==> n % 2 == 0 || n == 265 || n == 267;
    assert 263 < n < 269 ==> n % 2 == 0 || n % 3 == 0 || n % 5 == 0;
    assert NextPrime(263, 269, n);
    Documented(56, n, 263, 269, 6, 0x748f82ee);
  }

  lemma Constant57(n: nat)
    ensures IsDocumented(57, n)
  {
    assert 269 < n < 271 ==> n % 2 == 0;
    assert NextPrime(269, 271, n);
    Documented(57, n, 269, 271, 6, 0x78a5636f);
  }

  lemma Constant58(n: nat)
    ensures IsDocumented(58, n)
  {
    assert 271 < n < 277 ==> n % 2 == 0 || n == 273 || n == 275;
    assert 271 < n < 277 ==> n % 2 == 0 || n % 3 == 0 || n % 5 == 0;
    assert NextPrime(271, 277, n);
    Documented(58, n, 271, 277, 6, 0x84c87814);
  }

  lemma Constant59(n: nat)
    ensures IsDocumented(59, n)
  {
    assert 277 < n < 281 ==> n % 2 == 0 || n == 279;
    assert 277 < n < 281 ==> n % 2 == 0 || n % 3 == 0;
    assert NextPrime(277, 281, n);
    Documented(59, n, 277, 281, 6, 0x8cc70208);
  }

  lemma Constant60(n: nat)
    ensures IsDocumented(60, n)
  {
    assert 281 < n < 283 ==> n % 2 == 0;
    assert NextPrime(281, 283, n);
    Documented(60, n, 281, 283, 6, 0x90befffa);
  }

  lemma Constant61(n: nat)
    ensures IsDocumented(61, n)
  {
    assert 283 < n < 293 ==> n % 2 == 0 || n == 285 || n == 287 || n == 289 || n == 291;
    assert 283 < n < 293 ==> n % 2 == 0 || n % 3 == 0 || n % 7 == 0 || n % 17 == 0;
    assert NextPrime(283, 293, n);
    Documented(61, n, 283, 293, 6, 0xa4506ceb);
  }

  lemma Constant62(n: nat)
    ensures IsDocumented(62, n)
  {
    assert 293 < n < 307 ==> n % 2 == 0 || n == 295 || n == 297 || n == 299 || n == 301 || n == 303 || n == 305;
    assert 293 < n < 307 ==> n % 2 == 0 || n % 3 == 0 || n % 5 == 0 || n % 7 == 0 || n % 13 == 0;
    assert NextPrime(293, 307, n);
    Documented(62, n, 293, 307, 6, 0xbef9a3f7);
  }

  lemma Constant63(n: nat)
    ensures IsDocumented(63, n)
  {
    assert 307 < n < 311 ==> n % 2 == 0 || n == 309;
    assert 307 < n < 311 ==> n % 2 == 0 || n % 3 == 0;
    assert NextPrime(307, 311, n);
    Documented(63, n, 307, 311, 6, 0xc67178f2);
  }

  lemma Row0(t: nat, n: nat)
    requires 0 <= t < 8
    ensures IsDocumented(t, n)
  {
    match t
    case 0 => Constant0(n);
    case 1 => Constant1(n);
    case 2 => Constant2(n);
    case 3 => Constant3(n);
    case 4 => Constant4(n);
    case 5 => Constant5(n);
    case 6 => Constant6(n);
    case _ => Constant7(n);
  }

  lemma Row1(t: nat, n: nat)
    requires 8 <= t < 16
    ensures IsDocumented(t, n)
  {
    match t
    case 8 => Constant8(n);
    case 9 => Constant9(n);
    case 10 => Constant10(n);
    case 11 => Constant11(n);
    case 12 => Constant12(n);
    case 13 => Constant13(n);
    case 14 => Constant14(n);
    case _ => Constant15(n);
  }

  lemma Row2(t: nat, n: nat)
    requires 16 <= t < 24
    ensures IsDocumented(t, n)
  {
    match t
    case 16 => Constant16(n);
    case 17 => Constant17(n);
    case 18 => Constant18(n);
    case 19 => Constant19(n);
    case 20 => Constant20(n);
    case 21 => Constant21(n);
    case 22 => Constant22(n);
    case _ => Constant23(n);
  }

  lemma Row3(t: nat, n: nat)
    requires 24 <= t < 32
    ensures IsDocumented(t, n)
  {
    match t
    case 24 => Constant24(n);
    case 25 => Constant25(n);
    case 26 => Constant26(n);
    case 27 => Constant27(n);
    case 28 => Constant28(n);
    case 29 => Constant29(n);
    case 30 => Constant30(n);
    case _ => Constant31(n);
  }

  lemma Row4(t: nat, n: nat)
    requires 32 <= t < 40
    ensures IsDocumented(t, n)
  {
    match t
    case 32 => Constant32(n);
    case 33 => Constant33(n);
    case 34 => Constant34(n);
    case 35 => Constant35(n);
    case 36 => Constant36(n);
    case 37 => Constant37(n);
    case 38 => Constant38(n);
    case _ => Constant39(n);
  }

  lemma Row5(t: nat, n: nat)
    requires 40 <= t < 48
    ensures IsDocumented(t, n)
  {
    match t
    case 40 => Constant40(n);
    case 41 => Constant41(n);
    case 42 => Constant42(n);
    case 43 => Constant43(n);
    case 44 => Constant44(n);
    case 45 => Constant45(n);
    case 46 => Constant46(n);
    case _ => Constant47(n);
  }

  lemma Row6(t: nat, n: nat)
    requires 48 <= t < 56
    ensures IsDocumented(t, n)
  {
    match t
    case 48 => Constant48(n);
    case 49 => Constant49(n);
    case 50 => Constant50(n);
    case 51 => Constant51(n);
    case 52 => Constant52(n);
    case 53 => Constant53(n);
    case 54 => Constant54(n);
    case _ => Constant55(n);
  }

  lemma Row7(t: nat, n: nat)
    requires 56 <= t < 64
    ensures IsDocumented(t, n)
  {
    match t
    case 56 => Constant56(n);
    case 57 => Constant57(n);
    case 58 => Constant58(n);
    case 59 => Constant59(n);
    case 60 => Constant60(n);
    case 61 => Constant61(n);
    case 62 => Constant62(n);
    case _ => Constant63(n);
  }

  lemma InitialA()
    ensures FirstSquareRootBits(Prime(0), INITIAL.a as int)
  {
    assert Prime(0) == 2 && INITIAL.a as int == 0x6a09e667;
    assert SquareRoot(2, 1, 0x6a09e667);
  }

  lemma InitialB()
    ensures FirstSquareRootBits(Prime(1), INITIAL.b as int)
  {
    assert Prime(1) == 3 && INITIAL.b as int == 0xbb67ae85;
    assert SquareRoot(3, 1, 0xbb67ae85);
  }

  lemma InitialC()
    ensures FirstSquareRootBits(Prime(2), INITIAL.c as int)
  {
    assert Prime(2) == 5 && INITIAL.c as int == 0x3c6ef372;
    assert SquareRoot(5, 2, 0x3c6ef372);
  }

  lemma InitialD()
    ensures FirstSquareRootBits(Prime(3), INITIAL.d as int)
  {
    assert Prime(3) == 7 && INITIAL.d as int == 0xa54ff53a;
    assert SquareRoot(7, 2, 0xa54ff53a);
  }

  lemma InitialE()
    ensures FirstSquareRootBits(Prime(4), INITIAL.e as int)
  {
    assert Prime(4) == 11 && INITIAL.e as int == 0x510e527f;
    assert SquareRoot(11, 3, 0x510e527f);
  }

  lemma InitialF()
    ensures FirstSquareRootBits(Prime(5), INITIAL.f as int)
  {
    assert Prime(5) == 13 && INITIAL.f as int == 0x9b05688c;
    assert SquareRoot(13, 3, 0x9b05688c);
  }

  lemma InitialG()
    ensures FirstSquareRootBits(Prime(6), INITIAL.g as int)
  {
    assert Prime(6) == 17 && INITIAL.g as int == 0x1f83d9ab;
    assert SquareRoot(17, 4, 0x1f83d9ab);
  }

  lemma InitialH()
    ensures FirstSquareRootBits(Prime(7), INITIAL.h as int)
  {
    assert Prime(7) == 19 && INITIAL.h as int == 0x5be0cd19;
    assert SquareRoot(19, 4, 0x5be0cd19);
  }

  // ---------- the constants ----------

  /** Section 4.2.2: each constant is the first 32 bits of the fraction of the cube root of one of the first 64 primes, in order. */
  lemma KIsCubeRoots(t: nat, n: nat)
    requires t < 64
    ensures IsPrime(Prime(t)) && ((t > 0 ==> Prime(t - 1) < n) && n < Prime(t) ==> !IsPrime(n))
    ensures FirstCubeRootBits(Prime(t), K(t) as int)
  {
    match t / 8
    case 0 => Row0(t, n);
    case 1 => Row1(t, n);
    case 2 => Row2(t, n);
    case 3 => Row3(t, n);
    case 4 => Row4(t, n);
    case 5 => Row5(t, n);
    case 6 => Row6(t, n);
    case _ => Row7(t, n);
  }

  /** Section 5.3.3: the words of the initial hash value are those of the square roots of the first eight primes, in order. */
  lemma InitialIsSquareRoots()
    ensures FirstSquareRootBits(Prime(0), INITIAL.a as int) && FirstSquareRootBits(Prime(1), INITIAL.b as int)
    ensures FirstSquareRootBits(Prime(2), INITIAL.c as int) && FirstSquareRootBits(Prime(3), INITIAL.d as int)
    ensures FirstSquareRootBits(Prime(4), INITIAL.e as int) && FirstSquareRootBits(Prime(5), INITIAL.f as int)
    ensures FirstSquareRootBits(Prime(6), INITIAL.g as int) && FirstSquareRootBits(Prime(7), INITIAL.h as int)
  {
    InitialA();
    InitialB();
    InitialC();
    InitialD();
    InitialE();
    InitialF();
    InitialG();
    InitialH();
  }
}
