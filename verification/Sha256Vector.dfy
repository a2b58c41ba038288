/** The published example of FIPS 180-4: the message "abc". Step by step, the operations and constants of the model give
    its block, the 64 words of its schedule, the working variables after each of the 64 rounds, and the 32 bytes of its
    digest. Each single step is a fact about constants; two lemmas about any operations make of them the schedule and
    the rounds as `Sha256` defines them. So the example fixes the order of the schedule, of the rounds and of the bytes
    that are written out, and every operation in them. */
module Sha256Vector {
  import opened Prelude
  import opened LittleEndian
  import opened Sha256
  import opened Sha256Words

  // ---------- from single steps to all of them ----------

  predicate Follows<W(==)>(ops: Words<W>, s: W, c: W, far: W, near: W, w: W) {
    ops.add(ops.add(ops.add(s, ops.smallSigma0(c)), far), ops.smallSigma1(near)) == w
  }

  ghost predicate StartsAs<W>(ops: Words<W>, block: Block, words: nat -> W) {
    forall i :: 0 <= i < 16 ==> Schedule(ops, block, i) == words(i)
  }

  /** Word `t` follows from those before it. The facts about single steps are kept folded, and opened one at a time
      by mentioning `Opened`; put together they would all be computed at once. */
  ghost predicate WordFollows<W>(ops: Words<W>, words: nat -> W, t: nat)
    requires t >= 16
  {
    forall i: nat {:trigger Opened(i)} :: Opened(i) && i == t ==> Follows(ops, words(i - 16), words(i - 15), words(i - 7), words(i - 2), words(i))
  }

  predicate Opened(i: nat) {
    true
  }

  ghost predicate WordsFollow<W>(ops: Words<W>, words: nat -> W) {
    forall t :: 16 <= t < 64 ==> WordFollows(ops, words, t)
  }

  lemma NextWord<W>(ops: Words<W>, block: Block, words: nat -> W, t: nat)
    requires 16 <= t && Schedule(ops, block, t - 16) == words(t - 16) && Schedule(ops, block, t - 15) == words(t - 15)
    requires Schedule(ops, block, t - 7) == words(t - 7) && Schedule(ops, block, t - 2) == words(t - 2)
    requires WordFollows(ops, words, t)
    ensures Schedule(ops, block, t) == words(t)
  {
    assert Opened(t);
  }

  /** Words that follow one another as the schedule asks are the schedule. */
  lemma {:induction false} ScheduleAlong<W>(ops: Words<W>, block: Block, words: nat -> W, n: nat)
    requires StartsAs(ops, block, words) && WordsFollow(ops, words) && n <= 64
    ensures forall t :: 0 <= t < n ==> Schedule(ops, block, t) == words(t)
  {
    if n > 0 {
      ScheduleAlong(ops, block, words, n - 1);
      if n > 16 {
        NextWord(ops, block, words, n - 1);
      }
    }
  }

  ghost predicate StateFollows<W>(ops: Words<W>, words: nat -> W, states: nat -> Hash<W>, t: nat) {
    forall i: nat {:trigger Opened(i)} :: Opened(i) && i == t ==> Round(ops, states(i), ops.k(i), words(i)) == states(i + 1)
  }

  ghost predicate StatesFollow<W>(ops: Words<W>, words: nat -> W, states: nat -> Hash<W>) {
    forall t :: 0 <= t < 64 ==> StateFollows(ops, words, states, t)
  }

  lemma NextRound<W>(ops: Words<W>, initial: Hash<W>, block: Block, words: nat -> W, states: nat -> Hash<W>, t: nat)
    requires Rounds(ops, initial, block, t) == states(t) && Schedule(ops, block, t) == words(t)
    requires StateFollows(ops, words, states, t)
    ensures Rounds(ops, initial, block, t + 1) == states(t + 1)
  {
    assert Opened(t);
  }

  /** States that follow one another as the rounds ask are the rounds. */
  lemma {:induction false} RoundsAlong<W>(ops: Words<W>, block: Block, words: nat -> W, states: nat -> Hash<W>, n: nat)
    requires StartsAs(ops, block, words) && WordsFollow(ops, words) && StatesFollow(ops, words, states) && n <= 64
    ensures Rounds(ops, states(0), block, n) == states(n)
  {
    if n > 0 {
      RoundsAlong(ops, block, words, states, n - 1);
      ScheduleAlong(ops, block, words, n);
      NextRound(ops, states(0), block, words, states, n - 1);
    }
  }

  // ---------- the block ----------

  /** The only block of the padded message. */
  const ABC_BLOCK: Block := [0x61, 0x62, 0x63, 0x80] + Zeros(59) + [24]

  lemma PaddedIsBlock()
    ensures Pad([0x61, 0x62, 0x63]) == ABC_BLOCK
  {
    assert EncBig(0, 7) == Zeros(7) by { BigZeros(7); }
    assert EncBig(24, 8) == EncBig(0, 7) + [24];
    assert Zeros(52) + Zeros(7) == Zeros(59);
    assert Pad([0x61, 0x62, 0x63]) == [0x61, 0x62, 0x63] + ([0x80] + Zeros(52) + EncBig(24, 8));
  }

  lemma {:induction false} BigZeros(n: nat)
    ensures EncBig(0, n) == Zeros(n)
  {
    if n > 0 {
      BigZeros(n - 1);
      assert Zeros(n) == Zeros(n - 1) + [0];
    }
  }

  lemma FirstWord()
    ensures SHA256_WORDS.of(0x61, 0x62, 0x63, 0x80) == 0x61626380
  {
  }

  lemma ZeroWord()
    ensures SHA256_WORDS.of(0, 0, 0, 0) == 0
  {
  }

  lemma LastWord()
    ensures SHA256_WORDS.of(0, 0, 0, 24) == 24
  {
  }

  lemma InputWord(t: nat)
    requires t < 16
    ensures Schedule(SHA256_WORDS, ABC_BLOCK, t) == if t == 0 then 0x61626380 else if t == 15 then 24 else 0
  {
    FirstWord();
    ZeroWord();
    LastWord();
  }

  // ---------- the schedule ----------

  /** The 64 words of the schedule, in rows of eight. */
  const WORD_ROWS: seq<seq<bv32>> := [
    [0x61626380, 0x00000000, 0x00000000, 0x00000000, 0x00000000, 0x00000000, 0x00000000, 0x00000000],
    [0x00000000, 0x00000000, 0x00000000, 0x00000000, 0x00000000, 0x00000000, 0x00000000, 0x00000018],
    [0x61626380, 0x000f0000, 0x7da86405, 0x600003c6, 0x3e9d7b78, 0x0183fc00, 0x12dcbfdb, 0xe2e2c38e],
    [0xc8215c1a, 0xb73679a2, 0xe5bc3909, 0x32663c5b, 0x9d209d67, 0xec8726cb, 0x702138a4, 0xd3b7973b],
    [0x93f5997f, 0x3b68ba73, 0xaff4ffc1, 0xf10a5c62, 0x0a8b3996, 0x72af830a, 0x9409e33e, 0x24641522],
    [0x9f47bf94, 0xf0a64f5a, 0x3e246a79, 0x27333ba3, 0x0c4763f2, 0x840abf27, 0x7a290d5d, 0x065c43da],
    [0xfb3e89cb, 0xcc7617db, 0xb9e66c34, 0xa9993667, 0x84badedd, 0xc21462bc, 0x1487472c, 0xb20f7a99],
    [0xef57b9cd, 0xebe6b238, 0x9fe3095e, 0x78bc8d4b, 0xa43fcf15, 0x668b2ff8, 0xeeaba2cc, 0x12b1edeb]]

  function W(t: nat): bv32 {
    if t < 64 then WORD_ROWS[t / 8][t % 8] else 0
  }

  lemma FollowsIs(s: bv32, c: bv32, far: bv32, near: bv32, w: bv32)
    requires Plus(Plus(Plus(s, SmallSigma0(c)), far), SmallSigma1(near)) == w
    ensures Follows(SHA256_WORDS, s, c, far, near, w)
  {
  }

  lemma Word16()
    ensures WordFollows(SHA256_WORDS, W, 16)
  {
    FollowsIs(0x61626380, 0x00000000, 0x00000000, 0x00000000, 0x61626380);
  }

  lemma Word17()
    ensures WordFollows(SHA256_WORDS, W, 17)
  {
    FollowsIs(0x00000000, 0x00000000, 0x00000000, 0x00000018, 0x000f0000);
  }

  lemma Word18()
    ensures WordFollows(SHA256_WORDS, W, 18)
  {
    FollowsIs(0x00000000, 0x00000000, 0x00000000, 0x61626380, 0x7da86405);
  }

  lemma Word19()
    ensures WordFollows(SHA256_WORDS, W, 19)
  {
    FollowsIs(0x00000000, 0x00000000, 0x00000000, 0x000f0000, 0x600003c6);
  }

  lemma Word20()
    ensures WordFollows(SHA256_WORDS, W, 20)
  {
    FollowsIs(0x00000000, 0x00000000, 0x00000000, 0x7da86405, 0x3e9d7b78);
  }

  lemma Word21()
    ensures WordFollows(SHA256_WORDS, W, 21)
  {
    FollowsIs(0x00000000, 0x00000000, 0x00000000, 0x600003c6, 0x0183fc00);
  }

  lemma Word22()
    ensures WordFollows(SHA256_WORDS, W, 22)
  {
    FollowsIs(0x00000000, 0x00000000, 0x00000018, 0x3e9d7b78, 0x12dcbfdb);
  }

  lemma Word23()
    ensures WordFollows(SHA256_WORDS, W, 23)
  {
    FollowsIs(0x00000000, 0x00000000, 0x61626380, 0x0183fc00, 0xe2e2c38e);
  }

  lemma Word24()
    ensures WordFollows(SHA256_WORDS, W, 24)
  {
    FollowsIs(0x00000000, 0x00000000, 0x000f0000, 0x12dcbfdb, 0xc8215c1a);
  }

  lemma Word25()
    ensures WordFollows(SHA256_WORDS, W, 25)
  {
    FollowsIs(0x00000000, 0x00000000, 0x7da86405, 0xe2e2c38e, 0xb73679a2);
  }

  lemma Word26()
    ensures WordFollows(SHA256_WORDS, W, 26)
  {
    FollowsIs(0x00000000, 0x00000000, 0x600003c6, 0xc8215c1a, 0xe5bc3909);
  }

  lemma Word27()
    ensures WordFollows(SHA256_WORDS, W, 27)
  {
    FollowsIs(0x00000000, 0x00000000, 0x3e9d7b78, 0xb73679a2, 0x32663c5b);
  }

  lemma Word28()
    ensures WordFollows(SHA256_WORDS, W, 28)
  {
    FollowsIs(0x00000000, 0x00000000, 0x0183fc00, 0xe5bc3909, 0x9d209d67);
  }

  lemma Word29()
    ensures WordFollows(SHA256_WORDS, W, 29)
  {
    FollowsIs(0x00000000, 0x00000000, 0x12dcbfdb, 0x32663c5b, 0xec8726cb);
  }

  lemma Word30()
    ensures WordFollows(SHA256_WORDS, W, 30)
  {
    FollowsIs(0x00000000, 0x00000018, 0xe2e2c38e, 0x9d209d67, 0x702138a4);
  }

  lemma Word31()
    ensures WordFollows(SHA256_WORDS, W, 31)
  {
    FollowsIs(0x00000018, 0x61626380, 0xc8215c1a, 0xec8726cb, 0xd3b7973b);
  }

  lemma Word32()
    ensures WordFollows(SHA256_WORDS, W, 32)
  {
    FollowsIs(0x61626380, 0x000f0000, 0xb73679a2, 0x702138a4, 0x93f5997f);
  }

  lemma Word33()
    ensures WordFollows(SHA256_WORDS, W, 33)
  {
    FollowsIs(0x000f0000, 0x7da86405, 0xe5bc3909, 0xd3b7973b, 0x3b68ba73);
  }

  lemma Word34()
    ensures WordFollows(SHA256_WORDS, W, 34)
  {
    FollowsIs(0x7da86405, 0x600003c6, 0x32663c5b, 0x93f5997f, 0xaff4ffc1);
  }

  lemma Word35()
    ensures WordFollows(SHA256_WORDS, W, 35)
  {
    FollowsIs(0x600003c6, 0x3e9d7b78, 0x9d209d67, 0x3b68ba73, 0xf10a5c62);
  }

  lemma Word36()
    ensures WordFollows(SHA256_WORDS, W, 36)
  {
    FollowsIs(0x3e9d7b78, 0x0183fc00, 0xec8726cb, 0xaff4ffc1, 0x0a8b3996);
  }

  lemma Word37()
    ensures WordFollows(SHA256_WORDS, W, 37)
  {
    FollowsIs(0x0183fc00, 0x12dcbfdb, 0x702138a4, 0xf10a5c62, 0x72af830a);
  }

  lemma Word38()
    ensures WordFollows(SHA256_WORDS, W, 38)
  {
    FollowsIs(0x12dcbfdb, 0xe2e2c38e, 0xd3b7973b, 0x0a8b3996, 0x9409e33e);
  }

  lemma Word39()
    ensures WordFollows(SHA256_WORDS, W, 39)
  {
    FollowsIs(0xe2e2c38e, 0xc8215c1a, 0x93f5997f, 0x72af830a, 0x24641522);
  }

  lemma Word40()
    ensures WordFollows(SHA256_WORDS, W, 40)
  {
    FollowsIs(0xc8215c1a, 0xb73679a2, 0x3b68ba73, 0x9409e33e, 0x9f47bf94);
  }

  lemma Word41()
    ensures WordFollows(SHA256_WORDS, W, 41)
  {
    FollowsIs(0xb73679a2, 0xe5bc3909, 0xaff4ffc1, 0x24641522, 0xf0a64f5a);
  }

  lemma Word42()
    ensures WordFollows(SHA256_WORDS, W, 42)
  {
    FollowsIs(0xe5bc3909, 0x32663c5b, 0xf10a5c62, 0x9f47bf94, 0x3e246a79);
  }

  lemma Word43()
    ensures WordFollows(SHA256_WORDS, W, 43)
  {
    FollowsIs(0x32663c5b, 0x9d209d67, 0x0a8b3996, 0xf0a64f5a, 0x27333ba3);
  }

  lemma Word44()
    ensures WordFollows(SHA256_WORDS, W, 44)
  {
    FollowsIs(0x9d209d67, 0xec8726cb, 0x72af830a, 0x3e246a79, 0x0c4763f2);
  }

  lemma Word45()
    ensures WordFollows(SHA256_WORDS, W, 45)
  {
    FollowsIs(0xec8726cb, 0x702138a4, 0x9409e33e, 0x27333ba3, 0x840abf27);
  }

  lemma Word46()
    ensures WordFollows(SHA256_WORDS, W, 46)
  {
    FollowsIs(0x702138a4, 0xd3b7973b, 0x24641522, 0x0c4763f2, 0x7a290d5d);
  }

  lemma Word47()
    ensures WordFollows(SHA256_WORDS, W, 47)
  {
    FollowsIs(0xd3b7973b, 0x93f5997f, 0x9f47bf94, 0x840abf27, 0x065c43da);
  }

  lemma Word48()
    ensures WordFollows(SHA256_WORDS, W, 48)
  {
    FollowsIs(0x93f5997f, 0x3b68ba73, 0xf0a64f5a, 0x7a290d5d, 0xfb3e89cb);
  }

  lemma Word49()
    ensures WordFollows(SHA256_WORDS, W, 49)
  {
    FollowsIs(0x3b68ba73, 0xaff4ffc1, 0x3e246a79, 0x065c43da, 0xcc7617db);
  }

  lemma Word50()
    ensures WordFollows(SHA256_WORDS, W, 50)
  {
    FollowsIs(0xaff4ffc1, 0xf10a5c62, 0x27333ba3, 0xfb3e89cb, 0xb9e66c34);
  }

  lemma Word51()
    ensures WordFollows(SHA256_WORDS, W, 51)
  {
    FollowsIs(0xf10a5c62, 0x0a8b3996, 0x0c4763f2, 0xcc7617db, 0xa9993667);
  }

  lemma Word52()
    ensures WordFollows(SHA256_WORDS, W, 52)
  {
    FollowsIs(0x0a8b3996, 0x72af830a, 0x840abf27, 0xb9e66c34, 0x84badedd);
  }

  lemma Word53()
    ensures WordFollows(SHA256_WORDS, W, 53)
  {
    FollowsIs(0x72af830a, 0x9409e33e, 0x7a290d5d, 0xa9993667, 0xc21462bc);
  }

  lemma Word54()
    ensures WordFollows(SHA256_WORDS, W, 54)
  {
    FollowsIs(0x9409e33e, 0x24641522, 0x065c43da, 0x84badedd, 0x1487472c);
  }

  lemma Word55()
    ensures WordFollows(SHA256_WORDS, W, 55)
  {
    FollowsIs(0x24641522, 0x9f47bf94, 0xfb3e89cb, 0xc21462bc, 0xb20f7a99);
  }

  lemma Word56()
    ensures WordFollows(SHA256_WORDS, W, 56)
  {
    FollowsIs(0x9f47bf94, 0xf0a64f5a, 0xcc7617db, 0x1487472c, 0xef57b9cd);
  }

  lemma Word57()
    ensures WordFollows(SHA256_WORDS, W, 57)
  {
    FollowsIs(0xf0a64f5a, 0x3e246a79, 0xb9e66c34, 0xb20f7a99, 0xebe6b238);
  }

  lemma Word58()
    ensures WordFollows(SHA256_WORDS, W, 58)
  {
    FollowsIs(0x3e246a79, 0x27333ba3, 0xa9993667, 0xef57b9cd, 0x9fe3095e);
  }

  lemma Word59()
    ensures WordFollows(SHA256_WORDS, W, 59)
  {
    FollowsIs(0x27333ba3, 0x0c4763f2, 0x84badedd, 0xebe6b238, 0x78bc8d4b);
  }

  lemma Word60()
    ensures WordFollows(SHA256_WORDS, W, 60)
  {
    FollowsIs(0x0c4763f2, 0x840abf27, 0xc21462bc, 0x9fe3095e, 0xa43fcf15);
  }

  lemma Word61()
    ensures WordFollows(SHA256_WORDS, W, 61)
  {
    FollowsIs(0x840abf27, 0x7a290d5d, 0x1487472c, 0x78bc8d4b, 0x668b2ff8);
  }

  lemma Word62()
    ensures WordFollows(SHA256_WORDS, W, 62)
  {
    FollowsIs(0x7a290d5d, 0x065c43da, 0xb20f7a99, 0xa43fcf15, 0xeeaba2cc);
  }

  lemma Word63()
    ensures WordFollows(SHA256_WORDS, W, 63)
  {
    FollowsIs(0x065c43da, 0xfb3e89cb, 0xef57b9cd, 0x668b2ff8, 0x12b1edeb);
  }

  // ---------- the rounds ----------

  /** The working variables before each round, in rows of eight. */
  const STATE_ROWS: seq<seq<Hash<bv32>>> := [
    [Hash(0x6a09e667, 0xbb67ae85, 0x3c6ef372, 0xa54ff53a, 0x510e527f, 0x9b05688c, 0x1f83d9ab, 0x5be0cd19),
     Hash(0x5d6aebcd, 0x6a09e667, 0xbb67ae85, 0x3c6ef372, 0xfa2a4622, 0x510e527f, 0x9b05688c, 0x1f83d9ab),
     Hash(0x5a6ad9ad, 0x5d6aebcd, 0x6a09e667, 0xbb67ae85, 0x78ce7989, 0xfa2a4622, 0x510e527f, 0x9b05688c),
     Hash(0xc8c347a7, 0x5a6ad9ad, 0x5d6aebcd, 0x6a09e667, 0xf92939eb, 0x78ce7989, 0xfa2a4622, 0x510e527f),
     Hash(0xd550f666, 0xc8c347a7, 0x5a6ad9ad, 0x5d6aebcd, 0x24e00850, 0xf92939eb, 0x78ce7989, 0xfa2a4622),
     Hash(0x04409a6a, 0xd550f666, 0xc8c347a7, 0x5a6ad9ad, 0x43ada245, 0x24e00850, 0xf92939eb, 0x78ce7989),
     Hash(0x2b4209f5, 0x04409a6a, 0xd550f666, 0xc8c347a7, 0x714260ad, 0x43ada245, 0x24e00850, 0xf92939eb),
     Hash(0xe5030380, 0x2b4209f5, 0x04409a6a, 0xd550f666, 0x9b27a401, 0x714260ad, 0x43ada245, 0x24e00850)],
    [Hash(0x85a07b5f, 0xe5030380, 0x2b4209f5, 0x04409a6a, 0x0c657a79, 0x9b27a401, 0x714260ad, 0x43ada245),
     Hash(0x8e04ecb9, 0x85a07b5f, 0xe5030380, 0x2b4209f5, 0x32ca2d8c, 0x0c657a79, 0x9b27a401, 0x714260ad),
     Hash(0x8c87346b, 0x8e04ecb9, 0x85a07b5f, 0xe5030380, 0x1cc92596, 0x32ca2d8c, 0x0c657a79, 0x9b27a401),
     Hash(0x4798a3f4, 0x8c87346b, 0x8e04ecb9, 0x85a07b5f, 0x436b23e8, 0x1cc92596, 0x32ca2d8c, 0x0c657a79),
     Hash(0xf71fc5a9, 0x4798a3f4, 0x8c87346b, 0x8e04ecb9, 0x816fd6e9, 0x436b23e8, 0x1cc92596, 0x32ca2d8c),
     Hash(0x87912990, 0xf71fc5a9, 0x4798a3f4, 0x8c87346b, 0x1e578218, 0x816fd6e9, 0x436b23e8, 0x1cc92596),
     Hash(0xd932eb16, 0x87912990, 0xf71fc5a9, 0x4798a3f4, 0x745a48de, 0x1e578218, 0x816fd6e9, 0x436b23e8),
     Hash(0xc0645fde, 0xd932eb16, 0x87912990, 0xf71fc5a9, 0x0b92f20c, 0x745a48de, 0x1e578218, 0x816fd6e9)],
    [Hash(0xb0fa238e, 0xc0645fde, 0xd932eb16, 0x87912990, 0x07590dcd, 0x0b92f20c, 0x745a48de, 0x1e578218),
     Hash(0x21da9a9b, 0xb0fa238e, 0xc0645fde, 0xd932eb16, 0x8034229c, 0x07590dcd, 0x0b92f20c, 0x745a48de),
     Hash(0xc2fbd9d1, 0x21da9a9b, 0xb0fa238e, 0xc0645fde, 0x846ee454, 0x8034229c, 0x07590dcd, 0x0b92f20c),
     Hash(0xfe777bbf, 0xc2fbd9d1, 0x21da9a9b, 0xb0fa238e, 0xcc899961, 0x846ee454, 0x8034229c, 0x07590dcd),
     Hash(0xe1f20c33, 0xfe777bbf, 0xc2fbd9d1, 0x21da9a9b, 0xb0638179, 0xcc899961, 0x846ee454, 0x8034229c),
     Hash(0x9dc68b63, 0xe1f20c33, 0xfe777bbf, 0xc2fbd9d1, 0x8ada8930, 0xb0638179, 0xcc899961, 0x846ee454),
     Hash(0xc2606d6d, 0x9dc68b63, 0xe1f20c33, 0xfe777bbf, 0xe1257970, 0x8ada8930, 0xb0638179, 0xcc899961),
     Hash(0xa7a3623f, 0xc2606d6d, 0x9dc68b63, 0xe1f20c33, 0x49f5114a, 0xe1257970, 0x8ada8930, 0xb0638179)],
    [Hash(0xc5d53d8d, 0xa7a3623f, 0xc2606d6d, 0x9dc68b63, 0xaa47c347, 0x49f5114a, 0xe1257970, 0x8ada8930),
     Hash(0x1c2c2838, 0xc5d53d8d, 0xa7a3623f, 0xc2606d6d, 0x2823ef91, 0xaa47c347, 0x49f5114a, 0xe1257970),
     Hash(0xcde8037d, 0x1c2c2838, 0xc5d53d8d, 0xa7a3623f, 0x14383d8e, 0x2823ef91, 0xaa47c347, 0x49f5114a),
     Hash(0xb62ec4bc, 0xcde8037d, 0x1c2c2838, 0xc5d53d8d, 0xc74c6516, 0x14383d8e, 0x2823ef91, 0xaa47c347),
     Hash(0x77d37528, 0xb62ec4bc, 0xcde8037d, 0x1c2c2838, 0xedffbff8, 0xc74c6516, 0x14383d8e, 0x2823ef91),
     Hash(0x363482c9, 0x77d37528, 0xb62ec4bc, 0xcde8037d, 0x6112a3b7, 0xedffbff8, 0xc74c6516, 0x14383d8e),
     Hash(0xa0060b30, 0x363482c9, 0x77d37528, 0xb62ec4bc, 0xade79437, 0x6112a3b7, 0xedffbff8, 0xc74c6516),
     Hash(0xea992a22, 0xa0060b30, 0x363482c9, 0x77d37528, 0x0109ab3a, 0xade79437, 0x6112a3b7, 0xedffbff8)],
    [Hash(0x73b33bf5, 0xea992a22, 0xa0060b30, 0x363482c9, 0xba591112, 0x0109ab3a, 0xade79437, 0x6112a3b7),
     Hash(0x98e12507, 0x73b33bf5, 0xea992a22, 0xa0060b30, 0x9cd9f5f6, 0xba591112, 0x0109ab3a, 0xade79437),
     Hash(0xfe604df5, 0x98e12507, 0x73b33bf5, 0xea992a22, 0x59249dd3, 0x9cd9f5f6, 0xba591112, 0x0109ab3a),
     Hash(0xa9a7738c, 0xfe604df5, 0x98e12507, 0x73b33bf5, 0x085f3833, 0x59249dd3, 0x9cd9f5f6, 0xba591112),
     Hash(0x65a0cfe4, 0xa9a7738c, 0xfe604df5, 0x98e12507, 0xf4b002d6, 0x085f3833, 0x59249dd3, 0x9cd9f5f6),
     Hash(0x41a65cb1, 0x65a0cfe4, 0xa9a7738c, 0xfe604df5, 0x0772a26b, 0xf4b002d6, 0x085f3833, 0x59249dd3),
     Hash(0x34df1604, 0x41a65cb1, 0x65a0cfe4, 0xa9a7738c, 0xa507a53d, 0x0772a26b, 0xf4b002d6, 0x085f3833),
     Hash(0x6dc57a8a, 0x34df1604, 0x41a65cb1, 0x65a0cfe4, 0xf0781bc8, 0xa507a53d, 0x0772a26b, 0xf4b002d6)],
    [Hash(0x79ea687a, 0x6dc57a8a, 0x34df1604, 0x41a65cb1, 0x1efbc0a0, 0xf0781bc8, 0xa507a53d, 0x0772a26b),
     Hash(0xd6670766, 0x79ea687a, 0x6dc57a8a, 0x34df1604, 0x26352d63, 0x1efbc0a0, 0xf0781bc8, 0xa507a53d),
     Hash(0xdf46652f, 0xd6670766, 0x79ea687a, 0x6dc57a8a, 0x838b2711, 0x26352d63, 0x1efbc0a0, 0xf0781bc8),
     Hash(0x17aa0dfe, 0xdf46652f, 0xd6670766, 0x79ea687a, 0xdecd4715, 0x838b2711, 0x26352d63, 0x1efbc0a0),
     Hash(0x9d4baf93, 0x17aa0dfe, 0xdf46652f, 0xd6670766, 0xfda24c2e, 0xdecd4715, 0x838b2711, 0x26352d63),
     Hash(0x26628815, 0x9d4baf93, 0x17aa0dfe, 0xdf46652f, 0xa80f11f0, 0xfda24c2e, 0xdecd4715, 0x838b2711),
     Hash(0x72ab4b91, 0x26628815, 0x9d4baf93, 0x17aa0dfe, 0xb7755da1, 0xa80f11f0, 0xfda24c2e, 0xdecd4715),
     Hash(0xa14c14b0, 0x72ab4b91, 0x26628815, 0x9d4baf93, 0xd57b94a9, 0xb7755da1, 0xa80f11f0, 0xfda24c2e)],
    [Hash(0x4172328d, 0xa14c14b0, 0x72ab4b91, 0x26628815, 0xfecf0bc6, 0xd57b94a9, 0xb7755da1, 0xa80f11f0),
     Hash(0x05757ceb, 0x4172328d, 0xa14c14b0, 0x72ab4b91, 0xbd714038, 0xfecf0bc6, 0xd57b94a9, 0xb7755da1),
     Hash(0xf11bfaa8, 0x05757ceb, 0x4172328d, 0xa14c14b0, 0x6e5c390c, 0xbd714038, 0xfecf0bc6, 0xd57b94a9),
     Hash(0x7a0508a1, 0xf11bfaa8, 0x05757ceb, 0x4172328d, 0x52f1ccf7, 0x6e5c390c, 0xbd714038, 0xfecf0bc6),
     Hash(0x886e7a22, 0x7a0508a1, 0xf11bfaa8, 0x05757ceb, 0x49231c1e, 0x52f1ccf7, 0x6e5c390c, 0xbd714038),
     Hash(0x101fd28f, 0x886e7a22, 0x7a0508a1, 0xf11bfaa8, 0x529e7d00, 0x49231c1e, 0x52f1ccf7, 0x6e5c390c),
     Hash(0xf5702fdb, 0x101fd28f, 0x886e7a22, 0x7a0508a1, 0x9f4787c3, 0x529e7d00, 0x49231c1e, 0x52f1ccf7),
     Hash(0x3ec45cdb, 0xf5702fdb, 0x101fd28f, 0x886e7a22, 0xe50e1b4f, 0x9f4787c3, 0x529e7d00, 0x49231c1e)],
    [Hash(0x38cc9913, 0x3ec45cdb, 0xf5702fdb, 0x101fd28f, 0x54cb266b, 0xe50e1b4f, 0x9f4787c3, 0x529e7d00),
     Hash(0xfcd1887b, 0x38cc9913, 0x3ec45cdb, 0xf5702fdb, 0x9b5e906c, 0x54cb266b, 0xe50e1b4f, 0x9f4787c3),
     Hash(0xc062d46f, 0xfcd1887b, 0x38cc9913, 0x3ec45cdb, 0x7e44008e, 0x9b5e906c, 0x54cb266b, 0xe50e1b4f),
     Hash(0xffb70472, 0xc062d46f, 0xfcd1887b, 0x38cc9913, 0x6d83bfc6, 0x7e44008e, 0x9b5e906c, 0x54cb266b),
     Hash(0xb6ae8fff, 0xffb70472, 0xc062d46f, 0xfcd1887b, 0xb21bad3d, 0x6d83bfc6, 0x7e44008e, 0x9b5e906c),
     Hash(0xb85e2ce9, 0xb6ae8fff, 0xffb70472, 0xc062d46f, 0x961f4894, 0xb21bad3d, 0x6d83bfc6, 0x7e44008e),
     Hash(0x04d24d6c, 0xb85e2ce9, 0xb6ae8fff, 0xffb70472, 0x948d25b6, 0x961f4894, 0xb21bad3d, 0x6d83bfc6),
     Hash(0xd39a2165, 0x04d24d6c, 0xb85e2ce9, 0xb6ae8fff, 0xfb121210, 0x948d25b6, 0x961f4894, 0xb21bad3d)]]

  const AFTER_ROUNDS: Hash<bv32> := Hash(0x506e3058, 0xd39a2165, 0x04d24d6c, 0xb85e2ce9, 0x5ef50f24, 0xfb121210, 0x948d25b6, 0x961f4894)

  function S(t: nat): Hash<bv32> {
    if t < 64 then STATE_ROWS[t / 8][t % 8] else AFTER_ROUNDS
  }

  lemma RoundOf(a: bv32, b: bv32, c: bv32, d: bv32, e: bv32, f: bv32, g: bv32, h: bv32, k: bv32, w: bv32, first: bv32, second: bv32)
    requires Plus(Plus(Plus(Plus(h, BigSigma1(e)), Ch(e, f, g)), k), w) == first && Plus(BigSigma0(a), Maj(a, b, c)) == second
    ensures Round(SHA256_WORDS, Hash(a, b, c, d, e, f, g, h), k, w) == Hash(Plus(first, second), a, b, c, Plus(d, first), e, f, g)
  {
  }

  lemma State0()
    ensures StateFollows(SHA256_WORDS, W, S, 0)
  {
    RoundOf(0x6a09e667, 0xbb67ae85, 0x3c6ef372, 0xa54ff53a, 0x510e527f, 0x9b05688c, 0x1f83d9ab, 0x5be0cd19,
            0x428a2f98, 0x61626380, 0x54da50e8, 0x08909ae5);
  }

  lemma State1()
    ensures StateFollows(SHA256_WORDS, W, S, 1)
  {
    RoundOf(0x5d6aebcd, 0x6a09e667, 0xbb67ae85, 0x3c6ef372, 0xfa2a4622, 0x510e527f, 0x9b05688c, 0x1f83d9ab,
            0x71374491, 0x00000000, 0x3c5f8617, 0x1e0b5396);
  }

  lemma State2()
    ensures StateFollows(SHA256_WORDS, W, S, 2)
  {
    RoundOf(0x5a6ad9ad, 0x5d6aebcd, 0x6a09e667, 0xbb67ae85, 0x78ce7989, 0xfa2a4622, 0x510e527f, 0x9b05688c,
            0xb5c0fbcf, 0x00000000, 0x3dc18b66, 0x8b01bc41);
  }

  lemma State3()
    ensures StateFollows(SHA256_WORDS, W, S, 3)
  {
    RoundOf(0xc8c347a7, 0x5a6ad9ad, 0x5d6aebcd, 0x6a09e667, 0xf92939eb, 0x78ce7989, 0xfa2a4622, 0x510e527f,
            0xe9b5dba5, 0x00000000, 0xbad621e9, 0x1a7ad47d);
  }

  lemma State4()
    ensures StateFollows(SHA256_WORDS, W, S, 4)
  {
    RoundOf(0xd550f666, 0xc8c347a7, 0x5a6ad9ad, 0x5d6aebcd, 0x24e00850, 0xf92939eb, 0x78ce7989, 0xfa2a4622,
            0x3956c25b, 0x00000000, 0xe642b678, 0x1dfde3f2);
  }

  lemma State5()
    ensures StateFollows(SHA256_WORDS, W, S, 5)
  {
    RoundOf(0x04409a6a, 0xd550f666, 0xc8c347a7, 0x5a6ad9ad, 0x43ada245, 0x24e00850, 0xf92939eb, 0x78ce7989,
            0x59f111f1, 0x00000000, 0x16d78700, 0x146a82f5);
  }

  lemma State6()
    ensures StateFollows(SHA256_WORDS, W, S, 6)
  {
    RoundOf(0x2b4209f5, 0x04409a6a, 0xd550f666, 0xc8c347a7, 0x714260ad, 0x43ada245, 0x24e00850, 0xf92939eb,
            0x923f82a4, 0x00000000, 0xd2645c5a, 0x129ea726);
  }

  lemma State7()
    ensures StateFollows(SHA256_WORDS, W, S, 7)
  {
    RoundOf(0xe5030380, 0x2b4209f5, 0x04409a6a, 0xd550f666, 0x9b27a401, 0x714260ad, 0x43ada245, 0x24e00850,
            0xab1c5ed5, 0x00000000, 0x37148413, 0x4e8bf74c);
  }

  lemma State8()
    ensures StateFollows(SHA256_WORDS, W, S, 8)
  {
    RoundOf(0x85a07b5f, 0xe5030380, 0x2b4209f5, 0x04409a6a, 0x0c657a79, 0x9b27a401, 0x714260ad, 0x43ada245,
            0xd807aa98, 0x00000000, 0x2e899322, 0x5f7b5997);
  }

  lemma State9()
    ensures StateFollows(SHA256_WORDS, W, S, 9)
  {
    RoundOf(0x8e04ecb9, 0x85a07b5f, 0xe5030380, 0x2b4209f5, 0x32ca2d8c, 0x0c657a79, 0x9b27a401, 0x714260ad,
            0x12835b01, 0x00000000, 0xf1871ba1, 0x9b0018ca);
  }

  lemma State10()
    ensures StateFollows(SHA256_WORDS, W, S, 10)
  {
    RoundOf(0x8c87346b, 0x8e04ecb9, 0x85a07b5f, 0xe5030380, 0x1cc92596, 0x32ca2d8c, 0x0c657a79, 0x9b27a401,
            0x243185be, 0x00000000, 0x5e682068, 0xe930838c);
  }

  lemma State11()
    ensures StateFollows(SHA256_WORDS, W, S, 11)
  {
    RoundOf(0x4798a3f4, 0x8c87346b, 0x8e04ecb9, 0x85a07b5f, 0x436b23e8, 0x1cc92596, 0x32ca2d8c, 0x0c657a79,
            0x550c7dc3, 0x00000000, 0xfbcf5b8a, 0xfb506a1f);
  }

  lemma State12()
    ensures StateFollows(SHA256_WORDS, W, S, 12)
  {
    RoundOf(0xf71fc5a9, 0x4798a3f4, 0x8c87346b, 0x8e04ecb9, 0x816fd6e9, 0x436b23e8, 0x1cc92596, 0x32ca2d8c,
            0x72be5d74, 0x00000000, 0x9052955f, 0xf73e9431);
  }

  lemma State13()
    ensures StateFollows(SHA256_WORDS, W, S, 13)
  {
    RoundOf(0x87912990, 0xf71fc5a9, 0x4798a3f4, 0x8c87346b, 0x1e578218, 0x816fd6e9, 0x436b23e8, 0x1cc92596,
            0x80deb1fe, 0x00000000, 0xe7d31473, 0xf15fd6a3);
  }

  lemma State14()
    ensures StateFollows(SHA256_WORDS, W, S, 14)
  {
    RoundOf(0xd932eb16, 0x87912990, 0xf71fc5a9, 0x4798a3f4, 0x745a48de, 0x1e578218, 0x816fd6e9, 0x436b23e8,
            0x9bdc06a7, 0x00000000, 0xc3fa4e18, 0xfc6a11c6);
  }

  lemma State15()
    ensures StateFollows(SHA256_WORDS, W, S, 15)
  {
    RoundOf(0xc0645fde, 0xd932eb16, 0x87912990, 0xf71fc5a9, 0x0b92f20c, 0x745a48de, 0x1e578218, 0x816fd6e9,
            0xc19bf174, 0x00000018, 0x10394824, 0xa0c0db6a);
  }

  lemma State16()
    ensures StateFollows(SHA256_WORDS, W, S, 16)
  {
    RoundOf(0xb0fa238e, 0xc0645fde, 0xd932eb16, 0x87912990, 0x07590dcd, 0x0b92f20c, 0x745a48de, 0x1e578218,
            0xe49b69c1, 0x61626380, 0xf8a2f90c, 0x2937a18f);
  }

  lemma State17()
    ensures StateFollows(SHA256_WORDS, W, S, 17)
  {
    RoundOf(0x21da9a9b, 0xb0fa238e, 0xc0645fde, 0xd932eb16, 0x8034229c, 0x07590dcd, 0x0b92f20c, 0x745a48de,
            0xefbe4786, 0x000f0000, 0xab3bf93e, 0x17bfe093);
  }

  lemma State18()
    ensures StateFollows(SHA256_WORDS, W, S, 18)
  {
    RoundOf(0xc2fbd9d1, 0x21da9a9b, 0xb0fa238e, 0xc0645fde, 0x846ee454, 0x8034229c, 0x07590dcd, 0x0b92f20c,
            0x0fc19dc6, 0x7da86405, 0x0c253983, 0xf252423c);
  }

  lemma State19()
    ensures StateFollows(SHA256_WORDS, W, S, 19)
  {
    RoundOf(0xfe777bbf, 0xc2fbd9d1, 0x21da9a9b, 0xb0fa238e, 0xcc899961, 0x846ee454, 0x8034229c, 0x07590dcd,
            0x240ca1cc, 0x600003c6, 0xff695deb, 0xe288ae48);
  }

  lemma State20()
    ensures StateFollows(SHA256_WORDS, W, S, 20)
  {
    RoundOf(0xe1f20c33, 0xfe777bbf, 0xc2fbd9d1, 0x21da9a9b, 0xb0638179, 0xcc899961, 0x846ee454, 0x8034229c,
            0x2de92c6f, 0x3e9d7b78, 0x68ffee95, 0x34c69cce);
  }

  lemma State21()
    ensures StateFollows(SHA256_WORDS, W, S, 21)
  {
    RoundOf(0x9dc68b63, 0xe1f20c33, 0xfe777bbf, 0xc2fbd9d1, 0x8ada8930, 0xb0638179, 0xcc899961, 0x846ee454,
            0x4a7484aa, 0x0183fc00, 0x1e299f9f, 0xa436cdce);
  }

  lemma State22()
    ensures StateFollows(SHA256_WORDS, W, S, 22)
  {
    RoundOf(0xc2606d6d, 0x9dc68b63, 0xe1f20c33, 0xfe777bbf, 0xe1257970, 0x8ada8930, 0xb0638179, 0xcc899961,
            0x5cb0a9dc, 0x12dcbfdb, 0x4b7d958b, 0x5c25ccb4);
  }

  lemma State23()
    ensures StateFollows(SHA256_WORDS, W, S, 23)
  {
    RoundOf(0xa7a3623f, 0xc2606d6d, 0x9dc68b63, 0xe1f20c33, 0x49f5114a, 0xe1257970, 0x8ada8930, 0xb0638179,
            0x76f988da, 0xe2e2c38e, 0xc855b714, 0xfd7f8679);
  }

  lemma State24()
    ensures StateFollows(SHA256_WORDS, W, S, 24)
  {
    RoundOf(0xc5d53d8d, 0xa7a3623f, 0xc2606d6d, 0x9dc68b63, 0xaa47c347, 0x49f5114a, 0xe1257970, 0x8ada8930,
            0x983e5152, 0xc8215c1a, 0x8a5d642e, 0x91cec40a);
  }

  lemma State25()
    ensures StateFollows(SHA256_WORDS, W, S, 25)
  {
    RoundOf(0x1c2c2838, 0xc5d53d8d, 0xa7a3623f, 0xc2606d6d, 0x2823ef91, 0xaa47c347, 0x49f5114a, 0xe1257970,
            0xa831c66d, 0xb73679a2, 0x51d7d021, 0x7c10335c);
  }

  lemma State26()
    ensures StateFollows(SHA256_WORDS, W, S, 26)
  {
    RoundOf(0xcde8037d, 0x1c2c2838, 0xc5d53d8d, 0xa7a3623f, 0x14383d8e, 0x2823ef91, 0xaa47c347, 0x49f5114a,
            0xb00327c8, 0xe5bc3909, 0x1fa902d7, 0x9685c1e5);
  }

  lemma State27()
    ensures StateFollows(SHA256_WORDS, W, S, 27)
  {
    RoundOf(0xb62ec4bc, 0xcde8037d, 0x1c2c2838, 0xc5d53d8d, 0xc74c6516, 0x14383d8e, 0x2823ef91, 0xaa47c347,
            0xbf597fc7, 0x32663c5b, 0x282a826b, 0x4fa8f2bd);
  }

  lemma State28()
    ensures StateFollows(SHA256_WORDS, W, S, 28)
  {
    RoundOf(0x77d37528, 0xb62ec4bc, 0xcde8037d, 0x1c2c2838, 0xedffbff8, 0xc74c6516, 0x14383d8e, 0x2823ef91,
            0xc6e00bf3, 0x9d209d67, 0x44e67b7f, 0xf14e074a);
  }

  lemma State29()
    ensures StateFollows(SHA256_WORDS, W, S, 29)
  {
    RoundOf(0x363482c9, 0x77d37528, 0xb62ec4bc, 0xcde8037d, 0x6112a3b7, 0xedffbff8, 0xc74c6516, 0x14383d8e,
            0xd5a79147, 0xec8726cb, 0xdfff90ba, 0xc0067a76);
  }

  lemma State30()
    ensures StateFollows(SHA256_WORDS, W, S, 30)
  {
    RoundOf(0xa0060b30, 0x363482c9, 0x77d37528, 0xb62ec4bc, 0xade79437, 0x6112a3b7, 0xedffbff8, 0xc74c6516,
            0x06ca6351, 0x702138a4, 0x4adae67e, 0x9fbe43a4);
  }

  lemma State31()
    ensures StateFollows(SHA256_WORDS, W, S, 31)
  {
    RoundOf(0xea992a22, 0xa0060b30, 0x363482c9, 0x77d37528, 0x0109ab3a, 0xade79437, 0x6112a3b7, 0xedffbff8,
            0x14292967, 0xd3b7973b, 0x42859bea, 0x312da00b);
  }

  lemma State32()
    ensures StateFollows(SHA256_WORDS, W, S, 32)
  {
    RoundOf(0x73b33bf5, 0xea992a22, 0xa0060b30, 0x363482c9, 0xba591112, 0x0109ab3a, 0xade79437, 0x6112a3b7,
            0x27b70a85, 0x93f5997f, 0x66a5732d, 0x323bb1da);
  }

  lemma State33()
    ensures StateFollows(SHA256_WORDS, W, S, 33)
  {
    RoundOf(0x98e12507, 0x73b33bf5, 0xea992a22, 0xa0060b30, 0x9cd9f5f6, 0xba591112, 0x0109ab3a, 0xade79437,
            0x2e1b2138, 0x3b68ba73, 0xb91e92a3, 0x4541bb52);
  }

  lemma State34()
    ensures StateFollows(SHA256_WORDS, W, S, 34)
  {
    RoundOf(0xfe604df5, 0x98e12507, 0x73b33bf5, 0xea992a22, 0x59249dd3, 0x9cd9f5f6, 0xba591112, 0x0109ab3a,
            0x4d2c6dfc, 0xaff4ffc1, 0x1dc60e11, 0x8be1657b);
  }

  lemma State35()
    ensures StateFollows(SHA256_WORDS, W, S, 35)
  {
    RoundOf(0xa9a7738c, 0xfe604df5, 0x98e12507, 0x73b33bf5, 0x085f3833, 0x59249dd3, 0x9cd9f5f6, 0xba591112,
            0x53380d13, 0xf10a5c62, 0x80fcc6e1, 0xe4a40903);
  }

  lemma State36()
    ensures StateFollows(SHA256_WORDS, W, S, 36)
  {
    RoundOf(0x65a0cfe4, 0xa9a7738c, 0xfe604df5, 0x98e12507, 0xf4b002d6, 0x085f3833, 0x59249dd3, 0x9cd9f5f6,
            0x650a7354, 0x0a8b3996, 0x6e917d64, 0xd314df4d);
  }

  lemma State37()
    ensures StateFollows(SHA256_WORDS, W, S, 37)
  {
    RoundOf(0x41a65cb1, 0x65a0cfe4, 0xa9a7738c, 0xfe604df5, 0x0772a26b, 0xf4b002d6, 0x085f3833, 0x59249dd3,
            0x766a0abb, 0x72af830a, 0xa6a75748, 0x8e37bebc);
  }

  lemma State38()
    ensures StateFollows(SHA256_WORDS, W, S, 38)
  {
    RoundOf(0x34df1604, 0x41a65cb1, 0x65a0cfe4, 0xa9a7738c, 0xa507a53d, 0x0772a26b, 0xf4b002d6, 0x085f3833,
            0x81c2c92e, 0x9409e33e, 0x46d0a83c, 0x26f4d24e);
  }

  lemma State39()
    ensures StateFollows(SHA256_WORDS, W, S, 39)
  {
    RoundOf(0x6dc57a8a, 0x34df1604, 0x41a65cb1, 0x65a0cfe4, 0xf0781bc8, 0xa507a53d, 0x0772a26b, 0xf4b002d6,
            0x92722c85, 0x24641522, 0xb95af0bc, 0xc08f77be);
  }

  lemma State40()
    ensures StateFollows(SHA256_WORDS, W, S, 40)
  {
    RoundOf(0x79ea687a, 0x6dc57a8a, 0x34df1604, 0x41a65cb1, 0x1efbc0a0, 0xf0781bc8, 0xa507a53d, 0x0772a26b,
            0xa2bfe8a1, 0x9f47bf94, 0xe48ed0b2, 0xf1d836b4);
  }

  lemma State41()
    ensures StateFollows(SHA256_WORDS, W, S, 41)
  {
    RoundOf(0xd6670766, 0x79ea687a, 0x6dc57a8a, 0x34df1604, 0x26352d63, 0x1efbc0a0, 0xf0781bc8, 0xa507a53d,
            0xa81a664b, 0xf0a64f5a, 0x4eac110d, 0x909a5422);
  }

  lemma State42()
    ensures StateFollows(SHA256_WORDS, W, S, 42)
  {
    RoundOf(0xdf46652f, 0xd6670766, 0x79ea687a, 0x6dc57a8a, 0x838b2711, 0x26352d63, 0x1efbc0a0, 0xf0781bc8,
            0xc24b8b70, 0x3e246a79, 0x7107cc8b, 0xa6a24173);
  }

  lemma State43()
    ensures StateFollows(SHA256_WORDS, W, S, 43)
  {
    RoundOf(0x17aa0dfe, 0xdf46652f, 0xd6670766, 0x79ea687a, 0xdecd4715, 0x838b2711, 0x26352d63, 0x1efbc0a0,
            0xc76c51a3, 0x27333ba3, 0x83b7e3b4, 0x1993cbdf);
  }

  lemma State44()
    ensures StateFollows(SHA256_WORDS, W, S, 44)
  {
    RoundOf(0x9d4baf93, 0x17aa0dfe, 0xdf46652f, 0xd6670766, 0xfda24c2e, 0xdecd4715, 0x838b2711, 0x26352d63,
            0xd192e819, 0x0c4763f2, 0xd1a80a8a, 0x54ba7d8b);
  }

  lemma State45()
    ensures StateFollows(SHA256_WORDS, W, S, 45)
  {
    RoundOf(0x26628815, 0x9d4baf93, 0x17aa0dfe, 0xdf46652f, 0xa80f11f0, 0xfda24c2e, 0xdecd4715, 0x838b2711,
            0xd6990624, 0x840abf27, 0xd82ef872, 0x9a7c531f);
  }

  lemma State46()
    ensures StateFollows(SHA256_WORDS, W, S, 46)
  {
    RoundOf(0x72ab4b91, 0x26628815, 0x9d4baf93, 0x17aa0dfe, 0xb7755da1, 0xa80f11f0, 0xfda24c2e, 0xdecd4715,
            0xf40e3585, 0x7a290d5d, 0xbdd186ab, 0xe37a8e05);
  }

  lemma State47()
    ensures StateFollows(SHA256_WORDS, W, S, 47)
  {
    RoundOf(0xa14c14b0, 0x72ab4b91, 0x26628815, 0x9d4baf93, 0xd57b94a9, 0xb7755da1, 0xa80f11f0, 0xfda24c2e,
            0x106aa070, 0x065c43da, 0x61835c33, 0xdfeed65a);
  }

  lemma State48()
    ensures StateFollows(SHA256_WORDS, W, S, 48)
  {
    RoundOf(0x4172328d, 0xa14c14b0, 0x72ab4b91, 0x26628815, 0xfecf0bc6, 0xd57b94a9, 0xb7755da1, 0xa80f11f0,
            0x19a4c116, 0xfb3e89cb, 0x970eb823, 0x6e66c4c8);
  }

  lemma State49()
    ensures StateFollows(SHA256_WORDS, W, S, 49)
  {
    RoundOf(0x05757ceb, 0x4172328d, 0xa14c14b0, 0x72ab4b91, 0xbd714038, 0xfecf0bc6, 0xd57b94a9, 0xb7755da1,
            0x1e376c08, 0xcc7617db, 0xfbb0ed7b, 0xf56b0d2d);
  }

  lemma State50()
    ensures StateFollows(SHA256_WORDS, W, S, 50)
  {
    RoundOf(0xf11bfaa8, 0x05757ceb, 0x4172328d, 0xa14c14b0, 0x6e5c390c, 0xbd714038, 0xfecf0bc6, 0xd57b94a9,
            0x2748774c, 0xb9e66c34, 0xb1a5b847, 0xc85f505a);
  }

  lemma State51()
    ensures StateFollows(SHA256_WORDS, W, S, 51)
  {
    RoundOf(0x7a0508a1, 0xf11bfaa8, 0x05757ceb, 0x4172328d, 0x52f1ccf7, 0x6e5c390c, 0xbd714038, 0xfecf0bc6,
            0x34b0bcb5, 0xa9993667, 0x07b0e991, 0x80bd9091);
  }

  lemma State52()
    ensures StateFollows(SHA256_WORDS, W, S, 52)
  {
    RoundOf(0x886e7a22, 0x7a0508a1, 0xf11bfaa8, 0x05757ceb, 0x49231c1e, 0x52f1ccf7, 0x6e5c390c, 0xbd714038,
            0x391c0cb3, 0x84badedd, 0x4d290015, 0xc2f6d27a);
  }

  lemma State53()
    ensures StateFollows(SHA256_WORDS, W, S, 53)
  {
    RoundOf(0x101fd28f, 0x886e7a22, 0x7a0508a1, 0xf11bfaa8, 0x529e7d00, 0x49231c1e, 0x52f1ccf7, 0x6e5c390c,
            0x4ed8aa4a, 0xc21462bc, 0xae2b8d1b, 0x4744a2c0);
  }

  lemma State54()
    ensures StateFollows(SHA256_WORDS, W, S, 54)
  {
    RoundOf(0xf5702fdb, 0x101fd28f, 0x886e7a22, 0x7a0508a1, 0x9f4787c3, 0x529e7d00, 0x49231c1e, 0x52f1ccf7,
            0x5b9cca4f, 0x1487472c, 0x6b0912ae, 0xd3bb4a2d);
  }

  lemma State55()
    ensures StateFollows(SHA256_WORDS, W, S, 55)
  {
    RoundOf(0x3ec45cdb, 0xf5702fdb, 0x101fd28f, 0x886e7a22, 0xe50e1b4f, 0x9f4787c3, 0x529e7d00, 0x49231c1e,
            0x682e6ff3, 0xb20f7a99, 0xcc5cac49, 0x6c6fecca);
  }

  lemma State56()
    ensures StateFollows(SHA256_WORDS, W, S, 56)
  {
    RoundOf(0x38cc9913, 0x3ec45cdb, 0xf5702fdb, 0x101fd28f, 0x54cb266b, 0xe50e1b4f, 0x9f4787c3, 0x529e7d00,
            0x748f82ee, 0xef57b9cd, 0x8b3ebddd, 0x7192ca9e);
  }

  lemma State57()
    ensures StateFollows(SHA256_WORDS, W, S, 57)
  {
    RoundOf(0xfcd1887b, 0x38cc9913, 0x3ec45cdb, 0xf5702fdb, 0x9b5e906c, 0x54cb266b, 0xe50e1b4f, 0x9f4787c3,
            0x78a5636f, 0xebe6b238, 0x88d3d0b3, 0x378f03bc);
  }

  lemma State58()
    ensures StateFollows(SHA256_WORDS, W, S, 58)
  {
    RoundOf(0xc062d46f, 0xfcd1887b, 0x38cc9913, 0x3ec45cdb, 0x7e44008e, 0x9b5e906c, 0x54cb266b, 0xe50e1b4f,
            0x84c87814, 0x9fe3095e, 0x2ebf62eb, 0xd0f7a187);
  }

  lemma State59()
    ensures StateFollows(SHA256_WORDS, W, S, 59)
  {
    RoundOf(0xffb70472, 0xc062d46f, 0xfcd1887b, 0x38cc9913, 0x6d83bfc6, 0x7e44008e, 0x9b5e906c, 0x54cb266b,
            0x8cc70208, 0x78bc8d4b, 0x794f142a, 0x3d5f7bd5);
  }

  lemma State60()
    ensures StateFollows(SHA256_WORDS, W, S, 60)
  {
    RoundOf(0xb6ae8fff, 0xffb70472, 0xc062d46f, 0xfcd1887b, 0xb21bad3d, 0x6d83bfc6, 0x7e44008e, 0x9b5e906c,
            0x90befffa, 0xa43fcf15, 0x994dc019, 0x1f106cd0);
  }

  lemma State61()
    ensures StateFollows(SHA256_WORDS, W, S, 61)
  {
    RoundOf(0xb85e2ce9, 0xb6ae8fff, 0xffb70472, 0xc062d46f, 0x961f4894, 0xb21bad3d, 0x6d83bfc6, 0x7e44008e,
            0xa4506ceb, 0x668b2ff8, 0xd42a5147, 0x30a7fc25);
  }

  lemma State62()
    ensures StateFollows(SHA256_WORDS, W, S, 62)
  {
    RoundOf(0x04d24d6c, 0xb85e2ce9, 0xb6ae8fff, 0xffb70472, 0x948d25b6, 0x961f4894, 0xb21bad3d, 0x6d83bfc6,
            0xbef9a3f7, 0xeeaba2cc, 0xfb5b0d9e, 0xd83f13c7);
  }

  lemma State63()
    ensures StateFollows(SHA256_WORDS, W, S, 63)
  {
    RoundOf(0xd39a2165, 0x04d24d6c, 0xb85e2ce9, 0xb6ae8fff, 0xfb121210, 0x948d25b6, 0x961f4894, 0xb21bad3d,
            0xc67178f2, 0x12b1edeb, 0xa8467f25, 0xa827b133);
  }

  // ---------- the digest ----------

  const ABC_HASH: Hash<bv32> := Hash(0xba7816bf, 0x8f01cfea, 0x414140de, 0x5dae2223, 0xb00361a3, 0x96177a9c, 0xb410ff61, 0xf20015ad)

  lemma BlockStarts()
    ensures StartsAs(SHA256_WORDS, ABC_BLOCK, W)
  {
    forall i | 0 <= i < 16 ensures Schedule(SHA256_WORDS, ABC_BLOCK, i) == W(i) {
      InputWord(i);
    }
  }

  lemma EveryWordFollows()
    ensures WordsFollow(SHA256_WORDS, W)
  {
    Word16();
    Word17();
    Word18();
    Word19();
    Word20();
    Word21();
    Word22();
    Word23();
    Word24();
    Word25();
    Word26();
    Word27();
    Word28();
    Word29();
    Word30();
    Word31();
    Word32();
    Word33();
    Word34();
    Word35();
    Word36();
    Word37();
    Word38();
    Word39();
    Word40();
    Word41();
    Word42();
    Word43();
    Word44();
    Word45();
    Word46();
    Word47();
    Word48();
    Word49();
    Word50();
    Word51();
    Word52();
    Word53();
    Word54();
    Word55();
    Word56();
    Word57();
    Word58();
    Word59();
    Word60();
    Word61();
    Word62();
    Word63();
  }

  lemma EveryStateFollows()
    ensures StatesFollow(SHA256_WORDS, W, S)
  {
    State0();
    State1();
    State2();
    State3();
    State4();
    State5();
    State6();
    State7();
    State8();
    State9();
    State10();
    State11();
    State12();
    State13();
    State14();
    State15();
    State16();
    State17();
    State18();
    State19();
    State20();
    State21();
    State22();
    State23();
    State24();
    State25();
    State26();
    State27();
    State28();
    State29();
    State30();
    State31();
    State32();
    State33();
    State34();
    State35();
    State36();
    State37();
    State38();
    State39();
    State40();
    State41();
    State42();
    State43();
    State44();
    State45();
    State46();
    State47();
    State48();
    State49();
    State50();
    State51();
    State52();
    State53();
    State54();
    State55();
    State56();
    State57();
    State58();
    State59();
    State60();
    State61();
    State62();
    State63();
  }

  lemma RoundsOfBlock()
    ensures Rounds(SHA256_WORDS, S(0), ABC_BLOCK, 64) == S(64)
  {
    BlockStarts();
    EveryWordFollows();
    EveryStateFollows();
    RoundsAlong(SHA256_WORDS, ABC_BLOCK, W, S, 64);
  }

  lemma HashOfBlock()
    ensures AddHash(SHA256_WORDS, INITIAL, AFTER_ROUNDS) == ABC_HASH
  {
  }

  lemma WordBytes(n: nat, a: byte, b: byte, c: byte, d: byte)
    requires n == 0x100_0000 * (a as int) + 0x1_0000 * (b as int) + 0x100 * (c as int) + d
    ensures EncBig(n, 4) == [a, b, c, d]
  {
    assert n % 0x100 == d && n / 0x100 == 0x1_0000 * (a as int) + 0x100 * (b as int) + c;
    assert EncBig(a, 1) == [a];
    assert EncBig(0x100 * (a as int) + b, 2) == [a, b];
    assert EncBig(0x1_0000 * (a as int) + 0x100 * (b as int) + c, 3) == [a, b, c];
  }

  lemma Bytes0()
    ensures EncBig(SHA256_WORDS.value(0xba7816bf), 4) == [0xba, 0x78, 0x16, 0xbf]
  {
    WordBytes(0xba7816bf, 0xba, 0x78, 0x16, 0xbf);
  }

  lemma Bytes1()
    ensures EncBig(SHA256_WORDS.value(0x8f01cfea), 4) == [0x8f, 0x01, 0xcf, 0xea]
  {
    WordBytes(0x8f01cfea, 0x8f, 0x01, 0xcf, 0xea);
  }

  lemma Bytes2()
    ensures EncBig(SHA256_WORDS.value(0x414140de), 4) == [0x41, 0x41, 0x40, 0xde]
  {
    WordBytes(0x414140de, 0x41, 0x41, 0x40, 0xde);
  }

  lemma Bytes3()
    ensures EncBig(SHA256_WORDS.value(0x5dae2223), 4) == [0x5d, 0xae, 0x22, 0x23]
  {
    WordBytes(0x5dae2223, 0x5d, 0xae, 0x22, 0x23);
  }

  lemma Bytes4()
    ensures EncBig(SHA256_WORDS.value(0xb00361a3), 4) == [0xb0, 0x03, 0x61, 0xa3]
  {
    WordBytes(0xb00361a3, 0xb0, 0x03, 0x61, 0xa3);
  }

  lemma Bytes5()
    ensures EncBig(SHA256_WORDS.value(0x96177a9c), 4) == [0x96, 0x17, 0x7a, 0x9c]
  {
    WordBytes(0x96177a9c, 0x96, 0x17, 0x7a, 0x9c);
  }

  lemma Bytes6()
    ensures EncBig(SHA256_WORDS.value(0xb410ff61), 4) == [0xb4, 0x10, 0xff, 0x61]
  {
    WordBytes(0xb410ff61, 0xb4, 0x10, 0xff, 0x61);
  }

  lemma Bytes7()
    ensures EncBig(SHA256_WORDS.value(0xf20015ad), 4) == [0xf2, 0x00, 0x15, 0xad]
  {
    WordBytes(0xf20015ad, 0xf2, 0x00, 0x15, 0xad);
  }

  lemma HashBytes<W>(ops: Words<W>, h: Hash<W>, a: Bytes, b: Bytes, c: Bytes, d: Bytes, e: Bytes, f: Bytes, g: Bytes, i: Bytes)
    requires EncBig(ops.value(h.a), 4) == a && EncBig(ops.value(h.b), 4) == b && EncBig(ops.value(h.c), 4) == c
    requires EncBig(ops.value(h.d), 4) == d && EncBig(ops.value(h.e), 4) == e && EncBig(ops.value(h.f), 4) == f
    requires EncBig(ops.value(h.g), 4) == g && EncBig(ops.value(h.h), 4) == i
    ensures EncHash(ops, h) == (a + b + c + d) + (e + f + g + i)
  {
  }

  /** The published digest. */
  const ABC_DIGEST: Bytes :=
    [0xba, 0x78, 0x16, 0xbf, 0x8f, 0x01, 0xcf, 0xea, 0x41, 0x41, 0x40, 0xde, 0x5d, 0xae, 0x22, 0x23] +
    [0xb0, 0x03, 0x61, 0xa3, 0x96, 0x17, 0x7a, 0x9c, 0xb4, 0x10, 0xff, 0x61, 0xf2, 0x00, 0x15, 0xad]

  lemma DigestInWords()
    ensures ABC_DIGEST ==
            ([0xba, 0x78, 0x16, 0xbf] + [0x8f, 0x01, 0xcf, 0xea] + [0x41, 0x41, 0x40, 0xde] + [0x5d, 0xae, 0x22, 0x23])
            + ([0xb0, 0x03, 0x61, 0xa3] + [0x96, 0x17, 0x7a, 0x9c] + [0xb4, 0x10, 0xff, 0x61] + [0xf2, 0x00, 0x15, 0xad])
  {
  }

  lemma DigestBytes()
    ensures EncHash(SHA256_WORDS, ABC_HASH) == ABC_DIGEST
  {
    Bytes0();
    Bytes1();
    Bytes2();
    Bytes3();
    Bytes4();
    Bytes5();
    Bytes6();
    Bytes7();
    HashBytes(SHA256_WORDS, ABC_HASH, [0xba, 0x78, 0x16, 0xbf], [0x8f, 0x01, 0xcf, 0xea], [0x41, 0x41, 0x40, 0xde], [0x5d, 0xae, 0x22, 0x23],
              [0xb0, 0x03, 0x61, 0xa3], [0x96, 0x17, 0x7a, 0x9c], [0xb4, 0x10, 0xff, 0x61], [0xf2, 0x00, 0x15, 0xad]);
    DigestInWords();
  }

  /** The digest of "abc" is the published one. */
  lemma DigestOfAbc()
    ensures DigestWith(SHA256_WORDS, INITIAL, [0x61, 0x62, 0x63]) == ABC_DIGEST
  {
    PaddedIsBlock();
    FoldOne(SHA256_WORDS, INITIAL, ABC_BLOCK);
    RoundsOfBlock();
    HashOfBlock();
    DigestBytes();
  }
}
