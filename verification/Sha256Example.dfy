/**
 The published one-block example of SHA-256: the message "abc". The reference goes through the
 intermediate values listed here and ends with the published digest.
 */
module Sha256Example {
  import opened Common
  import opened Fips180

  const ABC: Bytes := [0x61, 0x62, 0x63]

  /** The padded message. */
  const BLOCK: Bytes := ABC + [0x80] + Zeros(52) + [0, 0, 0, 0, 0, 0, 0, 0x18]

  lemma BlockBytes(i: nat)
    requires i < 64
    ensures |BLOCK| == 64
    ensures BLOCK[i] == if i == 0 then 0x61 else if i == 1 then 0x62 else if i == 2 then 0x63
                        else if i == 3 then 0x80 else if i == 63 then 0x18 else 0
  {
  }

  lemma PaddedAbc()
    ensures Pad(ABC) == BLOCK && |BLOCK| == 64
  {
    BlockBytes(0);
    assert ZeroCount(3) == 52;
    assert BigEndian64(24) == [0, 0, 0, 0, 0, 0, 0, 0x18];
  }

  // ----- the message schedule -----

  /** `word(t, x)`: word t of the schedule is x. A word follows from four earlier ones. */
  ghost predicate FollowsAt(word: (nat, bv32) -> bool, t: nat, x2: bv32, x7: bv32, x15: bv32, x16: bv32) {
    16 <= t < 64 && word(t - 2, x2) && word(t - 7, x7) && word(t - 15, x15) && word(t - 16, x16) ==>
      word(t, NextWord(x2, x7, x15, x16))
  }

  ghost predicate Follows(word: (nat, bv32) -> bool) {
    forall t: nat, x2, x7, x15, x16 :: FollowsAt(word, t, x2, x7, x15, x16)
  }

  lemma OneWord(word: (nat, bv32) -> bool, t: nat, x2: bv32, x7: bv32, x15: bv32, x16: bv32, x: bv32)
    requires Follows(word) && 16 <= t < 64
    requires word(t - 2, x2) && word(t - 7, x7) && word(t - 15, x15) && word(t - 16, x16)
    requires NextWord(x2, x7, x15, x16) == x
    ensures word(t, x)
  {
    assert FollowsAt(word, t, x2, x7, x15, x16);
  }

  /** The first sixteen words are the block. */
  ghost predicate FirstWords(word: (nat, bv32) -> bool) {
    word(0, 0x61626380) && word(15, 0x18) && forall t: nat :: 1 <= t < 15 ==> word(t, 0)
  }

  ghost predicate Words32(word: (nat, bv32) -> bool) {
    && word(16, 0x61626380) && word(17, 0x000f0000) && word(18, 0x7da86405) && word(19, 0x600003c6)
    && word(20, 0x3e9d7b78) && word(21, 0x0183fc00) && word(22, 0x12dcbfdb) && word(23, 0xe2e2c38e)
    && word(24, 0xc8215c1a) && word(25, 0xb73679a2) && word(26, 0xe5bc3909) && word(27, 0x32663c5b)
    && word(28, 0x9d209d67) && word(29, 0xec8726cb) && word(30, 0x702138a4) && word(31, 0xd3b7973b)
  }

  ghost predicate Words48(word: (nat, bv32) -> bool) {
    && word(32, 0x93f5997f) && word(33, 0x3b68ba73) && word(34, 0xaff4ffc1) && word(35, 0xf10a5c62)
    && word(36, 0x0a8b3996) && word(37, 0x72af830a) && word(38, 0x9409e33e) && word(39, 0x24641522)
    && word(40, 0x9f47bf94) && word(41, 0xf0a64f5a) && word(42, 0x3e246a79) && word(43, 0x27333ba3)
    && word(44, 0x0c4763f2) && word(45, 0x840abf27) && word(46, 0x7a290d5d) && word(47, 0x065c43da)
  }

  ghost predicate Words64(word: (nat, bv32) -> bool) {
    && word(48, 0xfb3e89cb) && word(49, 0xcc7617db) && word(50, 0xb9e66c34) && word(51, 0xa9993667)
    && word(52, 0x84badedd) && word(53, 0xc21462bc) && word(54, 0x1487472c) && word(55, 0xb20f7a99)
    && word(56, 0xef57b9cd) && word(57, 0xebe6b238) && word(58, 0x9fe3095e) && word(59, 0x78bc8d4b)
    && word(60, 0xa43fcf15) && word(61, 0x668b2ff8) && word(62, 0xeeaba2cc) && word(63, 0x12b1edeb)
  }

  lemma WordsTo32(word: (nat, bv32) -> bool)
    requires Follows(word) && FirstWords(word)
    ensures Words32(word)
  {
    OneWord(word, 16, 0x00000000, 0x00000000, 0x00000000, 0x61626380, 0x61626380);
    OneWord(word, 17, 0x00000018, 0x00000000, 0x00000000, 0x00000000, 0x000f0000);
    OneWord(word, 18, 0x61626380, 0x00000000, 0x00000000, 0x00000000, 0x7da86405);
    OneWord(word, 19, 0x000f0000, 0x00000000, 0x00000000, 0x00000000, 0x600003c6);
    OneWord(word, 20, 0x7da86405, 0x00000000, 0x00000000, 0x00000000, 0x3e9d7b78);
    OneWord(word, 21, 0x600003c6, 0x00000000, 0x00000000, 0x00000000, 0x0183fc00);
    OneWord(word, 22, 0x3e9d7b78, 0x00000018, 0x00000000, 0x00000000, 0x12dcbfdb);
    OneWord(word, 23, 0x0183fc00, 0x61626380, 0x00000000, 0x00000000, 0xe2e2c38e);
    OneWord(word, 24, 0x12dcbfdb, 0x000f0000, 0x00000000, 0x00000000, 0xc8215c1a);
    OneWord(word, 25, 0xe2e2c38e, 0x7da86405, 0x00000000, 0x00000000, 0xb73679a2);
    OneWord(word, 26, 0xc8215c1a, 0x600003c6, 0x00000000, 0x00000000, 0xe5bc3909);
    OneWord(word, 27, 0xb73679a2, 0x3e9d7b78, 0x00000000, 0x00000000, 0x32663c5b);
    OneWord(word, 28, 0xe5bc3909, 0x0183fc00, 0x00000000, 0x00000000, 0x9d209d67);
    OneWord(word, 29, 0x32663c5b, 0x12dcbfdb, 0x00000000, 0x00000000, 0xec8726cb);
    OneWord(word, 30, 0x9d209d67, 0xe2e2c38e, 0x00000018, 0x00000000, 0x702138a4);
    OneWord(word, 31, 0xec8726cb, 0xc8215c1a, 0x61626380, 0x00000018, 0xd3b7973b);
  }

  lemma WordsTo48(word: (nat, bv32) -> bool)
    requires Follows(word) && Words32(word)
    ensures Words48(word)
  {
    OneWord(word, 32, 0x702138a4, 0xb73679a2, 0x000f0000, 0x61626380, 0x93f5997f);
    OneWord(word, 33, 0xd3b7973b, 0xe5bc3909, 0x7da86405, 0x000f0000, 0x3b68ba73);
    OneWord(word, 34, 0x93f5997f, 0x32663c5b, 0x600003c6, 0x7da86405, 0xaff4ffc1);
    OneWord(word, 35, 0x3b68ba73, 0x9d209d67, 0x3e9d7b78, 0x600003c6, 0xf10a5c62);
    OneWord(word, 36, 0xaff4ffc1, 0xec8726cb, 0x0183fc00, 0x3e9d7b78, 0x0a8b3996);
    OneWord(word, 37, 0xf10a5c62, 0x702138a4, 0x12dcbfdb, 0x0183fc00, 0x72af830a);
    OneWord(word, 38, 0x0a8b3996, 0xd3b7973b, 0xe2e2c38e, 0x12dcbfdb, 0x9409e33e);
    OneWord(word, 39, 0x72af830a, 0x93f5997f, 0xc8215c1a, 0xe2e2c38e, 0x24641522);
    OneWord(word, 40, 0x9409e33e, 0x3b68ba73, 0xb73679a2, 0xc8215c1a, 0x9f47bf94);
    OneWord(word, 41, 0x24641522, 0xaff4ffc1, 0xe5bc3909, 0xb73679a2, 0xf0a64f5a);
    OneWord(word, 42, 0x9f47bf94, 0xf10a5c62, 0x32663c5b, 0xe5bc3909, 0x3e246a79);
    OneWord(word, 43, 0xf0a64f5a, 0x0a8b3996, 0x9d209d67, 0x32663c5b, 0x27333ba3);
    OneWord(word, 44, 0x3e246a79, 0x72af830a, 0xec8726cb, 0x9d209d67, 0x0c4763f2);
    OneWord(word, 45, 0x27333ba3, 0x9409e33e, 0x702138a4, 0xec8726cb, 0x840abf27);
    OneWord(word, 46, 0x0c4763f2, 0x24641522, 0xd3b7973b, 0x702138a4, 0x7a290d5d);
    OneWord(word, 47, 0x840abf27, 0x9f47bf94, 0x93f5997f, 0xd3b7973b, 0x065c43da);
  }

  lemma WordsTo64(word: (nat, bv32) -> bool)
    requires Follows(word) && Words48(word)
    ensures Words64(word)
  {
    OneWord(word, 48, 0x7a290d5d, 0xf0a64f5a, 0x3b68ba73, 0x93f5997f, 0xfb3e89cb);
    OneWord(word, 49, 0x065c43da, 0x3e246a79, 0xaff4ffc1, 0x3b68ba73, 0xcc7617db);
    OneWord(word, 50, 0xfb3e89cb, 0x27333ba3, 0xf10a5c62, 0xaff4ffc1, 0xb9e66c34);
    OneWord(word, 51, 0xcc7617db, 0x0c4763f2, 0x0a8b3996, 0xf10a5c62, 0xa9993667);
    OneWord(word, 52, 0xb9e66c34, 0x840abf27, 0x72af830a, 0x0a8b3996, 0x84badedd);
    OneWord(word, 53, 0xa9993667, 0x7a290d5d, 0x9409e33e, 0x72af830a, 0xc21462bc);
    OneWord(word, 54, 0x84badedd, 0x065c43da, 0x24641522, 0x9409e33e, 0x1487472c);
    OneWord(word, 55, 0xc21462bc, 0xfb3e89cb, 0x9f47bf94, 0x24641522, 0xb20f7a99);
    OneWord(word, 56, 0x1487472c, 0xcc7617db, 0xf0a64f5a, 0x9f47bf94, 0xef57b9cd);
    OneWord(word, 57, 0xb20f7a99, 0xb9e66c34, 0x3e246a79, 0xf0a64f5a, 0xebe6b238);
    OneWord(word, 58, 0xef57b9cd, 0xa9993667, 0x27333ba3, 0x3e246a79, 0x9fe3095e);
    OneWord(word, 59, 0xebe6b238, 0x84badedd, 0x0c4763f2, 0x27333ba3, 0x78bc8d4b);
    OneWord(word, 60, 0x9fe3095e, 0xc21462bc, 0x840abf27, 0x0c4763f2, 0xa43fcf15);
    OneWord(word, 61, 0x78bc8d4b, 0x1487472c, 0x7a290d5d, 0x840abf27, 0x668b2ff8);
    OneWord(word, 62, 0xa43fcf15, 0xb20f7a99, 0x065c43da, 0x7a290d5d, 0xeeaba2cc);
    OneWord(word, 63, 0x668b2ff8, 0xef57b9cd, 0xfb3e89cb, 0x065c43da, 0x12b1edeb);
  }

  // ----- the rounds -----

  /** `at(t, v)`: before round t the working variables are v. */
  ghost predicate StepsAt(word: (nat, bv32) -> bool, at: (nat, Vars) -> bool, t: nat, v: Vars, w: bv32) {
    t < 64 && at(t, v) && word(t, w) ==> at(t + 1, Round(v, K(t), w))
  }

  ghost predicate Steps(word: (nat, bv32) -> bool, at: (nat, Vars) -> bool) {
    forall t: nat, v, w :: StepsAt(word, at, t, v, w)
  }

  /** A round computes new values of a and e and moves the others along. */
  lemma Next(word: (nat, bv32) -> bool, at: (nat, Vars) -> bool, t: nat, k: bv32, w: bv32, a: bv32, e: bv32, v: Vars)
    requires Steps(word, at) && t < 64 && at(t, v) && K(t) == k && word(t, w)
    requires Round(v, k, w) == Vars(a, v.a, v.b, v.c, e, v.e, v.f, v.g)
    ensures at(t + 1, Vars(a, v.a, v.b, v.c, e, v.e, v.f, v.g))
  {
    assert StepsAt(word, at, t, v, w);
  }

  lemma RoundsTo4(word: (nat, bv32) -> bool, at: (nat, Vars) -> bool)
    requires Steps(word, at) && word(0, 0x61626380) && word(1, 0x00000000)
    requires word(2, 0x00000000) && word(3, 0x00000000)
    requires at(0, Vars(0x6a09e667, 0xbb67ae85, 0x3c6ef372, 0xa54ff53a,
                       0x510e527f, 0x9b05688c, 0x1f83d9ab, 0x5be0cd19))
    ensures at(4, Vars(0xd550f666, 0xc8c347a7, 0x5a6ad9ad, 0x5d6aebcd,
                      0x24e00850, 0xf92939eb, 0x78ce7989, 0xfa2a4622))
  {
    Next(word, at, 0, 0x428a2f98, 0x61626380, 0x5d6aebcd, 0xfa2a4622,
         Vars(0x6a09e667, 0xbb67ae85, 0x3c6ef372, 0xa54ff53a, 0x510e527f, 0x9b05688c, 0x1f83d9ab, 0x5be0cd19));
    Next(word, at, 1, 0x71374491, 0x00000000, 0x5a6ad9ad, 0x78ce7989,
         Vars(0x5d6aebcd, 0x6a09e667, 0xbb67ae85, 0x3c6ef372, 0xfa2a4622, 0x510e527f, 0x9b05688c, 0x1f83d9ab));
    Next(word, at, 2, 0xb5c0fbcf, 0x00000000, 0xc8c347a7, 0xf92939eb,
         Vars(0x5a6ad9ad, 0x5d6aebcd, 0x6a09e667, 0xbb67ae85, 0x78ce7989, 0xfa2a4622, 0x510e527f, 0x9b05688c));
    Next(word, at, 3, 0xe9b5dba5, 0x00000000, 0xd550f666, 0x24e00850,
         Vars(0xc8c347a7, 0x5a6ad9ad, 0x5d6aebcd, 0x6a09e667, 0xf92939eb, 0x78ce7989, 0xfa2a4622, 0x510e527f));
  }

  lemma RoundsTo8(word: (nat, bv32) -> bool, at: (nat, Vars) -> bool)
    requires Steps(word, at) && word(4, 0x00000000) && word(5, 0x00000000)
    requires word(6, 0x00000000) && word(7, 0x00000000)
    requires at(4, Vars(0xd550f666, 0xc8c347a7, 0x5a6ad9ad, 0x5d6aebcd,
                       0x24e00850, 0xf92939eb, 0x78ce7989, 0xfa2a4622))
    ensures at(8, Vars(0x85a07b5f, 0xe5030380, 0x2b4209f5, 0x04409a6a,
                      0x0c657a79, 0x9b27a401, 0x714260ad, 0x43ada245))
  {
    Next(word, at, 4, 0x3956c25b, 0x00000000, 0x04409a6a, 0x43ada245,
         Vars(0xd550f666, 0xc8c347a7, 0x5a6ad9ad, 0x5d6aebcd, 0x24e00850, 0xf92939eb, 0x78ce7989, 0xfa2a4622));
    Next(word, at, 5, 0x59f111f1, 0x00000000, 0x2b4209f5, 0x714260ad,
         Vars(0x04409a6a, 0xd550f666, 0xc8c347a7, 0x5a6ad9ad, 0x43ada245, 0x24e00850, 0xf92939eb, 0x78ce7989));
    Next(word, at, 6, 0x923f82a4, 0x00000000, 0xe5030380, 0x9b27a401,
         Vars(0x2b4209f5, 0x04409a6a, 0xd550f666, 0xc8c347a7, 0x714260ad, 0x43ada245, 0x24e00850, 0xf92939eb));
    Next(word, at, 7, 0xab1c5ed5, 0x00000000, 0x85a07b5f, 0x0c657a79,
         Vars(0xe5030380, 0x2b4209f5, 0x04409a6a, 0xd550f666, 0x9b27a401, 0x714260ad, 0x43ada245, 0x24e00850));
  }

  lemma RoundsTo12(word: (nat, bv32) -> bool, at: (nat, Vars) -> bool)
    requires Steps(word, at) && word(8, 0x00000000) && word(9, 0x00000000)
    requires word(10, 0x00000000) && word(11, 0x00000000)
    requires at(8, Vars(0x85a07b5f, 0xe5030380, 0x2b4209f5, 0x04409a6a,
                       0x0c657a79, 0x9b27a401, 0x714260ad, 0x43ada245))
    ensures at(12, Vars(0xf71fc5a9, 0x4798a3f4, 0x8c87346b, 0x8e04ecb9,
                       0x816fd6e9, 0x436b23e8, 0x1cc92596, 0x32ca2d8c))
  {
    Next(word, at, 8, 0xd807aa98, 0x00000000, 0x8e04ecb9, 0x32ca2d8c,
         Vars(0x85a07b5f, 0xe5030380, 0x2b4209f5, 0x04409a6a, 0x0c657a79, 0x9b27a401, 0x714260ad, 0x43ada245));
    Next(word, at, 9, 0x12835b01, 0x00000000, 0x8c87346b, 0x1cc92596,
         Vars(0x8e04ecb9, 0x85a07b5f, 0xe5030380, 0x2b4209f5, 0x32ca2d8c, 0x0c657a79, 0x9b27a401, 0x714260ad));
    Next(word, at, 10, 0x243185be, 0x00000000, 0x4798a3f4, 0x436b23e8,
         Vars(0x8c87346b, 0x8e04ecb9, 0x85a07b5f, 0xe5030380, 0x1cc92596, 0x32ca2d8c, 0x0c657a79, 0x9b27a401));
    Next(word, at, 11, 0x550c7dc3, 0x00000000, 0xf71fc5a9, 0x816fd6e9,
         Vars(0x4798a3f4, 0x8c87346b, 0x8e04ecb9, 0x85a07b5f, 0x436b23e8, 0x1cc92596, 0x32ca2d8c, 0x0c657a79));
  }

  lemma RoundsTo16(word: (nat, bv32) -> bool, at: (nat, Vars) -> bool)
    requires Steps(word, at) && word(12, 0x00000000) && word(13, 0x00000000)
    requires word(14, 0x00000000) && word(15, 0x00000018)
    requires at(12, Vars(0xf71fc5a9, 0x4798a3f4, 0x8c87346b, 0x8e04ecb9,
                        0x816fd6e9, 0x436b23e8, 0x1cc92596, 0x32ca2d8c))
    ensures at(16, Vars(0xb0fa238e, 0xc0645fde, 0xd932eb16, 0x87912990,
                       0x07590dcd, 0x0b92f20c, 0x745a48de, 0x1e578218))
  {
    Next(word, at, 12, 0x72be5d74, 0x00000000, 0x87912990, 0x1e578218,
         Vars(0xf71fc5a9, 0x4798a3f4, 0x8c87346b, 0x8e04ecb9, 0x816fd6e9, 0x436b23e8, 0x1cc92596, 0x32ca2d8c));
    Next(word, at, 13, 0x80deb1fe, 0x00000000, 0xd932eb16, 0x745a48de,
         Vars(0x87912990, 0xf71fc5a9, 0x4798a3f4, 0x8c87346b, 0x1e578218, 0x816fd6e9, 0x436b23e8, 0x1cc92596));
    Next(word, at, 14, 0x9bdc06a7, 0x00000000, 0xc0645fde, 0x0b92f20c,
         Vars(0xd932eb16, 0x87912990, 0xf71fc5a9, 0x4798a3f4, 0x745a48de, 0x1e578218, 0x816fd6e9, 0x436b23e8));
    Next(word, at, 15, 0xc19bf174, 0x00000018, 0xb0fa238e, 0x07590dcd,
         Vars(0xc0645fde, 0xd932eb16, 0x87912990, 0xf71fc5a9, 0x0b92f20c, 0x745a48de, 0x1e578218, 0x816fd6e9));
  }

  lemma RoundsTo20(word: (nat, bv32) -> bool, at: (nat, Vars) -> bool)
    requires Steps(word, at) && word(16, 0x61626380) && word(17, 0x000f0000)
    requires word(18, 0x7da86405) && word(19, 0x600003c6)
    requires at(16, Vars(0xb0fa238e, 0xc0645fde, 0xd932eb16, 0x87912990,
                        0x07590dcd, 0x0b92f20c, 0x745a48de, 0x1e578218))
    ensures at(20, Vars(0xe1f20c33, 0xfe777bbf, 0xc2fbd9d1, 0x21da9a9b,
                       0xb0638179, 0xcc899961, 0x846ee454, 0x8034229c))
  {
    Next(word, at, 16, 0xe49b69c1, 0x61626380, 0x21da9a9b, 0x8034229c,
         Vars(0xb0fa238e, 0xc0645fde, 0xd932eb16, 0x87912990, 0x07590dcd, 0x0b92f20c, 0x745a48de, 0x1e578218));
    Next(word, at, 17, 0xefbe4786, 0x000f0000, 0xc2fbd9d1, 0x846ee454,
         Vars(0x21da9a9b, 0xb0fa238e, 0xc0645fde, 0xd932eb16, 0x8034229c, 0x07590dcd, 0x0b92f20c, 0x745a48de));
    Next(word, at, 18, 0x0fc19dc6, 0x7da86405, 0xfe777bbf, 0xcc899961,
         Vars(0xc2fbd9d1, 0x21da9a9b, 0xb0fa238e, 0xc0645fde, 0x846ee454, 0x8034229c, 0x07590dcd, 0x0b92f20c));
    Next(word, at, 19, 0x240ca1cc, 0x600003c6, 0xe1f20c33, 0xb0638179,
         Vars(0xfe777bbf, 0xc2fbd9d1, 0x21da9a9b, 0xb0fa238e, 0xcc899961, 0x846ee454, 0x8034229c, 0x07590dcd));
  }

  lemma RoundsTo24(word: (nat, bv32) -> bool, at: (nat, Vars) -> bool)
    requires Steps(word, at) && word(20, 0x3e9d7b78) && word(21, 0x0183fc00)
    requires word(22, 0x12dcbfdb) && word(23, 0xe2e2c38e)
    requires at(20, Vars(0xe1f20c33, 0xfe777bbf, 0xc2fbd9d1, 0x21da9a9b,
                        0xb0638179, 0xcc899961, 0x846ee454, 0x8034229c))
    ensures at(24, Vars(0xc5d53d8d, 0xa7a3623f, 0xc2606d6d, 0x9dc68b63,
                       0xaa47c347, 0x49f5114a, 0xe1257970, 0x8ada8930))
  {
    Next(word, at, 20, 0x2de92c6f, 0x3e9d7b78, 0x9dc68b63, 0x8ada8930,
         Vars(0xe1f20c33, 0xfe777bbf, 0xc2fbd9d1, 0x21da9a9b, 0xb0638179, 0xcc899961, 0x846ee454, 0x8034229c));
    Next(word, at, 21, 0x4a7484aa, 0x0183fc00, 0xc2606d6d, 0xe1257970,
         Vars(0x9dc68b63, 0xe1f20c33, 0xfe777bbf, 0xc2fbd9d1, 0x8ada8930, 0xb0638179, 0xcc899961, 0x846ee454));
    Next(word, at, 22, 0x5cb0a9dc, 0x12dcbfdb, 0xa7a3623f, 0x49f5114a,
         Vars(0xc2606d6d, 0x9dc68b63, 0xe1f20c33, 0xfe777bbf, 0xe1257970, 0x8ada8930, 0xb0638179, 0xcc899961));
    Next(word, at, 23, 0x76f988da, 0xe2e2c38e, 0xc5d53d8d, 0xaa47c347,
         Vars(0xa7a3623f, 0xc2606d6d, 0x9dc68b63, 0xe1f20c33, 0x49f5114a, 0xe1257970, 0x8ada8930, 0xb0638179));
  }

  lemma RoundsTo28(word: (nat, bv32) -> bool, at: (nat, Vars) -> bool)
    requires Steps(word, at) && word(24, 0xc8215c1a) && word(25, 0xb73679a2)
    requires word(26, 0xe5bc3909) && word(27, 0x32663c5b)
    requires at(24, Vars(0xc5d53d8d, 0xa7a3623f, 0xc2606d6d, 0x9dc68b63,
                        0xaa47c347, 0x49f5114a, 0xe1257970, 0x8ada8930))
    ensures at(28, Vars(0x77d37528, 0xb62ec4bc, 0xcde8037d, 0x1c2c2838,
                       0xedffbff8, 0xc74c6516, 0x14383d8e, 0x2823ef91))
  {
    Next(word, at, 24, 0x983e5152, 0xc8215c1a, 0x1c2c2838, 0x2823ef91,
         Vars(0xc5d53d8d, 0xa7a3623f, 0xc2606d6d, 0x9dc68b63, 0xaa47c347, 0x49f5114a, 0xe1257970, 0x8ada8930));
    Next(word, at, 25, 0xa831c66d, 0xb73679a2, 0xcde8037d, 0x14383d8e,
         Vars(0x1c2c2838, 0xc5d53d8d, 0xa7a3623f, 0xc2606d6d, 0x2823ef91, 0xaa47c347, 0x49f5114a, 0xe1257970));
    Next(word, at, 26, 0xb00327c8, 0xe5bc3909, 0xb62ec4bc, 0xc74c6516,
         Vars(0xcde8037d, 0x1c2c2838, 0xc5d53d8d, 0xa7a3623f, 0x14383d8e, 0x2823ef91, 0xaa47c347, 0x49f5114a));
    Next(word, at, 27, 0xbf597fc7, 0x32663c5b, 0x77d37528, 0xedffbff8,
         Vars(0xb62ec4bc, 0xcde8037d, 0x1c2c2838, 0xc5d53d8d, 0xc74c6516, 0x14383d8e, 0x2823ef91, 0xaa47c347));
  }

  lemma RoundsTo32(word: (nat, bv32) -> bool, at: (nat, Vars) -> bool)
    requires Steps(word, at) && word(28, 0x9d209d67) && word(29, 0xec8726cb)
    requires word(30, 0x702138a4) && word(31, 0xd3b7973b)
    requires at(28, Vars(0x77d37528, 0xb62ec4bc, 0xcde8037d, 0x1c2c2838,
                        0xedffbff8, 0xc74c6516, 0x14383d8e, 0x2823ef91))
    ensures at(32, Vars(0x73b33bf5, 0xea992a22, 0xa0060b30, 0x363482c9,
                       0xba591112, 0x0109ab3a, 0xade79437, 0x6112a3b7))
  {
    Next(word, at, 28, 0xc6e00bf3, 0x9d209d67, 0x363482c9, 0x6112a3b7,
         Vars(0x77d37528, 0xb62ec4bc, 0xcde8037d, 0x1c2c2838, 0xedffbff8, 0xc74c6516, 0x14383d8e, 0x2823ef91));
    Next(word, at, 29, 0xd5a79147, 0xec8726cb, 0xa0060b30, 0xade79437,
         Vars(0x363482c9, 0x77d37528, 0xb62ec4bc, 0xcde8037d, 0x6112a3b7, 0xedffbff8, 0xc74c6516, 0x14383d8e));
    Next(word, at, 30, 0x06ca6351, 0x702138a4, 0xea992a22, 0x0109ab3a,
         Vars(0xa0060b30, 0x363482c9, 0x77d37528, 0xb62ec4bc, 0xade79437, 0x6112a3b7, 0xedffbff8, 0xc74c6516));
    Next(word, at, 31, 0x14292967, 0xd3b7973b, 0x73b33bf5, 0xba591112,
         Vars(0xea992a22, 0xa0060b30, 0x363482c9, 0x77d37528, 0x0109ab3a, 0xade79437, 0x6112a3b7, 0xedffbff8));
  }

  lemma RoundsTo36(word: (nat, bv32) -> bool, at: (nat, Vars) -> bool)
    requires Steps(word, at) && word(32, 0x93f5997f) && word(33, 0x3b68ba73)
    requires word(34, 0xaff4ffc1) && word(35, 0xf10a5c62)
    requires at(32, Vars(0x73b33bf5, 0xea992a22, 0xa0060b30, 0x363482c9,
                        0xba591112, 0x0109ab3a, 0xade79437, 0x6112a3b7))
    ensures at(36, Vars(0x65a0cfe4, 0xa9a7738c, 0xfe604df5, 0x98e12507,
                       0xf4b002d6, 0x085f3833, 0x59249dd3, 0x9cd9f5f6))
  {
    Next(word, at, 32, 0x27b70a85, 0x93f5997f, 0x98e12507, 0x9cd9f5f6,
         Vars(0x73b33bf5, 0xea992a22, 0xa0060b30, 0x363482c9, 0xba591112, 0x0109ab3a, 0xade79437, 0x6112a3b7));
    Next(word, at, 33, 0x2e1b2138, 0x3b68ba73, 0xfe604df5, 0x59249dd3,
         Vars(0x98e12507, 0x73b33bf5, 0xea992a22, 0xa0060b30, 0x9cd9f5f6, 0xba591112, 0x0109ab3a, 0xade79437));
    Next(word, at, 34, 0x4d2c6dfc, 0xaff4ffc1, 0xa9a7738c, 0x085f3833,
         Vars(0xfe604df5, 0x98e12507, 0x73b33bf5, 0xea992a22, 0x59249dd3, 0x9cd9f5f6, 0xba591112, 0x0109ab3a));
    Next(word, at, 35, 0x53380d13, 0xf10a5c62, 0x65a0cfe4, 0xf4b002d6,
         Vars(0xa9a7738c, 0xfe604df5, 0x98e12507, 0x73b33bf5, 0x085f3833, 0x59249dd3, 0x9cd9f5f6, 0xba591112));
  }

  lemma RoundsTo40(word: (nat, bv32) -> bool, at: (nat, Vars) -> bool)
    requires Steps(word, at) && word(36, 0x0a8b3996) && word(37, 0x72af830a)
    requires word(38, 0x9409e33e) && word(39, 0x24641522)
    requires at(36, Vars(0x65a0cfe4, 0xa9a7738c, 0xfe604df5, 0x98e12507,
                        0xf4b002d6, 0x085f3833, 0x59249dd3, 0x9cd9f5f6))
    ensures at(40, Vars(0x79ea687a, 0x6dc57a8a, 0x34df1604, 0x41a65cb1,
                       0x1efbc0a0, 0xf0781bc8, 0xa507a53d, 0x0772a26b))
  {
    Next(word, at, 36, 0x650a7354, 0x0a8b3996, 0x41a65cb1, 0x0772a26b,
         Vars(0x65a0cfe4, 0xa9a7738c, 0xfe604df5, 0x98e12507, 0xf4b002d6, 0x085f3833, 0x59249dd3, 0x9cd9f5f6));
    Next(word, at, 37, 0x766a0abb, 0x72af830a, 0x34df1604, 0xa507a53d,
         Vars(0x41a65cb1, 0x65a0cfe4, 0xa9a7738c, 0xfe604df5, 0x0772a26b, 0xf4b002d6, 0x085f3833, 0x59249dd3));
    Next(word, at, 38, 0x81c2c92e, 0x9409e33e, 0x6dc57a8a, 0xf0781bc8,
         Vars(0x34df1604, 0x41a65cb1, 0x65a0cfe4, 0xa9a7738c, 0xa507a53d, 0x0772a26b, 0xf4b002d6, 0x085f3833));
    Next(word, at, 39, 0x92722c85, 0x24641522, 0x79ea687a, 0x1efbc0a0,
         Vars(0x6dc57a8a, 0x34df1604, 0x41a65cb1, 0x65a0cfe4, 0xf0781bc8, 0xa507a53d, 0x0772a26b, 0xf4b002d6));
  }

  lemma RoundsTo44(word: (nat, bv32) -> bool, at: (nat, Vars) -> bool)
    requires Steps(word, at) && word(40, 0x9f47bf94) && word(41, 0xf0a64f5a)
    requires word(42, 0x3e246a79) && word(43, 0x27333ba3)
    requires at(40, Vars(0x79ea687a, 0x6dc57a8a, 0x34df1604, 0x41a65cb1,
                        0x1efbc0a0, 0xf0781bc8, 0xa507a53d, 0x0772a26b))
    ensures at(44, Vars(0x9d4baf93, 0x17aa0dfe, 0xdf46652f, 0xd6670766,
                       0xfda24c2e, 0xdecd4715, 0x838b2711, 0x26352d63))
  {
    Next(word, at, 40, 0xa2bfe8a1, 0x9f47bf94, 0xd6670766, 0x26352d63,
         Vars(0x79ea687a, 0x6dc57a8a, 0x34df1604, 0x41a65cb1, 0x1efbc0a0, 0xf0781bc8, 0xa507a53d, 0x0772a26b));
    Next(word, at, 41, 0xa81a664b, 0xf0a64f5a, 0xdf46652f, 0x838b2711,
         Vars(0xd6670766, 0x79ea687a, 0x6dc57a8a, 0x34df1604, 0x26352d63, 0x1efbc0a0, 0xf0781bc8, 0xa507a53d));
    Next(word, at, 42, 0xc24b8b70, 0x3e246a79, 0x17aa0dfe, 0xdecd4715,
         Vars(0xdf46652f, 0xd6670766, 0x79ea687a, 0x6dc57a8a, 0x838b2711, 0x26352d63, 0x1efbc0a0, 0xf0781bc8));
    Next(word, at, 43, 0xc76c51a3, 0x27333ba3, 0x9d4baf93, 0xfda24c2e,
         Vars(0x17aa0dfe, 0xdf46652f, 0xd6670766, 0x79ea687a, 0xdecd4715, 0x838b2711, 0x26352d63, 0x1efbc0a0));
  }

  lemma RoundsTo48(word: (nat, bv32) -> bool, at: (nat, Vars) -> bool)
    requires Steps(word, at) && word(44, 0x0c4763f2) && word(45, 0x840abf27)
    requires word(46, 0x7a290d5d) && word(47, 0x065c43da)
    requires at(44, Vars(0x9d4baf93, 0x17aa0dfe, 0xdf46652f, 0xd6670766,
                        0xfda24c2e, 0xdecd4715, 0x838b2711, 0x26352d63))
    ensures at(48, Vars(0x4172328d, 0xa14c14b0, 0x72ab4b91, 0x26628815,
                       0xfecf0bc6, 0xd57b94a9, 0xb7755da1, 0xa80f11f0))
  {
    Next(word, at, 44, 0xd192e819, 0x0c4763f2, 0x26628815, 0xa80f11f0,
         Vars(0x9d4baf93, 0x17aa0dfe, 0xdf46652f, 0xd6670766, 0xfda24c2e, 0xdecd4715, 0x838b2711, 0x26352d63));
    Next(word, at, 45, 0xd6990624, 0x840abf27, 0x72ab4b91, 0xb7755da1,
         Vars(0x26628815, 0x9d4baf93, 0x17aa0dfe, 0xdf46652f, 0xa80f11f0, 0xfda24c2e, 0xdecd4715, 0x838b2711));
    Next(word, at, 46, 0xf40e3585, 0x7a290d5d, 0xa14c14b0, 0xd57b94a9,
         Vars(0x72ab4b91, 0x26628815, 0x9d4baf93, 0x17aa0dfe, 0xb7755da1, 0xa80f11f0, 0xfda24c2e, 0xdecd4715));
    Next(word, at, 47, 0x106aa070, 0x065c43da, 0x4172328d, 0xfecf0bc6,
         Vars(0xa14c14b0, 0x72ab4b91, 0x26628815, 0x9d4baf93, 0xd57b94a9, 0xb7755da1, 0xa80f11f0, 0xfda24c2e));
  }

  lemma RoundsTo52(word: (nat, bv32) -> bool, at: (nat, Vars) -> bool)
    requires Steps(word, at) && word(48, 0xfb3e89cb) && word(49, 0xcc7617db)
    requires word(50, 0xb9e66c34) && word(51, 0xa9993667)
    requires at(48, Vars(0x4172328d, 0xa14c14b0, 0x72ab4b91, 0x26628815,
                        0xfecf0bc6, 0xd57b94a9, 0xb7755da1, 0xa80f11f0))
    ensures at(52, Vars(0x886e7a22, 0x7a0508a1, 0xf11bfaa8, 0x05757ceb,
                       0x49231c1e, 0x52f1ccf7, 0x6e5c390c, 0xbd714038))
  {
    Next(word, at, 48, 0x19a4c116, 0xfb3e89cb, 0x05757ceb, 0xbd714038,
         Vars(0x4172328d, 0xa14c14b0, 0x72ab4b91, 0x26628815, 0xfecf0bc6, 0xd57b94a9, 0xb7755da1, 0xa80f11f0));
    Next(word, at, 49, 0x1e376c08, 0xcc7617db, 0xf11bfaa8, 0x6e5c390c,
         Vars(0x05757ceb, 0x4172328d, 0xa14c14b0, 0x72ab4b91, 0xbd714038, 0xfecf0bc6, 0xd57b94a9, 0xb7755da1));
    Next(word, at, 50, 0x2748774c, 0xb9e66c34, 0x7a0508a1, 0x52f1ccf7,
         Vars(0xf11bfaa8, 0x05757ceb, 0x4172328d, 0xa14c14b0, 0x6e5c390c, 0xbd714038, 0xfecf0bc6, 0xd57b94a9));
    Next(word, at, 51, 0x34b0bcb5, 0xa9993667, 0x886e7a22, 0x49231c1e,
         Vars(0x7a0508a1, 0xf11bfaa8, 0x05757ceb, 0x4172328d, 0x52f1ccf7, 0x6e5c390c, 0xbd714038, 0xfecf0bc6));
  }

  lemma RoundsTo56(word: (nat, bv32) -> bool, at: (nat, Vars) -> bool)
    requires Steps(word, at) && word(52, 0x84badedd) && word(53, 0xc21462bc)
    requires word(54, 0x1487472c) && word(55, 0xb20f7a99)
    requires at(52, Vars(0x886e7a22, 0x7a0508a1, 0xf11bfaa8, 0x05757ceb,
                        0x49231c1e, 0x52f1ccf7, 0x6e5c390c, 0xbd714038))
    ensures at(56, Vars(0x38cc9913, 0x3ec45cdb, 0xf5702fdb, 0x101fd28f,
                       0x54cb266b, 0xe50e1b4f, 0x9f4787c3, 0x529e7d00))
  {
    Next(word, at, 52, 0x391c0cb3, 0x84badedd, 0x101fd28f, 0x529e7d00,
         Vars(0x886e7a22, 0x7a0508a1, 0xf11bfaa8, 0x05757ceb, 0x49231c1e, 0x52f1ccf7, 0x6e5c390c, 0xbd714038));
    Next(word, at, 53, 0x4ed8aa4a, 0xc21462bc, 0xf5702fdb, 0x9f4787c3,
         Vars(0x101fd28f, 0x886e7a22, 0x7a0508a1, 0xf11bfaa8, 0x529e7d00, 0x49231c1e, 0x52f1ccf7, 0x6e5c390c));
    Next(word, at, 54, 0x5b9cca4f, 0x1487472c, 0x3ec45cdb, 0xe50e1b4f,
         Vars(0xf5702fdb, 0x101fd28f, 0x886e7a22, 0x7a0508a1, 0x9f4787c3, 0x529e7d00, 0x49231c1e, 0x52f1ccf7));
    Next(word, at, 55, 0x682e6ff3, 0xb20f7a99, 0x38cc9913, 0x54cb266b,
         Vars(0x3ec45cdb, 0xf5702fdb, 0x101fd28f, 0x886e7a22, 0xe50e1b4f, 0x9f4787c3, 0x529e7d00, 0x49231c1e));
  }

  lemma RoundsTo60(word: (nat, bv32) -> bool, at: (nat, Vars) -> bool)
    requires Steps(word, at) && word(56, 0xef57b9cd) && word(57, 0xebe6b238)
    requires word(58, 0x9fe3095e) && word(59, 0x78bc8d4b)
    requires at(56, Vars(0x38cc9913, 0x3ec45cdb, 0xf5702fdb, 0x101fd28f,
                        0x54cb266b, 0xe50e1b4f, 0x9f4787c3, 0x529e7d00))
    ensures at(60, Vars(0xb6ae8fff, 0xffb70472, 0xc062d46f, 0xfcd1887b,
                       0xb21bad3d, 0x6d83bfc6, 0x7e44008e, 0x9b5e906c))
  {
    Next(word, at, 56, 0x748f82ee, 0xef57b9cd, 0xfcd1887b, 0x9b5e906c,
         Vars(0x38cc9913, 0x3ec45cdb, 0xf5702fdb, 0x101fd28f, 0x54cb266b, 0xe50e1b4f, 0x9f4787c3, 0x529e7d00));
    Next(word, at, 57, 0x78a5636f, 0xebe6b238, 0xc062d46f, 0x7e44008e,
         Vars(0xfcd1887b, 0x38cc9913, 0x3ec45cdb, 0xf5702fdb, 0x9b5e906c, 0x54cb266b, 0xe50e1b4f, 0x9f4787c3));
    Next(word, at, 58, 0x84c87814, 0x9fe3095e, 0xffb70472, 0x6d83bfc6,
         Vars(0xc062d46f, 0xfcd1887b, 0x38cc9913, 0x3ec45cdb, 0x7e44008e, 0x9b5e906c, 0x54cb266b, 0xe50e1b4f));
    Next(word, at, 59, 0x8cc70208, 0x78bc8d4b, 0xb6ae8fff, 0xb21bad3d,
         Vars(0xffb70472, 0xc062d46f, 0xfcd1887b, 0x38cc9913, 0x6d83bfc6, 0x7e44008e, 0x9b5e906c, 0x54cb266b));
  }

  lemma RoundsTo64(word: (nat, bv32) -> bool, at: (nat, Vars) -> bool)
    requires Steps(word, at) && word(60, 0xa43fcf15) && word(61, 0x668b2ff8)
    requires word(62, 0xeeaba2cc) && word(63, 0x12b1edeb)
    requires at(60, Vars(0xb6ae8fff, 0xffb70472, 0xc062d46f, 0xfcd1887b,
                        0xb21bad3d, 0x6d83bfc6, 0x7e44008e, 0x9b5e906c))
    ensures at(64, Vars(0x506e3058, 0xd39a2165, 0x04d24d6c, 0xb85e2ce9,
                       0x5ef50f24, 0xfb121210, 0x948d25b6, 0x961f4894))
  {
    Next(word, at, 60, 0x90befffa, 0xa43fcf15, 0xb85e2ce9, 0x961f4894,
         Vars(0xb6ae8fff, 0xffb70472, 0xc062d46f, 0xfcd1887b, 0xb21bad3d, 0x6d83bfc6, 0x7e44008e, 0x9b5e906c));
    Next(word, at, 61, 0xa4506ceb, 0x668b2ff8, 0x04d24d6c, 0x948d25b6,
         Vars(0xb85e2ce9, 0xb6ae8fff, 0xffb70472, 0xc062d46f, 0x961f4894, 0xb21bad3d, 0x6d83bfc6, 0x7e44008e));
    Next(word, at, 62, 0xbef9a3f7, 0xeeaba2cc, 0xd39a2165, 0xfb121210,
         Vars(0x04d24d6c, 0xb85e2ce9, 0xb6ae8fff, 0xffb70472, 0x948d25b6, 0x961f4894, 0xb21bad3d, 0x6d83bfc6));
    Next(word, at, 63, 0xc67178f2, 0x12b1edeb, 0x506e3058, 0x5ef50f24,
         Vars(0xd39a2165, 0x04d24d6c, 0xb85e2ce9, 0xb6ae8fff, 0xfb121210, 0x948d25b6, 0x961f4894, 0xb21bad3d));
  }

  // ----- the digest -----

  ghost predicate IsWord(t: nat, x: bv32) { t < 64 && |BLOCK| == 64 && W(BLOCK, t) == x }

  ghost predicate Before(t: nat, v: Vars) { t <= 64 && |BLOCK| == 64 && Rounds(IV, BLOCK, t) == v }

  lemma FirstWordAt(t: nat)
    requires t < 16
    ensures IsWord(t, if t == 0 then 0x61626380 else if t == 15 then 0x18 else 0)
  {
    BlockBytes(4 * t);
    BlockBytes(4 * t + 1);
    BlockBytes(4 * t + 2);
    BlockBytes(4 * t + 3);
  }

  lemma BlockFollows()
    ensures Follows(IsWord) && FirstWords(IsWord)
  {
    FirstWordAt(0);
    FirstWordAt(15);
    forall t: nat | 1 <= t < 15 ensures IsWord(t, 0) { FirstWordAt(t); }
  }

  lemma BlockSteps()
    ensures Steps(IsWord, Before) && Before(0, IV)
  {
    BlockBytes(0);
  }

  lemma FinalRound()
    ensures Before(64, Vars(0x506e3058, 0xd39a2165, 0x04d24d6c, 0xb85e2ce9,
                            0x5ef50f24, 0xfb121210, 0x948d25b6, 0x961f4894))
  {
    BlockFollows();
    BlockSteps();
    Final(IsWord, Before);
  }

  lemma Final(word: (nat, bv32) -> bool, at: (nat, Vars) -> bool)
    requires Follows(word) && FirstWords(word) && Steps(word, at) && at(0, IV)
    ensures at(64, Vars(0x506e3058, 0xd39a2165, 0x04d24d6c, 0xb85e2ce9,
                       0x5ef50f24, 0xfb121210, 0x948d25b6, 0x961f4894))
  {
    WordsTo32(word);
    WordsTo48(word);
    WordsTo64(word);
    RoundsTo4(word, at);
    RoundsTo8(word, at);
    RoundsTo12(word, at);
    RoundsTo16(word, at);
    RoundsTo20(word, at);
    RoundsTo24(word, at);
    RoundsTo28(word, at);
    RoundsTo32(word, at);
    RoundsTo36(word, at);
    RoundsTo40(word, at);
    RoundsTo44(word, at);
    RoundsTo48(word, at);
    RoundsTo52(word, at);
    RoundsTo56(word, at);
    RoundsTo60(word, at);
    RoundsTo64(word, at);
  }

  /** The published digest of "abc". */
  lemma DigestOfAbc()
    ensures Sha256(ABC) == [
              0xba, 0x78, 0x16, 0xbf, 0x8f, 0x01, 0xcf, 0xea, 0x41, 0x41, 0x40, 0xde, 0x5d, 0xae, 0x22, 0x23,
              0xb0, 0x03, 0x61, 0xa3, 0x96, 0x17, 0x7a, 0x9c, 0xb4, 0x10, 0xff, 0x61, 0xf2, 0x00, 0x15, 0xad]
  {
    PaddedAbc();
    FinalRound();
    assert BLOCK[..0] == [] && BLOCK[0..] == BLOCK;
    FinalBytes();
  }

  lemma FinalBytes()
    ensures DigestBytes(AddVars(IV, Vars(0x506e3058, 0xd39a2165, 0x04d24d6c, 0xb85e2ce9,
                                     0x5ef50f24, 0xfb121210, 0x948d25b6, 0x961f4894))) == [
              0xba, 0x78, 0x16, 0xbf, 0x8f, 0x01, 0xcf, 0xea, 0x41, 0x41, 0x40, 0xde, 0x5d, 0xae, 0x22, 0x23,
              0xb0, 0x03, 0x61, 0xa3, 0x96, 0x17, 0x7a, 0x9c, 0xb4, 0x10, 0xff, 0x61, 0xf2, 0x00, 0x15, 0xad]
  {
  }
}
