/** The published example of FIPS 180-4: the digest of "abc", followed through the message schedule and all
    64 rounds. Any other constant, function, order or padding would end somewhere else. */
module Sha256Vector {
  import opened Bytes
  import opened Sha256

  const MESSAGE: seq<byte> := [0x61, 0x62, 0x63]
  const BLOCK: Block := [0x61, 0x62, 0x63, 0x80] + Zeros(52) + [0, 0, 0, 0, 0, 0, 0, 24]
  const START: Working := ToWorking(INITIAL)

  // ----- the schedule

  lemma FirstWords(t: nat)
    requires t < 16
    ensures Schedule(BLOCK, t) == if t == 0 then 0x61626380 else if t == 15 then 0x18 else 0
  {
    hide WordOf;
    BlockBytes(4 * t);
    BlockBytes(4 * t + 1);
    BlockBytes(4 * t + 2);
    BlockBytes(4 * t + 3);
    WordRead(0x61626380, 0x61, 0x62, 0x63, 0x80);
    WordRead(0x18, 0, 0, 0, 24);
    WordRead(0, 0, 0, 0, 0);
  }

  lemma WordRead(w: bv32, b0: byte, b1: byte, b2: byte, b3: byte)
    requires w as int == 0x1000000 * b0 + 0x10000 * b1 + 0x100 * b2 + b3
    ensures WordOf(b0, b1, b2, b3) == w
  {
    AsWord(w, 0x1000000 * b0 + 0x10000 * b1 + 0x100 * b2 + b3);
  }

  lemma AsWord(w: bv32, v: int)
    requires 0 <= v < 0x1_0000_0000 && w as int == v
    ensures v as bv32 == w
  {
  }

  lemma BlockBytes(i: nat)
    requires i < 64
    ensures BLOCK[i] == if i == 0 then 0x61 else if i == 1 then 0x62 else if i == 2 then 0x63 else if i == 3 then 0x80
                        else if i == 63 then 24 else 0
  {
    var tail: seq<byte> := [0, 0, 0, 0, 0, 0, 0, 24];
    assert i >= 56 ==> BLOCK[i] == tail[i - 56];
  }

  predicate WordAre(t: nat, w: bv32) {
    Schedule(BLOCK, t) == w
  }

  /** One more word of the schedule. */
  lemma Extend(t: nat, w2: bv32, w7: bv32, w15: bv32, w16: bv32, w: bv32)
    requires t >= 16 && WordAre(t - 2, w2) && WordAre(t - 7, w7) && WordAre(t - 15, w15) && WordAre(t - 16, w16)
    requires ScheduleWord(w2, w7, w15, w16) == w
    ensures WordAre(t, w)
  {
    hide ScheduleWord, WordAt;
  }

  lemma Words0()
    ensures WordAre(0, 0x61626380) && WordAre(1, 0x00000000) && WordAre(2, 0x00000000) && WordAre(3, 0x00000000)
    ensures WordAre(4, 0x00000000) && WordAre(5, 0x00000000) && WordAre(6, 0x00000000) && WordAre(7, 0x00000000)
  {
    FirstWords(0);
    FirstWords(1);
    FirstWords(2);
    FirstWords(3);
    FirstWords(4);
    FirstWords(5);
    FirstWords(6);
    FirstWords(7);
    hide Schedule;
  }

  lemma Words1()
    ensures WordAre(8, 0x00000000) && WordAre(9, 0x00000000) && WordAre(10, 0x00000000) && WordAre(11, 0x00000000)
    ensures WordAre(12, 0x00000000) && WordAre(13, 0x00000000) && WordAre(14, 0x00000000) && WordAre(15, 0x00000018)
  {
    FirstWords(8);
    FirstWords(9);
    FirstWords(10);
    FirstWords(11);
    FirstWords(12);
    FirstWords(13);
    FirstWords(14);
    FirstWords(15);
    hide Schedule;
  }

  lemma Words2()
    ensures WordAre(16, 0x61626380) && WordAre(17, 0x000f0000) && WordAre(18, 0x7da86405) && WordAre(19, 0x600003c6)
    ensures WordAre(20, 0x3e9d7b78) && WordAre(21, 0x0183fc00) && WordAre(22, 0x12dcbfdb) && WordAre(23, 0xe2e2c38e)
  {
    hide WordAre;
    Words0();
    Words1();
    Extend(16, 0x00000000, 0x00000000, 0x00000000, 0x61626380, 0x61626380);
    Extend(17, 0x00000018, 0x00000000, 0x00000000, 0x00000000, 0x000f0000);
    Extend(18, 0x61626380, 0x00000000, 0x00000000, 0x00000000, 0x7da86405);
    Extend(19, 0x000f0000, 0x00000000, 0x00000000, 0x00000000, 0x600003c6);
    Extend(20, 0x7da86405, 0x00000000, 0x00000000, 0x00000000, 0x3e9d7b78);
    Extend(21, 0x600003c6, 0x00000000, 0x00000000, 0x00000000, 0x0183fc00);
    Extend(22, 0x3e9d7b78, 0x00000018, 0x00000000, 0x00000000, 0x12dcbfdb);
    Extend(23, 0x0183fc00, 0x61626380, 0x00000000, 0x00000000, 0xe2e2c38e);
  }

  lemma Words3()
    ensures WordAre(24, 0xc8215c1a) && WordAre(25, 0xb73679a2) && WordAre(26, 0xe5bc3909) && WordAre(27, 0x32663c5b)
    ensures WordAre(28, 0x9d209d67) && WordAre(29, 0xec8726cb) && WordAre(30, 0x702138a4) && WordAre(31, 0xd3b7973b)
  {
    hide WordAre;
    Words1();
    Words2();
    Extend(24, 0x12dcbfdb, 0x000f0000, 0x00000000, 0x00000000, 0xc8215c1a);
    Extend(25, 0xe2e2c38e, 0x7da86405, 0x00000000, 0x00000000, 0xb73679a2);
    Extend(26, 0xc8215c1a, 0x600003c6, 0x00000000, 0x00000000, 0xe5bc3909);
    Extend(27, 0xb73679a2, 0x3e9d7b78, 0x00000000, 0x00000000, 0x32663c5b);
    Extend(28, 0xe5bc3909, 0x0183fc00, 0x00000000, 0x00000000, 0x9d209d67);
    Extend(29, 0x32663c5b, 0x12dcbfdb, 0x00000000, 0x00000000, 0xec8726cb);
    Extend(30, 0x9d209d67, 0xe2e2c38e, 0x00000018, 0x00000000, 0x702138a4);
    Extend(31, 0xec8726cb, 0xc8215c1a, 0x61626380, 0x00000018, 0xd3b7973b);
  }

  lemma Words4()
    ensures WordAre(32, 0x93f5997f) && WordAre(33, 0x3b68ba73) && WordAre(34, 0xaff4ffc1) && WordAre(35, 0xf10a5c62)
    ensures WordAre(36, 0x0a8b3996) && WordAre(37, 0x72af830a) && WordAre(38, 0x9409e33e) && WordAre(39, 0x24641522)
  {
    hide WordAre;
    Words2();
    Words3();
    Extend(32, 0x702138a4, 0xb73679a2, 0x000f0000, 0x61626380, 0x93f5997f);
    Extend(33, 0xd3b7973b, 0xe5bc3909, 0x7da86405, 0x000f0000, 0x3b68ba73);
    Extend(34, 0x93f5997f, 0x32663c5b, 0x600003c6, 0x7da86405, 0xaff4ffc1);
    Extend(35, 0x3b68ba73, 0x9d209d67, 0x3e9d7b78, 0x600003c6, 0xf10a5c62);
    Extend(36, 0xaff4ffc1, 0xec8726cb, 0x0183fc00, 0x3e9d7b78, 0x0a8b3996);
    Extend(37, 0xf10a5c62, 0x702138a4, 0x12dcbfdb, 0x0183fc00, 0x72af830a);
    Extend(38, 0x0a8b3996, 0xd3b7973b, 0xe2e2c38e, 0x12dcbfdb, 0x9409e33e);
    Extend(39, 0x72af830a, 0x93f5997f, 0xc8215c1a, 0xe2e2c38e, 0x24641522);
  }

  lemma Words5()
    ensures WordAre(40, 0x9f47bf94) && WordAre(41, 0xf0a64f5a) && WordAre(42, 0x3e246a79) && WordAre(43, 0x27333ba3)
    ensures WordAre(44, 0x0c4763f2) && WordAre(45, 0x840abf27) && WordAre(46, 0x7a290d5d) && WordAre(47, 0x065c43da)
  {
    hide WordAre;
    Words3();
    Words4();
    Extend(40, 0x9409e33e, 0x3b68ba73, 0xb73679a2, 0xc8215c1a, 0x9f47bf94);
    Extend(41, 0x24641522, 0xaff4ffc1, 0xe5bc3909, 0xb73679a2, 0xf0a64f5a);
    Extend(42, 0x9f47bf94, 0xf10a5c62, 0x32663c5b, 0xe5bc3909, 0x3e246a79);
    Extend(43, 0xf0a64f5a, 0x0a8b3996, 0x9d209d67, 0x32663c5b, 0x27333ba3);
    Extend(44, 0x3e246a79, 0x72af830a, 0xec8726cb, 0x9d209d67, 0x0c4763f2);
    Extend(45, 0x27333ba3, 0x9409e33e, 0x702138a4, 0xec8726cb, 0x840abf27);
    Extend(46, 0x0c4763f2, 0x24641522, 0xd3b7973b, 0x702138a4, 0x7a290d5d);
    Extend(47, 0x840abf27, 0x9f47bf94, 0x93f5997f, 0xd3b7973b, 0x065c43da);
  }

  lemma Words6()
    ensures WordAre(48, 0xfb3e89cb) && WordAre(49, 0xcc7617db) && WordAre(50, 0xb9e66c34) && WordAre(51, 0xa9993667)
    ensures WordAre(52, 0x84badedd) && WordAre(53, 0xc21462bc) && WordAre(54, 0x1487472c) && WordAre(55, 0xb20f7a99)
  {
    hide WordAre;
    Words4();
    Words5();
    Extend(48, 0x7a290d5d, 0xf0a64f5a, 0x3b68ba73, 0x93f5997f, 0xfb3e89cb);
    Extend(49, 0x065c43da, 0x3e246a79, 0xaff4ffc1, 0x3b68ba73, 0xcc7617db);
    Extend(50, 0xfb3e89cb, 0x27333ba3, 0xf10a5c62, 0xaff4ffc1, 0xb9e66c34);
    Extend(51, 0xcc7617db, 0x0c4763f2, 0x0a8b3996, 0xf10a5c62, 0xa9993667);
    Extend(52, 0xb9e66c34, 0x840abf27, 0x72af830a, 0x0a8b3996, 0x84badedd);
    Extend(53, 0xa9993667, 0x7a290d5d, 0x9409e33e, 0x72af830a, 0xc21462bc);
    Extend(54, 0x84badedd, 0x065c43da, 0x24641522, 0x9409e33e, 0x1487472c);
    Extend(55, 0xc21462bc, 0xfb3e89cb, 0x9f47bf94, 0x24641522, 0xb20f7a99);
  }

  lemma Words7()
    ensures WordAre(56, 0xef57b9cd) && WordAre(57, 0xebe6b238) && WordAre(58, 0x9fe3095e) && WordAre(59, 0x78bc8d4b)
    ensures WordAre(60, 0xa43fcf15) && WordAre(61, 0x668b2ff8) && WordAre(62, 0xeeaba2cc) && WordAre(63, 0x12b1edeb)
  {
    hide WordAre;
    Words5();
    Words6();
    Extend(56, 0x1487472c, 0xcc7617db, 0xf0a64f5a, 0x9f47bf94, 0xef57b9cd);
    Extend(57, 0xb20f7a99, 0xb9e66c34, 0x3e246a79, 0xf0a64f5a, 0xebe6b238);
    Extend(58, 0xef57b9cd, 0xa9993667, 0x27333ba3, 0x3e246a79, 0x9fe3095e);
    Extend(59, 0xebe6b238, 0x84badedd, 0x0c4763f2, 0x27333ba3, 0x78bc8d4b);
    Extend(60, 0x9fe3095e, 0xc21462bc, 0x840abf27, 0x0c4763f2, 0xa43fcf15);
    Extend(61, 0x78bc8d4b, 0x1487472c, 0x7a290d5d, 0x840abf27, 0x668b2ff8);
    Extend(62, 0xa43fcf15, 0xb20f7a99, 0x065c43da, 0x7a290d5d, 0xeeaba2cc);
    Extend(63, 0x668b2ff8, 0xef57b9cd, 0xfb3e89cb, 0x065c43da, 0x12b1edeb);
  }

  // ----- the rounds

  /** The working variables after t rounds. */
  predicate After(t: nat, v: Working) {
    t <= 64 && Rounds(BLOCK, START, t) == v
  }

  /** One more round: two new variables, the other six move along. */
  lemma Turn(t: nat, v: Working, k: bv32, w: bv32, a: bv32, e: bv32) returns (v': Working)
    requires t < 64 && After(t, v) && RoundConstant(t) == k && WordAre(t, w)
    requires Round(v, k, w) == Working(a, v.a, v.b, v.c, e, v.e, v.f, v.g)
    ensures v' == Working(a, v.a, v.b, v.c, e, v.e, v.f, v.g) && After(t + 1, v')
  {
    hide Round, RoundConstant, Schedule;
    v' := Working(a, v.a, v.b, v.c, e, v.e, v.f, v.g);
  }

  lemma Begun()
    ensures After(0, Working(0x6a09e667, 0xbb67ae85, 0x3c6ef372, 0xa54ff53a, 0x510e527f, 0x9b05688c, 0x1f83d9ab, 0x5be0cd19))
  {
  }

  lemma Turns0()
    ensures After(4, Working(0xd550f666, 0xc8c347a7, 0x5a6ad9ad, 0x5d6aebcd, 0x24e00850, 0xf92939eb, 0x78ce7989, 0xfa2a4622))
  {
    hide After, WordAre;
    Begun();
    Words0();
    var v := Working(0x6a09e667, 0xbb67ae85, 0x3c6ef372, 0xa54ff53a, 0x510e527f, 0x9b05688c, 0x1f83d9ab, 0x5be0cd19);
    v := Turn(0, v, 0x428a2f98, 0x61626380, 0x5d6aebcd, 0xfa2a4622);
    v := Turn(1, v, 0x71374491, 0x00000000, 0x5a6ad9ad, 0x78ce7989);
    v := Turn(2, v, 0xb5c0fbcf, 0x00000000, 0xc8c347a7, 0xf92939eb);
    v := Turn(3, v, 0xe9b5dba5, 0x00000000, 0xd550f666, 0x24e00850);
  }

  lemma Turns1()
    ensures After(8, Working(0x85a07b5f, 0xe5030380, 0x2b4209f5, 0x04409a6a, 0x0c657a79, 0x9b27a401, 0x714260ad, 0x43ada245))
  {
    hide After, WordAre;
    Turns0();
    Words0();
    var v := Working(0xd550f666, 0xc8c347a7, 0x5a6ad9ad, 0x5d6aebcd, 0x24e00850, 0xf92939eb, 0x78ce7989, 0xfa2a4622);
    v := Turn(4, v, 0x3956c25b, 0x00000000, 0x04409a6a, 0x43ada245);
    v := Turn(5, v, 0x59f111f1, 0x00000000, 0x2b4209f5, 0x714260ad);
    v := Turn(6, v, 0x923f82a4, 0x00000000, 0xe5030380, 0x9b27a401);
    v := Turn(7, v, 0xab1c5ed5, 0x00000000, 0x85a07b5f, 0x0c657a79);
  }

  lemma Turns2()
    ensures After(12, Working(0xf71fc5a9, 0x4798a3f4, 0x8c87346b, 0x8e04ecb9, 0x816fd6e9, 0x436b23e8, 0x1cc92596, 0x32ca2d8c))
  {
    hide After, WordAre;
    Turns1();
    Words1();
    var v := Working(0x85a07b5f, 0xe5030380, 0x2b4209f5, 0x04409a6a, 0x0c657a79, 0x9b27a401, 0x714260ad, 0x43ada245);
    v := Turn(8, v, 0xd807aa98, 0x00000000, 0x8e04ecb9, 0x32ca2d8c);
    v := Turn(9, v, 0x12835b01, 0x00000000, 0x8c87346b, 0x1cc92596);
    v := Turn(10, v, 0x243185be, 0x00000000, 0x4798a3f4, 0x436b23e8);
    v := Turn(11, v, 0x550c7dc3, 0x00000000, 0xf71fc5a9, 0x816fd6e9);
  }

  lemma Turns3()
    ensures After(16, Working(0xb0fa238e, 0xc0645fde, 0xd932eb16, 0x87912990, 0x07590dcd, 0x0b92f20c, 0x745a48de, 0x1e578218))
  {
    hide After, WordAre;
    Turns2();
    Words1();
    var v := Working(0xf71fc5a9, 0x4798a3f4, 0x8c87346b, 0x8e04ecb9, 0x816fd6e9, 0x436b23e8, 0x1cc92596, 0x32ca2d8c);
    v := Turn(12, v, 0x72be5d74, 0x00000000, 0x87912990, 0x1e578218);
    v := Turn(13, v, 0x80deb1fe, 0x00000000, 0xd932eb16, 0x745a48de);
    v := Turn(14, v, 0x9bdc06a7, 0x00000000, 0xc0645fde, 0x0b92f20c);
    v := Turn(15, v, 0xc19bf174, 0x00000018, 0xb0fa238e, 0x07590dcd);
  }

  lemma Turns4()
    ensures After(20, Working(0xe1f20c33, 0xfe777bbf, 0xc2fbd9d1, 0x21da9a9b, 0xb0638179, 0xcc899961, 0x846ee454, 0x8034229c))
  {
    hide After, WordAre;
    Turns3();
    Words2();
    var v := Working(0xb0fa238e, 0xc0645fde, 0xd932eb16, 0x87912990, 0x07590dcd, 0x0b92f20c, 0x745a48de, 0x1e578218);
    v := Turn(16, v, 0xe49b69c1, 0x61626380, 0x21da9a9b, 0x8034229c);
    v := Turn(17, v, 0xefbe4786, 0x000f0000, 0xc2fbd9d1, 0x846ee454);
    v := Turn(18, v, 0x0fc19dc6, 0x7da86405, 0xfe777bbf, 0xcc899961);
    v := Turn(19, v, 0x240ca1cc, 0x600003c6, 0xe1f20c33, 0xb0638179);
  }

  lemma Turns5()
    ensures After(24, Working(0xc5d53d8d, 0xa7a3623f, 0xc2606d6d, 0x9dc68b63, 0xaa47c347, 0x49f5114a, 0xe1257970, 0x8ada8930))
  {
    hide After, WordAre;
    Turns4();
    Words2();
    var v := Working(0xe1f20c33, 0xfe777bbf, 0xc2fbd9d1, 0x21da9a9b, 0xb0638179, 0xcc899961, 0x846ee454, 0x8034229c);
    v := Turn(20, v, 0x2de92c6f, 0x3e9d7b78, 0x9dc68b63, 0x8ada8930);
    v := Turn(21, v, 0x4a7484aa, 0x0183fc00, 0xc2606d6d, 0xe1257970);
    v := Turn(22, v, 0x5cb0a9dc, 0x12dcbfdb, 0xa7a3623f, 0x49f5114a);
    v := Turn(23, v, 0x76f988da, 0xe2e2c38e, 0xc5d53d8d, 0xaa47c347);
  }

  lemma Turns6()
    ensures After(28, Working(0x77d37528, 0xb62ec4bc, 0xcde8037d, 0x1c2c2838, 0xedffbff8, 0xc74c6516, 0x14383d8e, 0x2823ef91))
  {
    hide After, WordAre;
    Turns5();
    Words3();
    var v := Working(0xc5d53d8d, 0xa7a3623f, 0xc2606d6d, 0x9dc68b63, 0xaa47c347, 0x49f5114a, 0xe1257970, 0x8ada8930);
    v := Turn(24, v, 0x983e5152, 0xc8215c1a, 0x1c2c2838, 0x2823ef91);
    v := Turn(25, v, 0xa831c66d, 0xb73679a2, 0xcde8037d, 0x14383d8e);
    v := Turn(26, v, 0xb00327c8, 0xe5bc3909, 0xb62ec4bc, 0xc74c6516);
    v := Turn(27, v, 0xbf597fc7, 0x32663c5b, 0x77d37528, 0xedffbff8);
  }

  lemma Turns7()
    ensures After(32, Working(0x73b33bf5, 0xea992a22, 0xa0060b30, 0x363482c9, 0xba591112, 0x0109ab3a, 0xade79437, 0x6112a3b7))
  {
    hide After, WordAre;
    Turns6();
    Words3();
    var v := Working(0x77d37528, 0xb62ec4bc, 0xcde8037d, 0x1c2c2838, 0xedffbff8, 0xc74c6516, 0x14383d8e, 0x2823ef91);
    v := Turn(28, v, 0xc6e00bf3, 0x9d209d67, 0x363482c9, 0x6112a3b7);
    v := Turn(29, v, 0xd5a79147, 0xec8726cb, 0xa0060b30, 0xade79437);
    v := Turn(30, v, 0x06ca6351, 0x702138a4, 0xea992a22, 0x0109ab3a);
    v := Turn(31, v, 0x14292967, 0xd3b7973b, 0x73b33bf5, 0xba591112);
  }

  lemma Turns8()
    ensures After(36, Working(0x65a0cfe4, 0xa9a7738c, 0xfe604df5, 0x98e12507, 0xf4b002d6, 0x085f3833, 0x59249dd3, 0x9cd9f5f6))
  {
    hide After, WordAre;
    Turns7();
    Words4();
    var v := Working(0x73b33bf5, 0xea992a22, 0xa0060b30, 0x363482c9, 0xba591112, 0x0109ab3a, 0xade79437, 0x6112a3b7);
    v := Turn(32, v, 0x27b70a85, 0x93f5997f, 0x98e12507, 0x9cd9f5f6);
    v := Turn(33, v, 0x2e1b2138, 0x3b68ba73, 0xfe604df5, 0x59249dd3);
    v := Turn(34, v, 0x4d2c6dfc, 0xaff4ffc1, 0xa9a7738c, 0x085f3833);
    v := Turn(35, v, 0x53380d13, 0xf10a5c62, 0x65a0cfe4, 0xf4b002d6);
  }

  lemma Turns9()
    ensures After(40, Working(0x79ea687a, 0x6dc57a8a, 0x34df1604, 0x41a65cb1, 0x1efbc0a0, 0xf0781bc8, 0xa507a53d, 0x0772a26b))
  {
    hide After, WordAre;
    Turns8();
    Words4();
    var v := Working(0x65a0cfe4, 0xa9a7738c, 0xfe604df5, 0x98e12507, 0xf4b002d6, 0x085f3833, 0x59249dd3, 0x9cd9f5f6);
    v := Turn(36, v, 0x650a7354, 0x0a8b3996, 0x41a65cb1, 0x0772a26b);
    v := Turn(37, v, 0x766a0abb, 0x72af830a, 0x34df1604, 0xa507a53d);
    v := Turn(38, v, 0x81c2c92e, 0x9409e33e, 0x6dc57a8a, 0xf0781bc8);
    v := Turn(39, v, 0x92722c85, 0x24641522, 0x79ea687a, 0x1efbc0a0);
  }

  lemma Turns10()
    ensures After(44, Working(0x9d4baf93, 0x17aa0dfe, 0xdf46652f, 0xd6670766, 0xfda24c2e, 0xdecd4715, 0x838b2711, 0x26352d63))
  {
    hide After, WordAre;
    Turns9();
    Words5();
    var v := Working(0x79ea687a, 0x6dc57a8a, 0x34df1604, 0x41a65cb1, 0x1efbc0a0, 0xf0781bc8, 0xa507a53d, 0x0772a26b);
    v := Turn(40, v, 0xa2bfe8a1, 0x9f47bf94, 0xd6670766, 0x26352d63);
    v := Turn(41, v, 0xa81a664b, 0xf0a64f5a, 0xdf46652f, 0x838b2711);
    v := Turn(42, v, 0xc24b8b70, 0x3e246a79, 0x17aa0dfe, 0xdecd4715);
    v := Turn(43, v, 0xc76c51a3, 0x27333ba3, 0x9d4baf93, 0xfda24c2e);
  }

  lemma Turns11()
    ensures After(48, Working(0x4172328d, 0xa14c14b0, 0x72ab4b91, 0x26628815, 0xfecf0bc6, 0xd57b94a9, 0xb7755da1, 0xa80f11f0))
  {
    hide After, WordAre;
    Turns10();
    Words5();
    var v := Working(0x9d4baf93, 0x17aa0dfe, 0xdf46652f, 0xd6670766, 0xfda24c2e, 0xdecd4715, 0x838b2711, 0x26352d63);
    v := Turn(44, v, 0xd192e819, 0x0c4763f2, 0x26628815, 0xa80f11f0);
    v := Turn(45, v, 0xd6990624, 0x840abf27, 0x72ab4b91, 0xb7755da1);
    v := Turn(46, v, 0xf40e3585, 0x7a290d5d, 0xa14c14b0, 0xd57b94a9);
    v := Turn(47, v, 0x106aa070, 0x065c43da, 0x4172328d, 0xfecf0bc6);
  }

  lemma Turns12()
    ensures After(52, Working(0x886e7a22, 0x7a0508a1, 0xf11bfaa8, 0x05757ceb, 0x49231c1e, 0x52f1ccf7, 0x6e5c390c, 0xbd714038))
  {
    hide After, WordAre;
    Turns11();
    Words6();
    var v := Working(0x4172328d, 0xa14c14b0, 0x72ab4b91, 0x26628815, 0xfecf0bc6, 0xd57b94a9, 0xb7755da1, 0xa80f11f0);
    v := Turn(48, v, 0x19a4c116, 0xfb3e89cb, 0x05757ceb, 0xbd714038);
    v := Turn(49, v, 0x1e376c08, 0xcc7617db, 0xf11bfaa8, 0x6e5c390c);
    v := Turn(50, v, 0x2748774c, 0xb9e66c34, 0x7a0508a1, 0x52f1ccf7);
    v := Turn(51, v, 0x34b0bcb5, 0xa9993667, 0x886e7a22, 0x49231c1e);
  }

  lemma Turns13()
    ensures After(56, Working(0x38cc9913, 0x3ec45cdb, 0xf5702fdb, 0x101fd28f, 0x54cb266b, 0xe50e1b4f, 0x9f4787c3, 0x529e7d00))
  {
    hide After, WordAre;
    Turns12();
    Words6();
    var v := Working(0x886e7a22, 0x7a0508a1, 0xf11bfaa8, 0x05757ceb, 0x49231c1e, 0x52f1ccf7, 0x6e5c390c, 0xbd714038);
    v := Turn(52, v, 0x391c0cb3, 0x84badedd, 0x101fd28f, 0x529e7d00);
    v := Turn(53, v, 0x4ed8aa4a, 0xc21462bc, 0xf5702fdb, 0x9f4787c3);
    v := Turn(54, v, 0x5b9cca4f, 0x1487472c, 0x3ec45cdb, 0xe50e1b4f);
    v := Turn(55, v, 0x682e6ff3, 0xb20f7a99, 0x38cc9913, 0x54cb266b);
  }

  lemma Turns14()
    ensures After(60, Working(0xb6ae8fff, 0xffb70472, 0xc062d46f, 0xfcd1887b, 0xb21bad3d, 0x6d83bfc6, 0x7e44008e, 0x9b5e906c))
  {
    hide After, WordAre;
    Turns13();
    Words7();
    var v := Working(0x38cc9913, 0x3ec45cdb, 0xf5702fdb, 0x101fd28f, 0x54cb266b, 0xe50e1b4f, 0x9f4787c3, 0x529e7d00);
    v := Turn(56, v, 0x748f82ee, 0xef57b9cd, 0xfcd1887b, 0x9b5e906c);
    v := Turn(57, v, 0x78a5636f, 0xebe6b238, 0xc062d46f, 0x7e44008e);
    v := Turn(58, v, 0x84c87814, 0x9fe3095e, 0xffb70472, 0x6d83bfc6);
    v := Turn(59, v, 0x8cc70208, 0x78bc8d4b, 0xb6ae8fff, 0xb21bad3d);
  }

  lemma Turns15()
    ensures After(64, Working(0x506e3058, 0xd39a2165, 0x04d24d6c, 0xb85e2ce9, 0x5ef50f24, 0xfb121210, 0x948d25b6, 0x961f4894))
  {
    hide After, WordAre;
    Turns14();
    Words7();
    var v := Working(0xb6ae8fff, 0xffb70472, 0xc062d46f, 0xfcd1887b, 0xb21bad3d, 0x6d83bfc6, 0x7e44008e, 0x9b5e906c);
    v := Turn(60, v, 0x90befffa, 0xa43fcf15, 0xb85e2ce9, 0x961f4894);
    v := Turn(61, v, 0xa4506ceb, 0x668b2ff8, 0x04d24d6c, 0x948d25b6);
    v := Turn(62, v, 0xbef9a3f7, 0xeeaba2cc, 0xd39a2165, 0xfb121210);
    v := Turn(63, v, 0xc67178f2, 0x12b1edeb, 0x506e3058, 0x5ef50f24);
  }

  // ----- the digest

  const DIGEST: seq<byte> := [
    0xba, 0x78, 0x16, 0xbf, 0x8f, 0x01, 0xcf, 0xea,
    0x41, 0x41, 0x40, 0xde, 0x5d, 0xae, 0x22, 0x23,
    0xb0, 0x03, 0x61, 0xa3, 0x96, 0x17, 0x7a, 0x9c,
    0xb4, 0x10, 0xff, 0x61, 0xf2, 0x00, 0x15, 0xad]

  lemma Bytes4(w: bv32, s: seq<byte>)
    requires |s| == 4 && ValueBE(s) == w as int
    ensures WordBytes(w) == s
  {
    EncodeOfValue(s);
  }

  lemma ValueSnoc(s: seq<byte>, b: byte)
    ensures ValueBE(s + [b]) == 256 * ValueBE(s) + b
  {
    assert (s + [b])[..|s|] == s;
  }

  lemma Value4(a: byte, b: byte, c: byte, d: byte)
    ensures ValueBE([a, b, c, d]) == 0x1000000 * a + 0x10000 * b + 0x100 * c + d
  {
    assert ValueBE([]) == 0;
    ValueSnoc([], a);
    ValueSnoc([] + [a], b);
    ValueSnoc([] + [a] + [b], c);
    ValueSnoc([] + [a] + [b] + [c], d);
    hide ValueBE;
    assert [] + [a] + [b] + [c] + [d] == [a, b, c, d];
  }

  lemma WordIs(w: bv32, a: byte, b: byte, c: byte, d: byte)
    requires w as int == 0x1000000 * a + 0x10000 * b + 0x100 * c + d
    ensures WordBytes(w) == [a, b, c, d]
  {
    Value4(a, b, c, d);
    Bytes4(w, [a, b, c, d]);
  }

  /** The padded message is the one block. */
  lemma Padded(size: nat, field: nat)
    requires size == 8 && field == 24
    ensures Pad(MESSAGE) == BLOCK
  {
    var tail: seq<byte> := [0, 0, 0, 0, 0, 0, 0, 24];
    assert EncodeBE(size, field) == tail by {
      assert tail[..7] == Zeros(7) && tail[7] == 24;
      ValueZero(tail[..7]);
      EncodeOfValue(tail);
    }
    hide EncodeBE;
    assert ZeroCount(3) == 52;
  }

  lemma Finals(s: Words)
    requires s == AddWorking(INITIAL, Working(0x506e3058, 0xd39a2165, 0x04d24d6c, 0xb85e2ce9, 0x5ef50f24, 0xfb121210, 0x948d25b6, 0x961f4894))
    ensures s[0] == 0xba7816bf
    ensures s[1] == 0x8f01cfea
    ensures s[2] == 0x414140de
    ensures s[3] == 0x5dae2223
    ensures s[4] == 0xb00361a3
    ensures s[5] == 0x96177a9c
    ensures s[6] == 0xb410ff61
    ensures s[7] == 0xf20015ad
  {
  }

  lemma Output(s: Words)
    requires s == AddWorking(INITIAL, Working(0x506e3058, 0xd39a2165, 0x04d24d6c, 0xb85e2ce9, 0x5ef50f24, 0xfb121210, 0x948d25b6, 0x961f4894))
    ensures DigestBytes(s) == DIGEST
  {
    Finals(s);
    hide AddWorking, WordBytes;
    FirstHalf(s);
    SecondHalf(s);
    assert DIGEST == DIGEST[..16] + DIGEST[16..];
  }

  lemma FirstHalf(s: Words)
    requires s[0] == 0xba7816bf && s[1] == 0x8f01cfea && s[2] == 0x414140de && s[3] == 0x5dae2223
    ensures WordBytes(s[0]) + WordBytes(s[1]) + WordBytes(s[2]) + WordBytes(s[3]) == DIGEST[..16]
  {
    hide WordBytes;
    WordIs(s[0], 0xba, 0x78, 0x16, 0xbf);
    WordIs(s[1], 0x8f, 0x01, 0xcf, 0xea);
    WordIs(s[2], 0x41, 0x41, 0x40, 0xde);
    WordIs(s[3], 0x5d, 0xae, 0x22, 0x23);
  }

  lemma SecondHalf(s: Words)
    requires s[4] == 0xb00361a3 && s[5] == 0x96177a9c && s[6] == 0xb410ff61 && s[7] == 0xf20015ad
    ensures WordBytes(s[4]) + WordBytes(s[5]) + WordBytes(s[6]) + WordBytes(s[7]) == DIGEST[16..]
  {
    hide WordBytes;
    WordIs(s[4], 0xb0, 0x03, 0x61, 0xa3);
    WordIs(s[5], 0x96, 0x17, 0x7a, 0x9c);
    WordIs(s[6], 0xb4, 0x10, 0xff, 0x61);
    WordIs(s[7], 0xf2, 0x00, 0x15, 0xad);
  }

  lemma Compressed(count: nat)
    requires count == 64
    ensures Compress(INITIAL, BLOCK) == AddWorking(INITIAL, Working(0x506e3058, 0xd39a2165, 0x04d24d6c, 0xb85e2ce9, 0x5ef50f24, 0xfb121210, 0x948d25b6, 0x961f4894))
  {
    hide Rounds, AddWorking;
    Turns15();
  }

  /** SHA-256("abc") is ba7816bf 8f01cfea 414140de 5dae2223 b00361a3 96177a9c b410ff61 f20015ad. */
  lemma DigestOfAbc()
    ensures Hash(MESSAGE) == DIGEST
  {
    hide Pad, Compress, DigestBytes, Rounds;
    Padded(8, 24);
    CompressOne(INITIAL, BLOCK);
    Compressed(ROUND_COUNT);
    Output(Compress(INITIAL, BLOCK));
  }
}
