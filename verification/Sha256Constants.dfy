/** Where the numbers in SHA-256 come from: the round constants and the initial hash value are the first 32
    bits of the fractional parts of the cube and square roots of the first primes (sections 4.2.2 and 5.3.3
    of FIPS 180-4), and the logical functions are the selections, votes and rotations they are named for. */
module Sha256Constants {
  import opened Bytes
  import opened Sha256

  // ----- primes

  ghost predicate Divides(d: nat, m: nat) {
    d > 0 && m % d == 0
  }

  ghost predicate Prime(m: nat) {
    m >= 2 && forall d :: 2 <= d < m ==> !Divides(d, m)
  }

  /** Not divided by any prime up to 17, except perhaps itself. */
  predicate Undivided(m: nat) {
    && (m == 2 || m % 2 != 0) && (m == 3 || m % 3 != 0) && (m == 5 || m % 5 != 0) && (m == 7 || m % 7 != 0)
    && (m == 11 || m % 11 != 0) && (m == 13 || m % 13 != 0) && (m == 17 || m % 17 != 0)
  }

  /** A number from 2 to 17 that divides m, or its own least prime factor, shows. */
  lemma SmallDivisor(m: nat, c: nat, x: nat)
    requires 2 <= c < 18 && c < m && m == c * x
    ensures !Undivided(m)
  {
    if c < 10 {
      SmallerDivisor(m, c, x);
    } else {
      LargerDivisor(m, c, x);
    }
  }

  lemma SmallerDivisor(m: nat, c: nat, x: nat)
    requires 2 <= c < 10 && c < m && m == c * x
    ensures !Undivided(m)
  {
    hide Undivided;
    match c {
      case 2 => DividedBy(m, 2, x);
      case 3 => DividedBy(m, 3, x);
      case 4 => DividedBy(m, 2, 2 * x);
      case 5 => DividedBy(m, 5, x);
      case 6 => DividedBy(m, 2, 3 * x);
      case 7 => DividedBy(m, 7, x);
      case 8 => DividedBy(m, 2, 4 * x);
      case 9 => DividedBy(m, 3, 3 * x);
    }
  }

  lemma LargerDivisor(m: nat, c: nat, x: nat)
    requires 10 <= c < 18 && c < m && m == c * x
    ensures !Undivided(m)
  {
    hide Undivided;
    match c {
      case 10 => DividedBy(m, 2, 5 * x);
      case 11 => DividedBy(m, 11, x);
      case 12 => DividedBy(m, 2, 6 * x);
      case 13 => DividedBy(m, 13, x);
      case 14 => DividedBy(m, 2, 7 * x);
      case 15 => DividedBy(m, 3, 5 * x);
      case 16 => DividedBy(m, 2, 8 * x);
      case 17 => DividedBy(m, 17, x);
    }
  }

  lemma DividedBy(m: nat, q: nat, y: nat)
    requires q in {2, 3, 5, 7, 11, 13, 17} && q < m && m == q * y
    ensures !Undivided(m)
  {
    ModOf(m, q, y, 0);
  }

  /** Below 18 * 18 trial division by the primes up to 17 decides. */
  lemma TrialDivision(m: nat)
    requires 2 <= m < 324
    ensures Undivided(m) <==> Prime(m)
  {
    if Undivided(m) {
      forall d | 2 <= d < m
        ensures !Divides(d, m)
      {
        if Divides(d, m) {
          Cofactor(m, d, m / d);
        }
      }
    } else {
      assert Divides(2, m) <==> m % 2 == 0;
      assert Divides(3, m) <==> m % 3 == 0;
      assert Divides(5, m) <==> m % 5 == 0;
      assert Divides(7, m) <==> m % 7 == 0;
      assert Divides(11, m) <==> m % 11 == 0;
      assert Divides(13, m) <==> m % 13 == 0;
      assert Divides(17, m) <==> m % 17 == 0;
    }
  }

  /** Of a divisor and its cofactor one is below 18. */
  lemma Cofactor(m: nat, d: nat, e: nat)
    requires 2 <= d < m < 324 && e == m / d && Divides(d, m)
    ensures !Undivided(m)
  {
    assert m == d * e;
    hide Undivided;
    if d < 18 {
      SmallDivisor(m, d, e);
    } else {
      if e >= 18 {
        MulMono(18, e, d);
      }
      assert e >= 2;
      SmallDivisor(m, e, d);
    }
  }

  /** p is the next prime after a, as far as trial division goes. */
  predicate Follows(a: nat, p: nat) {
    a < p && Undivided(p) && forall m :: a < m < p ==> !Undivided(m)
  }

  const P0: seq<nat> := [2, 3, 5, 7, 11, 13, 17, 19]
  const P1: seq<nat> := [23, 29, 31, 37, 41, 43, 47, 53]
  const P2: seq<nat> := [59, 61, 67, 71, 73, 79, 83, 89]
  const P3: seq<nat> := [97, 101, 103, 107, 109, 113, 127, 131]
  const P4: seq<nat> := [137, 139, 149, 151, 157, 163, 167, 173]
  const P5: seq<nat> := [179, 181, 191, 193, 197, 199, 211, 223]
  const P6: seq<nat> := [227, 229, 233, 239, 241, 251, 257, 263]
  const P7: seq<nat> := [269, 271, 277, 281, 283, 293, 307, 311]

  function PrimeAt(t: nat): nat
    requires t < 64
  {
    if t < 8 then P0[t] else if t < 16 then P1[t - 8] else if t < 24 then P2[t - 16] else if t < 32 then P3[t - 24]
    else if t < 40 then P4[t - 32] else if t < 48 then P5[t - 40] else if t < 56 then P6[t - 48] else P7[t - 56]
  }

  function Before(t: nat): nat
    requires t < 64
  {
    if t == 0 then 1 else PrimeAt(t - 1)
  }

  lemma RowFacts0()
    ensures Follows(1, 2) && Follows(2, 3) && Follows(3, 5) && Follows(5, 7)
  {
    assert Undivided(2) && Undivided(3) && Undivided(5) && Undivided(7);
    assert !Undivided(4) && !Undivided(6);
    hide Undivided;
  }

  lemma RowFacts1()
    ensures Follows(7, 11) && Follows(11, 13) && Follows(13, 17) && Follows(17, 19)
  {
    assert Undivided(11) && Undivided(13) && Undivided(17) && Undivided(19);
    assert !Undivided(8) && !Undivided(9) && !Undivided(10) && !Undivided(12) && !Undivided(14) && !Undivided(15);
    assert !Undivided(16) && !Undivided(18);
    hide Undivided;
  }

  lemma Row0(t: nat)
    requires 0 <= t < 8
    ensures Follows(Before(t), PrimeAt(t)) && 2 <= PrimeAt(t) < 324
  {
    hide Follows;
    RowFacts0();
    RowFacts1();
  }

  lemma RowFacts2()
    ensures Follows(19, 23) && Follows(23, 29) && Follows(29, 31) && Follows(31, 37)
  {
    assert Undivided(23) && Undivided(29) && Undivided(31) && Undivided(37);
    assert !Undivided(20) && !Undivided(21) && !Undivided(22) && !Undivided(24) && !Undivided(25) && !Undivided(26);
    assert !Undivided(27) && !Undivided(28) && !Undivided(30) && !Undivided(32) && !Undivided(33) && !Undivided(34);
    assert !Undivided(35) && !Undivided(36);
    hide Undivided;
  }

  lemma RowFacts3()
    ensures Follows(37, 41) && Follows(41, 43) && Follows(43, 47) && Follows(47, 53)
  {
    assert Undivided(41) && Undivided(43) && Undivided(47) && Undivided(53);
    assert !Undivided(38) && !Undivided(39) && !Undivided(40) && !Undivided(42) && !Undivided(44) && !Undivided(45);
    assert !Undivided(46) && !Undivided(48) && !Undivided(49) && !Undivided(50) && !Undivided(51) && !Undivided(52);
    hide Undivided;
  }

  lemma Row1(t: nat)
    requires 8 <= t < 16
    ensures Follows(Before(t), PrimeAt(t)) && 2 <= PrimeAt(t) < 324
  {
    hide Follows;
    RowFacts2();
    RowFacts3();
  }

  lemma RowFacts4()
    ensures Follows(53, 59) && Follows(59, 61) && Follows(61, 67) && Follows(67, 71)
  {
    assert Undivided(59) && Undivided(61) && Undivided(67) && Undivided(71);
    assert !Undivided(54) && !Undivided(55) && !Undivided(56) && !Undivided(57) && !Undivided(58) && !Undivided(60);
    assert !Undivided(62) && !Undivided(63) && !Undivided(64) && !Undivided(65) && !Undivided(66) && !Undivided(68);
    assert !Undivided(69) && !Undivided(70);
    hide Undivided;
  }

  lemma RowFacts5()
    ensures Follows(71, 73) && Follows(73, 79) && Follows(79, 83) && Follows(83, 89)
  {
    assert Undivided(73) && Undivided(79) && Undivided(83) && Undivided(89);
    assert !Undivided(72) && !Undivided(74) && !Undivided(75) && !Undivided(76) && !Undivided(77) && !Undivided(78);
    assert !Undivided(80) && !Undivided(81) && !Undivided(82) && !Undivided(84) && !Undivided(85) && !Undivided(86);
    assert !Undivided(87) && !Undivided(88);
    hide Undivided;
  }

  lemma Row2(t: nat)
    requires 16 <= t < 24
    ensures Follows(Before(t), PrimeAt(t)) && 2 <= PrimeAt(t) < 324
  {
    hide Follows;
    RowFacts4();
    RowFacts5();
  }

  lemma RowFacts6()
    ensures Follows(89, 97) && Follows(97, 101) && Follows(101, 103) && Follows(103, 107)
  {
    assert Undivided(97) && Undivided(101) && Undivided(103) && Undivided(107);
    assert !Undivided(90) && !Undivided(91) && !Undivided(92) && !Undivided(93) && !Undivided(94) && !Undivided(95);
    assert !Undivided(96) && !Undivided(98) && !Undivided(99) && !Undivided(100) && !Undivided(102) && !Undivided(104);
    assert !Undivided(105) && !Undivided(106);
    hide Undivided;
  }

  lemma RowFacts7()
    ensures Follows(107, 109) && Follows(109, 113) && Follows(113, 127) && Follows(127, 131)
  {
    assert Undivided(109) && Undivided(113) && Undivided(127) && Undivided(131);
    assert !Undivided(108) && !Undivided(110) && !Undivided(111) && !Undivided(112) && !Undivided(114) && !Undivided(115);
    assert !Undivided(116) && !Undivided(117) && !Undivided(118) && !Undivided(119) && !Undivided(120) && !Undivided(121);
    assert !Undivided(122) && !Undivided(123) && !Undivided(124) && !Undivided(125) && !Undivided(126) && !Undivided(128);
    assert !Undivided(129) && !Undivided(130);
    hide Undivided;
  }

  lemma Row3(t: nat)
    requires 24 <= t < 32
    ensures Follows(Before(t), PrimeAt(t)) && 2 <= PrimeAt(t) < 324
  {
    hide Follows;
    RowFacts6();
    RowFacts7();
  }

  lemma RowFacts8()
    ensures Follows(131, 137) && Follows(137, 139) && Follows(139, 149) && Follows(149, 151)
  {
    assert Undivided(137) && Undivided(139) && Undivided(149) && Undivided(151);
    assert !Undivided(132) && !Undivided(133) && !Undivided(134) && !Undivided(135) && !Undivided(136) && !Undivided(138);
    assert !Undivided(140) && !Undivided(141) && !Undivided(142) && !Undivided(143) && !Undivided(144) && !Undivided(145);
    assert !Undivided(146) && !Undivided(147) && !Undivided(148) && !Undivided(150);
    hide Undivided;
  }

  lemma RowFacts9()
    ensures Follows(151, 157) && Follows(157, 163) && Follows(163, 167) && Follows(167, 173)
  {
    assert Undivided(157) && Undivided(163) && Undivided(167) && Undivided(173);
    assert !Undivided(152) && !Undivided(153) && !Undivided(154) && !Undivided(155) && !Undivided(156) && !Undivided(158);
    assert !Undivided(159) && !Undivided(160) && !Undivided(161) && !Undivided(162) && !Undivided(164) && !Undivided(165);
    assert !Undivided(166) && !Undivided(168) && !Undivided(169) && !Undivided(170) && !Undivided(171) && !Undivided(172);
    hide Undivided;
  }

  lemma Row4(t: nat)
    requires 32 <= t < 40
    ensures Follows(Before(t), PrimeAt(t)) && 2 <= PrimeAt(t) < 324
  {
    hide Follows;
    RowFacts8();
    RowFacts9();
  }

  lemma RowFacts10()
    ensures Follows(173, 179) && Follows(179, 181) && Follows(181, 191) && Follows(191, 193)
  {
    assert Undivided(179) && Undivided(181) && Undivided(191) && Undivided(193);
    assert !Undivided(174) && !Undivided(175) && !Undivided(176) && !Undivided(177) && !Undivided(178) && !Undivided(180);
    assert !Undivided(182) && !Undivided(183) && !Undivided(184) && !Undivided(185) && !Undivided(186) && !Undivided(187);
    assert !Undivided(188) && !Undivided(189) && !Undivided(190) && !Undivided(192);
    hide Undivided;
  }

  lemma RowFacts11()
    ensures Follows(193, 197) && Follows(197, 199) && Follows(199, 211) && Follows(211, 223)
  {
    assert Undivided(197) && Undivided(199) && Undivided(211) && Undivided(223);
    assert !Undivided(194) && !Undivided(195) && !Undivided(196) && !Undivided(198) && !Undivided(200) && !Undivided(201);
    assert !Undivided(202) && !Undivided(203) && !Undivided(204) && !Undivided(205) && !Undivided(206) && !Undivided(207);
    assert !Undivided(208) && !Undivided(209) && !Undivided(210) && !Undivided(212) && !Undivided(213) && !Undivided(214);
    assert !Undivided(215) && !Undivided(216) && !Undivided(217) && !Undivided(218) && !Undivided(219) && !Undivided(220);
    assert !Undivided(221) && !Undivided(222);
    hide Undivided;
  }

  lemma Row5(t: nat)
    requires 40 <= t < 48
    ensures Follows(Before(t), PrimeAt(t)) && 2 <= PrimeAt(t) < 324
  {
    hide Follows;
    RowFacts10();
    RowFacts11();
  }

  lemma RowFacts12()
    ensures Follows(223, 227) && Follows(227, 229) && Follows(229, 233) && Follows(233, 239)
  {
    assert Undivided(227) && Undivided(229) && Undivided(233) && Undivided(239);
    assert !Undivided(224) && !Undivided(225) && !Undivided(226) && !Undivided(228) && !Undivided(230) && !Undivided(231);
    assert !Undivided(232) && !Undivided(234) && !Undivided(235) && !Undivided(236) && !Undivided(237) && !Undivided(238);
    hide Undivided;
  }

  lemma RowFacts13()
    ensures Follows(239, 241) && Follows(241, 251) && Follows(251, 257) && Follows(257, 263)
  {
    assert Undivided(241) && Undivided(251) && Undivided(257) && Undivided(263);
    assert !Undivided(240) && !Undivided(242) && !Undivided(243) && !Undivided(244) && !Undivided(245) && !Undivided(246);
    assert !Undivided(247) && !Undivided(248) && !Undivided(249) && !Undivided(250) && !Undivided(252) && !Undivided(253);
    assert !Undivided(254) && !Undivided(255) && !Undivided(256) && !Undivided(258) && !Undivided(259) && !Undivided(260);
    assert !Undivided(261) && !Undivided(262);
    hide Undivided;
  }

  lemma Row6(t: nat)
    requires 48 <= t < 56
    ensures Follows(Before(t), PrimeAt(t)) && 2 <= PrimeAt(t) < 324
  {
    hide Follows;
    RowFacts12();
    RowFacts13();
  }

  lemma RowFacts14()
    ensures Follows(263, 269) && Follows(269, 271) && Follows(271, 277) && Follows(277, 281)
  {
    assert Undivided(269) && Undivided(271) && Undivided(277) && Undivided(281);
    assert !Undivided(264) && !Undivided(265) && !Undivided(266) && !Undivided(267) && !Undivided(268) && !Undivided(270);
    assert !Undivided(272) && !Undivided(273) && !Undivided(274) && !Undivided(275) && !Undivided(276) && !Undivided(278);
    assert !Undivided(279) && !Undivided(280);
    hide Undivided;
  }

  lemma RowFacts15()
    ensures Follows(281, 283) && Follows(283, 293) && Follows(293, 307) && Follows(307, 311)
  {
    assert Undivided(283) && Undivided(293) && Undivided(307) && Undivided(311);
    assert !Undivided(282) && !Undivided(284) && !Undivided(285) && !Undivided(286) && !Undivided(287) && !Undivided(288);
    assert !Undivided(289) && !Undivided(290) && !Undivided(291) && !Undivided(292) && !Undivided(294) && !Undivided(295);
    assert !Undivided(296) && !Undivided(297) && !Undivided(298) && !Undivided(299) && !Undivided(300) && !Undivided(301);
    assert !Undivided(302) && !Undivided(303) && !Undivided(304) && !Undivided(305) && !Undivided(306) && !Undivided(308);
    assert !Undivided(309) && !Undivided(310);
    hide Undivided;
  }

  lemma Row7(t: nat)
    requires 56 <= t < 64
    ensures Follows(Before(t), PrimeAt(t)) && 2 <= PrimeAt(t) < 324
  {
    hide Follows;
    RowFacts14();
    RowFacts15();
  }

  /** The table is the primes in order, none left out. */
  lemma PrimesInOrder(t: nat)
    requires t < 64
    ensures Prime(PrimeAt(t)) && Before(t) < PrimeAt(t)
    ensures forall m :: Before(t) < m < PrimeAt(t) ==> !Prime(m)
  {
    hide PrimeAt, Before, Prime, Undivided;
    if t < 8 { Row0(t); } else if t < 16 { Row1(t); } else if t < 24 { Row2(t); } else if t < 32 { Row3(t); }
    else if t < 40 { Row4(t); } else if t < 48 { Row5(t); } else if t < 56 { Row6(t); } else { Row7(t); }
    TrialDivision(PrimeAt(t));
    forall m | Before(t) < m < PrimeAt(t)
      ensures !Prime(m)
    {
      if m >= 2 {
        TrialDivision(m);
      } else {
        NoSmallPrime(m);
      }
    }
  }

  lemma NoSmallPrime(m: nat)
    requires m < 2
    ensures !Prime(m)
  {
  }

  // ----- roots

  /** The integer part of the cube root, up to 342. */
  function CubePart(p: nat): nat {
    if p < 8 then 1 else if p < 27 then 2 else if p < 64 then 3 else if p < 125 then 4 else if p < 216 then 5 else 6
  }

  function SquarePart(p: nat): nat {
    if p < 4 then 1 else if p < 9 then 2 else if p < 16 then 3 else 4
  }

  /** n is the cube root of p, times 2^32, rounded down. */
  predicate CubeFloor(p: nat, n: nat) {
    n * n * n <= p * 0x1_00000000_00000000_00000000 < (n + 1) * (n + 1) * (n + 1)
  }

  predicate SquareFloor(p: nat, n: nat) {
    n * n <= p * 0x1_00000000_00000000 < (n + 1) * (n + 1)
  }

  /** k is the first 32 bits of the fractional part of the root of p. */
  predicate CubeRoot(p: nat, k: bv32) {
    CubeFloor(p, CubePart(p) * 0x1_0000_0000 + (k as nat))
  }

  predicate SquareRoot(p: nat, k: bv32) {
    SquareFloor(p, SquarePart(p) * 0x1_0000_0000 + (k as nat))
  }

  lemma Cubes0(t: nat)
    requires 0 <= t < 8
    ensures CubeRoot(PrimeAt(t), RoundConstant(t))
  {
    assert CubeFloor(2, 0x1_428a2f98) && CubeFloor(3, 0x1_71374491) && CubeFloor(5, 0x1_b5c0fbcf) && CubeFloor(7, 0x1_e9b5dba5);
    assert CubeFloor(11, 0x2_3956c25b) && CubeFloor(13, 0x2_59f111f1) && CubeFloor(17, 0x2_923f82a4) && CubeFloor(19, 0x2_ab1c5ed5);
    hide CubeFloor;
    assert CubeRoot(2, 0x428a2f98) && CubeRoot(3, 0x71374491) && CubeRoot(5, 0xb5c0fbcf) && CubeRoot(7, 0xe9b5dba5);
    assert CubeRoot(11, 0x3956c25b) && CubeRoot(13, 0x59f111f1) && CubeRoot(17, 0x923f82a4) && CubeRoot(19, 0xab1c5ed5);
    hide CubeRoot;
  }

  lemma Cubes1(t: nat)
    requires 8 <= t < 16
    ensures CubeRoot(PrimeAt(t), RoundConstant(t))
  {
    assert CubeFloor(23, 0x2_d807aa98) && CubeFloor(29, 0x3_12835b01) && CubeFloor(31, 0x3_243185be) && CubeFloor(37, 0x3_550c7dc3);
    assert CubeFloor(41, 0x3_72be5d74) && CubeFloor(43, 0x3_80deb1fe) && CubeFloor(47, 0x3_9bdc06a7) && CubeFloor(53, 0x3_c19bf174);
    hide CubeFloor;
    assert CubeRoot(23, 0xd807aa98) && CubeRoot(29, 0x12835b01) && CubeRoot(31, 0x243185be) && CubeRoot(37, 0x550c7dc3);
    assert CubeRoot(41, 0x72be5d74) && CubeRoot(43, 0x80deb1fe) && CubeRoot(47, 0x9bdc06a7) && CubeRoot(53, 0xc19bf174);
    hide CubeRoot;
  }

  lemma Cubes2(t: nat)
    requires 16 <= t < 24
    ensures CubeRoot(PrimeAt(t), RoundConstant(t))
  {
    assert CubeFloor(59, 0x3_e49b69c1) && CubeFloor(61, 0x3_efbe4786) && CubeFloor(67, 0x4_0fc19dc6) && CubeFloor(71, 0x4_240ca1cc);
    assert CubeFloor(73, 0x4_2de92c6f) && CubeFloor(79, 0x4_4a7484aa) && CubeFloor(83, 0x4_5cb0a9dc) && CubeFloor(89, 0x4_76f988da);
    hide CubeFloor;
    assert CubeRoot(59, 0xe49b69c1) && CubeRoot(61, 0xefbe4786) && CubeRoot(67, 0x0fc19dc6) && CubeRoot(71, 0x240ca1cc);
    assert CubeRoot(73, 0x2de92c6f) && CubeRoot(79, 0x4a7484aa) && CubeRoot(83, 0x5cb0a9dc) && CubeRoot(89, 0x76f988da);
    hide CubeRoot;
  }

  lemma Cubes3(t: nat)
    requires 24 <= t < 32
    ensures CubeRoot(PrimeAt(t), RoundConstant(t))
  {
    assert CubeFloor(97, 0x4_983e5152) && CubeFloor(101, 0x4_a831c66d) && CubeFloor(103, 0x4_b00327c8) && CubeFloor(107, 0x4_bf597fc7);
    assert CubeFloor(109, 0x4_c6e00bf3) && CubeFloor(113, 0x4_d5a79147) && CubeFloor(127, 0x5_06ca6351) && CubeFloor(131, 0x5_14292967);
    hide CubeFloor;
    assert CubeRoot(97, 0x983e5152) && CubeRoot(101, 0xa831c66d) && CubeRoot(103, 0xb00327c8) && CubeRoot(107, 0xbf597fc7);
    assert CubeRoot(109, 0xc6e00bf3) && CubeRoot(113, 0xd5a79147) && CubeRoot(127, 0x06ca6351) && CubeRoot(131, 0x14292967);
    hide CubeRoot;
  }

  lemma Cubes4(t: nat)
    requires 32 <= t < 40
    ensures CubeRoot(PrimeAt(t), RoundConstant(t))
  {
    assert CubeFloor(137, 0x5_27b70a85) && CubeFloor(139, 0x5_2e1b2138) && CubeFloor(149, 0x5_4d2c6dfc) && CubeFloor(151, 0x5_53380d13);
    assert CubeFloor(157, 0x5_650a7354) && CubeFloor(163, 0x5_766a0abb) && CubeFloor(167, 0x5_81c2c92e) && CubeFloor(173, 0x5_92722c85);
    hide CubeFloor;
    assert CubeRoot(137, 0x27b70a85) && CubeRoot(139, 0x2e1b2138) && CubeRoot(149, 0x4d2c6dfc) && CubeRoot(151, 0x53380d13);
    assert CubeRoot(157, 0x650a7354) && CubeRoot(163, 0x766a0abb) && CubeRoot(167, 0x81c2c92e) && CubeRoot(173, 0x92722c85);
    hide CubeRoot;
  }

  lemma Cubes5(t: nat)
    requires 40 <= t < 48
    ensures CubeRoot(PrimeAt(t), RoundConstant(t))
  {
    assert CubeFloor(179, 0x5_a2bfe8a1) && CubeFloor(181, 0x5_a81a664b) && CubeFloor(191, 0x5_c24b8b70) && CubeFloor(193, 0x5_c76c51a3);
    assert CubeFloor(197, 0x5_d192e819) && CubeFloor(199, 0x5_d6990624) && CubeFloor(211, 0x5_f40e3585) && CubeFloor(223, 0x6_106aa070);
    hide CubeFloor;
    assert CubeRoot(179, 0xa2bfe8a1) && CubeRoot(181, 0xa81a664b) && CubeRoot(191, 0xc24b8b70) && CubeRoot(193, 0xc76c51a3);
    assert CubeRoot(197, 0xd192e819) && CubeRoot(199, 0xd6990624) && CubeRoot(211, 0xf40e3585) && CubeRoot(223, 0x106aa070);
    hide CubeRoot;
  }

  lemma Cubes6(t: nat)
    requires 48 <= t < 56
    ensures CubeRoot(PrimeAt(t), RoundConstant(t))
  {
    assert CubeFloor(227, 0x6_19a4c116) && CubeFloor(229, 0x6_1e376c08) && CubeFloor(233, 0x6_2748774c) && CubeFloor(239, 0x6_34b0bcb5);
    assert CubeFloor(241, 0x6_391c0cb3) && CubeFloor(251, 0x6_4ed8aa4a) && CubeFloor(257, 0x6_5b9cca4f) && CubeFloor(263, 0x6_682e6ff3);
    hide CubeFloor;
    assert CubeRoot(227, 0x19a4c116) && CubeRoot(229, 0x1e376c08) && CubeRoot(233, 0x2748774c) && CubeRoot(239, 0x34b0bcb5);
    assert CubeRoot(241, 0x391c0cb3) && CubeRoot(251, 0x4ed8aa4a) && CubeRoot(257, 0x5b9cca4f) && CubeRoot(263, 0x682e6ff3);
    hide CubeRoot;
  }

  lemma Cubes7(t: nat)
    requires 56 <= t < 64
    ensures CubeRoot(PrimeAt(t), RoundConstant(t))
  {
    assert CubeFloor(269, 0x6_748f82ee) && CubeFloor(271, 0x6_78a5636f) && CubeFloor(277, 0x6_84c87814) && CubeFloor(281, 0x6_8cc70208);
    assert CubeFloor(283, 0x6_90befffa) && CubeFloor(293, 0x6_a4506ceb) && CubeFloor(307, 0x6_bef9a3f7) && CubeFloor(311, 0x6_c67178f2);
    hide CubeFloor;
    assert CubeRoot(269, 0x748f82ee) && CubeRoot(271, 0x78a5636f) && CubeRoot(277, 0x84c87814) && CubeRoot(281, 0x8cc70208);
    assert CubeRoot(283, 0x90befffa) && CubeRoot(293, 0xa4506ceb) && CubeRoot(307, 0xbef9a3f7) && CubeRoot(311, 0xc67178f2);
    hide CubeRoot;
  }

  /** Section 4.2.2: the t-th round constant belongs to the t-th prime. */
  lemma RoundConstantsAreCubeRoots(t: nat)
    requires t < 64
    ensures CubeRoot(PrimeAt(t), RoundConstant(t))
  {
    hide CubeRoot, PrimeAt, RoundConstant;
    if t < 8 { Cubes0(t); } else if t < 16 { Cubes1(t); } else if t < 24 { Cubes2(t); } else if t < 32 { Cubes3(t); }
    else if t < 40 { Cubes4(t); } else if t < 48 { Cubes5(t); } else if t < 56 { Cubes6(t); } else { Cubes7(t); }
  }

  /** Section 5.3.3: the initial hash value. */
  lemma InitialIsSquareRoots(t: nat)
    requires t < 8
    ensures SquareRoot(PrimeAt(t), INITIAL[t])
  {
    assert SquareFloor(2, 0x1_6a09e667) && SquareFloor(3, 0x1_bb67ae85) && SquareFloor(5, 0x2_3c6ef372) && SquareFloor(7, 0x2_a54ff53a);
    assert SquareFloor(11, 0x3_510e527f) && SquareFloor(13, 0x3_9b05688c) && SquareFloor(17, 0x4_1f83d9ab) && SquareFloor(19, 0x4_5be0cd19);
    hide SquareFloor;
    assert SquareRoot(2, 0x6a09e667) && SquareRoot(3, 0xbb67ae85) && SquareRoot(5, 0x3c6ef372) && SquareRoot(7, 0xa54ff53a);
    assert SquareRoot(11, 0x510e527f) && SquareRoot(13, 0x9b05688c) && SquareRoot(17, 0x1f83d9ab) && SquareRoot(19, 0x5be0cd19);
    hide SquareRoot;
  }

  // ----- logical functions

  /** Under any mask: where x has ones Ch takes y, where x has zeros it takes z. */
  lemma ChSelects(x: bv32, y: bv32, z: bv32, mask: bv32)
    ensures x & mask == mask ==> Ch(x, y, z) & mask == y & mask
    ensures x & mask == 0 ==> Ch(x, y, z) & mask == z & mask
  {
  }

  /** Under any mask: where two agree, Maj is what they agree on. */
  lemma MajVotes(x: bv32, y: bv32, z: bv32, mask: bv32)
    ensures x & mask == y & mask ==> Maj(x, y, z) & mask == x & mask
    ensures x & mask == z & mask ==> Maj(x, y, z) & mask == x & mask
    ensures y & mask == z & mask ==> Maj(x, y, z) & mask == y & mask
  {
    hide Maj;
    MajMasked(x, y, z, mask);
    MajAgrees(x & mask, y & mask);
    MajAgrees(x & mask, z & mask);
    MajAgrees(y & mask, x & mask);
  }

  lemma MajMasked(x: bv32, y: bv32, z: bv32, mask: bv32)
    ensures Maj(x, y, z) & mask == Maj(x & mask, y & mask, z & mask)
  {
  }

  lemma MajAgrees(x: bv32, y: bv32)
    ensures Maj(x, x, y) == x && Maj(x, y, x) == x && Maj(y, x, x) == x
  {
  }

  // Section 4.1.2: which rotations and shifts are combined.

  lemma Rotr2(x: bv32)
    ensures Rotr(x, 2) == x.RotateRight(2)
  {
  }

  lemma Rotr13(x: bv32)
    ensures Rotr(x, 13) == x.RotateRight(13)
  {
  }

  lemma Rotr22(x: bv32)
    ensures Rotr(x, 22) == x.RotateRight(22)
  {
  }

  lemma Rotr6(x: bv32)
    ensures Rotr(x, 6) == x.RotateRight(6)
  {
  }

  lemma Rotr11(x: bv32)
    ensures Rotr(x, 11) == x.RotateRight(11)
  {
  }

  lemma Rotr25(x: bv32)
    ensures Rotr(x, 25) == x.RotateRight(25)
  {
  }

  lemma Rotr7(x: bv32)
    ensures Rotr(x, 7) == x.RotateRight(7)
  {
  }

  lemma Rotr18(x: bv32)
    ensures Rotr(x, 18) == x.RotateRight(18)
  {
  }

  lemma Rotr17(x: bv32)
    ensures Rotr(x, 17) == x.RotateRight(17)
  {
  }

  lemma Rotr19(x: bv32)
    ensures Rotr(x, 19) == x.RotateRight(19)
  {
  }

  lemma BigSigma0Rotates(x: bv32)
    ensures BigSigma0(x) == x.RotateRight(2) ^ x.RotateRight(13) ^ x.RotateRight(22)
  {
    hide Rotr;
    Rotr2(x);
    Rotr13(x);
    Rotr22(x);
  }

  lemma BigSigma1Rotates(x: bv32)
    ensures BigSigma1(x) == x.RotateRight(6) ^ x.RotateRight(11) ^ x.RotateRight(25)
  {
    hide Rotr;
    Rotr6(x);
    Rotr11(x);
    Rotr25(x);
  }

  lemma SmallSigma0Rotates(x: bv32)
    ensures SmallSigma0(x) == x.RotateRight(7) ^ x.RotateRight(18) ^ (x >> 3)
  {
    hide Rotr;
    Rotr7(x);
    Rotr18(x);
  }

  lemma SmallSigma1Rotates(x: bv32)
    ensures SmallSigma1(x) == x.RotateRight(17) ^ x.RotateRight(19) ^ (x >> 10)
  {
    hide Rotr;
    Rotr17(x);
    Rotr19(x);
  }
}
