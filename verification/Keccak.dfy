/** tools/pqc/mldsa/keccak.c, the scalar branch: the unrolled loop over 25 lane variables is 24
    applications of the five step mappings of FIPS 202, for every state. */
module Keccak {

  // ----- words

  function Xor(a: bv64, b: bv64): (r: bv64) { a ^ b }

  /** The ROL macro; it is never used with offset 0. */
  function Rol(a: bv64, n: nat): (r: bv64)
    requires n < 64
  {
    if n == 0 then a else (a << n) ^ (a >> (64 - n))
  }

  /** One lane of chi: a ^ (~b & c). */
  function Mix(a: bv64, b: bv64, c: bv64): (r: bv64) { a ^ (!b & c) }

  // ----- the step mappings, sections 3.2.1 to 3.2.5 of FIPS 202; lane (x, y) is s[x + 5 * y]

  type Lanes = s: seq<bv64> | |s| == 25 witness seq(25, _ => 0)

  function Parity(s: Lanes, x: nat): (r: bv64)
    requires x < 5
  {
    Xor(Xor(Xor(Xor(s[x], s[x + 5]), s[x + 10]), s[x + 15]), s[x + 20])
  }

  function ThetaEffect(s: Lanes, x: nat): (r: bv64)
    requires x < 5
  {
    Xor(Parity(s, (x + 4) % 5), Rol(Parity(s, (x + 1) % 5), 1))
  }

  function Theta(s: Lanes): (r: Lanes) {
    seq(25, i requires 0 <= i < 25 => Xor(s[i], ThetaEffect(s, i % 5)))
  }

  /** The rotation of lane i. */
  function Offset(i: nat): (n: nat)
    requires i < 25
    ensures n < 64
  {
    if i < 5 then (if i == 0 then 0 else (if i == 1 then 1 else (if i == 2 then 62 else (if i == 3 then 28 else 27))))
    else if i < 10 then (if i == 5 then 36
       else (if i == 6 then 44 else (if i == 7 then 6 else (if i == 8 then 55 else 20))))
    else if i < 15 then (if i == 10 then 3
       else (if i == 11 then 10 else (if i == 12 then 43 else (if i == 13 then 25 else 39))))
    else if i < 20 then (if i == 15 then 41
       else (if i == 16 then 45 else (if i == 17 then 15 else (if i == 18 then 21 else 8))))
    else (if i == 20 then 18 else (if i == 21 then 2 else (if i == 22 then 61 else (if i == 23 then 56 else 14))))
  }

  function Rho(s: Lanes): (r: Lanes) {
    seq(25, i requires 0 <= i < 25 => Rol(s[i], Offset(i)))
  }

  /** Where pi takes lane i from. */
  function Source(i: nat): (j: nat)
    requires i < 25
    ensures j < 25
  {
    (i % 5 + 3 * (i / 5)) % 5 + 5 * (i % 5)
  }

  function Pi(s: Lanes): (r: Lanes) {
    seq(25, i requires 0 <= i < 25 => s[Source(i)])
  }

  /** The lane d places to the right in the row of lane i. */
  function Right(i: nat, d: nat): (j: nat)
    requires i < 25
    ensures j < 25
  {
    i / 5 * 5 + (i % 5 + d) % 5
  }

  function Chi(s: Lanes): (r: Lanes) {
    seq(25, i requires 0 <= i < 25 => Mix(s[i], s[Right(i, 1)], s[Right(i, 2)]))
  }

  function RoundConstant(ir: nat): (r: bv64) {
    if ir < 12 then
      if ir < 6 then
        if ir < 3 then
          if ir < 1 then
            0x1
          else
            if ir < 2 then
              0x8082
            else
              0x80000000_0000808a
        else
          if ir < 4 then
            0x80000000_80008000
          else
            if ir < 5 then
              0x808b
            else
              0x80000001
      else
        if ir < 9 then
          if ir < 7 then
            0x80000000_80008081
          else
            if ir < 8 then
              0x80000000_00008009
            else
              0x8a
        else
          if ir < 10 then
            0x88
          else
            if ir < 11 then
              0x80008009
            else
              0x8000000a
    else
      if ir < 18 then
        if ir < 15 then
          if ir < 13 then
            0x8000808b
          else
            if ir < 14 then
              0x80000000_0000008b
            else
              0x80000000_00008089
        else
          if ir < 16 then
            0x80000000_00008003
          else
            if ir < 17 then
              0x80000000_00008002
            else
              0x80000000_00000080
      else
        if ir < 21 then
          if ir < 19 then
            0x800a
          else
            if ir < 20 then
              0x80000000_8000000a
            else
              0x80000000_80008081
        else
          if ir < 22 then
            0x80000000_00008080
          else
            if ir < 23 then
              0x80000001
            else
              0x80000000_80008008
  }

  function Iota(s: Lanes, ir: nat): (r: Lanes) { s[0 := Xor(s[0], RoundConstant(ir))] }

  function Round(s: Lanes, ir: nat): (r: Lanes) { Iota(Chi(Pi(Rho(Theta(s)))), ir) }

  /** The first n rounds. */
  function Rounds(s: Lanes, n: nat): (r: Lanes) {
    if n == 0 then s else Round(Rounds(s, n - 1), n - 1)
  }

  function KeccakF(s: Lanes): (r: Lanes) { Rounds(s, 24) }

  // ----- the tables are those of the standard

  /** The walk over the lanes of section 3.2.2: position t of (x, y) -> (y, 2x + 3y). */
  function Walk(t: nat): (r: (nat, nat))
    ensures r.0 < 5 && r.1 < 5
  {
    if t == 0 then (1, 0) else var (x, y) := Walk(t - 1); (y, (2 * x + 3 * y) % 5)
  }

  lemma WalkStep(t: nat, x: nat, y: nat)
    requires Walk(t) == (x, y)
    ensures Walk(t + 1) == (y, (2 * x + 3 * y) % 5)
  {
  }

  /** The lane met at step t is rotated by the triangular number t. */
  ghost predicate Follows(t: nat) {
    Offset(Walk(t).0 + 5 * Walk(t).1) == (t + 1) * (t + 2) / 2 % 64
  }

  lemma Walk0()
    requires Walk(0) == (1, 0)
    ensures Walk(6) == (3, 0)
    ensures Follows(0) && Follows(1) && Follows(2) && Follows(3) && Follows(4) && Follows(5)
  {
    hide Walk;
    WalkStep(0, 1, 0);
    WalkStep(1, 0, 2);
    WalkStep(2, 2, 1);
    WalkStep(3, 1, 2);
    WalkStep(4, 2, 3);
    WalkStep(5, 3, 3);
  }

  lemma Walk1()
    requires Walk(6) == (3, 0)
    ensures Walk(12) == (4, 0)
    ensures Follows(6) && Follows(7) && Follows(8) && Follows(9) && Follows(10) && Follows(11)
  {
    hide Walk;
    WalkStep(6, 3, 0);
    WalkStep(7, 0, 1);
    WalkStep(8, 1, 3);
    WalkStep(9, 3, 1);
    WalkStep(10, 1, 4);
    WalkStep(11, 4, 4);
  }

  lemma Walk2()
    requires Walk(12) == (4, 0)
    ensures Walk(18) == (2, 0)
    ensures Follows(12) && Follows(13) && Follows(14) && Follows(15) && Follows(16) && Follows(17)
  {
    hide Walk;
    WalkStep(12, 4, 0);
    WalkStep(13, 0, 3);
    WalkStep(14, 3, 4);
    WalkStep(15, 4, 3);
    WalkStep(16, 3, 2);
    WalkStep(17, 2, 2);
  }

  lemma Walk3()
    requires Walk(18) == (2, 0)
    ensures Walk(24) == (1, 0)
    ensures Follows(18) && Follows(19) && Follows(20) && Follows(21) && Follows(22) && Follows(23)
  {
    hide Walk;
    WalkStep(18, 2, 0);
    WalkStep(19, 0, 4);
    WalkStep(20, 4, 2);
    WalkStep(21, 2, 4);
    WalkStep(22, 4, 1);
    WalkStep(23, 1, 1);
  }

  /** Section 3.2.2: lane (0, 0) is not rotated, the others by the triangular numbers along the walk. */
  lemma OffsetsFollowWalk(t: nat)
    requires t < 24
    ensures Offset(0) == 0 && Follows(t)
  {
    assert Offset(0) == 0;
    hide Walk, Offset, Follows;
    WalkStart();
    Walk0();
    Walk1();
    Walk2();
    Walk3();
    assert t == 0 || t == 1 || t == 2 || t == 3 || t == 4 || t == 5 || t == 6 || t == 7 || t == 8 || t == 9 || t == 10
         || t == 11 || t == 12 || t == 13 || t == 14 || t == 15 || t == 16 || t == 17 || t == 18 || t == 19 || t == 20
            || t == 21 || t == 22 || t == 23;
  }

  lemma WalkStart()
    ensures Walk(0) == (1, 0)
  {
  }

  /** The linear feedback shift register of section 3.2.5. */
  function Shifted(r: bv8): (y: bv8) { if r & 0x80 != 0 then (r << 1) ^ 0x71 else r << 1 }

  function Register(t: nat): (r: bv8) {
    if t == 0 then 1 else Shifted(Register(t - 1))
  }

  function OutputAt(r: bv8, w: bv64): (y: bv64) { if r & 1 != 0 then w else 0 }

  /** The constant of a round: its seven output bits at positions 0, 1, 3, 7, 15, 31 and 63. */
  function ConstantFrom(r0: bv8, r1: bv8, r2: bv8, r3: bv8, r4: bv8, r5: bv8, r6: bv8): (r: bv64) {
    OutputAt(r0, 0x1) | OutputAt(r1, 0x2) | OutputAt(r2, 0x8) | OutputAt(r3, 0x80)
    | OutputAt(r4, 0x8000) | OutputAt(r5, 0x8000_0000) | OutputAt(r6, 0x80000000_00000000)
  }

  lemma SevenSteps(t: nat, r: bv8)
    requires Register(t) == r
    ensures Register(t + 1) == Shifted(r) && Register(t + 2) == Shifted(Shifted(r))
         && Register(t + 3) == Shifted(Shifted(Shifted(r)))
    ensures Register(t + 4) == Shifted(Register(t + 3)) && Register(t + 5) == Shifted(Register(t + 4))
    ensures Register(t + 6) == Shifted(Register(t + 5)) && Register(t + 7) == Shifted(Register(t + 6))
  {
    hide Shifted;
  }

  lemma Constant0()
    requires Register(0) == 0x1
    ensures Register(7) == 0x80
    ensures RoundConstant(0) == ConstantFrom(Register(0), Register(1), Register(2), Register(3), Register(4),
                                              Register(5), Register(6))
  {
    SevenSteps(0, 0x1);
    hide Register;
    assert Shifted(0x1) == 0x2 && Shifted(0x2) == 0x4 && Shifted(0x4) == 0x8 && Shifted(0x8) == 0x10;
    assert Shifted(0x10) == 0x20 && Shifted(0x20) == 0x40 && Shifted(0x40) == 0x80;
  }

  lemma Constant1()
    requires Register(7) == 0x80
    ensures Register(14) == 0xd8
    ensures RoundConstant(1) == ConstantFrom(Register(7), Register(8), Register(9), Register(10), Register(11),
                                              Register(12), Register(13))
  {
    SevenSteps(7, 0x80);
    hide Register;
    assert Shifted(0x80) == 0x71 && Shifted(0x71) == 0xe2 && Shifted(0xe2) == 0xb5 && Shifted(0xb5) == 0x1b;
    assert Shifted(0x1b) == 0x36 && Shifted(0x36) == 0x6c && Shifted(0x6c) == 0xd8;
  }

  lemma Constant2()
    requires Register(14) == 0xd8
    ensures Register(21) == 0x1a
    ensures RoundConstant(2) == ConstantFrom(Register(14), Register(15), Register(16), Register(17), Register(18),
                                              Register(19), Register(20))
  {
    SevenSteps(14, 0xd8);
    hide Register;
    assert Shifted(0xd8) == 0xc1 && Shifted(0xc1) == 0xf3 && Shifted(0xf3) == 0x97 && Shifted(0x97) == 0x5f;
    assert Shifted(0x5f) == 0xbe && Shifted(0xbe) == 0xd && Shifted(0xd) == 0x1a;
  }

  lemma Constant3()
    requires Register(21) == 0x1a
    ensures Register(28) == 0xdf
    ensures RoundConstant(3) == ConstantFrom(Register(21), Register(22), Register(23), Register(24), Register(25),
                                              Register(26), Register(27))
  {
    SevenSteps(21, 0x1a);
    hide Register;
    assert Shifted(0x1a) == 0x34 && Shifted(0x34) == 0x68 && Shifted(0x68) == 0xd0 && Shifted(0xd0) == 0xd1;
    assert Shifted(0xd1) == 0xd3 && Shifted(0xd3) == 0xd7 && Shifted(0xd7) == 0xdf;
  }

  lemma Constant4()
    requires Register(28) == 0xdf
    ensures Register(35) == 0x9
    ensures RoundConstant(4) == ConstantFrom(Register(28), Register(29), Register(30), Register(31), Register(32),
                                              Register(33), Register(34))
  {
    SevenSteps(28, 0xdf);
    hide Register;
    assert Shifted(0xdf) == 0xcf && Shifted(0xcf) == 0xef && Shifted(0xef) == 0xaf && Shifted(0xaf) == 0x2f;
    assert Shifted(0x2f) == 0x5e && Shifted(0x5e) == 0xbc && Shifted(0xbc) == 0x9;
  }

  lemma Constant5()
    requires Register(35) == 0x9
    ensures Register(42) == 0x35
    ensures RoundConstant(5) == ConstantFrom(Register(35), Register(36), Register(37), Register(38), Register(39),
                                              Register(40), Register(41))
  {
    SevenSteps(35, 0x9);
    hide Register;
    assert Shifted(0x9) == 0x12 && Shifted(0x12) == 0x24 && Shifted(0x24) == 0x48 && Shifted(0x48) == 0x90;
    assert Shifted(0x90) == 0x51 && Shifted(0x51) == 0xa2 && Shifted(0xa2) == 0x35;
  }

  lemma Constant6()
    requires Register(42) == 0x35
    ensures Register(49) == 0x4f
    ensures RoundConstant(6) == ConstantFrom(Register(42), Register(43), Register(44), Register(45), Register(46),
                                              Register(47), Register(48))
  {
    SevenSteps(42, 0x35);
    hide Register;
    assert Shifted(0x35) == 0x6a && Shifted(0x6a) == 0xd4 && Shifted(0xd4) == 0xd9 && Shifted(0xd9) == 0xc3;
    assert Shifted(0xc3) == 0xf7 && Shifted(0xf7) == 0x9f && Shifted(0x9f) == 0x4f;
  }

  lemma Constant7()
    requires Register(49) == 0x4f
    ensures Register(56) == 0xca
    ensures RoundConstant(7) == ConstantFrom(Register(49), Register(50), Register(51), Register(52), Register(53),
                                              Register(54), Register(55))
  {
    SevenSteps(49, 0x4f);
    hide Register;
    assert Shifted(0x4f) == 0x9e && Shifted(0x9e) == 0x4d && Shifted(0x4d) == 0x9a && Shifted(0x9a) == 0x45;
    assert Shifted(0x45) == 0x8a && Shifted(0x8a) == 0x65 && Shifted(0x65) == 0xca;
  }

  lemma Constant8()
    requires Register(56) == 0xca
    ensures Register(63) == 0x70
    ensures RoundConstant(8) == ConstantFrom(Register(56), Register(57), Register(58), Register(59), Register(60),
                                              Register(61), Register(62))
  {
    SevenSteps(56, 0xca);
    hide Register;
    assert Shifted(0xca) == 0xe5 && Shifted(0xe5) == 0xbb && Shifted(0xbb) == 0x7 && Shifted(0x7) == 0xe;
    assert Shifted(0xe) == 0x1c && Shifted(0x1c) == 0x38 && Shifted(0x38) == 0x70;
  }

  lemma Constant9()
    requires Register(63) == 0x70
    ensures Register(70) == 0x41
    ensures RoundConstant(9) == ConstantFrom(Register(63), Register(64), Register(65), Register(66), Register(67),
                                              Register(68), Register(69))
  {
    SevenSteps(63, 0x70);
    hide Register;
    assert Shifted(0x70) == 0xe0 && Shifted(0xe0) == 0xb1 && Shifted(0xb1) == 0x13 && Shifted(0x13) == 0x26;
    assert Shifted(0x26) == 0x4c && Shifted(0x4c) == 0x98 && Shifted(0x98) == 0x41;
  }

  lemma Constant10()
    requires Register(70) == 0x41
    ensures Register(77) == 0xec
    ensures RoundConstant(10) == ConstantFrom(Register(70), Register(71), Register(72), Register(73), Register(74),
                                              Register(75), Register(76))
  {
    SevenSteps(70, 0x41);
    hide Register;
    assert Shifted(0x41) == 0x82 && Shifted(0x82) == 0x75 && Shifted(0x75) == 0xea && Shifted(0xea) == 0xa5;
    assert Shifted(0xa5) == 0x3b && Shifted(0x3b) == 0x76 && Shifted(0x76) == 0xec;
  }

  lemma Constant11()
    requires Register(77) == 0xec
    ensures Register(84) == 0xd5
    ensures RoundConstant(11) == ConstantFrom(Register(77), Register(78), Register(79), Register(80), Register(81),
                                              Register(82), Register(83))
  {
    SevenSteps(77, 0xec);
    hide Register;
    assert Shifted(0xec) == 0xa9 && Shifted(0xa9) == 0x23 && Shifted(0x23) == 0x46 && Shifted(0x46) == 0x8c;
    assert Shifted(0x8c) == 0x69 && Shifted(0x69) == 0xd2 && Shifted(0xd2) == 0xd5;
  }

  lemma Constant12()
    requires Register(84) == 0xd5
    ensures Register(91) == 0xcd
    ensures RoundConstant(12) == ConstantFrom(Register(84), Register(85), Register(86), Register(87), Register(88),
                                              Register(89), Register(90))
  {
    SevenSteps(84, 0xd5);
    hide Register;
    assert Shifted(0xd5) == 0xdb && Shifted(0xdb) == 0xc7 && Shifted(0xc7) == 0xff && Shifted(0xff) == 0x8f;
    assert Shifted(0x8f) == 0x6f && Shifted(0x6f) == 0xde && Shifted(0xde) == 0xcd;
  }

  lemma Constant13()
    requires Register(91) == 0xcd
    ensures Register(98) == 0x63
    ensures RoundConstant(13) == ConstantFrom(Register(91), Register(92), Register(93), Register(94), Register(95),
                                              Register(96), Register(97))
  {
    SevenSteps(91, 0xcd);
    hide Register;
    assert Shifted(0xcd) == 0xeb && Shifted(0xeb) == 0xa7 && Shifted(0xa7) == 0x3f && Shifted(0x3f) == 0x7e;
    assert Shifted(0x7e) == 0xfc && Shifted(0xfc) == 0x89 && Shifted(0x89) == 0x63;
  }

  lemma Constant14()
    requires Register(98) == 0x63
    ensures Register(105) == 0xab
    ensures RoundConstant(14) == ConstantFrom(Register(98), Register(99), Register(100), Register(101), Register(102),
                                              Register(103), Register(104))
  {
    SevenSteps(98, 0x63);
    hide Register;
    assert Shifted(0x63) == 0xc6 && Shifted(0xc6) == 0xfd && Shifted(0xfd) == 0x8b && Shifted(0x8b) == 0x67;
    assert Shifted(0x67) == 0xce && Shifted(0xce) == 0xed && Shifted(0xed) == 0xab;
  }

  lemma Constant15()
    requires Register(105) == 0xab
    ensures Register(112) == 0xaa
    ensures RoundConstant(15) == ConstantFrom(Register(105), Register(106), Register(107), Register(108), Register(109),
                                              Register(110), Register(111))
  {
    SevenSteps(105, 0xab);
    hide Register;
    assert Shifted(0xab) == 0x27 && Shifted(0x27) == 0x4e && Shifted(0x4e) == 0x9c && Shifted(0x9c) == 0x49;
    assert Shifted(0x49) == 0x92 && Shifted(0x92) == 0x55 && Shifted(0x55) == 0xaa;
  }

  lemma Constant16()
    requires Register(112) == 0xaa
    ensures Register(119) == 0x2a
    ensures RoundConstant(16) == ConstantFrom(Register(112), Register(113), Register(114), Register(115), Register(116),
                                              Register(117), Register(118))
  {
    SevenSteps(112, 0xaa);
    hide Register;
    assert Shifted(0xaa) == 0x25 && Shifted(0x25) == 0x4a && Shifted(0x4a) == 0x94 && Shifted(0x94) == 0x59;
    assert Shifted(0x59) == 0xb2 && Shifted(0xb2) == 0x15 && Shifted(0x15) == 0x2a;
  }

  lemma Constant17()
    requires Register(119) == 0x2a
    ensures Register(126) == 0xf2
    ensures RoundConstant(17) == ConstantFrom(Register(119), Register(120), Register(121), Register(122), Register(123),
                                              Register(124), Register(125))
  {
    SevenSteps(119, 0x2a);
    hide Register;
    assert Shifted(0x2a) == 0x54 && Shifted(0x54) == 0xa8 && Shifted(0xa8) == 0x21 && Shifted(0x21) == 0x42;
    assert Shifted(0x42) == 0x84 && Shifted(0x84) == 0x79 && Shifted(0x79) == 0xf2;
  }

  lemma Constant18()
    requires Register(126) == 0xf2
    ensures Register(133) == 0xe8
    ensures RoundConstant(18) == ConstantFrom(Register(126), Register(127), Register(128), Register(129), Register(130),
                                              Register(131), Register(132))
  {
    SevenSteps(126, 0xf2);
    hide Register;
    assert Shifted(0xf2) == 0x95 && Shifted(0x95) == 0x5b && Shifted(0x5b) == 0xb6 && Shifted(0xb6) == 0x1d;
    assert Shifted(0x1d) == 0x3a && Shifted(0x3a) == 0x74 && Shifted(0x74) == 0xe8;
  }

  lemma Constant19()
    requires Register(133) == 0xe8
    ensures Register(140) == 0x37
    ensures RoundConstant(19) == ConstantFrom(Register(133), Register(134), Register(135), Register(136), Register(137),
                                              Register(138), Register(139))
  {
    SevenSteps(133, 0xe8);
    hide Register;
    assert Shifted(0xe8) == 0xa1 && Shifted(0xa1) == 0x33 && Shifted(0x33) == 0x66 && Shifted(0x66) == 0xcc;
    assert Shifted(0xcc) == 0xe9 && Shifted(0xe9) == 0xa3 && Shifted(0xa3) == 0x37;
  }

  lemma Constant20()
    requires Register(140) == 0x37
    ensures Register(147) == 0x3e
    ensures RoundConstant(20) == ConstantFrom(Register(140), Register(141), Register(142), Register(143), Register(144),
                                              Register(145), Register(146))
  {
    SevenSteps(140, 0x37);
    hide Register;
    assert Shifted(0x37) == 0x6e && Shifted(0x6e) == 0xdc && Shifted(0xdc) == 0xc9 && Shifted(0xc9) == 0xe3;
    assert Shifted(0xe3) == 0xb7 && Shifted(0xb7) == 0x1f && Shifted(0x1f) == 0x3e;
  }

  lemma Constant21()
    requires Register(147) == 0x3e
    ensures Register(154) == 0xb
    ensures RoundConstant(21) == ConstantFrom(Register(147), Register(148), Register(149), Register(150), Register(151),
                                              Register(152), Register(153))
  {
    SevenSteps(147, 0x3e);
    hide Register;
    assert Shifted(0x3e) == 0x7c && Shifted(0x7c) == 0xf8 && Shifted(0xf8) == 0x81 && Shifted(0x81) == 0x73;
    assert Shifted(0x73) == 0xe6 && Shifted(0xe6) == 0xbd && Shifted(0xbd) == 0xb;
  }

  lemma Constant22()
    requires Register(154) == 0xb
    ensures Register(161) == 0x44
    ensures RoundConstant(22) == ConstantFrom(Register(154), Register(155), Register(156), Register(157), Register(158),
                                              Register(159), Register(160))
  {
    SevenSteps(154, 0xb);
    hide Register;
    assert Shifted(0xb) == 0x16 && Shifted(0x16) == 0x2c && Shifted(0x2c) == 0x58 && Shifted(0x58) == 0xb0;
    assert Shifted(0xb0) == 0x11 && Shifted(0x11) == 0x22 && Shifted(0x22) == 0x44;
  }

  lemma Constant23()
    requires Register(161) == 0x44
    ensures Register(168) == 0x8e
    ensures RoundConstant(23) == ConstantFrom(Register(161), Register(162), Register(163), Register(164), Register(165),
                                              Register(166), Register(167))
  {
    SevenSteps(161, 0x44);
    hide Register;
    assert Shifted(0x44) == 0x88 && Shifted(0x88) == 0x61 && Shifted(0x61) == 0xc2 && Shifted(0xc2) == 0xf5;
    assert Shifted(0xf5) == 0x9b && Shifted(0x9b) == 0x47 && Shifted(0x47) == 0x8e;
  }

  /** Every round constant of the code is the one the register of section 3.2.5 produces. */
  lemma ConstantsFollowRegister(ir: nat)
    requires ir < 24
    ensures RoundConstant(ir) == ConstantFrom(Register(7 * ir), Register(7 * ir + 1), Register(7 * ir + 2),
         Register(7 * ir + 3),
                                              Register(7 * ir + 4), Register(7 * ir + 5), Register(7 * ir + 6))
  {
    hide RoundConstant, ConstantFrom, Register;
    RegisterStart();
    Constant0();
    Constant1();
    Constant2();
    Constant3();
    Constant4();
    Constant5();
    Constant6();
    Constant7();
    Constant8();
    Constant9();
    Constant10();
    Constant11();
    Constant12();
    Constant13();
    Constant14();
    Constant15();
    Constant16();
    Constant17();
    Constant18();
    Constant19();
    Constant20();
    Constant21();
    Constant22();
    Constant23();
    assert ir == 0 || ir == 1 || ir == 2 || ir == 3 || ir == 4 || ir == 5 || ir == 6 || ir == 7 || ir == 8 || ir == 9
         || ir == 10 || ir == 11 || ir == 12 || ir == 13 || ir == 14 || ir == 15 || ir == 16 || ir == 17 || ir == 18
            || ir == 19 || ir == 20 || ir == 21 || ir == 22 || ir == 23;
  }

  lemma RegisterStart()
    ensures Register(0) == 1
  {
  }

  // ----- one lane of a round

  /** Lane i after theta, rho and pi. */
  function Moved(s: Lanes, i: nat): (r: bv64)
    requires i < 25
  {
    var j := Source(i);
    Rol(Xor(s[j], ThetaEffect(s, j % 5)), Offset(j))
  }

  lemma MovedLane(s: Lanes, i: nat)
    requires i < 25
    ensures Pi(Rho(Theta(s)))[i] == Moved(s, i)
  {
    hide Xor, Rol, ThetaEffect, Offset, Source;
  }

  lemma RoundLane(s: Lanes, ir: nat, i: nat, j: nat, k: nat, a: bv64, b: bv64, c: bv64)
    requires i < 25 && j == Right(i, 1) && k == Right(i, 2) && a == Moved(s, i) && b == Moved(s, j) && c == Moved(s, k)
    ensures Round(s, ir)[i] == if i == 0 then Xor(Mix(a, b, c), RoundConstant(ir)) else Mix(a, b, c)
  {
    hide Xor, Mix, RoundConstant, Moved, Pi, Rho, Theta, Right;
    MovedLane(s, i);
    MovedLane(s, j);
    MovedLane(s, k);
  }

  lemma RightOf(y: nat, x: nat, d: nat, z: nat)
    requires y < 5 && x < 5 && z == (x + d) % 5
    ensures Right(5 * y + x, d) == 5 * y + z
  {
    var i := 5 * y + x;
    assert i / 5 == y && i % 5 == x;
  }

  // ----- the code

  /** What the 25 lane variables hold, row by row. */
  ghost predicate Hold(s: Lanes, y: nat, a: bv64, e: bv64, i: bv64, o: bv64, u: bv64)
    requires y < 5
  {
    s[5 * y] == a && s[5 * y + 1] == e && s[5 * y + 2] == i && s[5 * y + 3] == o && s[5 * y + 4] == u
  }

  /** The rotated lanes of row y, and what chi makes of them. */
  lemma RowOfRound(s: Lanes, ir: nat, y: nat, a: bv64, e: bv64, i: bv64, o: bv64, u: bv64)
    requires y < 5
    requires a == Moved(s, 5 * y) && e == Moved(s, 5 * y + 1) && i == Moved(s, 5 * y + 2) && o == Moved(s, 5 * y + 3)
         && u == Moved(s, 5 * y + 4)
    ensures Round(s, ir)[5 * y] == if y == 0 then Xor(Mix(a, e, i), RoundConstant(ir)) else Mix(a, e, i)
    ensures Round(s, ir)[5 * y + 1] == Mix(e, i, o) && Round(s, ir)[5 * y + 2] == Mix(i, o, u)
    ensures Round(s, ir)[5 * y + 3] == Mix(o, u, a) && Round(s, ir)[5 * y + 4] == Mix(u, a, e)
  {
    hide Xor, Mix, RoundConstant, Moved, Round, Right;
    RightOf(y, 0, 1, 1);
    RightOf(y, 0, 2, 2);
    RightOf(y, 1, 1, 2);
    RightOf(y, 1, 2, 3);
    RightOf(y, 2, 1, 3);
    RightOf(y, 2, 2, 4);
    RightOf(y, 3, 1, 4);
    RightOf(y, 3, 2, 0);
    RightOf(y, 4, 1, 0);
    RightOf(y, 4, 2, 1);
    var l := 5 * y;
    RoundLane(s, ir, l, l + 1, l + 2, a, e, i);
    RoundLane(s, ir, l + 1, l + 2, l + 3, e, i, o);
    RoundLane(s, ir, l + 2, l + 3, l + 4, i, o, u);
    RoundLane(s, ir, l + 3, l + 4, l, o, u, a);
    RoundLane(s, ir, l + 4, l, l + 1, u, a, e);
  }

  lemma ParityIs(s: Lanes, x: nat, a: bv64, b: bv64, c: bv64, d: bv64, e: bv64, r: bv64)
    requires x < 5 && a == s[x] && b == s[x + 5] && c == s[x + 10] && d == s[x + 15] && e == s[x + 20]
    requires r == Xor(Xor(Xor(Xor(a, b), c), d), e)
    ensures r == Parity(s, x)
  {
    hide Xor;
  }

  lemma Effects(s: Lanes, ca: bv64, ce: bv64, ci: bv64, co: bv64, cu: bv64, da: bv64, de: bv64, di: bv64, d3: bv64,
       du: bv64)
    requires ca == Parity(s, 0) && ce == Parity(s, 1) && ci == Parity(s, 2) && co == Parity(s, 3) && cu == Parity(s, 4)
    requires da == Xor(cu, Rol(ce, 1)) && de == Xor(ca, Rol(ci, 1)) && di == Xor(ce, Rol(co, 1))
    requires d3 == Xor(ci, Rol(cu, 1)) && du == Xor(co, Rol(ca, 1))
    ensures ThetaEffect(s, 0) == da && ThetaEffect(s, 1) == de && ThetaEffect(s, 2) == di && ThetaEffect(s, 3) == d3
         && ThetaEffect(s, 4) == du
  {
    hide Xor, Rol, Parity;
  }

  lemma MovedIs(s: Lanes, i: nat, j: nat, n: nat, lane: bv64, effect: bv64, r: bv64)
    requires i < 25 && j == Source(i) && n == Offset(j) && lane == s[j] && effect == ThetaEffect(s, j % 5)
    requires r == if n == 0 then Xor(lane, effect) else Rol(Xor(lane, effect), n)
    ensures r == Moved(s, i)
  {
    hide Xor, ThetaEffect, Source, Offset;
    NoRotation(Xor(lane, effect));
  }

  lemma NoRotation(a: bv64)
    ensures Rol(a, 0) == a
  {
  }

  lemma Wiring0()
    ensures Source(0) == 0 && Source(1) == 6 && Source(2) == 12 && Source(3) == 18 && Source(4) == 24
    ensures Offset(0) == 0 && Offset(6) == 44 && Offset(12) == 43 && Offset(18) == 21 && Offset(24) == 14
  {
  }

  lemma Wiring1()
    ensures Source(5) == 3 && Source(6) == 9 && Source(7) == 10 && Source(8) == 16 && Source(9) == 22
    ensures Offset(3) == 28 && Offset(9) == 20 && Offset(10) == 3 && Offset(16) == 45 && Offset(22) == 61
  {
  }

  lemma Wiring2()
    ensures Source(10) == 1 && Source(11) == 7 && Source(12) == 13 && Source(13) == 19 && Source(14) == 20
    ensures Offset(1) == 1 && Offset(7) == 6 && Offset(13) == 25 && Offset(19) == 8 && Offset(20) == 18
  {
  }

  lemma Wiring3()
    ensures Source(15) == 4 && Source(16) == 5 && Source(17) == 11 && Source(18) == 17 && Source(19) == 23
    ensures Offset(4) == 27 && Offset(5) == 36 && Offset(11) == 10 && Offset(17) == 15 && Offset(23) == 56
  {
  }

  lemma Wiring4()
    ensures Source(20) == 2 && Source(21) == 8 && Source(22) == 14 && Source(23) == 15 && Source(24) == 21
    ensures Offset(2) == 62 && Offset(8) == 55 && Offset(14) == 39 && Offset(15) == 41 && Offset(21) == 2
  {
  }

  lemma Row0(s: Lanes, ir: nat, a: bv64, e: bv64, i: bv64, o: bv64, u: bv64,
             ba: bv64, be: bv64, bi: bv64, bo: bv64, bu: bv64)
    requires a == s[0] && e == s[6] && i == s[12] && o == s[18] && u == s[24]
    requires ba == Xor(a, ThetaEffect(s, 0))
    requires be == Rol(Xor(e, ThetaEffect(s, 1)), 44)
    requires bi == Rol(Xor(i, ThetaEffect(s, 2)), 43)
    requires bo == Rol(Xor(o, ThetaEffect(s, 3)), 21)
    requires bu == Rol(Xor(u, ThetaEffect(s, 4)), 14)
    ensures Hold(Round(s, ir), 0, Xor(Mix(ba, be, bi), RoundConstant(ir)), Mix(be, bi, bo), Mix(bi, bo, bu),
         Mix(bo, bu, ba), Mix(bu, ba, be))
  {
    hide Xor, Rol, Mix, RoundConstant, Round, Moved, Source, Offset, ThetaEffect;
    Wiring0();
    MovedIs(s, 0, 0, 0, a, ThetaEffect(s, 0), ba);
    MovedIs(s, 1, 6, 44, e, ThetaEffect(s, 1), be);
    MovedIs(s, 2, 12, 43, i, ThetaEffect(s, 2), bi);
    MovedIs(s, 3, 18, 21, o, ThetaEffect(s, 3), bo);
    MovedIs(s, 4, 24, 14, u, ThetaEffect(s, 4), bu);
    RowOfRound(s, ir, 0, ba, be, bi, bo, bu);
  }

  lemma Row1(s: Lanes, ir: nat, a: bv64, e: bv64, i: bv64, o: bv64, u: bv64,
             ba: bv64, be: bv64, bi: bv64, bo: bv64, bu: bv64)
    requires a == s[3] && e == s[9] && i == s[10] && o == s[16] && u == s[22]
    requires ba == Rol(Xor(a, ThetaEffect(s, 3)), 28)
    requires be == Rol(Xor(e, ThetaEffect(s, 4)), 20)
    requires bi == Rol(Xor(i, ThetaEffect(s, 0)), 3)
    requires bo == Rol(Xor(o, ThetaEffect(s, 1)), 45)
    requires bu == Rol(Xor(u, ThetaEffect(s, 2)), 61)
    ensures Hold(Round(s, ir), 1, Mix(ba, be, bi), Mix(be, bi, bo), Mix(bi, bo, bu), Mix(bo, bu, ba), Mix(bu, ba, be))
  {
    hide Xor, Rol, Mix, RoundConstant, Round, Moved, Source, Offset, ThetaEffect;
    Wiring1();
    MovedIs(s, 5, 3, 28, a, ThetaEffect(s, 3), ba);
    MovedIs(s, 6, 9, 20, e, ThetaEffect(s, 4), be);
    MovedIs(s, 7, 10, 3, i, ThetaEffect(s, 0), bi);
    MovedIs(s, 8, 16, 45, o, ThetaEffect(s, 1), bo);
    MovedIs(s, 9, 22, 61, u, ThetaEffect(s, 2), bu);
    RowOfRound(s, ir, 1, ba, be, bi, bo, bu);
  }

  lemma Row2(s: Lanes, ir: nat, a: bv64, e: bv64, i: bv64, o: bv64, u: bv64,
             ba: bv64, be: bv64, bi: bv64, bo: bv64, bu: bv64)
    requires a == s[1] && e == s[7] && i == s[13] && o == s[19] && u == s[20]
    requires ba == Rol(Xor(a, ThetaEffect(s, 1)), 1)
    requires be == Rol(Xor(e, ThetaEffect(s, 2)), 6)
    requires bi == Rol(Xor(i, ThetaEffect(s, 3)), 25)
    requires bo == Rol(Xor(o, ThetaEffect(s, 4)), 8)
    requires bu == Rol(Xor(u, ThetaEffect(s, 0)), 18)
    ensures Hold(Round(s, ir), 2, Mix(ba, be, bi), Mix(be, bi, bo), Mix(bi, bo, bu), Mix(bo, bu, ba), Mix(bu, ba, be))
  {
    hide Xor, Rol, Mix, RoundConstant, Round, Moved, Source, Offset, ThetaEffect;
    Wiring2();
    MovedIs(s, 10, 1, 1, a, ThetaEffect(s, 1), ba);
    MovedIs(s, 11, 7, 6, e, ThetaEffect(s, 2), be);
    MovedIs(s, 12, 13, 25, i, ThetaEffect(s, 3), bi);
    MovedIs(s, 13, 19, 8, o, ThetaEffect(s, 4), bo);
    MovedIs(s, 14, 20, 18, u, ThetaEffect(s, 0), bu);
    RowOfRound(s, ir, 2, ba, be, bi, bo, bu);
  }

  lemma Row3(s: Lanes, ir: nat, a: bv64, e: bv64, i: bv64, o: bv64, u: bv64,
             ba: bv64, be: bv64, bi: bv64, bo: bv64, bu: bv64)
    requires a == s[4] && e == s[5] && i == s[11] && o == s[17] && u == s[23]
    requires ba == Rol(Xor(a, ThetaEffect(s, 4)), 27)
    requires be == Rol(Xor(e, ThetaEffect(s, 0)), 36)
    requires bi == Rol(Xor(i, ThetaEffect(s, 1)), 10)
    requires bo == Rol(Xor(o, ThetaEffect(s, 2)), 15)
    requires bu == Rol(Xor(u, ThetaEffect(s, 3)), 56)
    ensures Hold(Round(s, ir), 3, Mix(ba, be, bi), Mix(be, bi, bo), Mix(bi, bo, bu), Mix(bo, bu, ba), Mix(bu, ba, be))
  {
    hide Xor, Rol, Mix, RoundConstant, Round, Moved, Source, Offset, ThetaEffect;
    Wiring3();
    MovedIs(s, 15, 4, 27, a, ThetaEffect(s, 4), ba);
    MovedIs(s, 16, 5, 36, e, ThetaEffect(s, 0), be);
    MovedIs(s, 17, 11, 10, i, ThetaEffect(s, 1), bi);
    MovedIs(s, 18, 17, 15, o, ThetaEffect(s, 2), bo);
    MovedIs(s, 19, 23, 56, u, ThetaEffect(s, 3), bu);
    RowOfRound(s, ir, 3, ba, be, bi, bo, bu);
  }

  lemma Row4(s: Lanes, ir: nat, a: bv64, e: bv64, i: bv64, o: bv64, u: bv64,
             ba: bv64, be: bv64, bi: bv64, bo: bv64, bu: bv64)
    requires a == s[2] && e == s[8] && i == s[14] && o == s[15] && u == s[21]
    requires ba == Rol(Xor(a, ThetaEffect(s, 2)), 62)
    requires be == Rol(Xor(e, ThetaEffect(s, 3)), 55)
    requires bi == Rol(Xor(i, ThetaEffect(s, 4)), 39)
    requires bo == Rol(Xor(o, ThetaEffect(s, 0)), 41)
    requires bu == Rol(Xor(u, ThetaEffect(s, 1)), 2)
    ensures Hold(Round(s, ir), 4, Mix(ba, be, bi), Mix(be, bi, bo), Mix(bi, bo, bu), Mix(bo, bu, ba), Mix(bu, ba, be))
  {
    hide Xor, Rol, Mix, RoundConstant, Round, Moved, Source, Offset, ThetaEffect;
    Wiring4();
    MovedIs(s, 20, 2, 62, a, ThetaEffect(s, 2), ba);
    MovedIs(s, 21, 8, 55, e, ThetaEffect(s, 3), be);
    MovedIs(s, 22, 14, 39, i, ThetaEffect(s, 4), bi);
    MovedIs(s, 23, 15, 41, o, ThetaEffect(s, 0), bo);
    MovedIs(s, 24, 21, 2, u, ThetaEffect(s, 1), bu);
    RowOfRound(s, ir, 4, ba, be, bi, bo, bu);
  }

  method PrepareTheta(Aba: bv64, Abe: bv64, Abi: bv64, Abo: bv64, Abu: bv64,
                      Aga: bv64, Age: bv64, Agi: bv64, Ago: bv64, Agu: bv64,
                      Aka: bv64, Ake: bv64, Aki: bv64, Ako: bv64, Aku: bv64,
                      Ama: bv64, Ame: bv64, Ami: bv64, Amo: bv64, Amu: bv64,
                      Asa: bv64, Ase: bv64, Asi: bv64, Aso: bv64, Asu: bv64, ghost s: Lanes)
    returns (BCa: bv64, BCe: bv64, BCi: bv64, BCo: bv64, BCu: bv64)
    requires Hold(s, 0, Aba, Abe, Abi, Abo, Abu)
    requires Hold(s, 1, Aga, Age, Agi, Ago, Agu)
    requires Hold(s, 2, Aka, Ake, Aki, Ako, Aku)
    requires Hold(s, 3, Ama, Ame, Ami, Amo, Amu)
    requires Hold(s, 4, Asa, Ase, Asi, Aso, Asu)
    ensures BCa == Parity(s, 0) && BCe == Parity(s, 1) && BCi == Parity(s, 2) && BCo == Parity(s, 3)
         && BCu == Parity(s, 4)
  {
    hide Xor, Parity;
    BCa := Xor(Xor(Xor(Xor(Aba, Aga), Aka), Ama), Asa);
    BCe := Xor(Xor(Xor(Xor(Abe, Age), Ake), Ame), Ase);
    BCi := Xor(Xor(Xor(Xor(Abi, Agi), Aki), Ami), Asi);
    BCo := Xor(Xor(Xor(Xor(Abo, Ago), Ako), Amo), Aso);
    BCu := Xor(Xor(Xor(Xor(Abu, Agu), Aku), Amu), Asu);
    ParityIs(s, 0, Aba, Aga, Aka, Ama, Asa, BCa);
    ParityIs(s, 1, Abe, Age, Ake, Ame, Ase, BCe);
    ParityIs(s, 2, Abi, Agi, Aki, Ami, Asi, BCi);
    ParityIs(s, 3, Abo, Ago, Ako, Amo, Aso, BCo);
    ParityIs(s, 4, Abu, Agu, Aku, Amu, Asu, BCu);
  }

  /** thetaRhoPiChiIota: one half of a turn of the loop. The other half is the same text with the
      A and the E lanes exchanged. */
  method HalfTurn(Aba: bv64, Abe: bv64, Abi: bv64, Abo: bv64, Abu: bv64,
                  Aga: bv64, Age: bv64, Agi: bv64, Ago: bv64, Agu: bv64,
                  Aka: bv64, Ake: bv64, Aki: bv64, Ako: bv64, Aku: bv64,
                  Ama: bv64, Ame: bv64, Ami: bv64, Amo: bv64, Amu: bv64,
                  Asa: bv64, Ase: bv64, Asi: bv64, Aso: bv64, Asu: bv64,
                  constant: bv64, ghost s: Lanes, ghost ir: nat)
    returns (Eba: bv64, Ebe: bv64, Ebi: bv64, Ebo: bv64, Ebu: bv64,
             Ega: bv64, Ege: bv64, Egi: bv64, Ego: bv64, Egu: bv64,
             Eka: bv64, Eke: bv64, Eki: bv64, Eko: bv64, Eku: bv64,
             Ema: bv64, Eme: bv64, Emi: bv64, Emo: bv64, Emu: bv64,
             Esa: bv64, Ese: bv64, Esi: bv64, Eso: bv64, Esu: bv64)
    requires Hold(s, 0, Aba, Abe, Abi, Abo, Abu)
    requires Hold(s, 1, Aga, Age, Agi, Ago, Agu)
    requires Hold(s, 2, Aka, Ake, Aki, Ako, Aku)
    requires Hold(s, 3, Ama, Ame, Ami, Amo, Amu)
    requires Hold(s, 4, Asa, Ase, Asi, Aso, Asu)
    requires constant == RoundConstant(ir)
    ensures Hold(Round(s, ir), 0, Eba, Ebe, Ebi, Ebo, Ebu)
    ensures Hold(Round(s, ir), 1, Ega, Ege, Egi, Ego, Egu)
    ensures Hold(Round(s, ir), 2, Eka, Eke, Eki, Eko, Eku)
    ensures Hold(Round(s, ir), 3, Ema, Eme, Emi, Emo, Emu)
    ensures Hold(Round(s, ir), 4, Esa, Ese, Esi, Eso, Esu)
  {
    hide Xor, Rol, Mix, RoundConstant, Round, ThetaEffect, Parity;
    var BCa, BCe, BCi, BCo, BCu :=
      PrepareTheta(Aba, Abe, Abi, Abo, Abu, Aga, Age, Agi, Ago, Agu,
                   Aka, Ake, Aki, Ako, Aku, Ama, Ame, Ami, Amo, Amu,
                   Asa, Ase, Asi, Aso, Asu, s);
    var Da := Xor(BCu, Rol(BCe, 1));
    var De := Xor(BCa, Rol(BCi, 1));
    var Di := Xor(BCe, Rol(BCo, 1));
    var Do := Xor(BCi, Rol(BCu, 1));
    var Du := Xor(BCo, Rol(BCa, 1));
    Effects(s, BCa, BCe, BCi, BCo, BCu, Da, De, Di, Do, Du);

    BCa := Xor(Aba, Da);
    BCe := Rol(Xor(Age, De), 44);
    BCi := Rol(Xor(Aki, Di), 43);
    BCo := Rol(Xor(Amo, Do), 21);
    BCu := Rol(Xor(Asu, Du), 14);
    Row0(s, ir, Aba, Age, Aki, Amo, Asu, BCa, BCe, BCi, BCo, BCu);
    Eba := Mix(BCa, BCe, BCi);
    Eba := Xor(Eba, constant);
    Ebe := Mix(BCe, BCi, BCo);
    Ebi := Mix(BCi, BCo, BCu);
    Ebo := Mix(BCo, BCu, BCa);
    Ebu := Mix(BCu, BCa, BCe);

    BCa := Rol(Xor(Abo, Do), 28);
    BCe := Rol(Xor(Agu, Du), 20);
    BCi := Rol(Xor(Aka, Da), 3);
    BCo := Rol(Xor(Ame, De), 45);
    BCu := Rol(Xor(Asi, Di), 61);
    Row1(s, ir, Abo, Agu, Aka, Ame, Asi, BCa, BCe, BCi, BCo, BCu);
    Ega := Mix(BCa, BCe, BCi);
    Ege := Mix(BCe, BCi, BCo);
    Egi := Mix(BCi, BCo, BCu);
    Ego := Mix(BCo, BCu, BCa);
    Egu := Mix(BCu, BCa, BCe);

    BCa := Rol(Xor(Abe, De), 1);
    BCe := Rol(Xor(Agi, Di), 6);
    BCi := Rol(Xor(Ako, Do), 25);
    BCo := Rol(Xor(Amu, Du), 8);
    BCu := Rol(Xor(Asa, Da), 18);
    Row2(s, ir, Abe, Agi, Ako, Amu, Asa, BCa, BCe, BCi, BCo, BCu);
    Eka := Mix(BCa, BCe, BCi);
    Eke := Mix(BCe, BCi, BCo);
    Eki := Mix(BCi, BCo, BCu);
    Eko := Mix(BCo, BCu, BCa);
    Eku := Mix(BCu, BCa, BCe);

    BCa := Rol(Xor(Abu, Du), 27);
    BCe := Rol(Xor(Aga, Da), 36);
    BCi := Rol(Xor(Ake, De), 10);
    BCo := Rol(Xor(Ami, Di), 15);
    BCu := Rol(Xor(Aso, Do), 56);
    Row3(s, ir, Abu, Aga, Ake, Ami, Aso, BCa, BCe, BCi, BCo, BCu);
    Ema := Mix(BCa, BCe, BCi);
    Eme := Mix(BCe, BCi, BCo);
    Emi := Mix(BCi, BCo, BCu);
    Emo := Mix(BCo, BCu, BCa);
    Emu := Mix(BCu, BCa, BCe);

    BCa := Rol(Xor(Abi, Di), 62);
    BCe := Rol(Xor(Ago, Do), 55);
    BCi := Rol(Xor(Aku, Du), 39);
    BCo := Rol(Xor(Ama, Da), 41);
    BCu := Rol(Xor(Ase, De), 2);
    Row4(s, ir, Abi, Ago, Aku, Ama, Ase, BCa, BCe, BCi, BCo, BCu);
    Esa := Mix(BCa, BCe, BCi);
    Ese := Mix(BCe, BCi, BCo);
    Esi := Mix(BCi, BCo, BCu);
    Eso := Mix(BCo, BCu, BCa);
    Esu := Mix(BCu, BCa, BCe);
  }

  lemma HoldAll(s: Lanes)
    ensures Hold(s, 0, s[0], s[1], s[2], s[3], s[4]) && Hold(s, 1, s[5], s[6], s[7], s[8], s[9])
    ensures Hold(s, 2, s[10], s[11], s[12], s[13], s[14]) && Hold(s, 3, s[15], s[16], s[17], s[18], s[19])
    ensures Hold(s, 4, s[20], s[21], s[22], s[23], s[24])
  {
  }

  /** copyToState, row y. */
  method StoreRow(state: array<bv64>, y: nat, a: bv64, e: bv64, i: bv64, o: bv64, u: bv64, ghost s: Lanes)
    requires state.Length == 25 && y < 5 && Hold(s, y, a, e, i, o, u) && state[..5 * y] == s[..5 * y]
    modifies state
    ensures state[..5 * y + 5] == s[..5 * y + 5]
  {
    state[5 * y], state[5 * y + 1], state[5 * y + 2], state[5 * y + 3], state[5 * y + 4] := a, e, i, o, u;
    assert state[..5 * y + 5] == state[..5 * y] + [a, e, i, o, u];
    assert s[..5 * y + 5] == s[..5 * y] + [a, e, i, o, u];
  }

  /** KeccakF1600_StatePermute: two rounds a turn, from the A lanes to the E lanes and back. */
  method StatePermute(state: array<bv64>)
    requires state.Length == 25
    modifies state
    ensures state[..] == KeccakF(old(state[..]))
  {
    hide Round, RoundConstant, Hold, Rounds;
    ghost var start: Lanes := state[..];
    HoldAll(start);
    NoRounds(start);
    var Aba := state[0];
    var Abe := state[1];
    var Abi := state[2];
    var Abo := state[3];
    var Abu := state[4];
    var Aga := state[5];
    var Age := state[6];
    var Agi := state[7];
    var Ago := state[8];
    var Agu := state[9];
    var Aka := state[10];
    var Ake := state[11];
    var Aki := state[12];
    var Ako := state[13];
    var Aku := state[14];
    var Ama := state[15];
    var Ame := state[16];
    var Ami := state[17];
    var Amo := state[18];
    var Amu := state[19];
    var Asa := state[20];
    var Ase := state[21];
    var Asi := state[22];
    var Aso := state[23];
    var Asu := state[24];
    ghost var s: Lanes := start;
    var round := 0;
    while round < 24
      invariant round <= 24 && round % 2 == 0 && s == Rounds(start, round)
      invariant Hold(s, 0, Aba, Abe, Abi, Abo, Abu)
      invariant Hold(s, 1, Aga, Age, Agi, Ago, Agu)
      invariant Hold(s, 2, Aka, Ake, Aki, Ako, Aku)
      invariant Hold(s, 3, Ama, Ame, Ami, Amo, Amu)
      invariant Hold(s, 4, Asa, Ase, Asi, Aso, Asu)
    {
      var Eba, Ebe, Ebi, Ebo, Ebu, Ega, Ege, Egi, Ego, Egu, Eka, Eke, Eki, Eko, Eku, Ema, Eme, Emi, Emo, Emu, Esa, Ese,
           Esi, Eso, Esu :=
        HalfTurn(Aba, Abe, Abi, Abo, Abu, Aga, Age, Agi, Ago, Agu, Aka, Ake, Aki, Ako, Aku, Ama, Ame, Ami, Amo, Amu,
             Asa, Ase, Asi, Aso, Asu,
                 RoundConstant(round), s, round);
      s := Round(s, round);
      Aba, Abe, Abi, Abo, Abu, Aga, Age, Agi, Ago, Agu, Aka, Ake, Aki, Ako, Aku, Ama, Ame, Ami, Amo, Amu, Asa, Ase, Asi,
           Aso, Asu :=
        HalfTurn(Eba, Ebe, Ebi, Ebo, Ebu, Ega, Ege, Egi, Ego, Egu, Eka, Eke, Eki, Eko, Eku, Ema, Eme, Emi, Emo, Emu,
             Esa, Ese, Esi, Eso, Esu,
                 RoundConstant(round + 1), s, round + 1);
      s := Round(s, round + 1);
      TwoRounds(start, round);
      round := round + 2;
    }
    StoreAll(state, Aba, Abe, Abi, Abo, Abu, Aga, Age, Agi, Ago, Agu, Aka, Ake, Aki, Ako, Aku, Ama, Ame, Ami, Amo, Amu,
             Asa, Ase, Asi, Aso, Asu, s);
  }

  method StoreAll(state: array<bv64>,
                  Aba: bv64, Abe: bv64, Abi: bv64, Abo: bv64, Abu: bv64,
                  Aga: bv64, Age: bv64, Agi: bv64, Ago: bv64, Agu: bv64,
                  Aka: bv64, Ake: bv64, Aki: bv64, Ako: bv64, Aku: bv64,
                  Ama: bv64, Ame: bv64, Ami: bv64, Amo: bv64, Amu: bv64,
                  Asa: bv64, Ase: bv64, Asi: bv64, Aso: bv64, Asu: bv64,
                  ghost s: Lanes)
    requires state.Length == 25
    requires Hold(s, 0, Aba, Abe, Abi, Abo, Abu)
    requires Hold(s, 1, Aga, Age, Agi, Ago, Agu)
    requires Hold(s, 2, Aka, Ake, Aki, Ako, Aku)
    requires Hold(s, 3, Ama, Ame, Ami, Amo, Amu)
    requires Hold(s, 4, Asa, Ase, Asi, Aso, Asu)
    modifies state
    ensures state[..] == s
  {
    hide Hold;
    StoreRow(state, 0, Aba, Abe, Abi, Abo, Abu, s);
    StoreRow(state, 1, Aga, Age, Agi, Ago, Agu, s);
    StoreRow(state, 2, Aka, Ake, Aki, Ako, Aku, s);
    StoreRow(state, 3, Ama, Ame, Ami, Amo, Amu, s);
    StoreRow(state, 4, Asa, Ase, Asi, Aso, Asu, s);
    assert state[..25] == state[..] && s[..25] == s;
  }

  lemma NoRounds(start: Lanes)
    ensures Rounds(start, 0) == start
  {
  }

  lemma TwoRounds(start: Lanes, n: nat)
    ensures Rounds(start, n + 2) == Round(Round(Rounds(start, n), n), n + 1)
  {
    hide Round;
  }
}
