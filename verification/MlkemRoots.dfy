/** Which root is which: entry k of the table of mlkem_ntt.c is 17 to the power of the bit reversal of k, so
    the transform lists remainders in the order of section 4.3 of FIPS 203. */
module MlkemRoots {
  import opened Modular
  import opened Polynomials
  import opened NttAlgebra
  import opened EvenOdd
  import opened BitReversal
  import opened MlkemReduce
  import opened MlkemZetas
  import opened MlkemProduct

  /** W(k) is the product of the entry of its highest bit and the entry of the other bits. */
  ghost predicate IsProduct(k: nat, t: nat)
    requires t <= k
  {
    Cong(W(k), W(t) * W(k - t), Q)
  }

  lemma Link(k: nat, t: nat, entry: int, top: int, rest: int, c: int)
    requires t <= k && Zeta(k) == entry && Zeta(t) == top && Zeta(k - t) == rest && entry * R == top * rest + c * Q
    ensures IsProduct(k, t)
  {
    hide Zeta, Cong;
    NoRemainder(top * rest - R * entry, -c);
    WithoutFactor(top, rest, entry);
    Sym(W(t) * W(k - t), W(k), Q);
  }

  lemma NoRemainder(x: int, c: int)
    requires x == c * Q
    ensures x % Q == 0
  {
  }

  lemma Entries3()
    ensures forall k :: 3 <= k < 4 ==> IsProduct(k, 2)
  {
    hide IsProduct;
    Link(3, 2, -1517, -359, -758, -29946);
  }

  lemma Entries5()
    ensures forall k :: 5 <= k < 8 ==> IsProduct(k, 4)
  {
    hide IsProduct;
    Link(5, 4, 1422, 1493, -758, 28334); Link(6, 4, 287, 1493, -359, 5811); Link(7, 4, 202, 1493, -1517, 4657);
  }

  lemma Entries9()
    ensures forall k :: 9 <= k < 16 ==> IsProduct(k, 8)
  {
    hide IsProduct;
    Link(9, 8, 622, -171, -758, 12206); Link(10, 8, 1577, -171, -359, 31027); Link(11, 8, 182, -171, -1517, 3505);
    Link(12, 8, 962, -171, 1493, 19015); Link(13, 8, -1202, -171, 1422, -23590);
    Link(14, 8, -1474, -171, 287, -29003); Link(15, 8, 1468, -171, 202, 28910);
  }

  lemma Entries17()
    ensures forall k :: 17 <= k < 24 ==> IsProduct(k, 16)
  {
    hide IsProduct;
    Link(17, 16, -1325, 573, -758, -25954); Link(18, 16, 264, 573, -359, 5259); Link(19, 16, 383, 573, -1517, 7801);
    Link(20, 16, -829, 573, 1493, -16577); Link(21, 16, 1458, 573, 1422, 28458);
    Link(22, 16, -1602, 573, 287, -31587); Link(23, 16, -130, 573, 202, -2594);
  }

  lemma Entries24()
    ensures forall k :: 24 <= k < 32 ==> IsProduct(k, 16)
  {
    hide IsProduct;
    Link(24, 16, -681, 573, -171, -13377); Link(25, 16, 1017, 573, 622, 19914); Link(26, 16, 732, 573, 1577, 14139);
    Link(27, 16, 608, 573, 182, 11938); Link(28, 16, -1542, 573, 962, -30522); Link(29, 16, 411, 573, -1202, 8298);
    Link(30, 16, -205, 573, -1474, -3782); Link(31, 16, -1571, 573, 1468, -31180);
  }

  lemma Entries33()
    ensures forall k :: 33 <= k < 40 ==> IsProduct(k, 32)
  {
    hide IsProduct;
    Link(33, 32, 652, 1223, -758, 13114); Link(34, 32, -552, 1223, -359, -10735);
    Link(35, 32, 1015, 1223, -1517, 20539); Link(36, 32, -1293, 1223, 1493, -26003);
    Link(37, 32, 1491, 1223, 1422, 28830); Link(38, 32, -282, 1223, 287, -5657);
    Link(39, 32, -1544, 1223, 202, -30470);
  }

  lemma Entries40()
    ensures forall k :: 40 <= k < 48 ==> IsProduct(k, 32)
  {
    hide IsProduct;
    Link(40, 32, 516, 1223, -171, 10221); Link(41, 32, -8, 1223, 622, -386); Link(42, 32, -320, 1223, 1577, -6879);
    Link(43, 32, -666, 1223, 182, -13178); Link(44, 32, -1618, 1223, 962, -32206);
    Link(45, 32, -1162, 1223, -1202, -22434); Link(46, 32, 126, 1223, -1474, 3022);
    Link(47, 32, 1469, 1223, 1468, 28380);
  }

  lemma Entries48()
    ensures forall k :: 48 <= k < 56 ==> IsProduct(k, 32)
  {
    hide IsProduct;
    Link(48, 32, -853, 1223, 573, -17003); Link(49, 32, -90, 1223, -1325, -1285);
    Link(50, 32, -271, 1223, 264, -5432); Link(51, 32, 830, 1223, 383, 16199); Link(52, 32, 107, 1223, -829, 2411);
    Link(53, 32, -1421, 1223, 1458, -28510); Link(54, 32, -247, 1223, -1602, -4274);
    Link(55, 32, -951, 1223, -130, -18674);
  }

  lemma Entries56()
    ensures forall k :: 56 <= k < 64 ==> IsProduct(k, 32)
  {
    hide IsProduct;
    Link(56, 32, -398, 1223, -681, -7585); Link(57, 32, 961, 1223, 1017, 18545);
    Link(58, 32, -1508, 1223, 732, -29956); Link(59, 32, -725, 1223, 608, -14496);
    Link(60, 32, 448, 1223, -1542, 9386); Link(61, 32, -1065, 1223, 411, -21117);
    Link(62, 32, 677, 1223, -205, 13403); Link(63, 32, -1275, 1223, -1571, -24523);
  }

  lemma Entries65()
    ensures forall k :: 65 <= k < 72 ==> IsProduct(k, 64)
  {
    hide IsProduct;
    Link(65, 64, 430, -1103, -758, 8214); Link(66, 64, 555, -1103, -359, 10807);
    Link(67, 64, 843, -1103, -1517, 16093); Link(68, 64, -1251, -1103, 1493, -24133);
    Link(69, 64, 871, -1103, 1422, 17618); Link(70, 64, 1550, -1103, 287, 30609); Link(71, 64, 105, -1103, 202, 2134);
  }

  lemma Entries72()
    ensures forall k :: 72 <= k < 80 ==> IsProduct(k, 64)
  {
    hide IsProduct;
    Link(72, 64, 422, -1103, -171, 8251); Link(73, 64, 587, -1103, 622, 11762); Link(74, 64, 177, -1103, 1577, 4007);
    Link(75, 64, -235, -1103, 182, -4566); Link(76, 64, -291, -1103, 962, -5410);
    Link(77, 64, -460, -1103, -1202, -9454); Link(78, 64, 1574, -1103, -1474, 30498);
    Link(79, 64, 1653, -1103, 1468, 33028);
  }

  lemma Entries80()
    ensures forall k :: 80 <= k < 88 ==> IsProduct(k, 64)
  {
    hide IsProduct;
    Link(80, 64, -246, -1103, 573, -4653); Link(81, 64, 778, -1103, -1325, 14877);
    Link(82, 64, 1159, -1103, 264, 22904); Link(83, 64, -147, -1103, 383, -2767);
    Link(84, 64, -777, -1103, -829, -15571); Link(85, 64, 1483, -1103, 1458, 29678);
    Link(86, 64, -602, -1103, -1602, -12382); Link(87, 64, 1119, -1103, -130, 21986);
  }

  lemma Entries88()
    ensures forall k :: 88 <= k < 96 ==> IsProduct(k, 64)
  {
    hide IsProduct;
    Link(88, 64, -1590, -1103, -681, -31527); Link(89, 64, 644, -1103, 1017, 13015);
    Link(90, 64, -872, -1103, 732, -16924); Link(91, 64, 349, -1103, 608, 7072);
    Link(92, 64, 418, -1103, -1542, 7718); Link(93, 64, 329, -1103, 411, 6613);
    Link(94, 64, -156, -1103, -205, -3139); Link(95, 64, -75, -1103, -1571, -1997);
  }

  lemma Entries96()
    ensures forall k :: 96 <= k < 104 ==> IsProduct(k, 64)
  {
    hide IsProduct;
    Link(96, 64, 817, -1103, 1223, 16489); Link(97, 64, 1097, -1103, 652, 21812);
    Link(98, 64, 603, -1103, -552, 11688); Link(99, 64, 610, -1103, 1015, 12345);
    Link(100, 64, 1322, -1103, -1293, 25597); Link(101, 64, -1285, -1103, 1491, -24803);
    Link(102, 64, -1465, -1103, -282, -28934); Link(103, 64, 384, -1103, -1544, 7048);
  }

  lemma Entries104()
    ensures forall k :: 104 <= k < 112 ==> IsProduct(k, 64)
  {
    hide IsProduct;
    Link(104, 64, -1215, -1103, 516, -23748); Link(105, 64, -136, -1103, -8, -2680);
    Link(106, 64, 1218, -1103, -320, 23872); Link(107, 64, -1335, -1103, -666, -26502);
    Link(108, 64, -874, -1103, -1618, -17742); Link(109, 64, 220, -1103, -1162, 3946);
    Link(110, 64, -1187, -1103, 126, -23326); Link(111, 64, -1659, -1103, 1469, -32173);
  }

  lemma Entries112()
    ensures forall k :: 112 <= k < 120 ==> IsProduct(k, 64)
  {
    hide IsProduct;
    Link(112, 64, -1185, -1103, -853, -23611); Link(113, 64, -1530, -1103, -90, -30150);
    Link(114, 64, -1278, -1103, -271, -25249); Link(115, 64, 794, -1103, 830, 15906);
    Link(116, 64, -1510, -1103, 107, -29691); Link(117, 64, -854, -1103, -1421, -17283);
    Link(118, 64, -870, -1103, -247, -17209); Link(119, 64, 478, -1103, -951, 9095);
  }

  lemma Entries120()
    ensures forall k :: 120 <= k < 128 ==> IsProduct(k, 64)
  {
    hide IsProduct;
    Link(120, 64, -108, -1103, -398, -2258); Link(121, 64, -308, -1103, 961, -5745);
    Link(122, 64, 996, -1103, -1508, 19108); Link(123, 64, 991, -1103, -725, 19269);
    Link(124, 64, 958, -1103, 448, 19008); Link(125, 64, -1460, -1103, -1065, -29095);
    Link(126, 64, 1522, -1103, 677, 30187); Link(127, 64, 1628, -1103, -1275, 31627);
  }

  lemma Level2(k: nat)
    requires 2 < k < 4
    ensures IsProduct(k, 2)
  {
    hide IsProduct;
    Entries3();
  }

  lemma Level4(k: nat)
    requires 4 < k < 8
    ensures IsProduct(k, 4)
  {
    hide IsProduct;
    Entries5();
  }

  lemma Level8(k: nat)
    requires 8 < k < 16
    ensures IsProduct(k, 8)
  {
    hide IsProduct;
    Entries9();
  }

  lemma Level16(k: nat)
    requires 16 < k < 32
    ensures IsProduct(k, 16)
  {
    hide IsProduct;
    Entries17();
    Entries24();
  }

  lemma Level32(k: nat)
    requires 32 < k < 64
    ensures IsProduct(k, 32)
  {
    hide IsProduct;
    Entries33();
    Entries40();
    Entries48();
    Entries56();
  }

  lemma Level64(k: nat)
    requires 64 < k < 128
    ensures IsProduct(k, 64)
  {
    hide IsProduct;
    Entries65();
    Entries72();
    Entries80();
    Entries88();
    Entries96();
    Entries104();
    Entries112();
    Entries120();
  }

  lemma Split(k: nat, t: nat)
    requires t < k < 2 * t && t in {2, 4, 8, 16, 32, 64}
    ensures IsProduct(k, t)
  {
    hide IsProduct;
    if 2 < k < 4 { Level2(k); }
    if 4 < k < 8 { Level4(k); }
    if 8 < k < 16 { Level8(k); }
    if 16 < k < 32 { Level16(k); }
    if 32 < k < 64 { Level32(k); }
    if 64 < k < 128 { Level64(k); }
  }

  // ----- the tops of the levels

  lemma Tops()
    ensures Cong(W(64), Power(17, 1), Q)
    ensures Cong(W(32), Power(17, 2), Q)
    ensures Cong(W(16), Power(17, 4), Q)
    ensures Cong(W(8), Power(17, 8), Q)
    ensures Cong(W(4), Power(17, 16), Q)
    ensures Cong(W(2), Power(17, 32), Q)
    ensures Cong(W(1), Power(17, 64), Q)
  {
    hide Power;
    FirstPower(17);
    FromRemainder(W(64), 17, Q);
    FromRemainder(W(32), W(64) * W(64), Q);
    PowerTwice(W(32), W(64), 17, 1, Q);
    FromRemainder(W(16), W(32) * W(32), Q);
    PowerTwice(W(16), W(32), 17, 2, Q);
    FromRemainder(W(8), W(16) * W(16), Q);
    PowerTwice(W(8), W(16), 17, 4, Q);
    FromRemainder(W(4), W(8) * W(8), Q);
    PowerTwice(W(4), W(8), 17, 8, Q);
    FromRemainder(W(2), W(4) * W(4), Q);
    PowerTwice(W(2), W(4), 17, 16, Q);
    FromRemainder(W(1), W(2) * W(2), Q);
    PowerTwice(W(1), W(2), 17, 32, Q);
  }

  lemma LevelOf(k: nat) returns (l: nat)
    requires 1 <= k < 128
    ensures l < 7 && Pow2(l) <= k < 2 * Pow2(l) && Pow2(l) in {1, 2, 4, 8, 16, 32, 64}
    ensures Cong(W(Pow2(l)), Power(17, Pow2(6 - l)), Q)
  {
    hide Power, Pow2, W, Cong;
    PowersOfTwo();
    Tops();
    l := if k < 2 then 0 else if k < 4 then 1 else if k < 8 then 2 else if k < 16 then 3 else if k < 32 then 4
         else if k < 64 then 5 else 6;
  }

  /** Entry k of the table is the root to the power of k with its bits reversed. */
  lemma {:induction false} EntryIsPower(k: nat)
    requires 1 <= k < 128
    ensures Cong(W(k), Power(17, Rev(7, k)), Q)
    decreases k
  {
    hide W, Power, Rev, Cong, Pow2;
    var l := LevelOf(k);
    var t := Pow2(l);
    RevTop(7, l, k);
    if k == t {
      RevZero(7);
    } else {
      Split(k, t);
      EntryIsPower(k - t);
      PowersMultiply(W(k), W(t), W(k - t), 17, Pow2(6 - l), Rev(7, k - t), Q);
    }
  }

  lemma MinusOne()
    ensures Cong(-1, Power(17, 128), Q)
  {
    hide Power;
    Tops();
    FromRemainder(-1, W(1) * W(1), Q);
    PowerTwice(-1, W(1), 17, 64, Q);
  }

  /** The roots of X^128 + 1 in the order of the transform. */
  lemma LeafIsPower(i: nat)
    requires i < 128
    ensures Cong(Root(W, 128 + i), Power(17, 2 * Rev(7, i) + 1), Q)
  {
    hide W, Power, Cong, Pow2, Rev;
    PowersOfTwo();
    var j := i / 2;
    EntryIsPower(64 + j);
    RevTop(7, 6, 64 + j);
    RevLonger(6, j);
    RevOfHalf(7, i);
    assert (128 + i) / 2 == 64 + j && (128 + i) % 2 == i % 2;
    if i % 2 == 1 {
      MinusOne();
      Negated(W(64 + j));
      PowersMultiply(-W(64 + j), -1, W(64 + j), 17, 128, Rev(7, 64 + j), Q);
    }
  }

  lemma Negated(w: int)
    ensures Cong(-w, -1 * w, Q)
  {
    Refl(-w, Q);
  }

  /** Each half of the transform evaluates. */
  lemma HalfIsEvaluation(x: seq<int>, p: nat)
    requires |x| == 128 && p < 128
    ensures Cong(HalfHat(x)[p], Eval(x, Power(17, 2 * Rev(7, p) + 1)), Q)
  {
    hide W, Power, Cong, Pow2, Rev, Fwd, Eval, Root, SquareRoots, Inverses, Leaf;
    PowersOfTwo();
    Tree();
    FwdEval(W, x, 1, 7, p, Q);
    LeafNumber(1, 7, p);
    ProdIs(1, 128);
    LeafIsPower(p);
    EvalCong(x, Root(W, 128 + p), Power(17, 2 * Rev(7, p) + 1), Q);
    Trans(HalfHat(x)[p], Eval(x, Root(W, 128 + p)), Eval(x, Power(17, 2 * Rev(7, p) + 1)), Q);
  }

  /** Pair p of the transform is the polynomial modulo X^2 - g, for g the 17 to the power of
      2 * BitRev7(p) + 1: the even and the odd coefficients at g. Products at pair p are modulo the same X^2 - g. */
  lemma HatIsRemainder(a: Poly, p: nat)
    requires |a| == N && p < 128
    ensures var g := Power(17, 2 * Rev(7, p) + 1);
      && Cong(Hat(a)[2 * p], Eval(Evens(a), g), Q) && Cong(Hat(a)[2 * p + 1], Eval(Odds(a), g), Q)
      && Cong(Gamma(p), g, Q)
  {
    hide Power, Cong, Rev, Eval, HalfHat, Root;
    HalfIsEvaluation(Evens(a), p);
    HalfIsEvaluation(Odds(a), p);
    LeafIsPower(p);
  }
}
