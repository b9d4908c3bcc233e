/** The root table of tools/pqc/mlkem/mlkem_ntt.c: seven levels of square roots down from -1,
    and their inverses by reading each level backwards and negated. */
module MlkemZetas {
  import opened Modular
  import opened NttAlgebra
  import opened MlkemReduce
  import opened RootTables

  function Zeta(k: int): (r: int) {
    if k < 64 then
      if k < 32 then
        if k < 16 then
          if k < 8 then
            Lane(k - 0, -1044, -758, -359, -1517, 1493, 1422, 287, 202)
          else
            Lane(k - 8, -171, 622, 1577, 182, 962, -1202, -1474, 1468)
        else
          if k < 24 then
            Lane(k - 16, 573, -1325, 264, 383, -829, 1458, -1602, -130)
          else
            Lane(k - 24, -681, 1017, 732, 608, -1542, 411, -205, -1571)
      else
        if k < 48 then
          if k < 40 then
            Lane(k - 32, 1223, 652, -552, 1015, -1293, 1491, -282, -1544)
          else
            Lane(k - 40, 516, -8, -320, -666, -1618, -1162, 126, 1469)
        else
          if k < 56 then
            Lane(k - 48, -853, -90, -271, 830, 107, -1421, -247, -951)
          else
            Lane(k - 56, -398, 961, -1508, -725, 448, -1065, 677, -1275)
    else
      if k < 96 then
        if k < 80 then
          if k < 72 then
            Lane(k - 64, -1103, 430, 555, 843, -1251, 871, 1550, 105)
          else
            Lane(k - 72, 422, 587, 177, -235, -291, -460, 1574, 1653)
        else
          if k < 88 then
            Lane(k - 80, -246, 778, 1159, -147, -777, 1483, -602, 1119)
          else
            Lane(k - 88, -1590, 644, -872, 349, 418, 329, -156, -75)
      else
        if k < 112 then
          if k < 104 then
            Lane(k - 96, 817, 1097, 603, 610, 1322, -1285, -1465, 384)
          else
            Lane(k - 104, -1215, -136, 1218, -1335, -874, 220, -1187, -1659)
        else
          if k < 120 then
            Lane(k - 112, -1185, -1530, -1278, 794, -1510, -854, -870, 478)
          else
            Lane(k - 120, -108, -308, 996, 991, 958, -1460, 1522, 1628)
  }

  lemma ZetaBound(k: int)
    ensures -1659 <= Zeta(k) <= 1653
  {
  }

  /** The inverse loop multiplies v - u by the table read backwards. */
  function InverseZeta(k: int): (r: int) { -Zeta(Mirror(k)) }

  // ----- the tables without their factor 2^16

  function W(k: nat): (r: int) { Zeta(k) * RINV }

  function IW(k: nat): (r: int) { InverseZeta(k) * RINV }

  ghost predicate TreeOk(k: nat, d: nat)
    requires k >= 1
  {
    SquareRoots(W, k, d, Q) && Inverses(W, IW, k, d, Q)
  }

  lemma WithoutFactor(x: int, y: int, p: int)
    requires (x * y - R * p) % Q == 0
    ensures Cong((x * RINV) * (y * RINV), p * RINV, Q)
  {
    var c := (x * y - R * p) / Q;
    assert R * RINV == 1 + 3327 * Q;
    assert x * y == R * p + c * Q;
    calc {
      (x * RINV) * (y * RINV);
      x * y * RINV * RINV;
      (R * p + c * Q) * RINV * RINV;
      p * RINV + (p * RINV * 3327 + c * RINV * RINV) * Q;
    }
    FromQuotient((x * RINV) * (y * RINV), p * RINV, p * RINV * 3327 + c * RINV * RINV, Q);
  }

  /** One node of the tree: its entry, the root it has to square to, and its mirror. */
  lemma Node(k: nat, d: nat, entry: int, root: int, mirrored: int)
    requires 1 <= k < 128 && d >= 1
    requires Zeta(k) == entry && Zeta(Mirror(k)) == mirrored
    requires root == if k == 1 then -R else if k % 2 == 0 then Zeta(k / 2) else -Zeta(k / 2)
    requires (entry * entry - R * root) % Q == 0 && (-mirrored * entry - R * R) % Q == 0
    requires d == 1 || (TreeOk(2 * k, d - 1) && TreeOk(2 * k + 1, d - 1))
    ensures TreeOk(k, d)
  {
    hide Zeta;
    WithoutFactor(entry, entry, root);
    WithoutFactor(-mirrored, entry, R);
    FromQuotient(R * RINV, 1, 3327, Q);
    Trans(Prod(IW(k), W(k)), R * RINV, 1, Q);
    if k == 1 {
      FromQuotient(-R * RINV, -1, -3327, Q);
      Trans(Prod(W(k), W(k)), -R * RINV, -1, Q);
    }
  }

  lemma Tree8()
    ensures TreeOk(8, 4)
  {
    hide TreeOk;
    Node(64, 1, -1103, 1223, 1628); Node(65, 1, 430, -1223, 1522); Node(32, 2, 1223, 573, -1275);
    Node(66, 1, 555, 652, -1460);
    Node(67, 1, 843, -652, 958); Node(33, 2, 652, -573, 677); Node(16, 3, 573, -171, -1571);
    Node(68, 1, -1251, -552, 991);
    Node(69, 1, 871, 552, 996); Node(34, 2, -552, -1325, -1065); Node(70, 1, 1550, 1015, -308);
    Node(71, 1, 105, -1015, -108);
    Node(35, 2, 1015, 1325, 448); Node(17, 3, -1325, 171, -205); Node(8, 4, -171, 1493, 1468);
  }

  lemma Tree9()
    ensures TreeOk(9, 4)
  {
    hide TreeOk;
    Node(72, 1, 422, -1293, 478); Node(73, 1, 587, 1293, -870); Node(36, 2, -1293, 264, -725);
    Node(74, 1, 177, 1491, -854);
    Node(75, 1, -235, -1491, -1510); Node(37, 2, 1491, -264, -1508); Node(18, 3, 264, 622, 411);
    Node(76, 1, -291, -282, 794);
    Node(77, 1, -460, 282, -1278); Node(38, 2, -282, 383, 961); Node(78, 1, 1574, -1544, -1530);
    Node(79, 1, 1653, 1544, -1185);
    Node(39, 2, -1544, -383, -398); Node(19, 3, 383, -622, -1542); Node(9, 4, 622, -1493, -1474);
  }

  lemma Tree10()
    ensures TreeOk(10, 4)
  {
    hide TreeOk;
    Node(80, 1, -246, 516, -1659); Node(81, 1, 778, -516, -1187); Node(40, 2, 516, -829, -951);
    Node(82, 1, 1159, -8, 220);
    Node(83, 1, -147, 8, -874); Node(41, 2, -8, 829, -247); Node(20, 3, -829, 1577, 608);
    Node(84, 1, -777, -320, -1335);
    Node(85, 1, 1483, 320, 1218); Node(42, 2, -320, 1458, -1421); Node(86, 1, -602, -666, -136);
    Node(87, 1, 1119, 666, -1215);
    Node(43, 2, -666, -1458, 107); Node(21, 3, 1458, -1577, 732); Node(10, 4, 1577, 1422, -1202);
  }

  lemma Tree11()
    ensures TreeOk(11, 4)
  {
    hide TreeOk;
    Node(88, 1, -1590, -1618, 384); Node(89, 1, 644, 1618, -1465); Node(44, 2, -1618, -1602, 830);
    Node(90, 1, -872, -1162, -1285);
    Node(91, 1, 349, 1162, 1322); Node(45, 2, -1162, 1602, -271); Node(22, 3, -1602, 182, 1017);
    Node(92, 1, 418, 126, 610);
    Node(93, 1, 329, -126, 603); Node(46, 2, 126, -130, -90); Node(94, 1, -156, 1469, 1097);
    Node(95, 1, -75, -1469, 817);
    Node(47, 2, 1469, 130, -853); Node(23, 3, -130, -182, -681); Node(11, 4, 182, -1422, 962);
  }

  lemma Tree12()
    ensures TreeOk(12, 4)
  {
    hide TreeOk;
    Node(96, 1, 817, -853, -75); Node(97, 1, 1097, 853, -156); Node(48, 2, -853, -681, 1469);
    Node(98, 1, 603, -90, 329);
    Node(99, 1, 610, 90, 418); Node(49, 2, -90, 681, 126); Node(24, 3, -681, 962, -130); Node(100, 1, 1322, -271, 349);
    Node(101, 1, -1285, 271, -872); Node(50, 2, -271, 1017, -1162); Node(102, 1, -1465, 830, 644);
    Node(103, 1, 384, -830, -1590);
    Node(51, 2, 830, -1017, -1618); Node(25, 3, 1017, -962, -1602); Node(12, 4, 962, 287, 182);
  }

  lemma Tree13()
    ensures TreeOk(13, 4)
  {
    hide TreeOk;
    Node(104, 1, -1215, 107, 1119); Node(105, 1, -136, -107, -602); Node(52, 2, 107, 732, -666);
    Node(106, 1, 1218, -1421, 1483);
    Node(107, 1, -1335, 1421, -777); Node(53, 2, -1421, -732, -320); Node(26, 3, 732, -1202, 1458);
    Node(108, 1, -874, -247, -147);
    Node(109, 1, 220, 247, 1159); Node(54, 2, -247, 608, -8); Node(110, 1, -1187, -951, 778);
    Node(111, 1, -1659, 951, -246);
    Node(55, 2, -951, -608, 516); Node(27, 3, 608, 1202, -829); Node(13, 4, -1202, -287, 1577);
  }

  lemma Tree14()
    ensures TreeOk(14, 4)
  {
    hide TreeOk;
    Node(112, 1, -1185, -398, 1653); Node(113, 1, -1530, 398, 1574); Node(56, 2, -398, -1542, -1544);
    Node(114, 1, -1278, 961, -460);
    Node(115, 1, 794, -961, -291); Node(57, 2, 961, 1542, -282); Node(28, 3, -1542, -1474, 383);
    Node(116, 1, -1510, -1508, -235);
    Node(117, 1, -854, 1508, 177); Node(58, 2, -1508, 411, 1491); Node(118, 1, -870, -725, 587);
    Node(119, 1, 478, 725, 422);
    Node(59, 2, -725, -411, -1293); Node(29, 3, 411, 1474, 264); Node(14, 4, -1474, 202, 622);
  }

  lemma Tree15()
    ensures TreeOk(15, 4)
  {
    hide TreeOk;
    Node(120, 1, -108, 448, 105); Node(121, 1, -308, -448, 1550); Node(60, 2, 448, -205, 1015);
    Node(122, 1, 996, -1065, 871);
    Node(123, 1, 991, 1065, -1251); Node(61, 2, -1065, 205, -552); Node(30, 3, -205, 1468, -1325);
    Node(124, 1, 958, 677, 843);
    Node(125, 1, -1460, -677, 555); Node(62, 2, 677, -1571, 652); Node(126, 1, 1522, -1275, 430);
    Node(127, 1, 1628, 1275, -1103);
    Node(63, 2, -1275, 1571, 1223); Node(31, 3, -1571, -1468, 573); Node(15, 4, 1468, -202, -171);
  }

  lemma Tree()
    ensures TreeOk(1, 7)
  {
    hide TreeOk;
    Tree8(); Tree9(); Tree10(); Tree11(); Tree12(); Tree13(); Tree14(); Tree15();
    Node(4, 5, 1493, -359, 202); Node(5, 5, 1422, 359, 287); Node(6, 5, 287, -1517, 1422); Node(7, 5, 202, 1517, 1493);
    Node(2, 6, -359, -758, -1517); Node(3, 6, -1517, 758, -359); Node(1, 7, -758, -R, -758);
  }
}
