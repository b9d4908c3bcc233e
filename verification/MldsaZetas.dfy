/** The root table of tools/pqc/mldsa/mldsa_ntt.c and what makes it a root table: every
    entry squares to its parent in the tree of rings, and reading it backwards and
    negated gives the inverses. All entries carry the Montgomery factor 2^32. */
module MldsaZetas {
  import opened Modular
  import opened NttAlgebra
  import opened MldsaReduce
  import opened RootTables

  const R: int := 0x1_0000_0000
  const RINV: int := 8265825

  function Zeta(k: int): (r: int) {
    if k < 128 then
      if k < 64 then
        if k < 32 then
          if k < 16 then
            if k < 8 then
              Lane(k - 0, 0, 25847, -2608894, -518909, 237124, -777960, -876248, 466468)
            else
              Lane(k - 8, 1826347, 2353451, -359251, -2091905, 3119733, -2884855, 3111497, 2680103)
          else
            if k < 24 then
              Lane(k - 16, 2725464, 1024112, -1079900, 3585928, -549488, -1119584, 2619752, -2108549)
            else
              Lane(k - 24, -2118186, -3859737, -1399561, -3277672, 1757237, -19422, 4010497, 280005)
        else
          if k < 48 then
            if k < 40 then
              Lane(k - 32, 2706023, 95776, 3077325, 3530437, -1661693, -3592148, -2537516, 3915439)
            else
              Lane(k - 40, -3861115, -3043716, 3574422, -2867647, 3539968, -300467, 2348700, -539299)
          else
            if k < 56 then
              Lane(k - 48, -1699267, -1643818, 3505694, -3821735, 3507263, -2140649, -1600420, 3699596)
            else
              Lane(k - 56, 811944, 531354, 954230, 3881043, 3900724, -2556880, 2071892, -2797779)
      else
        if k < 96 then
          if k < 80 then
            if k < 72 then
              Lane(k - 64, -3930395, -1528703, -3677745, -3041255, -1452451, 3475950, 2176455, -1585221)
            else
              Lane(k - 72, -1257611, 1939314, -4083598, -1000202, -3190144, -3157330, -3632928, 126922)
          else
            if k < 88 then
              Lane(k - 80, 3412210, -983419, 2147896, 2715295, -2967645, -3693493, -411027, -2477047)
            else
              Lane(k - 88, -671102, -1228525, -22981, -1308169, -381987, 1349076, 1852771, -1430430)
        else
          if k < 112 then
            if k < 104 then
              Lane(k - 96, -3343383, 264944, 508951, 3097992, 44288, -1100098, 904516, 3958618)
            else
              Lane(k - 104, -3724342, -8578, 1653064, -3249728, 2389356, -210977, 759969, -1316856)
          else
            if k < 120 then
              Lane(k - 112, 189548, -3553272, 3159746, -1851402, -2409325, -177440, 1315589, 1341330)
            else
              Lane(k - 120, 1285669, -1584928, -812732, -1439742, -3019102, -3881060, -3628969, 3839961)
    else
      if k < 192 then
        if k < 160 then
          if k < 144 then
            if k < 136 then
              Lane(k - 128, 2091667, 3407706, 2316500, 3817976, -3342478, 2244091, -2446433, -3562462)
            else
              Lane(k - 136, 266997, 2434439, -1235728, 3513181, -3520352, -3759364, -1197226, -3193378)
          else
            if k < 152 then
              Lane(k - 144, 900702, 1859098, 909542, 819034, 495491, -1613174, -43260, -522500)
            else
              Lane(k - 152, -655327, -3122442, 2031748, 3207046, -3556995, -525098, -768622, -3595838)
        else
          if k < 176 then
            if k < 168 then
              Lane(k - 160, 342297, 286988, -2437823, 4108315, 3437287, -3342277, 1735879, 203044)
            else
              Lane(k - 168, 2842341, 2691481, -2590150, 1265009, 4055324, 1247620, 2486353, 1595974)
          else
            if k < 184 then
              Lane(k - 176, -3767016, 1250494, 2635921, -3548272, -2994039, 1869119, 1903435, -1050970)
            else
              Lane(k - 184, -1333058, 1237275, -3318210, -1430225, -451100, 1312455, 3306115, -1962642)
      else
        if k < 224 then
          if k < 208 then
            if k < 200 then
              Lane(k - 192, -1279661, 1917081, -2546312, -1374803, 1500165, 777191, 2235880, 3406031)
            else
              Lane(k - 200, -542412, -2831860, -1671176, -1846953, -2584293, -3724270, 594136, -3776993)
          else
            if k < 216 then
              Lane(k - 208, -2013608, 2432395, 2454455, -164721, 1957272, 3369112, 185531, -1207385)
            else
              Lane(k - 216, -3183426, 162844, 1616392, 3014001, 810149, 1652634, -3694233, -1799107)
        else
          if k < 240 then
            if k < 232 then
              Lane(k - 224, -3038916, 3523897, 3866901, 269760, 2213111, -975884, 1717735, 472078)
            else
              Lane(k - 232, -426683, 1723600, -1803090, 1910376, -1667432, -1104333, -260646, -3833893)
          else
            if k < 248 then
              Lane(k - 240, -2939036, -2235985, -420899, -2286327, 183443, -976891, 1612842, -3545687)
            else
              Lane(k - 248, -554416, 3919660, -48306, -1362209, 3937738, 1400424, -846154, 1976782)
  }

  lemma ZetaBound(k: int)
    ensures -4108315 <= Zeta(k) <= 4108315
  {
  }

  function InverseZeta(k: int): (r: int) { -Zeta(Mirror(k)) }

  // ----- the tables without their Montgomery factor

  function W(k: nat): (r: int) { Zeta(k) * RINV }

  function IW(k: nat): (r: int) { InverseZeta(k) * RINV }

  ghost predicate TreeOk(k: nat, d: nat)
    requires k >= 1
  {
    SquareRoots(W, k, d, Q) && Inverses(W, IW, k, d, Q)
  }

  lemma WithoutFactor(x: int, y: int, p: int)
    requires (x * y - R * p) % Q == 0
    ensures Cong((x * RINV) * (y * RINV), p * RINV, Q)
  {
    var c := (x * y - R * p) / Q;
    assert R * RINV == 1 + 4236238847 * Q;
    assert x * y == R * p + c * Q;
    calc {
      (x * RINV) * (y * RINV);
      x * y * RINV * RINV;
      (R * p + c * Q) * RINV * RINV;
      p * RINV + (p * RINV * 4236238847 + c * RINV * RINV) * Q;
    }
    FromQuotient((x * RINV) * (y * RINV), p * RINV, p * RINV * 4236238847 + c * RINV * RINV, Q);
  }

  /** One node of the tree: its entry, the root it has to square to, and its mirror. */
  lemma Node(k: nat, d: nat, entry: int, root: int, mirrored: int)
    requires 1 <= k < 256 && d >= 1
    requires Zeta(k) == entry && Zeta(Mirror(k)) == mirrored
    requires root == if k == 1 then -R else if k % 2 == 0 then Zeta(k / 2) else -Zeta(k / 2)
    requires (entry * entry - R * root) % Q == 0 && (-mirrored * entry - R * R) % Q == 0
    requires d == 1 || (TreeOk(2 * k, d - 1) && TreeOk(2 * k + 1, d - 1))
    ensures TreeOk(k, d)
  {
    hide Zeta;
    WithoutFactor(entry, entry, root);
    WithoutFactor(-mirrored, entry, R);
    FromQuotient(R * RINV, 1, 4236238847, Q);
    Trans(Prod(IW(k), W(k)), R * RINV, 1, Q);
    if k == 1 {
      FromQuotient(-R * RINV, -1, -4236238847, Q);
      Trans(Prod(W(k), W(k)), -R * RINV, -1, Q);
    }
  }

  lemma Tree32()
    ensures TreeOk(32, 3)
  {
    hide TreeOk;
    Node(128, 1, 2091667, -3930395, 1976782); Node(129, 1, 3407706, 3930395, -846154);
    Node(64, 2, -3930395, 2706023, 3839961);
    Node(130, 1, 2316500, -1528703, 1400424); Node(131, 1, 3817976, 1528703, 3937738);
    Node(65, 2, -1528703, -2706023, -3628969);
    Node(32, 3, 2706023, 2725464, -2797779);
  }

  lemma Tree33()
    ensures TreeOk(33, 3)
  {
    hide TreeOk;
    Node(132, 1, -3342478, -3677745, -1362209); Node(133, 1, 2244091, 3677745, -48306);
    Node(66, 2, -3677745, 95776, -3881060);
    Node(134, 1, -2446433, -3041255, 3919660); Node(135, 1, -3562462, 3041255, -554416);
    Node(67, 2, -3041255, -95776, -3019102);
    Node(33, 3, 95776, -2725464, 2071892);
  }

  lemma Tree34()
    ensures TreeOk(34, 3)
  {
    hide TreeOk;
    Node(136, 1, 266997, -1452451, -3545687); Node(137, 1, 2434439, 1452451, 1612842);
    Node(68, 2, -1452451, 3077325, -1439742);
    Node(138, 1, -1235728, 3475950, -976891); Node(139, 1, 3513181, -3475950, 183443);
    Node(69, 2, 3475950, -3077325, -812732);
    Node(34, 3, 3077325, 1024112, -2556880);
  }

  lemma Tree35()
    ensures TreeOk(35, 3)
  {
    hide TreeOk;
    Node(140, 1, -3520352, 2176455, -2286327); Node(141, 1, -3759364, -2176455, -420899);
    Node(70, 2, 2176455, 3530437, -1584928);
    Node(142, 1, -1197226, -1585221, -2235985); Node(143, 1, -3193378, 1585221, -2939036);
    Node(71, 2, -1585221, -3530437, 1285669);
    Node(35, 3, 3530437, -1024112, 3900724);
  }

  lemma Tree36()
    ensures TreeOk(36, 3)
  {
    hide TreeOk;
    Node(144, 1, 900702, -1257611, -3833893); Node(145, 1, 1859098, 1257611, -260646);
    Node(72, 2, -1257611, -1661693, 1341330);
    Node(146, 1, 909542, 1939314, -1104333); Node(147, 1, 819034, -1939314, -1667432);
    Node(73, 2, 1939314, 1661693, 1315589);
    Node(36, 3, -1661693, -1079900, 3881043);
  }

  lemma Tree37()
    ensures TreeOk(37, 3)
  {
    hide TreeOk;
    Node(148, 1, 495491, -4083598, 1910376); Node(149, 1, -1613174, 4083598, -1803090);
    Node(74, 2, -4083598, -3592148, -177440);
    Node(150, 1, -43260, -1000202, 1723600); Node(151, 1, -522500, 1000202, -426683);
    Node(75, 2, -1000202, 3592148, -2409325);
    Node(37, 3, -3592148, 1079900, 954230);
  }

  lemma Tree38()
    ensures TreeOk(38, 3)
  {
    hide TreeOk;
    Node(152, 1, -655327, -3190144, 472078); Node(153, 1, -3122442, 3190144, 1717735);
    Node(76, 2, -3190144, -2537516, -1851402);
    Node(154, 1, 2031748, -3157330, -975884); Node(155, 1, 3207046, 3157330, 2213111);
    Node(77, 2, -3157330, 2537516, 3159746);
    Node(38, 3, -2537516, 3585928, 531354);
  }

  lemma Tree39()
    ensures TreeOk(39, 3)
  {
    hide TreeOk;
    Node(156, 1, -3556995, -3632928, 269760); Node(157, 1, -525098, 3632928, 3866901);
    Node(78, 2, -3632928, 3915439, -3553272);
    Node(158, 1, -768622, 126922, 3523897); Node(159, 1, -3595838, -126922, -3038916);
    Node(79, 2, 126922, -3915439, 189548);
    Node(39, 3, 3915439, -3585928, 811944);
  }

  lemma Tree40()
    ensures TreeOk(40, 3)
  {
    hide TreeOk;
    Node(160, 1, 342297, 3412210, -1799107); Node(161, 1, 286988, -3412210, -3694233);
    Node(80, 2, 3412210, -3861115, -1316856);
    Node(162, 1, -2437823, -983419, 1652634); Node(163, 1, 4108315, 983419, 810149);
    Node(81, 2, -983419, 3861115, 759969);
    Node(40, 3, -3861115, -549488, 3699596);
  }

  lemma Tree41()
    ensures TreeOk(41, 3)
  {
    hide TreeOk;
    Node(164, 1, 3437287, 2147896, 3014001); Node(165, 1, -3342277, -2147896, 1616392);
    Node(82, 2, 2147896, -3043716, -210977);
    Node(166, 1, 1735879, 2715295, 162844); Node(167, 1, 203044, -2715295, -3183426);
    Node(83, 2, 2715295, 3043716, 2389356);
    Node(41, 3, -3043716, 549488, -1600420);
  }

  lemma Tree42()
    ensures TreeOk(42, 3)
  {
    hide TreeOk;
    Node(168, 1, 2842341, -2967645, -1207385); Node(169, 1, 2691481, 2967645, 185531);
    Node(84, 2, -2967645, 3574422, -3249728);
    Node(170, 1, -2590150, -3693493, 3369112); Node(171, 1, 1265009, 3693493, 1957272);
    Node(85, 2, -3693493, -3574422, 1653064);
    Node(42, 3, 3574422, -1119584, -2140649);
  }

  lemma Tree43()
    ensures TreeOk(43, 3)
  {
    hide TreeOk;
    Node(172, 1, 4055324, -411027, -164721); Node(173, 1, 1247620, 411027, 2454455);
    Node(86, 2, -411027, -2867647, -8578);
    Node(174, 1, 2486353, -2477047, 2432395); Node(175, 1, 1595974, 2477047, -2013608);
    Node(87, 2, -2477047, 2867647, -3724342);
    Node(43, 3, -2867647, 1119584, 3507263);
  }

  lemma Tree44()
    ensures TreeOk(44, 3)
  {
    hide TreeOk;
    Node(176, 1, -3767016, -671102, -3776993); Node(177, 1, 1250494, 671102, 594136);
    Node(88, 2, -671102, 3539968, 3958618);
    Node(178, 1, 2635921, -1228525, -3724270); Node(179, 1, -3548272, 1228525, -2584293);
    Node(89, 2, -1228525, -3539968, 904516);
    Node(44, 3, 3539968, 2619752, -3821735);
  }

  lemma Tree45()
    ensures TreeOk(45, 3)
  {
    hide TreeOk;
    Node(180, 1, -2994039, -22981, -1846953); Node(181, 1, 1869119, 22981, -1671176);
    Node(90, 2, -22981, -300467, -1100098);
    Node(182, 1, 1903435, -1308169, -2831860); Node(183, 1, -1050970, 1308169, -542412);
    Node(91, 2, -1308169, 300467, 44288);
    Node(45, 3, -300467, -2619752, 3505694);
  }

  lemma Tree46()
    ensures TreeOk(46, 3)
  {
    hide TreeOk;
    Node(184, 1, -1333058, -381987, 3406031); Node(185, 1, 1237275, 381987, 2235880);
    Node(92, 2, -381987, 2348700, 3097992);
    Node(186, 1, -3318210, 1349076, 777191); Node(187, 1, -1430225, -1349076, 1500165);
    Node(93, 2, 1349076, -2348700, 508951);
    Node(46, 3, 2348700, -2108549, -1643818);
  }

  lemma Tree47()
    ensures TreeOk(47, 3)
  {
    hide TreeOk;
    Node(188, 1, -451100, 1852771, -1374803); Node(189, 1, 1312455, -1852771, -2546312);
    Node(94, 2, 1852771, -539299, 264944);
    Node(190, 1, 3306115, -1430430, 1917081); Node(191, 1, -1962642, 1430430, -1279661);
    Node(95, 2, -1430430, 539299, -3343383);
    Node(47, 3, -539299, 2108549, -1699267);
  }

  lemma Tree48()
    ensures TreeOk(48, 3)
  {
    hide TreeOk;
    Node(192, 1, -1279661, -3343383, -1962642); Node(193, 1, 1917081, 3343383, 3306115);
    Node(96, 2, -3343383, -1699267, -1430430);
    Node(194, 1, -2546312, 264944, 1312455); Node(195, 1, -1374803, -264944, -451100);
    Node(97, 2, 264944, 1699267, 1852771);
    Node(48, 3, -1699267, -2118186, -539299);
  }

  lemma Tree49()
    ensures TreeOk(49, 3)
  {
    hide TreeOk;
    Node(196, 1, 1500165, 508951, -1430225); Node(197, 1, 777191, -508951, -3318210);
    Node(98, 2, 508951, -1643818, 1349076);
    Node(198, 1, 2235880, 3097992, 1237275); Node(199, 1, 3406031, -3097992, -1333058);
    Node(99, 2, 3097992, 1643818, -381987);
    Node(49, 3, -1643818, 2118186, 2348700);
  }

  lemma Tree50()
    ensures TreeOk(50, 3)
  {
    hide TreeOk;
    Node(200, 1, -542412, 44288, -1050970); Node(201, 1, -2831860, -44288, 1903435);
    Node(100, 2, 44288, 3505694, -1308169);
    Node(202, 1, -1671176, -1100098, 1869119); Node(203, 1, -1846953, 1100098, -2994039);
    Node(101, 2, -1100098, -3505694, -22981);
    Node(50, 3, 3505694, -3859737, -300467);
  }

  lemma Tree51()
    ensures TreeOk(51, 3)
  {
    hide TreeOk;
    Node(204, 1, -2584293, 904516, -3548272); Node(205, 1, -3724270, -904516, 2635921);
    Node(102, 2, 904516, -3821735, -1228525);
    Node(206, 1, 594136, 3958618, 1250494); Node(207, 1, -3776993, -3958618, -3767016);
    Node(103, 2, 3958618, 3821735, -671102);
    Node(51, 3, -3821735, 3859737, 3539968);
  }

  lemma Tree52()
    ensures TreeOk(52, 3)
  {
    hide TreeOk;
    Node(208, 1, -2013608, -3724342, 1595974); Node(209, 1, 2432395, 3724342, 2486353);
    Node(104, 2, -3724342, 3507263, -2477047);
    Node(210, 1, 2454455, -8578, 1247620); Node(211, 1, -164721, 8578, 4055324); Node(105, 2, -8578, -3507263, -411027);
    Node(52, 3, 3507263, -1399561, -2867647);
  }

  lemma Tree53()
    ensures TreeOk(53, 3)
  {
    hide TreeOk;
    Node(212, 1, 1957272, 1653064, 1265009); Node(213, 1, 3369112, -1653064, -2590150);
    Node(106, 2, 1653064, -2140649, -3693493);
    Node(214, 1, 185531, -3249728, 2691481); Node(215, 1, -1207385, 3249728, 2842341);
    Node(107, 2, -3249728, 2140649, -2967645);
    Node(53, 3, -2140649, 1399561, 3574422);
  }

  lemma Tree54()
    ensures TreeOk(54, 3)
  {
    hide TreeOk;
    Node(216, 1, -3183426, 2389356, 203044); Node(217, 1, 162844, -2389356, 1735879);
    Node(108, 2, 2389356, -1600420, 2715295);
    Node(218, 1, 1616392, -210977, -3342277); Node(219, 1, 3014001, 210977, 3437287);
    Node(109, 2, -210977, 1600420, 2147896);
    Node(54, 3, -1600420, -3277672, -3043716);
  }

  lemma Tree55()
    ensures TreeOk(55, 3)
  {
    hide TreeOk;
    Node(220, 1, 810149, 759969, 4108315); Node(221, 1, 1652634, -759969, -2437823);
    Node(110, 2, 759969, 3699596, -983419);
    Node(222, 1, -3694233, -1316856, 286988); Node(223, 1, -1799107, 1316856, 342297);
    Node(111, 2, -1316856, -3699596, 3412210);
    Node(55, 3, 3699596, 3277672, -3861115);
  }

  lemma Tree56()
    ensures TreeOk(56, 3)
  {
    hide TreeOk;
    Node(224, 1, -3038916, 189548, -3595838); Node(225, 1, 3523897, -189548, -768622);
    Node(112, 2, 189548, 811944, 126922);
    Node(226, 1, 3866901, -3553272, -525098); Node(227, 1, 269760, 3553272, -3556995);
    Node(113, 2, -3553272, -811944, -3632928);
    Node(56, 3, 811944, 1757237, 3915439);
  }

  lemma Tree57()
    ensures TreeOk(57, 3)
  {
    hide TreeOk;
    Node(228, 1, 2213111, 3159746, 3207046); Node(229, 1, -975884, -3159746, 2031748);
    Node(114, 2, 3159746, 531354, -3157330);
    Node(230, 1, 1717735, -1851402, -3122442); Node(231, 1, 472078, 1851402, -655327);
    Node(115, 2, -1851402, -531354, -3190144);
    Node(57, 3, 531354, -1757237, -2537516);
  }

  lemma Tree58()
    ensures TreeOk(58, 3)
  {
    hide TreeOk;
    Node(232, 1, -426683, -2409325, -522500); Node(233, 1, 1723600, 2409325, -43260);
    Node(116, 2, -2409325, 954230, -1000202);
    Node(234, 1, -1803090, -177440, -1613174); Node(235, 1, 1910376, 177440, 495491);
    Node(117, 2, -177440, -954230, -4083598);
    Node(58, 3, 954230, -19422, -3592148);
  }

  lemma Tree59()
    ensures TreeOk(59, 3)
  {
    hide TreeOk;
    Node(236, 1, -1667432, 1315589, 819034); Node(237, 1, -1104333, -1315589, 909542);
    Node(118, 2, 1315589, 3881043, 1939314);
    Node(238, 1, -260646, 1341330, 1859098); Node(239, 1, -3833893, -1341330, 900702);
    Node(119, 2, 1341330, -3881043, -1257611);
    Node(59, 3, 3881043, 19422, -1661693);
  }

  lemma Tree60()
    ensures TreeOk(60, 3)
  {
    hide TreeOk;
    Node(240, 1, -2939036, 1285669, -3193378); Node(241, 1, -2235985, -1285669, -1197226);
    Node(120, 2, 1285669, 3900724, -1585221);
    Node(242, 1, -420899, -1584928, -3759364); Node(243, 1, -2286327, 1584928, -3520352);
    Node(121, 2, -1584928, -3900724, 2176455);
    Node(60, 3, 3900724, 4010497, 3530437);
  }

  lemma Tree61()
    ensures TreeOk(61, 3)
  {
    hide TreeOk;
    Node(244, 1, 183443, -812732, 3513181); Node(245, 1, -976891, 812732, -1235728);
    Node(122, 2, -812732, -2556880, 3475950);
    Node(246, 1, 1612842, -1439742, 2434439); Node(247, 1, -3545687, 1439742, 266997);
    Node(123, 2, -1439742, 2556880, -1452451);
    Node(61, 3, -2556880, -4010497, 3077325);
  }

  lemma Tree62()
    ensures TreeOk(62, 3)
  {
    hide TreeOk;
    Node(248, 1, -554416, -3019102, -3562462); Node(249, 1, 3919660, 3019102, -2446433);
    Node(124, 2, -3019102, 2071892, -3041255);
    Node(250, 1, -48306, -3881060, 2244091); Node(251, 1, -1362209, 3881060, -3342478);
    Node(125, 2, -3881060, -2071892, -3677745);
    Node(62, 3, 2071892, 280005, 95776);
  }

  lemma Tree63()
    ensures TreeOk(63, 3)
  {
    hide TreeOk;
    Node(252, 1, 3937738, -3628969, 3817976); Node(253, 1, 1400424, 3628969, 2316500);
    Node(126, 2, -3628969, -2797779, -1528703);
    Node(254, 1, -846154, 3839961, 3407706); Node(255, 1, 1976782, -3839961, 2091667);
    Node(127, 2, 3839961, 2797779, -3930395);
    Node(63, 3, -2797779, -280005, 2706023);
  }

  lemma Tree8()
    ensures TreeOk(8, 5)
  {
    hide TreeOk;
    Tree32(); Tree33(); Tree34(); Tree35();
    Node(16, 4, 2725464, 1826347, 280005); Node(17, 4, 1024112, -1826347, 4010497);
    Node(8, 5, 1826347, 237124, 2680103);
  }

  lemma Tree9()
    ensures TreeOk(9, 5)
  {
    hide TreeOk;
    Tree36(); Tree37(); Tree38(); Tree39();
    Node(18, 4, -1079900, 2353451, -19422); Node(19, 4, 3585928, -2353451, 1757237);
    Node(9, 5, 2353451, -237124, 3111497);
  }

  lemma Tree10()
    ensures TreeOk(10, 5)
  {
    hide TreeOk;
    Tree40(); Tree41(); Tree42(); Tree43();
    Node(20, 4, -549488, -359251, -3277672); Node(21, 4, -1119584, 359251, -1399561);
    Node(10, 5, -359251, -777960, -2884855);
  }

  lemma Tree11()
    ensures TreeOk(11, 5)
  {
    hide TreeOk;
    Tree44(); Tree45(); Tree46(); Tree47();
    Node(22, 4, 2619752, -2091905, -3859737); Node(23, 4, -2108549, 2091905, -2118186);
    Node(11, 5, -2091905, 777960, 3119733);
  }

  lemma Tree12()
    ensures TreeOk(12, 5)
  {
    hide TreeOk;
    Tree48(); Tree49(); Tree50(); Tree51();
    Node(24, 4, -2118186, 3119733, -2108549); Node(25, 4, -3859737, -3119733, 2619752);
    Node(12, 5, 3119733, -876248, -2091905);
  }

  lemma Tree13()
    ensures TreeOk(13, 5)
  {
    hide TreeOk;
    Tree52(); Tree53(); Tree54(); Tree55();
    Node(26, 4, -1399561, -2884855, -1119584); Node(27, 4, -3277672, 2884855, -549488);
    Node(13, 5, -2884855, 876248, -359251);
  }

  lemma Tree14()
    ensures TreeOk(14, 5)
  {
    hide TreeOk;
    Tree56(); Tree57(); Tree58(); Tree59();
    Node(28, 4, 1757237, 3111497, 3585928); Node(29, 4, -19422, -3111497, -1079900);
    Node(14, 5, 3111497, 466468, 2353451);
  }

  lemma Tree15()
    ensures TreeOk(15, 5)
  {
    hide TreeOk;
    Tree60(); Tree61(); Tree62(); Tree63();
    Node(30, 4, 4010497, 2680103, 1024112); Node(31, 4, 280005, -2680103, 2725464);
    Node(15, 5, 2680103, -466468, 1826347);
  }

  lemma Tree()
    ensures TreeOk(1, 8)
  {
    hide TreeOk;
    Tree8(); Tree9(); Tree10(); Tree11(); Tree12(); Tree13(); Tree14(); Tree15();
    Node(4, 6, 237124, -2608894, 466468); Node(5, 6, -777960, 2608894, -876248); Node(6, 6, -876248, -518909, -777960);
    Node(7, 6, 466468, 518909, 237124); Node(2, 7, -2608894, 25847, -518909); Node(3, 7, -518909, -25847, -2608894);
    Node(1, 8, 25847, -R, 25847);
  }
}
