/** Which root is which: entry k of the table of mldsa_ntt.c is 1753 to the power of the bit reversal of k, so
    the transform lists the values of a polynomial in the order of section 7.5 of FIPS 204. */
module MldsaRoots {
  import opened Modular
  import opened NttAlgebra
  import opened BitReversal
  import opened MldsaReduce
  import opened MldsaZetas
  import opened MldsaNtt

  /** W(k) is the product of the entry of its highest bit and the entry of the other bits. */
  ghost predicate IsProduct(k: nat, t: nat)
    requires t <= k
  {
    Cong(W(k), W(t) * W(k - t), Q)
  }

  lemma Link(k: nat, t: nat, entry: int, top: int, rest: int, c: int)
    requires t <= k && Zeta(k) == entry && Zeta(t) == top && Zeta(k - t) == rest && entry * R == top * rest + c * Q
    ensures IsProduct(k, t)
  {
    hide Zeta, Cong;
    NoRemainder(top * rest - R * entry, -c);
    WithoutFactor(top, rest, entry);
    Sym(W(t) * W(k - t), W(k), Q);
  }

  lemma NoRemainder(x: int, c: int)
    requires x == c * Q
    ensures x % Q == 0
  {
  }

  lemma Entries3()
    ensures forall k :: 3 <= k < 4 ==> IsProduct(k, 2)
  {
    hide IsProduct;
    Link(3, 2, -518909, -2608894, 25847, -265933038);
  }

  lemma Entries5()
    ensures forall k :: 5 <= k < 8 ==> IsProduct(k, 4)
  {
    hide IsProduct;
    Link(5, 4, -777960, 237124, 25847, -398705564); Link(6, 4, -876248, 237124, -2608894, -449003656);
    Link(7, 4, 466468, 237124, -518909, 239079732);
  }

  lemma Entries9()
    ensures forall k :: 9 <= k < 16 ==> IsProduct(k, 8)
  {
    hide IsProduct;
    Link(9, 8, 2353451, 1826347, 25847, 1206139011); Link(10, 8, -359251, 1826347, -2608894, -183547734);
    Link(11, 8, -2091905, 1826347, -518909, -1071989121); Link(12, 8, 3119733, 1826347, 237124, 1598812820);
    Link(13, 8, -2884855, 1826347, -777960, -1478319880); Link(14, 8, 3111497, 1826347, -876248, 1594834504);
    Link(15, 8, 2680103, 1826347, 466468, 1373452276);
  }

  lemma Entries17()
    ensures forall k :: 17 <= k < 24 ==> IsProduct(k, 16)
  {
    hide IsProduct;
    Link(17, 16, 1024112, 2725464, 25847, 524849432); Link(18, 16, -1079900, 2725464, -2608894, -552600752);
    Link(19, 16, 3585928, 2725464, -518909, 1837958392); Link(20, 16, -549488, 2725464, 237124, -281689952);
    Link(21, 16, -1119584, 2725464, -777960, -573534272); Link(22, 16, 2619752, 2725464, -876248, 1342908992);
    Link(23, 16, -2108549, 2725464, 466468, -1080783968);
  }

  lemma Entries24()
    ensures forall k :: 24 <= k < 32 ==> IsProduct(k, 16)
  {
    hide IsProduct;
    Link(24, 16, -2118186, 2725464, 1826347, -1086165192); Link(25, 16, -3859737, 2725464, 2353451, -1978882248);
    Link(26, 16, -1399561, 2725464, -359251, -717158776); Link(27, 16, -3277672, 2725464, -2091905, -1679127976);
    Link(28, 16, 1757237, 2725464, 3119733, 899570120); Link(29, 16, -19422, 2725464, -2884855, -9015576);
    Link(30, 16, 4010497, 2725464, 3111497, 2054369512); Link(31, 16, 280005, 2725464, 2680103, 142631064);
  }

  lemma Entries33()
    ensures forall k :: 33 <= k < 40 ==> IsProduct(k, 32)
  {
    hide IsProduct;
    Link(33, 32, 95776, 2706023, 25847, 49076895); Link(34, 32, 3077325, 2706023, -2608894, 1577972786);
    Link(35, 32, 3530437, 2706023, -518909, 1809518027); Link(36, 32, -1661693, 2706023, 237124, -851694940);
    Link(37, 32, -3592148, 2706023, -777960, -1840726184); Link(38, 32, -2537516, 2706023, -876248, -1300195096);
    Link(39, 32, 3915439, 2706023, 466468, 2006513540);
  }

  lemma Entries40()
    ensures forall k :: 40 <= k < 48 ==> IsProduct(k, 32)
  {
    hide IsProduct;
    Link(40, 32, -3861115, 2706023, 1826347, -1979412813); Link(41, 32, -3043716, 2706023, 2353451, -1560665677);
    Link(42, 32, 3574422, 2706023, -359251, 1832008805); Link(43, 32, -2867647, 2706023, -2091905, -1468994841);
    Link(44, 32, 3539968, 2706023, 3119733, 1813227757); Link(45, 32, -300467, 2706023, -2884855, -153057951);
    Link(46, 32, 2348700, 2706023, 3111497, 1202705057); Link(47, 32, -539299, 2706023, 2680103, -277256369);
  }

  lemma Entries48()
    ensures forall k :: 48 <= k < 56 ==> IsProduct(k, 32)
  {
    hide IsProduct;
    Link(48, 32, -1699267, 2706023, 2725464, -871755112); Link(49, 32, -1643818, 2706023, 1024112, -842788112);
    Link(50, 32, 3505694, 2706023, -1079900, 1797018372); Link(51, 32, -3821735, 2706023, 3585928, -1959798712);
    Link(52, 32, 3507263, 2706023, -549488, 1797651216); Link(53, 32, -2140649, 2706023, -1119584, -1096722016);
    Link(54, 32, -1600420, 2706023, 2619752, -821061848); Link(55, 32, 3699596, 2706023, -2108549, 1896725379);
  }

  lemma Entries56()
    ensures forall k :: 56 <= k < 64 ==> IsProduct(k, 32)
  {
    hide IsProduct;
    Link(56, 32, 811944, 2706023, -2118186, 416805606); Link(57, 32, 531354, 2706023, -3859737, 273565455);
    Link(58, 32, 954230, 2706023, -1399561, 489495199); Link(59, 32, 3881043, 2706023, -3277672, 1990094552);
    Link(60, 32, 3900724, 2706023, 1757237, 1998555309); Link(61, 32, -2556880, 2706023, -19422, -1310395822);
    Link(62, 32, 2071892, 2706023, 4010497, 1060550553); Link(63, 32, -2797779, 2706023, 280005, -1433953347);
  }

  lemma Entries65()
    ensures forall k :: 65 <= k < 72 ==> IsProduct(k, 64)
  {
    hide IsProduct;
    Link(65, 64, -1528703, -3930395, 25847, -783448819); Link(66, 64, -3677745, -3930395, -2608894, -1886069450);
    Link(67, 64, -3041255, -3930395, -518909, -1558887855); Link(68, 64, -1452451, -3930395, 237124, -744270548);
    Link(69, 64, 3475950, -3930395, -777960, 1781061000); Link(70, 64, 2176455, -3930395, -876248, 1115023160);
    Link(71, 64, -1585221, -3930395, 466468, -812207668);
  }

  lemma Entries72()
    ensures forall k :: 72 <= k < 80 ==> IsProduct(k, 64)
  {
    hide IsProduct;
    Link(72, 64, -1257611, -3930395, 1826347, -643669623); Link(73, 64, 1939314, -3930395, 2353451, 995003017);
    Link(74, 64, -4083598, -3930395, -359251, -2093014209); Link(75, 64, -1000202, -3930395, -2091905, -513585051);
    Link(76, 64, -3190144, -3930395, 3119733, -1633487017); Link(77, 64, -3157330, -3930395, -2884855, -1619485965);
    Link(78, 64, -3632928, -3930395, 3111497, -1860417869); Link(79, 64, 126922, -3930395, 2680103, 66304541);
  }

  lemma Entries80()
    ensures forall k :: 80 <= k < 88 ==> IsProduct(k, 64)
  {
    hide IsProduct;
    Link(80, 64, 3412210, -3930395, 2725464, 1750037320); Link(81, 64, -983419, -3930395, 1024112, -503522352);
    Link(82, 64, 2147896, -3930395, -1079900, 1100291148); Link(83, 64, 2715295, -3930395, 3585928, 1393271640);
    Link(84, 64, -2967645, -3930395, -549488, -1521177040); Link(85, 64, -3693493, -3930395, -1119584, -1893441824);
    Link(86, 64, -411027, -3930395, 2619752, -209422856); Link(87, 64, -2477047, -3930395, -2108549, -1270476551);
  }

  lemma Entries88()
    ensures forall k :: 88 <= k < 96 ==> IsProduct(k, 64)
  {
    hide IsProduct;
    Link(88, 64, -671102, -3930395, -2118186, -344933486); Link(89, 64, -1228525, -3930395, -3859737, -631429795);
    Link(90, 64, -22981, -3930395, -1399561, -12434163); Link(91, 64, -1308169, -3930395, -3277672, -671974392);
    Link(92, 64, -381987, -3930395, 1757237, -194944361); Link(93, 64, 1349076, -3930395, -19422, 691392918);
    Link(94, 64, 1852771, -3930395, 4010497, 951426843); Link(95, 64, -1430430, -3930395, 280005, -732964665);
  }

  lemma Entries96()
    ensures forall k :: 96 <= k < 104 ==> IsProduct(k, 64)
  {
    hide IsProduct;
    Link(96, 64, -3343383, -3930395, 2706023, -1712216099); Link(97, 64, 264944, -3930395, 95776, 135828832);
    Link(98, 64, 508951, -3930395, 3077325, 262280863); Link(99, 64, 3097992, -3930395, 3530437, 1589377991);
    Link(100, 64, 44288, -3930395, -1661693, 21918289); Link(101, 64, -1100098, -3930395, -3592148, -565485404);
    Link(102, 64, 904516, -3930395, -2537516, 462374748); Link(103, 64, 3958618, -3930395, 3915439, 2030629749);
  }

  lemma Entries104()
    ensures forall k :: 104 <= k < 112 ==> IsProduct(k, 64)
  {
    hide IsProduct;
    Link(104, 64, -3724342, -3930395, -3861115, -1910537721); Link(105, 64, -8578, -3930395, -3043716, -5823724);
    Link(106, 64, 1653064, -3930395, 3574422, 848872402); Link(107, 64, -3249728, -3930395, -2867647, -1666831909);
    Link(108, 64, 2389356, -3930395, 3539968, 1226206208); Link(109, 64, -210977, -3930395, -300467, -108266721);
    Link(110, 64, 759969, -3930395, 2348700, 390585972); Link(111, 64, -1316856, -3930395, -539299, -675142193);
  }

  lemma Entries112()
    ensures forall k :: 112 <= k < 120 ==> IsProduct(k, 64)
  {
    hide IsProduct;
    Link(112, 64, 189548, -3930395, -1699267, 96346479); Link(113, 64, -3553272, -3930395, -1643818, -1821824366);
    Link(114, 64, 3159746, -3930395, 3505694, 1621015338); Link(115, 64, -1851402, -3930395, -3821735, -950636701);
    Link(116, 64, -2409325, -3930395, 3507263, -1233135195); Link(117, 64, -177440, -3930395, -2140649, -91942035);
    Link(118, 64, 1315589, -3930395, -1600420, 673489332); Link(119, 64, 1341330, -3930395, 3699596, 689167300);
  }

  lemma Entries120()
    ensures forall k :: 120 <= k < 128 ==> IsProduct(k, 64)
  {
    hide IsProduct;
    Link(120, 64, 1285669, -3930395, 811944, 659286712); Link(121, 64, -1584928, -3930395, 531354, -812027074);
    Link(122, 64, -812732, -3930395, 954230, -416077966); Link(123, 64, -1439742, -3930395, 3881043, -736048191);
    Link(124, 64, -3019102, -3930395, 3900724, -1545461636); Link(125, 64, -3881060, -3930395, -2556880, -1990244080);
    Link(126, 64, -3628969, -3930395, 2071892, -1858876452); Link(127, 64, 3839961, -3930395, -2797779, 1966669503);
  }

  lemma Entries129()
    ensures forall k :: 129 <= k < 136 ==> IsProduct(k, 128)
  {
    hide IsProduct;
    Link(129, 128, 3407706, 2091667, 25847, 1746444331); Link(130, 128, 2316500, 2091667, -2608894, 1187858394);
    Link(131, 128, 3817976, 2091667, -518909, 1956843847); Link(132, 128, -3342478, 2091667, 237124, -1713080588);
    Link(133, 128, 2244091, 2091667, -777960, 1150291768); Link(134, 128, -2446433, 2091667, -876248, -1253579256);
    Link(135, 128, -3562462, 2091667, 466468, -1825879724);
  }

  lemma Entries136()
    ensures forall k :: 136 <= k < 144 ==> IsProduct(k, 128)
  {
    hide IsProduct;
    Link(136, 128, 266997, 2091667, 1826347, 136380239); Link(137, 128, 2434439, 2091667, 2353451, 1247063631);
    Link(138, 128, -1235728, 2091667, -359251, -633221463); Link(139, 128, 3513181, 2091667, -2091905, 1801028883);
    Link(140, 128, -3520352, 2091667, 3119733, -1804960559); Link(141, 128, -3759364, 2091667, -2884855, -1925955627);
    Link(142, 128, -1197226, 2091667, 3111497, -614355435); Link(143, 128, -3193378, 2091667, 2680103, -1637276517);
  }

  lemma Entries144()
    ensures forall k :: 144 <= k < 152 ==> IsProduct(k, 128)
  {
    hide IsProduct;
    Link(144, 128, 900702, 2091667, 2725464, 460929912); Link(145, 128, 1859098, 2091667, 1024112, 952532912);
    Link(146, 128, 909542, 2091667, -1079900, 466410196); Link(147, 128, 819034, 2091667, 3585928, 418860264);
    Link(148, 128, 495491, 2091667, -549488, 254076496); Link(149, 128, -1613174, 2091667, -1119584, -826472928);
    Link(150, 128, -43260, 2091667, 2619752, -22824632); Link(151, 128, -522500, 2091667, -2108549, -267255201);
  }

  lemma Entries152()
    ensures forall k :: 152 <= k < 160 ==> IsProduct(k, 128)
  {
    hide IsProduct;
    Link(152, 128, -655327, 2091667, -2118186, -335326690); Link(153, 128, -3122442, 2091667, -3859737, -1599289509);
    Link(154, 128, 2031748, 2091667, -1399561, 1041621035); Link(155, 128, 3207046, 2091667, -3277672, 1644430520);
    Link(156, 128, -3556995, 2091667, 1757237, -1823400047); Link(157, 128, -525098, 2091667, -19422, -269108102);
    Link(158, 128, -768622, 2091667, 4010497, -394920083); Link(159, 128, -3595838, 2091667, 280005, -1842938399);
  }

  lemma Entries160()
    ensures forall k :: 160 <= k < 168 ==> IsProduct(k, 128)
  {
    hide IsProduct;
    Link(160, 128, 342297, 2091667, 2706023, 174751963); Link(161, 128, 286988, 2091667, 95776, 147057568);
    Link(162, 128, -2437823, 2091667, 3077325, -1250153399); Link(163, 128, 4108315, 2091667, 3530437, 2104632033);
    Link(164, 128, 3437287, 2091667, -1661693, 1762025799); Link(165, 128, -3342277, 2091667, -3592148, -1712021828);
    Link(166, 128, 1735879, 2091667, -2537516, 890272068); Link(167, 128, 203044, 2091667, 3915439, 103082883);
  }

  lemma Entries168()
    ensures forall k :: 168 <= k < 176 ==> IsProduct(k, 128)
  {
    hide IsProduct;
    Link(168, 128, 2842341, 2091667, -3861115, 1457664673); Link(169, 128, 2691481, 2091667, -3043716, 1380144844);
    Link(170, 128, -2590150, 2091667, 3574422, -1328345122); Link(171, 128, 1265009, 2091667, -2867647, 649033389);
    Link(172, 128, 4055324, 2091667, 3539968, 2077471744); Link(173, 128, 1247620, 2091667, -300467, 639480777);
    Link(174, 128, 2486353, 2091667, 2348700, 1273670764); Link(175, 128, 1595974, 2091667, -539299, 818071961);
  }

  lemma Entries176()
    ensures forall k :: 176 <= k < 184 ==> IsProduct(k, 128)
  {
    hide IsProduct;
    Link(176, 128, -3767016, 2091667, -1699267, -1930173191); Link(177, 128, 1250494, 2091667, -1643818, 641288990);
    Link(178, 128, 2635921, 2091667, 3505694, 1350035654); Link(179, 128, -3548272, 2091667, -3821735, -1817537051);
    Link(180, 128, -2994039, 2091667, 3507263, -1535321645); Link(181, 128, 1869119, 2091667, -2140649, 958458571);
    Link(182, 128, 1903435, 2091667, -1600420, 975910700); Link(183, 128, -1050970, 2091667, 3699596, -539545956);
  }

  lemma Entries184()
    ensures forall k :: 184 <= k < 192 ==> IsProduct(k, 128)
  {
    hide IsProduct;
    Link(184, 128, -1333058, 2091667, 811944, -683395448); Link(185, 128, 1237275, 2091667, 531354, 633971346);
    Link(186, 128, -3318210, 2091667, 954230, -1700822210); Link(187, 128, -1430225, 2091667, 3881043, -733959593);
    Link(188, 128, -451100, 2091667, 3900724, -232162524); Link(189, 128, 1312455, 2091667, -2556880, 673271920);
    Link(190, 128, 3306115, 2091667, 2071892, 1693868228); Link(191, 128, -1962642, 2091667, -2797779, -1005156567);
  }

  lemma Entries192()
    ensures forall k :: 192 <= k < 200 ==> IsProduct(k, 128)
  {
    hide IsProduct;
    Link(192, 128, -1279661, 2091667, -3930395, -654845823); Link(193, 128, 1917081, 2091667, -1528703, 982886381);
    Link(194, 128, -2546312, 2091667, -3677745, -1304068061); Link(195, 128, -1374803, 2091667, -3041255, -703828059);
    Link(196, 128, 1500165, 2091667, -1452451, 769197721); Link(197, 128, 777191, 2091667, 3475950, 397443158);
    Link(198, 128, 2235880, 2091667, 2176455, 1145346235); Link(199, 128, 3406031, 2091667, -1585221, 1745987999);
  }

  lemma Entries200()
    ensures forall k :: 200 <= k < 208 ==> IsProduct(k, 128)
  {
    hide IsProduct;
    Link(200, 128, -542412, 2091667, -1257611, -277672495); Link(201, 128, -2831860, 2091667, 1939314, -1451813494);
    Link(202, 128, -1671176, 2091667, -4083598, -855459190); Link(203, 128, -1846953, 2091667, -1000202, -946314562);
    Link(204, 128, -2584293, 2091667, -3190144, -1323655040);
    Link(205, 128, -3724270, 2091667, -3157330, -1907901930); Link(206, 128, 594136, 2091667, -3632928, 305401696);
    Link(207, 128, -3776993, 2091667, 126922, -1935742206);
  }

  lemma Entries208()
    ensures forall k :: 208 <= k < 216 ==> IsProduct(k, 128)
  {
    hide IsProduct;
    Link(208, 128, -2013608, 2091667, 3412210, -1032826614); Link(209, 128, 2432395, 2091667, -983419, 1246848929);
    Link(210, 128, 2454455, 2091667, 2147896, 1257373144); Link(211, 128, -164721, 2091667, 2715295, -85097293);
    Link(212, 128, 1957272, 2091667, -2967645, 1003843431); Link(213, 128, 3369112, 2091667, -3693493, 1727593199);
    Link(214, 128, 185531, 2091667, -411027, 95187305); Link(215, 128, -1207385, 2091667, -2477047, -618167083);
  }

  lemma Entries216()
    ensures forall k :: 216 <= k < 224 ==> IsProduct(k, 128)
  {
    hide IsProduct;
    Link(216, 128, -3183426, 2091667, -671102, -1631339686); Link(217, 128, 162844, 2091667, -1228525, 83764247);
    Link(218, 128, 1616392, 2091667, -22981, 828407327); Link(219, 128, 3014001, 2091667, -1308169, 1545003307);
    Link(220, 128, 810149, 2091667, -381987, 415297049); Link(221, 128, 1652634, 2091667, 1349076, 846638916);
    Link(222, 128, -3694233, 2091667, 1852771, -1893758425); Link(223, 128, -1799107, 2091667, -1430430, -921686086);
  }

  lemma Entries224()
    ensures forall k :: 224 <= k < 232 ==> IsProduct(k, 128)
  {
    hide IsProduct;
    Link(224, 128, -3038916, 2091667, -3343383, -1556611275); Link(225, 128, 3523897, 2091667, 264944, 1805932592);
    Link(226, 128, 3866901, 2091667, 508951, 1981661387); Link(227, 128, 269760, 2091667, 3097992, 137478888);
    Link(228, 128, 2213111, 2091667, 44288, 1134209280); Link(229, 128, -975884, 2091667, -1100098, -499866394);
    Link(230, 128, 1717735, 2091667, 904516, 880114164); Link(231, 128, 472078, 2091667, 3958618, 240952146);
  }

  lemma Entries232()
    ensures forall k :: 232 <= k < 240 ==> IsProduct(k, 128)
  {
    hide IsProduct;
    Link(232, 128, -426683, 2091667, -3724342, -217745662); Link(233, 128, 1723600, 2091667, -8578, 883347878);
    Link(234, 128, -1803090, 2091667, 1653064, -924496984); Link(235, 128, 1910376, 2091667, -3249728, 979879616);
    Link(236, 128, -1667432, 2091667, 2389356, -855155972); Link(237, 128, -1104333, 2091667, -210977, -565918477);
    Link(238, 128, -260646, 2091667, 759969, -133770867); Link(239, 128, -3833893, 2091667, -1316856, -1964543128);
  }

  lemma Entries240()
    ensures forall k :: 240 <= k < 248 ==> IsProduct(k, 128)
  {
    hide IsProduct;
    Link(240, 128, -2939036, 2091667, 189548, -1506304516); Link(241, 128, -2235985, 2091667, -3553272, -1145056408);
    Link(242, 128, -420899, 2091667, 3159746, -216499558); Link(243, 128, -2286327, 2091667, -1851402, -1171281474);
    Link(244, 128, 183443, 2091667, -2409325, 94615959); Link(245, 128, -976891, 2091667, -177440, -500612768);
    Link(246, 128, 1612842, 2091667, 1315589, 826253857); Link(247, 128, -3545687, 2091667, 1341330, -1817500886);
  }

  lemma Entries248()
    ensures forall k :: 248 <= k < 256 ==> IsProduct(k, 128)
  {
    hide IsProduct;
    Link(248, 128, -554416, 2091667, 1285669, -284459327); Link(249, 128, 3919660, 2091667, -1584928, 2009223008);
    Link(250, 128, -48306, 2091667, -812732, -24553996); Link(251, 128, -1362209, 2091667, -1439742, -697773350);
    Link(252, 128, 3937738, 2091667, -3019102, 2018845946); Link(253, 128, 1400424, 2091667, -3881060, 718686572);
    Link(254, 128, -846154, 2091667, -3628969, -432748533); Link(255, 128, 1976782, 2091667, 3839961, 1012143205);
  }

  lemma Level2(k: nat)
    requires 2 < k < 4
    ensures IsProduct(k, 2)
  {
    hide IsProduct;
    Entries3();
  }

  lemma Level4(k: nat)
    requires 4 < k < 8
    ensures IsProduct(k, 4)
  {
    hide IsProduct;
    Entries5();
  }

  lemma Level8(k: nat)
    requires 8 < k < 16
    ensures IsProduct(k, 8)
  {
    hide IsProduct;
    Entries9();
  }

  lemma Level16(k: nat)
    requires 16 < k < 32
    ensures IsProduct(k, 16)
  {
    hide IsProduct;
    Entries17();
    Entries24();
  }

  lemma Level32(k: nat)
    requires 32 < k < 64
    ensures IsProduct(k, 32)
  {
    hide IsProduct;
    Entries33();
    Entries40();
    Entries48();
    Entries56();
  }

  lemma Level64(k: nat)
    requires 64 < k < 128
    ensures IsProduct(k, 64)
  {
    hide IsProduct;
    Entries65();
    Entries72();
    Entries80();
    Entries88();
    Entries96();
    Entries104();
    Entries112();
    Entries120();
  }

  lemma Level128(k: nat)
    requires 128 < k < 256
    ensures IsProduct(k, 128)
  {
    hide IsProduct;
    Entries129();
    Entries136();
    Entries144();
    Entries152();
    Entries160();
    Entries168();
    Entries176();
    Entries184();
    Entries192();
    Entries200();
    Entries208();
    Entries216();
    Entries224();
    Entries232();
    Entries240();
    Entries248();
  }

  lemma Split(k: nat, t: nat)
    requires t < k < 2 * t && t in {2, 4, 8, 16, 32, 64, 128}
    ensures IsProduct(k, t)
  {
    hide IsProduct;
    if 2 < k < 4 { Level2(k); }
    if 4 < k < 8 { Level4(k); }
    if 8 < k < 16 { Level8(k); }
    if 16 < k < 32 { Level16(k); }
    if 32 < k < 64 { Level32(k); }
    if 64 < k < 128 { Level64(k); }
    if 128 < k < 256 { Level128(k); }
  }

  // ----- the tops of the levels

  lemma Tops()
    ensures Cong(W(128), Power(1753, 1), Q)
    ensures Cong(W(64), Power(1753, 2), Q)
    ensures Cong(W(32), Power(1753, 4), Q)
    ensures Cong(W(16), Power(1753, 8), Q)
    ensures Cong(W(8), Power(1753, 16), Q)
    ensures Cong(W(4), Power(1753, 32), Q)
    ensures Cong(W(2), Power(1753, 64), Q)
    ensures Cong(W(1), Power(1753, 128), Q)
  {
    hide Power;
    FirstPower(1753);
    FromRemainder(W(128), 1753, Q);
    FromRemainder(W(64), W(128) * W(128), Q);
    PowerTwice(W(64), W(128), 1753, 1, Q);
    FromRemainder(W(32), W(64) * W(64), Q);
    PowerTwice(W(32), W(64), 1753, 2, Q);
    FromRemainder(W(16), W(32) * W(32), Q);
    PowerTwice(W(16), W(32), 1753, 4, Q);
    FromRemainder(W(8), W(16) * W(16), Q);
    PowerTwice(W(8), W(16), 1753, 8, Q);
    FromRemainder(W(4), W(8) * W(8), Q);
    PowerTwice(W(4), W(8), 1753, 16, Q);
    FromRemainder(W(2), W(4) * W(4), Q);
    PowerTwice(W(2), W(4), 1753, 32, Q);
    FromRemainder(W(1), W(2) * W(2), Q);
    PowerTwice(W(1), W(2), 1753, 64, Q);
  }

  lemma LevelOf(k: nat) returns (l: nat)
    requires 1 <= k < 256
    ensures l < 8 && Pow2(l) <= k < 2 * Pow2(l) && Pow2(l) in {1, 2, 4, 8, 16, 32, 64, 128}
    ensures Cong(W(Pow2(l)), Power(1753, Pow2(7 - l)), Q)
  {
    hide Power, Pow2, W, Cong;
    PowersOfTwo();
    Tops();
    l := if k < 2 then 0 else if k < 4 then 1 else if k < 8 then 2 else if k < 16 then 3 else if k < 32 then 4
         else if k < 64 then 5 else if k < 128 then 6 else 7;
  }

  /** Entry k of the table is the root to the power of k with its bits reversed. */
  lemma {:induction false} EntryIsPower(k: nat)
    requires 1 <= k < 256
    ensures Cong(W(k), Power(1753, Rev(8, k)), Q)
    decreases k
  {
    hide W, Power, Rev, Cong, Pow2;
    var l := LevelOf(k);
    var t := Pow2(l);
    RevTop(8, l, k);
    if k == t {
      RevZero(8);
    } else {
      Split(k, t);
      EntryIsPower(k - t);
      PowersMultiply(W(k), W(t), W(k - t), 1753, Pow2(7 - l), Rev(8, k - t), Q);
    }
  }

  lemma MinusOne()
    ensures Cong(-1, Power(1753, 256), Q)
  {
    hide Power;
    Tops();
    FromRemainder(-1, W(1) * W(1), Q);
    PowerTwice(-1, W(1), 1753, 128, Q);
  }

  /** The roots of X^256 + 1 in the order of the transform. */
  lemma LeafIsPower(i: nat)
    requires i < 256
    ensures Cong(Root(W, 256 + i), Power(1753, 2 * Rev(8, i) + 1), Q)
  {
    hide W, Power, Cong, Pow2, Rev;
    PowersOfTwo();
    var j := i / 2;
    EntryIsPower(128 + j);
    RevTop(8, 7, 128 + j);
    RevLonger(7, j);
    RevOfHalf(8, i);
    assert (256 + i) / 2 == 128 + j && (256 + i) % 2 == i % 2;
    if i % 2 == 1 {
      MinusOne();
      Negated(W(128 + j));
      PowersMultiply(-W(128 + j), -1, W(128 + j), 1753, 256, Rev(8, 128 + j), Q);
    }
  }

  lemma Negated(w: int)
    ensures Cong(-w, -1 * w, Q)
  {
    Refl(-w, Q);
  }

  /** Value i of the transform is the value of the polynomial at 1753 to the power of 2 * BitRev8(i) + 1. */
  lemma HatIsEvaluation(a: seq<int>, i: nat)
    requires |a| == 256 && i < 256
    ensures Cong(Hat(a)[i], Eval(a, Power(1753, 2 * Rev(8, i) + 1)), Q)
  {
    hide W, Power, Cong, Pow2, Rev, Fwd, Eval, Root, SquareRoots, Inverses, Leaf;
    PowersOfTwo();
    Tree();
    FwdEval(W, a, 1, 8, i, Q);
    LeafNumber(1, 8, i);
    ProdIs(1, 256);
    LeafIsPower(i);
    EvalCong(a, Root(W, 256 + i), Power(1753, 2 * Rev(8, i) + 1), Q);
    Trans(Hat(a)[i], Eval(a, Root(W, 256 + i)), Eval(a, Power(1753, 2 * Rev(8, i) + 1)), Q);
  }
}
