/** The permuted root tables of tools/pqc/mldsa/rvv_poly.c: sixteen groups of sixteen words. */
module MldsaVectorTables {
  import opened MldsaZetas
  import opened RootTables

  function RvvZeta(k: int): (r: int) {
    if k < 128 then
      if k < 64 then
        if k < 32 then
          if k < 16 then
            if k < 8 then
              Lane(k - 0, 2091667, 3407706, 2316500, 3817976, -3342478, 2244091, -2446433, -3562462)
            else
              Lane(k - 8, 2725464, 2706023, 95776, -3930395, -1528703, -3677745, -3041255, 0)
          else
            if k < 24 then
              Lane(k - 16, 266997, 2434439, -1235728, 3513181, -3520352, -3759364, -1197226, -3193378)
            else
              Lane(k - 24, 1024112, 3077325, 3530437, -1452451, 3475950, 2176455, -1585221, 25847)
        else
          if k < 48 then
            if k < 40 then
              Lane(k - 32, 900702, 1859098, 909542, 819034, 495491, -1613174, -43260, -522500)
            else
              Lane(k - 40, -1079900, -1661693, -3592148, -1257611, 1939314, -4083598, -1000202, -2608894)
          else
            if k < 56 then
              Lane(k - 48, -655327, -3122442, 2031748, 3207046, -3556995, -525098, -768622, -3595838)
            else
              Lane(k - 56, 3585928, -2537516, 3915439, -3190144, -3157330, -3632928, 126922, -518909)
      else
        if k < 96 then
          if k < 80 then
            if k < 72 then
              Lane(k - 64, 342297, 286988, -2437823, 4108315, 3437287, -3342277, 1735879, 203044)
            else
              Lane(k - 72, -549488, -3861115, -3043716, 3412210, -983419, 2147896, 2715295, 237124)
          else
            if k < 88 then
              Lane(k - 80, 2842341, 2691481, -2590150, 1265009, 4055324, 1247620, 2486353, 1595974)
            else
              Lane(k - 88, -1119584, 3574422, -2867647, -2967645, -3693493, -411027, -2477047, -777960)
        else
          if k < 112 then
            if k < 104 then
              Lane(k - 96, -3767016, 1250494, 2635921, -3548272, -2994039, 1869119, 1903435, -1050970)
            else
              Lane(k - 104, 2619752, 3539968, -300467, -671102, -1228525, -22981, -1308169, -876248)
          else
            if k < 120 then
              Lane(k - 112, -1333058, 1237275, -3318210, -1430225, -451100, 1312455, 3306115, -1962642)
            else
              Lane(k - 120, -2108549, 2348700, -539299, -381987, 1349076, 1852771, -1430430, 466468)
    else
      if k < 192 then
        if k < 160 then
          if k < 144 then
            if k < 136 then
              Lane(k - 128, -1279661, 1917081, -2546312, -1374803, 1500165, 777191, 2235880, 3406031)
            else
              Lane(k - 136, -2118186, -1699267, -1643818, -3343383, 264944, 508951, 3097992, 1826347)
          else
            if k < 152 then
              Lane(k - 144, -542412, -2831860, -1671176, -1846953, -2584293, -3724270, 594136, -3776993)
            else
              Lane(k - 152, -3859737, 3505694, -3821735, 44288, -1100098, 904516, 3958618, 2353451)
        else
          if k < 176 then
            if k < 168 then
              Lane(k - 160, -2013608, 2432395, 2454455, -164721, 1957272, 3369112, 185531, -1207385)
            else
              Lane(k - 168, -1399561, 3507263, -2140649, -3724342, -8578, 1653064, -3249728, -359251)
          else
            if k < 184 then
              Lane(k - 176, -3183426, 162844, 1616392, 3014001, 810149, 1652634, -3694233, -1799107)
            else
              Lane(k - 184, -3277672, -1600420, 3699596, 2389356, -210977, 759969, -1316856, -2091905)
      else
        if k < 224 then
          if k < 208 then
            if k < 200 then
              Lane(k - 192, -3038916, 3523897, 3866901, 269760, 2213111, -975884, 1717735, 472078)
            else
              Lane(k - 200, 1757237, 811944, 531354, 189548, -3553272, 3159746, -1851402, 3119733)
          else
            if k < 216 then
              Lane(k - 208, -426683, 1723600, -1803090, 1910376, -1667432, -1104333, -260646, -3833893)
            else
              Lane(k - 216, -19422, 954230, 3881043, -2409325, -177440, 1315589, 1341330, -2884855)
        else
          if k < 240 then
            if k < 232 then
              Lane(k - 224, -2939036, -2235985, -420899, -2286327, 183443, -976891, 1612842, -3545687)
            else
              Lane(k - 232, 4010497, 3900724, -2556880, 1285669, -1584928, -812732, -1439742, 3111497)
          else
            if k < 248 then
              Lane(k - 240, -554416, 3919660, -48306, -1362209, 3937738, 1400424, -846154, 1976782)
            else
              Lane(k - 248, 280005, 2071892, -2797779, -3019102, -3881060, -3628969, 3839961, 2680103)
  }

  function RvvIzeta(k: int): (r: int) {
    if k < 128 then
      if k < 64 then
        if k < 32 then
          if k < 16 then
            if k < 8 then
              Lane(k - 0, -1976782, 846154, -1400424, -3937738, 1362209, 48306, -3919660, 554416)
            else
              Lane(k - 8, -280005, 2797779, -2071892, -3839961, 3628969, 3881060, 3019102, 0)
          else
            if k < 24 then
              Lane(k - 16, 3545687, -1612842, 976891, -183443, 2286327, 420899, 2235985, 2939036)
            else
              Lane(k - 24, -4010497, 2556880, -3900724, 1439742, 812732, 1584928, -1285669, 0)
        else
          if k < 48 then
            if k < 40 then
              Lane(k - 32, 3833893, 260646, 1104333, 1667432, -1910376, 1803090, -1723600, 426683)
            else
              Lane(k - 40, 19422, -3881043, -954230, -1341330, -1315589, 177440, 2409325, 0)
          else
            if k < 56 then
              Lane(k - 48, -472078, -1717735, 975884, -2213111, -269760, -3866901, -3523897, 3038916)
            else
              Lane(k - 56, -1757237, -531354, -811944, 1851402, -3159746, 3553272, -189548, 0)
      else
        if k < 96 then
          if k < 80 then
            if k < 72 then
              Lane(k - 64, 1799107, 3694233, -1652634, -810149, -3014001, -1616392, -162844, 3183426)
            else
              Lane(k - 72, 3277672, -3699596, 1600420, 1316856, -759969, 210977, -2389356, 0)
          else
            if k < 88 then
              Lane(k - 80, 1207385, -185531, -3369112, -1957272, 164721, -2454455, -2432395, 2013608)
            else
              Lane(k - 88, 1399561, 2140649, -3507263, 3249728, -1653064, 8578, 3724342, 0)
        else
          if k < 112 then
            if k < 104 then
              Lane(k - 96, 3776993, -594136, 3724270, 2584293, 1846953, 1671176, 2831860, 542412)
            else
              Lane(k - 104, 3859737, 3821735, -3505694, -3958618, -904516, 1100098, -44288, 0)
          else
            if k < 120 then
              Lane(k - 112, -3406031, -2235880, -777191, -1500165, 1374803, 2546312, -1917081, 1279661)
            else
              Lane(k - 120, 2118186, 1643818, 1699267, -3097992, -508951, -264944, 3343383, 0)
    else
      if k < 192 then
        if k < 160 then
          if k < 144 then
            if k < 136 then
              Lane(k - 128, 1962642, -3306115, -1312455, 451100, 1430225, 3318210, -1237275, 1333058)
            else
              Lane(k - 136, 2108549, 539299, -2348700, 1430430, -1852771, -1349076, 381987, 0)
          else
            if k < 152 then
              Lane(k - 144, 1050970, -1903435, -1869119, 2994039, 3548272, -2635921, -1250494, 3767016)
            else
              Lane(k - 152, -2619752, 300467, -3539968, 1308169, 22981, 1228525, 671102, 0)
        else
          if k < 176 then
            if k < 168 then
              Lane(k - 160, -1595974, -2486353, -1247620, -4055324, -1265009, 2590150, -2691481, -2842341)
            else
              Lane(k - 168, 1119584, 2867647, -3574422, 2477047, 411027, 3693493, 2967645, 0)
          else
            if k < 184 then
              Lane(k - 176, -203044, -1735879, 3342277, -3437287, -4108315, 2437823, -286988, -342297)
            else
              Lane(k - 184, 549488, 3043716, 3861115, -2715295, -2147896, 983419, -3412210, 0)
      else
        if k < 224 then
          if k < 208 then
            if k < 200 then
              Lane(k - 192, 3595838, 768622, 525098, 3556995, -3207046, -2031748, 3122442, 655327)
            else
              Lane(k - 200, -3585928, -3915439, 2537516, -126922, 3632928, 3157330, 3190144, 0)
          else
            if k < 216 then
              Lane(k - 208, 522500, 43260, 1613174, -495491, -819034, -909542, -1859098, -900702)
            else
              Lane(k - 216, 1079900, 3592148, 1661693, 1000202, 4083598, -1939314, 1257611, 0)
        else
          if k < 240 then
            if k < 232 then
              Lane(k - 224, 3193378, 1197226, 3759364, 3520352, -3513181, 1235728, -2434439, -266997)
            else
              Lane(k - 232, -1024112, -3530437, -3077325, 1585221, -2176455, -3475950, 1452451, 0)
          else
            if k < 248 then
              Lane(k - 240, 3562462, 2446433, -2244091, 3342478, -3817976, -2316500, -3407706, -2091667)
            else
              Lane(k - 248, -2725464, -95776, -2706023, 3041255, 3677745, 1528703, 3930395, 0)
  }

  /** The node of the tree whose root is the entry at i. */
  function NodeOf(i: nat): (r: nat) {
    var g, j := i / 16, i % 16;
    if j < 8 then 128 + 8 * g + j
    else if j < 9 then 16 + g
    else if j < 11 then 32 + 2 * g + (j - 9)
    else if j < 15 then 64 + 4 * g + (j - 11)
    else g
  }

  lemma ZetaRows0(i: nat)
    requires 0 <= i < 64
    ensures RvvZeta(i) == Zeta(NodeOf(i))
  {
  }

  lemma ZetaRows1(i: nat)
    requires 64 <= i < 128
    ensures RvvZeta(i) == Zeta(NodeOf(i))
  {
  }

  lemma ZetaRows2(i: nat)
    requires 128 <= i < 192
    ensures RvvZeta(i) == Zeta(NodeOf(i))
  {
  }

  lemma ZetaRows3(i: nat)
    requires 192 <= i < 256
    ensures RvvZeta(i) == Zeta(NodeOf(i))
  {
  }

  lemma IzetaRows0(i: nat)
    requires 0 <= i < 32
    ensures RvvIzeta(i) == if i % 16 == 15 then 0 else InverseZeta(NodeOf(i))
  {
  }

  lemma IzetaRows1(i: nat)
    requires 32 <= i < 64
    ensures RvvIzeta(i) == if i % 16 == 15 then 0 else InverseZeta(NodeOf(i))
  {
  }

  lemma IzetaRows2(i: nat)
    requires 64 <= i < 96
    ensures RvvIzeta(i) == if i % 16 == 15 then 0 else InverseZeta(NodeOf(i))
  {
  }

  lemma IzetaRows3(i: nat)
    requires 96 <= i < 128
    ensures RvvIzeta(i) == if i % 16 == 15 then 0 else InverseZeta(NodeOf(i))
  {
  }

  lemma IzetaRows4(i: nat)
    requires 128 <= i < 160
    ensures RvvIzeta(i) == if i % 16 == 15 then 0 else InverseZeta(NodeOf(i))
  {
  }

  lemma IzetaRows5(i: nat)
    requires 160 <= i < 192
    ensures RvvIzeta(i) == if i % 16 == 15 then 0 else InverseZeta(NodeOf(i))
  {
  }

  lemma IzetaRows6(i: nat)
    requires 192 <= i < 224
    ensures RvvIzeta(i) == if i % 16 == 15 then 0 else InverseZeta(NodeOf(i))
  {
  }

  lemma IzetaRows7(i: nat)
    requires 224 <= i < 256
    ensures RvvIzeta(i) == if i % 16 == 15 then 0 else InverseZeta(NodeOf(i))
  {
  }

  /** Every entry, the last word of each group included, is the root of its node. */
  lemma RvvZetaEntry(i: nat)
    requires i < 256
    ensures RvvZeta(i) == Zeta(NodeOf(i))
  {
    hide RvvZeta, Zeta, NodeOf;
    if i < 64 {
      ZetaRows0(i);
    } else if i < 128 {
      ZetaRows1(i);
    } else if i < 192 {
      ZetaRows2(i);
    } else {
      ZetaRows3(i);
    }
  }

  /** The inverse table holds the inverse roots in the same order; its last words are unused. */
  lemma RvvIzetaEntry(i: nat)
    requires i < 256
    ensures RvvIzeta(i) == if i % 16 == 15 then 0 else InverseZeta(NodeOf(i))
  {
    hide RvvIzeta, InverseZeta, NodeOf;
    if i < 32 {
      IzetaRows0(i);
    } else if i < 64 {
      IzetaRows1(i);
    } else if i < 96 {
      IzetaRows2(i);
    } else if i < 128 {
      IzetaRows3(i);
    } else if i < 160 {
      IzetaRows4(i);
    } else if i < 192 {
      IzetaRows5(i);
    } else if i < 224 {
      IzetaRows6(i);
    } else {
      IzetaRows7(i);
    }
  }
}
