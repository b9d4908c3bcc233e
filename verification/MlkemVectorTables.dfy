/** The permuted root tables of tools/pqc/mlkem/rvv_poly.c: eight groups of sixteen words,
    and the roots of the pairwise product. */
module MlkemVectorTables {
  import opened MlkemReduce
  import opened MlkemZetas
  import opened RootTables

  function RvvZeta(k: int): (r: int) {
    if k < 64 then
      if k < 32 then
        if k < 16 then
          if k < 8 then
            Lane(k - 0, -1044, -758, 573, -1325, 1223, 652, -552, 1015)
          else
            Lane(k - 8, -1103, 430, 555, 843, -1251, 871, 1550, 105)
        else
          if k < 24 then
            Lane(k - 16, -359, -1517, 264, 383, -1293, 1491, -282, -1544)
          else
            Lane(k - 24, 422, 587, 177, -235, -291, -460, 1574, 1653)
      else
        if k < 48 then
          if k < 40 then
            Lane(k - 32, 1493, 1422, -829, 1458, 516, -8, -320, -666)
          else
            Lane(k - 40, -246, 778, 1159, -147, -777, 1483, -602, 1119)
        else
          if k < 56 then
            Lane(k - 48, 287, 202, -1602, -130, -1618, -1162, 126, 1469)
          else
            Lane(k - 56, -1590, 644, -872, 349, 418, 329, -156, -75)
    else
      if k < 96 then
        if k < 80 then
          if k < 72 then
            Lane(k - 64, -171, 622, -681, 1017, -853, -90, -271, 830)
          else
            Lane(k - 72, 817, 1097, 603, 610, 1322, -1285, -1465, 384)
        else
          if k < 88 then
            Lane(k - 80, 1577, 182, 732, 608, 107, -1421, -247, -951)
          else
            Lane(k - 88, -1215, -136, 1218, -1335, -874, 220, -1187, -1659)
      else
        if k < 112 then
          if k < 104 then
            Lane(k - 96, 962, -1202, -1542, 411, -398, 961, -1508, -725)
          else
            Lane(k - 104, -1185, -1530, -1278, 794, -1510, -854, -870, 478)
        else
          if k < 120 then
            Lane(k - 112, -1474, 1468, -205, -1571, 448, -1065, 677, -1275)
          else
            Lane(k - 120, -108, -308, 996, 991, 958, -1460, 1522, 1628)
  }

  function RvvIzeta(k: int): (r: int) {
    if k < 64 then
      if k < 32 then
        if k < 16 then
          if k < 8 then
            Lane(k - 0, -1044, 758, 1571, 205, 1275, -677, 1065, -448)
          else
            Lane(k - 8, -1628, -1522, 1460, -958, -991, -996, 308, 108)
        else
          if k < 24 then
            Lane(k - 16, 1517, 359, -411, 1542, 725, 1508, -961, 398)
          else
            Lane(k - 24, -478, 870, 854, 1510, -794, 1278, 1530, 1185)
      else
        if k < 48 then
          if k < 40 then
            Lane(k - 32, -202, -287, -608, -732, 951, 247, 1421, -107)
          else
            Lane(k - 40, 1659, 1187, -220, 874, 1335, -1218, 136, 1215)
        else
          if k < 56 then
            Lane(k - 48, -1422, -1493, -1017, 681, -830, 271, 90, 853)
          else
            Lane(k - 56, -384, 1465, 1285, -1322, -610, -603, -1097, -817)
    else
      if k < 96 then
        if k < 80 then
          if k < 72 then
            Lane(k - 64, -1468, 1474, 130, 1602, -1469, -126, 1162, 1618)
          else
            Lane(k - 72, 75, 156, -329, -418, -349, 872, -644, 1590)
        else
          if k < 88 then
            Lane(k - 80, 1202, -962, -1458, 829, 666, 320, 8, -516)
          else
            Lane(k - 88, -1119, 602, -1483, 777, 147, -1159, -778, 246)
      else
        if k < 112 then
          if k < 104 then
            Lane(k - 96, -182, -1577, -383, -264, 1544, 282, -1491, 1293)
          else
            Lane(k - 104, -1653, -1574, 460, 291, 235, -177, -587, -422)
        else
          if k < 120 then
            Lane(k - 112, -622, 171, 1325, -573, -1015, 552, -652, -1223)
          else
            Lane(k - 120, -105, -1550, -871, 1251, -843, -555, -430, 1103)
  }

  function PairRoots(k: int): (r: int) {
    if k < 128 then
      if k < 64 then
        if k < 32 then
          if k < 16 then
            if k < 8 then
              Lane(k - 0, -1044, -1103, -1044, 1103, -1044, 430, -1044, -430)
            else
              Lane(k - 8, -1044, 555, -1044, -555, -1044, 843, -1044, -843)
          else
            if k < 24 then
              Lane(k - 16, -1044, -1251, -1044, 1251, -1044, 871, -1044, -871)
            else
              Lane(k - 24, -1044, 1550, -1044, -1550, -1044, 105, -1044, -105)
        else
          if k < 48 then
            if k < 40 then
              Lane(k - 32, -1044, 422, -1044, -422, -1044, 587, -1044, -587)
            else
              Lane(k - 40, -1044, 177, -1044, -177, -1044, -235, -1044, 235)
          else
            if k < 56 then
              Lane(k - 48, -1044, -291, -1044, 291, -1044, -460, -1044, 460)
            else
              Lane(k - 56, -1044, 1574, -1044, -1574, -1044, 1653, -1044, -1653)
      else
        if k < 96 then
          if k < 80 then
            if k < 72 then
              Lane(k - 64, -1044, -246, -1044, 246, -1044, 778, -1044, -778)
            else
              Lane(k - 72, -1044, 1159, -1044, -1159, -1044, -147, -1044, 147)
          else
            if k < 88 then
              Lane(k - 80, -1044, -777, -1044, 777, -1044, 1483, -1044, -1483)
            else
              Lane(k - 88, -1044, -602, -1044, 602, -1044, 1119, -1044, -1119)
        else
          if k < 112 then
            if k < 104 then
              Lane(k - 96, -1044, -1590, -1044, 1590, -1044, 644, -1044, -644)
            else
              Lane(k - 104, -1044, -872, -1044, 872, -1044, 349, -1044, -349)
          else
            if k < 120 then
              Lane(k - 112, -1044, 418, -1044, -418, -1044, 329, -1044, -329)
            else
              Lane(k - 120, -1044, -156, -1044, 156, -1044, -75, -1044, 75)
    else
      if k < 192 then
        if k < 160 then
          if k < 144 then
            if k < 136 then
              Lane(k - 128, -1044, 817, -1044, -817, -1044, 1097, -1044, -1097)
            else
              Lane(k - 136, -1044, 603, -1044, -603, -1044, 610, -1044, -610)
          else
            if k < 152 then
              Lane(k - 144, -1044, 1322, -1044, -1322, -1044, -1285, -1044, 1285)
            else
              Lane(k - 152, -1044, -1465, -1044, 1465, -1044, 384, -1044, -384)
        else
          if k < 176 then
            if k < 168 then
              Lane(k - 160, -1044, -1215, -1044, 1215, -1044, -136, -1044, 136)
            else
              Lane(k - 168, -1044, 1218, -1044, -1218, -1044, -1335, -1044, 1335)
          else
            if k < 184 then
              Lane(k - 176, -1044, -874, -1044, 874, -1044, 220, -1044, -220)
            else
              Lane(k - 184, -1044, -1187, -1044, 1187, -1044, -1659, -1044, 1659)
      else
        if k < 224 then
          if k < 208 then
            if k < 200 then
              Lane(k - 192, -1044, -1185, -1044, 1185, -1044, -1530, -1044, 1530)
            else
              Lane(k - 200, -1044, -1278, -1044, 1278, -1044, 794, -1044, -794)
          else
            if k < 216 then
              Lane(k - 208, -1044, -1510, -1044, 1510, -1044, -854, -1044, 854)
            else
              Lane(k - 216, -1044, -870, -1044, 870, -1044, 478, -1044, -478)
        else
          if k < 240 then
            if k < 232 then
              Lane(k - 224, -1044, -108, -1044, 108, -1044, -308, -1044, 308)
            else
              Lane(k - 232, -1044, 996, -1044, -996, -1044, 991, -1044, -991)
          else
            if k < 248 then
              Lane(k - 240, -1044, 958, -1044, -958, -1044, -1460, -1044, 1460)
            else
              Lane(k - 248, -1044, 1522, -1044, -1522, -1044, 1628, -1044, -1628)
  }

  /** The node of the tree whose root is the entry at i. */
  function NodeOf(i: nat): (r: nat) {
    var p, j := i / 16, i % 16;
    if j < 2 then 2 * p + j
    else if j < 4 then 16 + 2 * p + (j - 2)
    else if j < 8 then 32 + 4 * p + (j - 4)
    else 64 + 8 * p + (j - 8)
  }

  lemma ZetaRows0(i: nat)
    requires 0 <= i < 32
    ensures RvvZeta(i) == Zeta(NodeOf(i))
  {
  }

  lemma ZetaRows1(i: nat)
    requires 32 <= i < 64
    ensures RvvZeta(i) == Zeta(NodeOf(i))
  {
  }

  lemma ZetaRows2(i: nat)
    requires 64 <= i < 96
    ensures RvvZeta(i) == Zeta(NodeOf(i))
  {
  }

  lemma ZetaRows3(i: nat)
    requires 96 <= i < 128
    ensures RvvZeta(i) == Zeta(NodeOf(i))
  {
  }

  lemma IzetaRows0(i: nat)
    requires 1 <= i < 32
    ensures RvvIzeta(i) == InverseZeta(NodeOf(i))
  {
  }

  lemma IzetaRows1(i: nat)
    requires 32 <= i < 64
    ensures RvvIzeta(i) == InverseZeta(NodeOf(i))
  {
  }

  lemma IzetaRows2(i: nat)
    requires 64 <= i < 96
    ensures RvvIzeta(i) == InverseZeta(NodeOf(i))
  {
  }

  lemma IzetaRows3(i: nat)
    requires 96 <= i < 128
    ensures RvvIzeta(i) == InverseZeta(NodeOf(i))
  {
  }

  lemma PairRows0(i: nat)
    requires 0 <= i < 64
    ensures PairRoots(i) == if i % 2 == 0 then -1044 else if i % 4 == 1 then Zeta(64 + i / 4) else -Zeta(64 + i / 4)
  {
  }

  lemma PairRows1(i: nat)
    requires 64 <= i < 128
    ensures PairRoots(i) == if i % 2 == 0 then -1044 else if i % 4 == 1 then Zeta(64 + i / 4) else -Zeta(64 + i / 4)
  {
  }

  lemma PairRows2(i: nat)
    requires 128 <= i < 192
    ensures PairRoots(i) == if i % 2 == 0 then -1044 else if i % 4 == 1 then Zeta(64 + i / 4) else -Zeta(64 + i / 4)
  {
  }

  lemma PairRows3(i: nat)
    requires 192 <= i < 256
    ensures PairRoots(i) == if i % 2 == 0 then -1044 else if i % 4 == 1 then Zeta(64 + i / 4) else -Zeta(64 + i / 4)
  {
  }

  /** Entry 0 is not the root of a butterfly. */
  lemma TableEntry(i: nat)
    requires 1 <= i < 128
    ensures RvvZeta(i) == Zeta(NodeOf(i)) && RvvIzeta(i) == InverseZeta(NodeOf(i))
  {
    hide RvvZeta, RvvIzeta, Zeta, InverseZeta, NodeOf;
    if i < 32 {
      ZetaRows0(i);
      IzetaRows0(i);
    } else if i < 64 {
      ZetaRows1(i);
      IzetaRows1(i);
    } else if i < 96 {
      ZetaRows2(i);
      IzetaRows2(i);
    } else {
      ZetaRows3(i);
      IzetaRows3(i);
    }
  }

  /** Even lanes hold 2^16 mod Q, odd lanes the roots of the two pairs, with both signs. */
  lemma PairEntry(i: nat)
    requires i < 256
    ensures PairRoots(i) == if i % 2 == 0 then -1044 else if i % 4 == 1 then Zeta(64 + i / 4) else -Zeta(64 + i / 4)
  {
    hide PairRoots, Zeta;
    if i < 64 {
      PairRows0(i);
    } else if i < 128 {
      PairRows1(i);
    } else if i < 192 {
      PairRows2(i);
    } else {
      PairRows3(i);
    }
  }
}
