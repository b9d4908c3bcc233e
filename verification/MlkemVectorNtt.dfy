/** tools/pqc/mlkem/rvv_poly.c: the transform of ML-KEM on registers of sixteen 16-bit lanes.
    The permuted lanes and tables compute the layers of the scalar loops with other butterflies. */
module MlkemVectorNtt {
  import opened Polynomials
  import opened Modular
  import opened NttAlgebra
  import opened Butterflies
  import opened Lanes
  import opened VectorLayers
  import opened WideLayers
  import opened MlkemReduce
  import opened RootTables
  import opened MlkemZetas
  import opened MlkemVectorReduce
  import opened MlkemVectorTables

  const VL: nat := 16

  /** 2^16 mod Q, and 2^32 / 128 mod Q. */
  const MONT_R1: int := 2285
  const MONT_NR: int := 1441

  /** RVV_BFLY_FX and RVV_BFLY_FV: lanes wrap at 16 bits. */
  function FxLo(z: int, u: int, v: int): (r: int) { W16(u + FqMulVector(v, z)) }

  function FxHi(z: int, u: int, v: int): (r: int) { W16(u - FqMulVector(v, z)) }

  /** RVV_BFLY_RX and RVV_BFLY_RV: the sum is reduced from above only. */
  function RxLo(z: int, u: int, v: int): (r: int) { FqCSub(W16(u + v)) }

  function RxHi(z: int, u: int, v: int): (r: int) { FqMulVector(W16(u - v), z) }

  const FX: Rooted := Rooted(FxLo, FxHi)
  const RX: Rooted := Rooted(RxLo, RxHi)

  const ROOTS: nat -> int := (k: nat) => Zeta(k)
  const IROOTS: nat -> int := (k: nat) => InverseZeta(k)
  const WFWD: Butterfly := ByNode(FX, ROOTS)
  const WINV: Butterfly := ByNode(RX, IROOTS)

  // ----- two registers at a time

  ghost predicate IsLayout(p: seq<nat>) { |p| == 32 && forall i :: 0 <= i < 32 ==> p[i] < 32 }

  function P8(): (r: seq<nat>)
    ensures IsLayout(r)
  {
    BitswapPerm(3, 4, 32)
  }

  function P4(): (r: seq<nat>)
    ensures IsLayout(r)
  {
    BitswapPerm(2, 4, 32)
  }

  function P2(): (r: seq<nat>)
    ensures IsLayout(r)
  {
    BitswapPerm(1, 4, 32)
  }

  /** The gather at the end of the transform ... */
  function P0(): (r: seq<nat>)
    ensures IsLayout(r)
  {
    Gathered(Gathered(P2(), P4()), P8())
  }

  /** ... and at the start of the inverse. */
  function PI(): (r: seq<nat>)
    ensures IsLayout(r)
  {
    Gathered(Gathered(P8(), P4()), P2())
  }

  const NATURAL: seq<nat> := [0, 1, 2, 3, 4, 5, 6, 7, 8, 9, 10, 11, 12, 13, 14, 15,
                             16, 17, 18, 19, 20, 21, 22, 23, 24, 25, 26, 27, 28, 29, 30, 31]
  const LAYOUT8: seq<nat> := [0, 1, 2, 3, 4, 5, 6, 7, 16, 17, 18, 19, 20, 21, 22, 23,
                             8, 9, 10, 11, 12, 13, 14, 15, 24, 25, 26, 27, 28, 29, 30, 31]
  const LAYOUT4: seq<nat> := [0, 1, 2, 3, 8, 9, 10, 11, 16, 17, 18, 19, 24, 25, 26, 27,
                             4, 5, 6, 7, 12, 13, 14, 15, 20, 21, 22, 23, 28, 29, 30, 31]
  const LAYOUT2: seq<nat> := [0, 1, 4, 5, 8, 9, 12, 13, 16, 17, 20, 21, 24, 25, 28, 29,
                             2, 3, 6, 7, 10, 11, 14, 15, 18, 19, 22, 23, 26, 27, 30, 31]

  const SWAP4: seq<nat> := [0, 1, 2, 3, 16, 17, 18, 19, 8, 9, 10, 11, 24, 25, 26, 27,
                           4, 5, 6, 7, 20, 21, 22, 23, 12, 13, 14, 15, 28, 29, 30, 31]
  const SWAP2: seq<nat> := [0, 1, 16, 17, 4, 5, 20, 21, 8, 9, 24, 25, 12, 13, 28, 29,
                           2, 3, 18, 19, 6, 7, 22, 23, 10, 11, 26, 27, 14, 15, 30, 31]

  /** The three index vectors. */
  lemma SwapValues()
    ensures P8() == LAYOUT8 && P4() == SWAP4 && P2() == SWAP2
  {
    hide SwappedLane;
    Swap8();
    Swap4();
    Swap2();
    hide P8, P4, P2;
  }

  lemma Swap8()
    ensures P8() == LAYOUT8
  {
    hide SwappedLane;
    Lanes34();
  }

  lemma Swap4()
    ensures P4() == SWAP4
  {
    hide SwappedLane;
    Lanes24();
  }

  lemma Swap2()
    ensures P2() == SWAP2
  {
    hide SwappedLane;
    Lanes14();
  }

  lemma Layout4()
    ensures Gathered(LAYOUT8, SWAP4) == LAYOUT4
  {
  }

  lemma Layout2()
    ensures Gathered(LAYOUT4, SWAP2) == LAYOUT2
  {
  }

  lemma NaturalLayout()
    ensures IsLayout(NATURAL)
  {
  }

  lemma Layout8Fits()
    ensures IsLayout(LAYOUT8)
  {
  }

  lemma Layout4Fits()
    ensures IsLayout(LAYOUT4)
  {
  }

  lemma Layout2Fits()
    ensures IsLayout(LAYOUT2)
  {
  }

  lemma AllLayouts()
    ensures IsLayout(NATURAL) && IsLayout(LAYOUT8) && IsLayout(LAYOUT4) && IsLayout(LAYOUT2)
  {
    hide IsLayout, NATURAL, LAYOUT8, LAYOUT4, LAYOUT2;
    NaturalLayout();
    Layout8Fits();
    Layout4Fits();
    Layout2Fits();
  }

  /** The layouts after one, two and three gathers ... */
  lemma Layouts()
    ensures IsLayout(LAYOUT8) && IsLayout(LAYOUT4)
    ensures P8() == LAYOUT8 && Gathered(LAYOUT8, P4()) == LAYOUT4 && Gathered(LAYOUT4, P2()) == LAYOUT2
  {
    AllLayouts();
    SwapValues();
    Layout4();
    Layout2();
    hide P8, P4, P2, LAYOUT8, LAYOUT4, LAYOUT2, SWAP4, SWAP2;
  }

  lemma LaneCases(l: nat)
    requires l < 16
    ensures l == 0 || l == 1 || l == 2 || l == 3 || l == 4 || l == 5 || l == 6 || l == 7
         || l == 8 || l == 9 || l == 10 || l == 11 || l == 12 || l == 13 || l == 14 || l == 15
  {
  }

  lemma NaturalAt(i: nat)
    requires i < 32
    ensures NATURAL[i] == i
  {
    LaneCases(if i < 16 then i else i - 16);
  }

  lemma FromNatural(p: seq<nat>)
    requires IsLayout(p) && |NATURAL| == 32
    ensures Gathered(NATURAL, p) == p
  {
    hide NATURAL;
    forall i | 0 <= i < 32
      ensures Gathered(NATURAL, p)[i] == p[i]
    {
      NaturalAt(p[i]);
    }
  }

  lemma Back8()
    ensures Gathered(LAYOUT8, P8()) == NATURAL
  {
    Swap8();
    assert |NATURAL| == 32;
    FromNatural(P8());
    hide NATURAL, LAYOUT8, BitswapPerm, Gathered;
    BitswapTwice(NATURAL, 3, 4);
  }

  lemma Back4()
    ensures Gathered(LAYOUT4, SWAP4) == LAYOUT8
  {
  }

  lemma Back2()
    ensures Gathered(LAYOUT2, SWAP2) == LAYOUT4
  {
  }

  /** ... and the way back. */
  lemma LayoutsBack()
    ensures IsLayout(LAYOUT8) && IsLayout(LAYOUT4) && IsLayout(LAYOUT2)
    ensures Gathered(LAYOUT2, P2()) == LAYOUT4 && Gathered(LAYOUT4, P4()) == LAYOUT8
         && Gathered(LAYOUT8, P8()) == NATURAL
  {
    AllLayouts();
    SwapValues();
    Back2();
    Back4();
    Back8();
    hide P8, P4, P2, LAYOUT8, LAYOUT4, LAYOUT2, SWAP4, SWAP2, NATURAL;
  }

  /** The last gather undoes the three swaps at once; the first gather of the inverse is it. */
  lemma LayoutsUndone()
    ensures Gathered(LAYOUT2, P0()) == NATURAL && PI() == LAYOUT2
  {
    AllLayouts();
    hide P8, P4, P2, LAYOUT8, LAYOUT4, LAYOUT2, NATURAL;
    Layouts();
    LayoutsBack();
    GatherTwice(LAYOUT2, P2(), P4());
    GatherTwice(LAYOUT2, Gathered(P2(), P4()), P8());
  }

  /** Sixteen words of a table from o on. */
  function Loaded(table: int -> int, o: nat): (r: seq<int>)
    ensures |r| == VL && forall l :: 0 <= l < VL ==> r[l] == table(o + l)
  {
    seq(VL, l requires 0 <= l < VL => table(o + l))
  }

  ghost predicate IsSelection(cs: seq<nat>) { |cs| == VL && forall l :: 0 <= l < VL ==> cs[l] < VL }

  function Cs8(): (r: seq<nat>)
    ensures IsSelection(r)
  {
    seq(VL, l requires 0 <= l < VL => l / 8 + 2)
  }

  function Cs4(): (r: seq<nat>)
    ensures IsSelection(r)
  {
    seq(VL, l requires 0 <= l < VL => l / 4 + 4)
  }

  function Cs2(): (r: seq<nat>)
    ensures IsSelection(r)
  {
    seq(VL, l requires 0 <= l < VL => l / 2 + 8)
  }

  /** Multiply every lane by c and make it canonical. */
  function MulQ(x: seq<int>, c: int): (r: seq<int>)
    ensures |r| == |x| && forall i :: 0 <= i < |x| ==> r[i] == FqMulQ(x[i], c)
  {
    seq(|x|, i requires 0 <= i < |x| => FqMulQ(x[i], c))
  }

  function Root(cz: seq<int>, cs: seq<nat>): (r: seq<int>)
    requires |cz| == VL && IsSelection(cs)
    ensures |r| == VL
  {
    Gathered(cz, cs)
  }

  /** Gather two registers, then one butterfly per lane. */
  function GatherLayer(g: Rooted, v: seq<int>, p: seq<nat>, c: seq<int>): (r: seq<int>)
    requires |v| == 32 && IsLayout(p) && |c| == VL
    ensures |r| == 32
  {
    LaneLayer(g, Gathered(v, p), c)
  }

  function Gather(v: seq<int>, p: seq<nat>): (r: seq<int>)
    requires |v| == 32 && IsLayout(p)
    ensures |r| == 32
  {
    Gathered(v, p)
  }

  function VectorNtt2(v: seq<int>, cz: seq<int>): (r: seq<int>)
    requires |v| == 32 && |cz| == VL
    ensures |r| == 32
  {
    var v1 := GatherLayer(FX, v, P8(), Root(cz, Cs8()));
    var v2 := GatherLayer(FX, v1, P4(), Root(cz, Cs4()));
    var v3 := GatherLayer(FX, v2, P2(), Root(cz, Cs2()));
    Gather(MulQ(v3, MONT_R1), P0())
  }

  function VectorIntt2(v: seq<int>, cz: seq<int>): (r: seq<int>)
    requires |v| == 32 && |cz| == VL
    ensures |r| == 32
  {
    var v1 := GatherLayer(RX, v, PI(), Root(cz, Cs2()));
    var v2 := GatherLayer(RX, v1, P2(), Root(cz, Cs4()));
    var v3 := GatherLayer(RX, v2, P4(), Root(cz, Cs8()));
    MulQ(Gather(v3, P8()), MONT_R1)
  }

  // ----- every lane finds its root

  /** Word j of group p belongs to node, by the layer that uses it. */
  ghost predicate InGroup(p: nat, j: nat, node: nat) {
    node == if j < 2 then 2 * p + j else if j < 4 then 16 + 2 * p + (j - 2)
      else if j < 8 then 32 + 4 * p + (j - 4) else 64 + 8 * p + (j - 8)
  }

  lemma GroupRoots(p: nat, j: nat, node: nat)
    requires p < 8 && j < 16 && 0 < p + j && InGroup(p, j, node)
    ensures RvvZeta(16 * p + j) == ROOTS(node) && RvvIzeta(16 * p + j) == IROOTS(node)
  {
    hide RvvZeta, RvvIzeta, Zeta, InverseZeta;
    assert (16 * p + j) / 16 == p && (16 * p + j) % 16 == j;
    TableEntry(16 * p + j);
  }

  ghost predicate GroupTable(table: int -> int, z: nat -> int, p: nat) {
    forall j: nat, node: nat :: 2 <= j < 16 && InGroup(p, j, node) ==> table(16 * p + j) == z(node)
  }

  lemma GroupTables(p: nat)
    requires p < 8
    ensures GroupTable(RvvZeta, ROOTS, p) && GroupTable(RvvIzeta, IROOTS, p)
  {
    hide InGroup, RvvZeta, RvvIzeta, Zeta, InverseZeta;
    forall j: nat, node: nat | 2 <= j < 16 && InGroup(p, j, node)
      ensures RvvZeta(16 * p + j) == ROOTS(node) && RvvIzeta(16 * p + j) == IROOTS(node)
    {
      GroupRoots(p, j, node);
    }
  }

  lemma Word(table: int -> int, z: nat -> int, p: nat, j: nat, node: nat)
    requires GroupTable(table, z, p) && 2 <= j < 16 && InGroup(p, j, node)
    ensures table(16 * p + j) == z(node)
  {
  }

  lemma Layout8At(l: nat)
    requires l < 16
    ensures LAYOUT8[l] == 16 * (l / 8) + l % 8 && LAYOUT8[16 + l] == LAYOUT8[l] + 8
  {
    LaneCases(l);
  }

  lemma Aligned8(c: seq<int>, z: nat -> int, k: nat)
    requires |c| == 16 && forall l: nat :: l < 16 ==> c[l] == z(k + l / 8)
    ensures Aligned(LAYOUT8, c, z, 8, k)
  {
    assert |LAYOUT8| == 32;
    hide LAYOUT8;
    forall l: nat | l < 16
      ensures AlignedLane(LAYOUT8, c, z, 8, k, l)
    {
      Layout8At(l);
      assert LAYOUT8[l] / 16 == l / 8;
    }
  }

  lemma Layout4At(l: nat)
    requires l < 16
    ensures LAYOUT4[l] == 8 * (l / 4) + l % 4 && LAYOUT4[16 + l] == LAYOUT4[l] + 4
  {
    LaneCases(l);
  }

  lemma Aligned4(c: seq<int>, z: nat -> int, k: nat)
    requires |c| == 16 && forall l: nat :: l < 16 ==> c[l] == z(k + l / 4)
    ensures Aligned(LAYOUT4, c, z, 4, k)
  {
    assert |LAYOUT4| == 32;
    hide LAYOUT4;
    forall l: nat | l < 16
      ensures AlignedLane(LAYOUT4, c, z, 4, k, l)
    {
      Layout4At(l);
      assert LAYOUT4[l] / 8 == l / 4;
    }
  }

  lemma Layout2At(l: nat)
    requires l < 16
    ensures LAYOUT2[l] == 4 * (l / 2) + l % 2 && LAYOUT2[16 + l] == LAYOUT2[l] + 2
  {
    LaneCases(l);
  }

  lemma Aligned2(c: seq<int>, z: nat -> int, k: nat)
    requires |c| == 16 && forall l: nat :: l < 16 ==> c[l] == z(k + l / 2)
    ensures Aligned(LAYOUT2, c, z, 2, k)
  {
    assert |LAYOUT2| == 32;
    hide LAYOUT2;
    forall l: nat | l < 16
      ensures AlignedLane(LAYOUT2, c, z, 2, k, l)
    {
      Layout2At(l);
      assert LAYOUT2[l] / 4 == l / 2;
    }
  }

  lemma Group8(table: int -> int, z: nat -> int, p: nat, cz: seq<int>)
    requires GroupTable(table, z, p) && cz == Loaded(table, 16 * p)
    ensures Aligned(LAYOUT8, Root(cz, Cs8()), z, 8, 16 + 2 * p)
  {
    hide Aligned, GroupTable, Gathered;
    forall l: nat | l < 16
      ensures Root(cz, Cs8())[l] == z(16 + 2 * p + l / 8)
    {
      Word(table, z, p, l / 8 + 2, 16 + 2 * p + l / 8);
    }
    Aligned8(Root(cz, Cs8()), z, 16 + 2 * p);
  }

  lemma Group4(table: int -> int, z: nat -> int, p: nat, cz: seq<int>)
    requires GroupTable(table, z, p) && cz == Loaded(table, 16 * p)
    ensures Aligned(LAYOUT4, Root(cz, Cs4()), z, 4, 32 + 4 * p)
  {
    hide Aligned, GroupTable, Gathered;
    forall l: nat | l < 16
      ensures Root(cz, Cs4())[l] == z(32 + 4 * p + l / 4)
    {
      Word(table, z, p, l / 4 + 4, 32 + 4 * p + l / 4);
    }
    Aligned4(Root(cz, Cs4()), z, 32 + 4 * p);
  }

  lemma Group2(table: int -> int, z: nat -> int, p: nat, cz: seq<int>)
    requires GroupTable(table, z, p) && cz == Loaded(table, 16 * p)
    ensures Aligned(LAYOUT2, Root(cz, Cs2()), z, 2, 64 + 8 * p)
  {
    hide Aligned, GroupTable, Gathered;
    forall l: nat | l < 16
      ensures Root(cz, Cs2())[l] == z(64 + 8 * p + l / 2)
    {
      Word(table, z, p, l / 2 + 8, 64 + 8 * p + l / 2);
    }
    Aligned2(Root(cz, Cs2()), z, 64 + 8 * p);
  }

  // ----- three layers in registers

  lemma AllNaturally()
    ensures forall x: seq<int> :: |x| == 32 ==> Gathered(x, NATURAL) == x
  {
    forall i: nat | i < 32
      ensures NATURAL[i] == i
    {
      NaturalAt(i);
    }
  }

  function ThreeDown(f: Butterfly, v: seq<int>, k: nat): (r: seq<int>)
    requires |v| == 32
    ensures |r| == 32
  {
    Layer(f, Layer(f, Layer(f, v, 8, k, 2), 4, 2 * k, 4), 2, 4 * k, 8)
  }

  function ThreeUp(f: Butterfly, v: seq<int>, k: nat): (r: seq<int>)
    requires |v| == 32
    ensures |r| == 32
  {
    Layer(f, Layer(f, Layer(f, v, 2, 4 * k, 8), 4, 2 * k, 4), 8, k, 2)
  }

  /** A layer in layout p, and the gather that leads to layout r. */
  lemma GatherStage(g: Rooted, z: nat -> int, w: seq<int>, p: seq<nat>, c: seq<int>, s: seq<nat>, r: seq<nat>,
                    len: nat, k: nat, m: nat)
    requires len > 0 && |w| == 32 == 2 * |c| == m * (2 * len) && IsLayout(p) && IsLayout(s) && Aligned(p, c, z, len, k)
    requires Gathered(p, s) == r
    ensures Gathered(LaneLayer(g, Gathered(w, p), c), s) == Gathered(Layer(ByNode(g, z), w, len, k, m), r)
  {
    hide Layer, LaneLayer, Aligned;
    Stage(g, z, w, p, c, len, k, m);
    GatherTwice(Layer(ByNode(g, z), w, len, k, m), p, s);
  }

  lemma MulQGathered(x: seq<int>, p: seq<nat>, c: int)
    requires |x| == 32 && IsLayout(p)
    ensures MulQ(Gathered(x, p), c) == Gathered(MulQ(x, c), p)
  {
    hide FqMulQ;
  }

  lemma ThreeStagesDown(g: Rooted, z: nat -> int, v: seq<int>, k: nat, id: seq<nat>, l8: seq<nat>, l4: seq<nat>,
       l2: seq<nat>,
                        p4: seq<nat>, p2: seq<nat>, p0: seq<nat>, c8: seq<int>, c4: seq<int>, c2: seq<int>)
    requires |v| == 32 && IsLayout(id) && IsLayout(l8) && IsLayout(l4) && IsLayout(l2) && IsLayout(p4) && IsLayout(p2)
         && IsLayout(p0)
    requires |c8| == |c4| == |c2| == VL
    requires Aligned(l8, c8, z, 8, k) && Aligned(l4, c4, z, 4, 2 * k) && Aligned(l2, c2, z, 2, 4 * k)
    requires Gathered(l8, p4) == l4 && Gathered(l4, p2) == l2 && Gathered(l2, p0) == id
    requires forall x: seq<int> :: |x| == 32 ==> Gathered(x, id) == x
    ensures var v1 := GatherLayer(g, v, l8, c8);
      var v2 := GatherLayer(g, v1, p4, c4);
      var v3 := GatherLayer(g, v2, p2, c2);
      Gather(MulQ(v3, MONT_R1), p0) == MulQ(ThreeDown(ByNode(g, z), v, k), MONT_R1)
  {
    hide Layer, LaneLayer, Aligned, Gathered, FqMulQ, MulQ;
    var f := ByNode(g, z);
    GatherStage(g, z, v, l8, c8, p4, l4, 8, k, 2);
    var x1 := Layer(f, v, 8, k, 2);
    GatherStage(g, z, x1, l4, c4, p2, l2, 4, 2 * k, 4);
    var x2 := Layer(f, x1, 4, 2 * k, 4);
    Stage(g, z, x2, l2, c2, 2, 4 * k, 8);
    var x3 := Layer(f, x2, 2, 4 * k, 8);
    MulQGathered(x3, l2, MONT_R1);
    GatherTwice(MulQ(x3, MONT_R1), l2, p0);
  }

  lemma ThreeStagesUp(g: Rooted, z: nat -> int, v: seq<int>, k: nat, id: seq<nat>, l8: seq<nat>, l4: seq<nat>,
       l2: seq<nat>,
                      p8: seq<nat>, p4: seq<nat>, p2: seq<nat>, c8: seq<int>, c4: seq<int>, c2: seq<int>)
    requires |v| == 32 && IsLayout(id) && IsLayout(l8) && IsLayout(l4) && IsLayout(l2) && IsLayout(p8) && IsLayout(p4)
         && IsLayout(p2)
    requires |c8| == |c4| == |c2| == VL
    requires Aligned(l8, c8, z, 8, k) && Aligned(l4, c4, z, 4, 2 * k) && Aligned(l2, c2, z, 2, 4 * k)
    requires Gathered(l2, p2) == l4 && Gathered(l4, p4) == l8 && Gathered(l8, p8) == id
    requires forall x: seq<int> :: |x| == 32 ==> Gathered(x, id) == x
    ensures var v1 := GatherLayer(g, v, l2, c2);
      var v2 := GatherLayer(g, v1, p2, c4);
      var v3 := GatherLayer(g, v2, p4, c8);
      Gather(v3, p8) == ThreeUp(ByNode(g, z), v, k)
  {
    hide Layer, LaneLayer, Aligned, Gathered;
    var f := ByNode(g, z);
    GatherStage(g, z, v, l2, c2, p2, l4, 2, 4 * k, 8);
    var x1 := Layer(f, v, 2, 4 * k, 8);
    GatherStage(g, z, x1, l4, c4, p4, l8, 4, 2 * k, 4);
    var x2 := Layer(f, x1, 4, 2 * k, 4);
    GatherStage(g, z, x2, l8, c8, p8, id, 8, k, 2);
  }

  ghost predicate GroupAligned(cz: seq<int>, z: nat -> int, p: nat)
    requires |cz| == VL
  {
    && Aligned(LAYOUT8, Root(cz, Cs8()), z, 8, 16 + 2 * p)
    && Aligned(LAYOUT4, Root(cz, Cs4()), z, 4, 2 * (16 + 2 * p))
    && Aligned(LAYOUT2, Root(cz, Cs2()), z, 2, 4 * (16 + 2 * p))
  }

  lemma GroupsAligned(table: int -> int, z: nat -> int, p: nat, cz: seq<int>)
    requires GroupTable(table, z, p) && cz == Loaded(table, 16 * p)
    ensures GroupAligned(cz, z, p)
  {
    hide Aligned, GroupTable, Cs8, Cs4, Cs2, LAYOUT8, LAYOUT4, LAYOUT2, Root;
    Group8(table, z, p, cz);
    Group4(table, z, p, cz);
    Group2(table, z, p, cz);
    assert 32 + 4 * p == 2 * (16 + 2 * p) && 64 + 8 * p == 4 * (16 + 2 * p);
  }

  /** vector_ntt2 on pair p is the last three layers below nodes 16 + 2p and 17 + 2p, made canonical. */
  lemma VectorNtt2Layers(v: seq<int>, p: nat)
    requires |v| == 32 && p < 8
    ensures VectorNtt2(v, Loaded(RvvZeta, 16 * p)) == MulQ(ThreeDown(WFWD, v, 16 + 2 * p), MONT_R1)
  {
    AllLayouts();
    AllNaturally();
    hide Layer, LaneLayer, Aligned, P8, P4, P2, P0, Root, Loaded, Cs8, Cs4, Cs2, GroupTable, ThreeDown, FX, ROOTS,
         RvvZeta, Zeta, Gathered, GatherLayer, Gather, MulQ, NATURAL, LAYOUT8, LAYOUT4, LAYOUT2;
    GroupTables(p);
    Layouts();
    LayoutsUndone();
    var cz := Loaded(RvvZeta, 16 * p);
    GroupsAligned(RvvZeta, ROOTS, p, cz);
    ThreeStagesDown(FX, ROOTS, v, 16 + 2 * p, NATURAL, LAYOUT8, LAYOUT4, LAYOUT2, P4(), P2(), P0(),
                    Root(cz, Cs8()), Root(cz, Cs4()), Root(cz, Cs2()));
  }

  /** vector_intt2 on pair p is the first three inverse layers below the same nodes, made canonical. */
  lemma VectorIntt2Layers(v: seq<int>, p: nat)
    requires |v| == 32 && p < 8
    ensures VectorIntt2(v, Loaded(RvvIzeta, 16 * p)) == MulQ(ThreeUp(WINV, v, 16 + 2 * p), MONT_R1)
  {
    AllLayouts();
    AllNaturally();
    hide Layer, LaneLayer, Aligned, P8, P4, P2, PI, Root, Loaded, Cs8, Cs4, Cs2, GroupTable, ThreeUp, RX, IROOTS,
         RvvIzeta, InverseZeta, Gathered, GatherLayer, Gather, MulQ, NATURAL, LAYOUT8, LAYOUT4, LAYOUT2;
    GroupTables(p);
    LayoutsBack();
    LayoutsUndone();
    var cz := Loaded(RvvIzeta, 16 * p);
    GroupsAligned(RvvIzeta, IROOTS, p, cz);
    ThreeStagesUp(RX, IROOTS, v, 16 + 2 * p, NATURAL, LAYOUT8, LAYOUT4, LAYOUT2, P8(), P4(), P2(),
                  Root(cz, Cs8()), Root(cz, Cs4()), Root(cz, Cs2()));
  }

  // ----- the whole transform

  /** The layers whose distance is at least one register. */
  lemma FirstFour(f: Butterfly, x: seq<int>)
    requires |x| == N
    ensures Pow2(7) == 128 && Pow2(3) == 8
    ensures var y := Layer(f, Layer(f, Layer(f, Layer(f, x, 128, 1, 1), 64, 2, 2), 32, 4, 4), 16, 8, 8);
      WideDown(f, x, 1, 7, 1) == WideDown(f, y, 16, 3, 16)
    ensures var y := WideUp(f, x, 16, 3, 16);
      WideUp(f, x, 1, 7, 1) == FourUp(f, y)
  {
    hide Layer;
    PowersOfTwo();
    var x1 := Layer(f, x, 128, 1, 1);
    var x2 := Layer(f, x1, 64, 2, 2);
    var x3 := Layer(f, x2, 32, 4, 4);
    assert WideDown(f, x1, 2, 6, 2) == WideDown(f, x2, 4, 5, 4);
    assert WideDown(f, x2, 4, 5, 4) == WideDown(f, x3, 8, 4, 8);
    assert WideDown(f, x3, 8, 4, 8) == WideDown(f, Layer(f, x3, 16, 8, 8), 16, 3, 16);
    assert WideUp(f, x, 8, 4, 8) == Layer(f, WideUp(f, x, 16, 3, 16), 16, 8, 8);
    assert WideUp(f, x, 4, 5, 4) == Layer(f, WideUp(f, x, 8, 4, 8), 32, 4, 4);
    assert WideUp(f, x, 2, 6, 2) == Layer(f, WideUp(f, x, 4, 5, 4), 64, 2, 2);
  }

  function FourUp(f: Butterfly, y: seq<int>): (r: seq<int>)
    requires |y| == N
    ensures |r| == N
  {
    Layer(f, Layer(f, Layer(f, Layer(f, y, 16, 8, 8), 32, 4, 4), 64, 2, 2), 128, 1, 1)
  }

  lemma LastThree(f: Butterfly, v: seq<int>, k: nat)
    requires |v| == 32
    ensures Pow2(3) == 8 && WideDown(f, v, k, 3, 2) == ThreeDown(f, v, k) && WideUp(f, v, k, 3, 2) == ThreeUp(f, v, k)
  {
    hide Layer;
    PowersOfTwo();
    var x1 := Layer(f, v, 8, k, 2);
    assert WideDown(f, x1, 2 * k, 2, 4) == WideDown(f, Layer(f, x1, 4, 2 * k, 4), 4 * k, 1, 8);
    assert WideUp(f, v, 4 * k, 1, 8) == Layer(f, v, 2, 4 * k, 8);
    assert WideUp(f, v, 2 * k, 2, 4) == Layer(f, WideUp(f, v, 4 * k, 1, 8), 4, 2 * k, 4);
  }

  /** The first two words of a group are the roots of early layers. */
  lemma FirstWord(i: nat, node: nat)
    requires 1 <= node < 16 && i == 16 * (node / 2) + node % 2
    ensures RvvZeta(i) == ROOTS(node) && RvvIzeta(i) == IROOTS(node)
  {
    hide RvvZeta, RvvIzeta, Zeta, InverseZeta;
    GroupRoots(node / 2, node % 2, node);
  }

  lemma PairChunk(f: Butterfly, x: seq<int>, w: seq<int>, p: nat, start: nat)
    requires |x| == N && p < 8 && Pow2(3) == 8 && start == 32 * p && w == x[start..start + 32]
    ensures WideDown(f, x, 16, 3, 16)[start..start + 32] == ThreeDown(f, w, 16 + 2 * p)
    ensures WideUp(f, x, 16, 3, 16)[start..start + 32] == ThreeUp(f, w, 16 + 2 * p)
  {
    hide WideDown, WideUp, ThreeDown, ThreeUp, Pow2, Layer;
    ChunkOfWideDown(f, x, 16, 3, 16, 2, 2 * p, start, 32);
    ChunkOfWideUp(f, x, 16, 3, 16, 2, 2 * p, start, 32);
    LastThree(f, w, 16 + 2 * p);
  }

  lemma PairDown(x: seq<int>, w: seq<int>, y: seq<int>, p: nat, start: nat)
    requires |x| == N && p < 8 && Pow2(3) == 8 && start == 32 * p && w == x[start..start + 32]
    requires y == WideDown(WFWD, x, 16, 3, 16)
    ensures VectorNtt2(w, Loaded(RvvZeta, 16 * p)) == MulQ(y, MONT_R1)[start..start + 32]
  {
    assert N == 256 && start + 32 <= |x|;
    hide *;
    VectorNtt2Layers(w, p);
    PairChunk(WFWD, x, w, p, start);
    MulQSlice(y, start, MONT_R1);
  }

  lemma PairUp(x: seq<int>, w: seq<int>, y: seq<int>, p: nat, start: nat)
    requires |x| == N && p < 8 && Pow2(3) == 8 && start == 32 * p && w == x[start..start + 32]
    requires y == WideUp(WINV, x, 16, 3, 16)
    ensures VectorIntt2(w, Loaded(RvvIzeta, 16 * p)) == MulQ(y, MONT_R1)[start..start + 32]
  {
    assert N == 256 && start + 32 <= |x|;
    hide *;
    VectorIntt2Layers(w, p);
    PairChunk(WINV, x, w, p, start);
    MulQSlice(y, start, MONT_R1);
  }

  lemma MulQSlice(x: seq<int>, start: nat, c: int)
    requires start + 32 <= |x|
    ensures MulQ(x, c)[start..start + 32] == MulQ(x[start..start + 32], c)
  {
    hide FqMulQ;
  }

  method RegistersDown(a: array<int>)
    requires a.Length == N
    modifies a
    ensures Pow2(7) == 128 && Pow2(3) == 8
    ensures WideDown(WFWD, a[..], 16, 3, 16) == WideDown(WFWD, old(a[..]), 1, 7, 1)
  {
    hide Layer, WideDown, RvvZeta, ROOTS, FX;
    FirstFour(WFWD, a[..]);
    FirstWord(0x01, 1);
    RegisterLayer(FX, a, 8, VL, [RvvZeta(0x01)], ROOTS, 1);
    FirstWord(0x10, 2);
    FirstWord(0x11, 3);
    RegisterLayer(FX, a, 4, VL, [RvvZeta(0x10), RvvZeta(0x11)], ROOTS, 2);
    FirstWord(0x20, 4);
    FirstWord(0x21, 5);
    FirstWord(0x30, 6);
    FirstWord(0x31, 7);
    RegisterLayer(FX, a, 2, VL, [RvvZeta(0x20), RvvZeta(0x21), RvvZeta(0x30), RvvZeta(0x31)], ROOTS, 4);
    LastRow();
    RegisterLayer(FX, a, 1, VL, [RvvZeta(0x40), RvvZeta(0x41), RvvZeta(0x50), RvvZeta(0x51),
                                 RvvZeta(0x60), RvvZeta(0x61), RvvZeta(0x70), RvvZeta(0x71)], ROOTS, 8);
  }

  lemma LastRow()
    ensures RvvZeta(0x40) == ROOTS(8) && RvvZeta(0x41) == ROOTS(9) && RvvZeta(0x50) == ROOTS(10)
         && RvvZeta(0x51) == ROOTS(11)
    ensures RvvZeta(0x60) == ROOTS(12) && RvvZeta(0x61) == ROOTS(13) && RvvZeta(0x70) == ROOTS(14)
         && RvvZeta(0x71) == ROOTS(15)
    ensures RvvIzeta(0x40) == IROOTS(8) && RvvIzeta(0x41) == IROOTS(9) && RvvIzeta(0x50) == IROOTS(10)
         && RvvIzeta(0x51) == IROOTS(11)
    ensures RvvIzeta(0x60) == IROOTS(12) && RvvIzeta(0x61) == IROOTS(13) && RvvIzeta(0x70) == IROOTS(14)
         && RvvIzeta(0x71) == IROOTS(15)
  {
    hide RvvZeta, RvvIzeta, ROOTS, IROOTS;
    FirstWord(0x40, 8);
    FirstWord(0x41, 9);
    FirstWord(0x50, 10);
    FirstWord(0x51, 11);
    FirstWord(0x60, 12);
    FirstWord(0x61, 13);
    FirstWord(0x70, 14);
    FirstWord(0x71, 15);
  }

  /** The vector mlkem_poly_ntt: seven layers, every value made canonical. */
  /** One more run of 32 values is the one of next. */
  lemma StoredRun(was: seq<int>, now: seq<int>, x: seq<int>, next: seq<int>, w: seq<int>, s: nat)
    requires |was| == |x| == |next| && |w| == 32 && s + 32 <= |x| && w == next[s..s + 32]
    requires was[..s] == next[..s] && was[s..] == x[s..] && now == was[..s] + w + was[s + 32..]
    ensures now[..s + 32] == next[..s + 32] && now[s + 32..] == x[s + 32..]
  {
    assert was[s + 32..] == was[s..][32..] && x[s + 32..] == x[s..][32..];
    assert next[..s + 32] == next[..s] + next[s..s + 32];
  }

  method VectorNttInPlace(a: array<int>)
    requires a.Length == N
    modifies a
    ensures Pow2(7) == 128 && a[..] == MulQ(WideDown(WFWD, old(a[..]), 1, 7, 1), MONT_R1)
  {
    hide WideDown, MulQ, VectorNtt2, Loaded;
    RegistersDown(a);
    ghost var x := a[..];
    ghost var y := WideDown(WFWD, x, 16, 3, 16);
    ghost var next := MulQ(y, MONT_R1);
    for p := 0 to 8
      invariant a[..32 * p] == next[..32 * p] && a[32 * p..] == x[32 * p..]
    {
      var w := a[32 * p..32 * p + 32];
      assert w == a[32 * p..][..32] == x[32 * p..32 * p + 32];
      PairDown(x, w, y, p, 32 * p);
      ghost var was, stored := a[..], VectorNtt2(w, Loaded(RvvZeta, 16 * p));
      Store(a, 32 * p, VectorNtt2(w, Loaded(RvvZeta, 16 * p)));
      StoredRun(was, a[..], x, next, stored, 32 * p);
    }
    assert a[..256] == a[..] && next[..256] == next;
  }

  method RegistersUp(a: array<int>)
    requires a.Length == N
    modifies a
    ensures a[..] == FourUp(WINV, old(a[..]))
  {
    hide Layer, RvvIzeta, IROOTS, RX;
    LastRow();
    RegisterLayer(RX, a, 1, VL, [RvvIzeta(0x40), RvvIzeta(0x41), RvvIzeta(0x50), RvvIzeta(0x51),
                                 RvvIzeta(0x60), RvvIzeta(0x61), RvvIzeta(0x70), RvvIzeta(0x71)], IROOTS, 8);
    FirstWord(0x20, 4);
    FirstWord(0x21, 5);
    FirstWord(0x30, 6);
    FirstWord(0x31, 7);
    RegisterLayer(RX, a, 2, VL, [RvvIzeta(0x20), RvvIzeta(0x21), RvvIzeta(0x30), RvvIzeta(0x31)], IROOTS, 4);
    FirstWord(0x10, 2);
    FirstWord(0x11, 3);
    RegisterLayer(RX, a, 4, VL, [RvvIzeta(0x10), RvvIzeta(0x11)], IROOTS, 2);
    FirstWord(0x01, 1);
    RegisterLayer(RX, a, 8, VL, [RvvIzeta(0x01)], IROOTS, 1);
  }

  /** Values are made canonical after three layers and again at the end. */
  function VectorInverse(a: seq<int>): (r: seq<int>)
    requires |a| == N
    ensures |r| == N
  {
    PowersOfTwo();
    MulQ(FourUp(WINV, MulQ(WideUp(WINV, a, 16, 3, 16), MONT_R1)), MONT_NR)
  }

  method VectorInvNttInPlace(a: array<int>)
    requires a.Length == N
    modifies a
    ensures a[..] == VectorInverse(old(a[..]))
  {
    hide WideUp, MulQ, VectorIntt2, Loaded, FourUp;
    PowersOfTwo();
    ghost var x := a[..];
    ghost var y := WideUp(WINV, x, 16, 3, 16);
    ghost var next := MulQ(y, MONT_R1);
    for p := 0 to 8
      invariant a[..32 * p] == next[..32 * p] && a[32 * p..] == x[32 * p..]
    {
      var w := a[32 * p..32 * p + 32];
      assert w == a[32 * p..][..32] == x[32 * p..32 * p + 32];
      PairUp(x, w, y, p, 32 * p);
      ghost var was, stored := a[..], VectorIntt2(w, Loaded(RvvIzeta, 16 * p));
      Store(a, 32 * p, VectorIntt2(w, Loaded(RvvIzeta, 16 * p)));
      StoredRun(was, a[..], x, next, stored, 32 * p);
    }
    assert a[..256] == a[..] && next[..256] == next;
    RegistersUp(a);
    MulQInPlace(a, MONT_NR);
  }

  method MulQInPlace(a: array<int>, c: int)
    modifies a
    ensures a[..] == MulQ(old(a[..]), c)
  {
    hide FqMulQ;
    for j := 0 to a.Length
      invariant forall i :: 0 <= i < j ==> a[i] == MulQ(old(a[..]), c)[i]
      invariant forall i :: j <= i < a.Length ==> a[i] == old(a[i])
    {
      a[j] := FqMulQ(a[j], c);
    }
  }
}
