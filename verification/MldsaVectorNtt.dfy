/** tools/pqc/mldsa/rvv_poly.c: the transform of ML-DSA on registers of eight 32-bit lanes.
    The permuted lanes and tables compute the layers of the scalar loops, bit for bit. */
module MldsaVectorNtt {
  import opened Polynomials
  import opened Modular
  import opened NttAlgebra
  import opened Butterflies
  import opened Lanes
  import opened VectorLayers
  import opened MldsaReduce
  import opened RootTables
  import opened MldsaZetas
  import opened MldsaVectorTables
  import Scalar = MldsaNtt

  const VL: nat := 8

  /** RVV_BFLY_FX2 and RVV_BFLY_FV2: lanes wrap at 32 bits. */
  const FX2: Rooted := Rooted(
    (z: int, u: int, v: int) => W32(u + MontgomeryReduce(z * v)),
    (z: int, u: int, v: int) => W32(u - MontgomeryReduce(z * v)))

  /** RVV_BFLY_RX2 and RVV_BFLY_RV2. */
  const RX2: Rooted := Rooted(
    (z: int, u: int, v: int) => W32(u + v),
    (z: int, u: int, v: int) => MontgomeryReduce(z * W32(u - v)))

  /** RVV_BFLY_RX2 followed by the final scaling. */
  const LAST: Rooted := Rooted(
    (z: int, u: int, v: int) => MontgomeryReduce(Scalar.F * RX2.lo(z, u, v)),
    (z: int, u: int, v: int) => MontgomeryReduce(Scalar.F * RX2.hi(z, u, v)))

  const ROOTS: nat -> int := (k: nat) => Zeta(k)
  const IROOTS: nat -> int := (k: nat) => InverseZeta(k)
  const WFWD: Butterfly := ByNode(FX2, ROOTS)
  const WINV: Butterfly := ByNode(RX2, IROOTS)

  // ----- two registers at a time

  ghost predicate IsLayout(p: seq<nat>) { |p| == 16 && forall i :: 0 <= i < 16 ==> p[i] < 16 }

  function P4(): (r: seq<nat>)
    ensures IsLayout(r)
  {
    BitswapPerm(2, 3, 16)
  }

  function P2(): (r: seq<nat>)
    ensures IsLayout(r)
  {
    BitswapPerm(1, 3, 16)
  }

  function P1(): (r: seq<nat>)
    ensures IsLayout(r)
  {
    BitswapPerm(0, 3, 16)
  }

  /** The gather at the end: the three swaps in reverse. */
  function P0(): (r: seq<nat>)
    ensures IsLayout(r)
  {
    Gathered(Gathered(P1(), P2()), P4())
  }

  const NATURAL: seq<nat> := [0, 1, 2, 3, 4, 5, 6, 7, 8, 9, 10, 11, 12, 13, 14, 15]
  const LAYOUT4: seq<nat> := [0, 1, 2, 3, 8, 9, 10, 11, 4, 5, 6, 7, 12, 13, 14, 15]
  const LAYOUT2: seq<nat> := [0, 1, 4, 5, 8, 9, 12, 13, 2, 3, 6, 7, 10, 11, 14, 15]
  const LAYOUT1: seq<nat> := [0, 2, 4, 6, 8, 10, 12, 14, 1, 3, 5, 7, 9, 11, 13, 15]

  /** The layouts of the sixteen lanes after one, two and three gathers ... */
  lemma Layouts()
    ensures P4() == LAYOUT4 && Gathered(LAYOUT4, P2()) == LAYOUT2 && Gathered(LAYOUT2, P1()) == LAYOUT1
  {
    hide SwappedLane;
    Lanes23();
    Lanes13();
    Lanes03();
  }

  /** ... and the way back: one swap at a time, or one gather with the three swaps in reverse. */
  lemma LayoutsBack()
    ensures Gathered(LAYOUT1, P1()) == LAYOUT2 && Gathered(LAYOUT2, P2()) == LAYOUT4
         && Gathered(LAYOUT4, P4()) == NATURAL
  {
    hide SwappedLane;
    Lanes23();
    Lanes13();
    Lanes03();
  }

  lemma AllLayouts()
    ensures IsLayout(NATURAL) && IsLayout(LAYOUT4) && IsLayout(LAYOUT2) && IsLayout(LAYOUT1)
  {
  }

  lemma LayoutsUndone()
    ensures Gathered(LAYOUT1, P0()) == NATURAL
  {
    AllLayouts();
    hide P1, P2, P4, LAYOUT1, LAYOUT2, LAYOUT4, NATURAL;
    LayoutsBack();
    GatherTwice(LAYOUT1, P1(), P2());
    GatherTwice(LAYOUT1, Gathered(P1(), P2()), P4());
  }

  function Splat(x: int): (r: seq<int>)
    ensures |r| == VL && forall l :: 0 <= l < VL ==> r[l] == x
  {
    seq(VL, _ => x)
  }

  /** Eight words of a table from o on. */
  function Loaded(table: int -> int, o: nat): (r: seq<int>)
    ensures |r| == VL && forall l :: 0 <= l < VL ==> r[l] == table(o + l)
  {
    seq(VL, l requires 0 <= l < VL => table(o + l))
  }

  /** Lane l of the second and of the third layer takes word 1 + l / 4 or 3 + l / 2 of its group. */
  function Cs4(): (r: seq<nat>)
    ensures r == [1, 1, 1, 1, 2, 2, 2, 2]
  {
    seq(VL, l requires 0 <= l < VL => l / 4 + 1)
  }

  function Cs2(): (r: seq<nat>)
    ensures r == [3, 3, 4, 4, 5, 5, 6, 6]
  {
    seq(VL, l requires 0 <= l < VL => l / 2 + 3)
  }

  function VectorNtt2(v: seq<int>, o: nat): (r: seq<int>)
    requires |v| == 16
    ensures |r| == 16
  {
    var c8, cz := Loaded(RvvZeta, o), Loaded(RvvZeta, o + 8);
    var v1 := LaneLayer(FX2, v, Splat(cz[0]));
    var v2 := LaneLayer(FX2, Gathered(v1, P4()), Gathered(cz, Cs4()));
    var v3 := LaneLayer(FX2, Gathered(v2, P2()), Gathered(cz, Cs2()));
    var v4 := LaneLayer(FX2, Gathered(v3, P1()), c8);
    Gathered(v4, P0())
  }

  function VectorIntt2(v: seq<int>, o: nat): (r: seq<int>)
    requires |v| == 16
    ensures |r| == 16
  {
    var pi := Gathered(Gathered(P4(), P2()), P1());
    var c8, cz := Loaded(RvvIzeta, o), Loaded(RvvIzeta, o + 8);
    var v1 := LaneLayer(RX2, Gathered(v, pi), c8);
    var v2 := LaneLayer(RX2, Gathered(v1, P1()), Gathered(cz, Cs2()));
    var v3 := LaneLayer(RX2, Gathered(v2, P2()), Gathered(cz, Cs4()));
    LaneLayer(RX2, Gathered(v3, P4()), Splat(cz[0]))
  }

  // ----- every lane finds its root

  /** Word j of group g belongs to node, by the layer that uses it. */
  ghost predicate InGroup(g: nat, j: nat, node: nat) {
    node == if j < 8 then 8 * (16 + g) + j else if j < 9 then 16 + g
      else if j < 11 then 2 * (16 + g) + (j - 9) else 4 * (16 + g) + (j - 11)
  }

  lemma GroupRoots(g: nat, j: nat, node: nat)
    requires g < 16 && j < 15 && InGroup(g, j, node)
    ensures RvvZeta(16 * g + j) == Zeta(node) && RvvIzeta(16 * g + j) == InverseZeta(node)
  {
    hide RvvZeta, RvvIzeta, Zeta, InverseZeta;
    assert (16 * g + j) / 16 == g && (16 * g + j) % 16 == j;
    RvvZetaEntry(16 * g + j);
    RvvIzetaEntry(16 * g + j);
  }

  lemma LaneCases(l: nat)
    requires l < 8
    ensures l == 0 || l == 1 || l == 2 || l == 3 || l == 4 || l == 5 || l == 6 || l == 7
  {
  }

  lemma Aligned8(c: seq<int>, z: nat -> int, k: nat)
    requires |c| == 8 && forall l: nat :: l < 8 ==> c[l] == z(k + l / 8)
    ensures Aligned(NATURAL, c, z, 8, k)
  {
    forall l: nat | l < 8
      ensures AlignedLane(NATURAL, c, z, 8, k, l)
    {
      LaneCases(l);
    }
  }

  lemma Aligned4(c: seq<int>, z: nat -> int, k: nat)
    requires |c| == 8 && forall l: nat :: l < 8 ==> c[l] == z(k + l / 4)
    ensures Aligned(LAYOUT4, c, z, 4, k)
  {
    forall l: nat | l < 8
      ensures AlignedLane(LAYOUT4, c, z, 4, k, l)
    {
      LaneCases(l);
    }
  }

  lemma Aligned2(c: seq<int>, z: nat -> int, k: nat)
    requires |c| == 8 && forall l: nat :: l < 8 ==> c[l] == z(k + l / 2)
    ensures Aligned(LAYOUT2, c, z, 2, k)
  {
    forall l: nat | l < 8
      ensures AlignedLane(LAYOUT2, c, z, 2, k, l)
    {
      LaneCases(l);
    }
  }

  lemma Aligned1(c: seq<int>, z: nat -> int, k: nat)
    requires |c| == 8 && forall l: nat :: l < 8 ==> c[l] == z(k + l / 1)
    ensures Aligned(LAYOUT1, c, z, 1, k)
  {
    forall l: nat | l < 8
      ensures AlignedLane(LAYOUT1, c, z, 1, k, l)
    {
      LaneCases(l);
    }
  }

  /** The four layers of group g: distance 8 in natural order, then 4, 2 and 1 permuted. */
  ghost predicate GroupAligned(table: int -> int, z: nat -> int, g: nat) {
    var cz := Loaded(table, 16 * g + 8);
    && Aligned(NATURAL, Splat(cz[0]), z, 8, 16 + g)
    && Aligned(LAYOUT4, Gathered(cz, Cs4()), z, 4, 2 * (16 + g))
    && Aligned(LAYOUT2, Gathered(cz, Cs2()), z, 2, 4 * (16 + g))
    && Aligned(LAYOUT1, Loaded(table, 16 * g), z, 1, 8 * (16 + g))
  }

  ghost predicate GroupTable(table: int -> int, z: nat -> int, g: nat) {
    forall j: nat, node: nat :: j < 15 && InGroup(g, j, node) ==> table(16 * g + j) == z(node)
  }

  lemma Word(table: int -> int, z: nat -> int, g: nat, j: nat, node: nat)
    requires GroupTable(table, z, g) && j < 15 && InGroup(g, j, node)
    ensures table(16 * g + j) == z(node)
  {
  }

  lemma LaneRoots(table: int -> int, z: nat -> int, g: nat, l: nat, cz: seq<int>)
    requires GroupTable(table, z, g) && l < 8 && cz == Loaded(table, 16 * g + 8)
    ensures cz[0] == z(16 + g) && table(16 * g + l) == z(8 * (16 + g) + l)
    ensures Gathered(cz, Cs4())[l] == z(2 * (16 + g) + l / 4)
    ensures Gathered(cz, Cs2())[l] == z(4 * (16 + g) + l / 2)
  {
    hide *;
    FirstRoots(table, z, g, l, cz);
    RootsOf4(table, z, g, l, cz);
    RootsOf2(table, z, g, l, cz);
  }

  lemma FirstRoots(table: int -> int, z: nat -> int, g: nat, l: nat, cz: seq<int>)
    requires GroupTable(table, z, g) && l < 8 && cz == Loaded(table, 16 * g + 8)
    ensures cz[0] == z(16 + g) && table(16 * g + l) == z(8 * (16 + g) + l)
  {
    hide GroupTable, InGroup;
    GroupWords(g, l);
    Word(table, z, g, 8, 16 + g);
    Word(table, z, g, l, 8 * (16 + g) + l);
  }

  lemma RootsOf4(table: int -> int, z: nat -> int, g: nat, l: nat, cz: seq<int>)
    requires GroupTable(table, z, g) && l < 8 && cz == Loaded(table, 16 * g + 8)
    ensures Gathered(cz, Cs4())[l] == z(2 * (16 + g) + l / 4)
  {
    hide GroupTable, InGroup, Cs4;
    GroupWords(g, l);
    Word(table, z, g, 9 + l / 4, 2 * (16 + g) + l / 4);
    LaneSteps(l);
  }

  lemma RootsOf2(table: int -> int, z: nat -> int, g: nat, l: nat, cz: seq<int>)
    requires GroupTable(table, z, g) && l < 8 && cz == Loaded(table, 16 * g + 8)
    ensures Gathered(cz, Cs2())[l] == z(4 * (16 + g) + l / 2)
  {
    hide GroupTable, InGroup, Cs2;
    GroupWords(g, l);
    Word(table, z, g, 11 + l / 2, 4 * (16 + g) + l / 2);
    LaneSteps(l);
  }

  lemma GroupWords(g: nat, l: nat)
    requires l < 8
    ensures InGroup(g, 8, 16 + g) && InGroup(g, l, 8 * (16 + g) + l)
    ensures InGroup(g, 9 + l / 4, 2 * (16 + g) + l / 4) && InGroup(g, 11 + l / 2, 4 * (16 + g) + l / 2)
  {
  }

  lemma LaneSteps(l: nat)
    requires l < 8
    ensures Cs4()[l] == l / 4 + 1 && Cs2()[l] == l / 2 + 3
  {
    LaneCases(l);
  }

  lemma Group8(table: int -> int, z: nat -> int, g: nat, cz: seq<int>)
    requires GroupTable(table, z, g) && cz == Loaded(table, 16 * g + 8)
    ensures Aligned(NATURAL, Splat(cz[0]), z, 8, 16 + g)
  {
    hide Aligned, GroupTable, Cs4, Cs2, Gathered, Splat;
    forall l: nat | l < 8
      ensures Splat(cz[0])[l] == z(16 + g + l / 8)
    {
      LaneRoots(table, z, g, l, cz);
    }
    Aligned8(Splat(cz[0]), z, 16 + g);
  }

  lemma Group4(table: int -> int, z: nat -> int, g: nat, cz: seq<int>)
    requires GroupTable(table, z, g) && cz == Loaded(table, 16 * g + 8)
    ensures Aligned(LAYOUT4, Gathered(cz, Cs4()), z, 4, 2 * (16 + g))
  {
    hide Aligned, GroupTable, Cs4, Cs2, Gathered, Splat;
    forall l: nat | l < 8
      ensures Gathered(cz, Cs4())[l] == z(2 * (16 + g) + l / 4)
    {
      LaneRoots(table, z, g, l, cz);
    }
    Aligned4(Gathered(cz, Cs4()), z, 2 * (16 + g));
  }

  lemma Group2(table: int -> int, z: nat -> int, g: nat, cz: seq<int>)
    requires GroupTable(table, z, g) && cz == Loaded(table, 16 * g + 8)
    ensures Aligned(LAYOUT2, Gathered(cz, Cs2()), z, 2, 4 * (16 + g))
  {
    hide Aligned, GroupTable, Cs4, Cs2, Gathered, Splat;
    forall l: nat | l < 8
      ensures Gathered(cz, Cs2())[l] == z(4 * (16 + g) + l / 2)
    {
      LaneRoots(table, z, g, l, cz);
    }
    Aligned2(Gathered(cz, Cs2()), z, 4 * (16 + g));
  }

  lemma Group1(table: int -> int, z: nat -> int, g: nat, cz: seq<int>)
    requires GroupTable(table, z, g) && cz == Loaded(table, 16 * g + 8)
    ensures Aligned(LAYOUT1, Loaded(table, 16 * g), z, 1, 8 * (16 + g))
  {
    hide Aligned, GroupTable, Cs4, Cs2, Gathered, Splat;
    forall l: nat | l < 8
      ensures Loaded(table, 16 * g)[l] == z(8 * (16 + g) + l / 1)
    {
      LaneRoots(table, z, g, l, cz);
    }
    Aligned1(Loaded(table, 16 * g), z, 8 * (16 + g));
  }

  lemma LanesAligned(table: int -> int, z: nat -> int, g: nat)
    requires GroupTable(table, z, g)
    ensures GroupAligned(table, z, g)
  {
    hide Aligned, GroupTable;
    var cz := Loaded(table, 16 * g + 8);
    Group8(table, z, g, cz);
    Group4(table, z, g, cz);
    Group2(table, z, g, cz);
    Group1(table, z, g, cz);
  }

  lemma GroupTables(g: nat)
    requires g < 16
    ensures GroupTable(RvvZeta, ROOTS, g) && GroupTable(RvvIzeta, IROOTS, g)
  {
    hide InGroup, RvvZeta, RvvIzeta, Zeta, InverseZeta;
    forall j: nat, node: nat | j < 15 && InGroup(g, j, node)
      ensures RvvZeta(16 * g + j) == ROOTS(node) && RvvIzeta(16 * g + j) == IROOTS(node)
    {
      GroupRoots(g, j, node);
    }
  }

  // ----- four layers in registers

  lemma Naturally(x: seq<int>)
    requires |x| == 16
    ensures Gathered(x, NATURAL) == x
  {
    forall i: nat | i < 16
      ensures NATURAL[i] == i
    {
      assert i == 8 || i == 9 || i == 10 || i == 11 || i == 12 || i == 13 || i == 14 || i == 15 || i < 8;
      if i < 8 {
        LaneCases(i);
      }
    }
  }

  /** A layer in layout p, and the gather that leads to layout r. */
  lemma GatherStage(g: Rooted, z: nat -> int, w: seq<int>, p: seq<nat>, c: seq<int>, s: seq<nat>, r: seq<nat>,
                    len: nat, k: nat, m: nat)
    requires len > 0 && |w| == |p| == |s| == 2 * |c| == m * (2 * len) && Aligned(p, c, z, len, k)
    requires (forall i :: 0 <= i < |s| ==> s[i] < |p|) && Gathered(p, s) == r
    ensures forall i :: 0 <= i < |p| ==> p[i] < |w|
    ensures Gathered(LaneLayer(g, Gathered(w, p), c), s) == Gathered(Layer(ByNode(g, z), w, len, k, m), r)
  {
    hide Layer, LaneLayer, Aligned;
    Stage(g, z, w, p, c, len, k, m);
    GatherTwice(Layer(ByNode(g, z), w, len, k, m), p, s);
  }

  function FourDown(f: Butterfly, v: seq<int>, k: nat): (r: seq<int>)
    requires |v| == 16
    ensures |r| == 16
  {
    Layer(f, Layer(f, Layer(f, Layer(f, v, 8, k, 1), 4, 2 * k, 2), 2, 4 * k, 4), 1, 8 * k, 8)
  }

  function FourUp(f: Butterfly, v: seq<int>, k: nat): (r: seq<int>)
    requires |v| == 16
    ensures |r| == 16
  {
    Layer(f, Layer(f, Layer(f, Layer(f, v, 1, 8 * k, 8), 2, 4 * k, 4), 4, 2 * k, 2), 8, k, 1)
  }

  lemma FourStagesDown(g: Rooted, z: nat -> int, v: seq<int>, k: nat, id: seq<nat>, l4: seq<nat>, l2: seq<nat>,
       l1: seq<nat>,
                       p2: seq<nat>, p1: seq<nat>, p0: seq<nat>, c8: seq<int>, c4: seq<int>, c2: seq<int>, c1: seq<int>)
    requires |v| == 16 && IsLayout(id) && IsLayout(l4) && IsLayout(l2) && IsLayout(l1) && IsLayout(p2) && IsLayout(p1)
         && IsLayout(p0)
    requires |c8| == |c4| == |c2| == |c1| == 8
    requires Aligned(id, c8, z, 8, k) && Aligned(l4, c4, z, 4, 2 * k) && Aligned(l2, c2, z, 2, 4 * k)
         && Aligned(l1, c1, z, 1, 8 * k)
    requires Gathered(l4, p2) == l2 && Gathered(l2, p1) == l1 && Gathered(l1, p0) == id
    requires forall x: seq<int> :: |x| == 16 ==> Gathered(x, id) == x
    ensures var w1 := LaneLayer(g, v, c8);
      var w2 := LaneLayer(g, Gathered(w1, l4), c4);
      var w3 := LaneLayer(g, Gathered(w2, p2), c2);
      var w4 := LaneLayer(g, Gathered(w3, p1), c1);
      Gathered(w4, p0) == FourDown(ByNode(g, z), v, k)
  {
    hide Layer, LaneLayer, Aligned, Gathered;
    var f := ByNode(g, z);
    Stage(g, z, v, id, c8, 8, k, 1);
    var x1 := Layer(f, v, 8, k, 1);
    GatherStage(g, z, x1, l4, c4, p2, l2, 4, 2 * k, 2);
    var x2 := Layer(f, x1, 4, 2 * k, 2);
    GatherStage(g, z, x2, l2, c2, p1, l1, 2, 4 * k, 4);
    var x3 := Layer(f, x2, 2, 4 * k, 4);
    GatherStage(g, z, x3, l1, c1, p0, id, 1, 8 * k, 8);
  }

  lemma FourStagesUp(g: Rooted, z: nat -> int, v: seq<int>, k: nat, id: seq<nat>, l4: seq<nat>, l2: seq<nat>,
       l1: seq<nat>,
                     p4: seq<nat>, p2: seq<nat>, p1: seq<nat>, c8: seq<int>, c4: seq<int>, c2: seq<int>, c1: seq<int>)
    requires |v| == 16 && IsLayout(id) && IsLayout(l4) && IsLayout(l2) && IsLayout(l1) && IsLayout(p4) && IsLayout(p2)
         && IsLayout(p1)
    requires |c8| == |c4| == |c2| == |c1| == 8
    requires Aligned(id, c8, z, 8, k) && Aligned(l4, c4, z, 4, 2 * k) && Aligned(l2, c2, z, 2, 4 * k)
         && Aligned(l1, c1, z, 1, 8 * k)
    requires Gathered(l1, p1) == l2 && Gathered(l2, p2) == l4 && Gathered(l4, p4) == id
    requires forall x: seq<int> :: |x| == 16 ==> Gathered(x, id) == x
    ensures var w1 := LaneLayer(g, Gathered(v, l1), c1);
      var w2 := LaneLayer(g, Gathered(w1, p1), c2);
      var w3 := LaneLayer(g, Gathered(w2, p2), c4);
      LaneLayer(g, Gathered(w3, p4), c8) == FourUp(ByNode(g, z), v, k)
  {
    hide Layer, LaneLayer, Aligned, Gathered;
    var f := ByNode(g, z);
    GatherStage(g, z, v, l1, c1, p1, l2, 1, 8 * k, 8);
    var x1 := Layer(f, v, 1, 8 * k, 8);
    GatherStage(g, z, x1, l2, c2, p2, l4, 2, 4 * k, 4);
    var x2 := Layer(f, x1, 2, 4 * k, 4);
    GatherStage(g, z, x2, l4, c4, p4, id, 4, 2 * k, 2);
    var x3 := Layer(f, x2, 4, 2 * k, 2);
    Stage(g, z, x3, id, c8, 8, k, 1);
  }

  lemma AllNaturally()
    ensures forall x: seq<int> :: |x| == 16 ==> Gathered(x, NATURAL) == x
  {
    forall x: seq<int> | |x| == 16
      ensures Gathered(x, NATURAL) == x
    {
      Naturally(x);
    }
  }

  /** vector_ntt2 on group g is the last four layers below node 16 + g, in natural order. */
  lemma VectorNtt2Layers(v: seq<int>, g: nat)
    requires |v| == 16 && g < 16
    ensures VectorNtt2(v, 16 * g) == FourDown(WFWD, v, 16 + g)
  {
    AllLayouts();
    hide Layer, LaneLayer, Aligned, P4, P2, P1, P0, Splat, Loaded, Cs4, Cs2, GroupTable, FourDown, FX2, ROOTS,
         RvvZeta, Zeta, Gathered;
    hide NATURAL, LAYOUT4, LAYOUT2, LAYOUT1;
    GroupTables(g);
    LanesAligned(RvvZeta, ROOTS, g);
    Layouts();
    LayoutsUndone();
    AllNaturally();
    var c8, cz := Loaded(RvvZeta, 16 * g), Loaded(RvvZeta, 16 * g + 8);
    FourStagesDown(FX2, ROOTS, v, 16 + g, NATURAL, LAYOUT4, LAYOUT2, LAYOUT1, P2(), P1(), P0(),
                   Splat(cz[0]), Gathered(cz, Cs4()), Gathered(cz, Cs2()), c8);
  }

  /** vector_intt2 on group g is the first four inverse layers below node 16 + g. */
  lemma VectorIntt2Layers(v: seq<int>, g: nat)
    requires |v| == 16 && g < 16
    ensures VectorIntt2(v, 16 * g) == FourUp(WINV, v, 16 + g)
  {
    AllLayouts();
    hide Layer, LaneLayer, Aligned, P4, P2, P1, Splat, Loaded, Cs4, Cs2, GroupTable, FourUp, RX2, IROOTS, RvvIzeta,
         InverseZeta, Gathered;
    hide NATURAL, LAYOUT4, LAYOUT2, LAYOUT1;
    GroupTables(g);
    LanesAligned(RvvIzeta, IROOTS, g);
    Layouts();
    LayoutsBack();
    AllNaturally();
    var c8, cz := Loaded(RvvIzeta, 16 * g), Loaded(RvvIzeta, 16 * g + 8);
    FourStagesUp(RX2, IROOTS, v, 16 + g, NATURAL, LAYOUT4, LAYOUT2, LAYOUT1, P4(), P2(), P1(),
                 Splat(cz[0]), Gathered(cz, Cs4()), Gathered(cz, Cs2()), c8);
  }

  // ----- the whole transform

  /** Layers as the recursion counts them. */
  lemma LastFour(f: Butterfly, v: seq<int>, k: nat)
    requires |v| == 16
    ensures Pow2(4) == 16 && FourDown(f, v, k) == DownLayers(f, v, k, 4, 1)
         && FourUp(f, v, k) == UpLayers(f, v, k, 4, 1)
  {
    hide Layer;
    PowersOfTwo();
    assert DownLayers(f, Layer(f, v, 8, k, 1), 2 * k, 3, 2) == DownLayers(f,
         Layer(f, Layer(f, v, 8, k, 1), 4, 2 * k, 2), 4 * k, 2, 4);
    assert UpLayers(f, v, 4 * k, 2, 4) == Layer(f, UpLayers(f, v, 8 * k, 1, 8), 2, 4 * k, 4);
    assert UpLayers(f, v, 8 * k, 1, 8) == Layer(f, UpLayers(f, v, 16 * k, 0, 16), 1, 8 * k, 8);
  }

  lemma FirstThree(f: Butterfly, b: seq<int>, k: nat)
    requires |b| == 128
    ensures Pow2(7) == 128 && Pow2(4) == 16
    ensures var x := Layer(f, Layer(f, Layer(f, b, 64, k, 1), 32, 2 * k, 2), 16, 4 * k, 4);
      DownLayers(f, b, k, 7, 1) == DownLayers(f, x, 8 * k, 4, 8)
    ensures var y := UpLayers(f, b, 8 * k, 4, 8);
      UpLayers(f, b, k, 7, 1) == Layer(f, Layer(f, Layer(f, y, 16, 4 * k, 4), 32, 2 * k, 2), 64, k, 1)
  {
    hide Layer;
    PowersOfTwo();
    var x1 := Layer(f, b, 64, k, 1);
    var x2 := Layer(f, x1, 32, 2 * k, 2);
    assert DownLayers(f, x1, 2 * k, 6, 2) == DownLayers(f, x2, 4 * k, 5, 4);
    assert DownLayers(f, x2, 4 * k, 5, 4) == DownLayers(f, Layer(f, x2, 16, 4 * k, 4), 8 * k, 4, 8);
    assert UpLayers(f, b, 4 * k, 5, 4) == Layer(f, UpLayers(f, b, 8 * k, 4, 8), 16, 4 * k, 4);
    assert UpLayers(f, b, 2 * k, 6, 2) == Layer(f, UpLayers(f, b, 4 * k, 5, 4), 32, 2 * k, 2);
  }

  /** The last word of a group is the root of an early layer. */
  lemma LastWord(i: nat, node: nat)
    requires 1 <= node < 16 && i == 16 * node + 15
    ensures RvvZeta(i) == ROOTS(node)
  {
    hide RvvZeta, Zeta;
    assert i / 16 == node && i % 16 == 15;
    RvvZetaEntry(i);
  }

  /** Sixteen registers from i on. */
  method LoadRegisters(a: array<int>, i: nat) returns (b: array<int>)
    requires i + 128 <= a.Length
    ensures fresh(b) && b.Length == 128 && b[..] == a[i..i + 128]
  {
    b := new int[128];
    for j := 0 to 128
      invariant b[..j] == a[i..i + j]
    {
      b[j] := a[i + j];
    }
    assert b[..128] == b[..];
  }

  /** Layers two to four of the sixteen registers that start at i. */
  method RegistersDown(b: array<int>, i: nat, ghost k: nat)
    requires b.Length == 128 && (i == 0 || i == 128) && k == 2 + i / 128
    modifies b
    ensures DownLayers(WFWD, b[..], 8 * k, 4, 8) == DownLayers(WFWD, old(b[..]), k, 7, 1)
  {
    hide Layer, DownLayers, RvvZeta, ROOTS, FX2;
    ghost var first := b[..];
    FirstThree(WFWD, first, k);
    LastWord(0x2f + i / 8, k);
    RegisterLayer(FX2, b, 8, VL, [RvvZeta(0x2f + i / 8)], ROOTS, k);
    LastWord(0x4f + i / 4, 2 * k);
    LastWord(0x5f + i / 4, 2 * k + 1);
    RegisterLayer(FX2, b, 4, VL, [RvvZeta(0x4f + i / 4), RvvZeta(0x5f + i / 4)], ROOTS, 2 * k);
    LastWord(0x8f + i / 2, 4 * k);
    LastWord(0x9f + i / 2, 4 * k + 1);
    LastWord(0xaf + i / 2, 4 * k + 2);
    LastWord(0xbf + i / 2, 4 * k + 3);
    RegisterLayer(FX2, b, 2, VL,
         [RvvZeta(0x8f + i / 2), RvvZeta(0x9f + i / 2), RvvZeta(0xaf + i / 2), RvvZeta(0xbf + i / 2)],
                  ROOTS, 4 * k);
  }

  /** Pair r of the registers at i. */
  lemma PairDown(x: seq<int>, w: seq<int>, i: nat, k: nat, r: nat, start: nat)
    requires |x| == 128 && (i == 0 || i == 128) && k == 2 + i / 128 && r < 8 && Pow2(4) == 16
    requires start == 16 * r && w == x[start..start + 16]
    ensures VectorNtt2(w, i + start) == DownLayers(WFWD, x, 8 * k, 4, 8)[start..start + 16]
  {
    hide *;
    var g, node := i / 16 + r, 8 * k + r;
    assert i + start == 16 * g && node == 16 + g && g < 16;
    PairLayers(x, w, r, start, g, node, 8 * k);
  }

  lemma PairLayers(x: seq<int>, w: seq<int>, r: nat, start: nat, g: nat, node: nat, k: nat)
    requires |x| == 128 && r < 8 && g < 16 && node == 16 + g == k + r && Pow2(4) == 16
    requires start == r * 16 && start + 16 <= 128 && w == x[start..start + 16]
    ensures VectorNtt2(w, 16 * g) == DownLayers(WFWD, x, k, 4, 8)[start..start + 16]
    ensures VectorIntt2(w, 16 * g) == UpLayers(WINV, x, k, 4, 8)[start..start + 16]
  {
    hide VectorNtt2, VectorIntt2, DownLayers, UpLayers, FourDown, FourUp, Pow2, FX2, RX2, ROOTS, IROOTS, Layer;
    VectorNtt2Layers(w, g);
    VectorIntt2Layers(w, g);
    ChunkOfDown(WFWD, x, k, 4, 8, r, start, 16);
    ChunkOfUp(WINV, x, k, 4, 8, r, start, 16);
    LastFour(WFWD, w, node);
    LastFour(WINV, w, node);
  }

  lemma PairUp(x: seq<int>, w: seq<int>, i: nat, k: nat, r: nat, start: nat)
    requires |x| == 128 && (i == 0 || i == 128) && k == 2 + i / 128 && r < 8 && Pow2(4) == 16
    requires start == 16 * r && w == x[start..start + 16]
    ensures VectorIntt2(w, i + start) == UpLayers(WINV, x, 8 * k, 4, 8)[start..start + 16]
  {
    hide *;
    var g, node := i / 16 + r, 8 * k + r;
    assert i + start == 16 * g && node == 16 + g && g < 16;
    PairLayers(x, w, r, start, g, node, 8 * k);
  }

  method ChunkDown(a: array<int>, i: nat)
    requires a.Length == N && (i == 0 || i == 128)
    modifies a
    ensures Pow2(7) == 128
    ensures a[..i] == old(a[..i]) && a[i + 128..] == old(a[i + 128..])
    ensures a[i..i + 128] == DownLayers(WFWD, old(a[i..i + 128]), 2 + i / 128, 7, 1)
  {
    hide DownLayers, VectorNtt2;
    PowersOfTwo();
    ghost var k := 2 + i / 128;
    var b := LoadRegisters(a, i);
    RegistersDown(b, i, k);
    ghost var x := b[..];
    ghost var next := DownLayers(WFWD, x, 8 * k, 4, 8);
    for r := 0 to 8
      invariant b[..] == x
      invariant a[..i] == old(a[..i]) && a[i + 128..] == old(a[i + 128..])
      invariant a[i..i + 16 * r] == next[..16 * r]
    {
      PairDown(x, x[16 * r..16 * r + 16], i, k, r, 16 * r);
      Store(a, i + 16 * r, VectorNtt2(b[16 * r..16 * r + 16], i + 16 * r));
      assert next[..16 * r] + next[16 * r..16 * r + 16] == next[..16 * (r + 1)];
    }
    assert next[..128] == next;
  }

  /** The vector mldsa_ntt computes the eight layers of the scalar loops on wrapping words. */
  method VectorNttInPlace(a: array<int>)
    requires a.Length == N
    modifies a
    ensures Pow2(8) == N && a[..] == DownLayers(WFWD, old(a[..]), 1, 8, 1)
  {
    hide Layer, DownLayers, RvvZeta, ROOTS, FX2;
    PowersOfTwo();
    ghost var first := a[..];
    LastWord(0x1f, 1);
    RegisterLayer(FX2, a, 16, VL, [RvvZeta(0x1f)], ROOTS, 1);
    ghost var x := a[..];
    DownStep(WFWD, first);
    ghost var next := DownLayers(WFWD, x, 2, 7, 2);
    ChunkOfDown(WFWD, x, 2, 7, 2, 0, 0, 128);
    ChunkOfDown(WFWD, x, 2, 7, 2, 1, 128, 128);
    for c := 0 to 2
      invariant a[..128 * c] == next[..128 * c] && a[128 * c..] == x[128 * c..]
    {
      ghost var was := a[..];
      assert was[128 * c..128 * c + 128] == was[128 * c..][..128] == x[128 * c..][..128] == x[128 * c..128 * c + 128];
      ChunkDown(a, 128 * c);
      assert a[..] == a[..128 * c] + a[128 * c..128 * c + 128] + a[128 * c + 128..];
      assert next[..128 * (c + 1)] == next[..128 * c] + next[128 * c..128 * c + 128];
    }
    assert a[..256] == a[..] && next[..256] == next;
  }

  lemma DownStep(f: Butterfly, x: seq<int>)
    requires |x| == N
    ensures Pow2(8) == N && Pow2(7) == 128
    ensures DownLayers(f, x, 1, 8, 1) == DownLayers(f, Layer(f, x, 128, 1, 1), 2, 7, 2)
  {
    PowersOfTwo();
  }

  // ----- the inverse

  lemma BackwardsRoot(k: nat, node: nat)
    requires 1 <= node < 16 && k == Mirror(node)
    ensures -Zeta(k) == IROOTS(node)
  {
    hide Zeta;
  }

  /** The inverse of layers two to four, with the scalar table read backwards. */
  method RegistersUp(b: array<int>, i: nat, ghost k: nat, ghost first: seq<int>)
    requires b.Length == |first| == 128 && (i == 0 || i == 128) && k == 2 + i / 128
    requires Pow2(4) == 16 && b[..] == UpLayers(WINV, first, 8 * k, 4, 8)
    modifies b
    ensures Pow2(7) == 128 && b[..] == UpLayers(WINV, first, k, 7, 1)
  {
    hide Layer, UpLayers, Zeta, IROOTS, RX2;
    FirstThree(WINV, first, k);
    var g16, g32 := i / 32, i / 64;
    BackwardsRoot(15 - g16, 4 * k);
    BackwardsRoot(15 - (g16 + 1), 4 * k + 1);
    BackwardsRoot(15 - (g16 + 2), 4 * k + 2);
    BackwardsRoot(15 - (g16 + 3), 4 * k + 3);
    RegisterLayer(RX2, b, 2, VL, [-Zeta(15 - g16), -Zeta(15 - (g16 + 1)), -Zeta(15 - (g16 + 2)), -Zeta(15 - (g16 + 3))],
         IROOTS, 4 * k);
    BackwardsRoot(7 - g32, 2 * k);
    BackwardsRoot(7 - (g32 + 1), 2 * k + 1);
    RegisterLayer(RX2, b, 4, VL, [-Zeta(7 - g32), -Zeta(7 - (g32 + 1))], IROOTS, 2 * k);
    BackwardsRoot(3 - i / 128, k);
    RegisterLayer(RX2, b, 8, VL, [-Zeta(3 - i / 128)], IROOTS, k);
  }

  method ChunkUp(a: array<int>, i: nat)
    requires a.Length == N && (i == 0 || i == 128)
    modifies a
    ensures Pow2(7) == 128
    ensures a[..i] == old(a[..i]) && a[i + 128..] == old(a[i + 128..])
    ensures a[i..i + 128] == UpLayers(WINV, old(a[i..i + 128]), 2 + i / 128, 7, 1)
  {
    hide UpLayers, VectorIntt2;
    PowersOfTwo();
    ghost var k := 2 + i / 128;
    var b := LoadRegisters(a, i);
    ghost var x := b[..];
    ghost var next := UpLayers(WINV, x, 8 * k, 4, 8);
    for r := 0 to 8
      invariant a[..] == old(a[..]) && a[i..i + 128] == x
      invariant b[..16 * r] == next[..16 * r]
    {
      var w := a[i + 16 * r..i + 16 * r + 16];
      SliceOfSlice(a[..], w, x, i, 16 * r);
      PairUp(x, w, i, k, r, 16 * r);
      Store(b, 16 * r, VectorIntt2(w, i + 16 * r));
      assert next[..16 * r] + next[16 * r..16 * r + 16] == next[..16 * (r + 1)];
    }
    assert next[..128] == next && b[..128] == b[..];
    RegistersUp(b, i, k, x);
    Store(a, i, b[..]);
  }

  lemma UpStep(f: Butterfly, x: seq<int>)
    requires |x| == N
    ensures Pow2(8) == N && Pow2(7) == 128
    ensures UpLayers(f, x, 1, 8, 1) == Layer(f, UpLayers(f, x, 2, 7, 2), 128, 1, 1)
  {
    PowersOfTwo();
  }

  /** The last butterfly with its scaling is the butterfly, then the scaling. */
  lemma ScaledLast(x: seq<int>)
    requires |x| == N
    ensures Layer(ByNode(LAST, IROOTS), x, 128, 1, 1) == Scalar.Scaled(Layer(WINV, x, 128, 1, 1))
  {
    hide MontgomeryReduce, InverseZeta, W32;
  }

  /** The vector mldsa_invntt computes the inverse layers and the scaling on wrapping words. */
  method VectorInvNttInPlace(a: array<int>)
    requires a.Length == N
    modifies a
    ensures Pow2(8) == N && a[..] == Scalar.Scaled(UpLayers(WINV, old(a[..]), 1, 8, 1))
  {
    hide Layer, UpLayers, Zeta, IROOTS, RX2, LAST, Scalar.Scaled;
    PowersOfTwo();
    ghost var x := a[..];
    ghost var next := UpLayers(WINV, x, 2, 7, 2);
    ChunkOfUp(WINV, x, 2, 7, 2, 0, 0, 128);
    ChunkOfUp(WINV, x, 2, 7, 2, 1, 128, 128);
    for c := 0 to 2
      invariant a[..128 * c] == next[..128 * c] && a[128 * c..] == x[128 * c..]
    {
      ghost var was := a[..];
      assert was[128 * c..128 * c + 128] == was[128 * c..][..128] == x[128 * c..][..128] == x[128 * c..128 * c + 128];
      ChunkUp(a, 128 * c);
      assert a[..] == a[..128 * c] + a[128 * c..128 * c + 128] + a[128 * c + 128..];
      assert next[..128 * (c + 1)] == next[..128 * c] + next[128 * c..128 * c + 128];
    }
    assert a[..256] == a[..] && next[..256] == next;
    UpStep(WINV, x);
    ScaledLast(next);
    BackwardsRoot(1, 1);
    RegisterLayer(LAST, a, 16, VL, [-Zeta(1)], IROOTS, 1);
  }

  // ----- bit-identical to the scalar loops

  lemma SameForward(a: seq<int>, len: nat, k: nat, m: nat, limit: int)
    requires 0 <= limit && limit + Q < 0x8000_0000 && Within(a, limit) && len > 0 && |a| == m * (2 * len)
    ensures Layer(WFWD, a, len, k, m) == Layer(Scalar.FWD, a, len, k, m)
    ensures Within(Layer(WFWD, a, len, k, m), limit + Q)
  {
    hide MontgomeryReduce, Zeta, Cong, Comb, Within, ForwardOk;
    Scalar.FwdOk(limit);
    LayerForward(Scalar.FWD, W, a, len, k, m, limit, limit + Q, Q);
    forall j | 0 <= j < |a|
      ensures LayerAt(WFWD, a, len, k, m, j) == LayerAt(Scalar.FWD, a, len, k, m, j)
    {
      SameForwardAt(a, len, k, m, j, limit);
    }
  }

  lemma SameForwardAt(a: seq<int>, len: nat, k: nat, m: nat, j: nat, limit: int)
    requires 0 <= limit && limit + Q < 0x8000_0000 && Within(a, limit) && len > 0 && |a| == m * (2 * len) && j < |a|
    ensures LayerAt(WFWD, a, len, k, m, j) == LayerAt(Scalar.FWD, a, len, k, m, j)
  {
    hide MontgomeryReduce, Zeta, Cong, Comb;
    BlockIndex(len, m, j);
    var node := k + j / (2 * len);
    var i := if j % (2 * len) < len then j else j - len;
    Scalar.FwdStep(node, a[i], a[i + len], limit);
  }

  lemma {:induction false} SameDown(a: seq<int>, k: nat, d: nat, m: nat, limit: int)
    requires 0 <= limit && limit + d * Q < 0x8000_0000 && Within(a, limit) && |a| == m * Pow2(d)
    ensures DownLayers(WFWD, a, k, d, m) == DownLayers(Scalar.FWD, a, k, d, m)
    decreases d
  {
    hide Layer, Within;
    if d > 0 {
      SameForward(a, Pow2(d - 1), k, m, limit);
      SameDown(Layer(WFWD, a, Pow2(d - 1), k, m), 2 * k, d - 1, 2 * m, limit + Q);
    }
  }

  lemma SameInverseAt(a: seq<int>, len: nat, k: nat, m: nat, j: nat, limit: int)
    requires Q <= limit && 2 * limit < 0x8000_0000 && Within(a, limit) && len > 0 && |a| == m * (2 * len) && j < |a|
    ensures LayerAt(WINV, a, len, k, m, j) == LayerAt(Scalar.INV, a, len, k, m, j)
  {
    hide MontgomeryReduce, InverseZeta;
    BlockIndex(len, m, j);
  }

  lemma SameInverse(a: seq<int>, len: nat, k: nat, m: nat, limit: int)
    requires Q <= limit && 2 * limit < 0x8000_0000 && Within(a, limit) && len > 0 && |a| == m * (2 * len)
    ensures Layer(WINV, a, len, k, m) == Layer(Scalar.INV, a, len, k, m)
    ensures Within(Layer(WINV, a, len, k, m), 2 * limit)
  {
    hide MontgomeryReduce, InverseZeta, Cong, Prod, Within, InverseOk;
    Scalar.InvOk(limit);
    LayerInverse(Scalar.INV, IW, a, len, k, m, limit, 2 * limit, Q);
    forall j | 0 <= j < |a|
      ensures LayerAt(WINV, a, len, k, m, j) == LayerAt(Scalar.INV, a, len, k, m, j)
    {
      SameInverseAt(a, len, k, m, j, limit);
    }
  }

  lemma {:induction false} SameUp(a: seq<int>, k: nat, d: nat, m: nat)
    requires d <= 8 && Within(a, Q) && |a| == m * Pow2(d)
    ensures UpLayers(WINV, a, k, d, m) == UpLayers(Scalar.INV, a, k, d, m)
    ensures Within(UpLayers(WINV, a, k, d, m), Pow2(d) * Q)
    decreases d
  {
    hide Layer, Within;
    if d > 0 {
      SameUp(a, 2 * k, d - 1, 2 * m);
      Scalar.PowerAtMost(d - 1);
      SameInverse(UpLayers(WINV, a, 2 * k, d - 1, 2 * m), Pow2(d - 1), k, m, Pow2(d - 1) * Q);
    }
  }

  /** The vector transform gives the scalar one on every input for which the scalar one cannot overflow. */
  method VectorNtt(a: array<int>, ghost bound: nat)
    requires a.Length == N && Within(a[..], bound) && bound + 8 * Q < 0x8000_0000
    modifies a
    ensures a[..] == Scalar.Ntt(old(a[..]))
  {
    hide DownLayers, Within;
    PowersOfTwo();
    SameDown(a[..], 1, 8, 1, bound);
    VectorNttInPlace(a);
  }

  method VectorInvNtt(a: array<int>)
    requires a.Length == N && Within(a[..], Q)
    modifies a
    ensures a[..] == Scalar.InvNtt(old(a[..]))
  {
    hide UpLayers, Within, Scalar.Scaled;
    PowersOfTwo();
    SameUp(a[..], 1, 8, 1);
    VectorInvNttInPlace(a);
  }
}
