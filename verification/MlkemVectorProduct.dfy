/** tools/pqc/mlkem/rvv_poly.c: poly_basemul_montgomery on sixteen lanes, pairs side by side,
    and the ring product that the vector transform, the vector product and the inverse make. */
module MlkemVectorProduct {
  import opened Modular
  import opened Polynomials
  import opened NttAlgebra
  import opened Butterflies
  import opened Lanes
  import opened VectorLayers
  import opened MlkemReduce
  import opened MlkemZetas
  import opened MlkemProduct
  import opened MlkemVectorReduce
  import opened MlkemVectorTables
  import opened MlkemVectorNtt
  import opened MlkemVectorCorrect
  import Scalar = MlkemNtt

  // ----- the instructions, on sixteen lanes

  /** sw0: the lane number with its lowest bit flipped. */
  function Neighbours(): (r: seq<nat>)
    ensures IsSelection(r)
  {
    seq(VL, l requires 0 <= l < VL => if l % 2 == 0 then l + 1 else l - 1)
  }

  function MulLanes(x: seq<int>, y: seq<int>): (r: seq<int>)
    requires |x| == |y| == VL
    ensures |r| == VL
  {
    seq(VL, l requires 0 <= l < VL => FqMulVector(x[l], y[l]))
  }

  /** The widening product: 32-bit lanes. */
  function WideProducts(x: seq<int>, y: seq<int>): (r: seq<int>)
    requires |x| == |y| == VL
    ensures |r| == VL
  {
    seq(VL, l requires 0 <= l < VL => x[l] * y[l])
  }

  function SlideDown(w: seq<int>): (r: seq<int>)
    requires |w| == VL
    ensures |r| == VL
  {
    seq(VL, l requires 0 <= l < VL => if l < VL - 1 then w[l + 1] else 0)
  }

  /** Lane 0 keeps the value of the destination, which is w itself. */
  function SlideUp(w: seq<int>): (r: seq<int>)
    requires |w| == VL
    ensures |r| == VL
  {
    seq(VL, l requires 0 <= l < VL => if l == 0 then w[0] else w[l - 1])
  }

  function AddWide(v: seq<int>, w: seq<int>): (r: seq<int>)
    requires |v| == |w| == VL
    ensures |r| == VL
  {
    seq(VL, l requires 0 <= l < VL => W32(v[l] + w[l]))
  }

  /** Even lanes from wa, odd lanes from wb, each reduced to 16 bits. */
  function MergedRedc(wa: seq<int>, wb: seq<int>): (r: seq<int>)
    requires |wa| == |wb| == VL
    ensures |r| == VL
  {
    seq(VL, l requires 0 <= l < VL => FqRedc2(if l % 2 == 0 then wa[l] else wb[l]))
  }

  function BaseLanes(vz: seq<int>, vt: seq<int>, vu: seq<int>): (r: seq<int>)
    requires |vz| == |vt| == |vu| == VL
    ensures |r| == VL
  {
    var wa := WideProducts(vz, MulLanes(vt, vu));
    var wb := WideProducts(vt, Gathered(vu, Neighbours()));
    MergedRedc(AddWide(wa, SlideDown(wa)), AddWide(wb, SlideUp(wb)))
  }

  // ----- what a lane holds

  function EvenLane(z0: int, z1: int, x0: int, x1: int, y0: int, y1: int): (r: int) {
    FqRedc2(W32(z0 * FqMulVector(x0, y0) + z1 * FqMulVector(x1, y1)))
  }

  function OddLane(x0: int, x1: int, y0: int, y1: int): (r: int) { FqRedc2(W32(x1 * y0 + x0 * y1)) }

  /** The sums of neighbouring products. */
  lemma EvenSum(vz: seq<int>, vt: seq<int>, vu: seq<int>, l: nat)
    requires |vz| == |vt| == |vu| == VL && l < VL && l % 2 == 0
    ensures l + 1 < VL
    ensures var wa := WideProducts(vz, MulLanes(vt, vu));
      AddWide(wa, SlideDown(wa))[l] == W32(vz[l] * FqMulVector(vt[l], vu[l]) + vz[l + 1] * FqMulVector(vt[l + 1],
           vu[l + 1]))
  {
    hide FqMulVector, W32;
    var h := MulLanes(vt, vu);
    assert h[l] == FqMulVector(vt[l], vu[l]) && h[l + 1] == FqMulVector(vt[l + 1], vu[l + 1]);
    hide MulLanes;
    var wa := WideProducts(vz, h);
    assert wa[l] == vz[l] * h[l] && wa[l + 1] == vz[l + 1] * h[l + 1];
    hide WideProducts;
    var s := SlideDown(wa);
    assert s[l] == wa[l + 1];
  }

  lemma OddSum(vt: seq<int>, vu: seq<int>, l: nat)
    requires |vt| == |vu| == VL && l < VL && l % 2 == 1
    ensures var wb := WideProducts(vt, Gathered(vu, Neighbours()));
      AddWide(wb, SlideUp(wb))[l] == W32(vt[l] * vu[l - 1] + vt[l - 1] * vu[l])
  {
    hide Gathered, Neighbours, WideProducts, SlideUp, AddWide, W32;
    var g := Gathered(vu, Neighbours());
    NeighbourLanes(vu, l);
    WideProductAt(vt, g, l);
    WideProductAt(vt, g, l - 1);
    SlideUpAt(WideProducts(vt, g), l);
  }

  lemma NeighbourLanes(vu: seq<int>, l: nat)
    requires |vu| == VL && l < VL && l % 2 == 1
    ensures var g := Gathered(vu, Neighbours()); g[l] == vu[l - 1] && g[l - 1] == vu[l]
  {
    assert Neighbours()[l] == l - 1 && Neighbours()[l - 1] == l;
  }

  lemma WideProductAt(x: seq<int>, y: seq<int>, l: nat)
    requires |x| == |y| == VL && l < VL
    ensures WideProducts(x, y)[l] == x[l] * y[l]
  {
  }

  lemma SlideUpAt(w: seq<int>, l: nat)
    requires |w| == VL && 0 < l < VL
    ensures AddWide(w, SlideUp(w))[l] == W32(w[l] + w[l - 1])
  {
    hide W32;
    assert SlideUp(w)[l] == w[l - 1];
  }

  lemma BaseLaneAt(vz: seq<int>, vt: seq<int>, vu: seq<int>, l: nat)
    requires |vz| == |vt| == |vu| == VL && l < VL
    ensures l % 2 == 0 ==>
      l + 1 < VL && BaseLanes(vz, vt, vu)[l] == EvenLane(vz[l], vz[l + 1], vt[l], vt[l + 1], vu[l], vu[l + 1])
    ensures l % 2 == 1 ==> l >= 1 && BaseLanes(vz, vt, vu)[l] == OddLane(vt[l - 1], vt[l], vu[l - 1], vu[l])
  {
    hide FqMulVector, FqRedc2, W32, WideProducts, MulLanes, SlideDown, SlideUp, AddWide, Gathered, Neighbours;
    if l % 2 == 0 {
      EvenSum(vz, vt, vu, l);
    } else {
      OddSum(vt, vu, l);
    }
  }

  lemma SmallProduct(x: int, y: int)
    requires -4095 <= x <= 4095 && -4095 <= y <= 4095
    ensures -Q < FqMulVector(x, y) < Q && Cong(FqMulVector(x, y), RINV * (x * y), Q)
    ensures -16769025 <= x * y <= 16769025
  {
    hide FqMulVector;
    ProductBound(x, y, 4095, 4095);
    FqMulVectorExact(x, y);
  }

  /** The 32-bit sum of an even lane fits, and its reduction is the even coefficient of the pair. */
  lemma EvenLaneValue(z: int, x0: int, x1: int, y0: int, y1: int)
    requires -1659 <= z <= 1659
    requires -4095 <= x0 <= 4095 && -4095 <= x1 <= 4095 && -4095 <= y0 <= 4095 && -4095 <= y1 <= 4095
    ensures -Q < EvenLane(-1044, z, x0, x1, y0, y1) < Q
    ensures Cong(R * EvenLane(-1044, z, x0, x1, y0, y1), PairEven(z * RINV, x0, x1, y0, y1), Q)
  {
    hide FqMulVector, FqRedc2, Cong;
    var t, u := FqMulVector(x0, y0), FqMulVector(x1, y1);
    SmallProduct(x0, y0);
    SmallProduct(x1, y1);
    ProductBound(z, u, 1659, Q);
    var w := -1044 * t + z * u;
    assert -0x1000_0000 < w < 0x1000_0000;
    FqRedc2Exact(w);
    Scale(-1044, t, RINV * (x0 * y0), Q);
    FromQuotient(-1044 * (RINV * (x0 * y0)), x0 * y0, -53 * (x0 * y0), Q);
    Trans(-1044 * t, -1044 * (RINV * (x0 * y0)), x0 * y0, Q);
    Scale(z, u, RINV * (x1 * y1), Q);
    assert z * (RINV * (x1 * y1)) == z * RINV * (x1 * y1);
    Add(-1044 * t, x0 * y0, z * u, z * RINV * (x1 * y1), Q);
    Trans(R * FqRedc2(w), w, PairEven(z * RINV, x0, x1, y0, y1), Q);
  }

  lemma OddLaneValue(x0: int, x1: int, y0: int, y1: int)
    requires -4095 <= x0 <= 4095 && -4095 <= x1 <= 4095 && -4095 <= y0 <= 4095 && -4095 <= y1 <= 4095
    ensures -Q < OddLane(x0, x1, y0, y1) < Q
    ensures Cong(R * OddLane(x0, x1, y0, y1), PairOdd(x0, x1, y0, y1), Q)
  {
    hide FqRedc2, Cong;
    SmallProduct(x1, y0);
    SmallProduct(x0, y1);
    FqRedc2Exact(x1 * y0 + x0 * y1);
  }

  // ----- the whole polynomial

  /** The product of two transforms, lane by lane. */
  function VectorBaseAt(x: Poly, y: Poly, i: nat): (r: int)
    requires |x| == |y| == N && i < N
  {
    if i % 2 == 0 then EvenLane(-1044, PairZeta(i / 2), x[i], x[i + 1], y[i], y[i + 1])
         else OddLane(x[i - 1], x[i], y[i - 1], y[i])
  }

  function VectorBase(x: Poly, y: Poly): (r: Poly)
    requires |x| == |y| == N
    ensures |r| == N && forall i :: 0 <= i < N ==> r[i] == VectorBaseAt(x, y, i)
  {
    seq(N, i requires 0 <= i < N => VectorBaseAt(x, y, i))
  }

  lemma RootOfLane(i: nat)
    requires i < N
    ensures i % 2 == 0 ==> i + 1 < N && PairRoots(i) == -1044 && PairRoots(i + 1) == PairZeta(i / 2)
  {
    hide PairRoots, Zeta;
    PairEntry(i);
    if i % 2 == 0 {
      PairEntry(i + 1);
      assert (i + 1) % 4 == 1 <==> i / 2 % 2 == 0;
      assert (i + 1) / 4 == i / 2 / 2;
    }
  }

  lemma GroupLanes(x: Poly, y: Poly, p: nat, l: nat, i: nat, vt: seq<int>, vu: seq<int>)
    requires |x| == |y| == N && p < 16 && l < VL && i == 16 * p + l
    requires vt == x[16 * p..16 * p + 16] && vu == y[16 * p..16 * p + 16]
    ensures BaseLanes(Loaded(PairRoots, 16 * p), vt, vu)[l] == VectorBaseAt(x, y, i)
  {
    hide BaseLanes, EvenLane, OddLane, PairRoots, PairZeta;
    assert i % 2 == l % 2;
    RootOfLane(i);
    BaseLaneAt(Loaded(PairRoots, 16 * p), vt, vu, l);
  }

  method VectorBaseMul(r: array<int>, x: seq<int>, y: seq<int>)
    requires r.Length == |x| == |y| == N
    modifies r
    ensures r[..] == VectorBase(x, y)
  {
    hide VectorBaseAt, BaseLanes, Loaded, PairRoots, VectorBase;
    ghost var next := VectorBase(x, y);
    for p := 0 to 16
      invariant r[..16 * p] == next[..16 * p]
    {
      var vt, vu := x[16 * p..16 * p + 16], y[16 * p..16 * p + 16];
      var w := BaseLanes(Loaded(PairRoots, 16 * p), vt, vu);
      forall l: nat | l < VL
        ensures w[l] == next[16 * p + l]
      {
        GroupLanes(x, y, p, l, 16 * p + l, vt, vu);
      }
      Store(r, 16 * p, w);
      assert next[..16 * (p + 1)] == next[..16 * p] + w;
    }
    assert r[..256] == r[..] && next[..256] == next;
  }

  // ----- against the scalar product

  lemma VectorBaseValues(x: Poly, y: Poly)
    requires |x| == |y| == N && Within(x, 4095) && Within(y, 4095)
    ensures CongSeq(Times(R, VectorBase(x, y)), PairMul(x, y), Q) && Within(VectorBase(x, y), Q - 1)
  {
    hide EvenLane, OddLane, PairEven, PairOdd, PairZeta, Gamma, Cong;
    forall i | 0 <= i < N
      ensures Cong(R * VectorBase(x, y)[i], PairMul(x, y)[i], Q) && -Q < VectorBase(x, y)[i] < Q
    {
      if i % 2 == 0 {
        GammaOfZeta(i / 2);
        PairZetaBound(i / 2);
        EvenLaneValue(PairZeta(i / 2), x[i], x[i + 1], y[i], y[i + 1]);
      } else {
        OddLaneValue(x[i - 1], x[i], y[i - 1], y[i]);
      }
    }
  }

  lemma PairZetaBound(p: nat)
    ensures -1659 <= PairZeta(p) <= 1659
  {
    hide Zeta;
    ZetaBound(64 + p / 2);
  }

  /** For operands as unpacked (12 bits) or reduced, the lanes are the scalar results modulo Q,
      and smaller: below Q instead of below 2Q. */
  lemma VectorBaseAgrees(x: Poly, y: Poly)
    requires |x| == |y| == N && Within(x, 4095) && Within(y, 4095)
    ensures CongSeq(VectorBase(x, y), BaseMul(x, y), Q) && Within(VectorBase(x, y), Q - 1)
  {
    hide VectorBaseAt, BaseMulAt, PairMulAt, Cong;
    VectorBaseValues(x, y);
    BaseMulValues(x, y);
    Factors();
    var u, v, w := VectorBase(x, y), BaseMul(x, y), PairMul(x, y);
    forall i | 0 <= i < N
      ensures Cong(u[i], v[i], Q)
    {
      assert Cong(Times(R, u)[i], w[i], Q) && Cong(Times(R, v)[i], w[i], Q);
      Sym(R * v[i], w[i], Q);
      Trans(R * u[i], w[i], R * v[i], Q);
      Cancel(R, RINV, u[i], v[i], Q);
    }
  }

  /** The vector mlkem_poly_reduce. */
  method VectorReduce(a: array<int>)
    requires Within(a[..], 0x7fff)
    modifies a
    ensures a[..] == Reduced(old(a[..]))
  {
    hide FqBarrett, BarrettReduce;
    for j := 0 to a.Length
      invariant forall i :: 0 <= i < j ==> a[i] == BarrettReduce(old(a[i]))
      invariant forall i :: j <= i < a.Length ==> a[i] == old(a[i])
    {
      assert old(a[..])[j] == a[j];
      FqBarrettIsBarrett(a[j]);
      a[j] := FqBarrett(a[j]);
    }
  }

  lemma CanonicalWithin(x: seq<int>)
    requires Canonical(x)
    ensures Within(x, 4095)
  {
  }

  lemma ProductValue(a: Poly, b: Poly, x: Poly, y: Poly)
    requires |a| == |b| == |x| == |y| == N && Within(a, 9464) && Within(b, 9464) && Within(x, 4095) && Within(y, 4095)
    requires CongSeq(x, Scalar.Ntt(a), Q) && CongSeq(y, Scalar.Ntt(b), Q)
    ensures CongSeq(Scalar.InvNtt(Reduced(VectorBase(x, y))), Product(a, b), Q)
    ensures Within(VectorBase(x, y), 0x7fff) && Within(Reduced(VectorBase(x, y)), Q)
  {
    hide Scalar.InvNtt, Scalar.Ntt, Hat, Product, VectorBase, Reduced, PairMul, CongSeq, Within, Times;
    NttIsHat(a, 9464);
    NttIsHat(b, 9464);
    TransSeq(x, Scalar.Ntt(a), Hat(a), Q);
    TransSeq(y, Scalar.Ntt(b), Hat(b), Q);
    VectorBaseValues(x, y);
    var u := VectorBase(x, y);
    WithinWeaker(u, Q - 1, 0x7fff);
    ReducedValues(u);
    WithinWeaker(Reduced(u), 1664, Q);
    PairMulCong(x, y, Hat(a), Hat(b));
    HatProduct(a, b);
    SymSeq(Hat(Product(a, b)), PairMul(Hat(a), Hat(b)));
    TransSeq(Times(R, u), PairMul(x, y), PairMul(Hat(a), Hat(b)), Q);
    TransSeq(Times(R, u), PairMul(Hat(a), Hat(b)), Hat(Product(a, b)), Q);
    BackTransform(u, Hat(Product(a, b)));
    HatInjective(Scalar.InvNtt(Reduced(u)), Product(a, b));
  }

  /** Vector transform of both factors, vector product, vector reduction, vector inverse: the
      canonical coefficients of the product in Z_q[X]/(X^256 + 1). */
  method VectorMultiply(a: array<int>, b: array<int>, r: array<int>)
    requires a.Length == b.Length == r.Length == N && a != b && a != r && b != r
    requires Within(a[..], 9464) && Within(b[..], 9464)
    modifies a, b, r
    ensures Canonical(r[..]) && CongSeq(r[..], Product(old(a[..]), old(b[..])), Q)
  {
    hide Within, CongSeq, Canonical, Scalar.Ntt, Scalar.InvNtt, Product, Reduced, VectorBase;
    ghost var p, s := a[..], b[..];
    VectorNtt(a, 9464);
    VectorNtt(b, 9464);
    CanonicalWithin(a[..]);
    CanonicalWithin(b[..]);
    ProductValue(p, s, a[..], b[..]);
    VectorBaseMul(r, a[..], b[..]);
    VectorReduce(r);
    ghost var w := r[..];
    VectorInvNtt(r);
    TransSeq(r[..], Scalar.InvNtt(w), Product(p, s), Q);
  }
}
