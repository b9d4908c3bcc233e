/** What the transform of ML-KEM means: the value of a polynomial at pair p is its image in
    Z_q[X]/(X^2 - Gamma(p)), and pairwise multiplication is multiplication modulo X^256 + 1. */
module MlkemProduct {
  import opened Modular
  import opened Polynomials
  import opened NttAlgebra
  import opened Butterflies
  import opened EvenOdd
  import opened MlkemReduce
  import opened MlkemZetas
  import opened MlkemNtt

  const HALF: int := 1737

  /** The values of one half. */
  function HalfHat(x: seq<int>): (r: seq<int>)
    requires |x| == 128
    ensures |r| == 128
  {
    PowersOfTwo();
    Fwd(W, x, 1, 7)
  }

  /** The values of a at all pairs, as unreduced integers. */
  function Hat(a: Poly): (r: Poly)
    requires |a| == N
    ensures |r| == N
  {
    Interleave(HalfHat(Evens(a)), HalfHat(Odds(a)))
  }

  // ----- one half

  lemma HalfForward(x: seq<int>, bound: nat)
    requires |x| == Pow2(7) && Within(x, bound) && bound + 7 * Q < 0x8000
    ensures |x| == 1 * Pow2(7)
    ensures CongSeq(DownLayers(FWD, x, 1, 7, 1), Fwd(W, x, 1, 7), Q)
    ensures Within(DownLayers(FWD, x, 1, 7, 1), bound + 7 * Q)
  {
    hide CongSeq, Within, ForwardOk, Fwd, Down, DownLayers, Pow2;
    var limit := (d: nat) => if d <= 7 then bound + (7 - d) * Q else 0;
    forall e: nat | e < 7
      ensures ForwardOk(FWD, W, limit(e + 1), limit(e), Q)
    {
      FwdOk(limit(e + 1));
    }
    DownLayersIsDown(FWD, x, 1, 7);
    DownIsFwd(FWD, W, limit, x, 1, 7, Q);
  }

  lemma ScaleBound(x: int)
    requires -Q <= x <= Q
    ensures -HALF <= FqMul(x, F) <= HALF
    ensures Cong(FqMul(x, F), RINV * F * x, Q)
  {
    hide MontgomeryReduce, Cong;
    MontgomeryReduceExact(x * F);
    DropFactor(MontgomeryReduce(x * F), x * F);
    assert RINV * (x * F) == RINV * F * x;
  }

  lemma HalfInverse(x: seq<int>)
    requires |x| == Pow2(7) && Within(x, Q)
    ensures |x| == 1 * Pow2(7)
    ensures CongSeq(Scaled(UpLayers(INV, x, 1, 7, 1)), Times(RINV * F, Inv(IW, x, 1, 7)), Q)
    ensures Within(Scaled(UpLayers(INV, x, 1, 7, 1)), HALF)
  {
    hide InverseOk, Layer, FqMul, Cong, Inv, Up, UpLayers, Pow2;
    var limit := (d: nat) => Q;
    InvOk();
    UpLayersIsUp(INV, x, 1, 7);
    UpIsInv(INV, IW, limit, x, 1, 7, Q);
    var u, v := Up(INV, x, 1, 7), Inv(IW, x, 1, 7);
    forall i | 0 <= i < |x|
      ensures Cong(Scaled(u)[i], RINV * F * v[i], Q) && -HALF <= Scaled(u)[i] <= HALF
    {
      ScaleBound(u[i]);
      Scale(RINV * F, u[i], v[i], Q);
      Trans(Scaled(u)[i], RINV * F * u[i], RINV * F * v[i], Q);
    }
  }

  lemma Factors()
    ensures Cong(128 * (RINV * F), R, Q) && Cong(RINV * R, 1, Q) && Cong(3303 * 128, 1, Q)
  {
    FromRemainder(128 * (RINV * F), R, Q);
    FromRemainder(RINV * R, 1, Q);
    FromRemainder(3303 * 128, 1, Q);
  }

  lemma TimesCong(c: int, x: seq<int>, y: seq<int>)
    requires CongSeq(x, y, Q)
    ensures CongSeq(Times(c, x), Times(c, y), Q)
  {
    hide Cong;
    forall i | 0 <= i < |x|
      ensures Cong(c * x[i], c * y[i], Q)
    {
      Scale(c, x[i], y[i], Q);
    }
  }

  lemma FactorTimes(c: int, e: int, x: seq<int>)
    requires Cong(128 * c, e, Q)
    ensures CongSeq(Times(c, Times(128, x)), Times(e, x), Q)
  {
    hide Cong;
    forall i | 0 <= i < |x|
      ensures Cong(c * (128 * x[i]), e * x[i], Q)
    {
      Refl(x[i], Q);
      Mul(128 * c, e, x[i], x[i], Q);
      assert 128 * c * x[i] == c * (128 * x[i]);
    }
  }

  /** One half: inverse, then transform, multiplies by 2^16. */
  lemma HalfFwdInv(x: seq<int>, y: seq<int>)
    requires |x| == Pow2(7) == |y| && CongSeq(y, Times(RINV * F, Inv(IW, x, 1, 7)), Q)
    ensures CongSeq(Fwd(W, y, 1, 7), Times(R, x), Q)
  {
    hide CongSeq, Inv, Fwd, Inverses, SquareRoots, Pow2, Times, Lin;
    Tree();
    Factors();
    PowersOfTwo();
    var c, v := RINV * F, Inv(IW, x, 1, 7);
    FwdCong(W, y, Times(c, v), 1, 7, Q);
    FwdLinear(W, c, v, 0, v, 1, 7);
    TimesIsLin(c, v);
    TimesIsLin(c, Fwd(W, v, 1, 7));
    FwdInv(W, IW, x, 1, 7, Q);
    TimesCong(c, Fwd(W, v, 1, 7), Times(128, x));
    FactorTimes(c, R, x);
    TransSeq(Fwd(W, y, 1, 7), Times(c, Fwd(W, v, 1, 7)), Times(c, Times(128, x)), Q);
    TransSeq(Fwd(W, y, 1, 7), Times(c, Times(128, x)), Times(R, x), Q);
  }

  lemma HalfInjective(a: seq<int>, b: seq<int>)
    requires |a| == |b| == Pow2(7) && CongSeq(Fwd(W, a, 1, 7), Fwd(W, b, 1, 7), Q)
    ensures CongSeq(a, b, Q)
  {
    hide Inv, Fwd, Inverses, SquareRoots, Cong, Pow2;
    PowersOfTwo();
    Tree();
    Factors();
    InvCong(IW, Fwd(W, a, 1, 7), Fwd(W, b, 1, 7), 1, 7, Q);
    InvFwd(W, IW, a, 1, 7, Q);
    InvFwd(W, IW, b, 1, 7, Q);
    forall i | 0 <= i < |a|
      ensures Cong(a[i], b[i], Q)
    {
      var x, y := Inv(IW, Fwd(W, a, 1, 7), 1, 7)[i], Inv(IW, Fwd(W, b, 1, 7), 1, 7)[i];
      Sym(x, 128 * a[i], Q);
      Trans(128 * a[i], x, y, Q);
      Trans(128 * a[i], y, 128 * b[i], Q);
      Cancel(128, 3303, a[i], b[i], Q);
    }
  }

  // ----- both halves

  lemma InterleaveCong(a: seq<int>, b: seq<int>, c: seq<int>, d: seq<int>)
    requires |a| == |b| && CongSeq(a, c, Q) && CongSeq(b, d, Q)
    ensures CongSeq(Interleave(a, b), Interleave(c, d), Q)
  {
    hide Cong;
  }

  lemma PartsCong(a: Poly, b: Poly)
    requires |a| == |b| == N && CongSeq(a, b, Q)
    ensures CongSeq(Evens(a), Evens(b), Q) && CongSeq(Odds(a), Odds(b), Q)
  {
    hide Cong;
  }

  lemma PartsWithin(a: Poly, bound: int)
    requires |a| == N && Within(a, bound)
    ensures Within(Evens(a), bound) && Within(Odds(a), bound)
  {
  }

  lemma InterleaveWithin(a: seq<int>, b: seq<int>, bound: int)
    requires |a| == |b| && Within(a, bound) && Within(b, bound)
    ensures Within(Interleave(a, b), bound)
  {
  }

  lemma NttIsHat(a: Poly, bound: nat)
    requires |a| == N && Within(a, bound) && bound + 7 * Q < 0x8000
    ensures CongSeq(Ntt(a), Hat(a), Q)
    ensures Within(Ntt(a), bound + 7 * Q)
  {
    hide CongSeq, Within, Fwd, DownLayers, Evens, Odds, Interleave, Pow2;
    PowersOfTwo();
    PartsWithin(a, bound);
    HalfForward(Evens(a), bound);
    HalfForward(Odds(a), bound);
    var e, o := DownLayers(FWD, Evens(a), 1, 7, 1), DownLayers(FWD, Odds(a), 1, 7, 1);
    InterleaveCong(e, o, Fwd(W, Evens(a), 1, 7), Fwd(W, Odds(a), 1, 7));
    InterleaveWithin(e, o, bound + 7 * Q);
  }

  lemma ScaledInterleave(u: seq<int>, v: seq<int>)
    requires |u| == |v|
    ensures Scaled(Interleave(u, v)) == Interleave(Scaled(u), Scaled(v))
  {
    hide FqMul;
  }

  /** The inverse followed by the transform multiplies by 2^16, and stays near Q / 2. */
  lemma HatInvNtt(s: Poly)
    requires |s| == N && Within(s, Q)
    ensures CongSeq(Hat(InvNtt(s)), Times(R, s), Q)
    ensures Within(InvNtt(s), HALF)
  {
    hide CongSeq, Within, Fwd, Inv, UpLayers, Evens, Odds, Interleave, Scaled, Pow2, Times;
    PowersOfTwo();
    PartsWithin(s, Q);
    var e, o := UpLayers(INV, Evens(s), 1, 7, 1), UpLayers(INV, Odds(s), 1, 7, 1);
    HalfInverse(Evens(s));
    HalfInverse(Odds(s));
    HalfFwdInv(Evens(s), Scaled(e));
    HalfFwdInv(Odds(s), Scaled(o));
    ScaledInterleave(e, o);
    PartsOfInterleave(Scaled(e), Scaled(o));
    InterleaveWithin(Scaled(e), Scaled(o), HALF);
    InterleaveCong(Fwd(W, Scaled(e), 1, 7), Fwd(W, Scaled(o), 1, 7), Times(R, Evens(s)), Times(R, Odds(s)));
    TimesParts(R, s);
  }

  lemma TimesParts(c: int, s: Poly)
    requires |s| == N
    ensures Interleave(Times(c, Evens(s)), Times(c, Odds(s))) == Times(c, s)
  {
  }

  /** A polynomial is determined modulo Q by its values. */
  lemma HatInjective(a: Poly, b: Poly)
    requires |a| == |b| == N && CongSeq(Hat(a), Hat(b), Q)
    ensures CongSeq(a, b, Q)
  {
    hide CongSeq, Fwd, Evens, Odds, Interleave, Pow2;
    PowersOfTwo();
    PartsCong(Hat(a), Hat(b));
    PartsOfInterleave(Fwd(W, Evens(a), 1, 7), Fwd(W, Odds(a), 1, 7));
    PartsOfInterleave(Fwd(W, Evens(b), 1, 7), Fwd(W, Odds(b), 1, 7));
    HalfInjective(Evens(a), Evens(b));
    HalfInjective(Odds(a), Odds(b));
    InterleaveCong(Evens(a), Odds(a), Evens(b), Odds(b));
    InterleaveParts(a);
    InterleaveParts(b);
  }

  lemma HatCong(a: Poly, b: Poly)
    requires |a| == |b| == N && CongSeq(a, b, Q)
    ensures CongSeq(Hat(a), Hat(b), Q)
  {
    hide CongSeq, Fwd, Evens, Odds, Interleave, Pow2;
    PowersOfTwo();
    PartsCong(a, b);
    FwdCong(W, Evens(a), Evens(b), 1, 7, Q);
    FwdCong(W, Odds(a), Odds(b), 1, 7, Q);
    InterleaveCong(Fwd(W, Evens(a), 1, 7), Fwd(W, Odds(a), 1, 7), Fwd(W, Evens(b), 1, 7), Fwd(W, Odds(b), 1, 7));
  }

  lemma InterleaveLin(x: int, a: seq<int>, y: int, b: seq<int>, c: seq<int>, d: seq<int>)
    requires |a| == |b| == |c| == |d|
    ensures Interleave(Lin(x, a, y, c), Lin(x, b, y, d)) == Lin(x, Interleave(a, b), y, Interleave(c, d))
  {
    hide Comb;
  }

  lemma HatLin(x: int, a: Poly, y: int, b: Poly)
    requires |a| == |b| == N
    ensures Hat(Lin(x, a, y, b)) == Lin(x, Hat(a), y, Hat(b))
  {
    hide Fwd, Evens, Odds, Interleave, Pow2, Lin;
    PowersOfTwo();
    LinParts(x, a, y, b);
    FwdLinear(W, x, Evens(a), y, Evens(b), 1, 7);
    FwdLinear(W, x, Odds(a), y, Odds(b), 1, 7);
    InterleaveLin(x, Fwd(W, Evens(a), 1, 7), y, Fwd(W, Odds(a), 1, 7), Fwd(W, Evens(b), 1, 7), Fwd(W, Odds(b), 1, 7));
  }

  // ----- pairs

  /** X^2 in the ring of pair p. */
  function Gamma(p: nat): (r: int) { Root(W, 128 + p) }

  function PairEven(g: int, x0: int, x1: int, y0: int, y1: int): (r: int) { x0 * y0 + g * (x1 * y1) }

  function PairOdd(x0: int, x1: int, y0: int, y1: int): (r: int) { x0 * y1 + x1 * y0 }

  function PairMulAt(x: Poly, y: Poly, i: nat): (r: int)
    requires |x| == |y| == N && i < N
  {
    if i % 2 == 0 then PairEven(Gamma(i / 2), x[i], x[i + 1], y[i], y[i + 1])
         else PairOdd(x[i - 1], x[i], y[i - 1], y[i])
  }

  function PairMul(x: Poly, y: Poly): (r: Poly)
    requires |x| == |y| == N
    ensures |r| == N && forall i :: 0 <= i < N ==> r[i] == PairMulAt(x, y, i)
  {
    seq(N, i requires 0 <= i < N => PairMulAt(x, y, i))
  }

  /** The table entry basemul gets for pair p. */
  function PairZeta(p: nat): (r: int) { if p % 2 == 0 then Zeta(64 + p / 2) else -Zeta(64 + p / 2) }

  function BaseEven(z: int, x0: int, x1: int, y0: int, y1: int): (r: int) {
    W16(FqMul(FqMul(x1, y1), z) + FqMul(x0, y0))
  }

  function BaseOdd(x0: int, x1: int, y0: int, y1: int): (r: int) { W16(FqMul(x0, y1) + FqMul(x1, y0)) }

  function BaseMulAt(x: Poly, y: Poly, i: nat): (r: int)
    requires |x| == |y| == N && i < N
  {
    if i % 2 == 0 then BaseEven(PairZeta(i / 2), x[i], x[i + 1], y[i], y[i + 1])
         else BaseOdd(x[i - 1], x[i], y[i - 1], y[i])
  }

  /** poly_basemul_montgomery. */
  function BaseMul(x: Poly, y: Poly): (r: Poly)
    requires |x| == |y| == N
    ensures |r| == N && forall i :: 0 <= i < N ==> r[i] == BaseMulAt(x, y, i)
  {
    seq(N, i requires 0 <= i < N => BaseMulAt(x, y, i))
  }

  /** The loop over groups of four coefficients. */
  method BaseMulLoop(r: array<int>, x: seq<int>, y: seq<int>)
    requires r.Length == |x| == |y| == N
    modifies r
    ensures r[..] == BaseMul(x, y)
  {
    hide BaseMul, BaseEven, BaseOdd, Zeta;
    ghost var p := BaseMul(x, y);
    for i := 0 to 64
      invariant forall j :: 0 <= j < 4 * i ==> r[j] == p[j]
    {
      var z := Zeta(64 + i);
      GroupOfFour(x, y, i);
      r[4 * i] := BaseEven(z, x[4 * i], x[4 * i + 1], y[4 * i], y[4 * i + 1]);
      r[4 * i + 1] := BaseOdd(x[4 * i], x[4 * i + 1], y[4 * i], y[4 * i + 1]);
      r[4 * i + 2] := BaseEven(-z, x[4 * i + 2], x[4 * i + 3], y[4 * i + 2], y[4 * i + 3]);
      r[4 * i + 3] := BaseOdd(x[4 * i + 2], x[4 * i + 3], y[4 * i + 2], y[4 * i + 3]);
    }
  }

  lemma GroupOfFour(x: Poly, y: Poly, i: nat)
    requires |x| == |y| == N && i < 64
    ensures BaseMul(x, y)[4 * i] == BaseEven(Zeta(64 + i), x[4 * i], x[4 * i + 1], y[4 * i], y[4 * i + 1])
    ensures BaseMul(x, y)[4 * i + 1] == BaseOdd(x[4 * i], x[4 * i + 1], y[4 * i], y[4 * i + 1])
    ensures BaseMul(x, y)[4 * i + 2] == BaseEven(-Zeta(64 + i), x[4 * i + 2], x[4 * i + 3], y[4 * i + 2], y[4 * i + 3])
    ensures BaseMul(x, y)[4 * i + 3] == BaseOdd(x[4 * i + 2], x[4 * i + 3], y[4 * i + 2], y[4 * i + 3])
  {
    hide BaseEven, BaseOdd, Zeta, PairZeta;
    PairNumbers(i);
    assert (4 * i + 1) % 2 == 1 && (4 * i + 3) % 2 == 1 && (4 * i) % 2 == 0 && (4 * i + 2) % 2 == 0;
  }

  lemma PairNumbers(i: nat)
    ensures (4 * i) / 2 == 2 * i && (4 * i + 2) / 2 == 2 * i + 1
    ensures PairZeta(2 * i) == Zeta(64 + i) && PairZeta(2 * i + 1) == -Zeta(64 + i)
  {
    hide Zeta;
  }

  lemma GammaOfZeta(p: nat)
    ensures Gamma(p) == PairZeta(p) * RINV && -Q < PairZeta(p) < Q
  {
    hide Zeta;
    ZetaBound(64 + p / 2);
    assert (128 + p) / 2 == 64 + p / 2;
  }

  lemma Product16(x: int, y: int)
    requires -4095 <= x <= 4095 && -4095 <= y <= 4095
    ensures -Q < FqMul(x, y) < Q && Cong(R * FqMul(x, y), x * y, Q)
  {
    ProductBound(x, y, 4095, 4095);
    MontgomeryReduceExact(x * y);
  }

  lemma BaseEvenValue(z: int, g: int, x0: int, x1: int, y0: int, y1: int)
    requires -Q < z < Q && g == z * RINV
    requires -4095 <= x0 <= 4095 && -4095 <= x1 <= 4095 && -4095 <= y0 <= 4095 && -4095 <= y1 <= 4095
    ensures -2 * Q < BaseEven(z, x0, x1, y0, y1) < 2 * Q
    ensures Cong(R * BaseEven(z, x0, x1, y0, y1), PairEven(g, x0, x1, y0, y1), Q)
  {
    hide FqMul, Cong;
    var t, u := FqMul(x1, y1), FqMul(x0, y0);
    Product16(x1, y1);
    Product16(x0, y0);
    Product16(t, z);
    DropFactor(t, x1 * y1);
    Refl(z, Q);
    Mul(t, RINV * (x1 * y1), z, z, Q);
    assert RINV * (x1 * y1) * z == g * (x1 * y1);
    Trans(R * FqMul(t, z), t * z, g * (x1 * y1), Q);
    Add(R * FqMul(t, z), g * (x1 * y1), R * u, x0 * y0, Q);
    assert R * FqMul(t, z) + R * u == R * (FqMul(t, z) + u);
  }

  lemma BaseOddValue(x0: int, x1: int, y0: int, y1: int)
    requires -4095 <= x0 <= 4095 && -4095 <= x1 <= 4095 && -4095 <= y0 <= 4095 && -4095 <= y1 <= 4095
    ensures -2 * Q < BaseOdd(x0, x1, y0, y1) < 2 * Q
    ensures Cong(R * BaseOdd(x0, x1, y0, y1), PairOdd(x0, x1, y0, y1), Q)
  {
    hide FqMul, Cong;
    Product16(x0, y1);
    Product16(x1, y0);
    Add(R * FqMul(x0, y1), x0 * y1, R * FqMul(x1, y0), x1 * y0, Q);
  }

  lemma BaseMulValues(x: Poly, y: Poly)
    requires |x| == |y| == N && Within(x, 4095) && Within(y, 4095)
    ensures CongSeq(Times(R, BaseMul(x, y)), PairMul(x, y), Q) && Within(BaseMul(x, y), 2 * Q - 1)
  {
    hide BaseEven, BaseOdd, PairEven, PairOdd, PairZeta, Gamma, Cong;
    forall i | 0 <= i < N
      ensures Cong(R * BaseMul(x, y)[i], PairMul(x, y)[i], Q) && -2 * Q < BaseMul(x, y)[i] < 2 * Q
    {
      if i % 2 == 0 {
        GammaOfZeta(i / 2);
        BaseEvenValue(PairZeta(i / 2), Gamma(i / 2), x[i], x[i + 1], y[i], y[i + 1]);
      } else {
        BaseOddValue(x[i - 1], x[i], y[i - 1], y[i]);
      }
    }
  }

  lemma PairCong(g: int, x0: int, x1: int, y0: int, y1: int, x0': int, x1': int, y0': int, y1': int)
    requires Cong(x0, x0', Q) && Cong(x1, x1', Q) && Cong(y0, y0', Q) && Cong(y1, y1', Q)
    ensures Cong(PairEven(g, x0, x1, y0, y1), PairEven(g, x0', x1', y0', y1'), Q)
    ensures Cong(PairOdd(x0, x1, y0, y1), PairOdd(x0', x1', y0', y1'), Q)
  {
    hide Cong;
    Mul(x0, x0', y0, y0', Q);
    Mul(x1, x1', y1, y1', Q);
    Scale(g, x1 * y1, x1' * y1', Q);
    Add(x0 * y0, x0' * y0', g * (x1 * y1), g * (x1' * y1'), Q);
    Mul(x0, x0', y1, y1', Q);
    Mul(x1, x1', y0, y0', Q);
    Add(x0 * y1, x0' * y1', x1 * y0, x1' * y0', Q);
  }

  lemma PairMulCongAt(x: Poly, y: Poly, x': Poly, y': Poly, i: nat)
    requires |x| == |y| == N && CongSeq(x, x', Q) && CongSeq(y, y', Q) && i < N
    ensures Cong(PairMulAt(x, y, i), PairMulAt(x', y', i), Q)
  {
    hide PairEven, PairOdd, Gamma, Cong;
    if i % 2 == 0 {
      PairCong(Gamma(i / 2), x[i], x[i + 1], y[i], y[i + 1], x'[i], x'[i + 1], y'[i], y'[i + 1]);
    } else {
      PairCong(0, x[i - 1], x[i], y[i - 1], y[i], x'[i - 1], x'[i], y'[i - 1], y'[i]);
    }
  }

  lemma PairMulCong(x: Poly, y: Poly, x': Poly, y': Poly)
    requires |x| == |y| == N && CongSeq(x, x', Q) && CongSeq(y, y', Q)
    ensures CongSeq(PairMul(x, y), PairMul(x', y'), Q)
  {
    hide PairMulAt, Cong;
    forall i | 0 <= i < N
      ensures Cong(PairMulAt(x, y, i), PairMulAt(x', y', i), Q)
    {
      PairMulCongAt(x, y, x', y', i);
    }
  }

  // ----- the product of the ring

  /** Multiplying by Y multiplies the value at pair p by Gamma(p). */
  lemma FwdShift(q: seq<int>, p: nat)
    requires |q| == 128 && p < 128
    ensures q != [] && Cong(HalfHat(Shift(q))[p], Gamma(p) * HalfHat(q)[p], Q)
  {
    hide Fwd, SquareRoots, Inverses, Eval, Power, Root, Cong, Leaf;
    PowersOfTwo();
    Tree();
    LeafNumber(1, 7, p);
    var x := Root(W, Leaf(1, 7, p));
    FwdEval(W, Shift(q), 1, 7, p, Q);
    FwdEval(W, q, 1, 7, p, Q);
    LeafPower(W, 1, 7, p, Q);
    RootOfOne();
    EvalShift(q, x, Q);
    Scale(x, Fwd(W, q, 1, 7)[p], Eval(q, x), Q);
    Sym(x * Fwd(W, q, 1, 7)[p], x * Eval(q, x), Q);
    Trans(Fwd(W, Shift(q), 1, 7)[p], Eval(Shift(q), x), x * Eval(q, x), Q);
    Trans(Fwd(W, Shift(q), 1, 7)[p], x * Eval(q, x), x * Fwd(W, q, 1, 7)[p], Q);
  }

  lemma RootOfOne()
    ensures Root(W, 1) == -1
  {
  }

  lemma PairValue(e: int, o: int, g: int, ee: int, oo: int, s: int, eo: int, oe: int, x0: int, x1: int, y0: int,
       y1: int)
    requires e == 1 * ee + 1 * s && o == 1 * eo + 1 * oe && Cong(s, g * oo, Q)
    requires Cong(ee, x0 * y0, Q) && Cong(oo, x1 * y1, Q) && Cong(eo, x0 * y1, Q) && Cong(oe, x1 * y0, Q)
    ensures Cong(e, PairEven(g, x0, x1, y0, y1), Q) && Cong(o, PairOdd(x0, x1, y0, y1), Q)
  {
    hide Cong;
    Scale(g, oo, x1 * y1, Q);
    Trans(s, g * oo, g * (x1 * y1), Q);
    Add(ee, x0 * y0, s, g * (x1 * y1), Q);
    Add(eo, x0 * y1, oe, x1 * y0, Q);
  }

  ghost predicate PairAgrees(x: Poly, y: Poly, p: nat)
    requires |x| == |y| == N && p < 128
  {
    Cong(x[2 * p], y[2 * p], Q) && Cong(x[2 * p + 1], y[2 * p + 1], Q)
  }

  lemma HatProductAt(a: Poly, b: Poly, p: nat)
    requires |a| == |b| == N && p < 128
    ensures PairAgrees(Hat(Product(a, b)), PairMul(Hat(a), Hat(b)), p)
  {
    hide Fwd, SquareRoots, Inverses, Product, Gamma, Cong, PairEven, PairOdd, Lin, Evens, Odds, Pow2, Shift;
    PowersOfTwo();
    Tree();
    ProductParts(a, b);
    var ae, ao, be, bo := Evens(a), Odds(a), Evens(b), Odds(b);
    FwdProduct(W, ae, be, 7, p, Q);
    FwdProduct(W, ao, bo, 7, p, Q);
    FwdProduct(W, ae, bo, 7, p, Q);
    FwdProduct(W, ao, be, 7, p, Q);
    FwdShift(Product(ao, bo), p);
    FwdLinear(W, 1, Product(ae, be), 1, Shift(Product(ao, bo)), 1, 7);
    FwdLinear(W, 1, Product(ae, bo), 1, Product(ao, be), 1, 7);
    HatAt(a, p);
    HatAt(b, p);
    HatAt(Product(a, b), p);
    SumAt(Fwd(W, Product(ae, be), 1, 7), Fwd(W, Shift(Product(ao, bo)), 1, 7), p);
    SumAt(Fwd(W, Product(ae, bo), 1, 7), Fwd(W, Product(ao, be), 1, 7), p);
    assert (2 * p) / 2 == p && (2 * p) % 2 == 0 && (2 * p + 1) % 2 == 1;
    PairValue(Hat(Product(a, b))[2 * p], Hat(Product(a, b))[2 * p + 1], Gamma(p),
              Fwd(W, Product(ae, be), 1, 7)[p], Fwd(W, Product(ao, bo), 1, 7)[p],
                   Fwd(W, Shift(Product(ao, bo)), 1, 7)[p],
              Fwd(W, Product(ae, bo), 1, 7)[p], Fwd(W, Product(ao, be), 1, 7)[p],
              Hat(a)[2 * p], Hat(a)[2 * p + 1], Hat(b)[2 * p], Hat(b)[2 * p + 1]);
  }

  lemma SumAt(x: seq<int>, y: seq<int>, p: nat)
    requires |x| == |y| && p < |x|
    ensures Lin(1, x, 1, y)[p] == 1 * x[p] + 1 * y[p]
  {
  }

  lemma HatAt(a: Poly, p: nat)
    requires |a| == N && p < 128
    ensures Hat(a)[2 * p] == HalfHat(Evens(a))[p] && Hat(a)[2 * p + 1] == HalfHat(Odds(a))[p]
  {
    hide HalfHat;
    assert (2 * p) / 2 == p && (2 * p + 1) / 2 == p && (2 * p) % 2 == 0 && (2 * p + 1) % 2 == 1;
  }

  lemma HatProduct(a: Poly, b: Poly)
    requires |a| == |b| == N
    ensures CongSeq(Hat(Product(a, b)), PairMul(Hat(a), Hat(b)), Q)
  {
    hide Hat, PairMul, Product, Cong;
    forall i | 0 <= i < N
      ensures Cong(Hat(Product(a, b))[i], PairMul(Hat(a), Hat(b))[i], Q)
    {
      HatProductAt(a, b, i / 2);
      assert i == 2 * (i / 2) || i == 2 * (i / 2) + 1;
    }
  }

  function Reduced(a: Poly): (r: Poly)
    ensures |r| == |a| && forall i :: 0 <= i < |a| ==> r[i] == BarrettReduce(a[i])
  {
    seq(|a|, i requires 0 <= i < |a| => BarrettReduce(a[i]))
  }

  lemma ReducedValues(a: Poly)
    requires Within(a, 0x7FFF)
    ensures CongSeq(Reduced(a), a, Q) && Within(Reduced(a), 1664)
  {
    hide BarrettReduce, Cong;
    forall i | 0 <= i < |a|
      ensures Cong(Reduced(a)[i], a[i], Q) && -1664 <= Reduced(a)[i] <= 1664
    {
      BarrettReduceExact(a[i]);
    }
  }

  /** Transform with reduction, multiply pairs, reduce, transform back: the product of the
      ring Z_q[X]/(X^256 + 1); the factor 2^-16 of basemul meets the 2^16 of the inverse. */
  lemma ProductTheorem(a: Poly, b: Poly)
    requires |a| == |b| == N && Within(a, 9464) && Within(b, 9464)
    ensures CongSeq(InvNtt(Reduced(BaseMul(Reduced(Ntt(a)), Reduced(Ntt(b))))), Product(a, b), Q)
  {
    hide InvNtt, Ntt, Hat, Product, BaseMul, Reduced, PairMul, CongSeq, Within, Times;
    var x, y := Reduced(Ntt(a)), Reduced(Ntt(b));
    TransformedValues(a);
    TransformedValues(b);
    WithinWeaker(x, 1664, 4095);
    WithinWeaker(y, 1664, 4095);
    BaseMulValues(x, y);
    PairMulCong(x, y, Hat(a), Hat(b));
    HatProduct(a, b);
    BackTransform(BaseMul(x, y), Hat(Product(a, b))) by {
      WithinWeaker(BaseMul(x, y), 2 * Q - 1, 0x7FFF);
      TransSeq(Times(R, BaseMul(x, y)), PairMul(x, y), PairMul(Hat(a), Hat(b)), Q);
      SymSeq(Hat(Product(a, b)), PairMul(Hat(a), Hat(b)));
      TransSeq(Times(R, BaseMul(x, y)), PairMul(Hat(a), Hat(b)), Hat(Product(a, b)), Q);
    }
    HatInjective(InvNtt(Reduced(BaseMul(x, y))), Product(a, b));
  }

  lemma SymSeq(x: seq<int>, y: seq<int>)
    requires CongSeq(x, y, Q)
    ensures CongSeq(y, x, Q)
  {
    hide Cong;
    forall i | 0 <= i < |x|
      ensures Cong(y[i], x[i], Q)
    {
      Sym(x[i], y[i], Q);
    }
  }

  lemma WithinWeaker(x: seq<int>, a: int, b: int)
    requires Within(x, a) && a <= b
    ensures Within(x, b)
  {
  }

  /** mlkem_poly_ntt: the values of a, reduced. */
  lemma TransformedValues(a: Poly)
    requires |a| == N && Within(a, 9464)
    ensures CongSeq(Reduced(Ntt(a)), Hat(a), Q) && Within(Reduced(Ntt(a)), 1664)
  {
    hide Ntt, Hat, CongSeq, Reduced, Within;
    NttIsHat(a, 9464);
    ReducedValues(Ntt(a)) by { WithinWeaker(Ntt(a), 9464 + 7 * Q, 0x7FFF); }
    TransSeq(Reduced(Ntt(a)), Ntt(a), Hat(a), Q);
  }

  /** Reduce and transform back what carries the factor 2^-16. */
  lemma BackTransform(a: Poly, x: seq<int>)
    requires |a| == |x| == N && Within(a, 0x7FFF) && CongSeq(Times(R, a), x, Q)
    ensures |InvNtt(Reduced(a))| == N && CongSeq(Hat(InvNtt(Reduced(a))), x, Q) && Within(InvNtt(Reduced(a)), HALF)
  {
    hide InvNtt, Hat, CongSeq, Reduced, Within, Times;
    ReducedValues(a);
    WithinWeaker(Reduced(a), 1664, Q);
    HatInvNtt(Reduced(a));
    TimesCong(R, Reduced(a), a);
    TransSeq(Times(R, Reduced(a)), Times(R, a), x, Q);
    TransSeq(Hat(InvNtt(Reduced(a))), Times(R, Reduced(a)), x, Q);
  }
}
