/** No signed 32-bit value overflows on any run of key generation, signing or verification of
    tools/pqc/mldsa: every intermediate of the C expressions, on unbounded integers, fits. */
module MldsaNoOverflow {
  import opened Polynomials
  import opened Modular
  import opened NttAlgebra
  import opened Butterflies
  import opened RootTables
  import opened MldsaReduce
  import opened MldsaZetas
  import opened MldsaNtt
  import opened MldsaRounding
  import opened MldsaVector
  import opened MldsaEquation
  import opened MldsaRecovery

  // ----- scalars

  /** The 64-bit product that montgomery_reduce may be given. */
  predicate MontgomerySafe(x: int) { -0x8000_0000 * Q <= x < 0x8000_0000 * Q }

  /** a + 2^22, the quotient times Q, and the difference. */
  predicate ReduceSafe(a: int) {
    var t := (a + 0x40_0000) / 0x80_0000;
    Int32(a) && Int32(a + 0x40_0000) && Int32(t * Q) && Int32(a - t * Q)
  }

  predicate CAddQSafe(a: int) { Int32(a) && Int32(CAddQ(a)) }

  predicate Power2RoundSafe(a: int) {
    var a1 := (a + 0x1000 - 1) / 0x2000;
    Int32(a + 0x1000) && Int32(a1 * 0x2000) && Int32(a - a1 * 0x2000)
  }

  /** The products by 1025 and 11275 with their rounding terms, and the subtractions after them. */
  predicate DecomposeSafe(g: int, a: int)
    requires IsGamma2(g)
  {
    var t := (a + 127) / 0x80;
    var (a1, a0) := Decompose(g, a);
    && Int32(a + 127)
    && (g == GAMMA2_32 ==> Int32(t * 1025 + 0x20_0000) && Int32(a1 * 2 * GAMMA2_32))
    && (g == GAMMA2_88 ==> Int32(t * 11275 + 0x80_0000) && Int32(a1 * 2 * GAMMA2_88))
    && Int32((Q - 1) / 2 - (a - a1 * (2 * g))) && Int32(a - a1 * (2 * g)) && Int32(a0)
  }

  /** poly_chknorm doubles every value before it masks the result. */
  predicate NormSafe(a: int) { Int32(a) && Int32(2 * a) && Int32(a - SignMask(a, 2 * a)) }

  lemma ReduceIsSafe(a: int)
    requires -0x8000_0000 <= a <= 0x8000_0000 - 0x40_0000 - 1
    ensures ReduceSafe(a)
  {
    var t := (a + 0x40_0000) / 0x80_0000;
    assert -256 <= t <= 255;
  }

  lemma Power2RoundIsSafe(a: int)
    requires 0 <= a < Q
    ensures Power2RoundSafe(a)
  {
    Power2RoundExact(a);
  }

  lemma DecomposeIsSafe(g: int, a: int)
    requires IsGamma2(g) && 0 <= a < Q
    ensures DecomposeSafe(g, a)
  {
    DecomposeExact(g, a);
    var (a1, a0) := Decompose(g, a);
    hide Decompose;
    assert 0 <= a1 < 44 && -GAMMA2_32 <= a0 <= GAMMA2_32;
    assert 0 <= (a + 127) / 0x80 <= 65473;
    assert 0 <= a1 * (2 * g) <= 44 * (2 * GAMMA2_32);
  }

  // ----- the transform

  /** One layer: every product of a root may be reduced, every stored value fits. */
  ghost predicate DownLayerSafe(a: seq<int>, len: nat, k: nat, m: nat)
    requires len > 0 && |a| == m * (2 * len)
  {
    && (forall j: nat :: j < |a| && j % (2 * len) < len ==>
        j + len < |a| && MontgomerySafe(Zeta(k + j / (2 * len)) * a[j + len]))
    && forall j :: 0 <= j < |a| ==> Int32(Layer(FWD, a, len, k, m)[j])
  }

  ghost predicate DownSafe(a: seq<int>, k: nat, d: nat, m: nat)
    requires |a| == m * Pow2(d)
    decreases d
  {
    d > 0 ==> DownLayerSafe(a, Pow2(d - 1), k, m) && DownSafe(Layer(FWD, a, Pow2(d - 1), k, m), 2 * k, d - 1, 2 * m)
  }

  /** One inverse layer: sums and differences fit, and so do the products. */
  ghost predicate UpLayerSafe(a: seq<int>, len: nat, k: nat, m: nat)
    requires len > 0 && |a| == m * (2 * len)
  {
    forall j: nat :: j < |a| && j % (2 * len) < len ==>
      && j + len < |a| && Int32(a[j] + a[j + len]) && Int32(a[j] - a[j + len])
      && MontgomerySafe(InverseZeta(k + j / (2 * len)) * (a[j] - a[j + len]))
  }

  ghost predicate UpSafe(a: seq<int>, k: nat, d: nat, m: nat)
    requires |a| == m * Pow2(d)
    decreases d
  {
    d > 0 ==> UpSafe(a, 2 * k, d - 1, 2 * m) && UpLayerSafe(UpLayers(INV, a, 2 * k, d - 1, 2 * m), Pow2(d - 1), k, m)
  }

  ghost predicate NttSafe(a: Poly) {
    |a| == N && Pow2(8) == N && DownSafe(a, 1, 8, 1)
  }

  ghost predicate InvNttSafe(a: Poly) {
    && |a| == N && Pow2(8) == N && UpSafe(a, 1, 8, 1)
    && forall i :: 0 <= i < N ==> MontgomerySafe(F * UpLayers(INV, a, 1, 8, 1)[i])
  }

  lemma RootProductSafe(z: int, v: int)
    requires -4108315 <= z <= 4108315 && -0x8000_0000 <= v <= 0x8000_0000
    ensures MontgomerySafe(z * v)
  {
    ProductBound(z, v, 4108315, 0x8000_0000);
  }

  lemma DownLayerIsSafe(a: seq<int>, len: nat, k: nat, m: nat, limit: int)
    requires 0 <= limit && limit + Q < 0x8000_0000 && Within(a, limit) && len > 0 && |a| == m * (2 * len)
    ensures DownLayerSafe(a, len, k, m) && Within(Layer(FWD, a, len, k, m), limit + Q)
  {
    hide MontgomerySafe, Zeta, ForwardOk, Layer, FWD;
    FwdOk(limit);
    LayerForward(FWD, W, a, len, k, m, limit, limit + Q, Q);
    var next := Layer(FWD, a, len, k, m);
    assert forall j :: 0 <= j < |a| ==> Int32(next[j]);
    forall j: nat | j < |a| && j % (2 * len) < len
      ensures j + len < |a| && MontgomerySafe(Zeta(k + j / (2 * len)) * a[j + len])
    {
      BlockIndex(len, m, j);
      ZetaBound(k + j / (2 * len));
      RootProductSafe(Zeta(k + j / (2 * len)), a[j + len]);
    }
  }

  lemma {:induction false} DownIsSafe(a: seq<int>, k: nat, d: nat, m: nat, limit: int)
    requires 0 <= limit && limit + d * Q < 0x8000_0000 && Within(a, limit) && |a| == m * Pow2(d)
    ensures DownSafe(a, k, d, m)
    decreases d
  {
    hide Layer, Within, DownLayerSafe;
    if d > 0 {
      DownLayerIsSafe(a, Pow2(d - 1), k, m, limit);
      DownIsSafe(Layer(FWD, a, Pow2(d - 1), k, m), 2 * k, d - 1, 2 * m, limit + Q);
    }
  }

  lemma UpLayerIsSafe(a: seq<int>, len: nat, k: nat, m: nat, limit: int)
    requires Q <= limit && 2 * limit < 0x8000_0000 && Within(a, limit) && len > 0 && |a| == m * (2 * len)
    ensures UpLayerSafe(a, len, k, m) && Within(Layer(INV, a, len, k, m), 2 * limit)
  {
    hide MontgomerySafe, Zeta, InverseOk, Layer, INV, InverseZeta;
    InvOk(limit);
    LayerInverse(INV, IW, a, len, k, m, limit, 2 * limit, Q);
    forall j: nat | j < |a| && j % (2 * len) < len
      ensures j + len < |a| && Int32(a[j] + a[j + len]) && Int32(a[j] - a[j + len])
      ensures MontgomerySafe(InverseZeta(k + j / (2 * len)) * (a[j] - a[j + len]))
    {
      BlockIndex(len, m, j);
      InverseZetaBound(k + j / (2 * len));
      RootProductSafe(InverseZeta(k + j / (2 * len)), a[j] - a[j + len]);
    }
  }

  lemma InverseZetaBound(k: nat)
    ensures -4108315 <= InverseZeta(k) <= 4108315
  {
    hide Zeta;
    ZetaBound(Mirror(k));
  }

  lemma {:induction false} UpIsSafe(a: seq<int>, k: nat, d: nat, m: nat)
    requires d <= 8 && Within(a, Q) && |a| == m * Pow2(d)
    ensures UpSafe(a, k, d, m) && Within(UpLayers(INV, a, k, d, m), Pow2(d) * Q)
    decreases d
  {
    hide Layer, Within, UpLayerSafe;
    if d > 0 {
      UpIsSafe(a, 2 * k, d - 1, 2 * m);
      PowerAtMost(d - 1);
      UpLayerIsSafe(UpLayers(INV, a, 2 * k, d - 1, 2 * m), Pow2(d - 1), k, m, Pow2(d - 1) * Q);
    }
  }

  /** Eight times Q on top of a bound of 2^19 or Q stays far below 2^31. */
  lemma NttIsSafe(a: Poly)
    requires IsPoly(a, Q)
    ensures NttSafe(a)
  {
    hide Within, DownSafe;
    PowersOfTwo();
    DownIsSafe(a, 1, 8, 1, Q);
  }

  /** 256 * Q is below 2^31 by about two million. */
  lemma InvNttIsSafe(a: Poly)
    requires IsPoly(a, Q)
    ensures InvNttSafe(a)
  {
    hide UpSafe, UpLayers;
    PowersOfTwo();
    UpIsSafe(a, 1, 8, 1);
  }

  lemma NttBound(a: Poly)
    requires IsPoly(a, Q)
    ensures IsPoly(Ntt(a), 9 * Q)
  {
    hide Ntt, Hat, CongSeq;
    NttIsHat(a, Q);
  }

  lemma InvNttBound(a: Poly)
    requires IsPoly(a, Q)
    ensures IsPoly(InvNtt(a), HALF)
  {
    hide InvNtt, Inv, Times, CongSeq;
    InvNttIsInv(a);
  }

  // ----- sums and products of polynomials

  ghost predicate ProductsSafe(x: Poly, y: Poly) {
    |x| == |y| && forall i :: 0 <= i < |x| ==> MontgomerySafe(x[i] * y[i])
  }

  ghost predicate SumSafe(x: Poly, y: Poly) {
    |x| == |y| && forall i :: 0 <= i < |x| ==> Int32(x[i] + y[i])
  }

  ghost predicate DifferenceSafe(x: Poly, y: Poly) {
    |x| == |y| && forall i :: 0 <= i < |x| ==> Int32(x[i] - y[i])
  }

  ghost predicate ReducedSafe(a: Poly) { forall i :: 0 <= i < |a| ==> ReduceSafe(a[i]) }

  ghost predicate CanonicalSafe(a: Poly) { forall i :: 0 <= i < |a| ==> CAddQSafe(a[i]) }

  ghost predicate NormsSafe(a: Poly) { forall i :: 0 <= i < |a| ==> NormSafe(a[i]) }

  /** Every product and every partial sum of a row. */
  ghost predicate AccumulateSafe(row: seq<Poly>, v: seq<Poly>, n: nat)
    requires 0 < n <= |row| && Matched(row, v)
  {
    && ProductsSafe(row[n - 1], v[n - 1])
    && (n > 1 ==> AccumulateSafe(row, v, n - 1) && SumSafe(Accumulate(row, v, n - 1), Pointwise(row[n - 1], v[n - 1])))
  }

  lemma ProductsAreSafe(x: Poly, y: Poly)
    requires IsPoly(x, 9 * Q) && IsPoly(y, 9 * Q)
    ensures ProductsSafe(x, y) && IsPoly(Pointwise(x, y), Q)
  {
    hide MontgomeryReduce;
    forall i | 0 <= i < N
      ensures MontgomerySafe(x[i] * y[i]) && -Q <= Pointwise(x, y)[i] <= Q
    {
      ProductBound(x[i], y[i], 9 * Q, 9 * Q);
      PointwiseValue(x[i], y[i]);
    }
  }

  lemma ReducedIsSafe(a: Poly)
    requires IsPoly(a, 9 * Q)
    ensures ReducedSafe(a) && IsPoly(Reduced(a), Q) && NormsSafe(Reduced(a))
  {
    hide Reduce32, ReduceSafe, Cong;
    forall i | 0 <= i < N
      ensures ReduceSafe(a[i]) && -Q <= Reduced(a)[i] <= Q
    {
      ReduceIsSafe(a[i]);
      Reduce32Exact(a[i]);
    }
  }

  lemma NttVectorBound(v: seq<Poly>, l: nat)
    requires IsVector(v, |v|, Q) && l < |v|
    ensures NttSafe(v[l]) && IsPoly(NttVector(v)[l], 9 * Q)
  {
    hide NttSafe, Ntt, Hat, CongSeq;
    NttIsSafe(v[l]);
    NttBound(v[l]);
  }

  lemma {:induction false} AccumulateIsSafe(row: seq<Poly>, v: seq<Poly>, n: nat)
    requires Matched(row, v) && 0 < n <= |row| && n <= 8 && IsVector(row, |row|, Q) && IsVector(v, |v|, 9 * Q)
    ensures AccumulateSafe(row, v, n) && IsPoly(Accumulate(row, v, n), n * Q)
  {
    hide ProductsSafe, MontgomeryReduce, MontgomerySafe, W32;
    var last := Pointwise(row[n - 1], v[n - 1]);
    ProductsAreSafe(row[n - 1], v[n - 1]);
    if n > 1 {
      AccumulateIsSafe(row, v, n - 1);
      SumsStay(Accumulate(row, v, n - 1), last, (n - 1) * Q);
    }
  }

  lemma SumsStay(x: Poly, y: Poly, b: int)
    requires IsPoly(x, b) && IsPoly(y, Q) && 0 <= b <= 8 * Q
    ensures SumSafe(x, y) && IsPoly(Plus(x, y), b + Q)
    ensures DifferenceSafe(x, y) && IsPoly(Minus(x, y), b + Q)
  {
    hide W32;
  }

  // ----- rows of key generation, signing and verification

  /** The row of a matrix-vector product: transforms, sums, reduction, inverse. */
  ghost predicate RowSafe(row: seq<Poly>, v: seq<Poly>)
    requires Matched(row, v) && 0 < |row|
  {
    && (forall l :: 0 <= l < |v| ==> NttSafe(v[l]))
    && AccumulateSafe(row, NttVector(v), |row|)
    && ReducedSafe(Accumulate(row, NttVector(v), |row|))
    && InvNttSafe(Reduced(Accumulate(row, NttVector(v), |row|)))
  }

  lemma RowIsSafe(row: seq<Poly>, v: seq<Poly>)
    requires Matched(row, v) && 0 < |row| <= 8 && IsVector(row, |row|, Q) && IsVector(v, |v|, Q)
    ensures RowSafe(row, v) && IsPoly(RowProduct(row, v), HALF)
  {
    hide NttSafe, InvNttSafe, AccumulateSafe, ReducedSafe, Ntt, InvNtt, Reduced, Accumulate, Pointwise;
    forall l: nat | l < |v|
      ensures NttSafe(v[l]) && IsPoly(NttVector(v)[l], 9 * Q)
    {
      NttVectorBound(v, l);
    }
    var w := NttVector(v);
    AccumulateIsSafe(row, w, |row|);
    var a := Accumulate(row, w, |row|);
    ReducedIsSafe(a);
    InvNttIsSafe(Reduced(a));
    InvNttBound(Reduced(a));
  }

  ghost predicate ProductSafe(a: Poly, b: Poly) {
    && NttSafe(a) && NttSafe(b) && ProductsSafe(Ntt(a), Ntt(b)) && InvNttSafe(Pointwise(Ntt(a), Ntt(b)))
  }

  lemma ProductIsSafe(a: Poly, b: Poly)
    requires IsPoly(a, Q) && IsPoly(b, Q)
    ensures ProductSafe(a, b) && IsPoly(PolyProduct(a, b), HALF)
  {
    hide NttSafe, InvNttSafe, ProductsSafe, Ntt, InvNtt, Pointwise;
    NttIsSafe(a);
    NttIsSafe(b);
    NttBound(a);
    NttBound(b);
    ProductsAreSafe(Ntt(a), Ntt(b));
    InvNttIsSafe(Pointwise(Ntt(a), Ntt(b)));
    InvNttBound(Pointwise(Ntt(a), Ntt(b)));
  }

  ghost predicate KeyRowSafe(row: seq<Poly>, s1: seq<Poly>, s2: Poly)
    requires Matched(row, s1) && 0 < |row| && |s2| == N
  {
    && RowSafe(row, s1) && SumSafe(RowProduct(row, s1), s2) && CanonicalSafe(Plus(RowProduct(row, s1), s2))
    && forall i :: 0 <= i < N ==> Power2RoundSafe(KeyRow(row, s1, s2)[i])
  }

  lemma CanonicalIsSafe(a: Poly)
    requires IsPoly(a, Q - 1)
    ensures CanonicalSafe(a) && forall i :: 0 <= i < N ==> 0 <= Canonical(a)[i] < Q
  {
  }

  lemma KeyRowIsSafe(row: seq<Poly>, s1: seq<Poly>, s2: Poly)
    requires Matched(row, s1) && 0 < |row| <= 8 && IsVector(row, |row|, Q) && IsVector(s1, |s1|, Q) && IsPoly(s2, 4)
    ensures KeyRowSafe(row, s1, s2)
  {
    hide RowSafe, RowProduct, W32, Power2RoundSafe;
    RowIsSafe(row, s1);
    var t := Plus(RowProduct(row, s1), s2);
    CanonicalIsSafe(t);
    forall i | 0 <= i < N
      ensures Power2RoundSafe(KeyRow(row, s1, s2)[i])
    {
      Power2RoundIsSafe(Canonical(t)[i]);
    }
  }

  ghost predicate CommitmentRowSafe(g: int, row: seq<Poly>, y: seq<Poly>)
    requires IsGamma2(g) && Matched(row, y) && 0 < |row|
  {
    && RowSafe(row, y) && CanonicalSafe(RowProduct(row, y))
    && forall i :: 0 <= i < N ==> DecomposeSafe(g, CommitmentRow(row, y)[i])
  }

  lemma CommitmentRowIsSafe(g: int, row: seq<Poly>, y: seq<Poly>)
    requires IsGamma2(g) && Matched(row, y) && 0 < |row| <= 8 && IsVector(row, |row|, Q) && IsVector(y, |y|, Q)
    ensures CommitmentRowSafe(g, row, y) && IsCanonical(CommitmentRow(row, y))
  {
    hide RowSafe, RowProduct, DecomposeSafe;
    RowIsSafe(row, y);
    CanonicalIsSafe(RowProduct(row, y));
    forall i | 0 <= i < N
      ensures DecomposeSafe(g, CommitmentRow(row, y)[i])
    {
      DecomposeIsSafe(g, CommitmentRow(row, y)[i]);
    }
  }

  /** z = y + c * s1, reduced and compared. */
  ghost predicate ResponseSafe(c: Poly, s: Poly, y: Poly)
    requires |c| == |s| == |y| == N
  {
    ProductSafe(c, s) && SumSafe(PolyProduct(c, s), y) && ReducedSafe(Plus(PolyProduct(c, s), y))
         && NormsSafe(Response(c, s, y))
  }

  lemma ResponseIsSafe(c: Poly, s: Poly, y: Poly)
    requires IsPoly(c, Q) && IsPoly(s, Q) && IsPoly(y, Q)
    ensures ResponseSafe(c, s, y)
  {
    hide ProductSafe, PolyProduct, W32, ReducedSafe, NormsSafe, Reduced;
    ProductIsSafe(c, s);
    SumsStay(PolyProduct(c, s), y, HALF);
    ReducedIsSafe(Plus(PolyProduct(c, s), y));
  }

  /** w0 - c * s2 and c * t0, reduced and compared, and their sum. */
  ghost predicate HintRowSafe(g: int, w: Poly, c: Poly, s2: Poly, t0: Poly)
    requires IsGamma2(g) && |w| == |c| == |s2| == |t0| == N
  {
    && ProductSafe(c, s2) && DifferenceSafe(LowPart(g, w), PolyProduct(c, s2))
       && ReducedSafe(Minus(LowPart(g, w), PolyProduct(c, s2)))
    && NormsSafe(Remainder(g, w, c, s2))
    && ProductSafe(c, t0) && ReducedSafe(PolyProduct(c, t0)) && NormsSafe(Carry(c, t0))
    && SumSafe(Remainder(g, w, c, s2), Carry(c, t0))
  }

  lemma LowPartBound(g: int, w: Poly)
    requires IsGamma2(g) && IsCanonical(w)
    ensures IsPoly(LowPart(g, w), GAMMA2_32)
  {
    hide Decompose;
    forall i | 0 <= i < N
      ensures -GAMMA2_32 <= LowPart(g, w)[i] <= GAMMA2_32
    {
      DecomposeExact(g, w[i]);
    }
  }

  lemma HintRowIsSafe(g: int, w: Poly, c: Poly, s2: Poly, t0: Poly)
    requires IsGamma2(g) && IsCanonical(w) && IsPoly(c, Q) && IsPoly(s2, Q) && IsPoly(t0, Q)
    ensures HintRowSafe(g, w, c, s2, t0)
  {
    hide ProductSafe, PolyProduct, W32, ReducedSafe, NormsSafe, Reduced, LowPart, IsGamma2, Minus, Plus;
    ProductIsSafe(c, s2);
    ProductIsSafe(c, t0);
    LowPartBound(g, w);
    SumsStay(LowPart(g, w), PolyProduct(c, s2), GAMMA2_32);
    ReducedIsSafe(Minus(LowPart(g, w), PolyProduct(c, s2)));
    ReducedIsSafe(PolyProduct(c, t0));
    SumsStay(Remainder(g, w, c, s2), Carry(c, t0), Q);
  }

  /** A * z - c * t1 * 2^13, made canonical and decomposed for the hint. */
  ghost predicate RecoveredRowSafe(g: int, row: seq<Poly>, z: seq<Poly>, c: Poly, t1: Poly)
    requires IsGamma2(g) && Matched(row, z) && 0 < |row| && |c| == |t1| == N
  {
    var u := ShiftedUp(t1);
    var a := Accumulate(row, NttVector(z), |row|);
    var b := Pointwise(Ntt(c), Ntt(u));
    && (forall l :: 0 <= l < |z| ==> NttSafe(z[l])) && AccumulateSafe(row, NttVector(z), |row|)
    && (forall i :: 0 <= i < N ==> Int32(t1[i] * 0x2000)) && NttSafe(c) && NttSafe(u) && ProductsSafe(Ntt(c), Ntt(u))
    && DifferenceSafe(a, b) && ReducedSafe(Minus(a, b)) && InvNttSafe(Reduced(Minus(a, b)))
    && CanonicalSafe(RowDifference(row, z, c, t1))
    && forall i :: 0 <= i < N ==> DecomposeSafe(g, RecoveredRow(row, z, c, t1)[i])
  }

  lemma DifferenceIsSafe(a: Poly, c: Poly, u: Poly)
    requires IsPoly(a, 7 * Q) && IsPoly(c, Q) && IsPoly(u, Q)
    ensures NttSafe(c) && NttSafe(u) && ProductsSafe(Ntt(c), Ntt(u))
    ensures var b := Pointwise(Ntt(c), Ntt(u));
      && DifferenceSafe(a, b) && ReducedSafe(Minus(a, b)) && InvNttSafe(Reduced(Minus(a, b)))
      && IsPoly(InvNtt(Reduced(Minus(a, b))), HALF)
  {
    hide NttSafe, InvNttSafe, ProductsSafe, ReducedSafe, Ntt, InvNtt, Pointwise, Reduced, Minus;
    NttIsSafe(c);
    NttIsSafe(u);
    NttBound(c);
    NttBound(u);
    ProductsAreSafe(Ntt(c), Ntt(u));
    var b := Pointwise(Ntt(c), Ntt(u));
    SumsStay(a, b, 7 * Q);
    ReducedIsSafe(Minus(a, b));
    InvNttIsSafe(Reduced(Minus(a, b)));
    InvNttBound(Reduced(Minus(a, b)));
  }

  lemma RecoveredRowIsSafe(g: int, row: seq<Poly>, z: seq<Poly>, c: Poly, t1: Poly)
    requires IsGamma2(g) && Matched(row, z) && 0 < |row| <= 7 && IsVector(row, |row|, Q) && IsVector(z, |z|, Q)
    requires IsPoly(c, Q) && |t1| == N && forall i :: 0 <= i < N ==> 0 <= t1[i] <= 1023
    ensures RecoveredRowSafe(g, row, z, c, t1)
  {
    hide NttSafe, InvNttSafe, AccumulateSafe, ReducedSafe, ProductsSafe, DifferenceSafe, Ntt, InvNtt, Reduced,
         Accumulate, Pointwise, DecomposeSafe, Minus, ShiftedUp, Times;
    forall l: nat | l < |z|
      ensures NttSafe(z[l]) && IsPoly(NttVector(z)[l], 9 * Q)
    {
      NttVectorBound(z, l);
    }
    AccumulateIsSafe(row, NttVector(z), |row|);
    ShiftedUpExact(t1);
    var a := Accumulate(row, NttVector(z), |row|);
    DifferenceIsSafe(a, c, ShiftedUp(t1));
    CanonicalIsSafe(RowDifference(row, z, c, t1));
    forall i | 0 <= i < N
      ensures DecomposeSafe(g, RecoveredRow(row, z, c, t1)[i])
    {
      DecomposeIsSafe(g, RecoveredRow(row, z, c, t1)[i]);
    }
  }
}
