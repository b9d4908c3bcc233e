/** The vector transform of ML-KEM against the scalar one: canonical residues of the same
    values, and no 16-bit lane ever wraps on the way. */
module MlkemVectorCorrect {
  import opened Polynomials
  import opened Modular
  import opened NttAlgebra
  import opened Butterflies
  import opened EvenOdd
  import opened VectorLayers
  import opened WideLayers
  import opened MlkemReduce
  import opened RootTables
  import opened MlkemZetas
  import opened MlkemVectorReduce
  import opened MlkemVectorNtt
  import Scalar = MlkemNtt
  import Meaning = MlkemProduct

  // ----- forward

  lemma RootTimes(v: int, z: int, b: int)
    requires 0 <= b <= 0x8000 && -b <= v <= b && v < 0x8000 && -1659 <= z <= 1659
    ensures -Q < FqMulVector(v, z) < Q && Cong(FqMulVector(v, z), z * RINV * v, Q)
  {
    ProductBound(v, z, 0x8000, 1659);
    FqMulVectorExact(v, z);
    assert RINV * (v * z) == z * RINV * v;
  }

  /** The butterflies, spelled out. */
  lemma FwdValues(k: nat, u: int, v: int)
    ensures WFWD.lo(k, u, v) == W16(u + FqMulVector(v, Zeta(k))) && WFWD.hi(k, u, v) == W16(u - FqMulVector(v, Zeta(k)))
  {
    hide Zeta, FqMulVector, W16;
    assert FX.lo(Zeta(k), u, v) == FxLo(Zeta(k), u, v);
    assert FX.hi(Zeta(k), u, v) == FxHi(Zeta(k), u, v);
  }

  lemma Stays(x: int)
    ensures Int16(x) ==> W16(x) == x
  {
  }

  lemma FwdStep(k: nat, u: int, v: int, b: int)
    requires 0 <= b && b + Q < 0x8000 && -b <= u <= b && -b <= v <= b
    ensures Cong(WFWD.lo(k, u, v), Comb(1, u, W(k), v), Q) && -(b + Q) <= WFWD.lo(k, u, v) <= b + Q
    ensures Cong(WFWD.hi(k, u, v), Comb(1, u, -W(k), v), Q) && -(b + Q) <= WFWD.hi(k, u, v) <= b + Q
    ensures Int16(u + FqMulVector(v, Zeta(k))) && Int16(u - FqMulVector(v, Zeta(k)))
  {
    hide Zeta, FqMulVector, Cong, WFWD, W16;
    FwdValues(k, u, v);
    ZetaBound(k);
    Stays(u + FqMulVector(v, Zeta(k)));
    Stays(u - FqMulVector(v, Zeta(k)));
    RootTimes(v, Zeta(k), b);
    Refl(u, Q);
    Add(u, u, FqMulVector(v, Zeta(k)), Zeta(k) * RINV * v, Q);
  }

  lemma FwdOk(b: int)
    requires 0 <= b && b + Q < 0x8000
    ensures ForwardOk(WFWD, W, b, b + Q, Q)
  {
    hide Cong, Comb, Zeta, WFWD;
    forall k: nat, u: int, v: int | -b <= u <= b && -b <= v <= b
      ensures Cong(WFWD.lo(k, u, v), Comb(1, u, W(k), v), Q) && -(b + Q) <= WFWD.lo(k, u, v) <= b + Q
      ensures Cong(WFWD.hi(k, u, v), Comb(1, u, -W(k), v), Q) && -(b + Q) <= WFWD.hi(k, u, v) <= b + Q
    {
      FwdStep(k, u, v, b);
    }
  }

  lemma HalfForward(x: seq<int>, bound: nat)
    requires |x| == Pow2(7) && Within(x, bound) && bound + 7 * Q < 0x8000
    ensures |x| == 1 * Pow2(7)
    ensures CongSeq(DownLayers(WFWD, x, 1, 7, 1), Fwd(W, x, 1, 7), Q)
    ensures Within(DownLayers(WFWD, x, 1, 7, 1), bound + 7 * Q)
  {
    hide CongSeq, Within, ForwardOk, Fwd, Down, DownLayers, Pow2, WFWD;
    var limit := (d: nat) => if d <= 7 then bound + (7 - d) * Q else 0;
    forall e: nat | e < 7
      ensures ForwardOk(WFWD, W, limit(e + 1), limit(e), Q)
    {
      FwdOk(limit(e + 1));
    }
    DownLayersIsDown(WFWD, x, 1, 7);
    DownIsFwd(WFWD, W, limit, x, 1, 7, Q);
  }

  /** Seven layers of vector butterflies, before the values are made canonical. */
  lemma LayersAreHat(a: Poly, bound: nat)
    requires |a| == N && Within(a, bound) && bound + 7 * Q < 0x8000
    ensures Pow2(7) == 128
    ensures CongSeq(WideDown(WFWD, a, 1, 7, 1), Meaning.Hat(a), Q)
    ensures Within(WideDown(WFWD, a, 1, 7, 1), bound + 7 * Q)
  {
    hide CongSeq, Within, Fwd, DownLayers, Evens, Odds, Interleave, Pow2, WideDown, WFWD;
    PowersOfTwo();
    Meaning.PartsWithin(a, bound);
    HalfForward(Evens(a), bound);
    HalfForward(Odds(a), bound);
    var e, o := DownLayers(WFWD, Evens(a), 1, 7, 1), DownLayers(WFWD, Odds(a), 1, 7, 1);
    WideDownParts(WFWD, a, 1, 7, 1);
    InterleaveParts(WideDown(WFWD, a, 1, 7, 1));
    Meaning.InterleaveCong(e, o, Fwd(W, Evens(a), 1, 7), Fwd(W, Odds(a), 1, 7));
    Meaning.InterleaveWithin(e, o, bound + 7 * Q);
  }

  /** Multiplying by 2^16 and reducing leaves the residue, canonical. */
  lemma MulQOne(x: seq<int>, y: seq<int>)
    requires Within(x, 0x7fff) && CongSeq(x, y, Q)
    ensures Canonical(MulQ(x, MONT_R1)) && CongSeq(MulQ(x, MONT_R1), y, Q)
  {
    hide FqMulQ, Cong;
    forall i | 0 <= i < |x|
      ensures 0 <= FqMulQ(x[i], MONT_R1) < Q && Cong(FqMulQ(x[i], MONT_R1), y[i], Q)
    {
      MulQOneAt(x[i]);
      Trans(FqMulQ(x[i], MONT_R1), x[i], y[i], Q);
    }
  }

  lemma MulQOneAt(x: int)
    requires -0x7fff <= x <= 0x7fff
    ensures 0 <= FqMulQ(x, MONT_R1) < Q && Cong(FqMulQ(x, MONT_R1), x, Q)
  {
    hide FqMulQ;
    FqMulQExact(x, MONT_R1);
    FromQuotient(RINV * (x * MONT_R1), x, 116 * x, Q);
    Trans(FqMulQ(x, MONT_R1), RINV * (x * MONT_R1), x, Q);
  }

  ghost predicate Canonical(x: seq<int>) { forall i :: 0 <= i < |x| ==> 0 <= x[i] < Q }

  /** The vector mlkem_poly_ntt gives the canonical residues of the scalar transform. */
  method VectorNtt(a: array<int>, ghost bound: nat)
    requires a.Length == N && Within(a[..], bound) && bound + 7 * Q < 0x8000
    modifies a
    ensures Canonical(a[..]) && CongSeq(a[..], Scalar.Ntt(old(a[..])), Q)
  {
    hide MulQ, WideDown, Within, CongSeq, Meaning.Hat, Scalar.Ntt, Canonical;
    ghost var first := a[..];
    LayersAreHat(first, bound);
    Meaning.NttIsHat(first, bound);
    Meaning.SymSeq(Scalar.Ntt(first), Meaning.Hat(first));
    ghost var x := WideDown(WFWD, first, 1, 7, 1);
    TransSeq(x, Meaning.Hat(first), Scalar.Ntt(first), Q);
    Meaning.WithinWeaker(x, bound + 7 * Q, 0x7fff);
    MulQOne(x, Scalar.Ntt(first));
    VectorNttInPlace(a);
  }

  // ----- inverse

  /** The same butterfly on unbounded integers. */
  function ExactLo(z: int, u: int, v: int): (r: int) { if u + v >= Q then u + v - Q else u + v }

  function ExactHi(z: int, u: int, v: int): (r: int) { FqMulVector(u - v, z) }

  const EXACT: Rooted := Rooted(ExactLo, ExactHi)
  const EXACTINV: Butterfly := ByNode(EXACT, IROOTS)

  lemma InvValues(k: nat, u: int, v: int)
    ensures WINV.lo(k, u, v) == FqCSub(W16(u + v)) && WINV.hi(k, u, v) == FqMulVector(W16(u - v), InverseZeta(k))
    ensures EXACTINV.lo(k, u, v) == (if u + v >= Q then u + v - Q else u + v)
    ensures EXACTINV.hi(k, u, v) == FqMulVector(u - v, InverseZeta(k))
  {
    hide InverseZeta, FqMulVector, W16, FqCSub;
    var z := InverseZeta(k);
    assert RX.lo(z, u, v) == RxLo(z, u, v) && RX.hi(z, u, v) == RxHi(z, u, v);
    assert EXACT.lo(z, u, v) == ExactLo(z, u, v) && EXACT.hi(z, u, v) == ExactHi(z, u, v);
  }

  lemma SumAgrees(u: int, v: int, x: int, y: int, r: int, b: int)
    requires Cong(u, x, Q) && Cong(v, y, Q) && Cong(b, x + y, Q) && r == if u + v >= Q then u + v - Q else u + v
    ensures Cong(r, b, Q)
  {
    hide Cong;
    Add(u, x, v, y, Q);
    FromQuotient(r, u + v, if u + v >= Q then -1 else 0, Q);
    Trans(r, u + v, x + y, Q);
    Sym(b, x + y, Q);
    Trans(r, x + y, b, Q);
  }

  lemma DifferenceAgrees(u: int, v: int, x: int, y: int, z: int, r: int, b: int)
    requires Cong(u, x, Q) && Cong(v, y, Q) && Cong(b, Prod(z, x - y), Q) && Cong(r, z * (u - v), Q)
    ensures Cong(r, b, Q)
  {
    hide Cong;
    Add(u, x, v, y, Q);
    Scale(z, u - v, x - y, Q);
    Trans(r, z * (u - v), z * (x - y), Q);
    Sym(b, Prod(z, x - y), Q);
    Trans(r, z * (x - y), b, Q);
  }

  /** Sums are kept at most Q and may sink to -8Q; differences stay small enough for both. */
  lemma InvStep(k: nat, u: int, v: int, x: int, y: int, l: int, l2: int)
    requires 0 <= l <= 4 * Q && 2 * l <= l2 && Q <= l2 && -l <= u <= Q && -l <= v <= Q
    requires -Q <= x <= Q && -Q <= y <= Q && Cong(u, x, Q) && Cong(v, y, Q)
    ensures WINV.lo(k, u, v) == EXACTINV.lo(k, u, v) && WINV.hi(k, u, v) == EXACTINV.hi(k, u, v)
    ensures -l2 <= WINV.lo(k, u, v) <= Q && -l2 <= WINV.hi(k, u, v) <= Q
    ensures Cong(WINV.lo(k, u, v), Scalar.INV.lo(k, x, y), Q) && Cong(WINV.hi(k, u, v), Scalar.INV.hi(k, x, y), Q)
  {
    InvValues(k, u, v);
    Scalar.InvStep(k, x, y);
    InverseZetaBound(k);
    hide InverseZeta, FqMulVector, Cong, WINV, EXACTINV, Scalar.INV, Prod;
    var z := InverseZeta(k);
    RootTimes(u - v, z, 0x7fff);
    SumAgrees(u, v, x, y, WINV.lo(k, u, v), Scalar.INV.lo(k, x, y));
    DifferenceAgrees(u, v, x, y, z * RINV, WINV.hi(k, u, v), Scalar.INV.hi(k, x, y));
  }

  lemma InverseZetaBound(k: nat)
    ensures -1659 <= InverseZeta(k) <= 1659
  {
    hide Zeta;
    ZetaBound(Mirror(k));
  }

  /** Lanes between -l and Q. */
  ghost predicate InRange(a: seq<int>, l: int) { forall i :: 0 <= i < |a| ==> -l <= a[i] <= Q }

  lemma InvLayerAt(a: seq<int>, b: seq<int>, len: nat, k: nat, m: nat, l: int, l2: int, j: nat)
    requires 0 <= l <= 4 * Q && 2 * l <= l2 && Q <= l2 && InRange(a, l) && Within(b, Q) && CongSeq(a, b, Q)
    requires len > 0 && |a| == m * (2 * len) && j < |a|
    ensures LayerAt(WINV, a, len, k, m, j) == LayerAt(EXACTINV, a, len, k, m, j)
    ensures -l2 <= LayerAt(WINV, a, len, k, m, j) <= Q
    ensures Cong(LayerAt(WINV, a, len, k, m, j), LayerAt(Scalar.INV, b, len, k, m, j), Q)
  {
    hide Cong, WINV, EXACTINV, Scalar.INV;
    BlockIndex(len, m, j);
    var node := k + j / (2 * len);
    var i := if j % (2 * len) < len then j else j - len;
    InvStep(node, a[i], a[i + len], b[i], b[i + len], l, l2);
  }

  lemma InvLayer(a: seq<int>, b: seq<int>, len: nat, k: nat, m: nat, l: int, l2: int)
    requires 0 <= l <= 4 * Q && 2 * l <= l2 && Q <= l2 && InRange(a, l) && Within(b, Q) && CongSeq(a, b, Q)
    requires len > 0 && |a| == m * (2 * len)
    ensures Layer(WINV, a, len, k, m) == Layer(EXACTINV, a, len, k, m) && InRange(Layer(WINV, a, len, k, m), l2)
    ensures CongSeq(Layer(WINV, a, len, k, m), Layer(Scalar.INV, b, len, k, m), Q)
         && Within(Layer(Scalar.INV, b, len, k, m), Q)
  {
    hide Cong, WINV, EXACTINV, Scalar.INV, LayerAt, InverseOk;
    Scalar.InvOk();
    LayerInverse(Scalar.INV, IW, b, len, k, m, Q, Q, Q);
    forall j: nat | j < |a|
      ensures LayerAt(WINV, a, len, k, m, j) == LayerAt(EXACTINV, a, len, k, m, j)
      ensures -l2 <= LayerAt(WINV, a, len, k, m, j) <= Q
      ensures Cong(LayerAt(WINV, a, len, k, m, j), LayerAt(Scalar.INV, b, len, k, m, j), Q)
    {
      InvLayerAt(a, b, len, k, m, l, l2, j);
    }
  }

  lemma ThreeWide(f: Butterfly, x: seq<int>)
    requires |x| == N
    ensures Pow2(3) == 8 && WideUp(f, x, 16, 3, 16) == Layer(f, Layer(f, Layer(f, x, 2, 64, 64), 4, 32, 32), 8, 16, 16)
  {
    hide Layer;
    PowersOfTwo();
    assert WideUp(f, x, 64, 1, 64) == Layer(f, x, 2, 64, 64);
    assert WideUp(f, x, 32, 2, 32) == Layer(f, WideUp(f, x, 64, 1, 64), 4, 32, 32);
  }

  /** Layers one to three: from Q down to -8Q. */
  lemma FirstHalf(a: seq<int>)
    requires |a| == N && Within(a, Q)
    ensures Pow2(3) == 8
    ensures WideUp(WINV, a, 16, 3, 16) == WideUp(EXACTINV, a, 16, 3, 16) && InRange(WideUp(WINV, a, 16, 3, 16), 8 * Q)
    ensures CongSeq(WideUp(WINV, a, 16, 3, 16), WideUp(Scalar.INV, a, 16, 3, 16), Q)
         && Within(WideUp(Scalar.INV, a, 16, 3, 16), Q)
  {
    ReflSeq(a, Q);
    assert InRange(a, Q);
    hide Layer, WideUp, InRange, Within, CongSeq, WINV, EXACTINV, Scalar.INV;
    ThreeWide(WINV, a);
    ThreeWide(EXACTINV, a);
    ThreeWide(Scalar.INV, a);
    InvLayer(a, a, 2, 64, 64, Q, 2 * Q);
    var x1, y1 := Layer(WINV, a, 2, 64, 64), Layer(Scalar.INV, a, 2, 64, 64);
    InvLayer(x1, y1, 4, 32, 32, 2 * Q, 4 * Q);
    InvLayer(Layer(WINV, x1, 4, 32, 32), Layer(Scalar.INV, y1, 4, 32, 32), 8, 16, 16, 4 * Q, 8 * Q);
  }

  /** Layers four to seven start from canonical values and sink to -8Q again. */
  lemma SecondHalf(a: seq<int>, b: seq<int>)
    requires |a| == |b| == N && Canonical(a) && Within(b, Q) && CongSeq(a, b, Q)
    ensures FourUp(WINV, a) == FourUp(EXACTINV, a) && InRange(FourUp(WINV, a), 8 * Q)
    ensures CongSeq(FourUp(WINV, a), FourUp(Scalar.INV, b), Q)
  {
    assert InRange(a, 0);
    hide Layer, InRange, Within, CongSeq, Canonical, WINV, EXACTINV, Scalar.INV;
    InvLayer(a, b, 16, 8, 8, 0, Q);
    var x1, y1 := Layer(WINV, a, 16, 8, 8), Layer(Scalar.INV, b, 16, 8, 8);
    InvLayer(x1, y1, 32, 4, 4, Q, 2 * Q);
    var x2, y2 := Layer(WINV, x1, 32, 4, 4), Layer(Scalar.INV, y1, 32, 4, 4);
    InvLayer(x2, y2, 64, 2, 2, 2 * Q, 4 * Q);
    InvLayer(Layer(WINV, x2, 64, 2, 2), Layer(Scalar.INV, y2, 64, 2, 2), 128, 1, 1, 4 * Q, 8 * Q);
  }

  lemma ScalarInverse(a: seq<int>)
    requires |a| == N
    ensures Pow2(3) == 8 && Scalar.InvNtt(a) == Scalar.Scaled(FourUp(Scalar.INV, WideUp(Scalar.INV, a, 16, 3, 16)))
  {
    hide WideUp, UpLayers, FourUp, Evens, Odds, Interleave, Scalar.Scaled, Scalar.INV;
    PowersOfTwo();
    FirstFour(Scalar.INV, a);
    WideUpParts(Scalar.INV, a, 1, 7, 1);
    InterleaveParts(WideUp(Scalar.INV, a, 1, 7, 1));
  }

  lemma LastScaling(x: seq<int>, y: seq<int>)
    requires InRange(x, 8 * Q) && CongSeq(x, y, Q) && Within(y, Q)
    ensures Canonical(MulQ(x, MONT_NR)) && CongSeq(MulQ(x, MONT_NR), Scalar.Scaled(y), Q)
  {
    hide FqMulQ, FqMul, Cong;
    forall i | 0 <= i < |x|
      ensures 0 <= FqMulQ(x[i], MONT_NR) < Q && Cong(FqMulQ(x[i], MONT_NR), FqMul(y[i], Scalar.F), Q)
    {
      FqMulQExact(x[i], MONT_NR);
      Meaning.ScaleBound(y[i]);
      Scale(RINV * MONT_NR, x[i], y[i], Q);
      assert RINV * (x[i] * MONT_NR) == RINV * MONT_NR * x[i];
      Trans(FqMulQ(x[i], MONT_NR), RINV * (x[i] * MONT_NR), RINV * MONT_NR * y[i], Q);
      Sym(FqMul(y[i], Scalar.F), RINV * MONT_NR * y[i], Q);
      Trans(FqMulQ(x[i], MONT_NR), RINV * MONT_NR * y[i], FqMul(y[i], Scalar.F), Q);
    }
  }

  lemma RangeWithin(x: seq<int>)
    requires InRange(x, 8 * Q)
    ensures Within(x, 0x7fff)
  {
  }

  /** No lane of the inverse ever wraps, although sums are reduced on one side only ... */
  lemma InverseNeverWraps(a: seq<int>)
    requires |a| == N && Within(a, Q)
    ensures Pow2(3) == 8
    ensures VectorInverse(a) == MulQ(FourUp(EXACTINV, MulQ(WideUp(EXACTINV, a, 16, 3, 16), MONT_R1)), MONT_NR)
    ensures InRange(WideUp(WINV, a, 16, 3, 16), 8 * Q)
    ensures InRange(FourUp(WINV, MulQ(WideUp(WINV, a, 16, 3, 16), MONT_R1)), 8 * Q)
  {
    hide WideUp, FourUp, MulQ, Within, CongSeq, Canonical, WINV, EXACTINV, Scalar.INV, InRange;
    FirstHalf(a);
    var x, y := WideUp(WINV, a, 16, 3, 16), WideUp(Scalar.INV, a, 16, 3, 16);
    RangeWithin(x);
    MulQOne(x, y);
    SecondHalf(MulQ(x, MONT_R1), y);
  }

  lemma ScalarStays(a: seq<int>)
    requires |a| == N && Within(a, Q)
    ensures Within(FourUp(Scalar.INV, a), Q)
  {
    hide Layer, Within, Scalar.INV, InverseOk;
    Scalar.InvOk();
    LayerInverse(Scalar.INV, IW, a, 16, 8, 8, Q, Q, Q);
    var y1 := Layer(Scalar.INV, a, 16, 8, 8);
    LayerInverse(Scalar.INV, IW, y1, 32, 4, 4, Q, Q, Q);
    var y2 := Layer(Scalar.INV, y1, 32, 4, 4);
    LayerInverse(Scalar.INV, IW, y2, 64, 2, 2, Q, Q, Q);
    LayerInverse(Scalar.INV, IW, Layer(Scalar.INV, y2, 64, 2, 2), 128, 1, 1, Q, Q, Q);
  }

  /** ... and it gives the canonical residues of the scalar inverse. */
  lemma InverseAgrees(a: seq<int>)
    requires |a| == N && Within(a, Q)
    ensures Canonical(VectorInverse(a)) && CongSeq(VectorInverse(a), Scalar.InvNtt(a), Q)
  {
    hide WideUp, FourUp, MulQ, Within, CongSeq, Canonical, WINV, EXACTINV, Scalar.INV, InRange, Scalar.Scaled,
         Scalar.InvNtt;
    FirstHalf(a);
    var x, y := WideUp(WINV, a, 16, 3, 16), WideUp(Scalar.INV, a, 16, 3, 16);
    RangeWithin(x);
    MulQOne(x, y);
    SecondHalf(MulQ(x, MONT_R1), y);
    ScalarStays(y);
    ScalarInverse(a);
    LastScaling(FourUp(WINV, MulQ(x, MONT_R1)), FourUp(Scalar.INV, y));
  }

  /** The vector mlkem_poly_invntt_tomont. */
  method VectorInvNtt(a: array<int>)
    requires a.Length == N && Within(a[..], Q)
    modifies a
    ensures Canonical(a[..]) && CongSeq(a[..], Scalar.InvNtt(old(a[..])), Q)
  {
    hide Within, CongSeq, Canonical, Scalar.InvNtt, VectorInverse;
    InverseAgrees(a[..]);
    VectorInvNttInPlace(a);
  }
}
