/** What every polynomial of the K-PKE scheme stands for at one pair of values. */
module MlkemValues {
  import opened Modular
  import opened Polynomials
  import opened NttAlgebra
  import opened PairAlgebra
  import opened MlkemReduce
  import opened MlkemNtt
  import opened MlkemProduct
  import opened MlkemKpke

  function At(x: Poly, p: nat): (r: Pair)
    requires |x| == N && p < 128
  {
    Pair(x[2 * p], x[2 * p + 1])
  }

  function AllAt(v: seq<Poly>, p: nat): (r: seq<Pair>)
    requires IsShape(v, |v|) && p < 128
    ensures |r| == |v| && forall i :: 0 <= i < |v| ==> r[i] == At(v[i], p)
  {
    seq(|v|, i requires 0 <= i < |v| => At(v[i], p))
  }

  function HatVector(v: seq<Poly>): (r: seq<Poly>)
    requires IsShape(v, |v|)
    ensures IsShape(r, |v|) && forall i :: 0 <= i < |v| ==> r[i] == Hat(v[i])
  {
    seq(|v|, i requires 0 <= i < |v| => Hat(v[i]))
  }

  /** The values of a at pair p are x, modulo Q. */
  ghost predicate Stands(a: Poly, p: nat, x: Pair) {
    |a| == N && p < 128 && Cong2(At(a, p), x, Q)
  }

  lemma CongStands(a: Poly, b: Poly, p: nat, x: Pair)
    requires |a| == |b| == N && CongSeq(a, b, Q) && Stands(b, p, x)
    ensures Stands(a, p, x)
  {
    hide Cong;
    TransCong2(At(a, p), At(b, p), x, Q);
  }

  lemma OwnStands(a: Poly, b: Poly, p: nat)
    requires |a| == |b| == N && p < 128 && CongSeq(a, b, Q)
    ensures Stands(a, p, At(b, p))
  {
    hide Cong;
  }

  lemma SameSums(x: Pair, y: Pair)
    ensures Pair(1 * x.a + 1 * y.a, 1 * x.b + 1 * y.b) == Add2(x, y)
    ensures Pair(1 * x.a + -1 * y.a, 1 * x.b + -1 * y.b) == Sub2(x, y)
  {
  }

  lemma HatSumAt(a: Poly, b: Poly, p: nat)
    requires |a| == |b| == N && p < 128
    ensures At(Hat(Lin(1, a, 1, b)), p) == Add2(At(Hat(a), p), At(Hat(b), p))
    ensures At(Hat(Lin(1, a, -1, b)), p) == Sub2(At(Hat(a), p), At(Hat(b), p))
  {
    hide Hat;
    HatLin(1, a, 1, b);
    HatLin(1, a, -1, b);
  }

  lemma PairMulAt(x: Poly, y: Poly, p: nat)
    requires |x| == |y| == N && p < 128
    ensures At(PairMul(x, y), p) == Mul2(Gamma(p), At(x, p), At(y, p))
  {
    hide Gamma;
    assert (2 * p) / 2 == p && (2 * p) % 2 == 0 && (2 * p + 1) % 2 == 1;
  }

  lemma HatProductStands(a: Poly, b: Poly, p: nat)
    requires |a| == |b| == N && p < 128
    ensures Stands(Hat(Product(a, b)), p, Mul2(Gamma(p), At(Hat(a), p), At(Hat(b), p)))
  {
    hide Hat, Product, PairMul, Cong;
    HatProduct(a, b);
    PairMulAt(Hat(a), Hat(b), p);
  }

  // ----- sums of pairwise products

  lemma ProductStep(x: Poly, y: Poly, p: nat)
    requires IsPoly(x, 4095) && IsPoly(y, 4095) && p < 128
    ensures Stands(Times(R, BaseMul(x, y)), p, Mul2(Gamma(p), At(x, p), At(y, p)))
    ensures IsPoly(BaseMul(x, y), 2 * Q - 1)
  {
    hide BaseMul, PairMul, Cong;
    BaseMulValues(x, y);
    PairMulAt(x, y, p);
  }

  lemma PlusBound(a: Poly, b: Poly, m: int, n: int)
    requires IsPoly(a, m) && IsPoly(b, n) && m + n < 0x8000
    ensures Plus(a, b) == Lin(1, a, 1, b) && IsPoly(Plus(a, b), m + n)
  {
    hide W16;
    forall i | 0 <= i < N
      ensures Plus(a, b)[i] == a[i] + b[i]
    {
      assert Int16(a[i] + b[i]);
    }
  }

  lemma PlusStands(a: Poly, b: Poly, p: nat, x: Pair, y: Pair)
    requires |a| == |b| == N && Plus(a, b) == Lin(1, a, 1, b)
    requires Stands(Times(R, a), p, x) && Stands(Times(R, b), p, y)
    ensures Stands(Times(R, Plus(a, b)), p, Add2(x, y))
  {
    hide Cong, Plus;
    AddCong2(At(Times(R, a), p), At(Times(R, b), p), x, y, Q);
    assert At(Times(R, Plus(a, b)), p) == Add2(At(Times(R, a), p), At(Times(R, b), p));
  }

  lemma {:induction false} AccumulateStands(x: seq<Poly>, y: seq<Poly>, n: nat, p: nat)
    requires IsShape(x, |x|) && IsShape(y, |y|) && Matched(x, y) && 0 < n <= |x| <= 4 && p < 128
         && IsVector(x, |x|, 4095) && IsVector(y, |x|, 4095)
    ensures Stands(Times(R, Accumulate(x, y, n)), p, Dot2(Gamma(p), AllAt(x, p), AllAt(y, p), n))
    ensures IsPoly(Accumulate(x, y, n), n * (2 * Q - 1))
  {
    hide BaseMul, Gamma, Mul2, Plus, Stands, Times, Add2;
    var g, xs, ys := Gamma(p), AllAt(x, p), AllAt(y, p);
    var last := BaseMul(x[n - 1], y[n - 1]);
    ProductStep(x[n - 1], y[n - 1], p);
    DotUnfold(g, xs, ys, n);
    if n == 1 {
      MulZeroLeft(Mul2(g, xs[0], ys[0]));
    } else {
      AccumulateStands(x, y, n - 1, p);
      PlusBound(Accumulate(x, y, n - 1), last, (n - 1) * (2 * Q - 1), 2 * Q - 1);
      PlusStands(Accumulate(x, y, n - 1), last, p, Dot2(g, xs, ys, n - 1), Mul2(g, xs[n - 1], ys[n - 1]));
    }
  }

  lemma DotUnfold(g: int, x: seq<Pair>, y: seq<Pair>, n: nat)
    requires 0 < n <= |x| == |y|
    ensures Dot2(g, x, y, n) == Add2(Dot2(g, x, y, n - 1), Mul2(g, x[n - 1], y[n - 1])) && Dot2(g, x, y, 0) == ZERO
  {
  }

  lemma MulZeroLeft(x: Pair)
    ensures Add2(ZERO, x) == x
  {
  }

  /** polyvec_basemul_acc_montgomery: the sum of the products, with the factor 2^-16. */
  lemma RowStands(x: seq<Poly>, y: seq<Poly>, xh: seq<Pair>, yh: seq<Pair>, p: nat)
    requires Matched(x, y) && 0 < |x| <= 4 && p < 128 && IsVector(x, |x|, 4095) && IsVector(y, |x|, 4095)
    requires |xh| == |yh| == |x| && forall i :: 0 <= i < |x| ==> Stands(x[i], p, xh[i]) && Stands(y[i], p, yh[i])
    ensures Stands(Times(R, RowProduct(x, y)), p, Dot2(Gamma(p), xh, yh, |x|))
    ensures IsPoly(RowProduct(x, y), 1664)
  {
    hide Gamma, Cong2, Dot2, Times, Reduced;
    var n, a := |x|, Accumulate(x, y, |x|);
    AccumulateStands(x, y, n, p);
    AccumulatedBound(a, n);
    ReducedValues(a);
    TimesCong(R, Reduced(a), a);
    DotCong2(Gamma(p), AllAt(x, p), AllAt(y, p), xh, yh, n, Q);
    RaiseStands(Times(R, a), p, Dot2(Gamma(p), AllAt(x, p), AllAt(y, p), n), Dot2(Gamma(p), xh, yh, n));
    CongStands(Times(R, Reduced(a)), Times(R, a), p, Dot2(Gamma(p), xh, yh, n));
  }

  lemma AccumulatedBound(a: Poly, n: nat)
    requires 0 < n <= 4 && IsPoly(a, n * (2 * Q - 1))
    ensures Within(a, 0x7FFF)
  {
  }

  lemma RaiseStands(a: Poly, p: nat, x: Pair, y: Pair)
    requires Stands(a, p, x) && Cong2(x, y, Q)
    ensures Stands(a, p, y)
  {
    TransCong2(At(a, p), x, y, Q);
  }

  // ----- the rows of the scheme

  lemma TransformedStands(a: Poly, p: nat)
    requires IsPoly(a, 9464) && p < 128
    ensures Stands(Transformed(a), p, At(Hat(a), p)) && IsPoly(Transformed(a), 1664)
  {
    hide Hat, Ntt, Cong, Reduced;
    TransformedValues(a);
    OwnStands(Transformed(a), Hat(a), p);
  }

  lemma ToMontValue(x: int)
    requires -0x8000 <= x < 0x8000
    ensures Cong(MontgomeryReduce(x * R2), R * x, Q) && -Q < MontgomeryReduce(x * R2) < Q
  {
    hide MontgomeryReduce, Cong;
    MontgomeryReduceExact(x * R2);
    DropFactor(MontgomeryReduce(x * R2), x * R2);
    FromQuotient(RINV * (x * R2), R * x, 49 * x, Q) by {
      assert RINV * (x * R2) == x * 228657;
      assert x * 228657 == R * x + 49 * x * Q;
    }
    Trans(MontgomeryReduce(x * R2), RINV * (x * R2), R * x, Q);
  }

  lemma ToMontStands(a: Poly, p: nat, x: Pair)
    requires IsPoly(a, 0x7FFF) && Stands(Times(R, a), p, x)
    ensures Stands(ToMont(a), p, x) && IsPoly(ToMont(a), Q)
  {
    hide MontgomeryReduce, Cong;
    forall i | 0 <= i < N
      ensures Cong(ToMont(a)[i], Times(R, a)[i], Q) && -Q <= ToMont(a)[i] <= Q
    {
      ToMontValue(a[i]);
    }
    CongStands(ToMont(a), Times(R, a), p, x);
  }

  lemma SumStands(a: Poly, b: Poly, p: nat, x: Pair, y: Pair)
    requires |a| == |b| == N && Stands(a, p, x) && Stands(b, p, y)
    ensures Stands(Lin(1, a, 1, b), p, Add2(x, y)) && Stands(Lin(1, a, -1, b), p, Sub2(x, y))
  {
    hide Cong;
    AddCong2(At(a, p), At(b, p), x, y, Q);
    SameSums(At(a, p), At(b, p));
    assert At(Lin(1, a, 1, b), p) == Add2(At(a, p), At(b, p));
    assert At(Lin(1, a, -1, b), p) == Sub2(At(a, p), At(b, p));
  }

  lemma ReducedStands(a: Poly, p: nat, x: Pair)
    requires IsPoly(a, 0x7FFF) && Stands(a, p, x)
    ensures Stands(Reduced(a), p, x) && IsPoly(Reduced(a), 1664)
  {
    hide Reduced, Stands;
    ReducedValues(a);
    CongStands(Reduced(a), a, p, x);
  }

  /** t = A * s + e. */
  lemma PublicStands(row: seq<Poly>, s: seq<Poly>, e: Poly, rowh: seq<Pair>, sh: seq<Pair>, p: nat)
    requires Matched(row, s) && 0 < |row| <= 4 && p < 128 && IsVector(row, |row|, 4095) && IsVector(s, |row|, 4095)
         && IsPoly(e, 9464)
    requires |rowh| == |sh| == |row| && forall i :: 0 <= i < |row| ==>
      Stands(row[i], p, rowh[i]) && Stands(s[i], p, sh[i])
    ensures Stands(PublicRow(row, s, e), p, Add2(Dot2(Gamma(p), rowh, sh, |row|), At(Hat(e), p)))
    ensures IsPoly(PublicRow(row, s, e), 1664)
  {
    hide Gamma, Stands, Dot2, Times, Reduced, ToMont, Plus, RowProduct, Transformed, Hat, Lin;
    var d := Dot2(Gamma(p), rowh, sh, |row|);
    RowStands(row, s, rowh, sh, p);
    ToMontStands(RowProduct(row, s), p, d);
    TransformedStands(e, p);
    var a, b := ToMont(RowProduct(row, s)), Transformed(e);
    PlusBound(a, b, Q, 1664);
    SumStands(a, b, p, d, At(Hat(e), p));
    ReducedStands(Plus(a, b), p, Add2(d, At(Hat(e), p)));
  }

  /** The values of the back-transformed product of two vectors. */
  lemma BackStands(x: seq<Poly>, y: seq<Poly>, xh: seq<Poly>, yh: seq<Poly>, p: nat)
    requires Matched(x, y) && 0 < |x| <= 4 && p < 128 && IsVector(x, |x|, 4095) && IsVector(y, |x|, 4095)
    requires IsShape(xh, |x|) && IsShape(yh, |x|)
    requires forall i :: 0 <= i < |x| ==> CongSeq(x[i], xh[i], Q) && CongSeq(y[i], yh[i], Q)
    ensures Stands(Hat(InvNtt(RowProduct(x, y))), p, Dot2(Gamma(p), AllAt(xh, p), AllAt(yh, p), |x|))
    ensures IsPoly(InvNtt(RowProduct(x, y)), HALF)
  {
    hide Gamma, Dot2, Hat, InvNtt, Cong, Times, RowProduct;
    forall i | 0 <= i < |x|
      ensures Stands(x[i], p, AllAt(xh, p)[i]) && Stands(y[i], p, AllAt(yh, p)[i])
    {
      OwnStands(x[i], xh[i], p);
      OwnStands(y[i], yh[i], p);
    }
    RowStands(x, y, AllAt(xh, p), AllAt(yh, p), p);
    var s := RowProduct(x, y);
    RowFits(s);
    HatInvNtt(s);
    CongStands(Hat(InvNtt(s)), Times(R, s), p, Dot2(Gamma(p), AllAt(xh, p), AllAt(yh, p), |x|));
  }

  lemma RowFits(s: Poly)
    requires IsPoly(s, 1664)
    ensures Within(s, Q)
  {
  }

  /** u = A^T * r + e1. */
  lemma CipherStands(row: seq<Poly>, r: seq<Poly>, e1: Poly, rowh: seq<Poly>, rh: seq<Poly>, p: nat)
    requires Matched(row, r) && 0 < |row| <= 4 && p < 128 && IsVector(row, |row|, 4095) && IsVector(r, |row|, 4095)
         && IsPoly(e1, 3)
    requires IsShape(rowh, |row|) && IsShape(rh, |row|)
    requires forall i :: 0 <= i < |row| ==> CongSeq(row[i], rowh[i], Q) && CongSeq(r[i], rh[i], Q)
    ensures Stands(Hat(CipherRow(row, r, e1)), p,
         Add2(Dot2(Gamma(p), AllAt(rowh, p), AllAt(rh, p), |row|), At(Hat(e1), p)))
    ensures IsPoly(CipherRow(row, r, e1), 1664)
  {
    hide Gamma, Dot2, Hat, InvNtt, Cong, RowProduct, Plus, Reduced, Lin, Stands;
    var a := InvNtt(RowProduct(row, r));
    var d := Dot2(Gamma(p), AllAt(rowh, p), AllAt(rh, p), |row|);
    BackStands(row, r, rowh, rh, p);
    PlusBound(a, e1, HALF, 3);
    SumFits(Plus(a, e1), HALF + 3);
    ReducedValues(Plus(a, e1));
    HatCong(Reduced(Plus(a, e1)), Plus(a, e1));
    HatSumAt(a, e1, p);
    AddedStands(Hat(a), Hat(Plus(a, e1)), p, d, At(Hat(e1), p));
    CongStands(Hat(CipherRow(row, r, e1)), Hat(Plus(a, e1)), p, Add2(d, At(Hat(e1), p)));
  }

  lemma SumFits(a: Poly, n: int)
    requires IsPoly(a, n) && n < 0x8000
    ensures Within(a, 0x7FFF)
  {
  }

  lemma AddedStands(a: Poly, s: Poly, p: nat, x: Pair, y: Pair)
    requires Stands(a, p, x) && |s| == N && At(s, p) == Add2(At(a, p), y)
    ensures Stands(s, p, Add2(x, y))
  {
    ReflCong2(y, Q);
    AddCong2(At(a, p), y, x, y, Q);
  }

  lemma SubtractedStands(a: Poly, b: Poly, s: Poly, p: nat, x: Pair)
    requires Stands(b, p, x) && |a| == |s| == N && At(s, p) == Sub2(At(a, p), At(b, p))
    ensures Stands(s, p, Sub2(At(a, p), x))
  {
    ReflCong2(At(a, p), Q);
    AddCong2(At(a, p), At(b, p), At(a, p), x, Q);
  }

  /** v = t * r + e2 + m. */
  lemma CipherPolyStands(t: seq<Poly>, r: seq<Poly>, e2: Poly, m: Poly, th: seq<Poly>, rh: seq<Poly>, p: nat)
    requires Matched(t, r) && 0 < |t| <= 4 && p < 128 && IsVector(t, |t|, 4095) && IsVector(r, |t|, 4095)
    requires IsPoly(e2, 3) && IsPoly(m, 1665) && IsShape(th, |t|) && IsShape(rh, |t|)
    requires forall i :: 0 <= i < |t| ==> CongSeq(t[i], th[i], Q) && CongSeq(r[i], rh[i], Q)
    ensures Stands(Hat(CipherPoly(t, r, e2, m)), p,
                   Add2(Add2(Dot2(Gamma(p), AllAt(th, p), AllAt(rh, p), |t|), At(Hat(e2), p)), At(Hat(m), p)))
    ensures IsPoly(CipherPoly(t, r, e2, m), 1664)
  {
    hide Gamma, Dot2, Hat, InvNtt, Cong, RowProduct, Plus, Reduced, Lin, Stands;
    var a := InvNtt(RowProduct(t, r));
    var d := Dot2(Gamma(p), AllAt(th, p), AllAt(rh, p), |t|);
    BackStands(t, r, th, rh, p);
    PlusBound(a, e2, HALF, 3);
    var b := Plus(a, e2);
    PlusBound(b, m, HALF + 3, 1665);
    SumFits(Plus(b, m), HALF + 3 + 1665);
    ReducedValues(Plus(b, m));
    HatCong(Reduced(Plus(b, m)), Plus(b, m));
    HatSumAt(a, e2, p);
    HatSumAt(b, m, p);
    AddedStands(Hat(a), Hat(b), p, d, At(Hat(e2), p));
    AddedStands(Hat(b), Hat(Plus(b, m)), p, Add2(d, At(Hat(e2), p)), At(Hat(m), p));
    CongStands(Hat(CipherPoly(t, r, e2, m)), Hat(Plus(b, m)), p, Add2(Add2(d, At(Hat(e2), p)), At(Hat(m), p)));
  }

  lemma MinusBound(a: Poly, b: Poly, m: int, n: int)
    requires IsPoly(a, m) && IsPoly(b, n) && m + n < 0x8000
    ensures Minus(a, b) == Lin(1, a, -1, b) && IsPoly(Minus(a, b), m + n)
  {
    hide W16;
    forall i | 0 <= i < N
      ensures Minus(a, b)[i] == a[i] - b[i]
    {
      assert Int16(a[i] - b[i]);
    }
  }

  /** w = v - s * u. */
  lemma DecryptStands(s: seq<Poly>, u: seq<Poly>, v: Poly, sh: seq<Poly>, p: nat)
    requires IsShape(s, |s|) && IsShape(u, |u|) && Matched(s, u) && 0 < |s| <= 4 && p < 128 && IsVector(s, |s|, 4095)
         && IsVector(u, |s|, Q) && IsPoly(v, Q)
    requires IsShape(sh, |s|) && forall i :: 0 <= i < |s| ==> CongSeq(s[i], sh[i], Q)
    ensures Stands(Hat(DecryptPoly(s, u, v)), p,
         Sub2(At(Hat(v), p), Dot2(Gamma(p), AllAt(sh, p), AllAt(HatVector(u), p), |s|)))
    ensures IsPoly(DecryptPoly(s, u, v), 1664)
  {
    hide Gamma, Dot2, Hat, InvNtt, Cong, RowProduct, Minus, Reduced, Lin, Stands, Ntt;
    var y := TransformedVector(u);
    forall i | 0 <= i < |u|
      ensures IsPoly(y[i], 1664) && CongSeq(y[i], HatVector(u)[i], Q)
    {
      assert IsPoly(u[i], Q);
      TransformedValues(u[i]);
    }
    Transformed4095(y, |s|);
    var a := InvNtt(RowProduct(s, y));
    var d := Dot2(Gamma(p), AllAt(sh, p), AllAt(HatVector(u), p), |s|);
    BackStands(s, y, sh, HatVector(u), p);
    MinusBound(v, a, Q, HALF);
    SumFits(Minus(v, a), Q + HALF);
    ReducedValues(Minus(v, a));
    HatCong(Reduced(Minus(v, a)), Minus(v, a));
    HatSumAt(v, a, p);
    SubtractedStands(Hat(v), Hat(a), Hat(Minus(v, a)), p, d);
    CongStands(Hat(DecryptPoly(s, u, v)), Hat(Minus(v, a)), p, Sub2(At(Hat(v), p), d));
  }

  lemma Transformed4095(y: seq<Poly>, n: nat)
    requires |y| == n && forall i :: 0 <= i < n ==> IsPoly(y[i], 1664)
    ensures IsVector(y, n, 4095)
  {
    forall i | 0 <= i < n
      ensures IsPoly(y[i], 4095)
    {
      assert IsPoly(y[i], 1664);
    }
  }
}
