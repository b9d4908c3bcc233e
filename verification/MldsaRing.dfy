/** What the rows of ML-DSA are in the ring Z[X]/(X^256 + 1): the sampled matrix is the transform of a
    matrix A, and every row is computed modulo Q from A itself. */
module MldsaRing {
  import opened Polynomials
  import opened Modular
  import opened NttAlgebra
  import opened Butterflies
  import opened RingRows
  import opened MldsaReduce
  import opened MldsaZetas
  import opened MldsaNtt
  import opened MldsaVector
  import opened MldsaEquation

  /** row holds the values of the polynomials a. */
  ghost predicate RowOf(a: seq<Poly>, row: seq<Poly>) {
    Matched(a, row) && forall l :: 0 <= l < |a| ==> CongSeq(Hat(a[l]), row[l], Q)
  }

  /** Every sampled polynomial is the transform of one. */
  lemma Untransformed(x: Poly) returns (a: Poly)
    requires |x| == N
    ensures |a| == N && CongSeq(Hat(a), x, Q)
  {
    hide Fwd, Inv, Inverses, SquareRoots, Cong;
    PowersOfTwo();
    Tree();
    FromQuotientOf256();
    var v := Inv(IW, x, 1, 8);
    FwdInv(W, IW, x, 1, 8, Q);
    a := Times(8347681, v);
    HatTimes(8347681, v);
    forall i | 0 <= i < N
      ensures Cong(Hat(a)[i], x[i], Q)
    {
      Scale(8347681, Hat(v)[i], 256 * x[i], Q);
      Refl(x[i], Q);
      Mul(8347681 * 256, 1, x[i], x[i], Q);
      assert 8347681 * (256 * x[i]) == 8347681 * 256 * x[i];
      Trans(8347681 * Hat(v)[i], 8347681 * (256 * x[i]), x[i], Q);
    }
  }

  lemma Untransform(row: seq<Poly>, n: nat) returns (a: seq<Poly>)
    requires IsShape(row, n)
    ensures IsShape(a, n) && RowOf(a, row)
  {
    hide Hat, CongSeq;
    a := [];
    for l := 0 to n
      invariant IsShape(a, l) && forall i :: 0 <= i < l ==> CongSeq(Hat(a[i]), row[i], Q)
    {
      var p := Untransformed(row[l]);
      a := a + [p];
    }
  }

  lemma HatZero()
    ensures forall i :: 0 <= i < N ==> Hat(Zero())[i] == 0
  {
    hide Hat;
    assert Times(0, Zero()) == Zero();
    HatTimes(0, Zero());
  }

  /** The values of a row sum are the sums of products the code accumulates. */
  lemma {:induction false} RowSumValues(a: seq<Poly>, row: seq<Poly>, v: seq<Poly>, n: nat)
    requires RowOf(a, row) && Matched(a, v) && Matched(row, v) && n <= |a|
    ensures CongSeq(Hat(RowSum(a, v, n)), DotSeq(row, v, n), Q)
  {
    hide Hat, Cong, Dot, Product;
    if n == 0 {
      HatZero();
      forall i | 0 <= i < N
        ensures Cong(Hat(RowSum(a, v, 0))[i], DotSeq(row, v, 0)[i], Q)
      {
        DotUnfolds(row, v, 0, i);
        Refl(0, Q);
      }
    } else {
      RowSumValues(a, row, v, n - 1);
      var s, p := RowSum(a, v, n - 1), Product(a[n - 1], v[n - 1]);
      HatLin(1, s, 1, p);
      forall i | 0 <= i < N
        ensures Cong(Hat(RowSum(a, v, n))[i], DotSeq(row, v, n)[i], Q)
      {
        DotUnfolds(row, v, n, i);
        HatProduct(a[n - 1], v[n - 1], i);
        NextSum(Hat(s)[i], Dot(row, v, n - 1, i), Hat(p)[i], Hat(a[n - 1])[i], row[n - 1][i], Hat(v[n - 1])[i]);
      }
    }
  }

  lemma NextSum(s: int, d: int, p: int, a: int, r: int, v: int)
    requires Cong(s, d, Q) && Cong(p, a * v, Q) && Cong(a, r, Q)
    ensures Cong(Comb(1, s, 1, p), d + r * v, Q)
  {
    hide Cong;
    Refl(v, Q);
    Mul(a, r, v, v, Q);
    Trans(p, a * v, r * v, Q);
    Add(s, d, p, r * v, Q);
  }

  /** A canonical polynomial is what its values determine. */
  lemma CanonicalIs(w: Poly, d: Poly, x: seq<int>)
    requires IsCanonical(w) && |d| == |x| == N && CongSeq(Hat(w), x, Q) && CongSeq(Hat(d), x, Q)
    ensures w == Residues(d, Q)
  {
    hide Hat, Cong;
    SymSeq(Hat(d), x);
    TransSeq(Hat(w), x, Hat(d), Q);
    HatInjective(w, d);
    forall t | 0 <= t < N
      ensures w[t] == d[t] % Q
    {
      Residue(w[t], d[t]);
    }
  }

  ghost predicate AllCanonical(v: seq<Poly>) { forall i :: 0 <= i < |v| ==> IsCanonical(v[i]) }

  lemma SymSeq(x: seq<int>, y: seq<int>)
    requires CongSeq(x, y, Q)
    ensures CongSeq(y, x, Q)
  {
    hide Cong;
    forall i | 0 <= i < |x|
      ensures Cong(y[i], x[i], Q)
    {
      Sym(x[i], y[i], Q);
    }
  }

  lemma Residue(w: int, d: int)
    requires 0 <= w < Q && Cong(w, d, Q)
    ensures w == d % Q
  {
    var k := Quotient(w, d, Q);
  }

  lemma RowShapes(a: seq<Poly>, row: seq<Poly>, v: seq<Poly>)
    requires RowOf(a, row) && Matched(row, v)
    ensures Matched(a, v) && |a| == |row|
  {
  }

  /** w = A * y in sign, one row. */
  lemma CommitmentExactly(a: seq<Poly>, row: seq<Poly>, y: seq<Poly>)
    requires RowOf(a, row) && Matched(row, y) && 0 < |row| <= 8 && IsVector(row, |row|, Q) && IsVector(y, |y|, Q)
    ensures Matched(a, y)
    ensures CommitmentRow(row, y) == Residues(RowSum(a, y, |a|), Q)
  {
    hide Hat, CongSeq, CommitmentRow, RowSum, Residues;
    RowShapes(a, row, y);
    CommitmentValues(row, y);
    RowSumValues(a, row, y, |a|);
    CanonicalIs(CommitmentRow(row, y), RowSum(a, y, |a|), DotSeq(row, y, |row|));
  }

  /** t = A * s1 + s2 in keygen, one row. */
  lemma KeyRowExactly(a: seq<Poly>, row: seq<Poly>, s1: seq<Poly>, s2: Poly)
    requires RowOf(a, row) && Matched(row, s1) && 0 < |row| <= 8 && IsVector(row, |row|, Q) && IsVector(s1, |s1|, Q)
    requires IsPoly(s2, 4)
    ensures Matched(a, s1)
    ensures KeyRow(row, s1, s2) == Residues(Lin(1, RowSum(a, s1, |a|), 1, s2), Q)
  {
    hide Hat, CongSeq, KeyRow, RowSum, Residues, Lin;
    RowShapes(a, row, s1);
    KeyValues(row, s1, s2);
    RowSumValues(a, row, s1, |a|);
    var d, s := DotSeq(row, s1, |row|), RowSum(a, s1, |a|);
    HatLin(1, s, 1, s2);
    ReflSeq(Hat(s2), Q);
    SumOfValues(Hat(s), d, Hat(s2), Hat(s2));
    CanonicalIs(KeyRow(row, s1, s2), Lin(1, s, 1, s2), Lin(1, d, 1, Hat(s2)));
  }

  lemma SumOfValues(x: seq<int>, x': seq<int>, y: seq<int>, y': seq<int>)
    requires |x| == |y| && CongSeq(x, x', Q) && CongSeq(y, y', Q)
    ensures CongSeq(Lin(1, x, 1, y), Lin(1, x', 1, y'), Q)
    ensures CongSeq(Lin(1, x, -1, y), Difference(x', y'), Q)
  {
    hide Cong;
    forall i | 0 <= i < |x|
      ensures Cong(Comb(1, x[i], 1, y[i]), Comb(1, x'[i], 1, y'[i]), Q)
      ensures Cong(Comb(1, x[i], -1, y[i]), x'[i] - y'[i], Q)
    {
      Add(x[i], x'[i], y[i], y'[i], Q);
    }
  }

  /** A * z - c * t1 * 2^13 in verify, one row. */
  lemma RecoveredExactly(a: seq<Poly>, row: seq<Poly>, z: seq<Poly>, c: Poly, t1: Poly)
    requires RowOf(a, row) && Matched(row, z) && 0 < |row| <= 7 && IsVector(row, |row|, Q) && IsVector(z, |z|, Q)
    requires IsPoly(c, Q) && |t1| == N && forall i :: 0 <= i < N ==> 0 <= t1[i] <= 1023
    ensures Matched(a, z)
    ensures RecoveredRow(row, z, c, t1) == Residues(Lin(1, RowSum(a, z, |a|), -0x2000, Product(c, t1)), Q)
  {
    hide Hat, CongSeq, RecoveredRow, RowSum, Product, Lin, Residues;
    ScaledDifference(RowSum(a, z, |a|), Product(c, t1));
    RowShapes(a, row, z);
    RecoveredValues(row, z, c, t1);
    RowSumValues(a, row, z, |a|);
    var d, s, p := DotSeq(row, z, |row|), RowSum(a, z, |a|), Times(0x2000, Product(c, t1));
    ShiftedProductValues(c, t1);
    HatLin(1, s, -1, p);
    SumOfValues(Hat(s), d, Hat(p), Values(Hat(c), Hat(Times(0x2000, t1))));
    CanonicalIs(RecoveredRow(row, z, c, t1), Lin(1, s, -1, p),
                Difference(d, Values(Hat(c), Hat(Times(0x2000, t1)))));
  }

  lemma ScaledDifference(s: Poly, p: Poly)
    requires |s| == |p| == N
    ensures Lin(1, s, -1, Times(0x2000, p)) == Lin(1, s, -0x2000, p)
  {
  }

  lemma ShiftedProductValues(c: Poly, t1: Poly)
    requires |c| == |t1| == N
    ensures CongSeq(Hat(Times(0x2000, Product(c, t1))), Values(Hat(c), Hat(Times(0x2000, t1))), Q)
  {
    hide Hat, Cong, Product;
    HatTimes(0x2000, Product(c, t1));
    HatTimes(0x2000, t1);
    forall i | 0 <= i < N
      ensures Cong(0x2000 * Hat(Product(c, t1))[i], Hat(c)[i] * (0x2000 * Hat(t1)[i]), Q)
    {
      HatProduct(c, t1, i);
      Scale(0x2000, Hat(Product(c, t1))[i], Hat(c)[i] * Hat(t1)[i], Q);
      assert Hat(c)[i] * (0x2000 * Hat(t1)[i]) == 0x2000 * (Hat(c)[i] * Hat(t1)[i]);
    }
  }
}
