/** What the rows of K-PKE are in the ring Z[X]/(X^256 + 1): the sampled matrix is the transform of a
    matrix A, and every row is, modulo q, what section 5 of FIPS 203 computes from A itself. */
module MlkemRing {
  import opened Modular
  import opened Polynomials
  import opened NttAlgebra
  import opened RingRows
  import opened PairAlgebra
  import opened MlkemReduce
  import opened MlkemNtt
  import opened MlkemProduct
  import opened MlkemKpke
  import opened MlkemValues
  import opened MlkemCorrect

  /** row holds the values of the polynomials a. */
  ghost predicate RowOf(a: seq<Poly>, row: seq<Poly>) {
    |a| == |row| && forall l :: 0 <= l < |a| ==> |a[l]| == |row[l]| == N && CongSeq(row[l], Hat(a[l]), Q)
  }

  // ----- every sampled polynomial is a transform

  lemma ScaledBack(x: int, s: int)
    requires s == RINV * x % Q
    ensures Cong(x, R * s, Q)
  {
    FromQuotient(s, RINV * x, -(RINV * x / Q), Q);
    Scale(R, s, RINV * x, Q);
    Factors();
    Refl(x, Q);
    Mul(RINV * R, 1, x, x, Q);
    assert RINV * R * x == R * (RINV * x);
    Trans(R * s, R * (RINV * x), x, Q);
    Sym(R * s, x, Q);
  }

  lemma Untransformed(x: Poly) returns (a: Poly)
    requires |x| == N
    ensures |a| == N && CongSeq(x, Hat(a), Q)
  {
    hide Hat, InvNtt, Cong;
    var s := seq(N, i requires 0 <= i < N => RINV * x[i] % Q);
    a := InvNtt(s);
    HatInvNtt(s);
    forall i | 0 <= i < N
      ensures Cong(x[i], Hat(a)[i], Q)
    {
      ScaledBack(x[i], s[i]);
      Sym(Hat(a)[i], R * s[i], Q);
      Trans(x[i], R * s[i], Hat(a)[i], Q);
    }
  }

  lemma Untransform(row: seq<Poly>, n: nat) returns (a: seq<Poly>)
    requires IsShape(row, n)
    ensures IsShape(a, n) && RowOf(a, row)
  {
    hide Hat, CongSeq;
    a := [];
    for l := 0 to n
      invariant IsShape(a, l) && forall i :: 0 <= i < l ==> CongSeq(row[i], Hat(a[i]), Q)
    {
      var p := Untransformed(row[l]);
      a := a + [p];
    }
  }

  // ----- agreement at every pair

  /** c and d have the same values at pair p. */
  lemma SameAt(c: Poly, d: Poly, p: nat, x: Pair)
    requires |c| == |d| == N && Stands(c, p, x) && Stands(d, p, x)
    ensures Stands(c, p, At(d, p))
  {
    SymCong2(At(d, p), x);
    RaiseStands(c, p, x, At(d, p));
  }

  lemma SymCong2(x: Pair, y: Pair)
    requires Cong2(x, y, Q)
    ensures Cong2(y, x, Q)
  {
    Sym(x.a, y.a, Q);
    Sym(x.b, y.b, Q);
  }

  lemma SumAt(s: Poly, e: Poly, p: nat, x: Pair)
    requires |s| == |e| == N && p < 128 && Stands(Hat(s), p, x)
    ensures Stands(Hat(Lin(1, s, 1, e)), p, Add2(x, At(Hat(e), p)))
    ensures Stands(Hat(Lin(1, e, -1, s)), p, Sub2(At(Hat(e), p), x))
  {
    hide Hat, Lin, Stands;
    HatSumAt(s, e, p);
    HatSumAt(e, s, p);
    AddedStands(Hat(s), Hat(Lin(1, s, 1, e)), p, x, At(Hat(e), p));
    SubtractedStands(Hat(e), Hat(s), Hat(Lin(1, e, -1, s)), p, x);
  }

  lemma RowShapes(a: seq<Poly>, row: seq<Poly>, k: nat)
    requires RowOf(a, row) && IsShape(row, k)
    ensures IsShape(a, k)
    ensures forall i :: 0 <= i < k ==> CongSeq(row[i], HatVector(a)[i], Q)
  {
    hide Hat, CongSeq;
  }

  /** Both factors of a row product. */
  ghost predicate Factored(row: seq<Poly>, y: seq<Poly>, a: seq<Poly>, v: seq<Poly>, k: nat) {
    && 0 < k <= 4 && IsShape(row, k) && IsShape(y, k) && IsShape(a, k) && IsShape(v, k)
    && IsVector(row, k, 4095) && IsVector(y, k, 4095) && RowOf(a, row) && RowOf(v, y)
  }

  lemma FactorsMatch(row: seq<Poly>, y: seq<Poly>, a: seq<Poly>, v: seq<Poly>, k: nat)
    requires Factored(row, y, a, v, k)
    ensures Matched(row, y) && Matched(a, v)
  {
  }

  /** u = A^T * r + e1, one row. */
  lemma CipherExactly(row: seq<Poly>, y: seq<Poly>, e1: Poly, a: seq<Poly>, r: seq<Poly>, k: nat)
    requires Factored(row, y, a, r, k) && IsPoly(e1, 3)
    ensures Matched(row, y) && Matched(a, r) && IsPoly(CipherRow(row, y, e1), 1664)
    ensures CongSeq(CipherRow(row, y, e1), Lin(1, RowSum(a, r, k), 1, e1), Q)
  {
    hide Hat, CongSeq, Stands, Dot2, Gamma, CipherRow, Lin, RowSum, Matched, RowOf;
    FactorsMatch(row, y, a, r, k);
    RowShapes(a, row, k);
    RowShapes(r, y, k);
    var c, d := CipherRow(row, y, e1), Lin(1, RowSum(a, r, k), 1, e1);
    CipherStands(row, y, e1, HatVector(a), HatVector(r), 0);
    forall p | 0 <= p < 128
      ensures Stands(Hat(c), p, At(Hat(d), p))
    {
      var x := Dot2(Gamma(p), AllAt(HatVector(a), p), AllAt(HatVector(r), p), k);
      CipherStands(row, y, e1, HatVector(a), HatVector(r), p);
      RowSumStands(a, r, k, p);
      SumAt(RowSum(a, r, k), e1, p, x);
      SameAt(Hat(c), Hat(d), p, Add2(x, At(Hat(e1), p)));
    }
    AgreeAt(Hat(c), Hat(d));
    HatInjective(c, d);
  }

  /** v = t * r + e2 + m. */
  lemma CipherPolyExactly(t: seq<Poly>, y: seq<Poly>, e2: Poly, m: Poly, b: seq<Poly>, r: seq<Poly>, k: nat)
    requires Factored(t, y, b, r, k) && IsPoly(e2, 3) && IsPoly(m, 1665)
    ensures Matched(t, y) && Matched(b, r) && IsPoly(CipherPoly(t, y, e2, m), 1664)
    ensures CongSeq(CipherPoly(t, y, e2, m), Lin(1, Lin(1, RowSum(b, r, k), 1, e2), 1, m), Q)
  {
    hide Hat, CongSeq, Stands, Dot2, Gamma, CipherPoly, Lin, RowSum, Matched, RowOf;
    FactorsMatch(t, y, b, r, k);
    RowShapes(b, t, k);
    RowShapes(r, y, k);
    var s := Lin(1, RowSum(b, r, k), 1, e2);
    var c, d := CipherPoly(t, y, e2, m), Lin(1, s, 1, m);
    CipherPolyStands(t, y, e2, m, HatVector(b), HatVector(r), 0);
    forall p | 0 <= p < 128
      ensures Stands(Hat(c), p, At(Hat(d), p))
    {
      var x := Dot2(Gamma(p), AllAt(HatVector(b), p), AllAt(HatVector(r), p), k);
      CipherPolyStands(t, y, e2, m, HatVector(b), HatVector(r), p);
      RowSumStands(b, r, k, p);
      SumAt(RowSum(b, r, k), e2, p, x);
      SumAt(s, m, p, Add2(x, At(Hat(e2), p)));
      SameAt(Hat(c), Hat(d), p, Add2(Add2(x, At(Hat(e2), p)), At(Hat(m), p)));
    }
    AgreeAt(Hat(c), Hat(d));
    HatInjective(c, d);
  }

  /** w = v - s * u. */
  lemma DecryptExactly(s: seq<Poly>, u: seq<Poly>, v: Poly, b: seq<Poly>, k: nat)
    requires 0 < k <= 4 && IsShape(s, k) && IsShape(u, k) && IsVector(s, k, 4095) && IsVector(u, k, Q) && IsPoly(v, Q)
    requires RowOf(b, s)
    ensures Matched(s, u) && Matched(b, u) && IsPoly(DecryptPoly(s, u, v), 1664)
    ensures CongSeq(DecryptPoly(s, u, v), Lin(1, v, -1, RowSum(b, u, k)), Q)
  {
    hide Hat, CongSeq, Stands, Dot2, Gamma, DecryptPoly, Lin, RowSum, RowOf;
    RowShapes(b, s, k);
    var c, d := DecryptPoly(s, u, v), Lin(1, v, -1, RowSum(b, u, k));
    DecryptStands(s, u, v, HatVector(b), 0);
    forall p | 0 <= p < 128
      ensures Stands(Hat(c), p, At(Hat(d), p))
    {
      var x := Dot2(Gamma(p), AllAt(HatVector(b), p), AllAt(HatVector(u), p), k);
      DecryptStands(s, u, v, HatVector(b), p);
      RowSumStands(b, u, k, p);
      SumAt(RowSum(b, u, k), v, p, x);
      SameAt(Hat(c), Hat(d), p, Sub2(At(Hat(v), p), x));
    }
    AgreeAt(Hat(c), Hat(d));
    HatInjective(c, d);
  }

  /** t = A * s + e, one row, as values. */
  lemma PublicExactly(row: seq<Poly>, y: seq<Poly>, e: Poly, a: seq<Poly>, s: seq<Poly>, k: nat)
    requires Factored(row, y, a, s, k) && IsPoly(e, 3)
    ensures Matched(row, y) && Matched(a, s) && IsPoly(PublicRow(row, y, e), 1664)
    ensures CongSeq(PublicRow(row, y, e), Hat(Lin(1, RowSum(a, s, k), 1, e)), Q)
  {
    hide Hat, CongSeq, Stands, Dot2, Gamma, PublicRow, Lin, RowSum, Matched, RowOf;
    FactorsMatch(row, y, a, s, k);
    RowShapes(a, row, k);
    RowShapes(s, y, k);
    var c, d := PublicRow(row, y, e), Lin(1, RowSum(a, s, k), 1, e);
    WiderNoise(e);
    forall p | 0 <= p < 128
      ensures Stands(c, p, At(Hat(d), p)) && IsPoly(c, 1664)
    {
      var x := Dot2(Gamma(p), AllAt(HatVector(a), p), AllAt(HatVector(s), p), k);
      AllStand(row, HatVector(a), k, p);
      AllStand(y, HatVector(s), k, p);
      PublicStands(row, y, e, AllAt(HatVector(a), p), AllAt(HatVector(s), p), p);
      RowSumStands(a, s, k, p);
      SumAt(RowSum(a, s, k), e, p, x);
      SameAt(c, Hat(d), p, Add2(x, At(Hat(e), p)));
    }
    assert Stands(c, 0, At(Hat(d), 0));
    AgreeAt(c, Hat(d));
  }

  lemma WiderNoise(e: Poly)
    requires IsPoly(e, 3)
    ensures IsPoly(e, 9464)
  {
  }

  lemma AllStand(x: seq<Poly>, y: seq<Poly>, k: nat, p: nat)
    requires IsShape(x, k) && IsShape(y, k) && p < 128 && forall i :: 0 <= i < k ==> CongSeq(x[i], y[i], Q)
    ensures forall i :: 0 <= i < k ==> Stands(x[i], p, AllAt(y, p)[i])
  {
    hide CongSeq, Stands;
    forall i | 0 <= i < k
      ensures Stands(x[i], p, AllAt(y, p)[i])
    {
      OwnStands(x[i], y[i], p);
    }
  }
}
