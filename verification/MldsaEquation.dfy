/** The equation that makes a signature verify: A * z - c * t1 * 2^13 computed by verify
    equals w - c * s2 + c * t0 computed by sign, coefficient by coefficient modulo Q. */
module MldsaEquation {
  import opened Polynomials
  import opened Modular
  import opened NttAlgebra
  import opened Butterflies
  import opened MldsaReduce
  import opened MldsaNtt
  import opened MldsaVector

  predicate IsCanonical(a: Poly) {
    |a| == N && forall i :: 0 <= i < N ==> 0 <= a[i] < Q
  }

  /** One row of t = A * s1 + s2 in keygen. */
  function KeyRow(row: seq<Poly>, s1: seq<Poly>, s2: Poly): (t: Poly)
    requires Matched(row, s1) && 0 < |row| && |s2| == N
    ensures |t| == N
  {
    Canonical(Plus(RowProduct(row, s1), s2))
  }

  /** One row of w = A * y in sign. */
  function CommitmentRow(row: seq<Poly>, y: seq<Poly>): (w: Poly)
    requires Matched(row, y) && 0 < |row|
    ensures |w| == N
  {
    Canonical(RowProduct(row, y))
  }

  /** z = y + c * s1 in sign. */
  function Response(c: Poly, s: Poly, y: Poly): (z: Poly)
    requires |c| == |s| == |y| == N
    ensures |z| == N
  {
    Reduced(Plus(PolyProduct(c, s), y))
  }

  /** One row of A * z - c * t1 * 2^13 in verify. */
  function RecoveredRow(row: seq<Poly>, z: seq<Poly>, c: Poly, t1: Poly): (w: Poly)
    requires Matched(row, z) && 0 < |row| && |c| == |t1| == N
    ensures |w| == N
  {
    Canonical(RowDifference(row, z, c, t1))
  }

  lemma SameValues(a: Poly, b: Poly, x: seq<int>, before: int, after: int)
    requires HasValues(a, x, before) && IsPoly(b, after) && CongSeq(b, a, Q)
    ensures HasValues(b, x, after)
  {
    hide Hat, CongSeq;
    HatCong(b, a);
    TransSeq(Hat(b), Hat(a), x, Q);
  }

  lemma SumValues(a: Poly, x: seq<int>, b: Poly, y: seq<int>, m: int, n: int)
    requires HasValues(a, x, m) && HasValues(b, y, n)
    ensures HasValues(Lin(1, a, 1, b), Lin(1, x, 1, y), m + n)
  {
    hide Hat, Cong;
    HatLin(1, a, 1, b);
    forall i | 0 <= i < N
      ensures Cong(Hat(Lin(1, a, 1, b))[i], Lin(1, x, 1, y)[i], Q)
      ensures -(m + n) <= Lin(1, a, 1, b)[i] <= m + n
    {
      Add(Hat(a)[i], x[i], Hat(b)[i], y[i], Q);
    }
  }

  lemma OwnValues(a: Poly, bound: int)
    requires IsPoly(a, bound)
    ensures HasValues(a, Hat(a), bound)
  {
    hide Hat;
    ReflSeq(Hat(a), Q);
  }

  lemma ReducedPlus(a: Poly, b: Poly)
    requires IsPoly(a, HALF) && IsPoly(b, 0x8_0000)
    ensures IsPoly(Reduced(Plus(a, b)), Q) && CongSeq(Reduced(Plus(a, b)), Lin(1, a, 1, b), Q)
  {
    hide Cong, Reduce32;
    forall i | 0 <= i < N
      ensures Cong(Reduce32(W32(a[i] + b[i])), 1 * a[i] + 1 * b[i], Q) && -Q <= Reduce32(W32(a[i] + b[i])) <= Q
    {
      Reduce32Exact(a[i] + b[i]);
    }
  }

  /** z, as sign computes it, stands for c * s + y. */
  lemma ResponseValues(c: Poly, s: Poly, y: Poly)
    requires IsPoly(c, Q) && IsPoly(s, Q) && IsPoly(y, 0x8_0000)
    ensures HasValues(Response(c, s, y), Lin(1, Values(Hat(c), Hat(s)), 1, Hat(y)), Q)
  {
    hide Hat, PolyProduct, Reduced, Plus, CongSeq;
    PolyProductHat(c, s);
    OwnValues(y, 0x8_0000);
    var p := PolyProduct(c, s);
    ReducedPlus(p, y);
    SumValues(p, Values(Hat(c), Hat(s)), y, Hat(y), HALF, 0x8_0000);
    SameValues(Lin(1, p, 1, y), Reduced(Plus(p, y)), Lin(1, Values(Hat(c), Hat(s)), 1, Hat(y)), HALF + 0x8_0000, Q);
  }

  lemma CanonicalPlus(a: Poly, b: Poly)
    requires IsPoly(a, HALF) && IsPoly(b, 4)
    ensures IsPoly(Canonical(Plus(a, b)), Q) && CongSeq(Canonical(Plus(a, b)), Lin(1, a, 1, b), Q)
    ensures IsCanonical(Canonical(Plus(a, b)))
  {
    hide Cong, CAddQ;
    forall i | 0 <= i < N
      ensures Cong(CAddQ(W32(a[i] + b[i])), 1 * a[i] + 1 * b[i], Q) && 0 <= CAddQ(W32(a[i] + b[i])) < Q
    {
      CAddQCanonical(a[i] + b[i]);
    }
  }

  /** t, as keygen computes it, stands for A * s1 + s2, and lies in [0, Q). */
  lemma KeyValues(row: seq<Poly>, s1: seq<Poly>, s2: Poly)
    requires Matched(row, s1) && 0 < |row| <= 8 && IsVector(row, |row|, Q) && IsVector(s1, |s1|, Q) && IsPoly(s2, 4)
    ensures HasValues(KeyRow(row, s1, s2), Lin(1, DotSeq(row, s1, |row|), 1, Hat(s2)), Q)
    ensures IsCanonical(KeyRow(row, s1, s2))
  {
    hide Hat, Canonical, Plus, CongSeq, RowProduct;
    RowProductHat(row, s1);
    OwnValues(s2, 4);
    var p, d := RowProduct(row, s1), DotSeq(row, s1, |row|);
    CanonicalPlus(p, s2);
    SumValues(p, d, s2, Hat(s2), HALF, 4);
    SameValues(Lin(1, p, 1, s2), Canonical(Plus(p, s2)), Lin(1, d, 1, Hat(s2)), HALF + 4, Q);
  }

  lemma CanonicalValues(a: Poly, x: seq<int>)
    requires HasValues(a, x, HALF)
    ensures HasValues(Canonical(a), x, Q)
    ensures IsCanonical(Canonical(a))
  {
    hide Hat, Cong, CAddQ;
    forall i | 0 <= i < N
      ensures Cong(CAddQ(a[i]), a[i], Q) && 0 <= CAddQ(a[i]) < Q
    {
      CAddQCanonical(a[i]);
    }
    SameValues(a, Canonical(a), x, HALF, Q);
  }

  // ----- one value of the equation

  lemma DotStep(d: int, e: int, f: int, c: int, m: int, z: int, s: int, y: int, d': int, e': int, f': int)
    requires Cong(d, c * e + f, Q) && Cong(z, c * s + y, Q)
    requires d' == d + m * z && e' == e + m * s && f' == f + m * y
    ensures Cong(d', c * e' + f', Q)
  {
    hide Cong;
    Scale(m, z, c * s + y, Q);
    Add(d, c * e + f, m * z, m * (c * s + y), Q);
    assert m * (c * s + y) == c * (m * s) + m * y;
    assert c * (e + m * s) == c * e + c * (m * s);
  }

  /** A * z == c * (A * s) + A * y. */
  lemma DotUnfolds(row: seq<Poly>, v: seq<Poly>, n: nat, i: nat)
    requires Matched(row, v) && n <= |row| && i < N
    ensures n == 0 ==> Dot(row, v, n, i) == 0
    ensures n > 0 ==> Dot(row, v, n, i) == Dot(row, v, n - 1, i) + row[n - 1][i] * Hat(v[n - 1])[i]
  {
    hide Hat;
  }

  lemma {:induction false} DotResponse(row: seq<Poly>, z: seq<Poly>, s: seq<Poly>, y: seq<Poly>, c: int, n: nat, i: nat)
    requires Matched(row, z) && Matched(row, s) && Matched(row, y) && n <= |row| && i < N
    requires forall l :: 0 <= l < |row| ==> Cong(Hat(z[l])[i], c * Hat(s[l])[i] + Hat(y[l])[i], Q)
    ensures Cong(Dot(row, z, n, i), c * Dot(row, s, n, i) + Dot(row, y, n, i), Q)
  {
    hide Hat, Cong, Dot;
    DotUnfolds(row, z, n, i);
    DotUnfolds(row, s, n, i);
    DotUnfolds(row, y, n, i);
    if n == 0 {
      Refl(0, Q);
    } else {
      DotResponse(row, z, s, y, c, n - 1, i);
      DotStep(Dot(row, z, n - 1, i), Dot(row, s, n - 1, i), Dot(row, y, n - 1, i), c, row[n - 1][i],
              Hat(z[n - 1])[i], Hat(s[n - 1])[i], Hat(y[n - 1])[i],
              Dot(row, z, n, i), Dot(row, s, n, i), Dot(row, y, n, i));
    }
  }

  /** With A * s + s2 == t1 + t0 and A * z == c * A * s + A * y:
      A * z - c * t1 == A * y - c * s2 + c * t0. */
  lemma EquationAt(az: int, as1: int, ay: int, c: int, s2: int, t: int, t1: int, t0: int,
                   w': int, w: int, u: int, v: int)
    requires Cong(az, c * as1 + ay, Q) && Cong(t, as1 + s2, Q) && t == t1 + t0
    requires Cong(w', az - c * t1, Q) && Cong(w, ay, Q) && Cong(u, c * s2, Q) && Cong(v, c * t0, Q)
    ensures Cong(w', w - u + v, Q)
  {
    var k1 := Quotient(az, c * as1 + ay, Q);
    var k2 := Quotient(t, as1 + s2, Q);
    var k3 := Quotient(w', az - c * t1, Q);
    var k4 := Quotient(w, ay, Q);
    var k5 := Quotient(u, c * s2, Q);
    var k6 := Quotient(v, c * t0, Q);
    assert as1 == t1 + t0 - s2 - k2 * Q;
    assert c * as1 == c * t1 + c * t0 - c * s2 - c * (k2 * Q);
    assert c * (k2 * Q) == c * k2 * Q;
    assert w' == w - u + v + (k1 - c * k2 + k3 - k4 + k5 - k6) * Q;
    FromQuotient(w', w - u + v, k1 - c * k2 + k3 - k4 + k5 - k6, Q);
  }

  lemma CommitmentValues(row: seq<Poly>, y: seq<Poly>)
    requires Matched(row, y) && 0 < |row| <= 8 && IsVector(row, |row|, Q) && IsVector(y, |y|, Q)
    ensures HasValues(CommitmentRow(row, y), DotSeq(row, y, |row|), Q)
    ensures IsCanonical(CommitmentRow(row, y))
  {
    hide Hat, Canonical, CongSeq, RowProduct;
    RowProductHat(row, y);
    CanonicalValues(RowProduct(row, y), DotSeq(row, y, |row|));
  }

  lemma RecoveredValues(row: seq<Poly>, z: seq<Poly>, c: Poly, t1: Poly)
    requires Matched(row, z) && 0 < |row| <= 7 && IsVector(row, |row|, Q) && IsVector(z, |z|, Q)
    requires IsPoly(c, Q) && |t1| == N && forall i :: 0 <= i < N ==> 0 <= t1[i] <= 1023
    ensures HasValues(RecoveredRow(row, z, c, t1),
                      Difference(DotSeq(row, z, |row|), Values(Hat(c), Hat(Times(0x2000, t1)))), Q)
    ensures IsCanonical(RecoveredRow(row, z, c, t1))
  {
    hide Hat, Canonical, CongSeq, RowDifference;
    RowDifferenceHat(row, z, c, t1);
    CanonicalValues(RowDifference(row, z, c, t1),
         Difference(DotSeq(row, z, |row|), Values(Hat(c), Hat(Times(0x2000, t1)))));
  }

  /** t1 and t0 are what power2round made of t. */
  predicate Split(t: Poly, t1: Poly, t0: Poly) {
    && |t| == |t1| == |t0| == N
    && forall i :: 0 <= i < N ==> t[i] == t1[i] * 0x2000 + t0[i] && 0 <= t1[i] <= 1023 && -0x1000 < t0[i] <= 0x1000
  }

  lemma SplitValues(t: Poly, t1: Poly, t0: Poly)
    requires Split(t, t1, t0)
    ensures Hat(t) == Lin(1, Hat(Times(0x2000, t1)), 1, Hat(t0))
  {
    hide Hat;
    assert t == Lin(1, Times(0x2000, t1), 1, t0);
    HatLin(1, Times(0x2000, t1), 1, t0);
  }

  /** Difference of values: what a polynomial minus another plus a third stands for. */
  lemma ShiftedValues(w: Poly, u: Poly, v: Poly)
    requires |w| == |u| == |v| == N
    ensures Hat(Lin(1, Lin(1, w, -1, u), 1, v)) == Lin(1, Lin(1, Hat(w), -1, Hat(u)), 1, Hat(v))
  {
    hide Hat;
    HatLin(1, w, -1, u);
    HatLin(1, Lin(1, w, -1, u), 1, v);
  }

  /** z stands for c * s + y. */
  ghost predicate Responds(z: Poly, c: Poly, s: Poly, y: Poly) {
    |c| == |s| == |y| == N && HasValues(z, Lin(1, Values(Hat(c), Hat(s)), 1, Hat(y)), Q)
  }

  /** Everything one row of a signing attempt and its verification compute. */
  ghost predicate Transcript(row: seq<Poly>, s1: seq<Poly>, y: seq<Poly>, z: seq<Poly>, c: Poly, s2: Poly, t1: Poly,
       t0: Poly)
  {
    && Matched(row, s1) && Matched(row, y) && Matched(row, z) && 0 < |row| <= 7
    && IsVector(row, |row|, Q) && IsVector(s1, |s1|, 4) && IsVector(y, |y|, 0x8_0000) && IsVector(z, |z|, Q)
    && IsPoly(c, Q) && IsPoly(s2, 4)
    && (forall l :: 0 <= l < |row| ==> z[l] == Response(c, s1[l], y[l]))
    && Split(KeyRow(row, s1, s2), t1, t0)
  }

  lemma RowEquation(row: seq<Poly>, s1: seq<Poly>, y: seq<Poly>, z: seq<Poly>, c: Poly, s2: Poly, t1: Poly, t0: Poly)
    requires Transcript(row, s1, y, z, c, s2, t1, t0)
    ensures CongSeq(RecoveredRow(row, z, c, t1),
                    Lin(1, Lin(1, CommitmentRow(row, y), -1, PolyProduct(c, s2)), 1, PolyProduct(c, t0)), Q)
    ensures IsCanonical(RecoveredRow(row, z, c, t1)) && IsCanonical(CommitmentRow(row, y))
    ensures IsPoly(PolyProduct(c, s2), HALF) && IsPoly(PolyProduct(c, t0), HALF)
  {
    hide Hat, Cong, KeyRow, CommitmentRow, Response, RecoveredRow, PolyProduct;
    var n := |row|;
    var t, w, w', u, v := KeyRow(row, s1, s2), CommitmentRow(row, y), RecoveredRow(row, z, c, t1), PolyProduct(c, s2),
         PolyProduct(c, t0);
    forall l | 0 <= l < n
      ensures Responds(z[l], c, s1[l], y[l])
    {
      ResponseValues(c, s1[l], y[l]);
    }
    KeyValues(row, s1, s2);
    CommitmentValues(row, y);
    RecoveredValues(row, z, c, t1);
    PolyProductHat(c, s2);
    PolyProductHat(c, t0);
    var r, m := Lin(1, Lin(1, w, -1, u), 1, v), Hat(Times(0x2000, t1));
    SplitValues(t, t1, t0);
    ShiftedValues(w, u, v);
    forall i | 0 <= i < N
      ensures Cong(Hat(w')[i], Hat(r)[i], Q)
    {
      forall l | 0 <= l < n
        ensures Cong(Hat(z[l])[i], Hat(c)[i] * Hat(s1[l])[i] + Hat(y[l])[i], Q)
      {
        assert Responds(z[l], c, s1[l], y[l]);
      }
      DotResponse(row, z, s1, y, Hat(c)[i], n, i);
      EquationAt(Dot(row, z, n, i), Dot(row, s1, n, i), Dot(row, y, n, i), Hat(c)[i], Hat(s2)[i], Hat(t)[i], m[i],
           Hat(t0)[i],
                 Hat(w')[i], Hat(w)[i], Hat(u)[i], Hat(v)[i]);
    }
    HatInjective(w', r);
  }
}
