/** Polynomial and vector operations of tools/pqc/mldsa/mldsa_poly.c and polyvec.c on
    32-bit words, and what they mean for the values (Hat) of the polynomials. */
module MldsaVector {
  import opened Polynomials
  import opened Modular
  import opened NttAlgebra
  import opened Butterflies
  import opened MldsaReduce
  import opened MldsaZetas
  import opened MldsaNtt

  function Plus(a: Poly, b: Poly): (r: Poly)
    requires |a| == |b|
    ensures |r| == |a|
    ensures forall i :: 0 <= i < |a| ==> r[i] == W32(a[i] + b[i])
  {
    seq(|a|, i requires 0 <= i < |a| => W32(a[i] + b[i]))
  }

  function Minus(a: Poly, b: Poly): (r: Poly)
    requires |a| == |b|
    ensures |r| == |a|
    ensures forall i :: 0 <= i < |a| ==> r[i] == W32(a[i] - b[i])
  {
    seq(|a|, i requires 0 <= i < |a| => W32(a[i] - b[i]))
  }

  function Reduced(a: Poly): (r: Poly)
    ensures |r| == |a|
    ensures forall i :: 0 <= i < |a| ==> r[i] == Reduce32(a[i])
  {
    seq(|a|, i requires 0 <= i < |a| => Reduce32(a[i]))
  }

  function Canonical(a: Poly): (r: Poly)
    ensures |r| == |a|
    ensures forall i :: 0 <= i < |a| ==> r[i] == CAddQ(a[i])
  {
    seq(|a|, i requires 0 <= i < |a| => CAddQ(a[i]))
  }

  function ShiftedUp(a: Poly): (r: Poly)
    ensures |r| == |a|
    ensures forall i :: 0 <= i < |a| ==> r[i] == W32(a[i] * 0x2000)
  {
    seq(|a|, i requires 0 <= i < |a| => W32(a[i] * 0x2000))
  }

  /** poly_chknorm: a bound above (Q - 1) / 8 rejects everything. */
  predicate NormExceeds(a: Poly, bound: int) {
    bound > (Q - 1) / 8 || exists i :: 0 <= i < |a| && (a[i] >= bound || -a[i] >= bound)
  }

  predicate AnyNormExceeds(v: seq<Poly>, bound: int) {
    exists i :: 0 <= i < |v| && NormExceeds(v[i], bound)
  }

  lemma NormAccepts(v: seq<Poly>, n: nat, bound: int)
    requires |v| == n && (forall i :: 0 <= i < n ==> |v[i]| == N) && !AnyNormExceeds(v, bound)
    ensures IsVector(v, n, bound - 1)
  {
    forall i | 0 <= i < n
      ensures Within(v[i], bound - 1)
    {
      assert !NormExceeds(v[i], bound);
    }
  }

  /** A row of the matrix times a vector, both as values, from left to right. */
  function Accumulate(row: seq<Poly>, v: seq<Poly>, n: nat): (r: Poly)
    requires 0 < n <= |row| && Matched(row, v)
    ensures |r| == N
  {
    var last := Pointwise(row[n - 1], v[n - 1]);
    if n == 1 then last else Plus(Accumulate(row, v, n - 1), last)
  }

  function NttVector(v: seq<Poly>): (r: seq<Poly>)
    requires forall i :: 0 <= i < |v| ==> |v[i]| == N
    ensures |r| == |v| && forall i :: 0 <= i < |v| ==> r[i] == Ntt(v[i]) && |r[i]| == N
  {
    seq(|v|, i requires 0 <= i < |v| => Ntt(v[i]))
  }

  /** One row of the matrix-vector product as keygen and sign compute it. */
  function RowProduct(row: seq<Poly>, v: seq<Poly>): (r: Poly)
    requires Matched(row, v) && 0 < |row|
    ensures |r| == N
  {
    InvNtt(Reduced(Accumulate(row, NttVector(v), |row|)))
  }

  /** The product of two polynomials as sign computes it. */
  function PolyProduct(a: Poly, b: Poly): (r: Poly)
    requires |a| == |b| == N
    ensures |r| == N
  {
    InvNtt(Pointwise(Ntt(a), Ntt(b)))
  }

  /** One row of A * z - c * t1 * 2^13 as verify computes it. */
  function RowDifference(row: seq<Poly>, z: seq<Poly>, c: Poly, t1: Poly): (r: Poly)
    requires Matched(row, z) && 0 < |row| && |c| == |t1| == N
    ensures |r| == N
  {
    InvNtt(Reduced(Minus(Accumulate(row, NttVector(z), |row|), Pointwise(Ntt(c), Ntt(ShiftedUp(t1))))))
  }

  // ----- values

  function Values(x: seq<int>, y: seq<int>): (r: seq<int>)
    requires |x| == |y|
    ensures |r| == |x|
    ensures forall i :: 0 <= i < |x| ==> r[i] == x[i] * y[i]
  {
    seq(|x|, i requires 0 <= i < |x| => x[i] * y[i])
  }

  /** Value i of row * v: the sum of the first n products. */
  function Dot(row: seq<Poly>, v: seq<Poly>, n: nat, i: nat): (r: int)
    requires n <= |row| && Matched(row, v) && i < N
  {
    if n == 0 then 0 else Dot(row, v, n - 1, i) + row[n - 1][i] * Hat(v[n - 1])[i]
  }

  /** x lists the values of a modulo Q, and no coefficient of a exceeds bound. */
  ghost predicate HasValues(a: Poly, x: seq<int>, bound: int) {
    IsPoly(a, bound) && |x| == N && CongSeq(Hat(a), x, Q)
  }

  lemma HatLin(x: int, a: Poly, y: int, b: Poly)
    requires |a| == |b| == N
    ensures Hat(Lin(x, a, y, b)) == Lin(x, Hat(a), y, Hat(b))
  {
    hide Fwd, Lin;
    PowersOfTwo();
    FwdLinear(W, x, a, y, b, 1, 8);
  }

  lemma HatCong(a: Poly, b: Poly)
    requires |a| == |b| == N && CongSeq(a, b, Q)
    ensures CongSeq(Hat(a), Hat(b), Q)
  {
    hide Fwd, CongSeq;
    PowersOfTwo();
    FwdCong(W, a, b, 1, 8, Q);
  }

  /** R * Pointwise(Ntt(a), x) has the values of a times those x stands for. */
  lemma PointwiseValues(x: Poly, y: Poly, p: seq<int>, q: seq<int>)
    requires IsPoly(x, 9 * Q) && IsPoly(y, 9 * Q) && |p| == |q| == N
    requires CongSeq(x, p, Q) && CongSeq(y, q, Q)
    ensures CongSeq(Times(R, Pointwise(x, y)), Values(p, q), Q)
    ensures Within(Pointwise(x, y), Q - 1)
  {
    hide Cong, MontgomeryReduce;
    forall i | 0 <= i < N
      ensures Cong(R * Pointwise(x, y)[i], p[i] * q[i], Q) && -Q < Pointwise(x, y)[i] < Q
    {
      Refl(p[i] * q[i], Q);
      PointwiseStep(x[i], y[i], p[i], q[i], p[i] * q[i]);
    }
  }

  lemma PolyProductHat(a: Poly, b: Poly)
    requires IsPoly(a, Q) && IsPoly(b, Q)
    ensures HasValues(PolyProduct(a, b), Values(Hat(a), Hat(b)), HALF)
  {
    hide Ntt, InvNtt, Hat, Cong, CongSeq, MontgomeryReduce, Fwd;
    NttIsHat(a, Q);
    NttIsHat(b, Q);
    var s := Pointwise(Ntt(a), Ntt(b));
    PointwiseValues(Ntt(a), Ntt(b), Hat(a), Hat(b));
    HatInvNtt(s);
    InvNttIsInv(s);
    TransSeq(Hat(InvNtt(s)), Times(R, s), Values(Hat(a), Hat(b)), Q);
  }

  function DotSeq(row: seq<Poly>, v: seq<Poly>, n: nat): (r: seq<int>)
    requires n <= |row| && Matched(row, v)
    ensures |r| == N
    ensures forall i :: 0 <= i < N ==> r[i] == Dot(row, v, n, i)
  {
    seq(N, i requires 0 <= i < N => Dot(row, v, n, i))
  }

  lemma PlusStep(x: int, y: int, m: int, d: int, e: int)
    requires 0 <= m <= 7 * (Q - 1) && -m <= x <= m && -Q < y < Q
    requires Cong(R * x, d, Q) && Cong(R * y, e, Q)
    ensures W32(x + y) == x + y && -(m + Q - 1) <= x + y <= m + Q - 1
    ensures Cong(R * (x + y), d + e, Q)
  {
    Add(R * x, d, R * y, e, Q);
  }

  /** Sums of up to 8 products never leave 32 bits. */
  lemma {:induction false} AccumulateValues(row: seq<Poly>, v: seq<Poly>, n: nat)
    requires Matched(row, v) && 0 < n <= |row| && n <= 8 && IsVector(row, |row|, Q) && IsVector(v, |v|, Q)
    ensures Within(Accumulate(row, NttVector(v), n), n * (Q - 1))
    ensures CongSeq(Times(R, Accumulate(row, NttVector(v), n)), DotSeq(row, v, n), Q)
  {
    hide Ntt, Hat, Cong, W32, MontgomeryReduce;
    var x, y := row[n - 1], v[n - 1];
    var last := Pointwise(x, Ntt(y));
    NttIsHat(y, Q);
    ReflSeq(x, Q);
    PointwiseValues(x, Ntt(y), x, Hat(y));
    if n == 1 {
      FirstProduct(row, v);
    } else {
      AccumulateValues(row, v, n - 1);
      AccumulateStep(row, v, n, Accumulate(row, NttVector(v), n - 1), last);
    }
  }

  lemma FirstProduct(row: seq<Poly>, v: seq<Poly>)
    requires Matched(row, v) && 0 < |row| && IsVector(row, |row|, Q) && IsVector(v, |v|, Q)
    ensures DotSeq(row, v, 1) == Values(row[0], Hat(v[0]))
  {
    hide Hat;
    forall i | 0 <= i < N
      ensures Dot(row, v, 1, i) == Values(row[0], Hat(v[0]))[i]
    {
      assert Dot(row, v, 1, i) == Dot(row, v, 0, i) + row[0][i] * Hat(v[0])[i];
    }
  }

  lemma AccumulateStep(row: seq<Poly>, v: seq<Poly>, n: nat, acc: Poly, last: Poly)
    requires Matched(row, v) && 1 < n <= |row| && n <= 8 && IsVector(row, |row|, Q) && IsVector(v, |v|, Q)
    requires |acc| == |last| == N && Within(acc, (n - 1) * (Q - 1)) && Within(last, Q - 1)
    requires CongSeq(Times(R, acc), DotSeq(row, v, n - 1), Q)
    requires CongSeq(Times(R, last), Values(row[n - 1], Hat(v[n - 1])), Q)
    ensures Within(Plus(acc, last), n * (Q - 1))
    ensures CongSeq(Times(R, Plus(acc, last)), DotSeq(row, v, n), Q)
  {
    hide Hat, Cong, W32;
    var m := (n - 1) * (Q - 1);
    forall i | 0 <= i < N
      ensures -(m + Q - 1) <= Plus(acc, last)[i] <= m + Q - 1
      ensures Cong(R * Plus(acc, last)[i], Dot(row, v, n, i), Q)
    {
      assert Dot(row, v, n, i) == Dot(row, v, n - 1, i) + row[n - 1][i] * Hat(v[n - 1])[i];
      PlusStep(acc[i], last[i], m, Dot(row, v, n - 1, i), row[n - 1][i] * Hat(v[n - 1])[i]);
    }
  }

  lemma ReducedSum(a: Poly, x: seq<int>)
    requires |a| == |x| == N && Within(a, 8 * Q) && CongSeq(Times(R, a), x, Q)
    ensures Within(Reduced(a), Q)
    ensures CongSeq(Times(R, Reduced(a)), x, Q)
  {
    hide Cong, Reduce32;
    forall i | 0 <= i < N
      ensures -Q <= Reduced(a)[i] <= Q && Cong(R * Reduced(a)[i], x[i], Q)
    {
      Reduce32Exact(a[i]);
      Scale(R, Reduce32(a[i]), a[i], Q);
      Trans(R * Reduce32(a[i]), R * a[i], x[i], Q);
    }
  }

  lemma BackTransform(a: Poly, x: seq<int>)
    requires |a| == |x| == N && Within(a, 8 * Q) && CongSeq(Times(R, a), x, Q)
    ensures HasValues(InvNtt(Reduced(a)), x, HALF)
  {
    hide InvNtt, Hat, CongSeq, Cong, Reduced, Within;
    ReducedSum(a, x);
    HatInvNtt(Reduced(a));
    InvNttIsInv(Reduced(a));
    TransSeq(Hat(InvNtt(Reduced(a))), Times(R, Reduced(a)), x, Q);
  }

  lemma RowProductHat(row: seq<Poly>, v: seq<Poly>)
    requires Matched(row, v) && 0 < |row| <= 8 && IsVector(row, |row|, Q) && IsVector(v, |v|, Q)
    ensures HasValues(RowProduct(row, v), DotSeq(row, v, |row|), HALF)
  {
    hide Ntt, InvNtt, Hat, CongSeq;
    AccumulateValues(row, v, |row|);
    BackTransform(Accumulate(row, NttVector(v), |row|), DotSeq(row, v, |row|));
  }

  lemma MinusStep(x: int, y: int, d: int, e: int)
    requires -7 * (Q - 1) <= x <= 7 * (Q - 1) && -Q < y < Q
    requires Cong(R * x, d, Q) && Cong(R * y, e, Q)
    ensures W32(x - y) == x - y && -8 * Q <= x - y <= 8 * Q
    ensures Cong(R * (x - y), d - e, Q)
  {
    Add(R * x, d, R * y, e, Q);
  }

  function Difference(x: seq<int>, y: seq<int>): (r: seq<int>)
    requires |x| == |y|
    ensures |r| == |x|
    ensures forall i :: 0 <= i < |x| ==> r[i] == x[i] - y[i]
  {
    seq(|x|, i requires 0 <= i < |x| => x[i] - y[i])
  }

  /** t1 has 10 bits, so t1 * 2^13 stays below Q. */
  lemma ShiftedUpExact(t1: Poly)
    requires |t1| == N && forall i :: 0 <= i < N ==> 0 <= t1[i] <= 1023
    ensures ShiftedUp(t1) == Times(0x2000, t1) && IsPoly(ShiftedUp(t1), Q)
  {
  }

  lemma RowDifferenceHat(row: seq<Poly>, z: seq<Poly>, c: Poly, t1: Poly)
    requires Matched(row, z) && 0 < |row| <= 7 && IsVector(row, |row|, Q) && IsVector(z, |z|, Q)
    requires IsPoly(c, Q) && |t1| == N && forall i :: 0 <= i < N ==> 0 <= t1[i] <= 1023
    ensures HasValues(RowDifference(row, z, c, t1),
                      Difference(DotSeq(row, z, |row|), Values(Hat(c), Hat(Times(0x2000, t1)))), HALF)
  {
    hide Ntt, InvNtt, Hat, Cong, MontgomeryReduce, W32;
    var u := Times(0x2000, t1);
    ShiftedUpExact(t1);
    AccumulateValues(row, z, |row|);
    NttIsHat(c, Q);
    NttIsHat(u, Q);
    PointwiseValues(Ntt(c), Ntt(u), Hat(c), Hat(u));
    SubtractValues(Accumulate(row, NttVector(z), |row|), Pointwise(Ntt(c), Ntt(u)),
                   DotSeq(row, z, |row|), Values(Hat(c), Hat(u)));
    BackTransform(Minus(Accumulate(row, NttVector(z), |row|), Pointwise(Ntt(c), Ntt(u))),
                  Difference(DotSeq(row, z, |row|), Values(Hat(c), Hat(u))));
  }

  lemma SubtractValues(a: Poly, b: Poly, x: seq<int>, y: seq<int>)
    requires |a| == |b| == |x| == |y| == N && Within(a, 7 * (Q - 1)) && Within(b, Q - 1)
    requires CongSeq(Times(R, a), x, Q) && CongSeq(Times(R, b), y, Q)
    ensures Within(Minus(a, b), 8 * Q) && CongSeq(Times(R, Minus(a, b)), Difference(x, y), Q)
  {
    hide Cong, W32;
    forall i | 0 <= i < N
      ensures -8 * Q <= Minus(a, b)[i] <= 8 * Q && Cong(R * Minus(a, b)[i], x[i] - y[i], Q)
    {
      MinusStep(a[i], b[i], x[i], y[i]);
    }
  }
}
