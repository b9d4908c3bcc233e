/** With the hints sign makes, verify recovers the high part of the commitment. */
module MldsaRecovery {
  import opened Polynomials
  import opened Modular
  import opened NttAlgebra
  import opened Butterflies
  import opened MldsaReduce
  import opened MldsaNtt
  import opened MldsaRounding
  import opened MldsaVector
  import opened MldsaEquation

  function HighPart(g: int, w: Poly): (r: Poly)
    requires IsGamma2(g)
    ensures |r| == |w| && forall i :: 0 <= i < |w| ==> r[i] == Decompose(g, w[i]).0
  {
    seq(|w|, i requires 0 <= i < |w| => Decompose(g, w[i]).0)
  }

  function LowPart(g: int, w: Poly): (r: Poly)
    requires IsGamma2(g)
    ensures |r| == |w| && forall i :: 0 <= i < |w| ==> r[i] == Decompose(g, w[i]).1
  {
    seq(|w|, i requires 0 <= i < |w| => Decompose(g, w[i]).1)
  }

  function HintPart(g: int, a0: Poly, a1: Poly): (r: Poly)
    requires |a0| == |a1|
    ensures |r| == |a0| && forall i :: 0 <= i < |a0| ==> r[i] == MakeHint(a0[i], a1[i], g)
  {
    seq(|a0|, i requires 0 <= i < |a0| => MakeHint(a0[i], a1[i], g))
  }

  function Corrected(g: int, a: Poly, h: Poly): (r: Poly)
    requires IsGamma2(g) && |a| == |h|
    ensures |r| == |a| && forall i :: 0 <= i < |a| ==> r[i] == UseHint(g, a[i], h[i])
  {
    seq(|a|, i requires 0 <= i < |a| => UseHint(g, a[i], h[i]))
  }

  function UpperBits(t: Poly): (r: Poly)
    ensures |r| == |t| && forall i :: 0 <= i < |t| ==> r[i] == Power2Round(t[i]).0
  {
    seq(|t|, i requires 0 <= i < |t| => Power2Round(t[i]).0)
  }

  function LowerBits(t: Poly): (r: Poly)
    ensures |r| == |t| && forall i :: 0 <= i < |t| ==> r[i] == Power2Round(t[i]).1
  {
    seq(|t|, i requires 0 <= i < |t| => Power2Round(t[i]).1)
  }

  lemma SplitOfKey(t: Poly)
    requires IsCanonical(t)
    ensures Split(t, UpperBits(t), LowerBits(t))
  {
    hide Power2Round;
    forall i | 0 <= i < N
      ensures var (a1, a0) := Power2Round(t[i]); t[i] == a1 * 0x2000 + a0 && -0x1000 < a0 <= 0x1000 && 0 <= a1 <= 1023
    {
      Power2RoundExact(t[i]);
    }
  }

  lemma PartsAgree(g: int, w: int, w1: int, w0: int)
    requires IsGamma2(g) && IsDecomposition(g, w, w1, w0) && 0 <= w < Q
    ensures Cong(w, w1 * (2 * g) + w0, Q) && 0 <= w1 < Buckets(g) && -g <= w0 <= g
  {
    FromQuotient(w, w1 * (2 * g) + w0, if w < Q - g then 0 else 1, Q);
  }

  lemma MovedLowPart(g: int, w: int, w1: int, w0: int, u: int, v: int, low: int, h0: int, r: int)
    requires Cong(w, w1 * (2 * g) + w0, Q) && Cong(r, w - u + v, Q) && Cong(low, w0 - u, Q) && Cong(h0, v, Q)
    ensures Cong(r, w1 * (2 * g) + (low + h0), Q)
  {
    hide Cong;
    var m := w1 * (2 * g);
    Refl(u, Q);
    Refl(v, Q);
    Refl(m, Q);
    Add(w, m + w0, u, u, Q);
    Add(w - u, m + w0 - u, v, v, Q);
    Trans(r, w - u + v, m + w0 - u + v, Q);
    Add(low, w0 - u, h0, v, Q);
    Add(m, m, low + h0, w0 - u + v, Q);
    Sym(m + (low + h0), m + (w0 - u + v), Q);
    Trans(r, m + w0 - u + v, m + (low + h0), Q);
  }

  /** One coefficient: w in sign, r in verify, and the two norm checks in between. */
  lemma CoefficientRecovers(g: int, w: int, u: int, v: int, r: int)
    requires IsGamma2(g) && 0 <= w < Q && 0 <= r < Q && -HALF <= u <= HALF && -HALF <= v <= HALF
    requires Cong(r, w - u + v, Q)
    requires -g < Reduce32(W32(Decompose(g, w).1 - u)) < g && -g < Reduce32(v) < g
    ensures var w1 := Decompose(g, w).0;
      UseHint(g, r, MakeHint(W32(Reduce32(W32(Decompose(g, w).1 - u)) + Reduce32(v)), w1, g)) == w1
  {
    hide Cong, Decompose32, Decompose88, UseHint32, UseHint88, MakeHint, Reduce32, IsDecomposition;
    var (w1, w0) := Decompose(g, w);
    DecomposeExact(g, w);
    PartsAgree(g, w, w1, w0);
    Reduce32Exact(w0 - u);
    Reduce32Exact(v);
    var low, h0 := Reduce32(w0 - u), Reduce32(v);
    MovedLowPart(g, w, w1, w0, u, v, low, h0, r);
    HintRecovers(g, w1, low + h0, r);
  }

  /** w0 - c * s2, the vector of the second norm check. */
  function Remainder(g: int, w: Poly, c: Poly, s2: Poly): (r: Poly)
    requires IsGamma2(g) && |w| == |c| == |s2| == N
    ensures |r| == N
  {
    Reduced(Minus(LowPart(g, w), PolyProduct(c, s2)))
  }

  /** c * t0, the vector of the third norm check. */
  function Carry(c: Poly, t0: Poly): (r: Poly)
    requires |c| == |t0| == N
    ensures |r| == N
  {
    Reduced(PolyProduct(c, t0))
  }

  function RowHint(g: int, w: Poly, c: Poly, s2: Poly, t0: Poly): (h: Poly)
    requires IsGamma2(g) && |w| == |c| == |s2| == |t0| == N
    ensures |h| == N
  {
    HintPart(g, Plus(Remainder(g, w, c, s2), Carry(c, t0)), HighPart(g, w))
  }

  lemma LinAt(w: Poly, u: Poly, v: Poly, i: nat)
    requires |w| == |u| == |v| && i < |w|
    ensures Lin(1, Lin(1, w, -1, u), 1, v)[i] == w[i] - u[i] + v[i]
  {
  }

  /** Verify recovers, row by row, what sign hashed. */
  lemma RowRecovers(g: int, row: seq<Poly>, s1: seq<Poly>, y: seq<Poly>, z: seq<Poly>, c: Poly, s2: Poly, t1: Poly,
       t0: Poly)
    requires IsGamma2(g) && Transcript(row, s1, y, z, c, s2, t1, t0)
    requires Within(Remainder(g, CommitmentRow(row, y), c, s2), g - 1) && Within(Carry(c, t0), g - 1)
    ensures Corrected(g, RecoveredRow(row, z, c, t1), RowHint(g, CommitmentRow(row, y), c, s2, t0))
            == HighPart(g, CommitmentRow(row, y))
  {
    hide Cong, CommitmentRow, RecoveredRow, PolyProduct, Decompose, UseHint, MakeHint, Reduce32, W32, Lin, KeyRow,
         Response;
    RowEquation(row, s1, y, z, c, s2, t1, t0);
    var w, r, u, v := CommitmentRow(row, y), RecoveredRow(row, z, c, t1), PolyProduct(c, s2), PolyProduct(c, t0);
    var h := RowHint(g, w, c, s2, t0);
    forall i | 0 <= i < N
      ensures UseHint(g, r[i], h[i]) == HighPart(g, w)[i]
    {
      LinAt(w, u, v, i);
      assert Remainder(g, w, c, s2)[i] == Reduce32(W32(Decompose(g, w[i]).1 - u[i]));
      assert Carry(c, t0)[i] == Reduce32(v[i]);
      CoefficientRecovers(g, w[i], u[i], v[i], r[i]);
    }
  }
}
