/** The rows of one turn of signing in the ring: which polynomials the norm checks look at, what the
    second check means, and when a hint is set. */
module MldsaTurnRows {
  import opened Polynomials
  import opened Modular
  import opened NttAlgebra
  import opened MldsaReduce
  import opened MldsaNtt
  import opened MldsaRounding
  import opened MldsaVector
  import opened MldsaEquation
  import opened MldsaRecovery
  import opened MldsaStandard
  import opened MldsaVerification

  // ----- representatives

  /** A representative between -6283009 and 6283008 is small exactly if the centred one is. */
  lemma SmallRepresentative(r: int, x: int, b: int)
    requires -6283009 <= r <= 6283008 && Cong(r, x, Q) && 0 < b <= 0x10_0000
    ensures -b < r < b <==> -b < Centred(x, Q) < b
    ensures -b < r < b ==> r == Centred(x, Q)
  {
    hide Cong;
    CentredCong(x);
    Sym(Centred(x, Q), x, Q);
    Trans(r, x, Centred(x, Q), Q);
    CloseIfCong(r, Centred(x, Q), b);
  }

  lemma CentredCong(x: int)
    ensures Cong(Centred(x, Q), x, Q) && -Q < 2 * Centred(x, Q) <= Q
  {
    FromQuotient(Centred(x, Q), x, -(x / Q) - if 2 * (x % Q) > Q then 1 else 0, Q);
  }

  lemma CloseIfCong(r: int, s: int, b: int)
    requires -6283009 <= r <= 6283008 && -Q < 2 * s <= Q && Cong(r, s, Q) && 0 < b <= 0x10_0000
    ensures -b < r < b ==> r == s
    ensures -b < s < b ==> r == s
  {
    var k := Quotient(r, s, Q);
  }

  lemma ProductCong(a: Poly, b: Poly)
    requires IsPoly(a, Q) && IsPoly(b, Q)
    ensures CongSeq(PolyProduct(a, b), Product(a, b), Q) && IsPoly(PolyProduct(a, b), HALF)
  {
    hide Hat, Product, InvNtt, Ntt, Pointwise;
    ProductTheorem(a, b);
    PolyProductHat(a, b);
  }

  /** r and x agree modulo Q, and r lies in the range that reduce32 leaves. */
  ghost predicate Represents(r: Poly, x: Poly) {
    |r| == |x| == N && forall t :: 0 <= t < N ==> Cong(r[t], x[t], Q) && -6283009 <= r[t] <= 6283008
  }

  function CentredPoly(x: Poly): (r: Poly)
    ensures |r| == |x| && forall t :: 0 <= t < |x| ==> r[t] == Centred(x[t], Q)
  {
    seq(|x|, t requires 0 <= t < |x| => Centred(x[t], Q))
  }

  predicate PolyBounded(a: Poly, b: int) { forall t :: 0 <= t < |a| ==> -b < a[t] < b }

  lemma RepresentedRow(r: Poly, x: Poly, b: int)
    requires Represents(r, x) && 0 < b <= 0x10_0000
    ensures PolyBounded(r, b) <==> PolyBounded(CentredPoly(x), b)
    ensures PolyBounded(r, b) ==> r == CentredPoly(x)
  {
    hide Cong, Centred;
    forall t | 0 <= t < N
      ensures -b < r[t] < b <==> -b < Centred(x[t], Q) < b
      ensures -b < r[t] < b ==> r[t] == Centred(x[t], Q)
    {
      SmallRepresentative(r[t], x[t], b);
    }
  }

  lemma ReducedRepresents(a: Poly, x: Poly)
    requires |a| == |x| == N && CongSeq(a, x, Q) && Within(a, 8 * Q)
    ensures Represents(Reduced(a), x)
  {
    hide Cong, Reduce32;
    forall t | 0 <= t < N
      ensures Cong(Reduce32(a[t]), x[t], Q) && -6283009 <= Reduce32(a[t]) <= 6283008
    {
      Reduce32Exact(a[t]);
      Trans(Reduce32(a[t]), a[t], x[t], Q);
    }
  }

  // ----- the three vectors of the norm checks

  lemma PlusRepresents(a: Poly, b: Poly, x: Poly)
    requires |a| == |b| == |x| == N && CongSeq(a, x, Q) && Within(a, HALF) && Within(b, 0x10_0000)
    ensures CongSeq(Plus(a, b), Lin(1, x, 1, b), Q) && Within(Plus(a, b), 8 * Q)
    ensures CongSeq(Minus(b, a), Lin(1, b, -1, x), Q) && Within(Minus(b, a), 8 * Q)
  {
    hide Cong;
    forall t | 0 <= t < N
      ensures Cong(Plus(a, b)[t], Lin(1, x, 1, b)[t], Q) && -8 * Q <= Plus(a, b)[t] <= 8 * Q
      ensures Cong(Minus(b, a)[t], Lin(1, b, -1, x)[t], Q) && -8 * Q <= Minus(b, a)[t] <= 8 * Q
    {
      Refl(b[t], Q);
      Add(a[t], x[t], b[t], b[t], Q);
      Add(b[t], b[t], a[t], x[t], Q);
    }
  }

  /** z = y + c * s1 */
  lemma ResponseRepresents(c: Poly, s: Poly, y: Poly)
    requires IsPoly(c, Q) && IsPoly(s, Q) && IsPoly(y, 0x10_0000)
    ensures Represents(Response(c, s, y), Lin(1, Product(c, s), 1, y))
  {
    hide CongSeq, PolyProduct, Product, Lin, Plus, Reduced, Minus, Represents;
    ProductCong(c, s);
    PlusRepresents(PolyProduct(c, s), y, Product(c, s));
    ReducedRepresents(Plus(PolyProduct(c, s), y), Lin(1, Product(c, s), 1, y));
  }

  /** c * t0 */
  lemma CarryRepresents(c: Poly, t0: Poly)
    requires IsPoly(c, Q) && IsPoly(t0, Q)
    ensures Represents(Carry(c, t0), Product(c, t0))
  {
    hide CongSeq, PolyProduct, Product, Reduced, Represents;
    ProductCong(c, t0);
    ReducedRepresents(PolyProduct(c, t0), Product(c, t0));
  }

  /** w0 - c * s2 */
  lemma RemainderRepresents(g: int, w: Poly, c: Poly, s2: Poly)
    requires IsGamma2(g) && IsCanonical(w) && IsPoly(c, Q) && IsPoly(s2, Q)
    ensures Represents(Remainder(g, w, c, s2), Lin(1, LowPart(g, w), -1, Product(c, s2)))
  {
    hide CongSeq, PolyProduct, Product, Lin, Plus, Reduced, Minus, Represents, LowPart, IsCanonical;
    ProductCong(c, s2);
    LowPartBound(g, w);
    PlusRepresents(PolyProduct(c, s2), LowPart(g, w), Product(c, s2));
    ReducedRepresents(Minus(LowPart(g, w), PolyProduct(c, s2)), Lin(1, LowPart(g, w), -1, Product(c, s2)));
  }

  lemma LowPartBound(g: int, w: Poly)
    requires IsGamma2(g) && IsCanonical(w)
    ensures |w| == N && Within(LowPart(g, w), 0x10_0000)
  {
    hide Decompose, IsDecomposition, Cong;
    forall t | 0 <= t < N
      ensures -0x10_0000 <= Decompose(g, w[t]).1 <= 0x10_0000
    {
      DecomposeExact(g, w[t]);
      PartsAgree(g, w[t], Decompose(g, w[t]).0, Decompose(g, w[t]).1);
    }
  }

  // ----- the second check

  /** Subtracting u keeps the high part of w and leaves a small low part. */
  predicate Keeps(g: int, w: int, u: int, b: int)
    requires g > 0
  {
    High(g, w - u) == High(g, w) && -b < Parts(g, w - u).1 < b
  }

  lemma PartsByDefinition(g: int, x: int, a1: int, a0: int)
    requires IsGamma2(g) && 0 <= x < Q && IsDecomposition(g, x, a1, a0)
    ensures Parts(g, x) == (a1, a0)
  {
    hide Parts, IsDecomposition;
    PartsOf32(x);
    PartsOf88(x);
    DecompositionUnique(g, x, Parts(g, x).0, Parts(g, x).1, a1, a0);
  }

  /** A number near a bucket has the parts of that bucket. */
  lemma NearBucket(g: int, w1: int, r: int, x: int)
    requires IsGamma2(g) && 0 <= w1 < Buckets(g) && -g < r < g && Cong(x, w1 * (2 * g) + r, Q)
    ensures Parts(g, x) == (w1, r)
  {
    hide Parts, Cong;
    ResidueCong(x);
    Trans(x % Q, x, w1 * (2 * g) + r, Q);
    WrapOnce(g, w1, r, x % Q);
    PartsByDefinition(g, x % Q, w1, r);
    SamePart(g, x);
  }

  lemma ResidueCong(x: int)
    ensures Cong(x % Q, x, Q)
  {
    FromQuotient(x % Q, x, -(x / Q), Q);
  }

  lemma PartsCong(g: int, x: int)
    requires IsGamma2(g)
    ensures var (a1, a0) := Parts(g, x); Cong(x, a1 * (2 * g) + a0, Q) && 0 <= a1 < Buckets(g) && -g <= a0 <= g
  {
    hide Parts, Cong, IsDecomposition;
    SamePart(g, x);
    PartsOf32(x % Q);
    PartsOf88(x % Q);
    PartsAgree(g, x % Q, Parts(g, x).0, Parts(g, x).1);
    ResidueCong(x);
    Sym(x % Q, x, Q);
    Trans(x, x % Q, Parts(g, x).0 * (2 * g) + Parts(g, x).1, Q);
  }

  /** The check on w0 - u tells whether w - u keeps the high part of w with a small low part. */
  lemma KeepsExactly(g: int, w: int, u: int, r: int, b: int)
    requires IsGamma2(g) && 0 <= w < Q && 0 < b <= g && -6283009 <= r <= 6283008
    requires Cong(r, Decompose(g, w).1 - u, Q)
    ensures -b < r < b <==> Keeps(g, w, u, b)
    ensures -b < r < b ==> Parts(g, w - u) == (Decompose(g, w).0, r)
  {
    hide Decompose, Cong, Parts, High;
    DecomposeIsStandard(g, w);
    PartsCong(g, w);
    var (w1, w0) := Parts(g, w);
    HighIs(g, w);
    HighIs(g, w - u);
    if -b < r < b {
      SubtractLow(w, u, w1 * (2 * g), w0, r);
      NearBucket(g, w1, r, w - u);
    }
    if Keeps(g, w, u, b) {
      PartsCong(g, w - u);
      var l := Parts(g, w - u).1;
      LowDifference(w, u, w1 * (2 * g), w0, r, l);
      CloseIfCong(r, l, b);
    }
  }

  lemma HighIs(g: int, x: int)
    requires g > 0
    ensures High(g, x) == Parts(g, x).0
  {
  }

  lemma SubtractLow(w: int, u: int, m: int, w0: int, r: int)
    requires Cong(w, m + w0, Q) && Cong(r, w0 - u, Q)
    ensures Cong(w - u, m + r, Q)
  {
    var k := Quotient(w, m + w0, Q);
    var l := Quotient(r, w0 - u, Q);
    FromQuotient(w - u, m + r, k - l, Q);
  }

  lemma LowDifference(w: int, u: int, m: int, w0: int, r: int, l: int)
    requires Cong(w, m + w0, Q) && Cong(r, w0 - u, Q) && Cong(w - u, m + l, Q)
    ensures Cong(r, l, Q)
  {
    var k := Quotient(w, m + w0, Q);
    var n := Quotient(r, w0 - u, Q);
    var o := Quotient(w - u, m + l, Q);
    FromQuotient(r, l, n - k + o, Q);
  }

  lemma RemainderRowExactly(g: int, w: Poly, c: Poly, s2: Poly, b: int)
    requires IsGamma2(g) && IsCanonical(w) && IsPoly(c, Q) && IsPoly(s2, Q) && 0 < b <= g
    ensures PolyBounded(Remainder(g, w, c, s2), b) <==> KeepsRow(g, w, c, s2, b)
  {
    hide Cong, Keeps, Decompose, Product, Remainder;
    RemainderRepresents(g, w, c, s2);
    var r := Remainder(g, w, c, s2);
    forall t | 0 <= t < N
      ensures -b < r[t] < b <==> Keeps(g, w[t], Product(c, s2)[t], b)
    {
      KeepsExactly(g, w[t], Product(c, s2)[t], r[t], b);
    }
  }

  predicate KeepsRow(g: int, w: Poly, c: Poly, s2: Poly, b: int)
    requires g > 0 && |w| == |c| == |s2| == N
  {
    forall t :: 0 <= t < N ==> Keeps(g, w[t], Product(c, s2)[t], b)
  }

  // ----- the hints

  /** MakeHint(-c * t0, w - c * s2 + c * t0) */
  function HintRow(g: int, w: Poly, c: Poly, s2: Poly, t0: Poly): (h: Poly)
    requires g > 0 && |w| == |c| == |s2| == |t0| == N
    ensures |h| == N
  {
    var u, v := Product(c, s2), Product(c, t0);
    seq(N, t requires 0 <= t < N => Hint(g, -v[t], w[t] - u[t] + v[t]))
  }

  lemma HintAt(g: int, w: int, u: int, v: int, low: int, h0: int)
    requires IsGamma2(g) && 0 <= w < Q && -g < low < g && -g < h0 < g
    requires Parts(g, w - u) == (Decompose(g, w).0, low) && Cong(h0, v, Q)
    ensures MakeHint(W32(low + h0), Decompose(g, w).0, g) == Hint(g, -v, w - u + v)
  {
    hide Decompose, Cong, Parts, High, MakeHint;
    var x := w - u + v;
    var w1 := Decompose(g, w).0;
    PartsCong(g, w - u);
    HighIs(g, w - u);
    assert x + -v == w - u;
    MovedSum(w - u, w1 * (2 * g), low, h0, v);
    ResidueCong(x);
    Trans(x % Q, x, w1 * (2 * g) + (low + h0), Q);
    MakeHintIsStandard(g, w1, low + h0, x % Q);
    SamePart(g, x);
    HighIs(g, x);
    HighIs(g, x % Q);
  }

  lemma MovedSum(y: int, m: int, low: int, h0: int, v: int)
    requires Cong(y, m + low, Q) && Cong(h0, v, Q)
    ensures Cong(y + v, m + (low + h0), Q)
  {
    hide Cong;
    Sym(h0, v, Q);
    Add(y, m + low, v, h0, Q);
  }

  lemma HintRowExactly(g: int, w: Poly, c: Poly, s2: Poly, t0: Poly, b: int)
    requires IsGamma2(g) && IsCanonical(w) && IsPoly(c, Q) && IsPoly(s2, Q) && IsPoly(t0, Q) && 0 < b <= g
    requires PolyBounded(Remainder(g, w, c, s2), b) && PolyBounded(Carry(c, t0), g)
    ensures RowHint(g, w, c, s2, t0) == HintRow(g, w, c, s2, t0)
  {
    hide Cong, Decompose, Product, Remainder, Carry, W32, MakeHint, Hint, Parts;
    RemainderRepresents(g, w, c, s2);
    CarryRepresents(c, t0);
    var r, s, u, v := Remainder(g, w, c, s2), Carry(c, t0), Product(c, s2), Product(c, t0);
    forall t | 0 <= t < N
      ensures MakeHint(W32(r[t] + s[t]), Decompose(g, w[t]).0, g) == Hint(g, -v[t], w[t] - u[t] + v[t])
    {
      KeepsExactly(g, w[t], u[t], r[t], b);
      HintAt(g, w[t], u[t], v[t], r[t], s[t]);
    }
  }
}
