/** The number-theoretic transform over the integers, without reduction: what the
    in-place loops of ML-DSA and ML-KEM compute modulo q. The ring is
    Z_q[X]/(X^n + 1); node k of the tree is the ring Z_q[X]/(X^m - Root(k)), and w(k)
    is the square root of Root(k) by which it splits. */
module NttAlgebra {
  import opened Modular

  function Pow2(d: nat): (r: nat)
    ensures r > 0
  {
    if d == 0 then 1 else 2 * Pow2(d - 1)
  }

  lemma PowersOfTwo()
    ensures Pow2(0) == 1 && Pow2(1) == 2 && Pow2(2) == 4 && Pow2(3) == 8 && Pow2(4) == 16
    ensures Pow2(5) == 32 && Pow2(6) == 64 && Pow2(7) == 128 && Pow2(8) == 256
  {
    assert Pow2(4) == 2 * Pow2(3) && Pow2(6) == 2 * Pow2(5);
  }

  function Power(x: int, n: nat): (r: int) {
    if n == 0 then 1 else x * Power(x, n - 1)
  }

  function Comb(a: int, x: int, b: int, y: int): (r: int) { a * x + b * y }

  function Prod(x: int, y: int): (r: int) { x * y }

  /** a * x + b * y, coefficient by coefficient. */
  function Lin(a: int, x: seq<int>, b: int, y: seq<int>): (r: seq<int>)
    requires |x| == |y|
    ensures |r| == |x|
    ensures forall i :: 0 <= i < |x| ==> r[i] == Comb(a, x[i], b, y[i])
  {
    seq(|x|, i requires 0 <= i < |x| => Comb(a, x[i], b, y[i]))
  }

  /** Value of the polynomial p at x. */
  function Eval(p: seq<int>, x: int): (r: int) {
    if p == [] then 0 else p[0] + x * Eval(p[1..], x)
  }

  // ----- the transform, one node of the tree at a time

  /** The image of p in the child ring where X^h == z. */
  function Child(p: seq<int>, h: nat, z: int): (r: seq<int>)
    requires |p| == 2 * h
    ensures |r| == h
    ensures forall i :: 0 <= i < h ==> r[i] == Comb(1, p[i], z, p[h + i])
  {
    seq(h, i requires 0 <= i < h => Comb(1, p[i], z, p[h + i]))
  }

  function Fwd(w: nat -> int, p: seq<int>, k: nat, d: nat): (r: seq<int>)
    requires |p| == Pow2(d)
    ensures |r| == |p|
    decreases d
  {
    if d == 0 then p
    else
      var h := Pow2(d - 1);
      Fwd(w, Child(p, h, w(k)), 2 * k, d - 1) + Fwd(w, Child(p, h, -w(k)), 2 * k + 1, d - 1)
  }

  function Inv(iw: nat -> int, p: seq<int>, k: nat, d: nat): (r: seq<int>)
    requires |p| == Pow2(d)
    ensures |r| == |p|
    decreases d
  {
    if d == 0 then p
    else
      var h := Pow2(d - 1);
      Join(iw(k), Inv(iw, p[..h], 2 * k, d - 1), Inv(iw, p[h..], 2 * k + 1, d - 1))
  }

  /** The inverse step: u + v, then z * (u - v). */
  function Join(z: int, u: seq<int>, v: seq<int>): (r: seq<int>)
    requires |u| == |v|
    ensures |r| == 2 * |u|
    ensures forall i :: 0 <= i < |u| ==> r[i] == u[i] + v[i]
    ensures forall i :: |u| <= i < 2 * |u| ==> r[i] == Prod(z, u[i - |u|] - v[i - |u|])
  {
    var h := |u|;
    seq(2 * h, i requires 0 <= i < 2 * h => JoinAt(z, u, v, i))
  }

  function JoinAt(z: int, u: seq<int>, v: seq<int>, i: nat): (r: int)
    requires |u| == |v| && i < 2 * |u|
  {
    if i < |u| then u[i] + v[i] else Prod(z, u[i - |u|] - v[i - |u|])
  }

  // ----- linearity

  lemma {:induction false} FwdLinear(w: nat -> int, a: int, x: seq<int>, b: int, y: seq<int>, k: nat, d: nat)
    requires |x| == |y| == Pow2(d)
    ensures Fwd(w, Lin(a, x, b, y), k, d) == Lin(a, Fwd(w, x, k, d), b, Fwd(w, y, k, d))
    decreases d
  {
    hide Comb;
    if d > 0 {
      var h := Pow2(d - 1);
      ChildLinear(h, w(k), a, x, b, y);
      ChildLinear(h, -w(k), a, x, b, y);
      FwdLinear(w, a, Child(x, h, w(k)), b, Child(y, h, w(k)), 2 * k, d - 1);
      FwdLinear(w, a, Child(x, h, -w(k)), b, Child(y, h, -w(k)), 2 * k + 1, d - 1);
    }
  }

  lemma ChildLinear(h: nat, z: int, a: int, x: seq<int>, b: int, y: seq<int>)
    requires |x| == |y| == 2 * h
    ensures Child(Lin(a, x, b, y), h, z) == Lin(a, Child(x, h, z), b, Child(y, h, z))
  {
    hide Comb;
    forall i | 0 <= i < h
      ensures Child(Lin(a, x, b, y), h, z)[i] == Lin(a, Child(x, h, z), b, Child(y, h, z))[i]
    {
      LinExchange(z, a, x[i], x[h + i], b, y[i], y[h + i]);
    }
  }

  lemma LinExchange(z: int, a: int, x0: int, x1: int, b: int, y0: int, y1: int)
    ensures Comb(1, Comb(a, x0, b, y0), z, Comb(a, x1, b, y1)) == Comb(a, Comb(1, x0, z, x1), b, Comb(1, y0, z, y1))
  {
  }

  // ----- congruent inputs give congruent outputs

  lemma ChildCong(x: seq<int>, y: seq<int>, h: nat, z: int, q: int)
    requires q > 0 && |x| == 2 * h && CongSeq(x, y, q)
    ensures CongSeq(Child(x, h, z), Child(y, h, z), q)
  {
    forall i | 0 <= i < h
      ensures Cong(Child(x, h, z)[i], Child(y, h, z)[i], q)
    {
      Scale(z, x[h + i], y[h + i], q);
      Add(x[i], y[i], z * x[h + i], z * y[h + i], q);
    }
  }

  lemma AppendCong(x: seq<int>, x': seq<int>, y: seq<int>, y': seq<int>, q: int)
    requires q > 0 && CongSeq(x, x', q) && CongSeq(y, y', q)
    ensures CongSeq(x + y, x' + y', q)
  {
    hide Cong;
  }

  lemma {:induction false} FwdCong(w: nat -> int, x: seq<int>, y: seq<int>, k: nat, d: nat, q: int)
    requires q > 0 && |x| == Pow2(d) && CongSeq(x, y, q)
    ensures CongSeq(Fwd(w, x, k, d), Fwd(w, y, k, d), q)
    decreases d
  {
    if d > 0 {
      var h := Pow2(d - 1);
      ChildCong(x, y, h, w(k), q);
      ChildCong(x, y, h, -w(k), q);
      hide Child, CongSeq;
      FwdCong(w, Child(x, h, w(k)), Child(y, h, w(k)), 2 * k, d - 1, q);
      FwdCong(w, Child(x, h, -w(k)), Child(y, h, -w(k)), 2 * k + 1, d - 1, q);
      AppendCong(Fwd(w, Child(x, h, w(k)), 2 * k, d - 1), Fwd(w, Child(y, h, w(k)), 2 * k, d - 1),
                 Fwd(w, Child(x, h, -w(k)), 2 * k + 1, d - 1), Fwd(w, Child(y, h, -w(k)), 2 * k + 1, d - 1), q);
    }
  }

  lemma {:induction false} InvCong(iw: nat -> int, x: seq<int>, y: seq<int>, k: nat, d: nat, q: int)
    requires q > 0 && |x| == Pow2(d) && CongSeq(x, y, q)
    ensures CongSeq(Inv(iw, x, k, d), Inv(iw, y, k, d), q)
    decreases d
  {
    if d > 0 {
      var h := Pow2(d - 1);
      InvCong(iw, x[..h], y[..h], 2 * k, d - 1, q);
      InvCong(iw, x[h..], y[h..], 2 * k + 1, d - 1, q);
      JoinCong(iw(k), Inv(iw, x[..h], 2 * k, d - 1), Inv(iw, y[..h], 2 * k, d - 1),
               Inv(iw, x[h..], 2 * k + 1, d - 1), Inv(iw, y[h..], 2 * k + 1, d - 1), q);
    }
  }

  lemma JoinCong(z: int, u: seq<int>, u': seq<int>, v: seq<int>, v': seq<int>, q: int)
    requires q > 0 && |u| == |v| && CongSeq(u, u', q) && CongSeq(v, v', q)
    ensures CongSeq(Join(z, u, v), Join(z, u', v'), q)
  {
    forall i | 0 <= i < 2 * |u|
      ensures Cong(Join(z, u, v)[i], Join(z, u', v')[i], q)
    {
      var j := if i < |u| then i else i - |u|;
      Add(u[j], u'[j], v[j], v'[j], q);
      Scale(z, u[j] - v[j], u'[j] - v'[j], q);
    }
  }

  // ----- the inverse undoes the transform up to the factor n, both ways

  /** iw inverts w at every node of the subtree of depth d below node k. */
  ghost predicate Inverses(w: nat -> int, iw: nat -> int, k: nat, d: nat, q: int)
    requires q > 0
    decreases d
  {
    d > 0 ==>
      && Cong(Prod(iw(k), w(k)), 1, q)
      && Inverses(w, iw, 2 * k, d - 1, q)
      && Inverses(w, iw, 2 * k + 1, d - 1, q)
  }

  function Times(c: int, x: seq<int>): (r: seq<int>)
    ensures |r| == |x|
    ensures forall i :: 0 <= i < |x| ==> r[i] == c * x[i]
  {
    seq(|x|, i requires 0 <= i < |x| => c * x[i])
  }

  lemma TimesIsLin(c: int, x: seq<int>)
    ensures Times(c, x) == Lin(c, x, 0, x)
  {
  }

  lemma {:induction false} InvFwd(w: nat -> int, iw: nat -> int, p: seq<int>, k: nat, d: nat, q: int)
    requires q > 0 && Inverses(w, iw, k, d, q) && |p| == Pow2(d)
    ensures CongSeq(Inv(iw, Fwd(w, p, k, d), k, d), Times(|p|, p), q)
    decreases d
  {
    if d == 0 {
      Refl(p[0], q);
    } else {
      var h := Pow2(d - 1);
      hide CongSeq, Child, Cong, Prod, Join;
      var lo, hi := Child(p, h, w(k)), Child(p, h, -w(k));
      var f, g := Fwd(w, lo, 2 * k, d - 1), Fwd(w, hi, 2 * k + 1, d - 1);
      InvFwd(w, iw, lo, 2 * k, d - 1, q);
      InvFwd(w, iw, hi, 2 * k + 1, d - 1, q);
      assert (f + g)[..|lo|] == f && (f + g)[|lo|..] == g;
      InvFwdJoin(w(k), iw(k), p, Inv(iw, f, 2 * k, d - 1), Inv(iw, g, 2 * k + 1, d - 1), |lo|, q);
    }
  }

  lemma InvFwdJoin(z: int, iz: int, p: seq<int>, u: seq<int>, v: seq<int>, h: nat, q: int)
    requires q > 0 && Cong(Prod(iz, z), 1, q) && |p| == 2 * h && |u| == |v| == h
    requires CongSeq(u, Times(h, Child(p, h, z)), q)
    requires CongSeq(v, Times(h, Child(p, h, -z)), q)
    ensures CongSeq(Join(iz, u, v), Times(2 * h, p), q)
  {
    hide Comb, Prod, Cong, Join, Times;
    var n := 2 * h;
    forall i | 0 <= i < h
      ensures Cong(u[i] + v[i], Times(n, p)[i], q)
      ensures Cong(Prod(iz, u[i] - v[i]), Times(n, p)[h + i], q)
    {
      InvFwdStep(z, iz, p[i], p[h + i], u[i], v[i], Child(p, h, z)[i], Child(p, h, -z)[i], h, n,
                 Times(h, Child(p, h, z))[i], Times(h, Child(p, h, -z))[i], Times(n, p)[i], Times(n, p)[h + i], q);
    }
    forall i | 0 <= i < n
      ensures Cong(Join(iz, u, v)[i], Times(n, p)[i], q)
    {
      if i >= h {
        assert Join(iz, u, v)[i] == Prod(iz, u[i - h] - v[i - h]);
      }
    }
  }

  lemma SumAndDifference(z: int, p0: int, p1: int, c: int, c': int, h: int, t: int)
    requires c == p0 + z * p1 && c' == p0 - z * p1 && t == 2 * h * p1
    ensures h * c + h * c' == 2 * h * p0 && h * c - h * c' == z * t
  {
    assert h * c == h * p0 + h * (z * p1) && h * c' == h * p0 - h * (z * p1);
    assert z * t == 2 * (h * (z * p1));
  }

  lemma InvFwdStep(z: int, iz: int, p0: int, p1: int, u: int, v: int, c: int, c': int, h: nat, n: int,
                   hc: int, hc': int, n0: int, n1: int, q: int)
    requires q > 0 && Cong(Prod(iz, z), 1, q) && n == 2 * h
    requires c == Comb(1, p0, z, p1) && c' == Comb(1, p0, -z, p1)
    requires hc == h * c && hc' == h * c' && n0 == n * p0 && n1 == n * p1
    requires Cong(u, hc, q) && Cong(v, hc', q)
    ensures Cong(u + v, n0, q)
    ensures Cong(Prod(iz, u - v), n1, q)
  {
    hide Cong;
    Add(u, hc, v, hc', q);
    SumAndDifference(z, p0, p1, c, c', h, n1);
    DoubleOf(h, n, p0, n0);
    DoubleOf(h, n, p1, n1);
    InverseTimes(z, iz, u - v, n1, q);
  }

  lemma DoubleOf(h: int, n: int, p: int, m: int)
    requires n == 2 * h && m == n * p
    ensures m == 2 * h * p
  {
  }

  lemma InverseTimes(z: int, iz: int, d: int, n: int, q: int)
    requires q > 0 && Cong(Prod(iz, z), 1, q) && Cong(d, z * n, q)
    ensures Cong(Prod(iz, d), n, q)
  {
    hide Cong;
    Scale(iz, d, z * n, q);
    Refl(n, q);
    Mul(iz * z, 1, n, n, q);
    assert iz * (z * n) == iz * z * n;
    Trans(iz * d, iz * z * n, n, q);
  }

  lemma TimesAppend(u: seq<int>, v: seq<int>, x: seq<int>, y: seq<int>, c: int, q: int)
    requires q > 0 && CongSeq(u, Times(c, x), q) && CongSeq(v, Times(c, y), q)
    ensures CongSeq(u + v, Times(c, x + y), q)
  {
    hide Cong;
    assert Times(c, x + y) == Times(c, x) + Times(c, y);
  }

  lemma FwdUnfold(w: nat -> int, p: seq<int>, k: nat, d: nat)
    requires |p| == 2 * Pow2(d)
    ensures var h := Pow2(d);
      Fwd(w, p, k, d + 1) == Fwd(w, Child(p, h, w(k)), 2 * k, d) + Fwd(w, Child(p, h, -w(k)), 2 * k + 1, d)
  {
  }

  lemma FwdInvNode(w: nat -> int, iz: int, u: seq<int>, v: seq<int>, x: seq<int>, y: seq<int>, k: nat, d: nat, q: int)
    requires q > 0 && Cong(Prod(iz, w(k)), 1, q) && |u| == |v| == |x| == |y| == Pow2(d)
    requires CongSeq(Fwd(w, u, 2 * k, d), Times(|x|, x), q)
    requires CongSeq(Fwd(w, v, 2 * k + 1, d), Times(|y|, y), q)
    ensures CongSeq(Fwd(w, Join(iz, u, v), k, d + 1), Times(2 * |x|, x + y), q)
  {
    hide *;
    var r, h := Join(iz, u, v), |u|;
    FwdUnfold(w, r, k, d);
    FwdInvJoin(w(k), iz, u, v, q);
    FwdDouble(w, Child(r, h, w(k)), u, x, 2 * k, d, q);
    FwdDouble(w, Child(r, h, -w(k)), v, y, 2 * k + 1, d, q);
    TimesAppend(Fwd(w, Child(r, h, w(k)), 2 * k, d), Fwd(w, Child(r, h, -w(k)), 2 * k + 1, d), x, y, 2 * h, q);
  }

  lemma {:induction false} FwdInv(w: nat -> int, iw: nat -> int, p: seq<int>, k: nat, d: nat, q: int)
    requires q > 0 && Inverses(w, iw, k, d, q) && |p| == Pow2(d)
    ensures CongSeq(Fwd(w, Inv(iw, p, k, d), k, d), Times(|p|, p), q)
    decreases d
  {
    hide Prod;
    if d == 0 {
      Refl(p[0], q);
    } else {
      var h := Pow2(d - 1);
      FwdInv(w, iw, p[..h], 2 * k, d - 1, q);
      FwdInv(w, iw, p[h..], 2 * k + 1, d - 1, q);
      assert p == p[..h] + p[h..];
      FwdInvNode(w, iw(k), Inv(iw, p[..h], 2 * k, d - 1), Inv(iw, p[h..], 2 * k + 1, d - 1), p[..h], p[h..], k, d - 1,
           q);
    }
  }

  lemma FwdInvJoin(z: int, iz: int, u: seq<int>, v: seq<int>, q: int)
    requires q > 0 && Cong(Prod(iz, z), 1, q) && |u| == |v|
    ensures CongSeq(Child(Join(iz, u, v), |u|, z), Times(2, u), q)
    ensures CongSeq(Child(Join(iz, u, v), |u|, -z), Times(2, v), q)
  {
    hide Comb, Prod, Cong, Join, Child, Times;
    var r := Join(iz, u, v);
    forall i | 0 <= i < |u|
      ensures Cong(Child(r, |u|, z)[i], Times(2, u)[i], q)
      ensures Cong(Child(r, |u|, -z)[i], Times(2, v)[i], q)
    {
      FwdInvStep(z, iz, u[i], v[i], r[i], r[|u| + i], Times(2, u)[i], Times(2, v)[i], q);
    }
  }

  lemma FwdInvStep(z: int, iz: int, u: int, v: int, s: int, t: int, u2: int, v2: int, q: int)
    requires q > 0 && Cong(Prod(iz, z), 1, q)
    requires s == u + v && t == Prod(iz, u - v) && u2 == 2 * u && v2 == 2 * v
    ensures Cong(Comb(1, s, z, t), u2, q)
    ensures Cong(Comb(1, s, -z, t), v2, q)
  {
    var e := u - v;
    Refl(e, q);
    Refl(s, q);
    Mul(iz * z, 1, e, e, q);
    assert z * (iz * e) == iz * z * e;
    Add(s, s, z * (iz * e), 1 * e, q);
  }

  lemma DoubleStep(g: int, f: int, n: int, c: int, q: int)
    requires q > 0 && Cong(g, 2 * f + 0 * f, q) && Cong(f, n * c, q)
    ensures Cong(g, 2 * n * c, q)
  {
    Scale(2, f, n * c, q);
    Trans(g, 2 * f, 2 * (n * c), q);
  }

  lemma FwdDouble(w: nat -> int, x: seq<int>, u: seq<int>, p: seq<int>, k: nat, d: nat, q: int)
    requires q > 0 && |x| == |u| == |p| == Pow2(d)
    requires CongSeq(x, Times(2, u), q) && CongSeq(Fwd(w, u, k, d), Times(|p|, p), q)
    ensures CongSeq(Fwd(w, x, k, d), Times(2 * |p|, p), q)
  {
    FwdCong(w, x, Times(2, u), k, d, q);
    FwdLinear(w, 2, u, 0, u, k, d);
    assert Times(2, u) == Lin(2, u, 0, u);
    forall i | 0 <= i < |p|
      ensures Cong(Fwd(w, x, k, d)[i], Times(2 * |p|, p)[i], q)
    {
      DoubleStep(Fwd(w, x, k, d)[i], Fwd(w, u, k, d)[i], |p|, p[i], q);
    }
  }

  // ----- the transform evaluates the polynomial at the roots of X^n + 1

  function Root(w: nat -> int, k: nat): (r: int)
    requires k >= 1
  {
    if k == 1 then -1 else if k % 2 == 0 then w(k / 2) else -w(k / 2)
  }

  /** w(k) is a square root of Root(k) at every node of the subtree of depth d below k. */
  ghost predicate SquareRoots(w: nat -> int, k: nat, d: nat, q: int)
    requires q > 0 && k >= 1
    decreases d
  {
    d > 0 ==>
      && Cong(Prod(w(k), w(k)), Root(w, k), q)
      && SquareRoots(w, 2 * k, d - 1, q)
      && SquareRoots(w, 2 * k + 1, d - 1, q)
  }

  /** The number of leaf i below node k, when the leaves are d levels down. */
  function Leaf(k: nat, d: nat, i: nat): (r: nat)
    ensures k >= 1 ==> r >= 1
    decreases d
  {
    if d == 0 then k
    else if i < Pow2(d - 1) then Leaf(2 * k, d - 1, i)
    else Leaf(2 * k + 1, d - 1, i - Pow2(d - 1))
  }

  lemma LeafStep(k: int, h: int, i: int)
    ensures (2 * k) * h + i == k * (2 * h) + i
    ensures (2 * k + 1) * h + (i - h) == k * (2 * h) + i
  {
    assert (2 * k + 1) * h == (2 * k) * h + h;
  }

  lemma {:induction false} LeafNumber(k: nat, d: nat, i: nat)
    requires i < Pow2(d)
    ensures Leaf(k, d, i) == Prod(k, Pow2(d)) + i
    decreases d
  {
    if d > 0 {
      var h := Pow2(d - 1);
      LeafStep(k, h, i);
      hide Prod;
      if i < h {
        LeafNumber(2 * k, d - 1, i);
        ProdIs(2 * k, h);
      } else {
        LeafNumber(2 * k + 1, d - 1, i - h);
        ProdIs(2 * k + 1, h);
      }
      ProdIs(k, 2 * h);
    }
  }

  lemma ProdIs(x: int, y: int)
    ensures Prod(x, y) == x * y
  {
  }

  lemma {:induction false} EvalAppend(p: seq<int>, s: seq<int>, x: int)
    ensures Eval(p + s, x) == Eval(p, x) + Power(x, |p|) * Eval(s, x)
  {
    if p == [] {
      assert p + s == s;
    } else {
      assert (p + s)[1..] == p[1..] + s;
      EvalAppend(p[1..], s, x);
      AppendStep(p[0], x, Eval(p[1..], x), Power(x, |p| - 1), Eval(s, x));
    }
  }

  lemma AppendStep(c: int, x: int, e: int, t: int, f: int)
    ensures c + x * (e + t * f) == c + x * e + x * t * f
  {
    assert x * (e + t * f) == x * e + x * (t * f);
    assert x * (t * f) == x * t * f;
  }

  lemma {:induction false} EvalLin(a: int, u: seq<int>, b: int, v: seq<int>, x: int)
    requires |u| == |v|
    ensures Eval(Lin(a, u, b, v), x) == a * Eval(u, x) + b * Eval(v, x)
  {
    if u != [] {
      assert Lin(a, u, b, v)[1..] == Lin(a, u[1..], b, v[1..]);
      EvalLin(a, u[1..], b, v[1..], x);
      LinStep(a, u[0], b, v[0], x, Eval(u[1..], x), Eval(v[1..], x));
    }
  }

  lemma LinStep(a: int, c: int, b: int, d: int, x: int, e: int, f: int)
    ensures a * c + b * d + x * (a * e + b * f) == a * (c + x * e) + b * (d + x * f)
  {
    assert x * (a * e + b * f) == a * (x * e) + b * (x * f);
    assert a * (c + x * e) == a * c + a * (x * e);
    assert b * (d + x * f) == b * d + b * (x * f);
  }

  lemma {:induction false} PowerAdd(x: int, m: nat, n: nat)
    ensures Power(x, m + n) == Power(x, m) * Power(x, n)
  {
    if m > 0 {
      PowerAdd(x, m - 1, n);
      assert x * (Power(x, m - 1) * Power(x, n)) == x * Power(x, m - 1) * Power(x, n);
    }
  }

  lemma PowerSquare(p: int, p2: int, r: int, z2: int, root: int, q: int)
    requires q > 0 && Cong(p, r, q) && p2 == p * p && r * r == z2 && Cong(z2, root, q)
    ensures Cong(p2, root, q)
  {
    Mul(p, r, p, r, q);
    Trans(p2, z2, root, q);
  }

  /** The evaluation point of leaf i below node k solves x^m == Root(k). */
  lemma {:induction false} LeafPower(w: nat -> int, k: nat, d: nat, i: nat, q: int)
    requires q > 0 && k >= 1 && SquareRoots(w, k, d, q) && i < Pow2(d)
    ensures Cong(Power(Root(w, Leaf(k, d, i)), Pow2(d)), Root(w, k), q)
    decreases d
  {
    hide Cong, Prod;
    var x := Root(w, Leaf(k, d, i));
    if d == 0 {
      FirstPower(x);
      Refl(x, q);
    } else {
      hide Power;
      var h := Pow2(d - 1);
      var c, j := if i < h then 2 * k else 2 * k + 1, if i < h then i else i - h;
      LeafPower(w, c, d - 1, j, q);
      PowerAdd(x, h, h);
      RootSquare(w(k), Root(w, c));
      PowerSquare(Power(x, h), Power(x, 2 * h), Root(w, c), Prod(w(k), w(k)), Root(w, k), q);
    }
  }

  lemma FirstPower(x: int)
    ensures Power(x, Pow2(0)) == x
  {
    assert Power(x, 1) == x * Power(x, 0);
  }

  lemma RootSquare(z: int, r: int)
    requires r == z || r == -z
    ensures r * r == Prod(z, z)
  {
  }

  lemma EvalHalves(f: int, e: int, z: int, t: int, g: int, q: int)
    requires q > 0 && Cong(f, 1 * e + z * g, q) && Cong(t, z, q)
    ensures Cong(f, e + t * g, q)
  {
    Sym(t, z, q);
    Refl(g, q);
    Refl(e, q);
    Mul(z, t, g, g, q);
    Add(e, e, z * g, t * g, q);
    Trans(f, e + z * g, e + t * g, q);
  }

  lemma EvalNode(f: int, p: seq<int>, h: nat, z: int, x: int, q: int)
    requires q > 0 && |p| == 2 * h && Cong(Power(x, h), z, q)
    requires Cong(f, Eval(Child(p, h, z), x), q)
    ensures Cong(f, Eval(p, x), q)
  {
    hide Cong;
    assert Child(p, h, z) == Lin(1, p[..h], z, p[h..]);
    EvalLin(1, p[..h], z, p[h..], x);
    assert p == p[..h] + p[h..];
    EvalAppend(p[..h], p[h..], x);
    EvalHalves(f, Eval(p[..h], x), z, Power(x, h), Eval(p[h..], x), q);
  }

  lemma EvalConstant(c: int, x: int)
    ensures Eval([c], x) == c
  {
    assert Eval([c], x) == c + x * Eval([c][1..], x);
  }

  lemma {:induction false} FwdEval(w: nat -> int, p: seq<int>, k: nat, d: nat, i: nat, q: int)
    requires q > 0 && k >= 1 && SquareRoots(w, k, d, q) && |p| == Pow2(d) && i < |p|
    ensures Cong(Fwd(w, p, k, d)[i], Eval(p, Root(w, Leaf(k, d, i))), q)
    decreases d, 1
  {
    hide Eval, Child, Cong, Prod, Power;
    var x := Root(w, Leaf(k, d, i));
    if d == 0 {
      assert p == [p[0]];
      EvalConstant(p[0], x);
      Refl(p[0], q);
    } else {
      FwdEvalNode(w, p, k, d, i, q);
    }
  }

  lemma {:induction false} FwdEvalNode(w: nat -> int, p: seq<int>, k: nat, d: nat, i: nat, q: int)
    requires d > 0 && q > 0 && k >= 1 && SquareRoots(w, k, d, q) && |p| == Pow2(d) && i < |p|
    ensures Cong(Fwd(w, p, k, d)[i], Eval(p, Root(w, Leaf(k, d, i))), q)
    decreases d, 0
  {
    hide Eval, Child, Cong, Prod, Power, Root;
    var h := Pow2(d - 1);
    ChildRoots(w, k);
    if i < h {
      FwdEvalChild(w, p, h, w(k), 2 * k, d - 1, i, q);
    } else {
      FwdEvalChild(w, p, h, -w(k), 2 * k + 1, d - 1, i - h, q);
    }
  }

  lemma ChildRoots(w: nat -> int, k: nat)
    requires k >= 1
    ensures Root(w, 2 * k) == w(k) && Root(w, 2 * k + 1) == -w(k)
  {
  }

  /** The same for one child, whose ring has the root z. */
  lemma {:induction false} FwdEvalChild(w: nat -> int, p: seq<int>, h: nat, z: int, c: nat, d: nat, i: nat, q: int)
    requires q > 0 && c >= 1 && SquareRoots(w, c, d, q) && h == Pow2(d) && |p| == 2 * h && i < h && Root(w, c) == z
    ensures Cong(Fwd(w, Child(p, h, z), c, d)[i], Eval(p, Root(w, Leaf(c, d, i))), q)
    decreases d, 2
  {
    hide Eval, Child, Cong, Prod, Power, SquareRoots, Root, Fwd;
    FwdEval(w, Child(p, h, z), c, d, i, q);
    LeafPower(w, c, d, i, q);
    EvalNode(Fwd(w, Child(p, h, z), c, d)[i], p, h, z, Root(w, Leaf(c, d, i)), q);
  }

  // ----- the product of Z[X]/(X^n + 1)

  /** Coefficient t of b, extended by X^n == -1 to the n positions before 0. */
  function Wrapped(b: seq<int>, t: int): (r: int)
    requires -|b| <= t < |b|
  {
    if t >= 0 then b[t] else -b[|b| + t]
  }

  function Convolution(a: seq<int>, b: seq<int>, k: nat, i: nat): (r: int)
    requires |a| <= |b| && k < |b| && i <= |a|
    decreases |a| - i
  {
    if i == |a| then 0 else a[i] * Wrapped(b, k - i) + Convolution(a, b, k, i + 1)
  }

  /** Negacyclic convolution: the product modulo X^n + 1. */
  function Product(a: seq<int>, b: seq<int>): (r: seq<int>)
    requires |a| <= |b|
    ensures |r| == |b|
  {
    seq(|b|, k requires 0 <= k < |b| => Convolution(a, b, k, 0))
  }

  function Shift(p: seq<int>): (r: seq<int>)
    requires p != []
    ensures |r| == |p|
  {
    [-p[|p| - 1]] + p[..|p| - 1]
  }

  function Horner(a: seq<int>, b: seq<int>): (r: seq<int>)
    requires b != []
    ensures |r| == |b|
  {
    if a == [] then Times(0, b) else Lin(a[0], b, 1, Shift(Horner(a[1..], b)))
  }

  lemma {:induction false} ConvolutionTail(a: seq<int>, b: seq<int>, k: nat, i: nat)
    requires 0 < |a| <= |b| && 0 < k < |b| && 1 <= i <= |a|
    ensures Convolution(a, b, k, i) == Convolution(a[1..], b, k - 1, i - 1)
    decreases |a| - i
  {
    if i < |a| {
      ConvolutionTail(a, b, k, i + 1);
    }
  }

  lemma {:induction false} ConvolutionWrap(a: seq<int>, b: seq<int>, i: nat)
    requires 0 < |a| <= |b| && 1 <= i <= |a|
    ensures Convolution(a, b, 0, i) == -Convolution(a[1..], b, |b| - 1, i - 1)
    decreases |a| - i
  {
    if i < |a| {
      ConvolutionWrap(a, b, i + 1);
      assert Wrapped(b, 0 - i) == -Wrapped(b, |b| - 1 - (i - 1));
      assert a[i] * -Wrapped(b, |b| - i) == -(a[i] * Wrapped(b, |b| - i));
    }
  }

  lemma FirstTerm(a: seq<int>, b: seq<int>, k: nat)
    requires 0 < |a| <= |b| && k < |b|
    ensures Convolution(a, b, k, 0) == a[0] * b[k] + Convolution(a, b, k, 1)
  {
  }

  lemma CombOne(x: int, y: int, z: int)
    ensures Comb(x, y, 1, z) == x * y + z
  {
  }

  lemma HornerAt(a: seq<int>, b: seq<int>, r: seq<int>, k: nat)
    requires 0 < |a| <= |b| && k < |b| && r == Product(a[1..], b)
    ensures Lin(a[0], b, 1, Shift(r))[k] == Convolution(a, b, k, 0)
  {
    hide Comb, Convolution, Lin;
    FirstTerm(a, b, k);
    CombOne(a[0], b[k], Shift(r)[k]);
    if k > 0 {
      ConvolutionTail(a, b, k, 1);
      assert Shift(r)[k] == r[k - 1];
    } else {
      ConvolutionWrap(a, b, 1);
      assert Shift(r)[0] == -r[|r| - 1];
    }
  }

  lemma {:induction false} HornerIsProduct(a: seq<int>, b: seq<int>)
    requires |a| <= |b| && b != []
    ensures Horner(a, b) == Product(a, b)
  {
    if a != [] {
      HornerIsProduct(a[1..], b);
      forall k | 0 <= k < |b|
        ensures Horner(a, b)[k] == Product(a, b)[k]
      {
        HornerAt(a, b, Horner(a[1..], b), k);
      }
    }
  }

  lemma ShiftStep(x: int, e: int, t: int, l: int, v: int, v': int, q: int)
    requires q > 0 && Cong(x * t, -1, q)
    requires v == e + t * l && v' == -l + x * e
    ensures Cong(v', x * v, q)
  {
    Refl(l, q);
    Refl(x * e, q);
    Mul(x * t, -1, l, l, q);
    Add(x * e, x * e, x * t * l, -1 * l, q);
    assert x * v == x * e + x * t * l;
    Sym(x * v, v', q);
  }

  lemma EvalShift(p: seq<int>, x: int, q: int)
    requires q > 0 && p != [] && Cong(Power(x, |p|), -1, q)
    ensures Cong(Eval(Shift(p), x), x * Eval(p, x), q)
  {
    var m := |p| - 1;
    assert p == p[..m] + [p[m]];
    EvalAppend(p[..m], [p[m]], x);
    assert Eval([p[m]], x) == p[m] + x * Eval([p[m]][1..], x) == p[m];
    assert Shift(p)[1..] == p[..m];
    assert Power(x, |p|) == x * Power(x, m);
    ShiftStep(x, Eval(p[..m], x), Power(x, m), p[m], Eval(p, x), Eval(Shift(p), x), q);
  }

  lemma {:induction false} EvalZero(b: seq<int>, x: int)
    ensures Eval(Times(0, b), x) == 0
  {
    if b != [] {
      assert Times(0, b)[1..] == Times(0, b[1..]);
      EvalZero(b[1..], x);
    }
  }

  lemma HornerStep(c: int, x: int, s: int, t: int, r: int, r': int, q: int)
    requires q > 0 && Cong(r, s * t, q) && Cong(r', x * r, q)
    ensures Cong(c * t + 1 * r', (c + x * s) * t, q)
  {
    Scale(x, r, s * t, q);
    Trans(r', x * r, x * (s * t), q);
    Refl(c * t, q);
    Add(c * t, c * t, r', x * (s * t), q);
    assert (c + x * s) * t == c * t + x * (s * t);
  }

  lemma {:induction false} EvalHorner(a: seq<int>, b: seq<int>, x: int, q: int)
    requires q > 0 && b != [] && Cong(Power(x, |b|), -1, q)
    ensures Cong(Eval(Horner(a, b), x), Eval(a, x) * Eval(b, x), q)
  {
    if a == [] {
      EvalZero(b, x);
      Refl(0, q);
    } else {
      var r := Horner(a[1..], b);
      EvalHorner(a[1..], b, x, q);
      EvalShift(r, x, q);
      EvalLin(a[0], b, 1, Shift(r), x);
      HornerStep(a[0], x, Eval(a[1..], x), Eval(b, x), Eval(r, x), Eval(Shift(r), x), q);
    }
  }

  lemma ProductOfValues(f: int, p: int, fa: int, a: int, fb: int, b: int, q: int)
    requires q > 0 && Cong(f, p, q) && Cong(p, a * b, q) && Cong(fa, a, q) && Cong(fb, b, q)
    ensures Cong(f, fa * fb, q)
  {
    Mul(fa, a, fb, b, q);
    Sym(fa * fb, a * b, q);
    Trans(f, p, a * b, q);
    Trans(f, a * b, fa * fb, q);
  }

  /** The transform turns the product of the ring into products of values. */
  lemma FwdProduct(w: nat -> int, a: seq<int>, b: seq<int>, d: nat, i: nat, q: int)
    requires q > 0 && |a| == |b| == Pow2(d) && SquareRoots(w, 1, d, q) && i < Pow2(d)
    ensures Cong(Fwd(w, Product(a, b), 1, d)[i], Fwd(w, a, 1, d)[i] * Fwd(w, b, 1, d)[i], q)
  {
    var x := Root(w, Leaf(1, d, i));
    FwdEval(w, a, 1, d, i, q);
    FwdEval(w, b, 1, d, i, q);
    FwdEval(w, Product(a, b), 1, d, i, q);
    LeafPower(w, 1, d, i, q);
    HornerIsProduct(a, b);
    EvalHorner(a, b, x, q);
    ProductOfValues(Fwd(w, Product(a, b), 1, d)[i], Eval(Product(a, b), x), Fwd(w, a, 1, d)[i], Eval(a, x),
                    Fwd(w, b, 1, d)[i], Eval(b, x), q);
  }
}
