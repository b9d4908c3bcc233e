/** Arithmetic in Z[X]/(X^2 - g), where ML-KEM multiplies one pair of values, and the
    cancellation of the matrix that makes decryption work. */
module PairAlgebra {
  import opened Modular

  datatype Pair = Pair(a: int, b: int)

  const ZERO: Pair := Pair(0, 0)

  function Add2(x: Pair, y: Pair): (r: Pair) { Pair(x.a + y.a, x.b + y.b) }

  function Sub2(x: Pair, y: Pair): (r: Pair) { Pair(x.a - y.a, x.b - y.b) }

  function Mul2(g: int, x: Pair, y: Pair): (r: Pair) { Pair(x.a * y.a + g * (x.b * y.b), x.a * y.b + x.b * y.a) }

  lemma Commutes(g: int, x: Pair, y: Pair)
    ensures Mul2(g, x, y) == Mul2(g, y, x)
  {
  }

  lemma Distributes(g: int, x: Pair, y: Pair, z: Pair)
    ensures Mul2(g, Add2(x, y), z) == Add2(Mul2(g, x, z), Mul2(g, y, z))
    ensures Mul2(g, z, Add2(x, y)) == Add2(Mul2(g, z, x), Mul2(g, z, y))
  {
    SumTimes(x.a, y.a, z.a);
    SumTimes(x.a, y.a, z.b);
    SumTimes(x.b, y.b, z.a);
    SumTimes(x.b, y.b, z.b);
    SumTimes(x.b * z.b, y.b * z.b, g);
  }

  lemma SumTimes(a: int, b: int, c: int)
    ensures (a + b) * c == a * c + b * c && c * (a + b) == c * a + c * b && a * c == c * a && b * c == c * b
  {
  }

  lemma Times3(x: int, y: int, z: int)
    ensures (x * y) * z == x * (y * z)
  {
  }

  lemma Associates(g: int, x: Pair, y: Pair, z: Pair)
    ensures Mul2(g, Mul2(g, x, y), z) == Mul2(g, x, Mul2(g, y, z))
  {
    var p, q := x.a * y.a + g * (x.b * y.b), x.a * y.b + x.b * y.a;
    var r, s := y.a * z.a + g * (y.b * z.b), y.a * z.b + y.b * z.a;
    AssociatesHalf(g, x.a, x.b, y.a, y.b, z.a, z.b);
    AssociatesHalf(g, x.a, x.b, y.a, y.b, z.b, z.a);
    AssociatesLow(g, x.a, x.b, y.a, y.b, z.a, z.b);
    AssociatesHigh(g, x.a, x.b, y.a, y.b, z.a, z.b);
  }

  lemma AssociatesHalf(g: int, xa: int, xb: int, ya: int, yb: int, u: int, v: int)
    ensures (xa * ya + g * (xb * yb)) * u == xa * (ya * u) + g * (xb * (yb * u))
    ensures (xa * yb + xb * ya) * v == xa * (yb * v) + xb * (ya * v)
  {
    Times3(xa, ya, u);
    Times3(xb, yb, u);
    Times3(g, xb * yb, u);
    Times3(xa, yb, v);
    Times3(xb, ya, v);
  }

  lemma AssociatesLow(g: int, xa: int, xb: int, ya: int, yb: int, za: int, zb: int)
    ensures xa * (ya * za + g * (yb * zb)) + g * (xb * (ya * zb + yb * za))
         == xa * (ya * za) + g * (xb * (yb * za)) + g * (xa * (yb * zb) + xb * (ya * zb))
  {
    assert xa * (g * (yb * zb)) == g * (xa * (yb * zb));
    assert xb * (ya * zb + yb * za) == xb * (ya * zb) + xb * (yb * za);
  }

  lemma AssociatesHigh(g: int, xa: int, xb: int, ya: int, yb: int, za: int, zb: int)
    ensures xa * (ya * zb + yb * za) + xb * (ya * za + g * (yb * zb))
         == xa * (ya * zb) + g * (xb * (yb * zb)) + (xa * (yb * za) + xb * (ya * za))
  {
    assert xb * (g * (yb * zb)) == g * (xb * (yb * zb));
  }

  // ----- sums of products

  function Dot2(g: int, x: seq<Pair>, y: seq<Pair>, n: nat): (r: Pair)
    requires n <= |x| && n <= |y|
  {
    if n == 0 then ZERO else Add2(Dot2(g, x, y, n - 1), Mul2(g, x[n - 1], y[n - 1]))
  }

  /** Column j of the first n rows of a, times y. */
  function Column(a: seq<seq<Pair>>, j: nat): (r: seq<Pair>)
    requires forall i :: 0 <= i < |a| ==> j < |a[i]|
    ensures |r| == |a| && forall i :: 0 <= i < |a| ==> r[i] == a[i][j]
  {
    seq(|a|, i requires 0 <= i < |a| => a[i][j])
  }

  lemma {:induction false} DotAdd(g: int, x: seq<Pair>, y: seq<Pair>, s: seq<Pair>, z: seq<Pair>, n: nat)
    requires n <= |x| && n <= |y| && n <= |s| && n <= |z|
    requires forall i :: 0 <= i < n ==> s[i] == Add2(x[i], y[i])
    ensures Dot2(g, s, z, n) == Add2(Dot2(g, x, z, n), Dot2(g, y, z, n))
    ensures Dot2(g, z, s, n) == Add2(Dot2(g, z, x, n), Dot2(g, z, y, n))
  {
    hide Mul2, Add2;
    if n == 0 {
      ZeroSum();
    } else {
      DotAdd(g, x, y, s, z, n - 1);
      var u, v, w := x[n - 1], y[n - 1], z[n - 1];
      Distributes(g, u, v, w);
      Exchange(Dot2(g, x, z, n - 1), Dot2(g, y, z, n - 1), Mul2(g, u, w), Mul2(g, v, w));
      Exchange(Dot2(g, z, x, n - 1), Dot2(g, z, y, n - 1), Mul2(g, w, u), Mul2(g, w, v));
    }
  }

  lemma Exchange(x: Pair, y: Pair, u: Pair, v: Pair)
    ensures Add2(Add2(x, y), Add2(u, v)) == Add2(Add2(x, u), Add2(y, v))
  {
  }

  lemma ZeroSum()
    ensures Add2(ZERO, ZERO) == ZERO
  {
  }

  lemma MulZero(g: int, x: Pair)
    ensures Mul2(g, ZERO, x) == ZERO && Mul2(g, x, ZERO) == ZERO && Add2(x, ZERO) == x && Add2(ZERO, x) == x
  {
  }

  /** (row * s) * r == s * (row * r), with row * r taken entry by entry. */
  lemma {:induction false} PullOut(g: int, row: seq<Pair>, s: seq<Pair>, scaled: seq<Pair>, r: Pair, m: nat)
    requires m <= |row| && m <= |s| && m <= |scaled|
    requires forall j :: 0 <= j < m ==> scaled[j] == Mul2(g, row[j], r)
    ensures Mul2(g, Dot2(g, row, s, m), r) == Dot2(g, s, scaled, m)
  {
    hide Mul2;
    if m == 0 {
      MulZero(g, r);
    } else {
      PullOut(g, row, s, scaled, r, m - 1);
      var p := Mul2(g, row[m - 1], s[m - 1]);
      Distributes(g, Dot2(g, row, s, m - 1), p, r);
      Commutes(g, row[m - 1], s[m - 1]);
      Associates(g, s[m - 1], row[m - 1], r);
    }
  }

  /** cols[j] is the product of column j (first n rows of a) with r. */
  ghost predicate Columns(g: int, a: seq<seq<Pair>>, r: seq<Pair>, cols: seq<Pair>, n: nat, m: nat) {
    && n <= |a| && n <= |r| && m <= |cols|
    && (forall i :: 0 <= i < |a| ==> m <= |a[i]|)
    && forall j :: 0 <= j < m ==> cols[j] == Dot2(g, Column(a, j), r, n)
  }

  /** rows[i] is the product of row i of a with s. */
  ghost predicate Rows(g: int, a: seq<seq<Pair>>, s: seq<Pair>, rows: seq<Pair>, n: nat, m: nat) {
    && n <= |a| && n <= |rows| && m <= |s|
    && (forall i :: 0 <= i < |a| ==> m <= |a[i]|)
    && forall i :: 0 <= i < n ==> rows[i] == Dot2(g, a[i], s, m)
  }

  lemma {:induction false} NoRows(g: int, s: seq<Pair>, cols: seq<Pair>, m: nat)
    requires m <= |s| && m <= |cols| && forall j :: 0 <= j < m ==> cols[j] == ZERO
    ensures Dot2(g, s, cols, m) == ZERO
  {
    hide Mul2;
    if m > 0 {
      NoRows(g, s, cols, m - 1);
      MulZero(g, s[m - 1]);
    }
  }

  /** (A * s) * r == s * (A^T * r). */
  lemma {:induction false} Transpose(g: int, a: seq<seq<Pair>>, s: seq<Pair>, r: seq<Pair>, rows: seq<Pair>,
       cols: seq<Pair>, n: nat, m: nat)
    requires Rows(g, a, s, rows, n, m) && Columns(g, a, r, cols, n, m)
    ensures Dot2(g, rows, r, n) == Dot2(g, s, cols, m)
    decreases n
  {
    hide Mul2, Add2;
    if n == 0 {
      NoRows(g, s, cols, m);
    } else {
      var row, r' := a[n - 1], r[n - 1];
      var before := seq(m, j requires 0 <= j < m => Dot2(g, Column(a, j), r, n - 1));
      var scaled := seq(m, j requires 0 <= j < m => Mul2(g, row[j], r'));
      Transpose(g, a, s, r, rows, before, n - 1, m);
      PullOut(g, row, s, scaled, r', m);
      forall j | 0 <= j < m
        ensures cols[j] == Add2(before[j], scaled[j])
      {
        assert Column(a, j)[n - 1] == row[j];
      }
      DotAdd(g, before, scaled, cols, s, m);
    }
  }

  /** With t = A * s + e and b = A^T * r + f:  t * r - s * b == e * r - s * f. */
  lemma Cancellation(g: int, a: seq<seq<Pair>>, s: seq<Pair>, r: seq<Pair>, e: seq<Pair>, f: seq<Pair>,
                     t: seq<Pair>, b: seq<Pair>, rows: seq<Pair>, cols: seq<Pair>, k: nat)
    requires |s| == |r| == |e| == |f| == |t| == |b| == |a| == |rows| == |cols| == k
    requires Rows(g, a, s, rows, k, k) && Columns(g, a, r, cols, k, k)
    requires forall i :: 0 <= i < k ==> t[i] == Add2(rows[i], e[i]) && b[i] == Add2(cols[i], f[i])
    ensures Sub2(Dot2(g, t, r, k), Dot2(g, s, b, k)) == Sub2(Dot2(g, e, r, k), Dot2(g, s, f, k))
  {
    hide Mul2, Dot2, Rows, Columns;
    Transpose(g, a, s, r, rows, cols, k, k);
    DotAdd(g, rows, e, t, r, k);
    DotAdd(g, cols, f, b, s, k);
  }

  // ----- modulo q

  ghost predicate Cong2(x: Pair, y: Pair, q: int)
    requires q > 0
  {
    Cong(x.a, y.a, q) && Cong(x.b, y.b, q)
  }

  lemma MulCong2(g: int, x: Pair, y: Pair, u: Pair, v: Pair, q: int)
    requires q > 0 && Cong2(x, u, q) && Cong2(y, v, q)
    ensures Cong2(Mul2(g, x, y), Mul2(g, u, v), q)
  {
    hide Cong;
    Mul(x.a, u.a, y.a, v.a, q);
    Mul(x.b, u.b, y.b, v.b, q);
    Scale(g, x.b * y.b, u.b * v.b, q);
    Add(x.a * y.a, u.a * v.a, g * (x.b * y.b), g * (u.b * v.b), q);
    Mul(x.a, u.a, y.b, v.b, q);
    Mul(x.b, u.b, y.a, v.a, q);
    Add(x.a * y.b, u.a * v.b, x.b * y.a, u.b * v.a, q);
  }

  lemma AddCong2(x: Pair, y: Pair, u: Pair, v: Pair, q: int)
    requires q > 0 && Cong2(x, u, q) && Cong2(y, v, q)
    ensures Cong2(Add2(x, y), Add2(u, v), q) && Cong2(Sub2(x, y), Sub2(u, v), q)
  {
    hide Cong;
    Add(x.a, u.a, y.a, v.a, q);
    Add(x.b, u.b, y.b, v.b, q);
  }

  lemma TransCong2(x: Pair, y: Pair, z: Pair, q: int)
    requires q > 0 && Cong2(x, y, q) && Cong2(y, z, q)
    ensures Cong2(x, z, q)
  {
    Trans(x.a, y.a, z.a, q);
    Trans(x.b, y.b, z.b, q);
  }

  lemma ReflCong2(x: Pair, q: int)
    requires q > 0
    ensures Cong2(x, x, q)
  {
    Refl(x.a, q);
    Refl(x.b, q);
  }

  lemma {:induction false} DotCong2(g: int, x: seq<Pair>, y: seq<Pair>, u: seq<Pair>, v: seq<Pair>, n: nat, q: int)
    requires q > 0 && n <= |x| && n <= |y| && n <= |u| && n <= |v|
    requires forall i :: 0 <= i < n ==> Cong2(x[i], u[i], q) && Cong2(y[i], v[i], q)
    ensures Cong2(Dot2(g, x, y, n), Dot2(g, u, v, n), q)
  {
    hide Cong2, Mul2, Add2;
    if n == 0 {
      ReflCong2(ZERO, q);
    } else {
      DotCong2(g, x, y, u, v, n - 1, q);
      MulCong2(g, x[n - 1], y[n - 1], u[n - 1], v[n - 1], q);
      AddCong2(Dot2(g, x, y, n - 1), Mul2(g, x[n - 1], y[n - 1]), Dot2(g, u, v, n - 1), Mul2(g, u[n - 1], v[n - 1]), q);
    }
  }
}
