/** Congruence of integers and of integer sequences modulo a positive q. */
module Modular {

  function Multiple(k: int, q: int): (r: int) { k * q }

  ghost predicate Cong(a: int, b: int, q: int)
    requires q > 0
  {
    exists k :: a - b == Multiple(k, q)
  }

  ghost predicate CongSeq(a: seq<int>, b: seq<int>, q: int)
    requires q > 0
  {
    && |a| == |b|
    && forall i :: 0 <= i < |a| ==> Cong(a[i], b[i], q)
  }

  lemma MultipleBounds(k: int, q: int)
    requires q > 0
    ensures k >= 1 ==> k * q >= q
    ensures k <= -1 ==> k * q <= -q
  {
  }

  lemma QuotientRemainder(l: nat, b: nat, r: nat)
    requires r < l
    ensures (b * l + r) / l == b && (b * l + r) % l == r
  {
    var j := b * l + r;
    assert (b - j / l) * l == j % l - r;
    MultipleBounds(b - j / l, l);
  }

  lemma ProductBound(x: int, y: int, m: int, n: int)
    requires 0 <= m && 0 <= n && -m <= x <= m && -n <= y <= n
    ensures -(m * n) <= x * y <= m * n
  {
    assert (m - x) * n >= 0 && (m + x) * n >= 0;
    if x >= 0 {
      assert x * (n - y) >= 0 && x * (n + y) >= 0;
    } else {
      assert -x * (n - y) >= 0 && -x * (n + y) >= 0;
    }
  }

  /** A congruence has a quotient ... */
  lemma Quotient(a: int, b: int, q: int) returns (k: int)
    requires q > 0 && Cong(a, b, q)
    ensures a == b + k * q
  {
    k :| a - b == Multiple(k, q);
  }

  /** ... and a quotient proves a congruence. */
  lemma FromQuotient(a: int, b: int, k: int, q: int)
    requires q > 0 && a == b + k * q
    ensures Cong(a, b, q)
  {
    assert a - b == Multiple(k, q);
  }

  lemma FromRemainder(a: int, b: int, q: int)
    requires q > 0 && (a - b) % q == 0
    ensures Cong(a, b, q)
  {
    FromQuotient(a, b, (a - b) / q, q);
  }

  lemma Refl(a: int, q: int)
    requires q > 0
    ensures Cong(a, a, q)
  {
    FromQuotient(a, a, 0, q);
  }

  lemma Sym(a: int, b: int, q: int)
    requires q > 0 && Cong(a, b, q)
    ensures Cong(b, a, q)
  {
    var k := Quotient(a, b, q);
    FromQuotient(b, a, -k, q);
  }

  lemma Trans(a: int, b: int, c: int, q: int)
    requires q > 0 && Cong(a, b, q) && Cong(b, c, q)
    ensures Cong(a, c, q)
  {
    var k := Quotient(a, b, q);
    var l := Quotient(b, c, q);
    assert (k + l) * q == k * q + l * q;
    FromQuotient(a, c, k + l, q);
  }

  lemma Add(a: int, b: int, c: int, d: int, q: int)
    requires q > 0 && Cong(a, b, q) && Cong(c, d, q)
    ensures Cong(a + c, b + d, q)
    ensures Cong(a - c, b - d, q)
  {
    var k := Quotient(a, b, q);
    var l := Quotient(c, d, q);
    assert (k + l) * q == k * q + l * q;
    FromQuotient(a + c, b + d, k + l, q);
    assert (k - l) * q == k * q - l * q;
    FromQuotient(a - c, b - d, k - l, q);
  }

  lemma Mul(a: int, b: int, c: int, d: int, q: int)
    requires q > 0 && Cong(a, b, q) && Cong(c, d, q)
    ensures Cong(a * c, b * d, q)
  {
    var k := Quotient(a, b, q);
    var l := Quotient(c, d, q);
    calc {
      a * c;
      (b + k * q) * (d + l * q);
      b * d + b * (l * q) + (k * q) * d + (k * q) * (l * q);
      { assert b * (l * q) == (b * l) * q; assert (k * q) * d == (k * d) * q;
        assert (k * q) * (l * q) == (k * q * l) * q; }
      b * d + (b * l) * q + (k * d) * q + (k * q * l) * q;
      b * d + (b * l + k * d + k * q * l) * q;
    }
    FromQuotient(a * c, b * d, b * l + k * d + k * q * l, q);
  }

  lemma Scale(c: int, a: int, b: int, q: int)
    requires q > 0 && Cong(a, b, q)
    ensures Cong(c * a, c * b, q)
  {
    Refl(c, q);
    Mul(c, c, a, b, q);
  }

  /** A factor with an inverse can be cancelled. */
  lemma Cancel(c: int, inv: int, a: int, b: int, q: int)
    requires q > 0 && Cong(inv * c, 1, q) && Cong(c * a, c * b, q)
    ensures Cong(a, b, q)
  {
    Scale(inv, c * a, c * b, q);
    Refl(a, q);
    Refl(b, q);
    Mul(inv * c, 1, a, a, q);
    Mul(inv * c, 1, b, b, q);
    assert inv * (c * a) == inv * c * a && inv * (c * b) == inv * c * b;
    Sym(inv * c * a, a, q);
    Trans(a, inv * c * a, inv * c * b, q);
    Trans(a, inv * c * b, b, q);
  }
}
