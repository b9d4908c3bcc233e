/** Bit reversal (algorithms 43 of FIPS 204 and section 4.3 of FIPS 203) and powers modulo q. */
module BitReversal {
  import opened Modular
  import opened NttAlgebra

  /** The n low bits of k in reverse order. */
  function Rev(n: nat, k: nat): (r: nat) {
    if n == 0 then 0 else (k % 2) * Pow2(n - 1) + Rev(n - 1, k / 2)
  }

  lemma {:induction false} RevZero(n: nat)
    ensures Rev(n, 0) == 0
  {
    if n > 0 {
      RevZero(n - 1);
    }
  }

  /** The highest of l + 1 bits becomes bit n - 1 - l. */
  lemma {:induction false} RevTop(n: nat, l: nat, k: nat)
    requires l < n && Pow2(l) <= k < 2 * Pow2(l)
    ensures Rev(n, k) == Rev(n, k - Pow2(l)) + Pow2(n - 1 - l)
    decreases l
  {
    if l == 0 {
      RevZero(n - 1);
    } else {
      RevTop(n - 1, l - 1, k / 2);
      assert (k - Pow2(l)) / 2 == k / 2 - Pow2(l - 1) && (k - Pow2(l)) % 2 == k % 2;
    }
  }

  /** One more zero bit at the top shifts the reversal up. */
  lemma {:induction false} RevLonger(n: nat, k: nat)
    requires k < Pow2(n)
    ensures Rev(n + 1, k) == 2 * Rev(n, k)
    decreases n
  {
    if n == 0 {
      assert Rev(1, k) == (k % 2) * Pow2(0) + Rev(0, k / 2);
    } else {
      RevLonger(n - 1, k / 2);
      var b := k % 2;
      assert b * Pow2(n) == 2 * (b * Pow2(n - 1));
    }
  }

  /** An even number has the reversal of its half, an odd one has the top bit more. */
  lemma RevOfHalf(n: nat, k: nat)
    requires n > 0
    ensures Rev(n, k) == (if k % 2 == 1 then Pow2(n - 1) else 0) + Rev(n - 1, k / 2)
  {
  }

  lemma {:induction false} EvalCong(p: seq<int>, x: int, y: int, q: int)
    requires q > 0 && Cong(x, y, q)
    ensures Cong(Eval(p, x), Eval(p, y), q)
  {
    hide Cong;
    if p == [] {
      Refl(0, q);
    } else {
      EvalCong(p[1..], x, y, q);
      Mul(x, y, Eval(p[1..], x), Eval(p[1..], y), q);
      Refl(p[0], q);
      Add(p[0], p[0], x * Eval(p[1..], x), y * Eval(p[1..], y), q);
    }
  }

  /** A square of a power. */
  lemma PowerTwice(w: int, v: int, z: int, m: nat, q: int)
    requires q > 0 && Cong(v, Power(z, m), q) && Cong(w, v * v, q)
    ensures Cong(w, Power(z, 2 * m), q)
  {
    hide Cong;
    Mul(v, Power(z, m), v, Power(z, m), q);
    PowerAdd(z, m, m);
    Trans(w, v * v, Power(z, m) * Power(z, m), q);
  }

  lemma PowersMultiply(w: int, u: int, v: int, z: int, m: nat, n: nat, q: int)
    requires q > 0 && Cong(w, u * v, q) && Cong(u, Power(z, m), q) && Cong(v, Power(z, n), q)
    ensures Cong(w, Power(z, n + m), q)
  {
    hide Cong;
    Mul(u, Power(z, m), v, Power(z, n), q);
    PowerAdd(z, n, m);
    Trans(w, u * v, Power(z, n) * Power(z, m), q);
  }
}
