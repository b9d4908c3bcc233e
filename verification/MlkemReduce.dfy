/** tools/pqc/mlkem/reduce.h: reductions modulo Q on 16-bit and 32-bit words. */
module MlkemReduce {
  import opened Modular

  const Q: int := 3329
  const QINV: int := -3327
  const R: int := 0x1_0000

  /** 2^-16 mod Q. */
  const RINV: int := 169

  predicate Int16(x: int) { -0x8000 <= x < 0x8000 }

  /** The value kept when x is stored in an int16_t. */
  function W16(x: int): (r: int)
    ensures Int16(r)
    ensures Int16(x) ==> r == x
  {
    (x + 0x8000) % 0x1_0000 - 0x8000
  }

  function MontgomeryReduce(a: int): (r: int) {
    var t := W16(W16(a) * QINV);
    W16((a - t * Q) / 0x1_0000)
  }

  lemma WordPart(x: int) returns (k: int)
    ensures x == W16(x) + k * 0x1_0000
  {
    k := (x + 0x8000) / 0x1_0000;
  }

  lemma Vanishes(c: int)
    ensures (c * 0x1_0000) % 0x1_0000 == 0
  {
  }

  /** The wrapped product by QINV makes the low half of a - t * Q zero. */
  lemma LowHalfVanishes(a: int)
    ensures (a - W16(W16(a) * QINV) * Q) % 0x1_0000 == 0
  {
    hide W16;
    var l := W16(a);
    var t := W16(l * QINV);
    var k := WordPart(a);
    var m := WordPart(l * QINV);
    assert QINV * Q == 1 - 169 * 0x1_0000;
    assert t * Q == l - (l * 169 + m * Q) * 0x1_0000;
    assert a - t * Q == (k + l * 169 + m * Q) * 0x1_0000;
    Vanishes(k + l * 169 + m * Q);
  }

  lemma MontgomeryReduceExact(a: int)
    requires -0x8000 * Q <= a < 0x8000 * Q
    ensures -Q < MontgomeryReduce(a) < Q
    ensures Cong(R * MontgomeryReduce(a), a, Q)
    ensures a - 0x8000 * Q < 0x1_0000 * MontgomeryReduce(a) <= a + 0x8000 * Q
  {
    LowHalfVanishes(a);
    var t := W16(W16(a) * QINV);
    FromQuotient(0x1_0000 * MontgomeryReduce(a), a, -t, Q);
  }

  /** R * r == x (mod Q) gives r == RINV * x. */
  lemma DropFactor(r: int, x: int)
    requires Cong(R * r, x, Q)
    ensures Cong(r, RINV * x, Q)
  {
    Scale(RINV, R * r, x, Q);
    FromQuotient(RINV * R, 1, 3327, Q);
    Refl(r, Q);
    Mul(RINV * R, 1, r, r, Q);
    assert RINV * (R * r) == RINV * R * r;
    Sym(RINV * R * r, r, Q);
    Trans(r, RINV * R * r, RINV * x, Q);
  }

  function FqMul(a: int, b: int): (r: int) { MontgomeryReduce(a * b) }

  /** The multiplier 20159 is 2^26 / Q rounded. */
  function BarrettReduce(a: int): (r: int) {
    var t := W16((20159 * a + 0x200_0000) / 0x400_0000);
    W16(a - W16(t * Q))
  }

  lemma BarrettQuotient(a: int, t: int)
    requires Int16(a) && 0x400_0000 * t <= 20159 * a + 0x200_0000 < 0x400_0000 * t + 0x400_0000
    ensures -10 <= t <= 10 && -1664 <= a - t * Q <= 1664
  {
  }

  /** The centred remainder, for every 16-bit value; t * Q itself may wrap, the difference does not. */
  lemma BarrettReduceExact(a: int)
    requires Int16(a)
    ensures -1664 <= BarrettReduce(a) <= 1664 && Cong(BarrettReduce(a), a, Q)
  {
    hide BarrettReduce;
    var t := (20159 * a + 0x200_0000) / 0x400_0000;
    assert 0x400_0000 * t <= 20159 * a + 0x200_0000 < 0x400_0000 * t + 0x400_0000;
    BarrettQuotient(a, t);
    BarrettStores(a, t);
    FromQuotient(a - t * Q, a, -t, Q);
  }

  lemma BarrettStores(a: int, t: int)
    requires Int16(a) && t == (20159 * a + 0x200_0000) / 0x400_0000 && -10 <= t <= 10 && -1664 <= a - t * Q <= 1664
    ensures BarrettReduce(a) == a - t * Q
  {
    var m := WordPart(t * Q);
    assert W16(t) == t;
  }

  /** One factor below Q and one 16-bit factor: no overflow, and the product without 2^16. */
  lemma FqMulExact(a: int, b: int)
    requires -Q < a < Q && Int16(b)
    ensures -Q < FqMul(a, b) < Q && Cong(FqMul(a, b), RINV * (a * b), Q)
  {
    ProductBound(a, b, Q - 1, 0x8000);
    MontgomeryReduceExact(a * b);
    DropFactor(FqMul(a, b), a * b);
  }
}
