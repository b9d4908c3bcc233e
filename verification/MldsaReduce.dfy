/** tools/pqc/mldsa/mldsa_reduce.h: reductions modulo Q on 32-bit and 64-bit words. */
module MldsaReduce {
  import opened Modular

  const Q: int := 8380417
  const QINV: int := 58728449

  /** The value kept when x is stored in an int32_t. */
  function W32(x: int): (r: int)
    ensures -0x8000_0000 <= r < 0x8000_0000
    ensures -0x8000_0000 <= x < 0x8000_0000 ==> r == x
  {
    (x + 0x8000_0000) % 0x1_0000_0000 - 0x8000_0000
  }

  predicate Int32(x: int) { -0x8000_0000 <= x < 0x8000_0000 }

  function MontgomeryReduce(a: int): (r: int) {
    var t := W32(W32(a) * QINV);
    W32((a - t * Q) / 0x1_0000_0000)
  }

  lemma WordPart(x: int) returns (k: int)
    ensures x == W32(x) + k * 0x1_0000_0000
  {
    k := (x + 0x8000_0000) / 0x1_0000_0000;
  }

  lemma Vanishes(c: int)
    ensures (c * 0x1_0000_0000) % 0x1_0000_0000 == 0
  {
  }

  /** The wrapped product by QINV makes the low word of a - t * Q zero. */
  lemma LowWordVanishes(a: int)
    ensures (a - W32(W32(a) * QINV) * Q) % 0x1_0000_0000 == 0
  {
    hide W32;
    var l := W32(a);
    var t := W32(l * QINV);
    var k := WordPart(a);
    var m := WordPart(l * QINV);
    assert QINV * Q == 1 + 114592 * 0x1_0000_0000;
    assert t * Q == l + (l * 114592 - m * Q) * 0x1_0000_0000;
    assert a - t * Q == (k - l * 114592 + m * Q) * 0x1_0000_0000;
    Vanishes(k - l * 114592 + m * Q);
  }

  lemma MontgomeryReduceExact(a: int)
    requires -0x8000_0000 * Q <= a < 0x8000_0000 * Q
    ensures -Q < MontgomeryReduce(a) < Q
    ensures Cong(0x1_0000_0000 * MontgomeryReduce(a), a, Q)
    ensures a - 0x8000_0000 * Q < 0x1_0000_0000 * MontgomeryReduce(a) <= a + 0x8000_0000 * Q
  {
    LowWordVanishes(a);
    var t := W32(W32(a) * QINV);
    FromQuotient(0x1_0000_0000 * MontgomeryReduce(a), a, -t, Q);
  }

  lemma MontgomeryReduceAtEnd()
    ensures MontgomeryReduce(0x8000_0000 * Q) == Q
  {
    assert W32(0x8000_0000 * Q) == -0x8000_0000;
    assert W32(-0x8000_0000 * QINV) == -0x8000_0000;
  }

  /** The header promises -Q < r < Q on the closed range; it fails at one point, the upper end. */
  lemma MontgomeryReduceOnClosedRange(a: int)
    requires -0x8000_0000 * Q <= a <= 0x8000_0000 * Q
    ensures -Q < MontgomeryReduce(a) < Q <==> a < 0x8000_0000 * Q
  {
    hide MontgomeryReduce;
    MontgomeryReduceAtEnd();
    if a < 0x8000_0000 * Q {
      MontgomeryReduceExact(a);
    }
  }

  function Reduce32(a: int): (r: int) {
    var t := (a + 0x40_0000) / 0x80_0000;
    a - t * Q
  }

  lemma Reduce32Exact(a: int)
    requires -0x8000_0000 <= a <= 0x8000_0000 - 0x40_0000 - 1
    ensures Cong(Reduce32(a), a, Q)
    ensures -6283009 <= Reduce32(a) <= 6283008
    ensures Reduce32(a) == -6283009 <==> a == -255 * 0x80_0000 - 0x40_0000
    ensures -0x40_0000 <= a < 0x40_0000 ==> Reduce32(a) == a
  {
    FromQuotient(Reduce32(a), a, -((a + 0x40_0000) / 0x80_0000), Q);
  }

  /** a >> 31 is the sign mask, so Q is added to negative values only. */
  function CAddQ(a: int): (r: int) {
    if a < 0 then a + Q else a
  }

  lemma CAddQCanonical(a: int)
    requires -Q <= a < Q
    ensures 0 <= CAddQ(a) < Q && Cong(CAddQ(a), a, Q)
  {
    FromQuotient(CAddQ(a), a, if a < 0 then 1 else 0, Q);
  }

  lemma FreezeCanonical(a: int)
    requires -0x8000_0000 <= a <= 0x8000_0000 - 0x40_0000 - 1
    ensures CAddQ(Reduce32(a)) == a % Q
  {
    Reduce32Exact(a);
    CAddQCanonical(Reduce32(a));
  }
}
