/** tools/pqc/mlkem/rvv_poly.c: reductions on 16-bit lanes, with products in two halves. */
module MlkemVectorReduce {
  import opened Modular
  import opened MlkemReduce

  /** -1 / Q modulo 2^16. */
  const MONT_QI: int := 3327

  /** The instructions that multiply two lanes: the high half rounds down, the low half wraps. */
  function MulHigh(x: int, y: int): (r: int) { x * y / 0x1_0000 }

  function MulLow(x: int, y: int): (r: int) { W16(x * y) }

  /** What a 32-bit lane keeps. */
  function W32(x: int): (r: int)
    ensures -0x8000_0000 <= x < 0x8000_0000 ==> r == x
  {
    (x + 0x8000_0000) % 0x1_0000_0000 - 0x8000_0000
  }

  /** Reduction of a product given as two 16-bit halves. */
  function FqRedc(rh: int, rl: int): (r: int) {
    var t := MulHigh(MulLow(rl, MONT_QI), Q);
    W16(t + rh + if rl != 0 then 1 else 0)
  }

  /** Reduction of a 32-bit lane. */
  function FqRedc2(z: int): (r: int) {
    var t := MulLow(W16(z), MONT_QI);
    W16(W32(z + t * Q) / 0x1_0000)
  }

  /** The carry out of the low halves: there is one unless they are zero. */
  lemma Carry(h: int, low: int, u: int, c: int)
    requires 0 <= low < 0x1_0000 && h * 0x1_0000 + low + u == c * 0x1_0000
    ensures u / 0x1_0000 == c - h - if low == 0 then 0 else 1
  {
  }

  lemma LowHalf(z: int)
    ensures W16(z) == 0 <==> z - z / 0x1_0000 * 0x1_0000 == 0
  {
  }

  /** t * Q cancels the low half, so the sum is a multiple of 2^16. */
  lemma LowHalvesCancel(z: int)
    ensures (z + MulLow(W16(z), MONT_QI) * Q) % 0x1_0000 == 0
  {
    hide W16;
    var l := W16(z);
    var t := W16(l * MONT_QI);
    var k := WordPart(z);
    var m := WordPart(l * MONT_QI);
    assert MONT_QI * Q == 169 * 0x1_0000 - 1;
    assert t * Q == l * (169 * 0x1_0000 - 1) - m * Q * 0x1_0000;
    assert z + t * Q == (k + l * 169 - m * Q) * 0x1_0000;
    Vanishes(k + l * 169 - m * Q);
  }

  /** Both forms, on every value whose sum with t * Q fits 32 bits. */
  lemma HalfWordsRefine(z: int, t: int)
    requires t == MulLow(W16(z), MONT_QI) && -0x8000_0000 <= z + t * Q < 0x8000_0000
    ensures FqRedc(z / 0x1_0000, W16(z)) == FqRedc2(z)
  {
    LowHalvesCancel(z);
    LowHalf(z);
    hide W16;
    var c, h := (z + t * Q) / 0x1_0000, z / 0x1_0000;
    Carry(h, z - h * 0x1_0000, t * Q, c);
  }

  /** The half-word reduction of a product of two lanes is the narrowing one. */
  lemma FqRedcIsFqRedc2(x: int, y: int)
    requires Int16(x) && Int16(y)
    ensures FqRedc(MulHigh(x, y), MulLow(x, y)) == FqRedc2(x * y)
  {
    ProductBound(x, y, 0x8000, 0x8000);
    HalfWordsRefine(x * y, MulLow(W16(x * y), MONT_QI));
  }

  /** Against the scalar reduction, which subtracts instead of adding: equal unless the low half
      is 0x8000, where the two differ by Q. */
  lemma FqRedc2VsMontgomery(z: int)
    requires -0x4000_0000 <= z <= 0x4000_0000
    ensures MontgomeryReduce(z) == FqRedc2(z) + if W16(z) == -0x8000 then Q else 0
  {
    var l := W16(z);
    LowHalvesCancel(z);
    LowHalfVanishes(z);
    OppositeFactors(l);
  }

  /** The two multipliers are opposite modulo 2^16, and -2^15 is its own opposite. */
  lemma OppositeFactors(l: int)
    requires Int16(l)
    ensures l == -0x8000 ==> W16(l * QINV) == MulLow(l, MONT_QI) == -0x8000
    ensures l != -0x8000 ==> W16(l * QINV) == -MulLow(l, MONT_QI)
  {
    hide W16;
    var s, t := W16(l * QINV), W16(l * MONT_QI);
    var m := WordPart(l * QINV);
    var n := WordPart(l * MONT_QI);
    assert s + t == -(m + n) * 0x1_0000;
    if t == -0x8000 {
      HalfOnly(l, n);
    }
    if s == -0x8000 {
      HalfOnly(-l, m);
    }
    if l == -0x8000 {
      AtHalf();
    }
  }

  lemma AtHalf()
    ensures W16(-0x8000 * QINV) == MulLow(-0x8000, MONT_QI) == -0x8000
  {
  }

  /** An odd multiple of l is an odd multiple of 2^15 only if l is. */
  lemma HalfOnly(l: int, n: int)
    requires -0x8000 <= l <= 0x8000 && l * MONT_QI == -0x8000 + n * 0x1_0000
    ensures l == -0x8000 || l == 0x8000
  {
    assert l * (MONT_QI * 3329) == 3329 * (-0x8000 + n * 0x1_0000);
    assert MONT_QI * 3329 == 169 * 0x1_0000 - 1;
    assert l == 0x1_0000 * (169 * l - 3329 * n) + 3329 * 0x8000;
    var c := 169 * l - 3329 * n + 1664;
    assert l == 0x1_0000 * c + 0x8000;
  }

  /** In the range of the header comment the result stays below Q in absolute value. */
  lemma FqRedc2Exact(z: int)
    requires -109084671 <= z <= 109088000
    ensures -Q < FqRedc2(z) < Q && Cong(R * FqRedc2(z), z, Q)
  {
    LowHalvesCancel(z);
    var t := MulLow(W16(z), MONT_QI);
    FromQuotient(R * FqRedc2(z), z, t, Q);
  }

  function FqMulVector(x: int, y: int): (r: int) { FqRedc(MulHigh(x, y), MulLow(x, y)) }

  /** A product of lanes, one of them a root, reduced as the scalar code reduces it or Q lower. */
  lemma FqMulVectorExact(x: int, y: int)
    requires Int16(x) && Int16(y) && -109084671 <= x * y <= 109088000
    ensures -Q < FqMulVector(x, y) < Q
    ensures Cong(FqMulVector(x, y), RINV * (x * y), Q)
    ensures FqMul(x, y) == FqMulVector(x, y) + if MulLow(x, y) == -0x8000 then Q else 0
  {
    hide FqRedc, FqRedc2, MontgomeryReduce;
    FqRedcIsFqRedc2(x, y);
    FqRedc2Exact(x * y);
    FqRedc2VsMontgomery(x * y);
    DropFactor(FqMulVector(x, y), x * y);
  }

  function FqBarrett(a: int): (r: int) {
    var t := W16(MulHigh(a, 20159) + 0x200) / 0x400;
    W16(a - MulLow(t, Q))
  }

  /** Rounding the high half gives the same quotient as rounding the whole product. */
  lemma FqBarrettIsBarrett(a: int)
    requires Int16(a)
    ensures FqBarrett(a) == BarrettReduce(a)
  {
    var x := 20159 * a;
    var h := x / 0x1_0000;
    assert -0x4000 <= h < 0x4000;
    assert (h + 0x200) / 0x400 == (x + 0x200_0000) / 0x400_0000;
  }

  function FqCAdd(x: int): (r: int) { if x < 0 then W16(x + Q) else x }

  function FqCSub(x: int): (r: int) { if x >= Q then W16(x - Q) else x }

  function FqMulQ(x: int, y: int): (r: int) { FqCAdd(FqMulVector(x, y)) }

  /** Multiply and add Q to a negative result: the canonical residue. */
  lemma FqMulQExact(x: int, y: int)
    requires Int16(x) && Int16(y) && -109084671 <= x * y <= 109088000
    ensures 0 <= FqMulQ(x, y) < Q && Cong(FqMulQ(x, y), RINV * (x * y), Q)
  {
    hide FqMulVector;
    FqMulVectorExact(x, y);
    var r := FqMulVector(x, y);
    FromQuotient(FqCAdd(r), r, if r < 0 then 1 else 0, Q);
    Trans(FqCAdd(r), r, RINV * (x * y), Q);
  }
}
