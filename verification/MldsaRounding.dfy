/** tools/pqc/mldsa/mldsa_poly.c: splitting a coefficient into high and low part, and
    the hints that repair the high part after a small change of the value. */
module MldsaRounding {
  import opened Modular
  import opened MldsaReduce

  const GAMMA2_32: int := 261888  // (Q - 1) / 32
  const GAMMA2_88: int := 95232  // (Q - 1) / 88

  predicate IsGamma2(g: int) { g == GAMMA2_32 || g == GAMMA2_88 }

  /** Number of high parts: 16 or 44. */
  function Buckets(g: int): (r: int)
    requires IsGamma2(g)
  {
    if g == GAMMA2_32 then 16 else 44
  }

  /** x >> 31 is all ones or zero, so the mask keeps m exactly for negative x. */
  function SignMask(x: int, m: int): (r: int) { if x < 0 then m else 0 }

  function Power2Round(a: int): (r: (int, int)) {
    var a1 := (a + 0x1000 - 1) / 0x2000;
    (a1, a - a1 * 0x2000)
  }

  lemma Power2RoundExact(a: int)
    requires 0 <= a < Q
    ensures var (a1, a0) := Power2Round(a);
      && a == a1 * 0x2000 + a0
      && -0x1000 < a0 <= 0x1000
      && 0 <= a1 <= 1023
  {
  }

  function Decompose32(a: int): (r: (int, int)) {
    var t := (a + 127) / 0x80;
    var s := (t * 1025 + 0x20_0000) / 0x40_0000;
    var a1 := s % 16;
    var a0 := a - a1 * 2 * GAMMA2_32;
    (a1, a0 - SignMask((Q - 1) / 2 - a0, Q))
  }

  function Decompose88(a: int): (r: (int, int)) {
    var t := (a + 127) / 0x80;
    var s := (t * 11275 + 0x80_0000) / 0x100_0000;
    var a1 := if 43 - s < 0 then 0 else s;
    var a0 := a - a1 * 2 * GAMMA2_88;
    (a1, a0 - SignMask((Q - 1) / 2 - a0, Q))
  }

  function Decompose(g: int, a: int): (r: (int, int))
    requires IsGamma2(g)
  {
    if g == GAMMA2_32 then Decompose32(a) else Decompose88(a)
  }

  /** Section 7.4 of FIPS 204: centred division by 2 * g; the topmost half bucket
      [Q - g, Q) is folded into bucket 0 with a negative low part. */
  predicate IsDecomposition(g: int, a: int, a1: int, a0: int)
    requires IsGamma2(g)
  {
    if a < Q - g then 0 <= a1 < Buckets(g) && a == a1 * (2 * g) + a0 && -g < a0 <= g
    else a1 == 0 && a0 == a - Q
  }

  /** The number of a1 * 2 * 4092 + 2046 + 1 .. thresholds passed by t, from shifts alone. */
  lemma Divide4092(t: int)
    requires 0 <= t <= 65472
    ensures var s := (t * 1025 + 0x20_0000) / 0x40_0000;
      0 <= s <= 16 && s * 4092 - 2046 < t <= s * 4092 + 2046
  {
    var s := (t + 2045) / 4092;
    assert 0 <= s <= 16 && s * 4092 - 2046 < t <= s * 4092 + 2046;
    assert s * 0x40_0000 <= t * 1025 + 0x20_0000 < (s + 1) * 0x40_0000;
  }

  lemma Divide1488(t: int)
    requires 0 <= t <= 65472
    ensures var s := (t * 11275 + 0x80_0000) / 0x100_0000;
      0 <= s <= 44 && s * 1488 - 744 < t <= s * 1488 + 744
  {
    var s := (t + 743) / 1488;
    assert 0 <= s <= 44 && s * 1488 - 744 < t <= s * 1488 + 744;
    assert s * 0x100_0000 <= t * 11275 + 0x80_0000 < (s + 1) * 0x100_0000;
  }

  lemma Decompose32Exact(a: int)
    requires 0 <= a < Q
    ensures var (a1, a0) := Decompose32(a); IsDecomposition(GAMMA2_32, a, a1, a0)
  {
    Divide4092((a + 127) / 0x80);
  }

  lemma Decompose88Exact(a: int)
    requires 0 <= a < Q
    ensures var (a1, a0) := Decompose88(a); IsDecomposition(GAMMA2_88, a, a1, a0)
  {
    Divide1488((a + 127) / 0x80);
  }

  lemma DecomposeExact(g: int, a: int)
    requires IsGamma2(g) && 0 <= a < Q
    ensures var (a1, a0) := Decompose(g, a); IsDecomposition(g, a, a1, a0)
  {
    hide IsDecomposition;
    Decompose32Exact(a);
    Decompose88Exact(a);
  }

  lemma DecompositionUnique(g: int, a: int, a1: int, a0: int, b1: int, b0: int)
    requires IsGamma2(g) && IsDecomposition(g, a, a1, a0) && IsDecomposition(g, a, b1, b0)
    ensures a1 == b1 && a0 == b0
  {
  }

  function MakeHint(a0: int, a1: int, g: int): (r: int) {
    if a0 > g || a0 < -g || (a0 == -g && a1 != 0) then 1 else 0
  }

  function UseHint32(a: int, hint: int): (r: int) {
    var (a1, a0) := Decompose32(a);
    if hint == 0 then a1
    else if a0 > 0 then (a1 + 1) % 16
    else (a1 - 1) % 16
  }

  function UseHint88(a: int, hint: int): (r: int) {
    var (a1, a0) := Decompose88(a);
    if hint == 0 then a1
    else if a0 > 0 then (if a1 == 43 then 0 else a1 + 1)
    else if a1 == 0 then 43 else a1 - 1
  }

  function UseHint(g: int, a: int, hint: int): (r: int)
    requires IsGamma2(g)
  {
    if g == GAMMA2_32 then UseHint32(a, hint) else UseHint88(a, hint)
  }

  /** w1 * 2 * g + a0 is below Q, so only negative sums wrap. */
  lemma OneWrap(v: int, r: int)
    requires 0 <= r < Q && -Q < v < Q && Cong(r, v, Q)
    ensures r == if v < 0 then v + Q else v
  {
    var k := Quotient(r, v, Q);
  }

  lemma HintRecovers32(w1: int, a0: int, r: int)
    requires 0 <= w1 < 16 && -2 * GAMMA2_32 <= a0 <= 2 * GAMMA2_32
    requires 0 <= r < Q && Cong(r, w1 * (2 * GAMMA2_32) + a0, Q)
    ensures UseHint32(r, MakeHint(a0, w1, GAMMA2_32)) == w1 <==> a0 != -2 * GAMMA2_32 || w1 == 0
  {
    hide Decompose32, Cong, MakeHint;
    WrapOnce(GAMMA2_32, w1, a0, r);
    Decompose32Exact(r);
    var (a1, low) := Decompose32(r);
    Neighbours16(a1);
    MovedBucket32(w1, a0, r, a1, low);
  }

  lemma Neighbours16(a: int)
    requires 0 <= a < 16
    ensures (a + 1) % 16 == (if a == 15 then 0 else a + 1) && (a - 1) % 16 == if a == 0 then 15 else a - 1
  {
  }

  /** The bucket of the moved value, and which of its neighbours a set hint means. */
  lemma MovedBucket32(w1: int, a0: int, r: int, a1: int, low: int)
    requires 0 <= w1 < 16 && -2 * GAMMA2_32 <= a0 <= 2 * GAMMA2_32 && IsDecomposition(GAMMA2_32, r, a1, low)
    requires 0 <= r < Q && r == w1 * (2 * GAMMA2_32) + a0 + if w1 * (2 * GAMMA2_32) + a0 < 0 then Q else 0
    ensures var up, down := if a1 == 15 then 0 else a1 + 1, if a1 == 0 then 15 else a1 - 1;
      (if MakeHint(a0, w1, GAMMA2_32) == 0 then a1 else if low > 0 then up else down) == w1
      <==> a0 != -2 * GAMMA2_32 || w1 == 0
  {
  }

  lemma MovedBucket88(w1: int, a0: int, r: int, a1: int, low: int)
    requires 0 <= w1 < 44 && -2 * GAMMA2_88 <= a0 <= 2 * GAMMA2_88 && IsDecomposition(GAMMA2_88, r, a1, low)
    requires 0 <= r < Q && r == w1 * (2 * GAMMA2_88) + a0 + if w1 * (2 * GAMMA2_88) + a0 < 0 then Q else 0
    ensures var up, down := if a1 == 43 then 0 else a1 + 1, if a1 == 0 then 43 else a1 - 1;
      (if MakeHint(a0, w1, GAMMA2_88) == 0 then a1 else if low > 0 then up else down) == w1
      <==> a0 != -2 * GAMMA2_88 || w1 == 0
  {
  }

  lemma HintRecovers88(w1: int, a0: int, r: int)
    requires 0 <= w1 < 44 && -2 * GAMMA2_88 <= a0 <= 2 * GAMMA2_88
    requires 0 <= r < Q && Cong(r, w1 * (2 * GAMMA2_88) + a0, Q)
    ensures UseHint88(r, MakeHint(a0, w1, GAMMA2_88)) == w1 <==> a0 != -2 * GAMMA2_88 || w1 == 0
  {
    hide Decompose88, Cong, MakeHint;
    WrapOnce(GAMMA2_88, w1, a0, r);
    Decompose88Exact(r);
    var (a1, low) := Decompose88(r);
    MovedBucket88(w1, a0, r, a1, low);
  }

  lemma WrapOnce(g: int, w1: int, a0: int, r: int)
    requires IsGamma2(g) && 0 <= w1 < Buckets(g) && -2 * g <= a0 <= 2 * g
    requires 0 <= r < Q && Cong(r, w1 * (2 * g) + a0, Q)
    ensures var v := w1 * (2 * g) + a0; r == if v < 0 then v + Q else v
  {
    hide Cong;
    OneWrap(w1 * (2 * g) + a0, r);
  }

  /** A value whose low part moved by at most a whole bucket: with the hint computed from the moved
      low part a0, the verifier gets back the high part w1 unless the move is a whole bucket down
      from a bucket other than the first. */
  lemma HintRecoversExactly(g: int, w1: int, a0: int, r: int)
    requires IsGamma2(g) && 0 <= w1 < Buckets(g) && -2 * g <= a0 <= 2 * g
    requires 0 <= r < Q && Cong(r, w1 * (2 * g) + a0, Q)
    ensures UseHint(g, r, MakeHint(a0, w1, g)) == w1 <==> a0 != -2 * g || w1 == 0
  {
    hide UseHint32, UseHint88, Cong, MakeHint;
    if g == GAMMA2_32 {
      HintRecovers32(w1, a0, r);
    } else {
      HintRecovers88(w1, a0, r);
    }
  }

  /** In particular whenever it moved by less than a bucket. */
  lemma HintRecovers(g: int, w1: int, a0: int, r: int)
    requires IsGamma2(g) && 0 <= w1 < Buckets(g) && -2 * g < a0 < 2 * g
    requires 0 <= r < Q && Cong(r, w1 * (2 * g) + a0, Q)
    ensures UseHint(g, r, MakeHint(a0, w1, g)) == w1
  {
    hide UseHint, Cong, MakeHint;
    HintRecoversExactly(g, w1, a0, r);
  }
}
