/** Rounding and hints as FIPS 204 defines them (section 2.3 and algorithms 35, 36, 39 and 40), and the
    shifts and multiplications of tools/pqc/mldsa/mldsa_poly.c as instances. */
module MldsaStandard {
  import opened Modular
  import opened MldsaReduce
  import opened MldsaRounding

  /** The representative of x modulo m that lies in (-m/2, m/2]. */
  function Centred(x: int, m: int): (r: int)
    requires m > 0
  {
    if 2 * (x % m) > m then x % m - m else x % m
  }

  /** Power2Round */
  function Halves(x: int): (r: (int, int)) {
    var a := x % Q;
    ((a - Centred(a, 0x2000)) / 0x2000, Centred(a, 0x2000))
  }

  /** Decompose */
  function Parts(g: int, x: int): (r: (int, int))
    requires g > 0
  {
    var a := x % Q;
    var low := Centred(a, 2 * g);
    if a - low == Q - 1 then (0, low - 1) else ((a - low) / (2 * g), low)
  }

  function High(g: int, x: int): (r: int)
    requires g > 0
  {
    Parts(g, x).0
  }

  /** MakeHint: does adding z to x change the high part? */
  function Hint(g: int, z: int, x: int): (h: int)
    requires g > 0
  {
    if High(g, x) != High(g, x + z) then 1 else 0
  }

  /** UseHint */
  function Hinted(g: int, h: int, x: int): (r: int)
    requires IsGamma2(g)
  {
    var (a1, a0) := Parts(g, x);
    var m := (Q - 1) / (2 * g);
    if h != 1 then a1 else if a0 > 0 then (a1 + 1) % m else (a1 - 1) % m
  }

  // ----- the code

  lemma Power2RoundIsStandard(a: int)
    requires 0 <= a < Q
    ensures Power2Round(a) == Halves(a)
  {
    hide Power2Round;
    Power2RoundExact(a);
    LowPart13(a, Power2Round(a).0, Power2Round(a).1);
  }

  lemma LowPart13(a: int, a1: int, a0: int)
    requires 0 <= a < Q && a == a1 * 0x2000 + a0 && -0x1000 < a0 <= 0x1000
    ensures Halves(a) == (a1, a0)
  {
  }

  lemma PartsOf32(a: int)
    requires 0 <= a < Q
    ensures IsDecomposition(GAMMA2_32, a, Parts(GAMMA2_32, a).0, Parts(GAMMA2_32, a).1)
  {
  }

  lemma PartsOf88(a: int)
    requires 0 <= a < Q
    ensures IsDecomposition(GAMMA2_88, a, Parts(GAMMA2_88, a).0, Parts(GAMMA2_88, a).1)
  {
  }

  lemma DecomposeIsStandard(g: int, a: int)
    requires IsGamma2(g) && 0 <= a < Q
    ensures Decompose(g, a) == Parts(g, a)
  {
    hide Decompose32, Decompose88, Parts, IsDecomposition;
    DecomposeExact(g, a);
    PartsOf32(a);
    PartsOf88(a);
    DecompositionUnique(g, a, Decompose(g, a).0, Decompose(g, a).1, Parts(g, a).0, Parts(g, a).1);
  }

  lemma UseHintIsStandard(g: int, a: int, h: int)
    requires IsGamma2(g) && 0 <= a < Q && (h == 0 || h == 1)
    ensures UseHint(g, a, h) == Hinted(g, h, a)
  {
    hide Decompose32, Decompose88, Parts, IsDecomposition;
    DecomposeIsStandard(g, a);
    DecomposeExact(g, a);
    var (a1, a0) := Decompose(g, a);
    PartRange(g, a, a1, a0);
    SmallRemainders(a1);
  }

  lemma PartRange(g: int, a: int, a1: int, a0: int)
    requires IsGamma2(g) && 0 <= a < Q && IsDecomposition(g, a, a1, a0)
    ensures 0 <= a1 < Buckets(g) && Buckets(g) == (Q - 1) / (2 * g)
  {
  }

  lemma SmallRemainders(a: int)
    ensures 0 <= a < 44 ==> (a + 1) % 44 == if a == 43 then 0 else a + 1
    ensures 0 <= a < 44 ==> (a - 1) % 44 == if a == 0 then 43 else a - 1
  {
  }

  /** A hint of 1 never leaves the high part as it is. */
  lemma HintMoves(g: int, a: int)
    requires IsGamma2(g) && 0 <= a < Q
    ensures Hinted(g, 1, a) != High(g, a)
  {
    hide Parts, IsDecomposition;
    PartsOf32(a);
    PartsOf88(a);
    PartRange(g, a, Parts(g, a).0, Parts(g, a).1);
    SmallRemainders(Parts(g, a).0);
  }

  /** make_hint tells whether a value with high part w1 and low part moved to a0 has another high part. */
  lemma MakeHintIsStandard(g: int, w1: int, a0: int, r: int)
    requires IsGamma2(g) && 0 <= w1 < Buckets(g) && -2 * g < a0 < 2 * g
    requires 0 <= r < Q && Cong(r, w1 * (2 * g) + a0, Q)
    ensures MakeHint(a0, w1, g) == if High(g, r) != w1 then 1 else 0
  {
    hide UseHint, Cong, MakeHint, Parts, Hinted;
    HintRecovers(g, w1, a0, r);
    HintIsBit(a0, w1, g);
    UseHintIsStandard(g, r, MakeHint(a0, w1, g));
    HintMoves(g, r);
    NoHint(g, r);
  }

  lemma HintIsBit(a0: int, w1: int, g: int)
    ensures MakeHint(a0, w1, g) == 0 || MakeHint(a0, w1, g) == 1
  {
  }

  lemma NoHint(g: int, r: int)
    requires IsGamma2(g)
    ensures Hinted(g, 0, r) == High(g, r)
  {
  }
}
