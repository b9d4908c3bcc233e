/** tools/pqc/mldsa/mldsa_ntt.c: the transform of ML-DSA over 32-bit words. */
module MldsaNtt {
  import opened Polynomials
  import opened Modular
  import opened NttAlgebra
  import opened Butterflies
  import opened MldsaReduce
  import opened RootTables
  import opened MldsaZetas

  const FWD: Butterfly := Butterfly(
    (k: nat, u: int, v: int) => u + MontgomeryReduce(Zeta(k) * v),
    (k: nat, u: int, v: int) => u - MontgomeryReduce(Zeta(k) * v))

  const INV: Butterfly := Butterfly(
    (k: nat, u: int, v: int) => u + v,
    (k: nat, u: int, v: int) => MontgomeryReduce(InverseZeta(k) * (u - v)))

  /** 2^64 / 256 mod Q. */
  const F: int := 41978

  function Ntt(a: seq<int>): (r: seq<int>)
    requires |a| == N
    ensures |r| == N
  {
    DownLayers(FWD, a, 1, 8, 1)
  }

  function Scaled(a: seq<int>): (r: seq<int>)
    ensures |r| == |a|
    ensures forall i :: 0 <= i < |a| ==> r[i] == MontgomeryReduce(F * a[i])
  {
    seq(|a|, i requires 0 <= i < |a| => MontgomeryReduce(F * a[i]))
  }

  function InvNtt(a: seq<int>): (r: seq<int>)
    requires |a| == N
    ensures |r| == N
  {
    Scaled(UpLayers(INV, a, 1, 8, 1))
  }

  // ----- one butterfly

  lemma TimesZeta(z: int, v: int)
    requires -Q < z < Q && Int32(v)
    ensures -Q < MontgomeryReduce(z * v) < Q
    ensures Cong(MontgomeryReduce(z * v), z * RINV * v, Q)
  {
    ProductBound(z, v, Q - 1, 0x8000_0000);
    MontgomeryReduceExact(z * v);
    DropFactor(MontgomeryReduce(z * v), z * v);
    assert RINV * (z * v) == z * RINV * v;
  }

  /** R * r == x (mod Q) gives r == RINV * x. */
  lemma DropFactor(r: int, x: int)
    requires Cong(R * r, x, Q)
    ensures Cong(r, RINV * x, Q)
  {
    Scale(RINV, R * r, x, Q);
    FromQuotient(RINV * R, 1, 4236238847, Q);
    Refl(r, Q);
    Mul(RINV * R, 1, r, r, Q);
    assert RINV * (R * r) == RINV * R * r;
    Sym(RINV * R * r, r, Q);
    Trans(r, RINV * R * r, RINV * x, Q);
  }

  lemma FwdStep(k: nat, u: int, v: int, b: int)
    requires 0 <= b && b + Q < 0x8000_0000 && -b <= u <= b && -b <= v <= b
    ensures Cong(FWD.lo(k, u, v), Comb(1, u, W(k), v), Q) && -(b + Q) <= FWD.lo(k, u, v) <= b + Q
    ensures Cong(FWD.hi(k, u, v), Comb(1, u, -W(k), v), Q) && -(b + Q) <= FWD.hi(k, u, v) <= b + Q
  {
    hide Zeta, MontgomeryReduce;
    ZetaBound(k);
    TimesZeta(Zeta(k), v);
    Refl(u, Q);
    Add(u, u, MontgomeryReduce(Zeta(k) * v), Zeta(k) * RINV * v, Q);
  }

  lemma FwdOk(b: int)
    requires 0 <= b && b + Q < 0x8000_0000
    ensures ForwardOk(FWD, W, b, b + Q, Q)
  {
    hide Cong, Comb, Zeta, MontgomeryReduce;
    forall k: nat, u: int, v: int | -b <= u <= b && -b <= v <= b
      ensures Cong(FWD.lo(k, u, v), Comb(1, u, W(k), v), Q) && -(b + Q) <= FWD.lo(k, u, v) <= b + Q
      ensures Cong(FWD.hi(k, u, v), Comb(1, u, -W(k), v), Q) && -(b + Q) <= FWD.hi(k, u, v) <= b + Q
    {
      FwdStep(k, u, v, b);
    }
  }

  lemma InvStep(k: nat, u: int, v: int, b: int)
    requires Q <= b && 2 * b < 0x8000_0000 && -b <= u <= b && -b <= v <= b
    ensures Cong(INV.lo(k, u, v), u + v, Q) && -(2 * b) <= INV.lo(k, u, v) <= 2 * b
    ensures Cong(INV.hi(k, u, v), Prod(IW(k), u - v), Q) && -(2 * b) <= INV.hi(k, u, v) <= 2 * b
  {
    hide Zeta, MontgomeryReduce;
    ZetaBound(Mirror(k));
    TimesZeta(InverseZeta(k), u - v);
    Refl(u + v, Q);
  }

  lemma InvOk(b: int)
    requires Q <= b && 2 * b < 0x8000_0000
    ensures InverseOk(INV, IW, b, 2 * b, Q)
  {
    hide Cong, Prod, InverseZeta, MontgomeryReduce;
    forall k: nat, u: int, v: int | -b <= u <= b && -b <= v <= b
      ensures Cong(INV.lo(k, u, v), u + v, Q) && -(2 * b) <= INV.lo(k, u, v) <= 2 * b
      ensures Cong(INV.hi(k, u, v), Prod(IW(k), u - v), Q) && -(2 * b) <= INV.hi(k, u, v) <= 2 * b
    {
      InvStep(k, u, v, b);
    }
  }

  // ----- the loops, storing 32-bit words

  /** Butterfly i of block b fits its two words and stores what the layer says. */
  lemma StoresForward(a: seq<int>, len: nat, m: nat, b: nat, i: nat, limit: int)
    requires 0 <= limit && limit + Q < 0x8000_0000 && Within(a, limit)
    requires len > 0 && |a| == m * (2 * len) && b < m && i < len
    ensures var j := b * (2 * len) + i;
      && 0 <= j && j + len < |a|
      && var t := MontgomeryReduce(Zeta(m + b) * a[j + len]);
      && W32(a[j] - t) == Layer(FWD, a, len, m, m)[j + len]
      && W32(a[j] + t) == Layer(FWD, a, len, m, m)[j]
  {
    hide Layer, MontgomeryReduce, Zeta, Cong, Comb;
    LayerPair(FWD, a, len, m, m, b, i);
    var j := b * (2 * len) + i;
    FwdStep(m + b, a[j], a[j + len], limit);
  }

  /** The innermost loop: block b of the layer that turns prev into next. */
  method ForwardBlock(a: array<int>, start: nat, len: nat, zeta: int,
                      ghost prev: seq<int>, ghost m: nat, ghost b: nat, ghost limit: int)
    requires a.Length == |prev| == m * (2 * len) && len > 0 && b < m && start == b * (2 * len) && zeta == Zeta(m + b)
    requires 0 <= limit && limit + Q < 0x8000_0000 && Within(prev, limit) && start + 2 * len <= a.Length
    requires forall i :: start <= i < a.Length ==> a[i] == prev[i]
    modifies a
    ensures forall i :: 0 <= i < start ==> a[i] == old(a[i])
    ensures forall i :: start <= i < start + 2 * len ==> a[i] == Layer(FWD, prev, len, m, m)[i]
    ensures forall i :: start + 2 * len <= i < a.Length ==> a[i] == prev[i]
  {
    hide Layer, MontgomeryReduce, Zeta, W32, Within;
    ghost var next := Layer(FWD, prev, len, m, m);
    var j := start;
    while j < start + len
      invariant start <= j <= start + len
      invariant forall i :: 0 <= i < start ==> a[i] == old(a[i])
      invariant forall i :: start <= i < j || start + len <= i < j + len ==> a[i] == next[i]
      invariant forall i :: j <= i < start + len || j + len <= i < a.Length ==> a[i] == prev[i]
    {
      StoresForward(prev, len, m, b, j - start, limit);
      var t := MontgomeryReduce(zeta * a[j + len]);
      a[j + len] := W32(a[j] - t);
      a[j] := W32(a[j] + t);
      j := j + 1;
    }
  }

  /** Stored words never wrap: a bound on the input grows by Q in each of the 8 layers. */
  method NttInPlace(a: array<int>, ghost bound: nat)
    requires a.Length == N
    requires Within(a[..], bound) && bound + 8 * Q < 0x8000_0000
    modifies a
    ensures a[..] == Ntt(old(a[..]))
  {
    hide Layer, Zeta, DownLayers, Within;
    PowersOfTwo();
    var k, len := 0, 128;
    ghost var d, m := 8, 1;
    assert a[..] == old(a[..]);
    while len > 0
      invariant 0 <= d <= 8 && m >= 1 && k == m - 1 && len == if d == 0 then 0 else Pow2(d - 1)
      invariant m * Pow2(d) == N
      invariant DownLayers(FWD, a[..], m, d, m) == Ntt(old(a[..]))
      invariant Within(a[..], bound + (8 - d) * Q)
      decreases d
    {
      ghost var prev := a[..];
      ghost var limit := bound + (8 - d) * Q;
      Halves(m, d, len);
      ghost var next := Layer(FWD, prev, len, m, m);
      var start := 0;
      ghost var b := 0;
      while start < N
        invariant b <= m && start == b * (2 * len) && k == m - 1 + b
        invariant forall j :: 0 <= j < start ==> a[j] == next[j]
        invariant forall j :: start <= j < N ==> a[j] == prev[j]
        decreases m - b
      {
        BlockFits(len, m, b);
        k := k + 1;
        ForwardBlock(a, start, len, Zeta(k), prev, m, b, limit);
        start := start + 2 * len;
        b := b + 1;
      }
      assert a[..] == next;
      LayerDone(prev, m, d, len, limit);
      len := len / 2;
      d, m := d - 1, 2 * m;
    }
    NothingLeft(a[..], m);
  }

  lemma NothingLeft(a: seq<int>, m: nat)
    requires |a| == m * Pow2(0)
    ensures DownLayers(FWD, a, m, 0, m) == a
  {
  }

  lemma Halves(m: nat, d: nat, len: nat)
    requires 0 < d <= 8 && len == Pow2(d - 1) && m * Pow2(d) == N
    ensures m * (2 * len) == N && (2 * m) * len == N && len > 0
    ensures len / 2 == if d == 1 then 0 else Pow2(d - 2)
  {
    assert (2 * m) * len == m * (2 * len);
  }

  lemma LayerDone(prev: seq<int>, m: nat, d: nat, len: nat, limit: int)
    requires 0 < d && len == Pow2(d - 1) && |prev| == m * Pow2(d) == m * (2 * len) == (2 * m) * len && len > 0
    requires Within(prev, limit) && 0 <= limit && limit + Q < 0x8000_0000
    ensures Within(Layer(FWD, prev, len, m, m), limit + Q)
    ensures DownLayers(FWD, prev, m, d, m) == DownLayers(FWD, Layer(FWD, prev, len, m, m), 2 * m, d - 1, 2 * m)
  {
    hide Within, Layer;
    FwdOk(limit);
    LayerForward(FWD, W, prev, len, m, m, limit, limit + Q, Q);
  }

  lemma StoresInverse(a: seq<int>, len: nat, m: nat, b: nat, i: nat, limit: int)
    requires Q <= limit && 2 * limit < 0x8000_0000 && Within(a, limit)
    requires len > 0 && |a| == m * (2 * len) && b < m && i < len
    ensures var j := b * (2 * len) + i;
      && 0 <= j && j + len < |a|
      && W32(a[j] + a[j + len]) == Layer(INV, a, len, m, m)[j]
      && MontgomeryReduce(InverseZeta(m + b) * W32(a[j] - a[j + len])) == Layer(INV, a, len, m, m)[j + len]
  {
    hide Layer, MontgomeryReduce, Zeta, Cong, Prod;
    LayerPair(INV, a, len, m, m, b, i);
    var j := b * (2 * len) + i;
    InvStep(m + b, a[j], a[j + len], limit);
  }

  method InverseBlock(a: array<int>, start: nat, len: nat, zeta: int,
                      ghost prev: seq<int>, ghost m: nat, ghost b: nat, ghost limit: int)
    requires a.Length == |prev| == m * (2 * len) && len > 0 && b < m && start == b * (2 * len)
    requires zeta == InverseZeta(m + b)
    requires Q <= limit && 2 * limit < 0x8000_0000 && Within(prev, limit) && start + 2 * len <= a.Length
    requires forall i :: start <= i < a.Length ==> a[i] == prev[i]
    modifies a
    ensures forall i :: 0 <= i < start ==> a[i] == old(a[i])
    ensures forall i :: start <= i < start + 2 * len ==> a[i] == Layer(INV, prev, len, m, m)[i]
    ensures forall i :: start + 2 * len <= i < a.Length ==> a[i] == prev[i]
  {
    hide Layer, MontgomeryReduce, Zeta, InverseZeta, W32, Within;
    ghost var next := Layer(INV, prev, len, m, m);
    var j := start;
    while j < start + len
      invariant start <= j <= start + len
      invariant forall i :: 0 <= i < start ==> a[i] == old(a[i])
      invariant forall i :: start <= i < j || start + len <= i < j + len ==> a[i] == next[i]
      invariant forall i :: j <= i < start + len || j + len <= i < a.Length ==> a[i] == prev[i]
    {
      StoresInverse(prev, len, m, b, j - start, limit);
      var t := a[j];
      a[j] := W32(t + a[j + len]);
      a[j + len] := W32(t - a[j + len]);
      a[j + len] := MontgomeryReduce(zeta * a[j + len]);
      j := j + 1;
    }
  }

  method ScaleInPlace(a: array<int>)
    modifies a
    ensures a[..] == Scaled(old(a[..]))
  {
    for j := 0 to a.Length
      invariant forall i :: 0 <= i < j ==> a[i] == Scaled(old(a[..]))[i]
      invariant forall i :: j <= i < a.Length ==> a[i] == old(a[i])
    {
      a[j] := MontgomeryReduce(F * a[j]);
    }
  }

  /** One layer, the table read backwards from before the entry first. */
  method InverseLayer(a: array<int>, len: nat, first: nat, ghost m: nat, ghost limit: int) returns (k: nat)
    requires a.Length == N == m * (2 * len) && len > 0 && first == 2 * m && Within(a[..], limit)
    requires Q <= limit && 2 * limit < 0x8000_0000 && m in {1, 2, 4, 8, 16, 32, 64, 128}
    modifies a
    ensures a[..] == Layer(INV, old(a[..]), len, m, m) && k == m
  {
    hide Layer, Zeta, Mirror, Within;
    k := first;
    ghost var prev := a[..];
    ghost var next := Layer(INV, prev, len, m, m);
    var start := 0;
    ghost var b := 0;
    while start < N
      invariant b <= m && start == b * (2 * len) && k == 2 * m - b
      invariant forall j :: 0 <= j < start ==> a[j] == next[j]
      invariant forall j :: start <= j < N ==> a[j] == prev[j]
      decreases m - b
    {
      BlockFits(len, m, b);
      MirrorOfBlock(m, b);
      k := k - 1;
      InverseBlock(a, start, len, -Zeta(k), prev, m, b, limit);
      start := start + 2 * len;
      b := b + 1;
    }
    MultipleOnce(b, m, 2 * len);
  }

  lemma NextInverseLevel(prev: seq<int>, a: seq<int>, m: nat, d: nat)
    requires |prev| == |a| == N && d < 8 && m * (2 * Pow2(d)) == N && Within(prev, Pow2(d) * Q)
    requires prev == UpLayers(INV, a, 2 * m, d, 2 * m)
    ensures var next := Layer(INV, prev, Pow2(d), m, m);
      next == UpLayers(INV, a, m, d + 1, m) && Within(next, Pow2(d + 1) * Q)
  {
    hide Layer, Within;
    var limit := Pow2(d) * Q;
    PowerAtMost(d);
    InvOk(limit);
    LayerInverse(INV, IW, prev, Pow2(d), m, m, limit, 2 * limit, Q);
  }

  /** Values double in each layer: from Q they reach at most 256 * Q, just below 2^31. */
  method InvNttInPlace(a: array<int>)
    requires a.Length == N && Within(a[..], Q)
    modifies a
    ensures a[..] == InvNtt(old(a[..]))
  {
    hide Layer, Within, UpLayers;
    PowersOfTwo();
    var k, len := 256, 1;
    ghost var d, m := 0, 256;
    ghost var first := a[..];
    NoLayers(first, 256);
    while len < N
      invariant 0 <= d <= 8 && m >= 1 && k == m && len == Pow2(d) && m * Pow2(d) == N
      invariant a[..] == UpLayers(INV, first, m, d, m)
      invariant Within(a[..], Pow2(d) * Q)
      decreases 8 - d
    {
      LevelFits(d, m);
      PowerAtMost(d);
      m := m / 2;
      ghost var prev := a[..];
      k := InverseLayer(a, len, k, m, Pow2(d) * Q);
      NextInverseLevel(prev, first, m, d);
      len := 2 * len;
      d := d + 1;
    }
    LastLevel(d, m);
    ScaleInPlace(a);
  }

  lemma NoLayers(x: seq<int>, m: nat)
    requires |x| == m
    ensures UpLayers(INV, x, m, 0, m) == x
  {
  }

  lemma LastLevel(d: nat, m: nat)
    requires d <= 8 && m * Pow2(d) == N && Pow2(d) >= N
    ensures d == 8 && m == 1
  {
    PowersOfTwo();
    assert d == 8 || d in {0, 1, 2, 3, 4, 5, 6, 7};
  }

  lemma LevelFits(d: nat, m: nat)
    requires d <= 8 && m * Pow2(d) == N && Pow2(d) < N
    ensures d < 8 && m == 2 * (m / 2) && (m / 2) * (2 * Pow2(d)) == N && Pow2(d) <= 128
    ensures m / 2 in {1, 2, 4, 8, 16, 32, 64, 128}
  {
    PowersOfTwo();
    assert d == 8 || d in {0, 1, 2, 3, 4, 5, 6, 7};
  }

  // ----- what the transform means

  /** The value of a at every root of X^256 + 1, as unreduced integers. */
  function Hat(a: seq<int>): (r: seq<int>)
    requires |a| == N
    ensures |r| == N
  {
    PowersOfTwo();
    Fwd(W, a, 1, 8)
  }

  lemma NttIsHat(a: seq<int>, bound: nat)
    requires |a| == N && Within(a, bound) && bound + 8 * Q < 0x8000_0000
    ensures CongSeq(Ntt(a), Hat(a), Q)
    ensures Within(Ntt(a), bound + 8 * Q)
  {
    hide CongSeq, Within, ForwardOk, Fwd, Down, DownLayers;
    PowersOfTwo();
    var limit := (d: nat) => if d <= 8 then bound + (8 - d) * Q else 0;
    forall e: nat | e < 8
      ensures ForwardOk(FWD, W, limit(e + 1), limit(e), Q)
    {
      FwdOk(limit(e + 1));
    }
    DownLayersIsDown(FWD, a, 1, 8);
    DownIsFwd(FWD, W, limit, a, 1, 8, Q);
  }

  const HALF: int := 4211177

  lemma ScaleBound(x: int)
    requires -256 * Q <= x <= 256 * Q
    ensures -HALF <= MontgomeryReduce(F * x) <= HALF
    ensures Cong(MontgomeryReduce(F * x), RINV * F * x, Q)
  {
    hide MontgomeryReduce, Cong;
    MontgomeryReduceExact(F * x);
    DropFactor(MontgomeryReduce(F * x), F * x);
  }

  /** The output stays near Q / 2, not just below Q: adding Q to negative values and a
      secret of size 4 to it cannot leave [0, Q). */
  lemma InvNttIsInv(s: seq<int>)
    requires |s| == N && Within(s, Q)
    ensures |s| == Pow2(8) && CongSeq(InvNtt(s), Times(RINV * F, Inv(IW, s, 1, 8)), Q)
    ensures Within(InvNtt(s), HALF)
  {
    hide InverseOk, Layer, MontgomeryReduce, Cong, Inv, Up;
    PowersOfTwo();
    var limit := (d: nat) => Pow2(d) * Q;
    forall e: nat | e < 8
      ensures InverseOk(INV, IW, limit(e), limit(e + 1), Q)
    {
      PowerAtMost(e);
      InvOk(limit(e));
    }
    UpLayersIsUp(INV, s, 1, 8);
    UpIsInv(INV, IW, limit, s, 1, 8, Q);
    var u, v := Up(INV, s, 1, 8), Inv(IW, s, 1, 8);
    forall i | 0 <= i < N
      ensures Cong(Scaled(u)[i], RINV * F * v[i], Q) && -HALF <= Scaled(u)[i] <= HALF
    {
      ScaleBound(u[i]);
      Scale(RINV * F, u[i], v[i], Q);
      Trans(Scaled(u)[i], RINV * F * u[i], RINV * F * v[i], Q);
    }
  }

  lemma PowerAtMost(e: nat)
    requires e < 8
    ensures 1 <= Pow2(e) <= 128 && Pow2(e + 1) * Q == 2 * (Pow2(e) * Q)
  {
    PowersOfTwo();
    assert e in {0, 1, 2, 3, 4, 5, 6, 7};
  }

  lemma Factors()
    ensures Cong(256 * (RINV * F), R, Q) && Cong(RINV * R, 1, Q) && Cong(RINV * RINV * (R * R), 1, Q)
  {
    FromRemainder(256 * (RINV * F), R, Q);
    FromRemainder(RINV * R, 1, Q);
    FromRemainder(RINV * RINV * (R * R), 1, Q);
  }

  lemma HatTimes(c: int, a: seq<int>)
    requires |a| == N
    ensures Hat(Times(c, a)) == Times(c, Hat(a))
  {
    hide Fwd, Times, Lin;
    PowersOfTwo();
    FwdLinear(W, c, a, 0, a, 1, 8);
    TimesIsLin(c, a);
    TimesIsLin(c, Hat(a));
  }

  lemma TimesCong(c: int, x: seq<int>, y: seq<int>)
    requires CongSeq(x, y, Q)
    ensures CongSeq(Times(c, x), Times(c, y), Q)
  {
    hide Cong;
    forall i | 0 <= i < |x|
      ensures Cong(c * x[i], c * y[i], Q)
    {
      Scale(c, x[i], y[i], Q);
    }
  }

  /** c * (256 * x) == e * x when 256 * c == e. */
  lemma FactorTimes(c: int, e: int, x: seq<int>)
    requires Cong(256 * c, e, Q)
    ensures CongSeq(Times(c, Times(256, x)), Times(e, x), Q)
  {
    hide Cong;
    forall i | 0 <= i < |x|
      ensures Cong(c * (256 * x[i]), e * x[i], Q)
    {
      Refl(x[i], Q);
      Mul(256 * c, e, x[i], x[i], Q);
      assert 256 * c * x[i] == c * (256 * x[i]);
    }
  }

  /** The inverse transform followed by the transform multiplies by 2^32. */
  lemma HatInvNtt(s: seq<int>)
    requires |s| == N && Within(s, Q)
    ensures CongSeq(Hat(InvNtt(s)), Times(R, s), Q)
  {
    hide CongSeq, Within, Inv, InvNtt, Fwd, Inverses, SquareRoots;
    PowersOfTwo();
    InvNttIsInv(s);
    Tree();
    Factors();
    var c, v := RINV * F, Inv(IW, s, 1, 8);
    FwdCong(W, InvNtt(s), Times(c, v), 1, 8, Q);
    HatTimes(c, v);
    FwdInv(W, IW, s, 1, 8, Q);
    TimesCong(c, Hat(v), Times(256, s));
    FactorTimes(c, R, s);
    TransSeq(Hat(InvNtt(s)), Times(c, Hat(v)), Times(c, Times(256, s)), Q);
    TransSeq(Hat(InvNtt(s)), Times(c, Times(256, s)), Times(R, s), Q);
  }

  /** The transform followed by the inverse transform multiplies by 2^32; s is what is
      left of Ntt(a) after any reduction modulo Q. */
  lemma InvNttOfNtt(a: seq<int>, s: seq<int>)
    requires |a| == |s| == N && Within(s, Q) && CongSeq(s, Hat(a), Q)
    ensures CongSeq(InvNtt(s), Times(R, a), Q)
  {
    hide CongSeq, Within, Inv, InvNtt, Fwd, Inverses, SquareRoots;
    PowersOfTwo();
    InvNttIsInv(s);
    Tree();
    Factors();
    var c := RINV * F;
    InvCong(IW, s, Hat(a), 1, 8, Q);
    InvFwd(W, IW, a, 1, 8, Q);
    TransSeq(Inv(IW, s, 1, 8), Inv(IW, Hat(a), 1, 8), Times(256, a), Q);
    TimesCong(c, Inv(IW, s, 1, 8), Times(256, a));
    FactorTimes(c, R, a);
    TransSeq(InvNtt(s), Times(c, Inv(IW, s, 1, 8)), Times(c, Times(256, a)), Q);
    TransSeq(InvNtt(s), Times(c, Times(256, a)), Times(R, a), Q);
  }

  /** A polynomial is determined modulo Q by its transform. */
  lemma HatInjective(a: seq<int>, b: seq<int>)
    requires |a| == |b| == N && CongSeq(Hat(a), Hat(b), Q)
    ensures CongSeq(a, b, Q)
  {
    hide Inv, Fwd, Inverses, SquareRoots, Cong;
    PowersOfTwo();
    Tree();
    InvCong(IW, Hat(a), Hat(b), 1, 8, Q);
    InvFwd(W, IW, a, 1, 8, Q);
    InvFwd(W, IW, b, 1, 8, Q);
    FromQuotientOf256();
    forall i | 0 <= i < N
      ensures Cong(a[i], b[i], Q)
    {
      var x, y := Inv(IW, Hat(a), 1, 8)[i], Inv(IW, Hat(b), 1, 8)[i];
      Sym(x, 256 * a[i], Q);
      Trans(256 * a[i], x, y, Q);
      Trans(256 * a[i], y, 256 * b[i], Q);
      Cancel(256, 8347681, a[i], b[i], Q);
    }
  }

  lemma FromQuotientOf256()
    ensures Cong(8347681 * 256, 1, Q)
  {
    FromRemainder(8347681 * 256, 1, Q);
  }

  // ----- products

  function Pointwise(x: seq<int>, y: seq<int>): (r: seq<int>)
    requires |x| == |y|
    ensures |r| == |x|
    ensures forall i :: 0 <= i < |x| ==> r[i] == MontgomeryReduce(x[i] * y[i])
  {
    seq(|x|, i requires 0 <= i < |x| => MontgomeryReduce(x[i] * y[i]))
  }

  lemma PointwiseValue(x: int, y: int)
    requires -9 * Q <= x <= 9 * Q && -9 * Q <= y <= 9 * Q
    ensures Cong(R * MontgomeryReduce(x * y), x * y, Q) && -Q < MontgomeryReduce(x * y) < Q
  {
    ProductBound(x, y, 9 * Q, 9 * Q);
    MontgomeryReduceExact(x * y);
  }

  lemma PointwiseStep(x: int, y: int, a: int, b: int, p: int)
    requires -9 * Q <= x <= 9 * Q && -9 * Q <= y <= 9 * Q
    requires Cong(x, a, Q) && Cong(y, b, Q) && Cong(p, a * b, Q)
    ensures Cong(R * MontgomeryReduce(x * y), p, Q) && -Q < MontgomeryReduce(x * y) < Q
  {
    hide MontgomeryReduce, Cong;
    PointwiseValue(x, y);
    Mul(x, a, y, b, Q);
    Trans(R * MontgomeryReduce(x * y), x * y, a * b, Q);
    Sym(p, a * b, Q);
    Trans(R * MontgomeryReduce(x * y), a * b, p, Q);
  }

  /** Transform, multiply value by value, transform back: the product of the ring
      Z_Q[X]/(X^256 + 1), with every Montgomery factor gone. */
  lemma ProductTheorem(a: seq<int>, b: seq<int>)
    requires |a| == |b| == N && Within(a, Q) && Within(b, Q)
    ensures CongSeq(InvNtt(Pointwise(Ntt(a), Ntt(b))), Product(a, b), Q)
  {
    hide InvNtt, Ntt, Hat, Product;
    var s := Pointwise(Ntt(a), Ntt(b));
    PointwiseHat(a, b);
    HatInvNtt(s);
    TransSeq(Hat(InvNtt(s)), Times(R, s), Hat(Product(a, b)), Q);
    HatInjective(InvNtt(s), Product(a, b));
  }

  lemma HatProduct(a: seq<int>, b: seq<int>, i: nat)
    requires |a| == |b| == N && i < N
    ensures Cong(Hat(Product(a, b))[i], Hat(a)[i] * Hat(b)[i], Q)
  {
    hide Fwd, Product, SquareRoots, Inverses, Cong, Pow2, W, Zeta;
    PowersOfTwo();
    Tree();
    FwdProduct(W, a, b, 8, i, Q);
  }

  lemma PointwiseHat(a: seq<int>, b: seq<int>)
    requires |a| == |b| == N && Within(a, Q) && Within(b, Q)
    ensures Within(Pointwise(Ntt(a), Ntt(b)), Q)
    ensures CongSeq(Times(R, Pointwise(Ntt(a), Ntt(b))), Hat(Product(a, b)), Q)
  {
    hide Ntt, Cong, Hat, Product, MontgomeryReduce;
    NttIsHat(a, Q);
    NttIsHat(b, Q);
    var x, y, p := Ntt(a), Ntt(b), Hat(Product(a, b));
    forall i | 0 <= i < N
      ensures Cong(R * Pointwise(x, y)[i], p[i], Q) && -Q <= Pointwise(x, y)[i] <= Q
    {
      HatProduct(a, b, i);
      PointwiseStep(x[i], y[i], Hat(a)[i], Hat(b)[i], p[i]);
    }
  }
}
