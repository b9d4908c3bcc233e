/** tools/pqc/mlkem/mlkem_ntt.c: the seven-layer transform of ML-KEM over 16-bit words. */
module MlkemNtt {
  import opened Modular
  import opened Polynomials
  import opened NttAlgebra
  import opened Butterflies
  import opened EvenOdd
  import opened RootTables
  import opened MlkemReduce
  import opened MlkemZetas

  const FWD: Butterfly := Butterfly(
    (k: nat, u: int, v: int) => u + FqMul(Zeta(k), v),
    (k: nat, u: int, v: int) => u - FqMul(Zeta(k), v))

  const INV: Butterfly := Butterfly(
    (k: nat, u: int, v: int) => BarrettReduce(u + v),
    (k: nat, u: int, v: int) => FqMul(Zeta(Mirror(k)), v - u))

  /** 2^32 / 128 mod Q. */
  const F: int := 1441

  /** The layers on even and on odd positions; none of them mixes the two. */
  function Ntt(a: Poly): (r: Poly)
    requires |a| == N
    ensures |r| == N
  {
    PowersOfTwo();
    Interleave(DownLayers(FWD, Evens(a), 1, 7, 1), DownLayers(FWD, Odds(a), 1, 7, 1))
  }

  function Scaled(a: Poly): (r: Poly)
    ensures |r| == |a| && forall i :: 0 <= i < |a| ==> r[i] == FqMul(a[i], F)
  {
    seq(|a|, i requires 0 <= i < |a| => FqMul(a[i], F))
  }

  function InvNtt(a: Poly): (r: Poly)
    requires |a| == N
    ensures |r| == N
  {
    PowersOfTwo();
    Scaled(Interleave(UpLayers(INV, Evens(a), 1, 7, 1), UpLayers(INV, Odds(a), 1, 7, 1)))
  }

  // ----- one butterfly

  lemma FwdStep(k: nat, u: int, v: int, b: int)
    requires 0 <= b && b + Q < 0x8000 && -b <= u <= b && -b <= v <= b
    ensures Cong(FWD.lo(k, u, v), Comb(1, u, W(k), v), Q) && -(b + Q) <= FWD.lo(k, u, v) <= b + Q
    ensures Cong(FWD.hi(k, u, v), Comb(1, u, -W(k), v), Q) && -(b + Q) <= FWD.hi(k, u, v) <= b + Q
  {
    hide Zeta, FqMul;
    ZetaBound(k);
    FqMulExact(Zeta(k), v);
    Refl(u, Q);
    assert RINV * (Zeta(k) * v) == Zeta(k) * RINV * v;
    Add(u, u, FqMul(Zeta(k), v), Zeta(k) * RINV * v, Q);
  }

  lemma FwdOk(b: int)
    requires 0 <= b && b + Q < 0x8000
    ensures ForwardOk(FWD, W, b, b + Q, Q)
  {
    hide Cong, Comb, Zeta, FqMul;
    forall k: nat, u: int, v: int | -b <= u <= b && -b <= v <= b
      ensures Cong(FWD.lo(k, u, v), Comb(1, u, W(k), v), Q) && -(b + Q) <= FWD.lo(k, u, v) <= b + Q
      ensures Cong(FWD.hi(k, u, v), Comb(1, u, -W(k), v), Q) && -(b + Q) <= FWD.hi(k, u, v) <= b + Q
    {
      FwdStep(k, u, v, b);
    }
  }

  lemma InvStep(k: nat, u: int, v: int)
    requires -Q <= u <= Q && -Q <= v <= Q
    ensures Cong(INV.lo(k, u, v), u + v, Q) && -Q <= INV.lo(k, u, v) <= Q
    ensures Cong(INV.hi(k, u, v), Prod(IW(k), u - v), Q) && -Q <= INV.hi(k, u, v) <= Q
  {
    hide Zeta, FqMul, BarrettReduce, Mirror;
    var z := Zeta(Mirror(k));
    ZetaBound(Mirror(k));
    BarrettReduceExact(u + v);
    FqMulExact(z, v - u);
    assert RINV * (z * (v - u)) == -z * RINV * (u - v);
  }

  lemma InvOk()
    ensures InverseOk(INV, IW, Q, Q, Q)
  {
    hide Cong, Prod, InverseZeta, FqMul, BarrettReduce, Mirror;
    forall k: nat, u: int, v: int | -Q <= u <= Q && -Q <= v <= Q
      ensures Cong(INV.lo(k, u, v), u + v, Q) && -Q <= INV.lo(k, u, v) <= Q
      ensures Cong(INV.hi(k, u, v), Prod(IW(k), u - v), Q) && -Q <= INV.hi(k, u, v) <= Q
    {
      InvStep(k, u, v);
    }
  }

  // ----- the loops, storing 16-bit words

  lemma StoresForward(a: seq<int>, len: nat, m: nat, b: nat, i: nat, limit: int)
    requires 0 <= limit && limit + Q < 0x8000 && Within(a, limit)
    requires len > 0 && |a| == m * (2 * len) && b < m && i < len
    ensures var j := b * (2 * len) + i;
      && 0 <= j && j + len < |a|
      && var t := FqMul(Zeta(m + b), a[j + len]);
      && W16(a[j] - t) == Layer(FWD, a, len, m, m)[j + len]
      && W16(a[j] + t) == Layer(FWD, a, len, m, m)[j]
  {
    hide Layer, FqMul, Zeta, Cong, Comb;
    LayerPair(FWD, a, len, m, m, b, i);
    var j := b * (2 * len) + i;
    FwdStep(m + b, a[j], a[j + len], limit);
  }

  method ForwardBlock(a: array<int>, start: nat, len: nat, zeta: int,
                      ghost prev: seq<int>, ghost m: nat, ghost b: nat, ghost limit: int)
    requires a.Length == |prev| == m * (2 * len) && len > 0 && b < m && start == b * (2 * len) && zeta == Zeta(m + b)
    requires 0 <= limit && limit + Q < 0x8000 && Within(prev, limit) && start + 2 * len <= a.Length
    requires forall i :: start <= i < a.Length ==> a[i] == prev[i]
    modifies a
    ensures forall i :: 0 <= i < start ==> a[i] == old(a[i])
    ensures forall i :: start <= i < start + 2 * len ==> a[i] == Layer(FWD, prev, len, m, m)[i]
    ensures forall i :: start + 2 * len <= i < a.Length ==> a[i] == prev[i]
  {
    hide Layer, FqMul, Zeta, W16, Within;
    ghost var next := Layer(FWD, prev, len, m, m);
    var j := start;
    while j < start + len
      invariant start <= j <= start + len
      invariant forall i :: 0 <= i < start ==> a[i] == old(a[i])
      invariant forall i :: start <= i < j || start + len <= i < j + len ==> a[i] == next[i]
      invariant forall i :: j <= i < start + len || j + len <= i < a.Length ==> a[i] == prev[i]
    {
      StoresForward(prev, len, m, b, j - start, limit);
      var t := FqMul(zeta, a[j + len]);
      a[j + len] := W16(a[j] - t);
      a[j] := W16(a[j] + t);
      j := j + 1;
    }
  }

  /** Stored words never wrap: a bound on the input grows by Q in each of the 7 layers. */
  method NttInPlace(a: array<int>, ghost bound: nat)
    requires a.Length == N
    requires Within(a[..], bound) && bound + 7 * Q < 0x8000
    modifies a
    ensures a[..] == Ntt(old(a[..]))
  {
    hide Layer, Zeta, Evens, Odds, Interleave;
    PowersOfTwo();
    var k, len := 1, 128;
    ghost var d, m := 7, 1;
    ghost var e, o := Evens(a[..]), Odds(a[..]);
    assert a[..] == old(a[..]);
    while len >= 2
      invariant 0 <= d <= 7 && m >= 1 && k == m && len == Pow2(d) && m * Pow2(d) == 128
      invariant DownLayers(FWD, Evens(a[..]), m, d, m) == DownLayers(FWD, e, 1, 7, 1)
      invariant DownLayers(FWD, Odds(a[..]), m, d, m) == DownLayers(FWD, o, 1, 7, 1)
      invariant Within(a[..], bound + (7 - d) * Q)
      decreases d
    {
      ghost var prev := a[..];
      ghost var limit := bound + (7 - d) * Q;
      assert m * (2 * len) == N && len == 2 * Pow2(d - 1);
      ghost var next := Layer(FWD, prev, len, m, m);
      var start := 0;
      ghost var b := 0;
      while start < N
        invariant b <= m && start == b * (2 * len) && k == m + b
        invariant forall j :: 0 <= j < start ==> a[j] == next[j]
        invariant forall j :: start <= j < N ==> a[j] == prev[j]
        decreases m - b
      {
        BlockFits(len, m, b);
        ForwardBlock(a, start, len, Zeta(k), prev, m, b, limit);
        k := k + 1;
        start := start + 2 * len;
        b := b + 1;
      }
      assert a[..] == next;
      LayerParts(FWD, prev, Pow2(d - 1), m, m);
      FwdOk(limit);
      LayerForward(FWD, W, prev, len, m, m, limit, limit + Q, Q);
      len := len / 2;
      d, m := d - 1, 2 * m;
    }
    assert d == 0;
    InterleaveParts(a[..]);
  }

  lemma StoresInverse(a: seq<int>, len: nat, m: nat, b: nat, i: nat)
    requires Within(a, Q) && len > 0 && |a| == m * (2 * len) && b < m && i < len
    ensures var j := b * (2 * len) + i;
      && 0 <= j && j + len < |a|
      && BarrettReduce(W16(a[j] + a[j + len])) == Layer(INV, a, len, m, m)[j]
      && FqMul(Zeta(Mirror(m + b)), W16(a[j + len] - a[j])) == Layer(INV, a, len, m, m)[j + len]
  {
    hide Layer, FqMul, BarrettReduce, Zeta, Mirror;
    LayerPair(INV, a, len, m, m, b, i);
  }

  method InverseBlock(a: array<int>, start: nat, len: nat, zeta: int, ghost prev: seq<int>, ghost m: nat, ghost b: nat)
    requires a.Length == |prev| == m * (2 * len) && len > 0 && b < m && start == b * (2 * len)
    requires zeta == Zeta(Mirror(m + b)) && Within(prev, Q) && start + 2 * len <= a.Length
    requires forall i :: start <= i < a.Length ==> a[i] == prev[i]
    modifies a
    ensures forall i :: 0 <= i < start ==> a[i] == old(a[i])
    ensures forall i :: start <= i < start + 2 * len ==> a[i] == Layer(INV, prev, len, m, m)[i]
    ensures forall i :: start + 2 * len <= i < a.Length ==> a[i] == prev[i]
  {
    hide Layer, FqMul, BarrettReduce, Zeta, Mirror, W16, Within;
    ghost var next := Layer(INV, prev, len, m, m);
    var j := start;
    while j < start + len
      invariant start <= j <= start + len
      invariant forall i :: 0 <= i < start ==> a[i] == old(a[i])
      invariant forall i :: start <= i < j || start + len <= i < j + len ==> a[i] == next[i]
      invariant forall i :: j <= i < start + len || j + len <= i < a.Length ==> a[i] == prev[i]
    {
      StoresInverse(prev, len, m, b, j - start);
      var t := a[j];
      a[j] := BarrettReduce(W16(t + a[j + len]));
      a[j + len] := W16(a[j + len] - t);
      a[j + len] := FqMul(zeta, a[j + len]);
      j := j + 1;
    }
  }

  method ScaleInPlace(a: array<int>)
    modifies a
    ensures a[..] == Scaled(old(a[..]))
  {
    for j := 0 to a.Length
      invariant forall i :: 0 <= i < j ==> a[i] == Scaled(old(a[..]))[i]
      invariant forall i :: j <= i < a.Length ==> a[i] == old(a[i])
    {
      a[j] := FqMul(a[j], F);
    }
  }

  lemma LevelFits(d: nat, m: nat)
    requires d <= 7 && m * Pow2(d) == 128 && Pow2(d) < 128
    ensures d < 7 && m == 2 * (m / 2) && (m / 2) * (2 * Pow2(d)) == 128 && (m / 2) * (2 * (2 * Pow2(d))) == N
    ensures m / 2 in {1, 2, 4, 8, 16, 32, 64}
  {
    PowersOfTwo();
    assert d == 7 || d in {0, 1, 2, 3, 4, 5, 6};
  }

  /** One layer, the table read backwards from the entry k. */
  method InverseLayer(a: array<int>, len: nat, first: nat, ghost m: nat) returns (k: nat)
    requires a.Length == N == m * (2 * len) && len > 0 && first == 2 * m - 1 && Within(a[..], Q)
    requires m in {1, 2, 4, 8, 16, 32, 64}
    modifies a
    ensures a[..] == Layer(INV, old(a[..]), len, m, m) && k == m - 1
  {
    hide Layer, Zeta, Mirror, Within;
    k := first;
    ghost var prev := a[..];
    ghost var next := Layer(INV, prev, len, m, m);
    var start := 0;
    ghost var b := 0;
    while start < N
      invariant b <= m && start == b * (2 * len) && k == 2 * m - 1 - b
      invariant forall j :: 0 <= j < start ==> a[j] == next[j]
      invariant forall j :: start <= j < N ==> a[j] == prev[j]
      decreases m - b
    {
      BlockFits(len, m, b);
      MirrorOfBlock(m, b);
      InverseBlock(a, start, len, Zeta(k), prev, m, b);
      k := k - 1;
      start := start + 2 * len;
      b := b + 1;
    }
    MultipleOnce(b, m, 2 * len);
  }

  lemma NextInverseLevel(a: seq<int>, e: seq<int>, o: seq<int>, m: nat, d: nat)
    requires |a| == N && m * (2 * Pow2(d)) == 128 && m * (2 * (2 * Pow2(d))) == N && |e| == |o| == 128
    requires Within(a, Q)
    requires Evens(a) == UpLayers(INV, e, 2 * m, d, 2 * m) && Odds(a) == UpLayers(INV, o, 2 * m, d, 2 * m)
    ensures var next := Layer(INV, a, 2 * Pow2(d), m, m);
      && Evens(next) == UpLayers(INV, e, m, d + 1, m) && Odds(next) == UpLayers(INV, o, m, d + 1, m)
      && Within(next, Q)
  {
    LayerParts(INV, a, Pow2(d), m, m);
    hide Layer, Evens, Odds, Within;
    InvOk();
    LayerInverse(INV, IW, a, 2 * Pow2(d), m, m, Q, Q, Q);
  }

  /** Every layer keeps its values within Q: sums are reduced, products are below Q. */
  method InvNttInPlace(a: array<int>)
    requires a.Length == N && Within(a[..], Q)
    modifies a
    ensures a[..] == InvNtt(old(a[..]))
  {
    hide Layer, Evens, Odds, Interleave, UpLayers, Within;
    PowersOfTwo();
    var k, len := 127, 2;
    ghost var d, m := 0, 128;
    ghost var e, o := Evens(a[..]), Odds(a[..]);
    NoLayers(e, 128);
    NoLayers(o, 128);
    while len <= 128
      invariant 0 <= d <= 7 && m >= 1 && k == m - 1 && len == 2 * Pow2(d) && m * Pow2(d) == 128
      invariant Evens(a[..]) == UpLayers(INV, e, m, d, m)
      invariant Odds(a[..]) == UpLayers(INV, o, m, d, m)
      invariant Within(a[..], Q)
      decreases 7 - d
    {
      LevelFits(d, m);
      m := m / 2;
      ghost var prev := a[..];
      k := InverseLayer(a, len, k, m);
      NextInverseLevel(prev, e, o, m, d);
      len := 2 * len;
      d := d + 1;
    }
    LastLevel(d, m);
    InterleaveParts(a[..]);
    ScaleInPlace(a);
  }

  lemma NoLayers(x: seq<int>, m: nat)
    requires |x| == m
    ensures UpLayers(INV, x, m, 0, m) == x
  {
  }

  lemma LastLevel(d: nat, m: nat)
    requires d <= 7 && m * Pow2(d) == 128 && 2 * Pow2(d) > 128
    ensures d == 7 && m == 1
  {
    PowersOfTwo();
    assert d == 7 || d in {0, 1, 2, 3, 4, 5, 6};
  }
}
