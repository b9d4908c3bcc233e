/** The layers of ML-KEM over the whole array: they stop at distance 2, so they are the layers
    of the even and of the odd positions side by side. */
module WideLayers {
  import opened Polynomials
  import opened Modular
  import opened NttAlgebra
  import opened Butterflies
  import opened EvenOdd
  import opened VectorLayers

  /** d layers from node k down; the first has distance Pow2(d), the last has distance 2. */
  function WideDown(f: Butterfly, a: seq<int>, k: nat, d: nat, m: nat): (r: seq<int>)
    requires |a| == m * (2 * Pow2(d))
    ensures |r| == |a|
    decreases d
  {
    if d == 0 then a else WideDown(f, Layer(f, a, Pow2(d), k, m), 2 * k, d - 1, 2 * m)
  }

  function WideUp(f: Butterfly, a: seq<int>, k: nat, d: nat, m: nat): (r: seq<int>)
    requires |a| == m * (2 * Pow2(d))
    ensures |r| == |a|
    decreases d
  {
    if d == 0 then a else Layer(f, WideUp(f, a, 2 * k, d - 1, 2 * m), Pow2(d), k, m)
  }

  lemma {:induction false} WideDownParts(f: Butterfly, a: seq<int>, k: nat, d: nat, m: nat)
    requires |a| == m * (2 * Pow2(d))
    ensures |a| % 2 == 0 && |a| / 2 == m * Pow2(d)
    ensures Evens(WideDown(f, a, k, d, m)) == DownLayers(f, Evens(a), k, d, m)
    ensures Odds(WideDown(f, a, k, d, m)) == DownLayers(f, Odds(a), k, d, m)
    decreases d
  {
    assert |a| == 2 * (m * Pow2(d));
    if d > 0 {
      hide Layer, Evens, Odds;
      LayerParts(f, a, Pow2(d - 1), k, m);
      WideDownParts(f, Layer(f, a, Pow2(d), k, m), 2 * k, d - 1, 2 * m);
    }
  }

  lemma {:induction false} WideUpParts(f: Butterfly, a: seq<int>, k: nat, d: nat, m: nat)
    requires |a| == m * (2 * Pow2(d))
    ensures |a| % 2 == 0 && |a| / 2 == m * Pow2(d)
    ensures Evens(WideUp(f, a, k, d, m)) == UpLayers(f, Evens(a), k, d, m)
    ensures Odds(WideUp(f, a, k, d, m)) == UpLayers(f, Odds(a), k, d, m)
    decreases d
  {
    assert |a| == 2 * (m * Pow2(d));
    if d > 0 {
      hide Layer, Evens, Odds;
      WideUpParts(f, a, 2 * k, d - 1, 2 * m);
      LayerParts(f, WideUp(f, a, 2 * k, d - 1, 2 * m), Pow2(d - 1), k, m);
    }
  }

  // ----- chunks of c blocks

  lemma {:induction false} ChunkOfWideDown(f: Butterfly, a: seq<int>, k: nat, d: nat, m: nat, c: nat, i: nat,
       start: nat, s: nat)
    requires |a| == m * (2 * Pow2(d)) && s == c * (2 * Pow2(d)) && start == i * (2 * Pow2(d)) && start + s <= |a|
    ensures WideDown(f, a, k, d, m)[start..start + s] == WideDown(f, a[start..start + s], k + i, d, c)
    decreases d
  {
    if d > 0 {
      hide Layer;
      ChunkOfLayer(f, a, Pow2(d), k, m, c, i, start, s);
      Halved(d, m);
      Halved(d, c);
      Halved(d, i);
      ChunkOfWideDown(f, Layer(f, a, Pow2(d), k, m), 2 * k, d - 1, 2 * m, 2 * c, 2 * i, start, s);
      assert 2 * k + 2 * i == 2 * (k + i);
    }
  }

  lemma {:induction false} ChunkOfWideUp(f: Butterfly, a: seq<int>, k: nat, d: nat, m: nat, c: nat, i: nat, start: nat,
       s: nat)
    requires |a| == m * (2 * Pow2(d)) && s == c * (2 * Pow2(d)) && start == i * (2 * Pow2(d)) && start + s <= |a|
    ensures WideUp(f, a, k, d, m)[start..start + s] == WideUp(f, a[start..start + s], k + i, d, c)
    decreases d
  {
    if d > 0 {
      Halved(d, m);
      Halved(d, c);
      Halved(d, i);
      ChunkOfWideUp(f, a, 2 * k, d - 1, 2 * m, 2 * c, 2 * i, start, s);
      WideUpStep(f, a, k, d, m);
      WideUpStep(f, a[start..start + s], k + i, d, c);
      hide Layer, WideUp, Pow2;
      ChunkOfLayer(f, WideUp(f, a, 2 * k, d - 1, 2 * m), Pow2(d), k, m, c, i, start, s);
    }
  }

  lemma WideUpStep(f: Butterfly, a: seq<int>, k: nat, d: nat, m: nat)
    requires d > 0 && |a| == m * (2 * Pow2(d))
    ensures |a| == 2 * m * (2 * Pow2(d - 1))
    ensures WideUp(f, a, k, d, m) == Layer(f, WideUp(f, a, 2 * k, d - 1, 2 * m), Pow2(d), k, m)
  {
    hide Layer;
  }

  lemma Halved(d: nat, m: nat)
    requires d > 0
    ensures m * (2 * Pow2(d)) == 2 * m * (2 * Pow2(d - 1))
  {
  }
}
