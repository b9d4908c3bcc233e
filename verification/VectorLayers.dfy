/** Layers of butterflies on vector registers: whole registers while the distance is at least
    one register, and permuted lanes below that. Nothing here depends on the butterfly. */
module VectorLayers {
  import opened Modular
  import opened Polynomials
  import opened NttAlgebra
  import opened Butterflies
  import opened Lanes

  /** A butterfly that is handed its root instead of looking it up. */
  datatype Rooted = Rooted(lo: (int, int, int) -> int, hi: (int, int, int) -> int)

  function ByNode(g: Rooted, z: nat -> int): (r: Butterfly) {
    Butterfly((k: nat, u: int, v: int) => g.lo(z(k), u, v), (k: nat, u: int, v: int) => g.hi(z(k), u, v))
  }

  lemma LayerOfPair(f: Butterfly, a: seq<int>, len: nat, k: nat, m: nat, j: nat)
    requires len > 0 && |a| == m * (2 * len) && j < |a| && j % (2 * len) < len
    ensures j + len < |a| && j / (2 * len) < m
    ensures Layer(f, a, len, k, m)[j] == f.lo(k + j / (2 * len), a[j], a[j + len])
    ensures Layer(f, a, len, k, m)[j + len] == f.hi(k + j / (2 * len), a[j], a[j + len])
  {
    var b, i := j / (2 * len), j % (2 * len);
    assert j == b * (2 * len) + i;
    BlockIndex(len, m, j);
    LayerPair(f, a, len, k, m, b, i);
  }

  // ----- chunks

  lemma ChunkLane(f: Butterfly, a: seq<int>, chunk: seq<int>, len: nat, k: nat, m: nat, node: nat, c: nat, i: nat,
       start: nat, j: nat)
    requires len > 0 && |a| == m * (2 * len) && |chunk| == c * (2 * len) && start == i * (2 * len)
         && start + |chunk| <= |a|
    requires chunk == a[start..start + |chunk|] && j < |chunk| && node == k + i
    ensures LayerAt(f, a, len, k, m, start + j) == LayerAt(f, chunk, len, node, c, j)
  {
    var l := 2 * len;
    SuffixIndex(l, i, j);
    BlockIndex(len, c, j);
    BlockIndex(len, m, start + j);
    LanesMatch(f, a, chunk, len, k + (start + j) / l, node + j / l, start, j, j % l);
  }

  lemma LanesMatch(f: Butterfly, a: seq<int>, chunk: seq<int>, len: nat, node: nat, same: nat, start: nat, j: nat,
       r: nat)
    requires start + |chunk| <= |a| && chunk == a[start..start + |chunk|] && j < |chunk| && node == same
    requires if r < len then j + len < |chunk| else len <= j
    ensures (if r < len then f.lo(node, a[start + j], a[start + j + len])
         else f.hi(node, a[start + j - len], a[start + j]))
         == (if r < len then f.lo(same, chunk[j], chunk[j + len]) else f.hi(same, chunk[j - len], chunk[j]))
  {
  }

  /** On a chunk that holds whole blocks, a layer is the layer of the chunk. */
  lemma ChunkOfLayer(f: Butterfly, a: seq<int>, len: nat, k: nat, m: nat, c: nat, i: nat, start: nat, s: nat)
    requires len > 0 && |a| == m * (2 * len) && s == c * (2 * len) && start == i * (2 * len) && start + s <= |a|
    ensures Layer(f, a, len, k, m)[start..start + s] == Layer(f, a[start..start + s], len, k + i, c)
  {
    hide LayerAt;
    var node, next, chunk := k + i, Layer(f, a, len, k, m), a[start..start + s];
    var part := next[start..start + s];
    forall j: nat | j < s
      ensures part[j] == LayerAt(f, chunk, len, node, c, j)
    {
      ChunkLane(f, a, chunk, len, k, m, node, c, i, start, j);
    }
  }

  /** Below block i of the first layer the transform stays within that block. */
  lemma ChunkOfDown(f: Butterfly, x: seq<int>, k: nat, d: nat, m: nat, i: nat, start: nat, s: nat)
    requires s == Pow2(d) && |x| == m * s && i < m && start == i * s && start + s <= |x|
    ensures DownLayers(f, x, k, d, m)[start..start + s] == DownLayers(f, x[start..start + s], k + i, d, 1)
  {
    hide DownLayers, Pow2;
    var y, z := x[start..start + s], x[start + s..];
    assert x == x[..start] + (y + z) && x[start..] == y + z;
    assert |z| == m * s - (i + 1) * s == (m - i - 1) * s;
    assert |y + z| == (m - i) * s;
    DownLayersAppend(f, x[..start], y + z, k, d, i, m - i);
    DownLayersAppend(f, y, z, k + i, d, 1, m - i - 1);
  }

  lemma ChunkOfUp(f: Butterfly, x: seq<int>, k: nat, d: nat, m: nat, i: nat, start: nat, s: nat)
    requires s == Pow2(d) && |x| == m * s && i < m && start == i * s && start + s <= |x|
    ensures UpLayers(f, x, k, d, m)[start..start + s] == UpLayers(f, x[start..start + s], k + i, d, 1)
  {
    hide UpLayers, Pow2;
    var y, z := x[start..start + s], x[start + s..];
    assert x == x[..start] + (y + z) && x[start..] == y + z;
    assert |z| == m * s - (i + 1) * s == (m - i - 1) * s;
    assert |y + z| == (m - i) * s;
    UpLayersAppend(f, x[..start], y + z, k, d, i, m - i);
    UpLayersAppend(f, y, z, k + i, d, 1, m - i - 1);
  }

  // ----- lanes

  /** Two registers, as many roots as a register has lanes. */
  function LaneLayer(g: Rooted, x: seq<int>, c: seq<int>): (r: seq<int>)
    requires |x| == 2 * |c|
    ensures |r| == |x|
    ensures forall l: nat :: l < |c| ==> r[l] == g.lo(c[l], x[l], x[|c| + l])
    ensures forall l: nat :: l < |c| ==> r[|c| + l] == g.hi(c[l], x[l], x[|c| + l])
  {
    var h := |c|;
    seq(2 * h, l requires 0 <= l < 2 * h => if l < h then g.lo(c[l], x[l], x[h + l])
         else g.hi(c[l - h], x[l - h], x[l]))
  }

  /** Lane l of the two registers holds the two elements of one butterfly of the layer with
      distance len, and c delivers its root. */
  ghost predicate AlignedLane(p: seq<nat>, c: seq<int>, z: nat -> int, len: nat, k: nat, l: nat)
    requires len > 0 && |p| == 2 * |c| && l < |c|
  {
    && p[l] + len < |p| && p[|c| + l] == p[l] + len && p[l] % (2 * len) < len
    && c[l] == z(k + p[l] / (2 * len))
  }

  /** Every lane of the layout p is aligned. */
  ghost predicate Aligned(p: seq<nat>, c: seq<int>, z: nat -> int, len: nat, k: nat)
    requires len > 0 && |p| == 2 * |c|
  {
    forall l: nat :: l < |c| ==> AlignedLane(p, c, z, len, k, l)
  }

  lemma AlignedBounds(p: seq<nat>, c: seq<int>, z: nat -> int, len: nat, k: nat)
    requires len > 0 && |p| == 2 * |c| && Aligned(p, c, z, len, k)
    ensures forall i :: 0 <= i < |p| ==> p[i] < |p|
  {
    forall i | 0 <= i < |p|
      ensures p[i] < |p|
    {
      var l: nat := if i < |c| then i else i - |c|;
      assert AlignedLane(p, c, z, len, k, l);
    }
  }

  /** A layer on permuted lanes is the layer, permuted. */
  lemma Stage(g: Rooted, z: nat -> int, w: seq<int>, p: seq<nat>, c: seq<int>, len: nat, k: nat, m: nat)
    requires len > 0 && |w| == |p| == 2 * |c| == m * (2 * len) && Aligned(p, c, z, len, k)
    ensures forall i :: 0 <= i < |p| ==> p[i] < |w|
    ensures LaneLayer(g, Gathered(w, p), c) == Gathered(Layer(ByNode(g, z), w, len, k, m), p)
  {
    hide Layer, Gathered, LaneLayer;
    AlignedBounds(p, c, z, len, k);
    var x, next := Gathered(w, p), Layer(ByNode(g, z), w, len, k, m);
    var y := LaneLayer(g, x, c);
    forall i: nat | i < |p|
      ensures y[i] == next[p[i]]
    {
      var l: nat := if i < |c| then i else i - |c|;
      assert AlignedLane(p, c, z, len, k, l);
      assert i == l || i == |c| + l;
      LayerOfPair(ByNode(g, z), w, len, k, m, p[l]);
    }
  }

  // ----- whole registers

  /** next holds at j and at j + len what the butterfly makes of prev. */
  ghost predicate PairAt(g: Rooted, root: int, prev: seq<int>, next: seq<int>, len: nat, j: nat) {
    && j + len < |prev| == |next|
    && next[j] == g.lo(root, prev[j], prev[j + len])
    && next[j + len] == g.hi(root, prev[j], prev[j + len])
  }

  /** One register butterfly: h lanes at j and the h lanes len above, one root. */
  method RegisterButterfly(g: Rooted, a: array<int>, j: nat, len: nat, h: nat, root: int)
    requires h <= len && j + len + h <= a.Length
    modifies a
    ensures forall t :: j <= t < j + h ==> PairAt(g, root, old(a[..]), a[..], len, t)
    ensures forall t :: 0 <= t < a.Length && !(j <= t < j + h) && !(j + len <= t < j + len + h) ==> a[t] == old(a[t])
  {
    ghost var was := a[..];
    for i := 0 to h
      invariant forall t :: j <= t < j + i ==> a[t] == g.lo(root, was[t], was[t + len])
      invariant forall t :: j + len <= t < j + len + i ==> a[t] == g.hi(root, was[t - len], was[t])
      invariant forall t :: 0 <= t < a.Length && !(j <= t < j + i) && !(j + len <= t < j + len + i) ==>
           a[t] == old(a[t])
    {
      var u, v := a[j + i], a[j + len + i];
      a[j + i], a[j + len + i] := g.lo(root, u, v), g.hi(root, u, v);
    }
  }

  /** The n registers from start on, each with the register n above it. */
  method RegisterBlock(g: Rooted, a: array<int>, start: nat, n: nat, h: nat, len: nat, root: int,
                       ghost prev: seq<int>, ghost next: seq<int>)
    requires h > 0 && len == n * h && start + 2 * len <= a.Length == |prev| == |next|
    requires forall t :: start <= t < start + len ==> PairAt(g, root, prev, next, len, t)
    requires forall t :: start <= t < a.Length ==> a[t] == prev[t]
    modifies a
    ensures forall t :: 0 <= t < start ==> a[t] == old(a[t])
    ensures forall t :: start <= t < start + 2 * len ==> a[t] == next[t]
    ensures forall t :: start + 2 * len <= t < a.Length ==> a[t] == prev[t]
  {
    var off := 0;
    for r := 0 to n
      invariant 0 <= off == r * h <= len
      invariant forall t :: 0 <= t < start ==> a[t] == old(a[t])
      invariant forall t :: start <= t < start + off || start + len <= t < start + len + off ==> a[t] == next[t]
      invariant forall t :: start + off <= t < start + len || start + len + off <= t < a.Length ==> a[t] == prev[t]
    {
      RegisterFits(n, h, r);
      var j := start + off;
      ghost var was := a[..];
      RegisterButterfly(g, a, j, len, h, root);
      RegisterDone(g, root, was, a[..], prev, next, len, j, h);
      off := off + h;
    }
  }

  lemma RegisterDone(g: Rooted, root: int, was: seq<int>, now: seq<int>, prev: seq<int>, next: seq<int>, len: nat,
       j: nat, h: nat)
    requires j + len + h <= |was| == |now| == |prev| == |next| && h <= len
    requires forall t :: j <= t < j + h ==> PairAt(g, root, was, now, len, t) && PairAt(g, root, prev, next, len, t)
    requires forall t :: j <= t < j + h || j + len <= t < j + len + h ==> was[t] == prev[t]
    ensures forall t :: j <= t < j + h || j + len <= t < j + len + h ==> now[t] == next[t]
  {
    forall t | j <= t < j + h || j + len <= t < j + len + h
      ensures now[t] == next[t]
    {
      var s := if t < j + h then t else t - len;
      assert PairAt(g, root, was, now, len, s) && PairAt(g, root, prev, next, len, s);
    }
  }

  lemma RegisterFits(n: nat, h: nat, r: nat)
    requires r < n
    ensures r * h + h == (r + 1) * h <= n * h && 0 <= r * h
  {
    var rest := n - (r + 1);
    assert rest * h >= 0;
    assert rest * h == n * h - (r + 1) * h;
  }

  /** A whole layer by registers; roots holds the root of each block. */
  method RegisterLayer(g: Rooted, a: array<int>, n: nat, h: nat, roots: seq<int>, ghost z: nat -> int, ghost k: nat)
    requires n > 0 && h > 0 && 0 < n * h && a.Length == |roots| * (2 * (n * h))
    requires forall b: nat :: b < |roots| ==> roots[b] == z(k + b)
    modifies a
    ensures a[..] == Layer(ByNode(g, z), old(a[..]), n * h, k, |roots|)
  {
    hide Layer;
    var len, m := n * h, |roots|;
    ghost var prev := a[..];
    ghost var next := Layer(ByNode(g, z), prev, len, k, m);
    var start := 0;
    for b := 0 to m
      invariant 0 <= start == b * (2 * len)
      invariant forall t :: 0 <= t < start <= a.Length ==> a[t] == next[t]
      invariant forall t :: start <= t < a.Length ==> a[t] == prev[t]
    {
      BlockBegins(len, m, b);
      forall t | start <= t < start + len
        ensures PairAt(g, roots[b], prev, next, len, t)
      {
        LayerPair(ByNode(g, z), prev, len, k, m, b, t - start);
      }
      RegisterBlock(g, a, start, n, h, len, roots[b], prev, next);
      start := start + 2 * len;
    }
    assert a[..] == next;
  }

  lemma BlockBegins(len: nat, m: nat, b: nat)
    requires len > 0 && b < m
    ensures 0 <= b * (2 * len) && b * (2 * len) + 2 * len == (b + 1) * (2 * len) <= m * (2 * len)
  {
    assert (b + 1) * (2 * len) == b * (2 * len) + 2 * len;
    var rest := m - (b + 1);
    assert rest * (2 * len) >= 0;
    assert rest * (2 * len) == m * (2 * len) - (b + 1) * (2 * len);
  }

  // ----- loads and stores

  method Store(a: array<int>, i: nat, w: seq<int>)
    requires i + |w| <= a.Length
    modifies a
    ensures a[..] == old(a[..i]) + w + old(a[i + |w|..])
  {
    for j := 0 to |w|
      invariant a[..i] == old(a[..i]) && a[i..i + j] == w[..j] && a[i + j..] == old(a[i + j..])
    {
      a[i + j] := w[j];
    }
    assert a[..] == a[..i] + a[i..i + |w|] + a[i + |w|..];
  }

  lemma SliceOfSlice(a: seq<int>, w: seq<int>, x: seq<int>, i: nat, j: nat)
    requires i + j + |w| <= |a| && i + |x| <= |a| && j + |w| <= |x|
    requires w == a[i + j..i + j + |w|] && x == a[i..i + |x|]
    ensures w == x[j..j + |w|]
  {
    forall t | 0 <= t < |w|
      ensures w[t] == x[j..j + |w|][t]
    {
      assert w[t] == a[i + j + t] == x[j + t];
    }
  }
}
