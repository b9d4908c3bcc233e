/** In-place transforms as the C loops run them: one layer of butterflies after the
    other over the whole array. A layer works on blocks of 2 * len elements; block b of
    the layer that starts at node k uses the table entry of node k + b. */
module Butterflies {
  import opened Polynomials
  import opened Modular
  import opened NttAlgebra

  /** What a butterfly of node k stores at j and at j + len, from the two old values. */
  datatype Butterfly = Butterfly(lo: (nat, int, int) -> int, hi: (nat, int, int) -> int)

  function Layer(f: Butterfly, a: seq<int>, len: nat, k: nat, m: nat): (r: seq<int>)
    requires len > 0 && |a| == m * (2 * len)
    ensures |r| == |a|
  {
    seq(|a|, j requires 0 <= j < |a| => LayerAt(f, a, len, k, m, j))
  }

  function LayerAt(f: Butterfly, a: seq<int>, len: nat, k: nat, m: nat, j: nat): (r: int)
    requires len > 0 && |a| == m * (2 * len) && j < |a|
  {
    BlockIndex(len, m, j);
    var b := j / (2 * len);
    if j % (2 * len) < len then f.lo(k + b, a[j], a[j + len]) else f.hi(k + b, a[j - len], a[j])
  }

  lemma BlockBounds(b: int, r: int, m: nat, l: nat)
    requires l > 0 && 0 <= r < l && 0 <= b * l + r < m * l
    ensures 0 <= b < m && 0 <= b * l && b * l + l <= m * l
  {
    assert (m - b) * l == m * l - b * l;
    MultipleBounds(b, l);
    MultipleBounds(m - b, l);
  }

  lemma BlockIndex(len: nat, m: nat, j: nat)
    requires len > 0 && j < m * (2 * len)
    ensures 0 <= j / (2 * len) < m
    ensures j % (2 * len) < len ==> j + len < m * (2 * len)
    ensures j % (2 * len) >= len ==> j >= len
  {
    var l := 2 * len;
    BlockBounds(j / l, j % l, m, l);
  }

  lemma BlockFits(len: nat, m: nat, b: nat)
    requires len > 0 && b <= m && b * (2 * len) < m * (2 * len)
    ensures b < m && (b + 1) * (2 * len) == b * (2 * len) + 2 * len <= m * (2 * len)
  {
    var l := 2 * len;
    assert (b + 1) * l == b * l + l && (m - b) * l == m * l - b * l;
    MultipleBounds(m - b, l);
  }

  lemma MultipleOnce(b: nat, m: nat, l: nat)
    requires l > 0 && b <= m && b * l >= m * l
    ensures b == m
  {
    MultipleBounds(m - b, l);
    assert (m - b) * l == m * l - b * l;
  }

  lemma BlockOf(len: nat, b: nat, i: nat)
    requires i < 2 * len
    ensures (b * (2 * len) + i) / (2 * len) == b && (b * (2 * len) + i) % (2 * len) == i
  {
    QuotientRemainder(2 * len, b, i);
  }

  lemma PairIndex(len: nat, m: nat, b: nat, i: nat)
    requires len > 0 && b < m && i < len
    ensures 0 <= b * (2 * len) + i && b * (2 * len) + i + len < m * (2 * len)
  {
    assert (b + 1) * (2 * len) <= m * (2 * len);
    assert (b + 1) * (2 * len) == b * (2 * len) + 2 * len;
  }

  /** The two elements that butterfly i of block b reads and writes. */
  lemma LayerPair(f: Butterfly, a: seq<int>, len: nat, k: nat, m: nat, b: nat, i: nat)
    requires len > 0 && |a| == m * (2 * len) && b < m && i < len
    ensures var j := b * (2 * len) + i;
      && 0 <= j && j + len < |a|
      && Layer(f, a, len, k, m)[j] == f.lo(k + b, a[j], a[j + len])
      && Layer(f, a, len, k, m)[j + len] == f.hi(k + b, a[j], a[j + len])
  {
    PairIndex(len, m, b, i);
    var j, l := b * (2 * len) + i, 2 * len;
    BlockOf(len, b, i);
    BlockOf(len, b, i + len);
    assert j / l == b && (j + len) / l == b;
    assert Layer(f, a, len, k, m)[j + len] == LayerAt(f, a, len, k, m, j + len);
  }

  /** The layers from node k down, blocks of length Pow2(d) first. */
  function DownLayers(f: Butterfly, a: seq<int>, k: nat, d: nat, m: nat): (r: seq<int>)
    requires |a| == m * Pow2(d)
    ensures |r| == |a|
    decreases d
  {
    if d == 0 then a else DownLayers(f, Layer(f, a, Pow2(d - 1), k, m), 2 * k, d - 1, 2 * m)
  }

  /** The layers up to node k, blocks of length Pow2(d) last. */
  function UpLayers(f: Butterfly, a: seq<int>, k: nat, d: nat, m: nat): (r: seq<int>)
    requires |a| == m * Pow2(d)
    ensures |r| == |a|
    decreases d
  {
    if d == 0 then a else Layer(f, UpLayers(f, a, 2 * k, d - 1, 2 * m), Pow2(d - 1), k, m)
  }

  // ----- the same transforms one node at a time

  function Half(g: (nat, int, int) -> int, p: seq<int>, h: nat, k: nat): (r: seq<int>)
    requires |p| == 2 * h
    ensures |r| == h
    ensures forall i :: 0 <= i < h ==> r[i] == g(k, p[i], p[h + i])
  {
    seq(h, i requires 0 <= i < h => g(k, p[i], p[h + i]))
  }

  function Down(f: Butterfly, p: seq<int>, k: nat, d: nat): (r: seq<int>)
    requires |p| == Pow2(d)
    ensures |r| == |p|
    decreases d
  {
    if d == 0 then p
    else
      var h := Pow2(d - 1);
      Down(f, Half(f.lo, p, h, k), 2 * k, d - 1) + Down(f, Half(f.hi, p, h, k), 2 * k + 1, d - 1)
  }

  function Up(f: Butterfly, p: seq<int>, k: nat, d: nat): (r: seq<int>)
    requires |p| == Pow2(d)
    ensures |r| == |p|
    decreases d
  {
    if d == 0 then p
    else
      var h := Pow2(d - 1);
      var s := Up(f, p[..h], 2 * k, d - 1) + Up(f, p[h..], 2 * k + 1, d - 1);
      Half(f.lo, s, h, k) + Half(f.hi, s, h, k)
  }

  lemma SuffixIndex(l: nat, m: nat, i: nat)
    requires l > 0
    ensures (m * l + i) / l == m + i / l
    ensures (m * l + i) % l == i % l
  {
    var b, r := i / l, i % l;
    assert m * l + i == (m + b) * l + r;
    QuotientRemainder(l, m + b, r);
  }

  lemma LayerPrefix(f: Butterfly, x: seq<int>, y: seq<int>, len: nat, k: nat, m: nat, n: nat)
    requires len > 0 && |x| == m * (2 * len) && |y| == n * (2 * len) && |x + y| == (m + n) * (2 * len)
    ensures forall j :: 0 <= j < |x| ==> LayerAt(f, x + y, len, k, m + n, j) == LayerAt(f, x, len, k, m, j)
  {
    forall j | 0 <= j < |x|
      ensures LayerAt(f, x + y, len, k, m + n, j) == LayerAt(f, x, len, k, m, j)
    {
      BlockIndex(len, m, j);
    }
  }

  lemma LayerSuffix(f: Butterfly, x: seq<int>, y: seq<int>, s: seq<int>, len: nat, k: nat, m: nat, n: nat, t: nat)
    requires len > 0 && |x| == m * (2 * len) && |y| == n * (2 * len) && s == x + y && t == m + n && |s| == t * (2 * len)
    ensures forall j :: |x| <= j < |s| ==> LayerAt(f, s, len, k, t, j) == LayerAt(f, y, len, k + m, n, j - |x|)
  {
    forall j | |x| <= j < |s|
      ensures LayerAt(f, s, len, k, t, j) == LayerAt(f, y, len, k + m, n, j - |x|)
    {
      var i := j - |x|;
      BlockIndex(len, n, i);
      SuffixIndex(2 * len, m, i);
      assert k + (m + i / (2 * len)) == k + m + i / (2 * len);
    }
  }

  lemma LayerAppend(f: Butterfly, x: seq<int>, y: seq<int>, len: nat, k: nat, m: nat, n: nat)
    requires len > 0 && |x| == m * (2 * len) && |y| == n * (2 * len)
    ensures |x + y| == (m + n) * (2 * len)
    ensures Layer(f, x + y, len, k, m + n) == Layer(f, x, len, k, m) + Layer(f, y, len, k + m, n)
  {
    assert (m + n) * (2 * len) == m * (2 * len) + n * (2 * len);
    LayerPrefix(f, x, y, len, k, m, n);
    LayerSuffix(f, x, y, x + y, len, k, m, n, m + n);
    hide LayerAt;
    var s := Layer(f, x + y, len, k, m + n);
    assert forall j :: 0 <= j < |x| ==> s[j] == Layer(f, x, len, k, m)[j];
    assert forall j :: |x| <= j < |s| ==> s[j] == Layer(f, y, len, k + m, n)[j - |x|];
  }

  lemma LayerBlock(f: Butterfly, p: seq<int>, h: nat, k: nat)
    requires h > 0 && |p| == 2 * h
    ensures Layer(f, p, h, k, 1) == Half(f.lo, p, h, k) + Half(f.hi, p, h, k)
  {
    forall j | 0 <= j < |p|
      ensures LayerAt(f, p, h, k, 1, j) == (Half(f.lo, p, h, k) + Half(f.hi, p, h, k))[j]
    {
      BlockOf(h, 0, j);
    }
  }

  lemma {:induction false} DownLayersAppend(f: Butterfly, x: seq<int>, y: seq<int>, k: nat, d: nat, m: nat, n: nat)
    requires |x| == m * Pow2(d) && |y| == n * Pow2(d)
    ensures |x + y| == (m + n) * Pow2(d)
    ensures DownLayers(f, x + y, k, d, m + n) == DownLayers(f, x, k, d, m) + DownLayers(f, y, k + m, d, n)
    decreases d
  {
    assert (m + n) * Pow2(d) == m * Pow2(d) + n * Pow2(d);
    if d > 0 {
      var h := Pow2(d - 1);
      LayerAppend(f, x, y, h, k, m, n);
      DownLayersAppend(f, Layer(f, x, h, k, m), Layer(f, y, h, k + m, n), 2 * k, d - 1, 2 * m, 2 * n);
    }
  }

  lemma {:induction false} DownLayersIsDown(f: Butterfly, p: seq<int>, k: nat, d: nat)
    requires |p| == Pow2(d)
    ensures DownLayers(f, p, k, d, 1) == Down(f, p, k, d)
    decreases d
  {
    if d > 0 {
      var h := Pow2(d - 1);
      var lo, hi := Half(f.lo, p, h, k), Half(f.hi, p, h, k);
      LayerBlock(f, p, h, k);
      DownLayersAppend(f, lo, hi, 2 * k, d - 1, 1, 1);
      DownLayersIsDown(f, lo, 2 * k, d - 1);
      DownLayersIsDown(f, hi, 2 * k + 1, d - 1);
    }
  }

  lemma {:induction false} UpLayersAppend(f: Butterfly, x: seq<int>, y: seq<int>, k: nat, d: nat, m: nat, n: nat)
    requires |x| == m * Pow2(d) && |y| == n * Pow2(d)
    ensures |x + y| == (m + n) * Pow2(d)
    ensures UpLayers(f, x + y, k, d, m + n) == UpLayers(f, x, k, d, m) + UpLayers(f, y, k + m, d, n)
    decreases d
  {
    hide Layer;
    assert (m + n) * Pow2(d) == m * Pow2(d) + n * Pow2(d);
    if d > 0 {
      UpLayersAppend(f, x, y, 2 * k, d - 1, 2 * m, 2 * n);
      assert 2 * k + 2 * m == 2 * (k + m) && 2 * m + 2 * n == 2 * (m + n);
      LayerAppend(f, UpLayers(f, x, 2 * k, d - 1, 2 * m), UpLayers(f, y, 2 * (k + m), d - 1, 2 * n), Pow2(d - 1), k, m,
           n);
    }
  }

  lemma {:induction false} UpLayersIsUp(f: Butterfly, p: seq<int>, k: nat, d: nat)
    requires |p| == Pow2(d)
    ensures UpLayers(f, p, k, d, 1) == Up(f, p, k, d)
    decreases d
  {
    hide Layer, Half;
    if d > 0 {
      var h := Pow2(d - 1);
      var u, v := Up(f, p[..h], 2 * k, d - 1), Up(f, p[h..], 2 * k + 1, d - 1);
      assert p == p[..h] + p[h..];
      UpLayersAppend(f, p[..h], p[h..], 2 * k, d - 1, 1, 1);
      UpLayersIsUp(f, p[..h], 2 * k, d - 1);
      UpLayersIsUp(f, p[h..], 2 * k + 1, d - 1);
      assert UpLayers(f, p, 2 * k, d - 1, 2) == u + v;
      LayerBlock(f, u + v, h, k);
    }
  }

  // ----- butterflies that compute the transform modulo q, and how large the values get

  ghost predicate ForwardOk(f: Butterfly, w: nat -> int, before: int, after: int, q: int)
    requires q > 0
  {
    forall k: nat, u: int, v: int :: -before <= u <= before && -before <= v <= before ==>
      && Cong(f.lo(k, u, v), Comb(1, u, w(k), v), q) && -after <= f.lo(k, u, v) <= after
      && Cong(f.hi(k, u, v), Comb(1, u, -w(k), v), q) && -after <= f.hi(k, u, v) <= after
  }

  ghost predicate InverseOk(f: Butterfly, iw: nat -> int, before: int, after: int, q: int)
    requires q > 0
  {
    forall k: nat, u: int, v: int :: -before <= u <= before && -before <= v <= before ==>
      && Cong(f.lo(k, u, v), u + v, q) && -after <= f.lo(k, u, v) <= after
      && Cong(f.hi(k, u, v), Prod(iw(k), u - v), q) && -after <= f.hi(k, u, v) <= after
  }

  /** bound(d) limits the values that enter the last d layers. */
  ghost predicate DownOk(f: Butterfly, w: nat -> int, bound: nat -> int, d: nat, q: int)
    requires q > 0
  {
    forall e: nat :: e < d ==> ForwardOk(f, w, bound(e + 1), bound(e), q)
  }

  /** bound(d) limits the values that leave the first d layers. */
  ghost predicate UpOk(f: Butterfly, iw: nat -> int, bound: nat -> int, d: nat, q: int)
    requires q > 0
  {
    forall e: nat :: e < d ==> InverseOk(f, iw, bound(e), bound(e + 1), q)
  }

  lemma LayerForward(f: Butterfly, w: nat -> int, a: seq<int>, len: nat, k: nat, m: nat, before: int, after: int,
       q: int)
    requires q > 0 && len > 0 && |a| == m * (2 * len) && Within(a, before) && ForwardOk(f, w, before, after, q)
    ensures Within(Layer(f, a, len, k, m), after)
  {
    forall j | 0 <= j < |a|
      ensures -after <= LayerAt(f, a, len, k, m, j) <= after
    {
      BlockIndex(len, m, j);
    }
  }

  lemma LayerInverse(f: Butterfly, iw: nat -> int, a: seq<int>, len: nat, k: nat, m: nat, before: int, after: int,
       q: int)
    requires q > 0 && len > 0 && |a| == m * (2 * len) && Within(a, before) && InverseOk(f, iw, before, after, q)
    ensures Within(Layer(f, a, len, k, m), after)
  {
    forall j | 0 <= j < |a|
      ensures -after <= LayerAt(f, a, len, k, m, j) <= after
    {
      BlockIndex(len, m, j);
    }
  }

  lemma HalvesForward(f: Butterfly, w: nat -> int, p: seq<int>, h: nat, k: nat, before: int, after: int, q: int)
    requires q > 0 && |p| == 2 * h && Within(p, before) && ForwardOk(f, w, before, after, q)
    ensures CongSeq(Half(f.lo, p, h, k), Child(p, h, w(k)), q) && Within(Half(f.lo, p, h, k), after)
    ensures CongSeq(Half(f.hi, p, h, k), Child(p, h, -w(k)), q) && Within(Half(f.hi, p, h, k), after)
  {
    hide Cong, Comb;
  }

  lemma TransSeq(x: seq<int>, y: seq<int>, z: seq<int>, q: int)
    requires q > 0 && CongSeq(x, y, q) && CongSeq(y, z, q)
    ensures CongSeq(x, z, q)
  {
    hide Cong;
    forall i | 0 <= i < |x|
      ensures Cong(x[i], z[i], q)
    {
      Trans(x[i], y[i], z[i], q);
    }
  }

  lemma ReflSeq(x: seq<int>, q: int)
    requires q > 0
    ensures CongSeq(x, x, q)
  {
    forall i | 0 <= i < |x|
      ensures Cong(x[i], x[i], q)
    {
      Refl(x[i], q);
    }
  }

  lemma WithinAppend(x: seq<int>, y: seq<int>, b: int)
    requires Within(x, b) && Within(y, b)
    ensures Within(x + y, b)
  {
  }

  lemma FwdNode(w: nat -> int, p: seq<int>, k: nat, d: nat)
    requires d > 0 && |p| == Pow2(d)
    ensures Pow2(d) == 2 * Pow2(d - 1)
    ensures var h := Pow2(d - 1);
      Fwd(w, p, k, d) == Fwd(w, Child(p, h, w(k)), 2 * k, d - 1) + Fwd(w, Child(p, h, -w(k)), 2 * k + 1, d - 1)
  {
  }

  lemma DownNode(f: Butterfly, p: seq<int>, k: nat, d: nat)
    requires d > 0 && |p| == Pow2(d)
    ensures Pow2(d) == 2 * Pow2(d - 1)
    ensures var h := Pow2(d - 1);
      Down(f, p, k, d) == Down(f, Half(f.lo, p, h, k), 2 * k, d - 1) + Down(f, Half(f.hi, p, h, k), 2 * k + 1, d - 1)
  {
  }

  lemma {:induction false} DownIsFwd(f: Butterfly, w: nat -> int, bound: nat -> int, p: seq<int>, k: nat, d: nat,
       q: int)
    requires q > 0 && |p| == Pow2(d) && Within(p, bound(d)) && DownOk(f, w, bound, d, q)
    ensures CongSeq(Down(f, p, k, d), Fwd(w, p, k, d), q)
    ensures Within(Down(f, p, k, d), bound(0))
    decreases d
  {
    if d == 0 {
      ReflSeq(p, q);
    } else {
      var h := Pow2(d - 1);
      FwdNode(w, p, k, d);
      DownNode(f, p, k, d);
      hide CongSeq, Within, Half, Child, ForwardOk, Fwd, Down, Pow2;
      assert ForwardOk(f, w, bound((d - 1) + 1), bound(d - 1), q);
      HalvesForward(f, w, p, h, k, bound(d), bound(d - 1), q);
      var lo, hi := Half(f.lo, p, h, k), Half(f.hi, p, h, k);
      var x, y := Child(p, h, w(k)), Child(p, h, -w(k));
      DownIsFwd(f, w, bound, lo, 2 * k, d - 1, q);
      DownIsFwd(f, w, bound, hi, 2 * k + 1, d - 1, q);
      Branch(w, Down(f, lo, 2 * k, d - 1), lo, x, 2 * k, d - 1, q);
      Branch(w, Down(f, hi, 2 * k + 1, d - 1), hi, y, 2 * k + 1, d - 1, q);
      Branches(Down(f, lo, 2 * k, d - 1), Fwd(w, x, 2 * k, d - 1), Down(f, hi, 2 * k + 1, d - 1),
           Fwd(w, y, 2 * k + 1, d - 1), bound(0), q);
    }
  }

  lemma Branches(r: seq<int>, x: seq<int>, s: seq<int>, y: seq<int>, b: int, q: int)
    requires q > 0 && CongSeq(r, x, q) && CongSeq(s, y, q) && Within(r, b) && Within(s, b)
    ensures CongSeq(r + s, x + y, q) && Within(r + s, b)
  {
    hide CongSeq;
    AppendCong(r, x, s, y, q);
    WithinAppend(r, s, b);
  }

  lemma Branch(w: nat -> int, r: seq<int>, x: seq<int>, y: seq<int>, k: nat, d: nat, q: int)
    requires q > 0 && |x| == |y| == Pow2(d) && CongSeq(x, y, q) && CongSeq(r, Fwd(w, x, k, d), q)
    ensures CongSeq(r, Fwd(w, y, k, d), q)
  {
    hide CongSeq, Fwd, Pow2;
    FwdCong(w, x, y, k, d, q);
    TransSeq(r, Fwd(w, x, k, d), Fwd(w, y, k, d), q);
  }

  lemma InverseAt(f: Butterfly, iw: nat -> int, k: nat, x: int, y: int, before: int, after: int, q: int)
    requires q > 0 && InverseOk(f, iw, before, after, q) && -before <= x <= before && -before <= y <= before
    ensures Cong(f.lo(k, x, y), x + y, q) && -after <= f.lo(k, x, y) <= after
    ensures Cong(f.hi(k, x, y), Prod(iw(k), x - y), q) && -after <= f.hi(k, x, y) <= after
  {
    hide Cong, Prod;
  }

  lemma HalvesInverse(f: Butterfly, iw: nat -> int, u: seq<int>, v: seq<int>, k: nat, before: int, after: int, q: int)
    requires q > 0 && |u| == |v| && Within(u, before) && Within(v, before) && InverseOk(f, iw, before, after, q)
    ensures CongSeq(Half(f.lo, u + v, |u|, k) + Half(f.hi, u + v, |u|, k), Join(iw(k), u, v), q)
    ensures Within(Half(f.lo, u + v, |u|, k) + Half(f.hi, u + v, |u|, k), after)
  {
    hide Cong, Prod, InverseOk, Half, Join;
    var h, s := |u|, u + v;
    var lo, hi, r := Half(f.lo, s, h, k), Half(f.hi, s, h, k), Join(iw(k), u, v);
    forall i | 0 <= i < h
      ensures Cong(lo[i], r[i], q) && Cong(hi[i], r[h + i], q)
      ensures -after <= lo[i] <= after && -after <= hi[i] <= after
    {
      assert s[i] == u[i] && s[h + i] == v[i];
      InverseAt(f, iw, k, u[i], v[i], before, after, q);
      assert r[h + i] == Prod(iw(k), u[i] - v[i]);
    }
    HalvesTogether(lo, hi, r, after, q);
  }

  lemma HalvesTogether(lo: seq<int>, hi: seq<int>, r: seq<int>, after: int, q: int)
    requires q > 0 && |lo| == |hi| && |r| == 2 * |lo|
    requires forall i :: 0 <= i < |lo| ==> Cong(lo[i], r[i], q) && Cong(hi[i], r[|lo| + i], q)
    requires forall i :: 0 <= i < |lo| ==> -after <= lo[i] <= after && -after <= hi[i] <= after
    ensures CongSeq(lo + hi, r, q) && Within(lo + hi, after)
  {
    hide Cong;
    forall j | 0 <= j < |r|
      ensures Cong((lo + hi)[j], r[j], q) && -after <= (lo + hi)[j] <= after
    {
      if j >= |lo| {
        var i := j - |lo|;
        assert (lo + hi)[j] == hi[i] && r[j] == r[|lo| + i];
      }
    }
  }

  lemma {:induction false} UpIsInv(f: Butterfly, iw: nat -> int, bound: nat -> int, p: seq<int>, k: nat, d: nat, q: int)
    requires q > 0 && |p| == Pow2(d) && Within(p, bound(0)) && UpOk(f, iw, bound, d, q)
    ensures CongSeq(Up(f, p, k, d), Inv(iw, p, k, d), q)
    ensures Within(Up(f, p, k, d), bound(d))
    decreases d
  {
    if d == 0 {
      ReflSeq(p, q);
    } else {
      hide CongSeq, Half, Join, InverseOk;
      var h := Pow2(d - 1);
      assert InverseOk(f, iw, bound(d - 1), bound((d - 1) + 1), q);
      UpIsInv(f, iw, bound, p[..h], 2 * k, d - 1, q);
      UpIsInv(f, iw, bound, p[h..], 2 * k + 1, d - 1, q);
      var u, v := Up(f, p[..h], 2 * k, d - 1), Up(f, p[h..], 2 * k + 1, d - 1);
      HalvesInverse(f, iw, u, v, k, bound(d - 1), bound(d), q);
      JoinCong(iw(k), u, Inv(iw, p[..h], 2 * k, d - 1), v, Inv(iw, p[h..], 2 * k + 1, d - 1), q);
      TransSeq(Up(f, p, k, d), Join(iw(k), u, v), Inv(iw, p, k, d), q);
    }
  }
}
