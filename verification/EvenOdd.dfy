/** The coefficients at even and at odd positions. ML-KEM stops its transform at pairs, so
    it transforms the two halves separately and multiplies pairs at the end. */
module EvenOdd {
  import opened Polynomials
  import opened Modular
  import opened NttAlgebra
  import opened Butterflies

  function Evens(a: seq<int>): (r: seq<int>)
    requires |a| % 2 == 0
    ensures |r| == |a| / 2 && forall i :: 0 <= i < |r| ==> r[i] == a[2 * i]
  {
    seq(|a| / 2, i requires 0 <= i < |a| / 2 => a[2 * i])
  }

  function Odds(a: seq<int>): (r: seq<int>)
    requires |a| % 2 == 0
    ensures |r| == |a| / 2 && forall i :: 0 <= i < |r| ==> r[i] == a[2 * i + 1]
  {
    seq(|a| / 2, i requires 0 <= i < |a| / 2 => a[2 * i + 1])
  }

  function Interleave(e: seq<int>, o: seq<int>): (r: seq<int>)
    requires |e| == |o|
    ensures |r| == 2 * |e|
    ensures forall i :: 0 <= i < |r| ==> r[i] == if i % 2 == 0 then e[i / 2] else o[i / 2]
  {
    seq(2 * |e|, i requires 0 <= i < 2 * |e| => if i % 2 == 0 then e[i / 2] else o[i / 2])
  }

  lemma InterleaveParts(a: seq<int>)
    requires |a| % 2 == 0
    ensures Interleave(Evens(a), Odds(a)) == a
  {
  }

  lemma PartsOfInterleave(e: seq<int>, o: seq<int>)
    requires |e| == |o|
    ensures Evens(Interleave(e, o)) == e && Odds(Interleave(e, o)) == o
  {
    forall i | 0 <= i < |e|
      ensures Evens(Interleave(e, o))[i] == e[i] && Odds(Interleave(e, o))[i] == o[i]
    {
      assert (2 * i) / 2 == i && (2 * i + 1) / 2 == i && (2 * i) % 2 == 0 && (2 * i + 1) % 2 == 1;
    }
  }

  // ----- a layer with an even distance works on the two halves alike

  lemma DoubledIndex(len: nat, m: nat, i: nat, p: nat)
    requires len > 0 && i < m * (2 * len) && p < 2
    ensures var j := 2 * i + p; var big := 2 * len;
      && 0 <= j < m * (2 * big)
      && j / (2 * big) == i / (2 * len)
      && (j % (2 * big) < big <==> i % (2 * len) < len)
  {
    var b, r := i / (2 * len), i % (2 * len);
    assert i == b * (2 * len) + r;
    assert 2 * i + p == b * (4 * len) + (2 * r + p);
    QuotientRemainder(4 * len, b, 2 * r + p);
    assert m * (2 * (2 * len)) == 2 * (m * (2 * len));
  }

  lemma HalfLength(len: nat, m: nat, n: nat)
    requires n == m * (2 * (2 * len))
    ensures n % 2 == 0 && n / 2 == m * (2 * len)
  {
    assert n == 2 * (m * (2 * len));
  }

  lemma LayerParts(f: Butterfly, a: seq<int>, len: nat, k: nat, m: nat)
    requires len > 0 && |a| == m * (2 * (2 * len))
    ensures |a| % 2 == 0 && |a| / 2 == m * (2 * len)
    ensures Evens(Layer(f, a, 2 * len, k, m)) == Layer(f, Evens(a), len, k, m)
    ensures Odds(Layer(f, a, 2 * len, k, m)) == Layer(f, Odds(a), len, k, m)
  {
    HalfLength(len, m, |a|);
    var n := |a| / 2;
    forall i | 0 <= i < n
      ensures LayerAt(f, a, 2 * len, k, m, 2 * i) == LayerAt(f, Evens(a), len, k, m, i)
    {
      DoubledAt(f, a, len, k, m, i, 0);
    }
    forall i | 0 <= i < n
      ensures LayerAt(f, a, 2 * len, k, m, 2 * i + 1) == LayerAt(f, Odds(a), len, k, m, i)
    {
      DoubledAt(f, a, len, k, m, i, 1);
    }
    hide LayerAt;
    forall i | 0 <= i < n
      ensures Evens(Layer(f, a, 2 * len, k, m))[i] == Layer(f, Evens(a), len, k, m)[i]
      ensures Odds(Layer(f, a, 2 * len, k, m))[i] == Layer(f, Odds(a), len, k, m)[i]
    {
      assert LayerAt(f, a, 2 * len, k, m, 2 * i) == LayerAt(f, Evens(a), len, k, m, i);
      assert LayerAt(f, a, 2 * len, k, m, 2 * i + 1) == LayerAt(f, Odds(a), len, k, m, i);
    }
  }

  lemma DoubledAt(f: Butterfly, a: seq<int>, len: nat, k: nat, m: nat, i: nat, p: nat)
    requires len > 0 && |a| == m * (2 * (2 * len)) && |a| % 2 == 0 && i < |a| / 2 == m * (2 * len) && p < 2
    ensures LayerAt(f, a, 2 * len, k, m, 2 * i + p) == LayerAt(f, if p == 0 then Evens(a) else Odds(a), len, k, m, i)
  {
    hide LayerAt;
    DoubledIndex(len, m, i, p);
    DoubledParts(f, a, if p == 0 then Evens(a) else Odds(a), len, k, m, i, 2 * i + p, p);
  }

  lemma DoubledParts(f: Butterfly, a: seq<int>, h: seq<int>, len: nat, k: nat, m: nat, i: nat, j: nat, p: nat)
    requires len > 0 && |a| == m * (2 * (2 * len)) && |h| == m * (2 * len) && i < |h| && j == 2 * i + p < |a|
    requires j / (2 * (2 * len)) == i / (2 * len) && (j % (2 * (2 * len)) < 2 * len <==> i % (2 * len) < len)
    requires forall t :: 0 <= t < |h| ==> 2 * t + p < |a| && h[t] == a[2 * t + p]
    ensures LayerAt(f, a, 2 * len, k, m, j) == LayerAt(f, h, len, k, m, i)
  {
    BlockIndex(len, m, i);
    assert h[i] == a[j];
    if i % (2 * len) < len {
      var i' := i + len;
      assert 2 * i' + p == j + 2 * len && h[i'] == a[2 * i' + p];
    } else {
      var i' := i - len;
      assert 2 * i' + p == j - 2 * len && h[i'] == a[2 * i' + p];
    }
  }

  // ----- the product of X^2n + 1 in terms of the halves

  lemma ShiftParts(p: seq<int>)
    requires |p| % 2 == 0 && p != []
    ensures Evens(Shift(p)) == Shift(Odds(p)) && Odds(Shift(p)) == Evens(p)
  {
  }

  lemma LinParts(a: int, x: seq<int>, b: int, y: seq<int>)
    requires |x| == |y| && |x| % 2 == 0
    ensures Evens(Lin(a, x, b, y)) == Lin(a, Evens(x), b, Evens(y))
    ensures Odds(Lin(a, x, b, y)) == Lin(a, Odds(x), b, Odds(y))
  {
    hide Comb;
  }

  lemma ShiftLin(a: int, x: seq<int>, b: int, y: seq<int>)
    requires |x| == |y| && x != []
    ensures Shift(Lin(a, x, b, y)) == Lin(a, Shift(x), b, Shift(y))
  {
  }

  lemma FirstPair(a: seq<int>)
    requires |a| % 2 == 0 && a != []
    ensures |a[2..]| % 2 == 0 && Evens(a) == [a[0]] + Evens(a[2..]) && Odds(a) == [a[1]] + Odds(a[2..])
  {
  }

  lemma NoPair(a: seq<int>)
    requires a == []
    ensures Evens(a) == [] && Odds(a) == []
  {
  }

  /** Two steps of Horner's rule are one step on the halves. */
  lemma {:induction false} HornerParts(a: seq<int>, b: seq<int>)
    requires |a| % 2 == 0 && |b| % 2 == 0 && b != []
    ensures Evens(Horner(a, b)) == Lin(1, Horner(Evens(a), Evens(b)), 1, Shift(Horner(Odds(a), Odds(b))))
    ensures Odds(Horner(a, b)) == Lin(1, Horner(Evens(a), Odds(b)), 1, Horner(Odds(a), Evens(b)))
  {
    hide *;
    if a == [] {
      HornerOfNothing(b);
      NoPair(a);
    } else {
      var c := a[2..];
      HornerParts(c, b);
      FirstPair(a);
      HornerTwice(a, b);
      HornerPartsStep(a[0], a[1], b, Horner(c, b), Evens(c), Odds(c), Horner(a, b));
    }
  }

  function Zeros(n: nat): (r: seq<int>)
    ensures |r| == n && forall i :: 0 <= i < n ==> r[i] == 0
  {
    seq(n, i => 0)
  }

  lemma HornerEmpty(b: seq<int>)
    requires b != []
    ensures Horner([], b) == Zeros(|b|)
  {
    assert forall i :: 0 <= i < |b| ==> Times(0, b)[i] == 0;
  }

  lemma HornerOfNothing(b: seq<int>)
    requires |b| % 2 == 0 && b != []
    ensures Evens(Horner([], b)) == Lin(1, Horner([], Evens(b)), 1, Shift(Horner([], Odds(b))))
    ensures Odds(Horner([], b)) == Lin(1, Horner([], Odds(b)), 1, Horner([], Evens(b)))
  {
    hide *;
    HornerEmpty(b);
    HornerEmpty(Evens(b));
    HornerEmpty(Odds(b));
    ZeroParts(|b| / 2);
    ZeroShift(|b| / 2);
    ZeroSum(|b| / 2);
  }

  lemma ZeroParts(n: nat)
    requires n > 0
    ensures Evens(Zeros(2 * n)) == Zeros(n) && Odds(Zeros(2 * n)) == Zeros(n)
  {
  }

  lemma ZeroShift(n: nat)
    requires n > 0
    ensures Shift(Zeros(n)) == Zeros(n)
  {
  }

  lemma ZeroSum(n: nat)
    ensures Lin(1, Zeros(n), 1, Zeros(n)) == Zeros(n)
  {
  }

  lemma HornerTwice(a: seq<int>, b: seq<int>)
    requires |a| >= 2 && b != []
    ensures Horner(a, b) == Lin(a[0], b, 1, Shift(Lin(a[1], b, 1, Shift(Horner(a[2..], b)))))
  {
    assert a[1..][1..] == a[2..];
  }

  lemma HornerOnce(x: int, a: seq<int>, b: seq<int>)
    requires b != []
    ensures Horner([x] + a, b) == Lin(x, b, 1, Shift(Horner(a, b)))
  {
    assert ([x] + a)[1..] == a;
  }

  lemma HornerPartsStep(x: int, y: int, b: seq<int>, r: seq<int>, ce: seq<int>, co: seq<int>, s: seq<int>)
    requires |b| % 2 == 0 && b != [] && |r| == |b|
    requires s == Lin(x, b, 1, Shift(Lin(y, b, 1, Shift(r))))
    requires Evens(r) == Lin(1, Horner(ce, Evens(b)), 1, Shift(Horner(co, Odds(b))))
    requires Odds(r) == Lin(1, Horner(ce, Odds(b)), 1, Horner(co, Evens(b)))
    ensures Evens(s) == Lin(1, Horner([x] + ce, Evens(b)), 1, Shift(Horner([y] + co, Odds(b))))
    ensures Odds(s) == Lin(1, Horner([x] + ce, Odds(b)), 1, Horner([y] + co, Evens(b)))
  {
    hide Horner, Comb;
    var be, bo := Evens(b), Odds(b);
    var u := Lin(y, b, 1, Shift(r));
    ShiftParts(r);
    LinParts(y, b, 1, Shift(r));
    ShiftParts(u);
    LinParts(x, b, 1, Shift(u));
    HornerOnce(x, ce, be);
    HornerOnce(x, ce, bo);
    HornerOnce(y, co, be);
    HornerOnce(y, co, bo);
    var ee, oo, eo, oe := Horner(ce, be), Horner(co, bo), Horner(ce, bo), Horner(co, be);
    ShiftLin(1, ee, 1, Shift(oo));
    ShiftLin(y, bo, 1, Shift(oo));
    ShiftLin(y, bo, 1, Evens(r));
    assert Evens(s) == Lin(x, be, 1, Lin(y, Shift(bo), 1, Shift(Evens(r))));
    RegroupThree(x, be, y, Shift(bo), Shift(ee), Shift(Shift(oo)));
    ShiftLin(1, eo, 1, oe);
    assert Odds(s) == Lin(x, bo, 1, Lin(y, be, 1, Shift(Odds(r))));
    RegroupThree(x, bo, y, be, Shift(eo), Shift(oe));
  }

  lemma RegroupThree(x: int, p: seq<int>, y: int, q: seq<int>, u: seq<int>, v: seq<int>)
    requires |p| == |q| == |u| == |v|
    ensures Lin(x, p, 1, Lin(y, q, 1, Lin(1, u, 1, v))) == Lin(1, Lin(x, p, 1, u), 1, Lin(y, q, 1, v))
  {
  }

  /** The product modulo X^2n + 1, half by half, from four products modulo Y^n + 1. */
  lemma ProductParts(a: seq<int>, b: seq<int>)
    requires |a| == |b| && |a| % 2 == 0 && a != []
    ensures Evens(Product(a, b)) == Lin(1, Product(Evens(a), Evens(b)), 1, Shift(Product(Odds(a), Odds(b))))
    ensures Odds(Product(a, b)) == Lin(1, Product(Evens(a), Odds(b)), 1, Product(Odds(a), Evens(b)))
  {
    hide Horner, Product, Comb;
    HornerParts(a, b);
    HornerIsProduct(a, b);
    HornerIsProduct(Evens(a), Evens(b));
    HornerIsProduct(Evens(a), Odds(b));
    HornerIsProduct(Odds(a), Evens(b));
    HornerIsProduct(Odds(a), Odds(b));
  }
}
