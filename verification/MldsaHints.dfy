/** tools/pqc/mldsa/mldsa.c: the hint part of a signature. omega position bytes, the
    unused ones zero, then for each polynomial the number of positions used so far. */
module MldsaHints {
  import opened Polynomials
  import opened Words

  predicate IsHints(h: seq<Poly>) {
    forall i :: 0 <= i < |h| ==> |h[i]| == N && forall j :: 0 <= j < N ==> h[i][j] == 0 || h[i][j] == 1
  }

  /** The positions below j of the nonzero coefficients of p, in order. */
  function Positions(p: Poly, j: nat): (r: seq<byte>)
    requires j <= |p| == N
    ensures |r| <= j
  {
    if j == 0 then [] else Positions(p, j - 1) + (if p[j - 1] != 0 then [ByteOf(j - 1)] else [])
  }

  function Flat(h: seq<Poly>, i: nat): (r: seq<byte>)
    requires i <= |h| && forall n :: 0 <= n < |h| ==> |h[n]| == N
  {
    if i == 0 then [] else Flat(h, i - 1) + Positions(h[i - 1], N)
  }

  /** A hint vector that fits: coefficients 0 and 1, at most omega of them 1. */
  predicate Fits(h: seq<Poly>, omega: nat) {
    IsHints(h) && |Flat(h, |h|)| <= omega
  }

  lemma {:induction false} FlatPrefix(h: seq<Poly>, i: nat, n: nat)
    requires i <= n <= |h| && forall m :: 0 <= m < |h| ==> |h[m]| == N
    ensures |Flat(h, i)| <= |Flat(h, n)| && Flat(h, n)[..|Flat(h, i)|] == Flat(h, i)
    decreases n
  {
    if i < n {
      FlatPrefix(h, i, n - 1);
    }
  }

  function Zeros(n: nat): (r: seq<byte>)
    ensures |r| == n && forall i :: 0 <= i < n ==> r[i] == 0
  {
    seq(n, i => 0)
  }

  function Counts(h: seq<Poly>, omega: nat): (r: seq<byte>)
    requires Fits(h, omega) && omega < 256
    ensures |r| == |h|
    ensures forall i :: 0 <= i < |h| ==> |Flat(h, i + 1)| <= omega && r[i] == ByteOf(|Flat(h, i + 1)|)
  {
    FlatWithin(h, omega);
    seq(|h|, i requires 0 <= i < |h| => ByteOf(|Flat(h, i + 1)|))
  }

  lemma FlatWithin(h: seq<Poly>, omega: nat)
    requires Fits(h, omega)
    ensures forall i :: 0 <= i <= |h| ==> |Flat(h, i)| <= omega
  {
    forall i | 0 <= i <= |h|
      ensures |Flat(h, i)| <= omega
    {
      FlatPrefix(h, i, |h|);
    }
  }

  function Encode(h: seq<Poly>, omega: nat): (y: seq<byte>)
    requires Fits(h, omega) && omega < 256
    ensures |y| == omega + |h|
  {
    Flat(h, |h|) + Zeros(omega - |Flat(h, |h|)|) + Counts(h, omega)
  }

  // ----- decoding

  /** Where the positions of polynomial i start. */
  function Start(y: seq<byte>, omega: nat, i: nat): (r: nat)
    requires omega + i <= |y|
  {
    if i == 0 then 0 else Num(y[omega + i - 1])
  }

  predicate Increasing(s: seq<byte>) {
    forall i, j :: 0 <= i < j < |s| ==> Num(s[i]) < Num(s[j])
  }

  predicate SegmentOk(y: seq<byte>, omega: nat, i: nat)
    requires omega + i < |y|
  {
    Start(y, omega, i) <= Start(y, omega, i + 1) <= omega
    && Increasing(y[Start(y, omega, i)..Start(y, omega, i + 1)])
  }

  predicate Accepted(y: seq<byte>, omega: nat, k: nat)
    requires |y| == omega + k
  {
    && (forall i :: 0 <= i < k ==> SegmentOk(y, omega, i))
    && (forall j :: Start(y, omega, k) <= j < omega ==> y[j] == 0)
  }

  function Indicator(s: seq<byte>): (p: Poly)
    ensures |p| == N
    ensures forall j :: 0 <= j < N ==> p[j] == if ByteOf(j) in s then 1 else 0
  {
    seq(N, j requires 0 <= j < N => if ByteOf(j) in s then 1 else 0)
  }

  function Decode(y: seq<byte>, omega: nat, k: nat): (h: seq<Poly>)
    requires |y| == omega + k && Accepted(y, omega, k)
    ensures |h| == k
  {
    seq(k, i requires 0 <= i < k =>
      assert SegmentOk(y, omega, i);
      Indicator(y[Start(y, omega, i)..Start(y, omega, i + 1)]))
  }

  // ----- the two are inverse to each other

  lemma {:induction false} PositionsOrdered(p: Poly, j: nat)
    requires j <= |p| == N
    ensures Increasing(Positions(p, j))
    ensures forall b :: b in Positions(p, j) <==> Num(b) < j && p[Num(b)] != 0
  {
    hide Num, ByteOf;
    ByteValues();
    if j > 0 {
      PositionsOrdered(p, j - 1);
      var s := Positions(p, j - 1);
      forall i | 0 <= i < |s|
        ensures Num(s[i]) < j - 1
      {
        assert s[i] in s;
      }
    }
  }

  lemma NotEmpty(s: seq<byte>, t: seq<byte>)
    requires forall b :: b in s ==> b in t
    ensures |s| > 0 ==> |t| > 0
  {
    if |s| > 0 {
      var b := s[0];
      assert b in s;
      assert b in t;
      var i :| 0 <= i < |t| && t[i] == b;
    }
  }

  lemma {:induction false} IncreasingUnique(s: seq<byte>, t: seq<byte>)
    requires Increasing(s) && Increasing(t) && forall b :: b in s <==> b in t
    ensures s == t
  {
    hide Num;
    NotEmpty(s, t);
    NotEmpty(t, s);
    if |s| == 0 {
      assert s == t;
    } else {
      assert s[0] in s && t[0] in t;
      assert s[0] == t[0];
      forall b
        ensures b in s[1..] <==> b in t[1..]
      {
        if b in s[1..] {
          assert b in s && b != s[0];
        }
        if b in t[1..] {
          assert b in t && b != t[0];
        }
      }
      IncreasingUnique(s[1..], t[1..]);
    }
  }

  lemma PositionsOfIndicator(s: seq<byte>)
    requires Increasing(s)
    ensures Positions(Indicator(s), N) == s
  {
    hide Num, ByteOf, Positions;
    ByteValues();
    PositionsOrdered(Indicator(s), N);
    IncreasingUnique(Positions(Indicator(s), N), s);
  }

  lemma IndicatorOfPositions(p: Poly)
    requires |p| == N && forall j :: 0 <= j < N ==> p[j] == 0 || p[j] == 1
    ensures Indicator(Positions(p, N)) == p
  {
    hide Num, ByteOf, Positions;
    ByteValues();
    PositionsOrdered(p, N);
  }

  lemma EncodeStart(h: seq<Poly>, omega: nat, i: nat)
    requires Fits(h, omega) && omega < 256 && i <= |h|
    ensures Start(Encode(h, omega), omega, i) == |Flat(h, i)|
  {
    hide Num, ByteOf, Flat, Counts, Encode;
    if i > 0 {
      EncodedCount(h, omega, i - 1);
      NumOfByte(|Flat(h, i)|);
    } else {
      FlatEmpty(h);
    }
  }

  lemma EncodedCount(h: seq<Poly>, omega: nat, n: nat)
    requires Fits(h, omega) && omega < 256 && n < |h|
    ensures Encode(h, omega)[omega + n] == Counts(h, omega)[n]
  {
    hide Flat, Counts;
  }

  lemma FlatEmpty(h: seq<Poly>)
    requires forall n :: 0 <= n < |h| ==> |h[n]| == N
    ensures Flat(h, 0) == []
  {
  }

  lemma EncodeSegment(h: seq<Poly>, omega: nat, i: nat)
    requires Fits(h, omega) && omega < 256 && i < |h|
    ensures SegmentOk(Encode(h, omega), omega, i)
    ensures Indicator(Encode(h,
         omega)[Start(Encode(h, omega), omega, i)..Start(Encode(h, omega), omega, i + 1)]) == h[i]
  {
    hide Num, ByteOf, Positions, Increasing, Start, Indicator, Counts;
    var f, g, y := Flat(h, i), Flat(h, i + 1), Encode(h, omega);
    FlatWithin(h, omega);
    EncodeStart(h, omega, i);
    EncodeStart(h, omega, i + 1);
    FlatPrefix(h, i + 1, |h|);
    assert g == f + Positions(h[i], N);
    assert y[..|g|] == g;
    assert y[|f|..|g|] == Positions(h[i], N);
    PositionsOrdered(h[i], N);
    IndicatorOfPositions(h[i]);
  }

  /** What the signer packs, the verifier accepts and reads back. */
  lemma DecodeEncode(h: seq<Poly>, omega: nat)
    requires Fits(h, omega) && omega < 256
    ensures Accepted(Encode(h, omega), omega, |h|)
    ensures Decode(Encode(h, omega), omega, |h|) == h
  {
    hide Num, ByteOf, SegmentOk, Indicator, Start, Flat;
    forall i | 0 <= i < |h|
      ensures SegmentOk(Encode(h, omega), omega, i)
    {
      EncodeSegment(h, omega, i);
    }
    EncodeStart(h, omega, |h|);
    assert Accepted(Encode(h, omega), omega, |h|);
    forall i | 0 <= i < |h|
      ensures Decode(Encode(h, omega), omega, |h|)[i] == h[i]
    {
      EncodeSegment(h, omega, i);
    }
  }

  lemma {:induction false} FlatOfDecode(y: seq<byte>, omega: nat, k: nat, i: nat)
    requires |y| == omega + k && omega < 256 && Accepted(y, omega, k) && i <= k
    ensures Start(y, omega, i) <= omega && Flat(Decode(y, omega, k), i) == y[..Start(y, omega, i)]
    decreases i
  {
    hide Num, Positions, Increasing, Indicator, Accepted, Decode;
    if i > 0 {
      FlatOfDecode(y, omega, k, i - 1);
      DecodedSegment(y, omega, k, i - 1);
      var a, b := Start(y, omega, i - 1), Start(y, omega, i);
      assert y[..b] == y[..a] + y[a..b];
    }
  }

  lemma DecodedSegment(y: seq<byte>, omega: nat, k: nat, i: nat)
    requires |y| == omega + k && Accepted(y, omega, k) && i < k
    ensures Start(y, omega, i) <= Start(y, omega, i + 1) <= omega
    ensures Positions(Decode(y, omega, k)[i], N) == y[Start(y, omega, i)..Start(y, omega, i + 1)]
  {
    hide Num, Positions, Increasing, Indicator, Start;
    assert SegmentOk(y, omega, i);
    PositionsOfIndicator(y[Start(y, omega, i)..Start(y, omega, i + 1)]);
  }

  lemma EncodedParts(h: seq<Poly>, omega: nat, y: seq<byte>, used: nat)
    requires Fits(h, omega) && omega < 256 && |y| == omega + |h|
    requires used == |Flat(h, |h|)| && y[..used] == Flat(h, |h|)
    requires forall t :: used <= t < omega ==> y[t] == 0
    requires forall n :: 0 <= n < |h| ==> y[omega + n] == Counts(h, omega)[n]
    ensures y == Encode(h, omega)
  {
    hide Flat, ByteOf;
    assert y == y[..used] + y[used..omega] + y[omega..];
    assert y[used..omega] == Zeros(omega - used);
    assert y[omega..] == Counts(h, omega);
  }

  lemma DecodedFits(y: seq<byte>, omega: nat, k: nat)
    requires |y| == omega + k && omega < 256 && Accepted(y, omega, k)
    ensures Fits(Decode(y, omega, k), omega)
  {
    hide Num, ByteOf, Positions, Increasing, Flat, SegmentOk, Accepted;
    FlatOfDecode(y, omega, k, k);
  }

  lemma DecodedCount(y: seq<byte>, omega: nat, k: nat, i: nat)
    requires |y| == omega + k && omega < 256 && Accepted(y, omega, k) && i < k && Fits(Decode(y, omega, k), omega)
    ensures Counts(Decode(y, omega, k), omega)[i] == y[omega + i]
  {
    hide Num, ByteOf, Flat, SegmentOk, Accepted, Decode, Fits, IsHints;
    ByteValues();
    FlatOfDecode(y, omega, k, i + 1);
  }

  /** Whatever the verifier accepts is exactly what the signer would have packed: no two
      accepted strings decode to the same hints. */
  lemma EncodeDecode(y: seq<byte>, omega: nat, k: nat)
    requires |y| == omega + k && omega < 256 && Accepted(y, omega, k)
    ensures Fits(Decode(y, omega, k), omega)
    ensures Encode(Decode(y, omega, k), omega) == y
  {
    hide Num, Flat, SegmentOk, Decode, Fits, Counts, Encode;
    DecodedFits(y, omega, k);
    var h := Decode(y, omega, k);
    FlatOfDecode(y, omega, k, k);
    forall i | 0 <= i < k
      ensures y[omega + i] == Counts(h, omega)[i]
    {
      DecodedCount(y, omega, k, i);
    }
    EncodedParts(h, omega, y, Start(y, omega, k));
  }

  // ----- the loops of pack_sig and unpack_sig

  lemma NextPosition(h: seq<Poly>, omega: nat, i: nat, j: nat)
    requires Fits(h, omega) && i < |h| && j < N
    ensures |Flat(h, i)| + |Positions(h[i], j)| + (if h[i][j] != 0 then 1 else 0) <= omega
  {
    FlatWithin(h, omega);
    PositionsGrow(h[i], j + 1, N);
    assert |Flat(h, i + 1)| == |Flat(h, i)| + |Positions(h[i], N)|;
  }

  lemma {:induction false} PositionsGrow(p: Poly, i: nat, j: nat)
    requires i <= j <= |p| == N
    ensures |Positions(p, i)| <= |Positions(p, j)|
    decreases j
  {
    if i < j {
      PositionsGrow(p, i, j - 1);
    }
  }

  method Clear(y: array<byte>)
    modifies y
    ensures forall n :: 0 <= n < y.Length ==> y[n] == 0
  {
    for t := 0 to y.Length
      invariant forall n :: 0 <= n < t ==> y[n] == 0
    {
      y[t] := 0;
    }
  }

  method PackHints(h: seq<Poly>, omega: nat, y: array<byte>)
    requires Fits(h, omega) && omega < 256 && y.Length == omega + |h|
    modifies y
    ensures y[..] == Encode(h, omega)
  {
    hide Num, ByteOf, Fits, Encode, Flat, Positions, Counts;
    HintShape(h, omega);
    FlatEmpty(h);
    FlatWithin(h, omega);
    ghost var counts := Counts(h, omega);
    Clear(y);
    var k := 0;
    for i := 0 to |h|
      invariant k == |Flat(h, i)| <= omega && y[..k] == Flat(h, i)
      invariant forall t :: k <= t < omega ==> y[t] == 0
      invariant forall n :: 0 <= n < i ==> y[omega + n] == counts[n]
    {
      FlatStep(h, i);
      k := PackPositions(h[i], y, k, omega, h, i);
      y[omega + i] := ByteOf(k);
    }
    EncodedParts(h, omega, y[..], k);
  }

  /** The positions of polynomial i, after those of the polynomials before it. */
  lemma FlatStep(h: seq<Poly>, i: nat)
    requires i < |h| && forall n :: 0 <= n < |h| ==> |h[n]| == N
    ensures Flat(h, i + 1) == Flat(h, i) + Positions(h[i], N)
  {
    hide Positions;
  }

  method PackPositions(p: Poly, y: array<byte>, start: nat, omega: nat, ghost h: seq<Poly>, ghost i: nat)
    returns (k: nat)
    requires Fits(h, omega) && i < |h| && p == h[i] && |p| == N && start == |Flat(h, i)| && omega <= y.Length
         && start <= omega
    requires forall t :: start <= t < omega ==> y[t] == 0
    modifies y
    ensures k == start + |Positions(p, N)| <= omega
    ensures y[..k] == old(y[..start]) + Positions(p, N)
    ensures forall t :: k <= t < omega ==> y[t] == 0
    ensures y[omega..] == old(y[omega..])
  {
    hide Num, ByteOf, Fits, Flat;
    k := start;
    ghost var f := y[..start];
    for j := 0 to N
      invariant k == start + |Positions(p, j)| <= omega && y[..k] == f + Positions(p, j)
      invariant forall t :: k <= t < omega ==> y[t] == 0
      invariant y[omega..] == old(y[omega..])
    {
      NextPosition(h, omega, i, j);
      if p[j] != 0 {
        y[k] := ByteOf(j);
        k := k + 1;
      }
    }
  }

  lemma HintShape(h: seq<Poly>, omega: nat)
    requires Fits(h, omega)
    ensures forall n :: 0 <= n < |h| ==> |h[n]| == N
  {
  }

  lemma IndicatorSnoc(s: seq<byte>, b: byte)
    ensures Indicator(s + [b]) == Indicator(s)[Num(b) := 1]
  {
    hide Num, ByteOf;
    ByteValues();
  }

  /** The bytes of polynomial i set their coefficients, unless one does not exceed its predecessor. */
  method UnpackPositions(y: seq<byte>, pos: nat, end: nat) returns (ok: bool, p: Poly)
    requires pos <= end <= |y|
    ensures ok == Increasing(y[pos..end])
    ensures ok ==> p == Indicator(y[pos..end])
  {
    hide Num, ByteOf, Increasing;
    p := seq(N, _ => 0);
    assert p == Indicator(y[pos..pos]);
    IncreasingEmpty(y[pos..pos]);
    for j := pos to end
      invariant Increasing(y[pos..j]) && p == Indicator(y[pos..j])
    {
      if j > pos && Num(y[j]) <= Num(y[j - 1]) {
        NotIncreasing(y[pos..end], j - pos);
        return false, p;
      }
      IncreasingSnoc(y[pos..j], y[j]);
      IndicatorSnoc(y[pos..j], y[j]);
      assert y[pos..j + 1] == y[pos..j] + [y[j]];
      p := p[Num(y[j]) := 1];
    }
    ok := true;
  }

  lemma IncreasingEmpty(s: seq<byte>)
    requires s == []
    ensures Increasing(s)
  {
  }

  predicate Decoded(y: seq<byte>, omega: nat, p: Poly, n: nat)
    requires omega + n < |y|
  {
    SegmentOk(y, omega, n) && p == Indicator(y[Start(y, omega, n)..Start(y, omega, n + 1)])
  }

  method UnpackHints(y: seq<byte>, omega: nat, k: nat) returns (ok: bool, h: seq<Poly>)
    requires |y| == omega + k && omega < 256
    ensures ok == Accepted(y, omega, k)
    ensures ok ==> h == Decode(y, omega, k)
  {
    hide Num, ByteOf, Increasing, Indicator;
    h := [];
    var pos := 0;
    for i := 0 to k
      invariant pos == Start(y, omega, i) <= omega && |h| == i
      invariant forall n :: 0 <= n < i ==> Decoded(y, omega, h[n], n)
    {
      var end := Num(y[omega + i]);
      if end < pos || end > omega {
        assert !SegmentOk(y, omega, i);
        return false, h;
      }
      var increasing, p := UnpackPositions(y, pos, end);
      if !increasing {
        assert !SegmentOk(y, omega, i);
        return false, h;
      }
      h := h + [p];
      pos := end;
    }
    for j := pos to omega
      invariant forall t :: pos <= t < j ==> y[t] == 0
    {
      if y[j] != 0 {
        return false, h;
      }
    }
    ok := true;
    AllDecoded(y, omega, k, h);
  }

  lemma AllDecoded(y: seq<byte>, omega: nat, k: nat, h: seq<Poly>)
    requires |y| == omega + k && |h| == k
    requires forall n :: 0 <= n < k ==> Decoded(y, omega, h[n], n)
    requires forall j :: Start(y, omega, k) <= j < omega ==> y[j] == 0
    ensures Accepted(y, omega, k) && h == Decode(y, omega, k)
  {
    hide SegmentOk, Indicator, Start;
    forall n | 0 <= n < k
      ensures SegmentOk(y, omega, n)
    {
      assert Decoded(y, omega, h[n], n);
    }
    assert Accepted(y, omega, k);
    forall n | 0 <= n < k
      ensures h[n] == Decode(y, omega, k)[n]
    {
      assert Decoded(y, omega, h[n], n);
    }
  }

  lemma NotIncreasing(s: seq<byte>, j: nat)
    requires 0 < j < |s| && Num(s[j]) <= Num(s[j - 1])
    ensures !Increasing(s)
  {
  }

  lemma IncreasingSnoc(s: seq<byte>, b: byte)
    requires Increasing(s) && (s != [] ==> Num(s[|s| - 1]) < Num(b))
    ensures Increasing(s + [b])
  {
    hide Num;
    forall i | 0 <= i < |s|
      ensures Num(s[i]) < Num(b)
    {
      assert i < |s| - 1 ==> Num(s[i]) < Num(s[|s| - 1]);
    }
  }
}
