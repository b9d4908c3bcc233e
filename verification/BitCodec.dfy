/** Bit packing: fixed groups of n coefficients of d bits each in m bytes. Every packer of
    mldsa_poly.c and mlkem_poly.c is one group format applied along the polynomial. */
module BitCodec {
  import opened NttAlgebra
  import opened Words

  /** Coefficient x is stored as c - x when negate is set, else as x itself. */
  datatype Codec = Codec(n: nat, m: nat, d: nat, negate: bool, c: int,
                         pack: seq<bv32> -> seq<byte>, unpack: seq<byte> -> seq<bv32>)

  function Stored(k: Codec, x: int): (r: int) { if k.negate then k.c - x else x }

  predicate Storable(k: Codec, x: int) { 0 <= Stored(k, x) < Pow2(k.d) }

  predicate InRange(k: Codec, a: seq<int>) {
    forall i :: 0 <= i < |a| ==> Storable(k, a[i])
  }

  predicate AllFit(t: seq<bv32>, d: nat) {
    forall i :: 0 <= i < |t| ==> Fits(t[i], d)
  }

  /** The group format loses nothing, in either direction. */
  ghost predicate Lossless(k: Codec) {
    && k.n > 0 && k.m > 0 && k.d <= 32
    && (forall t :: |t| == k.n && AllFit(t, k.d) ==> |k.pack(t)| == k.m && k.unpack(k.pack(t)) == t)
    && (forall b :: |b| == k.m ==> |k.unpack(b)| == k.n && AllFit(k.unpack(b), k.d) && k.pack(k.unpack(b)) == b)
  }

  /** What the packer holds in its uint32_t variables. */
  function ToWords(k: Codec, x: seq<int>): (t: seq<bv32>)
    ensures |t| == |x|
  {
    seq(|x|, i requires 0 <= i < |x| => Word(Stored(k, x[i]) % 0x1_0000_0000))
  }

  function FromWords(k: Codec, t: seq<bv32>): (x: seq<int>)
    ensures |x| == |t|
  {
    seq(|t|, i requires 0 <= i < |t| => Stored(k, Value(t[i])))
  }

  function Encode(k: Codec, a: seq<int>, g: nat): (r: seq<byte>)
    requires |a| == g * k.n
    decreases g
  {
    if g == 0 then []
    else
      GroupFits(g, k.n);
      k.pack(ToWords(k, a[..k.n])) + Encode(k, a[k.n..], g - 1)
  }

  function Decode(k: Codec, b: seq<byte>, g: nat): (r: seq<int>)
    requires |b| == g * k.m
    decreases g
  {
    if g == 0 then []
    else
      GroupFits(g, k.m);
      FromWords(k, k.unpack(b[..k.m])) + Decode(k, b[k.m..], g - 1)
  }

  lemma GroupFits(g: nat, n: nat)
    requires g > 0
    ensures g * n >= n && g * n - n == (g - 1) * n
  {
    assert g * n == (g - 1) * n + n;
    assert (g - 1) * n >= 0;
  }

  lemma {:induction false} PowersGrow(d: nat, e: nat)
    requires d <= e
    ensures Pow2(d) <= Pow2(e)
  {
    if d < e {
      PowersGrow(d, e - 1);
    }
  }

  lemma AtMost32(d: nat)
    requires d <= 32
    ensures Pow2(d) <= 0x1_0000_0000
  {
    PowersGrow(d, 32);
    PowersOfTwo();
    assert Pow2(10) == 0x400;
    assert Pow2(12) == 0x1000;
    assert Pow2(14) == 0x4000;
    assert Pow2(16) == 0x1_0000;
    assert Pow2(18) == 0x4_0000;
    assert Pow2(20) == 0x10_0000;
    assert Pow2(22) == 0x40_0000;
    assert Pow2(24) == 0x100_0000;
    assert Pow2(26) == 0x400_0000;
    assert Pow2(28) == 0x1000_0000;
    assert Pow2(30) == 0x4000_0000;
  }

  lemma WordsRoundTrip(k: Codec, x: seq<int>)
    requires InRange(k, x) && k.d <= 32
    ensures AllFit(ToWords(k, x), k.d) && FromWords(k, ToWords(k, x)) == x
  {
    hide Value, Word, Fits, Pow2;
    var t := ToWords(k, x);
    forall i | 0 <= i < |x|
      ensures Fits(t[i], k.d) && Stored(k, Value(t[i])) == x[i]
    {
      assert Storable(k, x[i]);
      AtMost32(k.d);
      WordFits(Stored(k, x[i]), k.d);
      ValueOfWord(Stored(k, x[i]), k.d);
    }
  }

  lemma NumbersRoundTrip(k: Codec, t: seq<bv32>)
    requires AllFit(t, k.d) && k.d <= 32
    ensures InRange(k, FromWords(k, t)) && ToWords(k, FromWords(k, t)) == t
  {
    hide Value, Word, Fits, Pow2;
    var x := FromWords(k, t);
    forall i | 0 <= i < |t|
      ensures Storable(k, x[i]) && ToWords(k, x)[i] == t[i]
    {
      AtMost32(k.d);
      ValueFits(t[i], k.d);
      WordOfValue(t[i]);
      assert Stored(k, x[i]) == Value(t[i]);
    }
  }

  lemma {:induction false} EncodeLength(k: Codec, a: seq<int>, g: nat)
    requires Lossless(k) && |a| == g * k.n && InRange(k, a)
    ensures |Encode(k, a, g)| == g * k.m
    decreases g
  {
    hide Pow2, Word, Value, Fits;
    if g > 0 {
      GroupFits(g, k.n);
      GroupFits(g, k.m);
      WordsRoundTrip(k, a[..k.n]);
      EncodeLength(k, a[k.n..], g - 1);
    }
  }

  lemma {:induction false} DecodeEncode(k: Codec, a: seq<int>, g: nat)
    requires Lossless(k) && |a| == g * k.n && InRange(k, a)
    ensures |Encode(k, a, g)| == g * k.m && Decode(k, Encode(k, a, g), g) == a
    decreases g
  {
    hide Pow2, Word, Value, Fits, ToWords, FromWords;
    EncodeLength(k, a, g);
    if g > 0 {
      GroupFits(g, k.n);
      GroupFits(g, k.m);
      var x, e := a[..k.n], Encode(k, a, g);
      WordsRoundTrip(k, x);
      DecodeEncode(k, a[k.n..], g - 1);
      assert e[..k.m] == k.pack(ToWords(k, x)) && e[k.m..] == Encode(k, a[k.n..], g - 1);
      assert a == x + a[k.n..];
    }
  }

  lemma {:induction false} EncodeDecode(k: Codec, b: seq<byte>, g: nat)
    requires Lossless(k) && |b| == g * k.m
    ensures |Decode(k, b, g)| == g * k.n && InRange(k, Decode(k, b, g)) && Encode(k, Decode(k, b, g), g) == b
    decreases g
  {
    hide Pow2, Word, Value, Fits, ToWords, FromWords;
    if g > 0 {
      GroupFits(g, k.n);
      GroupFits(g, k.m);
      var t, x, rest := k.unpack(b[..k.m]), FromWords(k, k.unpack(b[..k.m])), Decode(k, b[k.m..], g - 1);
      NumbersRoundTrip(k, t);
      EncodeDecode(k, b[k.m..], g - 1);
      var a := Decode(k, b, g);
      assert a == x + rest && a[..k.n] == x && a[k.n..] == rest;
      assert b == b[..k.m] + b[k.m..];
    }
  }

  lemma NextGroup(k: Codec, a: seq<int>, p: nat, g: nat)
    requires Lossless(k) && InRange(k, a) && g > 0
    requires p + g * k.n == |a| && p + k.n + (g - 1) * k.n == |a| && p + k.n <= |a|
    ensures var bytes := k.pack(ToWords(k, a[p..p + k.n]));
      |bytes| == k.m && Encode(k, a[p..], g) == bytes + Encode(k, a[p + k.n..], g - 1)
  {
    hide Pow2, Word, Value, Fits, ToWords, AllFit;
    assert a[p..][..k.n] == a[p..p + k.n] && a[p..][k.n..] == a[p + k.n..];
    WordsRoundTrip(k, a[p..p + k.n]);
  }

  /** The packing loop: group by group, byte by byte. */
  method Pack(k: Codec, a: array<int>, r: array<byte>, g: nat)
    requires Lossless(k) && a.Length == g * k.n && r.Length == g * k.m && InRange(k, a[..])
    requires (a as object) != (r as object)
    modifies r
    ensures r[..] == Encode(k, old(a[..]), g)
  {
    hide Encode, Pow2, Word, ToWords, AllFit, Lossless, InRange;
    ghost var all := a[..];
    ghost var left: nat := g;
    var i, p, q := 0, 0, 0;
    assert all[0..] == all;
    while i < g
      invariant i + left == g && left >= 0 && p + left * k.n == a.Length && q + left * k.m == r.Length
      invariant a[..] == all
      invariant r[..q] + Encode(k, all[p..], left) == Encode(k, all, g)
    {
      GroupFits(left, k.n);
      GroupFits(left, k.m);
      NextGroup(k, all, p, left);
      assert a[p..p + k.n] == all[p..p + k.n];
      var bytes := k.pack(ToWords(k, a[p..p + k.n]));
      Regroup(r[..q], bytes, Encode(k, all[p + k.n..], left - 1));
      ghost var done := r[..q];
      StoreBytes(r, q, bytes);
      assert r[..q + k.m] == done + bytes;
      i, p, q := i + 1, p + k.n, q + k.m;
      left := left - 1;
    }
    assert r[..q] == r[..];
    EncodeNothing(k, all[p..]);
  }

  lemma Regroup(x: seq<byte>, y: seq<byte>, z: seq<byte>)
    ensures x + (y + z) == (x + y) + z
  {
  }

  lemma EncodeNothing(k: Codec, a: seq<int>)
    requires |a| == 0
    ensures Encode(k, a, 0) == []
  {
  }

  method StoreBytes(r: array<byte>, q: nat, bytes: seq<byte>)
    requires q + |bytes| <= r.Length
    modifies r
    ensures r[..] == old(r[..q]) + bytes + old(r[q + |bytes|..])
  {
    for j := 0 to |bytes|
      invariant r[..q] == old(r[..q]) && r[q..q + j] == bytes[..j] && r[q + j..] == old(r[q + j..])
    {
      r[q + j] := bytes[j];
    }
  }
}
