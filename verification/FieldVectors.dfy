/** Vectors of polynomials as strings of fixed-width bit fields, as sections 7.1 of FIPS 204 and 4.2.1
    of FIPS 203 describe them, and the packers of the code as instances. */
module FieldVectors {
  import opened Polynomials
  import opened Words
  import opened BitCodec
  import opened VectorCodec
  import opened BitOrder

  /** x itself, or c - x; zero where that would be negative. */
  function Coded(negate: bool, c: int, x: int): (r: nat) {
    var y := if negate then c - x else x;
    if y < 0 then 0 else y
  }

  /** All coefficients in a row. */
  function Listed(v: seq<Poly>, negate: bool, c: int): (x: seq<nat>)
    requires IsShape(v, |v|)
    ensures |x| == N * |v|
    ensures forall e :: 0 <= e < N * |v| ==> x[e] == Coded(negate, c, v[e / N][e % N])
  {
    seq(N * |v|, e requires 0 <= e < N * |v| => Coded(negate, c, v[e / N][e % N]))
  }

  /** The coefficients as d-bit fields: 32 * d bytes for each polynomial. */
  function Packed(d: nat, v: seq<Poly>, negate: bool, c: int): (b: seq<byte>)
    requires d > 0 && IsShape(v, |v|)
  {
    BitString(d, Listed(v, negate, c), |v| * (32 * d))
  }

  /** Where field e starts. */
  function Place(start: nat, d: nat, e: nat): (p: nat) { start + d * e }

  function Read(b: seq<byte>, start: nat, d: nat, negate: bool, c: int): (x: int) {
    if negate then c - Field(b, start, d) else Field(b, start, d)
  }

  /** n polynomials of d-bit fields, from bit start of b on. */
  function ReadVector(b: seq<byte>, start: nat, d: nat, n: nat, negate: bool, c: int): (v: seq<Poly>)
    ensures IsShape(v, n)
    ensures forall i, t :: 0 <= i < n && 0 <= t < N ==> v[i][t] == Read(b, Place(start, d, N * i + t), d, negate, c)
  {
    hide Place, Field;
    seq(n, i requires 0 <= i < n => seq(N, t requires 0 <= t < N => Read(b, Place(start, d, N * i + t), d, negate, c)))
  }

  // ----- the packers

  ghost predicate FormatIs(f: Format, d: nat, negate: bool, c: int) {
    && Usable(f) && Ordered(f.codec) && d > 0
    && f.codec.d == d && f.codec.negate == negate && (negate ==> f.codec.c == c)
  }

  lemma FormatSize(f: Format, d: nat, negate: bool, c: int, n: nat)
    requires FormatIs(f, d, negate, c)
    ensures Size(f) == 32 * d && Total(n, f) == n * (32 * d)
  {
    hide Lossless, Ordered;
    PolynomialBits(f);
  }

  lemma Stores(f: Format, d: nat, negate: bool, c: int, v: seq<Poly>, i: nat, t: nat)
    requires FormatIs(f, d, negate, c) && IsShape(v, |v|) && VectorInRange(f, v) && i < |v| && t < N
    ensures Coded(negate, c, v[i][t]) == Stored(f.codec, v[i][t])
  {
    hide Lossless, Ordered;
    assert InRange(f.codec, v[i]);
    assert Storable(f.codec, v[i][t]);
  }

  /** Every packer writes the fields in order. */
  lemma PackedExactly(f: Format, d: nat, negate: bool, c: int, v: seq<Poly>)
    requires FormatIs(f, d, negate, c) && IsShape(v, |v|) && VectorInRange(f, v)
    ensures PackVector(f, v) == Packed(d, v, negate, c)
  {
    hide Lossless, Ordered, VectorInRange, Coded, Stored, PackVector, BitString;
    FormatSize(f, d, negate, c, |v|);
    var x := Listed(v, negate, c);
    forall i, t | 0 <= i < |v| && 0 <= t < N
      ensures x[N * i + t] == Stored(f.codec, v[i][t])
    {
      Stores(f, d, negate, c, v, i, t);
      assert (N * i + t) / N == i && (N * i + t) % N == t;
    }
    PackedBits(f, v, x);
  }

  /** Every unpacker reads them. */
  lemma UnpackedExactly(f: Format, d: nat, negate: bool, c: int, b: seq<byte>, n: nat)
    requires FormatIs(f, d, negate, c) && |b| == Total(n, f)
    ensures UnpackVector(f, b, n) == ReadVector(b, 0, d, n, negate, c)
  {
    hide Lossless, Ordered, Field, UnpackVector, Total;
    forall i, t | 0 <= i < n && 0 <= t < N
      ensures UnpackVector(f, b, n)[i][t] == ReadVector(b, 0, d, n, negate, c)[i][t]
    {
      UnpackedField(f, b, n, i, t, d * (N * i + t));
      StoredTwice(f.codec, UnpackVector(f, b, n)[i][t]);
    }
    SameVectors(UnpackVector(f, b, n), ReadVector(b, 0, d, n, negate, c), n);
  }

  lemma SameVectors(v: seq<Poly>, w: seq<Poly>, n: nat)
    requires IsShape(v, n) && IsShape(w, n)
    requires forall i, t :: 0 <= i < n && 0 <= t < N ==> v[i][t] == w[i][t]
    ensures v == w
  {
    forall i | 0 <= i < n
      ensures v[i] == w[i]
    {
    }
  }

  lemma FieldWithin(d: nat, n: nat, i: nat, t: nat, bits: nat)
    requires i < n && t < N && bits == 8 * (n * (32 * d))
    ensures d * (N * i + t) + d <= bits
  {
    FieldInVector(d, n, 32 * d, i, t, d * (N * i + t));
  }

  /** Fields of a part of a string are fields of the string. */
  lemma ReadPart(b: seq<byte>, lo: nat, hi: nat, d: nat, n: nat, negate: bool, c: int)
    requires lo <= hi <= |b| && hi - lo == n * (32 * d)
    ensures ReadVector(b[lo..hi], 0, d, n, negate, c) == ReadVector(b, 8 * lo, d, n, negate, c)
  {
    hide Field;
    var v, w := ReadVector(b[lo..hi], 0, d, n, negate, c), ReadVector(b, 8 * lo, d, n, negate, c);
    forall i, t | 0 <= i < n && 0 <= t < N
      ensures v[i][t] == w[i][t]
    {
      FieldWithin(d, n, i, t, 8 * (hi - lo));
      FieldOfSlice(b, lo, hi, d * (N * i + t), d);
    }
    SameVectors(v, w, n);
  }

  /** A part of b read by the code is a part of b read by the standard. */
  lemma PartRead(f: Format, d: nat, negate: bool, c: int, b: seq<byte>, lo: nat, hi: nat, n: nat)
    requires FormatIs(f, d, negate, c) && lo <= hi <= |b| && hi - lo == Total(n, f)
    ensures UnpackVector(f, b[lo..hi], n) == ReadVector(b, 8 * lo, d, n, negate, c)
  {
    hide Lossless, Ordered, UnpackVector;
    FormatSize(f, d, negate, c, n);
    UnpackedExactly(f, d, negate, c, b[lo..hi], n);
    ReadPart(b, lo, hi, d, n, negate, c);
  }
}
