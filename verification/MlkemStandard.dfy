/** Compression and byte encoding as sections 4.2.1 of FIPS 203 defines them, and the arithmetic of
    tools/pqc/mlkem/mlkem_poly.c and polyvec.c as instances. */
module MlkemStandard {
  import opened Modular
  import opened Polynomials
  import opened NttAlgebra
  import opened BitCodec
  import opened BitOrder
  import opened FieldVectors
  import opened RingRows
  import opened MlkemReduce
  import opened MlkemCompress
  import opened MlkemKpke
  import F = FormatOrder

  /** round(2^d / q * x) mod 2^d, for the representative of x in [0, q). */
  function Nearest(d: nat, x: int): (r: int) { (2 * Pow2(d) * (x % Q) + Q) / (2 * Q) % Pow2(d) }

  /** round(q / 2^d * y) */
  function Expanded(d: nat, y: int): (r: int) { (2 * Q * y + Pow2(d)) / (2 * Pow2(d)) }

  function NearestPoly(d: nat, x: Poly): (r: Poly)
    ensures |r| == |x| && forall t :: 0 <= t < |x| ==> r[t] == Nearest(d, x[t])
  {
    seq(|x|, t requires 0 <= t < |x| => Nearest(d, x[t]))
  }

  function ExpandedPoly(d: nat, y: Poly): (r: Poly)
    ensures |r| == |y| && forall t :: 0 <= t < |y| ==> r[t] == Expanded(d, y[t])
  {
    seq(|y|, t requires 0 <= t < |y| => Expanded(d, y[t]))
  }

  // ----- the code

  lemma Powers()
    ensures Pow2(1) == 2 && Pow2(4) == 16 && Pow2(5) == 32 && Pow2(10) == 1024 && Pow2(11) == 2048 && Pow2(12) == 4096
  {
    PowersOfTwo();
    assert Pow2(9) == 512;
  }

  lemma LevelsArePow2(d: nat)
    requires IsDepth(d)
    ensures Levels(d) == Pow2(d)
  {
    hide Pow2;
    Powers();
  }

  /** A reduced coefficient and its representative in [0, q). */
  lemma StandardIsResidue(a: int, x: int)
    requires -Q < a < Q && Cong(a, x, Q)
    ensures Standard(a) == x % Q
  {
    var k := Quotient(a, x, Q);
  }

  lemma CompressIsNearest(d: nat, a: int, x: int)
    requires IsDepth(d) && -Q < a < Q && Cong(a, x, Q)
    ensures Compress(d, a) == Nearest(d, x)
  {
    hide Compress, Cong, Pow2;
    StandardIsResidue(a, x);
    CompressExact(d, a);
    LevelsArePow2(d);
  }

  lemma DecompressIsExpanded(d: nat, y: int)
    requires IsDepth(d)
    ensures Decompress(d, y) == Expanded(d, y)
  {
    hide Pow2;
    LevelsArePow2(d);
    HalfUp(y * Q, Levels(d));
  }

  lemma HalfUp(n: int, l: int)
    requires l == 16 || l == 32 || l == 1024 || l == 2048
    ensures (n + l / 2) / l == (2 * n + l) / (2 * l)
  {
  }

  lemma ToBitIsNearest(a: int, x: int)
    requires -1664 <= a <= 1664 && Cong(a, x, Q)
    ensures ToBit(a) == Nearest(1, x)
  {
    hide ToBit, Cong, Pow2;
    Powers();
    ToBitExact(a);
    StandardIsResidue(a, x);
    BitOfResidue(a, x % Q);
  }

  lemma BitOfResidue(a: int, u: int)
    requires -1664 <= a <= 1664 && u == Standard(a)
    ensures (4 * u + Q) / (2 * Q) % 2 == if -832 <= a <= 832 then 0 else 1
  {
  }

  lemma FromBitIsExpanded(b: int)
    requires b == 0 || b == 1
    ensures FromBit(b) == Expanded(1, b)
  {
    hide Pow2;
    Powers();
  }

  lemma StandardExactly(a: Poly, x: Poly)
    requires IsPoly(a, 1664) && CongSeq(a, x, Q)
    ensures StandardPoly(a) == Residues(x, Q)
  {
    hide Cong, Standard;
    forall t | 0 <= t < N
      ensures Standard(a[t]) == x[t] % Q
    {
      StandardIsResidue(a[t], x[t]);
    }
  }

  lemma CompressExactly(d: nat, a: Poly, x: Poly)
    requires IsDepth(d) && IsPoly(a, 1664) && CongSeq(a, x, Q)
    ensures CompressPoly(d, a) == NearestPoly(d, x)
  {
    hide Cong, Compress, Nearest;
    forall t | 0 <= t < N
      ensures Compress(d, a[t]) == Nearest(d, x[t])
    {
      CompressIsNearest(d, a[t], x[t]);
    }
  }

  lemma DecompressExactly(d: nat, a: Poly)
    requires IsDepth(d)
    ensures DecompressPoly(d, a) == ExpandedPoly(d, a)
  {
    hide Decompress, Expanded;
    forall t | 0 <= t < |a|
      ensures Decompress(d, a[t]) == Expanded(d, a[t])
    {
      DecompressIsExpanded(d, a[t]);
    }
  }

  // ----- formats

  /** The formats of the code and the widths of the standard. */
  lemma Widths(d: nat)
    requires IsDepth(d)
    ensures FormatIs(BYTES_FORMAT, 12, false, 0) && FormatIs(MESSAGE_FORMAT, 1, false, 0)
    ensures FormatIs(DepthFormat(d), d, false, 0)
  {
    hide Lossless, Ordered;
    Formats(d);
    F.TwelveOrdered();
    F.FiveOrdered();
    F.ElevenOrdered();
    F.BitsOrdered();
    F.SharedOrdered();
  }
}
