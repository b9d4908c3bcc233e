/** tools/pqc/mlkem/mlkem_kpke.c: the public-key encryption scheme under ML-KEM. The hash
    functions are arbitrary functions from messages to byte streams. */
module MlkemKpke {
  import opened Polynomials
  import opened NttAlgebra
  import opened Words
  import opened BitCodec
  import opened VectorCodec
  import opened Rejection
  import opened Cbd
  import opened MlkemReduce
  import opened MlkemNtt
  import opened MlkemProduct
  import opened MlkemCompress
  import P = MlkemPack

  datatype Params = Params(k: nat, eta1: nat, du: nat, dv: nat)

  const ML_KEM_512: Params := Params(2, 3, 10, 4)
  const ML_KEM_768: Params := Params(3, 2, 10, 4)
  const ML_KEM_1024: Params := Params(4, 2, 11, 5)

  predicate IsParams(p: Params) { p == ML_KEM_512 || p == ML_KEM_768 || p == ML_KEM_1024 }

  /** SHAKE128, SHAKE256, SHA3-512 and SHA3-256 as streams, and how many bytes a sampler may read. */
  datatype Hashes = Hashes(xof: seq<byte> -> Stream, prf: seq<byte> -> Stream, g: seq<byte> -> Stream,
       h: seq<byte> -> Stream,
                           limit: nat)

  const SYM: nat := 32

  // ----- sampling

  /** A 12-bit candidate, if it is below Q. */
  function Candidate(w: bv32): (r: seq<int>)
    ensures forall v :: v in r ==> 0 <= v < Q
  {
    if Value(w) < Q then [Value(w)] else []
  }

  /** Two candidates in three bytes. */
  function TwelveBitGroup(x: seq<byte>): (r: seq<int>)
    ensures forall v :: v in r ==> 0 <= v < Q
  {
    if |x| != 3 then [] else Candidate(P.TwelveUnpack(x)[0]) + Candidate(P.TwelveUnpack(x)[1])
  }

  const TWELVE: Sampler := Sampler(3, TwelveBitGroup)

  lemma TwelveRange()
    ensures Accepts(TWELVE, 0, Q - 1)
  {
  }

  /** The first N accepted candidates of a stream; shorter if limit bytes do not hold enough. */
  function UniformPoly(e: Hashes, seed: seq<byte>, x: nat, y: nat): (a: Poly)
    requires x < 256 && y < 256
    ensures |a| <= N
  {
    First(N, Accepted(TWELVE, Bytes(e.xof(seed + [ByteOf(x), ByteOf(y)]), 0, e.limit)))
  }

  /** gen_matrix: the row index comes last for A and first for its transpose. */
  function GenMatrix(e: Hashes, p: Params, seed: seq<byte>, transposed: bool): (a: seq<seq<Poly>>)
    requires IsParams(p)
    ensures |a| == p.k && forall i :: 0 <= i < p.k ==> |a[i]| == p.k
    ensures forall i, j :: 0 <= i < p.k && 0 <= j < p.k ==>
      a[i][j] == if transposed then UniformPoly(e, seed, i, j) else UniformPoly(e, seed, j, i)
  {
    seq(p.k, i requires 0 <= i < p.k =>
      seq(p.k, j requires 0 <= j < p.k =>
        if transposed then UniformPoly(e, seed, i, j) else UniformPoly(e, seed, j, i)))
  }

  predicate IsMatrixShape(p: Params, a: seq<seq<Poly>>) {
    |a| == p.k && forall i :: 0 <= i < p.k ==> IsShape(a[i], p.k)
  }

  function Noise1(e: Hashes, p: Params, seed: seq<byte>, nonce: nat): (a: Poly)
    requires nonce < 256
    ensures |a| == N
  {
    var s := e.prf(seed + [ByteOf(nonce)]);
    if p.eta1 == 2 then Cbd2(Bytes(s, 0, 128)) else Cbd3(Bytes(s, 0, 192))
  }

  function Noise2(e: Hashes, seed: seq<byte>, nonce: nat): (a: Poly)
    requires nonce < 256
    ensures |a| == N
  {
    Cbd2(Bytes(e.prf(seed + [ByteOf(nonce)]), 0, 128))
  }

  lemma NoiseBound(e: Hashes, p: Params, seed: seq<byte>, nonce: nat)
    requires nonce < 256
    ensures IsPoly(Noise1(e, p, seed, nonce), 3) && IsPoly(Noise2(e, seed, nonce), 3)
  {
    hide Nibble, Sextet;
    var s := e.prf(seed + [ByteOf(nonce)]);
    var b, c := Bytes(s, 0, 128), Bytes(s, 0, 192);
    forall i | 0 <= i < N
      ensures -3 <= Cbd2(b)[i] <= 3 && -3 <= Cbd3(c)[i] <= 3
    {
      NibbleRange(b[i / 2], i % 2);
      SextetRange(c[3 * (i / 4)..3 * (i / 4) + 3], i % 4);
    }
  }

  function NoiseVector1(e: Hashes, p: Params, seed: seq<byte>, nonce: nat): (v: seq<Poly>)
    requires IsParams(p) && nonce <= 4
    ensures |v| == p.k && forall i :: 0 <= i < p.k ==> v[i] == Noise1(e, p, seed, nonce + i)
    ensures IsShape(v, p.k)
  {
    hide Noise1, IsParams;
    Depths(p);
    seq(p.k, i requires 0 <= i < p.k => Noise1(e, p, seed, nonce + i))
  }

  function NoiseVector2(e: Hashes, p: Params, seed: seq<byte>, nonce: nat): (v: seq<Poly>)
    requires IsParams(p) && nonce <= 4
    ensures |v| == p.k && forall i :: 0 <= i < p.k ==> v[i] == Noise2(e, seed, nonce + i)
    ensures IsShape(v, p.k)
  {
    hide Noise2, IsParams;
    Depths(p);
    seq(p.k, i requires 0 <= i < p.k => Noise2(e, seed, nonce + i))
  }

  // ----- polynomials on 16-bit words

  function Plus(a: Poly, b: Poly): (r: Poly)
    requires |a| == |b|
    ensures |r| == |a| && forall i :: 0 <= i < |a| ==> r[i] == W16(a[i] + b[i])
  {
    seq(|a|, i requires 0 <= i < |a| => W16(a[i] + b[i]))
  }

  function Minus(a: Poly, b: Poly): (r: Poly)
    requires |a| == |b|
    ensures |r| == |a| && forall i :: 0 <= i < |a| ==> r[i] == W16(a[i] - b[i])
  {
    seq(|a|, i requires 0 <= i < |a| => W16(a[i] - b[i]))
  }

  /** 2^32 mod Q. */
  const R2: int := 1353

  function ToMont(a: Poly): (r: Poly)
    ensures |r| == |a| && forall i :: 0 <= i < |a| ==> r[i] == MontgomeryReduce(a[i] * R2)
  {
    seq(|a|, i requires 0 <= i < |a| => MontgomeryReduce(a[i] * R2))
  }

  /** mlkem_poly_ntt reduces after transforming. */
  function Transformed(a: Poly): (r: Poly)
    requires |a| == N
    ensures |r| == N
  {
    Reduced(Ntt(a))
  }

  function TransformedVector(v: seq<Poly>): (r: seq<Poly>)
    requires IsShape(v, |v|)
    ensures IsShape(r, |v|) && forall i :: 0 <= i < |v| ==> r[i] == Transformed(v[i])
  {
    seq(|v|, i requires 0 <= i < |v| => Transformed(v[i]))
  }

  function Accumulate(x: seq<Poly>, y: seq<Poly>, n: nat): (r: Poly)
    requires Matched(x, y) && 0 < n <= |x|
    ensures |r| == N
  {
    var last := BaseMul(x[n - 1], y[n - 1]);
    if n == 1 then last else Plus(Accumulate(x, y, n - 1), last)
  }

  /** polyvec_basemul_acc_montgomery. */
  function RowProduct(x: seq<Poly>, y: seq<Poly>): (r: Poly)
    requires Matched(x, y) && 0 < |x|
    ensures |r| == N
  {
    Reduced(Accumulate(x, y, |x|))
  }

  // ----- bytes

  const BYTES_FORMAT: Format := Format(P.D12, 128)
  const MESSAGE_FORMAT: Format := Format(P.BITS, 32)

  function DepthFormat(d: nat): (r: Format)
    requires IsDepth(d)
  {
    if d == 4 then Format(P.D4, 128) else if d == 5 then Format(P.D5, 32) else if d == 10 then Format(P.D10, 64)
         else Format(P.D11, 32)
  }

  lemma Formats(d: nat)
    requires IsDepth(d)
    ensures Usable(BYTES_FORMAT) && Usable(MESSAGE_FORMAT) && Usable(DepthFormat(d))
  {
    hide Lossless;
    P.TwelveLossless();
    P.BitsLossless();
    P.SharedLossless();
    P.FiveLossless();
    P.ElevenLossless();
  }

  function StandardPoly(a: Poly): (r: Poly)
    ensures |r| == |a| && forall i :: 0 <= i < |a| ==> r[i] == Standard(a[i])
  {
    seq(|a|, i requires 0 <= i < |a| => Standard(a[i]))
  }

  function StandardVector(v: seq<Poly>): (r: seq<Poly>)
    requires IsShape(v, |v|)
    ensures IsShape(r, |v|) && forall i :: 0 <= i < |v| ==> r[i] == StandardPoly(v[i])
  {
    seq(|v|, i requires 0 <= i < |v| => StandardPoly(v[i]))
  }

  function CompressPoly(d: nat, a: Poly): (r: Poly)
    requires IsDepth(d)
    ensures |r| == |a| && forall i :: 0 <= i < |a| ==> r[i] == Compress(d, a[i])
  {
    seq(|a|, i requires 0 <= i < |a| => Compress(d, a[i]))
  }

  function DecompressPoly(d: nat, a: Poly): (r: Poly)
    requires IsDepth(d)
    ensures |r| == |a| && forall i :: 0 <= i < |a| ==> r[i] == Decompress(d, a[i])
  {
    seq(|a|, i requires 0 <= i < |a| => Decompress(d, a[i]))
  }

  function CompressVector(d: nat, v: seq<Poly>): (r: seq<Poly>)
    requires IsDepth(d) && IsShape(v, |v|)
    ensures IsShape(r, |v|) && forall i :: 0 <= i < |v| ==> r[i] == CompressPoly(d, v[i])
  {
    seq(|v|, i requires 0 <= i < |v| => CompressPoly(d, v[i]))
  }

  function DecompressVector(d: nat, v: seq<Poly>): (r: seq<Poly>)
    requires IsDepth(d) && IsShape(v, |v|)
    ensures IsShape(r, |v|) && forall i :: 0 <= i < |v| ==> r[i] == DecompressPoly(d, v[i])
  {
    seq(|v|, i requires 0 <= i < |v| => DecompressPoly(d, v[i]))
  }

  lemma Depths(p: Params)
    requires IsParams(p)
    ensures IsDepth(p.du) && IsDepth(p.dv) && 2 <= p.k <= 4
  {
  }

  function EncryptionKeySize(p: Params): (r: nat) { Total(p.k, BYTES_FORMAT) + SYM }

  function DecryptionKeySize(p: Params): (r: nat) { Total(p.k, BYTES_FORMAT) }

  function CiphertextSize(p: Params): (r: nat)
    requires IsParams(p)
  {
    Total(p.k, DepthFormat(p.du)) + Size(DepthFormat(p.dv))
  }

  /** The sizes of the parameter tables. */
  lemma Sizes()
    ensures EncryptionKeySize(ML_KEM_512) == 800 && CiphertextSize(ML_KEM_512) == 768
    ensures EncryptionKeySize(ML_KEM_768) == 1184 && CiphertextSize(ML_KEM_768) == 1088
    ensures EncryptionKeySize(ML_KEM_1024) == 1568 && CiphertextSize(ML_KEM_1024) == 1568
    ensures DecryptionKeySize(ML_KEM_512) == 768 && DecryptionKeySize(ML_KEM_768) == 1152
         && DecryptionKeySize(ML_KEM_1024) == 1536
  {
  }

  function PackVectorBytes(v: seq<Poly>): (r: seq<byte>)
    requires IsShape(v, |v|)
  {
    PackVector(BYTES_FORMAT, StandardVector(v))
  }

  function UnpackVectorBytes(p: Params, b: seq<byte>): (v: seq<Poly>)
    requires IsParams(p) && |b| == Total(p.k, BYTES_FORMAT)
    ensures IsShape(v, p.k)
  {
    hide Lossless, Total;
    Depths(p);
    Formats(p.du);
    UnpackVector(BYTES_FORMAT, b, p.k)
  }

  function PackCiphertext(p: Params, b: seq<Poly>, v: Poly): (r: seq<byte>)
    requires IsParams(p) && IsShape(b, p.k) && |v| == N
  {
    Depths(p);
    PackVector(DepthFormat(p.du), CompressVector(p.du, b)) + PackVector(DepthFormat(p.dv), [CompressPoly(p.dv, v)])
  }

  function UnpackCiphertext(p: Params, c: seq<byte>): (r: (seq<Poly>, Poly))
    requires IsParams(p) && |c| == CiphertextSize(p)
    ensures IsShape(r.0, p.k) && |r.1| == N
  {
    hide Lossless, Total, IsParams, DepthFormat;
    Depths(p);
    Formats(p.du);
    Formats(p.dv);
    OneSize(DepthFormat(p.dv));
    var n := Total(p.k, DepthFormat(p.du));
    (DecompressVector(p.du, UnpackVector(DepthFormat(p.du), c[..n], p.k)),
     DecompressPoly(p.dv, UnpackVector(DepthFormat(p.dv), c[n..], 1)[0]))
  }

  lemma OneSize(f: Format)
    ensures Total(1, f) == Size(f)
  {
  }

  function FromMessage(m: seq<byte>): (a: Poly)
    requires |m| == SYM
    ensures |a| == N
  {
    hide Lossless, InRange, Decode, Encode;
    Formats(4);
    EncodeDecode(P.BITS, m, 32);
    var bits := Decode(P.BITS, m, 32);
    seq(N, i requires 0 <= i < N => FromBit(bits[i]))
  }

  function ToMessage(a: Poly): (r: seq<byte>)
    requires |a| == N
  {
    Encode(P.BITS, seq(N, i requires 0 <= i < N => ToBit(a[i])), 32)
  }

  // ----- the scheme

  /** Row i of t = A * s + e, all in the transform domain. */
  function PublicRow(row: seq<Poly>, s: seq<Poly>, e: Poly): (t: Poly)
    requires Matched(row, s) && 0 < |s| && |e| == N
    ensures |t| == N
  {
    Reduced(Plus(ToMont(RowProduct(row, s)), Transformed(e)))
  }

  function PublicVector(a: seq<seq<Poly>>, s: seq<Poly>, e: seq<Poly>): (t: seq<Poly>)
    requires IsShape(e, |a|) && 0 < |s| && forall i :: 0 <= i < |a| ==> Matched(a[i], s)
    ensures IsShape(t, |a|) && forall i :: 0 <= i < |a| ==> t[i] == PublicRow(a[i], s, e[i])
  {
    seq(|a|, i requires 0 <= i < |a| => PublicRow(a[i], s, e[i]))
  }

  lemma MatrixMatches(p: Params, a: seq<seq<Poly>>, v: seq<Poly>)
    requires IsMatrixShape(p, a) && IsShape(v, p.k)
    ensures forall i :: 0 <= i < p.k ==> Matched(a[i], v)
  {
  }

  /** Encryption key, decryption key; None if a sampler runs into its limit. */
  function KeyGen(h: Hashes, p: Params, d: seq<byte>): (r: Option<(seq<byte>, seq<byte>)>)
    requires IsParams(p) && |d| == SYM
  {
    hide IsParams, Matched, PublicRow, Transformed, Noise1;
    Depths(p);
    var buf := Bytes(h.g(d + [ByteOf(p.k)]), 0, 2 * SYM);
    var seed, noise := buf[..SYM], buf[SYM..];
    var a := GenMatrix(h, p, seed, false);
    if !IsMatrixShape(p, a) then None
    else
      var s := TransformedVector(NoiseVector1(h, p, noise, 0));
      MatrixMatches(p, a, s);
      var t := PublicVector(a, s, NoiseVector1(h, p, noise, p.k));
      Some((PackVectorBytes(t) + seed, PackVectorBytes(s)))
  }

  /** Row i of u = A^T * r + e1. */
  function CipherRow(row: seq<Poly>, r: seq<Poly>, e1: Poly): (u: Poly)
    requires Matched(row, r) && 0 < |r| && |e1| == N
    ensures |u| == N
  {
    Reduced(Plus(InvNtt(RowProduct(row, r)), e1))
  }

  function CipherVector(a: seq<seq<Poly>>, r: seq<Poly>, e1: seq<Poly>): (u: seq<Poly>)
    requires IsShape(e1, |a|) && 0 < |r| && forall i :: 0 <= i < |a| ==> Matched(a[i], r)
    ensures IsShape(u, |a|) && forall i :: 0 <= i < |a| ==> u[i] == CipherRow(a[i], r, e1[i])
  {
    seq(|a|, i requires 0 <= i < |a| => CipherRow(a[i], r, e1[i]))
  }

  /** v = t * r + e2 + m. */
  function CipherPoly(t: seq<Poly>, r: seq<Poly>, e2: Poly, m: Poly): (v: Poly)
    requires Matched(t, r) && 0 < |t| && |e2| == |m| == N
    ensures |v| == N
  {
    Reduced(Plus(Plus(InvNtt(RowProduct(t, r)), e2), m))
  }

  lemma VectorsMatch(x: seq<Poly>, y: seq<Poly>, n: nat)
    requires IsShape(x, n) && IsShape(y, n)
    ensures Matched(x, y)
  {
  }

  function Encrypt(h: Hashes, p: Params, ek: seq<byte>, m: seq<byte>, coins: seq<byte>): (r: Option<seq<byte>>)
    requires IsParams(p) && |ek| == EncryptionKeySize(p) && |m| == SYM
  {
    hide IsParams, Matched, CipherRow, CipherPoly, Transformed, Noise1, Noise2, FromMessage, Total;
    Depths(p);
    var n := Total(p.k, BYTES_FORMAT);
    var t, seed := UnpackVectorBytes(p, ek[..n]), ek[n..];
    var at := GenMatrix(h, p, seed, true);
    if !IsMatrixShape(p, at) then None
    else
      var r := TransformedVector(NoiseVector1(h, p, coins, 0));
      MatrixMatches(p, at, r);
      VectorsMatch(t, r, p.k);
      var u := CipherVector(at, r, NoiseVector2(h, p, coins, p.k));
      var v := CipherPoly(t, r, Noise2(h, coins, 2 * p.k), FromMessage(m));
      Some(PackCiphertext(p, u, v))
  }

  /** v - s * u, reduced to the centre. */
  function DecryptPoly(s: seq<Poly>, u: seq<Poly>, v: Poly): (w: Poly)
    requires Matched(s, u) && 0 < |s| && |v| == N
    ensures |w| == N
  {
    Reduced(Minus(v, InvNtt(RowProduct(s, TransformedVector(u)))))
  }

  function Decrypt(p: Params, dk: seq<byte>, c: seq<byte>): (m: seq<byte>)
    requires IsParams(p) && |dk| == DecryptionKeySize(p) && |c| == CiphertextSize(p)
  {
    hide IsParams, Matched, DecryptPoly;
    Depths(p);
    var (u, v) := UnpackCiphertext(p, c);
    var s := UnpackVectorBytes(p, dk);
    VectorsMatch(s, u, p.k);
    ToMessage(DecryptPoly(s, u, v))
  }
}
