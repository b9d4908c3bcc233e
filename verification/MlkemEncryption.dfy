/** K-PKE is section 5 of FIPS 203: keys, ciphertexts and decrypted messages bit by bit, from the bits of
    the inputs, the polynomials of the ring and the bytes of the hash functions. */
module MlkemEncryption {
  import opened Modular
  import opened Polynomials
  import opened NttAlgebra
  import opened Words
  import opened BitCodec
  import opened BitOrder
  import opened Rejection
  import opened Candidates
  import opened VectorCodec
  import opened FieldVectors
  import opened RingRows
  import opened MlkemReduce
  import opened MlkemProduct
  import opened MlkemCompress
  import opened MlkemKpke
  import opened MlkemCorrect
  import opened MlkemDecryption
  import opened MlkemNoise
  import opened MlkemRing
  import opened MlkemStandard
  import P = MlkemPack

  // ----- what is sampled

  /** Polynomial x, y of gen_matrix: the sample of the stream of the seed, x, y. */
  lemma MatrixEntry(h: Hashes, p: Params, seed: seq<byte>, transposed: bool, i: nat, j: nat)
    requires IsParams(p) && i < p.k && j < p.k
    ensures SampleOf(TwelveBitCandidates(h.xof(seed + [ByteOf(if transposed then i else j),
                                                       ByteOf(if transposed then j else i)])),
                     2 * (h.limit / 3), GenMatrix(h, p, seed, transposed)[i][j])
  {
    hide SampleOf, Accepted, TwelveBitCandidates;
    var x, y := if transposed then i else j, if transposed then j else i;
    TwelveBitSample(h.xof(seed + [ByteOf(x), ByteOf(y)]), h.limit);
    assert GenMatrix(h, p, seed, transposed)[i][j] == UniformPoly(h, seed, x, y);
  }

  /** The noise polynomial of a stream. */
  function BinomialPoly(s: Stream, eta: nat): (a: Poly)
    ensures |a| == N && forall i :: 0 <= i < N ==> a[i] == Binomial(s, eta, i)
  {
    seq(N, i requires 0 <= i < N => Binomial(s, eta, i))
  }

  /** k noise polynomials, from nonce first on. */
  function BinomialRows(h: Hashes, eta: nat, seed: seq<byte>, first: nat, k: nat): (v: seq<Poly>)
    requires first + k <= 256
    ensures |v| == k && forall i :: 0 <= i < k ==> v[i] == BinomialPoly(h.prf(seed + [ByteOf(first + i)]), eta)
    ensures IsShape(v, k)
  {
    hide BinomialPoly;
    seq(k, i requires 0 <= i < k => BinomialPoly(h.prf(seed + [ByteOf(first + i)]), eta))
  }

  lemma Noise1Exactly(h: Hashes, p: Params, seed: seq<byte>, nonce: nat)
    requires IsParams(p) && nonce < 256
    ensures Noise1(h, p, seed, nonce) == BinomialPoly(h.prf(seed + [ByteOf(nonce)]), Eta1(p))
  {
    hide Noise1, Binomial, IsParams;
    forall i | 0 <= i < N
      ensures Noise1(h, p, seed, nonce)[i] == Binomial(h.prf(seed + [ByteOf(nonce)]), Eta1(p), i)
    {
      Noise1Binomial(h, p, seed, nonce, i);
    }
  }

  lemma Noise2Exactly(h: Hashes, seed: seq<byte>, nonce: nat)
    requires nonce < 256
    ensures Noise2(h, seed, nonce) == BinomialPoly(h.prf(seed + [ByteOf(nonce)]), 2)
  {
    hide Noise2, Binomial;
    forall i | 0 <= i < N
      ensures Noise2(h, seed, nonce)[i] == Binomial(h.prf(seed + [ByteOf(nonce)]), 2, i)
    {
      Noise2Binomial(h, seed, nonce, i);
    }
  }

  lemma NoiseRowsExactly(h: Hashes, p: Params, seed: seq<byte>, first: nat)
    requires IsParams(p) && first <= 4 && first + p.k <= 256
    ensures NoiseVector1(h, p, seed, first) == BinomialRows(h, Eta1(p), seed, first, p.k)
    ensures NoiseVector2(h, p, seed, first) == BinomialRows(h, 2, seed, first, p.k)
  {
    hide Noise1, Noise2, BinomialPoly, IsParams;
    forall i | 0 <= i < p.k
      ensures NoiseVector1(h, p, seed, first)[i] == BinomialRows(h, Eta1(p), seed, first, p.k)[i]
      ensures NoiseVector2(h, p, seed, first)[i] == BinomialRows(h, 2, seed, first, p.k)[i]
    {
      Noise1Exactly(h, p, seed, first + i);
      Noise2Exactly(h, seed, first + i);
    }
  }

  // ----- keys

  /** a is the matrix behind the sampled values. */
  ghost predicate MatrixOf(a: seq<seq<Poly>>, mat: seq<seq<Poly>>) {
    |a| == |mat| && forall i :: 0 <= i < |mat| ==> RowOf(a[i], mat[i])
  }

  /** Whatever was sampled is the transform of a matrix. */
  lemma MatrixExists(p: Params, mat: seq<seq<Poly>>) returns (a: seq<seq<Poly>>)
    requires IsMatrixShape(p, mat)
    ensures IsMatrixShape(p, a) && MatrixOf(a, mat)
  {
    hide RowOf;
    a := [];
    for i := 0 to |mat|
      invariant |a| == i && forall j :: 0 <= j < i ==> IsShape(a[j], p.k) && RowOf(a[j], mat[j])
    {
      var row := Untransform(mat[i], p.k);
      a := a + [row];
    }
  }

  lemma ShapeOf(p: Params, a: seq<seq<Poly>>, mat: seq<seq<Poly>>)
    requires IsMatrixShape(p, a) && MatrixOf(a, mat)
    ensures IsMatrixShape(p, mat)
  {
    forall i | 0 <= i < |mat|
      ensures IsShape(mat[i], p.k)
    {
      assert RowOf(a[i], mat[i]);
    }
  }

  /** The transforms of v, in [0, q). */
  function HatRows(v: seq<Poly>): (r: seq<Poly>)
    requires IsShape(v, |v|)
    ensures IsShape(r, |v|) && forall i :: 0 <= i < |v| ==> r[i] == Residues(Hat(v[i]), Q)
  {
    seq(|v|, i requires 0 <= i < |v| => Residues(Hat(v[i]), Q))
  }

  /** A * s + e */
  function PublicSums(p: Params, a: seq<seq<Poly>>, s: seq<Poly>, e: seq<Poly>): (t: seq<Poly>)
    requires IsMatrixShape(p, a) && IsShape(s, p.k) && IsShape(e, p.k)
    ensures IsShape(t, p.k)
    ensures forall i :: 0 <= i < p.k ==> Matched(a[i], s) && t[i] == Lin(1, RowSum(a[i], s, p.k), 1, e[i])
  {
    hide Matched;
    MatrixMatches(p, a, s);
    seq(p.k, i requires 0 <= i < p.k => Lin(1, RowSum(a[i], s, p.k), 1, e[i]))
  }

  /** v holds the transforms of w, up to multiples of q. */
  ghost predicate Represents(v: seq<Poly>, w: seq<Poly>) {
    |v| == |w| && forall i :: 0 <= i < |v| ==> |w[i]| == N && IsPoly(v[i], 1664) && CongSeq(v[i], Hat(w[i]), Q)
  }

  /** The bytes of a vector of transforms. */
  lemma BytesExactly(p: Params, v: seq<Poly>, w: seq<Poly>)
    requires IsParams(p) && IsShape(v, p.k) && IsShape(w, p.k) && Represents(v, w)
    ensures PackVectorBytes(v) == Packed(12, HatRows(w), false, 0)
  {
    hide Lossless, Ordered, PackVector, CongSeq, Hat, IsParams, Residues, StandardPoly, InRange, Packed;
    Widths(4);
    LevelsArePowers(4);
    var s := StandardVector(v);
    forall i | 0 <= i < p.k
      ensures s[i] == HatRows(w)[i] && InRange(P.D12, s[i])
    {
      assert IsPoly(v[i], 1664);
      StandardPolyOk(v[i]);
      StandardExactly(v[i], Hat(w[i]));
    }
    assert s == HatRows(w);
    PackedExactly(BYTES_FORMAT, 12, false, 0, s);
  }

  lemma SecretRepresents(v: seq<Poly>, k: nat)
    requires IsShape(v, k) && IsVector(v, k, 3)
    ensures Represents(TransformedVector(v), v) && IsVector(TransformedVector(v), k, 4095)
    ensures RowOf(v, TransformedVector(v))
  {
    hide CongSeq, Hat, Transformed;
    TransformedOk(v, k);
    forall i | 0 <= i < k
      ensures IsPoly(TransformedVector(v)[i], 1664)
    {
    }
  }

  lemma PublicRepresents(p: Params, a: seq<seq<Poly>>, mat: seq<seq<Poly>>, s: seq<Poly>, e: seq<Poly>)
    requires IsParams(p) && IsMatrixShape(p, a) && IsMatrixShape(p, mat) && MatrixOf(a, mat)
    requires forall i :: 0 <= i < p.k ==> IsVector(mat[i], p.k, 4095)
    requires IsShape(s, p.k) && IsVector(s, p.k, 3) && IsShape(e, p.k) && IsVector(e, p.k, 3)
    ensures 0 < p.k && forall i :: 0 <= i < p.k ==> Matched(mat[i], TransformedVector(s))
    ensures Represents(PublicVector(mat, TransformedVector(s), e), PublicSums(p, a, s, e))
  {
    hide IsParams, CongSeq, Hat, Transformed, Matched, RowOf, PublicRow, Lin, RowSum;
    Depths(p);
    SecretRepresents(s, p.k);
    var y := TransformedVector(s);
    MatrixMatches(p, mat, y);
    forall i | 0 <= i < p.k
      ensures IsPoly(PublicRow(mat[i], y, e[i]), 1664)
      ensures CongSeq(PublicRow(mat[i], y, e[i]), Hat(PublicSums(p, a, s, e)[i]), Q)
    {
      NoiseIsSmall(e, p.k, i);
      PublicExactly(mat[i], y, e[i], a[i], s, p.k);
    }
  }

  /** For every matrix a behind the sampled values: the keys of the standard. The first half of G(d || k) is
      the seed of the matrix, the second half the seed of the noise; s takes the nonces from 0 on, e those
      from k on. */
  lemma KeyGenExactly(h: Hashes, p: Params, a: seq<seq<Poly>>, d: seq<byte>, b: seq<byte>)
    requires IsParams(p) && |d| == 32 && b == Bytes(h.g(d + [ByteOf(p.k)]), 0, 64)
    requires IsMatrixShape(p, a) && MatrixOf(a, GenMatrix(h, p, b[..32], false))
    ensures var s, e := BinomialRows(h, Eta1(p), b[32..], 0, p.k), BinomialRows(h, Eta1(p), b[32..], p.k, p.k);
      KeyGen(h, p, d) == Some((Packed(12, HatRows(PublicSums(p, a, s, e)), false, 0) + b[..32],
                               Packed(12, HatRows(s), false, 0)))
  {
    hide IsParams, Matched, MatrixOf, Hat, CongSeq, PublicVector, PublicSums, TransformedVector, Packed, IsVector,
         PackVectorBytes, GenMatrix, HatRows, BinomialRows, Represents;
    Depths(p);
    var s, e := NoiseVector1(h, p, b[32..], 0), NoiseVector1(h, p, b[32..], p.k);
    NoiseRowsExactly(h, p, b[32..], 0);
    NoiseRowsExactly(h, p, b[32..], p.k);
    NoiseVectorBound(h, p, b[32..], 0);
    NoiseVectorBound(h, p, b[32..], p.k);
    var mat := GenMatrix(h, p, b[..32], false);
    ShapeOf(p, a, mat);
    MatrixBound(h, p, b[..32], false);
    SecretRepresents(s, p.k);
    PublicRepresents(p, a, mat, s, e);
    BytesExactly(p, TransformedVector(s), s);
    BytesExactly(p, PublicVector(mat, TransformedVector(s), e), PublicSums(p, a, s, e));
  }

  // ----- ciphertexts

  lemma KeyFields(p: Params, b: seq<byte>, n: nat)
    requires IsParams(p) && n == Total(p.k, BYTES_FORMAT) <= |b|
    ensures n == p.k * 384 && UnpackVectorBytes(p, b[..n]) == ReadVector(b, 0, 12, p.k, false, 0)
    ensures IsVector(UnpackVectorBytes(p, b[..n]), p.k, 4095)
  {
    hide Lossless, Ordered, UnpackVector, IsParams, Total, ReadVector;
    Depths(p);
    Widths(p.du);
    FormatSize(BYTES_FORMAT, 12, false, 0, p.k);
    PartRead(BYTES_FORMAT, 12, false, 0, b, 0, n, p.k);
    assert b[0..n] == b[..n];
    TwelveBitBound(b[..n], p.k);
  }

  lemma TwelveBitBound(b: seq<byte>, k: nat)
    requires Usable(BYTES_FORMAT) && |b| == Total(k, BYTES_FORMAT)
    ensures IsVector(UnpackVector(BYTES_FORMAT, b, k), k, 4095)
  {
    hide Lossless, UnpackVector, Pow2, PackVector;
    Powers();
    VectorBytes(BYTES_FORMAT, b, k);
    var v := UnpackVector(BYTES_FORMAT, b, k);
    forall i, t | 0 <= i < k && 0 <= t < N
      ensures -4095 <= v[i][t] <= 4095
    {
      assert Storable(P.D12, v[i][t]);
    }
  }

  /** The message polynomial: Decompress of each bit. */
  function MessagePoly(m: seq<byte>): (a: Poly)
    ensures |a| == N && forall i :: 0 <= i < N ==> a[i] == Expanded(1, StringBit(m, i))
  {
    hide Expanded;
    seq(N, i requires 0 <= i < N => Expanded(1, StringBit(m, i)))
  }

  lemma OneBitField(b: seq<byte>, i: nat)
    ensures Field(b, i, 1) == StringBit(b, i)
  {
    hide StringBit;
    assert Field(b, i, 1) == StringBit(b, i) + 2 * Field(b, i + 1, 0);
  }

  lemma MessageBitsAre(m: seq<byte>, i: nat)
    requires |m| == SYM && i < N
    ensures MessageBits(m)[i] == StringBit(m, i)
  {
    hide Lossless, Ordered, Decode, StringBit;
    Widths(4);
    OneField(MESSAGE_FORMAT, m, i, i);
    OneBitField(m, i);
  }

  lemma MessageExactly(m: seq<byte>)
    requires |m| == SYM
    ensures FromMessage(m) == MessagePoly(m)
  {
    hide Lossless, Decode, StringBit, Expanded, FromBit;
    forall i | 0 <= i < N
      ensures FromMessage(m)[i] == MessagePoly(m)[i]
    {
      MessageBitsAre(m, i);
      FromBitIsExpanded(StringBit(m, i));
      assert FromMessage(m)[i] == FromBit(MessageBits(m)[i]);
    }
  }

  /** A^T * r + e1 */
  function CipherSums(p: Params, at: seq<seq<Poly>>, r: seq<Poly>, e1: seq<Poly>): (u: seq<Poly>)
    requires IsMatrixShape(p, at) && IsShape(r, p.k) && IsShape(e1, p.k)
    ensures IsShape(u, p.k)
    ensures forall i :: 0 <= i < p.k ==> Matched(at[i], r) && u[i] == Lin(1, RowSum(at[i], r, p.k), 1, e1[i])
  {
    PublicSums(p, at, r, e1)
  }

  function NearestRows(d: nat, v: seq<Poly>): (r: seq<Poly>)
    requires IsShape(v, |v|)
    ensures IsShape(r, |v|) && forall i :: 0 <= i < |v| ==> r[i] == NearestPoly(d, v[i])
  {
    seq(|v|, i requires 0 <= i < |v| => NearestPoly(d, v[i]))
  }

  /** v is reduced and agrees with w modulo q. */
  ghost predicate Agrees(v: Poly, w: Poly) { |v| == |w| == N && IsPoly(v, 1664) && CongSeq(v, w, Q) }

  ghost predicate AllAgree(v: seq<Poly>, w: seq<Poly>) {
    |v| == |w| && forall i :: 0 <= i < |v| ==> Agrees(v[i], w[i])
  }

  /** The bytes of a compressed vector. */
  lemma CompressedBytes(d: nat, v: seq<Poly>, w: seq<Poly>)
    requires IsDepth(d) && IsShape(v, |v|) && IsShape(w, |w|) && AllAgree(v, w)
    ensures PackVector(DepthFormat(d), CompressVector(d, v)) == Packed(d, NearestRows(d, w), false, 0)
  {
    hide Lossless, Ordered, PackVector, CongSeq, InRange, Packed, DepthFormat, CompressPoly, NearestPoly;
    Widths(d);
    var c := CompressVector(d, v);
    forall i | 0 <= i < |v|
      ensures c[i] == NearestRows(d, w)[i] && InRange(DepthFormat(d).codec, c[i])
    {
      assert Agrees(v[i], w[i]);
      CompressedInRange(d, v[i]);
      CompressExactly(d, v[i], w[i]);
    }
    assert c == NearestRows(d, w);
    PackedExactly(DepthFormat(d), d, false, 0, c);
  }

  lemma CompressedPoly(d: nat, v: Poly, w: Poly)
    requires IsDepth(d) && |v| == |w| == N && Agrees(v, w)
    ensures PackVector(DepthFormat(d), [CompressPoly(d, v)]) == Packed(d, [NearestPoly(d, w)], false, 0)
  {
    hide PackVector, CongSeq, Packed, DepthFormat, CompressPoly, NearestPoly;
    CompressedBytes(d, [v], [w]);
    assert CompressVector(d, [v]) == [CompressPoly(d, v)];
    assert NearestRows(d, [w]) == [NearestPoly(d, w)];
  }

  lemma CiphersAgree(p: Params, a: seq<seq<Poly>>, mat: seq<seq<Poly>>, r: seq<Poly>, e1: seq<Poly>)
    requires IsParams(p) && IsMatrixShape(p, a) && IsMatrixShape(p, mat) && MatrixOf(a, mat)
    requires forall i :: 0 <= i < p.k ==> IsVector(mat[i], p.k, 4095)
    requires IsShape(r, p.k) && IsVector(r, p.k, 3) && IsShape(e1, p.k) && IsVector(e1, p.k, 3)
    ensures 0 < p.k && forall i :: 0 <= i < p.k ==> Matched(mat[i], TransformedVector(r))
    ensures AllAgree(CipherVector(mat, TransformedVector(r), e1), CipherSums(p, a, r, e1))
  {
    hide IsParams, CongSeq, Hat, Transformed, Matched, RowOf, CipherRow, Lin, RowSum;
    Depths(p);
    SecretRepresents(r, p.k);
    var y := TransformedVector(r);
    MatrixMatches(p, mat, y);
    forall i | 0 <= i < p.k
      ensures Agrees(CipherRow(mat[i], y, e1[i]), CipherSums(p, a, r, e1)[i])
    {
      NoiseIsSmall(e1, p.k, i);
      CipherExactly(mat[i], y, e1[i], a[i], r, p.k);
    }
  }

  /** t * r + e2 + m */
  function MaskedMessage(t: seq<Poly>, r: seq<Poly>, e2: Poly, m: Poly): (v: Poly)
    requires IsShape(t, |t|) && IsShape(r, |t|) && |e2| == |m| == N
    ensures |v| == N
  {
    Lin(1, Lin(1, RowSum(t, r, |t|), 1, e2), 1, m)
  }

  lemma MaskedAgrees(p: Params, b: seq<Poly>, t: seq<Poly>, r: seq<Poly>, e2: Poly, m: seq<byte>)
    requires IsParams(p) && IsShape(b, p.k) && IsShape(t, p.k) && IsVector(t, p.k, 4095) && RowOf(b, t)
    requires IsShape(r, p.k) && IsVector(r, p.k, 3) && IsPoly(e2, 3) && |m| == SYM
    ensures 0 < |t| && Matched(t, TransformedVector(r))
    ensures Agrees(CipherPoly(t, TransformedVector(r), e2, FromMessage(m)), MaskedMessage(b, r, e2, MessagePoly(m)))
  {
    hide IsParams, CongSeq, Hat, Transformed, Matched, RowOf, CipherPoly, Lin, RowSum, FromMessage, MessagePoly;
    Depths(p);
    SecretRepresents(r, p.k);
    MessageBound(m);
    MessageExactly(m);
    CipherPolyExactly(t, TransformedVector(r), e2, FromMessage(m), b, r, p.k);
  }

  /** The bytes of a ciphertext: both parts compressed. */
  function CiphertextBytes(p: Params, u: seq<Poly>, v: Poly): (ct: seq<byte>)
    requires IsParams(p) && IsShape(u, p.k) && |v| == N
  {
    Packed(p.du, NearestRows(p.du, u), false, 0) + Packed(p.dv, [NearestPoly(p.dv, v)], false, 0)
  }

  /** For every matrix a behind the sampled values and every b behind the public vector that ek holds: the
      ciphertext of the standard. r takes the nonces from 0 on, e1 those from k on, e2 nonce 2 * k. */
  lemma EncryptExactly(h: Hashes, p: Params, a: seq<seq<Poly>>, b: seq<Poly>, ek: seq<byte>, m: seq<byte>,
       coins: seq<byte>)
    requires IsParams(p) && |ek| == EncryptionKeySize(p) && |m| == 32
    requires IsMatrixShape(p, a) && MatrixOf(a, GenMatrix(h, p, ek[p.k * 384..], true))
    requires IsShape(b, p.k) && RowOf(b, ReadVector(ek, 0, 12, p.k, false, 0))
    ensures var r, e1 := BinomialRows(h, Eta1(p), coins, 0, p.k), BinomialRows(h, 2, coins, p.k, p.k);
      var e2 := BinomialPoly(h.prf(coins + [ByteOf(2 * p.k)]), 2);
      Encrypt(h, p, ek, m, coins) ==
      Some(CiphertextBytes(p, CipherSums(p, a, r, e1), MaskedMessage(b, r, e2, MessagePoly(m))))
  {
    hide IsParams, Matched, MatrixOf, CongSeq, CipherVector, CipherSums, TransformedVector, Packed, IsVector,
         CipherPoly, GenMatrix, BinomialRows, BinomialPoly, Agrees, AllAgree, UnpackVectorBytes, MaskedMessage,
         MessagePoly, FromMessage, Total, NearestPoly, PackVector, DepthFormat, ReadVector, Noise2, NoiseVector1,
         NoiseVector2, RowOf, CompressPoly, CompressVector, EncryptionKeySize;
    Depths(p);
    var n := Total(p.k, BYTES_FORMAT);
    KeyLength(p, ek);
    KeyFields(p, ek, n);
    var t := UnpackVectorBytes(p, ek[..n]);
    var r, e1, e2 := NoiseVector1(h, p, coins, 0), NoiseVector2(h, p, coins, p.k), Noise2(h, coins, 2 * p.k);
    NoiseRowsExactly(h, p, coins, 0);
    NoiseRowsExactly(h, p, coins, p.k);
    Noise2Exactly(h, coins, 2 * p.k);
    NoiseVectorBound(h, p, coins, 0);
    NoiseVectorBound(h, p, coins, p.k);
    NoiseBound(h, p, coins, 2 * p.k);
    var mat := GenMatrix(h, p, ek[n..], true);
    ShapeOf(p, a, mat);
    MatrixBound(h, p, ek[n..], true);
    CiphersAgree(p, a, mat, r, e1);
    MaskedAgrees(p, b, t, r, e2, m);
    CompressedBytes(p.du, CipherVector(mat, TransformedVector(r), e1), CipherSums(p, a, r, e1));
    CompressedPoly(p.dv, CipherPoly(t, TransformedVector(r), e2, FromMessage(m)),
                   MaskedMessage(b, r, e2, MessagePoly(m)));
  }

  /** Encryption fails only if the matrix runs out of bytes. */
  lemma EncryptSampled(h: Hashes, p: Params, ek: seq<byte>, m: seq<byte>, coins: seq<byte>)
    requires IsParams(p) && |ek| == EncryptionKeySize(p) && |m| == 32
    ensures Encrypt(h, p, ek, m, coins).Some? <==> IsMatrixShape(p, GenMatrix(h, p, ek[p.k * 384..], true))
  {
    hide IsParams, Matched, CipherVector, TransformedVector, CipherPoly, GenMatrix, UnpackVectorBytes, FromMessage,
         Total, PackCiphertext, Noise2, NoiseVector1, NoiseVector2, EncryptionKeySize, IsMatrixShape;
    KeyLength(p, ek);
    KeyFields(p, ek, Total(p.k, BYTES_FORMAT));
  }

  lemma KeyLength(p: Params, ek: seq<byte>)
    requires |ek| == EncryptionKeySize(p)
    ensures |ek| == Total(p.k, BYTES_FORMAT) + 32
  {
    hide Total;
  }

  // ----- decryption

  function ExpandedRows(d: nat, v: seq<Poly>): (r: seq<Poly>)
    requires IsShape(v, |v|)
    ensures IsShape(r, |v|) && forall i :: 0 <= i < |v| ==> r[i] == ExpandedPoly(d, v[i])
  {
    seq(|v|, i requires 0 <= i < |v| => ExpandedPoly(d, v[i]))
  }

  /** The two parts of a ciphertext. */
  function FirstPart(p: Params, ct: seq<byte>): (u: seq<Poly>)
    ensures IsShape(u, p.k)
  {
    ExpandedRows(p.du, ReadVector(ct, 0, p.du, p.k, false, 0))
  }

  function SecondPart(p: Params, ct: seq<byte>): (v: Poly)
    ensures |v| == N
  {
    ExpandedPoly(p.dv, ReadVector(ct, 8 * (p.k * (32 * p.du)), p.dv, 1, false, 0)[0])
  }

  lemma ExpandedRowsExactly(d: nat, v: seq<Poly>)
    requires IsDepth(d) && IsShape(v, |v|)
    ensures DecompressVector(d, v) == ExpandedRows(d, v)
  {
    hide DecompressPoly, ExpandedPoly;
    forall i | 0 <= i < |v|
      ensures DecompressVector(d, v)[i] == ExpandedRows(d, v)[i]
    {
      DecompressExactly(d, v[i]);
    }
  }

  lemma CiphertextFields(p: Params, ct: seq<byte>)
    requires IsParams(p) && |ct| == CiphertextSize(p)
    ensures UnpackCiphertext(p, ct) == (FirstPart(p, ct), SecondPart(p, ct))
  {
    hide Lossless, Ordered, UnpackVector, IsParams, Total, ReadVector, DepthFormat, DecompressVector, DecompressPoly,
         ExpandedRows, ExpandedPoly;
    Depths(p);
    Widths(p.du);
    Widths(p.dv);
    OneSize(DepthFormat(p.dv));
    var f, g := DepthFormat(p.du), DepthFormat(p.dv);
    var n := Total(p.k, f);
    FormatSize(f, p.du, false, 0, p.k);
    PartRead(f, p.du, false, 0, ct, 0, n, p.k);
    PartRead(g, p.dv, false, 0, ct, n, |ct|, 1);
    assert ct[0..n] == ct[..n] && ct[n..|ct|] == ct[n..];
    ExpandedRowsExactly(p.du, UnpackVector(f, ct[..n], p.k));
    DecompressExactly(p.dv, UnpackVector(g, ct[n..], 1)[0]);
  }

  lemma ReadRange(f: Format, d: nat, b: seq<byte>, n: nat, i: nat, t: nat)
    requires FormatIs(f, d, false, 0) && |b| == Total(n, f) && i < n && t < N
    ensures 0 <= UnpackVector(f, b, n)[i][t] < Pow2(d)
  {
    hide Lossless, Ordered, UnpackVector, PackVector;
    VectorBytes(f, b, n);
    assert InRange(f.codec, UnpackVector(f, b, n)[i]);
    assert Storable(f.codec, UnpackVector(f, b, n)[i][t]);
  }

  /** Decompressed coefficients are at most q. */
  lemma ExpandedRange(d: nat, y: int)
    requires IsDepth(d) && 0 <= y < Pow2(d)
    ensures 0 <= Decompress(d, y) <= Q
  {
    hide Decompress, Pow2;
    LevelsArePow2(d);
    CompressDecompress(d, y);
  }

  lemma CiphertextBound(p: Params, ct: seq<byte>)
    requires IsParams(p) && |ct| == CiphertextSize(p)
    ensures IsVector(UnpackCiphertext(p, ct).0, p.k, Q) && IsPoly(UnpackCiphertext(p, ct).1, Q)
  {
    hide Lossless, Ordered, UnpackVector, IsParams, Total, DepthFormat, Decompress, Pow2;
    Depths(p);
    Widths(p.du);
    Widths(p.dv);
    OneSize(DepthFormat(p.dv));
    var f, g := DepthFormat(p.du), DepthFormat(p.dv);
    var n := Total(p.k, f);
    var x, y := UnpackVector(f, ct[..n], p.k), UnpackVector(g, ct[n..], 1);
    forall i, t | 0 <= i < p.k && 0 <= t < N
      ensures -Q <= Decompress(p.du, x[i][t]) <= Q
    {
      ReadRange(f, p.du, ct[..n], p.k, i, t);
      ExpandedRange(p.du, x[i][t]);
    }
    forall t | 0 <= t < N
      ensures -Q <= Decompress(p.dv, y[0][t]) <= Q
    {
      ReadRange(g, p.dv, ct[n..], 1, 0, t);
      ExpandedRange(p.dv, y[0][t]);
    }
  }

  /** The bytes of a decoded message. */
  lemma MessageBytes(w: Poly, x: Poly)
    requires |w| == |x| == N && Agrees(w, x)
    ensures ToMessage(w) == Packed(1, [NearestPoly(1, x)], false, 0)
  {
    hide Lossless, Ordered, Encode, Cong, ToBit, Nearest, Packed;
    Widths(4);
    PowersOfTwo();
    var b := seq(N, i requires 0 <= i < N => ToBit(w[i]));
    forall i | 0 <= i < N
      ensures b[i] == Nearest(1, x[i]) && Storable(P.BITS, b[i])
    {
      ToBitIsNearest(w[i], x[i]);
      BitOf(w[i]);
    }
    assert b == NearestPoly(1, x);
    PackedExactly(MESSAGE_FORMAT, 1, false, 0, [b]);
    assert PackVector(MESSAGE_FORMAT, [b]) == Encode(P.BITS, b, 32) + [];
  }

  /** For every b behind the secret vector that dk holds: the message of the standard. */
  lemma DecryptedExactly(p: Params, b: seq<Poly>, dk: seq<byte>, ct: seq<byte>)
    requires IsParams(p) && |dk| == DecryptionKeySize(p) && |ct| == CiphertextSize(p)
    requires IsShape(b, p.k) && RowOf(b, ReadVector(dk, 0, 12, p.k, false, 0))
    ensures Matched(b, FirstPart(p, ct))
    ensures Decrypt(p, dk, ct) ==
      Packed(1, [NearestPoly(1, Lin(1, SecondPart(p, ct), -1, RowSum(b, FirstPart(p, ct), p.k)))], false, 0)
  {
    hide IsParams, Matched, CongSeq, IsVector, DecryptPoly, UnpackVectorBytes, UnpackCiphertext, CiphertextSize, RowOf,
         ReadVector, FirstPart, SecondPart, RowSum, Lin, ToMessage, Packed, NearestPoly, Total;
    Depths(p);
    KeyFields(p, dk, |dk|);
    assert dk[..|dk|] == dk;
    CiphertextFields(p, ct);
    CiphertextBound(p, ct);
    var s, u, v := UnpackVectorBytes(p, dk), FirstPart(p, ct), SecondPart(p, ct);
    DecryptExactly(s, u, v, b, p.k);
    VectorsMatch(s, u, p.k);
    MessageBytes(DecryptPoly(s, u, v), Lin(1, v, -1, RowSum(b, u, p.k)));
  }
}
