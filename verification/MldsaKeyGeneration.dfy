/** Key generation is algorithm 6 of FIPS 204: which bytes of the hash are which seed, which streams the
    samplers read, and the bits of both keys. */
module MldsaKeyGeneration {
  import opened Polynomials
  import opened NttAlgebra
  import opened Words
  import opened BitCodec
  import opened BitOrder
  import opened Rejection
  import opened Candidates
  import opened VectorCodec
  import opened FieldVectors
  import opened RingRows
  import opened MldsaReduce
  import opened MldsaRounding
  import opened MldsaVector
  import opened MldsaEquation
  import opened MldsaRecovery
  import opened MldsaKeys
  import opened MldsaScheme
  import opened MldsaCorrect
  import opened MldsaRuns
  import opened MldsaStandard
  import opened MldsaRing
  import opened MldsaFields
  import opened MldsaVerification
  import S = MldsaSampling

  // ----- the sampled polynomials

  lemma TwoNonceBytes(i: nat, j: nat)
    requires i < 256 && j < 256
    ensures NonceBytes(i * 0x100 + j) == [ByteOf(j), ByteOf(i)]
  {
    assert (i * 0x100 + j) % 0x100 == j && (i * 0x100 + j) / 0x100 == i && i % 0x100 == i;
  }

  /** Entry i, j of the matrix is the sample of the stream of rho, j, i. */
  lemma MatrixEntry(e: Shake, p: Params, rho: seq<byte>, i: nat, j: nat)
    requires IsParams(p) && i < p.k && j < p.ell
    ensures SampleOf(UniformCandidates(e.x128(rho + [ByteOf(j), ByteOf(i)])), e.limit / 3,
                     ExpandMatrix(e, p, rho)[i][j])
  {
    hide SampleOf, S.Sampled, NonceBytes, UniformCandidates;
    TwoNonceBytes(i, j);
    UniformSample(e.x128(rho + [ByteOf(j), ByteOf(i)]), e.limit);
    assert ExpandMatrix(e, p, rho)[i] == ExpandRow(e, p, rho, i);
    assert ExpandRow(e, p, rho, i)[j] == UniformPoly(e, rho, i, j);
  }

  /** Short polynomial number n: the sample of the stream of the seed, n, 0. */
  ghost predicate ShortPoly(e: Shake, p: Params, seed: seq<byte>, n: nat, a: Poly)
    requires n < 256
  {
    var s := e.x256(seed + [ByteOf(n), ByteOf(0)]);
    SampleOf(if p.eta == 2 then Eta2Candidates(s) else Eta4Candidates(s), 2 * e.limit, a)
  }

  /** v holds the complete short polynomials number first, first + 1, ... */
  ghost predicate ShortPolys(e: Shake, p: Params, seed: seq<byte>, first: nat, n: nat, v: seq<Poly>)
    requires first + n <= 256
  {
    IsShape(v, n) && forall i :: 0 <= i < n ==> ShortPoly(e, p, seed, first + i, v[i])
  }

  lemma ShortEntry(e: Shake, p: Params, seed: seq<byte>, first: nat, n: nat, i: nat)
    requires S.IsEta(p.eta) && first + n <= 256 && i < n
    ensures ShortPoly(e, p, seed, first + i, ShortVector(e, p, seed, first, n)[i])
  {
    hide SampleOf, S.Sampled, NonceBytes, Eta2Candidates, Eta4Candidates, S.EtaSampler;
    TwoNonceBytes(0, first + i);
    ShortSample(p.eta, e.x256(seed + [ByteOf(first + i), ByteOf(0)]), e.limit);
  }

  /** The vectors of short polynomials are determined by their streams. */
  lemma ShortExactly(e: Shake, p: Params, seed: seq<byte>, first: nat, n: nat, v: seq<Poly>)
    requires S.IsEta(p.eta) && first + n <= 256 && ShortPolys(e, p, seed, first, n, v)
    ensures ShortVector(e, p, seed, first, n) == v
  {
    hide SampleOf, ShortVector, Eta2Candidates, Eta4Candidates;
    var w := ShortVector(e, p, seed, first, n);
    forall i | 0 <= i < n
      ensures w[i] == v[i]
    {
      ShortEntry(e, p, seed, first, n, i);
      assert ShortPoly(e, p, seed, first + i, v[i]);
      var s := e.x256(seed + [ByteOf(first + i), ByteOf(0)]);
      OneSample(if p.eta == 2 then Eta2Candidates(s) else Eta4Candidates(s), 2 * e.limit, w[i], v[i]);
    }
  }

  lemma ShortComplete(e: Shake, p: Params, seed: seq<byte>, first: nat, n: nat)
    requires S.IsEta(p.eta) && first + n <= 256 && IsShape(ShortVector(e, p, seed, first, n), n)
    ensures ShortPolys(e, p, seed, first, n, ShortVector(e, p, seed, first, n))
  {
    hide ShortPoly, ShortVector;
    forall i | 0 <= i < n
      ensures ShortPoly(e, p, seed, first + i, ShortVector(e, p, seed, first, n)[i])
    {
      ShortEntry(e, p, seed, first, n, i);
    }
  }

  // ----- the public vector

  /** Row i of t = A * s1 + s2 modulo Q, split by Power2Round. */
  function PublicRow(a: seq<Poly>, s1: seq<Poly>, s2: Poly): (t: Poly)
    requires Matched(a, s1) && |s2| == N
    ensures |t| == N
  {
    Residues(Lin(1, RowSum(a, s1, |a|), 1, s2), Q)
  }

  function UpperHalf(t: Poly): (r: Poly)
    ensures |r| == |t| && forall i :: 0 <= i < |t| ==> r[i] == Halves(t[i]).0
  {
    seq(|t|, i requires 0 <= i < |t| => Halves(t[i]).0)
  }

  function LowerHalf(t: Poly): (r: Poly)
    ensures |r| == |t| && forall i :: 0 <= i < |t| ==> r[i] == Halves(t[i]).1
  {
    seq(|t|, i requires 0 <= i < |t| => Halves(t[i]).1)
  }

  function PublicRows(p: Params, a: seq<seq<Poly>>, s1: seq<Poly>, s2: seq<Poly>): (t: seq<Poly>)
    requires IsMatrixShape(p, a) && IsShape(s1, p.ell) && IsShape(s2, p.k)
    ensures IsShape(t, p.k)
    ensures forall i :: 0 <= i < p.k ==> Matched(a[i], s1) && t[i] == PublicRow(a[i], s1, s2[i])
  {
    hide PublicRow, Matched;
    MatrixMatches(p, a, s1);
    seq(p.k, i requires 0 <= i < p.k => PublicRow(a[i], s1, s2[i]))
  }

  function UpperHalves(t: seq<Poly>): (r: seq<Poly>)
    requires IsShape(t, |t|)
    ensures IsShape(r, |t|) && forall i :: 0 <= i < |t| ==> r[i] == UpperHalf(t[i])
  {
    seq(|t|, i requires 0 <= i < |t| => UpperHalf(t[i]))
  }

  function LowerHalves(t: seq<Poly>): (r: seq<Poly>)
    requires IsShape(t, |t|)
    ensures IsShape(r, |t|) && forall i :: 0 <= i < |t| ==> r[i] == LowerHalf(t[i])
  {
    seq(|t|, i requires 0 <= i < |t| => LowerHalf(t[i]))
  }

  lemma HalvesExactly(t: Poly)
    requires IsCanonical(t)
    ensures UpperBits(t) == UpperHalf(t) && LowerBits(t) == LowerHalf(t)
  {
    hide Power2Round, Halves;
    forall i | 0 <= i < N
      ensures UpperBits(t)[i] == UpperHalf(t)[i] && LowerBits(t)[i] == LowerHalf(t)[i]
    {
      Power2RoundIsStandard(t[i]);
    }
  }

  lemma PublicRowsExactly(p: Params, a: seq<seq<Poly>>, mat: seq<seq<Poly>>, s1: seq<Poly>, s2: seq<Poly>)
    requires IsParams(p) && IsMatrixShape(p, a) && IsMatrixShape(p, mat) && MatrixOf(a, mat)
    requires forall i :: 0 <= i < p.k ==> IsVector(mat[i], p.ell, Q)
    requires IsShape(s1, p.ell) && IsShape(s2, p.k) && IsVector(s1, p.ell, Q) && IsVector(s2, p.k, 4)
    ensures 0 < p.ell && forall i :: 0 <= i < p.k ==> Matched(mat[i], s1)
    ensures KeyVector(mat, s1, s2) == PublicRows(p, a, s1, s2) && AllCanonical(PublicRows(p, a, s1, s2))
  {
    hide IsParams, Matched, RowOf, PublicRow, KeyRow, IsCanonical;
    SmallOmega(p);
    MatrixMatches(p, mat, s1);
    forall i | 0 <= i < p.k
      ensures KeyRow(mat[i], s1, s2[i]) == PublicRows(p, a, s1, s2)[i] && IsCanonical(PublicRows(p, a, s1, s2)[i])
    {
      RowLength(mat[i], s1, p.ell);
      PublicRowExactly(a[i], mat[i], s1, s2[i]);
    }
  }

  lemma PublicRowExactly(a: seq<Poly>, row: seq<Poly>, s1: seq<Poly>, s2: Poly)
    requires RowOf(a, row) && Matched(row, s1) && 0 < |row| <= 8 && IsVector(row, |row|, Q) && IsVector(s1, |s1|, Q)
    requires IsPoly(s2, 4)
    ensures Matched(a, s1) && KeyRow(row, s1, s2) == PublicRow(a, s1, s2) && IsCanonical(PublicRow(a, s1, s2))
  {
    hide RowSum, Residues, KeyRow, IsCanonical, Lin, HasValues;
    KeyRowExactly(a, row, s1, s2);
    KeyValues(row, s1, s2);
  }

  lemma SplitExactly(t: seq<Poly>)
    requires IsShape(t, |t|) && AllCanonical(t)
    ensures UpperVector(t) == UpperHalves(t) && LowerVector(t) == LowerHalves(t)
  {
    hide UpperBits, LowerBits, UpperHalf, LowerHalf, IsCanonical;
    forall i | 0 <= i < |t|
      ensures UpperBits(t[i]) == UpperHalf(t[i]) && LowerBits(t[i]) == LowerHalf(t[i])
    {
      HalvesExactly(t[i]);
    }
  }

  // ----- the keys

  /** The bytes of both keys. */
  ghost predicate KeysAre(e: Shake, p: Params, rho: seq<byte>, key: seq<byte>, s1: seq<Poly>, s2: seq<Poly>,
       t: seq<Poly>, pk: seq<byte>, sk: seq<byte>)
    requires IsShape(s1, |s1|) && IsShape(s2, |s2|) && IsShape(t, |t|)
  {
    && pk == rho + Packed(10, UpperHalves(t), false, 0)
    && sk == rho + key + Bytes(e.x256(pk), 0, 64) + Packed(ShortBits(p), s1, true, p.eta)
             + Packed(ShortBits(p), s2, true, p.eta) + Packed(13, LowerHalves(t), true, 0x1000)
  }

  lemma KeyBytes(e: Shake, p: Params, rho: seq<byte>, key: seq<byte>, s1: seq<Poly>, s2: seq<Poly>, t: seq<Poly>,
       pk: seq<byte>)
    requires IsParams(p) && IsShape(s1, p.ell) && IsShape(s2, p.k) && IsShape(t, p.k) && |rho| == |key| == 32
    requires VectorInRange(EtaFormat(p.eta), s1) && VectorInRange(EtaFormat(p.eta), s2)
    requires VectorInRange(T1_FORMAT, UpperHalves(t)) && VectorInRange(T0_FORMAT, LowerHalves(t))
    requires pk == PackPublicKey(PublicKey(rho, UpperHalves(t)))
    ensures KeysAre(e, p, rho, key, s1, s2, t, pk,
                    PackSecretKey(p, SecretKey(rho, key, Hash(e, pk, 64), s1, s2, LowerHalves(t))))
  {
    hide IsParams, Lossless, Ordered, EtaFormat, VectorInRange, PackVector, Packed, UpperHalf, LowerHalf;
    Widths(p);
    PackedExactly(T1_FORMAT, 10, false, 0, UpperHalves(t));
    PackedExactly(T0_FORMAT, 13, true, 0x1000, LowerHalves(t));
    PackedExactly(EtaFormat(p.eta), ShortBits(p), true, p.eta, s1);
    PackedExactly(EtaFormat(p.eta), ShortBits(p), true, p.eta, s2);
  }

  lemma SampledShort(e: Shake, p: Params, seed: seq<byte>, first: nat, n: nat, v: seq<Poly>)
    requires IsParams(p) && S.IsEta(p.eta) && first + n <= 256 && ShortPolys(e, p, seed, first, n, v)
    ensures ShortVector(e, p, seed, first, n) == v && IsShape(v, n) && IsVector(v, n, p.eta)
    ensures IsVector(v, n, 4) && IsVector(v, n, Q) && VectorInRange(EtaFormat(p.eta), v)
  {
    hide IsParams, ShortPoly, ShortVector, EtaFormat, VectorInRange;
    ShortExactly(e, p, seed, first, n, v);
    ShortBound(e, p, seed, first, n);
    EtaBound(p);
    Wider(v, n, p.eta, 4);
    Wider(v, n, 4, Q);
    ShortInRange(p, v);
  }

  lemma SplitInRange(p: Params, mat: seq<seq<Poly>>, s1: seq<Poly>, s2: seq<Poly>)
    requires IsParams(p) && IsMatrixShape(p, mat) && forall i :: 0 <= i < p.k ==> IsVector(mat[i], p.ell, Q)
    requires IsShape(s1, p.ell) && IsShape(s2, p.k) && IsVector(s1, p.ell, Q) && IsVector(s2, p.k, 4)
    requires 0 < p.ell && forall i :: 0 <= i < p.k ==> Matched(mat[i], s1)
    ensures VectorInRange(T1_FORMAT, UpperVector(KeyVector(mat, s1, s2)))
    ensures VectorInRange(T0_FORMAT, LowerVector(KeyVector(mat, s1, s2)))
  {
    hide KeyRow, UpperBits, LowerBits, Matched, IsParams;
    SmallOmega(p);
    var t := KeyVector(mat, s1, s2);
    forall i | 0 <= i < p.k
      ensures Split(t[i], UpperVector(t)[i], LowerVector(t)[i])
    {
      RowLength(mat[i], s1, p.ell);
      KeyValues(mat[i], s1, s2[i]);
      SplitOfKey(t[i]);
    }
    UpperInRange(UpperVector(t));
    LowerInRange(LowerVector(t));
  }

  /** For every matrix a and short vectors s1, s2 behind the sampled values: both keys are those of the
      standard. The hash of the seed, k and ell gives rho, then the seed of s1 and s2, then the signing key. */
  lemma KeyGenExactly(e: Shake, p: Params, a: seq<seq<Poly>>, s1: seq<Poly>, s2: seq<Poly>, seed: seq<byte>,
       b: seq<byte>)
    requires IsParams(p) && |seed| == 32 && b == Bytes(e.x256(seed + [ByteOf(p.k), ByteOf(p.ell)]), 0, 128)
    requires IsMatrixShape(p, a) && MatrixOf(a, ExpandMatrix(e, p, b[..32]))
    requires ShortPolys(e, p, b[32..96], 0, p.ell, s1) && ShortPolys(e, p, b[32..96], p.ell, p.k, s2)
    ensures KeyGen(e, p, seed).Some?
    ensures KeysAre(e, p, b[..32], b[96..], s1, s2, PublicRows(p, a, s1, s2), KeyGen(e, p, seed).value.0,
                    KeyGen(e, p, seed).value.1)
  {
    hide IsParams, MatrixOf, Matched, ShortPolys, KeyVector, UpperVector, LowerVector, UpperHalves, LowerHalves,
         KeysAre, PublicRows, VectorInRange, PackPublicKey, PackSecretKey, ShortVector, IsVector, ExpandMatrix;
    SmallOmega(p);
    EtaOf(p);
    SampledShort(e, p, b[32..96], 0, p.ell, s1);
    SampledShort(e, p, b[32..96], p.ell, p.k, s2);
    var mat := ExpandMatrix(e, p, b[..32]);
    ShapeOf(p, a, mat);
    MatrixBound(e, p, b[..32]);
    PublicRowsExactly(p, a, mat, s1, s2);
    SplitExactly(PublicRows(p, a, s1, s2));
    SplitInRange(p, mat, s1, s2);
    var t := PublicRows(p, a, s1, s2);
    KeyBytes(e, p, b[..32], b[96..], s1, s2, t, PackPublicKey(PublicKey(b[..32], UpperHalves(t))));
  }

  /** Key generation fails only if the samplers run out of bytes. */
  lemma KeyGenSampled(e: Shake, p: Params, seed: seq<byte>, b: seq<byte>)
    returns (a: seq<seq<Poly>>, s1: seq<Poly>, s2: seq<Poly>)
    requires IsParams(p) && |seed| == 32 && b == Bytes(e.x256(seed + [ByteOf(p.k), ByteOf(p.ell)]), 0, 128)
    requires KeyGen(e, p, seed).Some?
    ensures IsMatrixShape(p, a) && MatrixOf(a, ExpandMatrix(e, p, b[..32]))
    ensures p.ell + p.k <= 256
    ensures ShortPolys(e, p, b[32..96], 0, p.ell, s1) && ShortPolys(e, p, b[32..96], p.ell, p.k, s2)
  {
    hide IsParams, MatrixOf, ShortPolys, ShortVector, ExpandMatrix, KeyVector, UpperVector, LowerVector, PackPublicKey,
         PackSecretKey, Matched;
    SmallOmega(p);
    EtaOf(p);
    var mat := ExpandMatrix(e, p, b[..32]);
    a := MatrixExists(p, mat);
    s1, s2 := ShortVector(e, p, b[32..96], 0, p.ell), ShortVector(e, p, b[32..96], p.ell, p.k);
    ShortComplete(e, p, b[32..96], 0, p.ell);
    ShortComplete(e, p, b[32..96], p.ell, p.k);
  }
}
