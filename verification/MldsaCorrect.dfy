/** The law at the centre of ML-DSA: verify accepts what sign returns. */
module MldsaCorrect {
  import opened NttAlgebra
  import opened Polynomials
  import opened Words
  import opened BitCodec
  import opened Rejection
  import opened Butterflies
  import opened MldsaReduce
  import opened MldsaRounding
  import opened MldsaVector
  import opened MldsaEquation
  import opened MldsaRecovery
  import opened VectorCodec
  import opened MldsaKeys
  import opened MldsaScheme
  import S = MldsaSampling
  import H = MldsaHints

  lemma FieldSizes()
    ensures Pow2(3) == 8 && Pow2(4) == 16 && Pow2(10) == 0x400 && Pow2(13) == 0x2000
    ensures Pow2(18) == 0x4_0000 && Pow2(20) == 0x10_0000
  {
    PowersOfTwo();
    assert Pow2(12) == 0x1000 && Pow2(14) == 0x4000;
    assert Pow2(16) == 0x1_0000;
  }

  lemma ShortInRange(p: Params, v: seq<Poly>)
    requires IsParams(p) && forall i :: 0 <= i < |v| ==> IsPoly(v[i], p.eta)
    ensures VectorInRange(EtaFormat(p.eta), v)
  {
    hide Pow2;
    FieldSizes();
  }

  lemma UpperInRange(v: seq<Poly>)
    requires forall i :: 0 <= i < |v| ==> forall j :: 0 <= j < |v[i]| ==> 0 <= v[i][j] <= 1023
    ensures VectorInRange(T1_FORMAT, v)
  {
    hide Pow2;
    FieldSizes();
  }

  lemma LowerInRange(v: seq<Poly>)
    requires forall i :: 0 <= i < |v| ==> forall j :: 0 <= j < |v[i]| ==> -0x1000 < v[i][j] <= 0x1000
    ensures VectorInRange(T0_FORMAT, v)
  {
    hide Pow2;
    FieldSizes();
  }

  lemma ResponseInRange(p: Params, v: seq<Poly>)
    requires IsParams(p) && IsVector(v, |v|, p.gamma1 - p.beta - 1)
    ensures VectorInRange(MaskFormat(p.gamma1), v)
  {
    hide Pow2;
    FieldSizes();
    forall i, j | 0 <= i < |v| && 0 <= j < N
      ensures Storable(MaskFormat(p.gamma1).codec, v[i][j])
    {
      assert IsPoly(v[i], p.gamma1 - p.beta - 1);
    }
  }

  lemma MaskBound(e: Shake, p: Params, seed: seq<byte>, nonce: nat, i: nat)
    requires IsParams(p)
    ensures IsPoly(MaskPoly(e, p, seed, nonce, i), 0x8_0000)
  {
    hide Pow2, Lossless, NonceBytes, Decode, Encode;
    FieldSizes();
    Formats(p);
    var f := MaskFormat(p.gamma1);
    var b := Bytes(e.x256(seed + NonceBytes((p.ell * (nonce % 0x1_0000) + i) % 0x1_0000)), 0, Size(f));
    EncodeDecode(f.codec, b, f.groups);
    var y := MaskPoly(e, p, seed, nonce, i);
    assert y == Decode(f.codec, b, f.groups);
    forall j | 0 <= j < N
      ensures -0x8_0000 <= y[j] <= 0x8_0000
    {
      assert Storable(f.codec, y[j]);
    }
  }

  lemma MatrixBound(e: Shake, p: Params, rho: seq<byte>)
    requires IsMatrixShape(p, ExpandMatrix(e, p, rho))
    ensures forall i :: 0 <= i < p.k ==> IsVector(ExpandMatrix(e, p, rho)[i], p.ell, Q)
  {
    hide S.Sampled, NonceBytes;
    var mat := ExpandMatrix(e, p, rho);
    forall i, j | 0 <= i < p.k && 0 <= j < p.ell
      ensures IsPoly(mat[i][j], Q)
    {
      assert IsShape(mat[i], p.ell);
      S.Ranges(2);
      S.SampledRange(S.UNIFORM, e.x128(rho + NonceBytes(i * 0x100 + j)), e.limit, 0, Q - 1);
    }
  }

  lemma ShortBound(e: Shake, p: Params, seed: seq<byte>, nonce: nat, n: nat)
    requires S.IsEta(p.eta) && IsShape(ShortVector(e, p, seed, nonce, n), n)
    ensures IsVector(ShortVector(e, p, seed, nonce, n), n, p.eta)
  {
    hide S.Sampled, NonceBytes, S.EtaSampler, S.IsEta;
    S.Ranges(p.eta);
    var v := ShortVector(e, p, seed, nonce, n);
    forall i | 0 <= i < n
      ensures IsPoly(v[i], p.eta)
    {
      S.SampledRange(S.EtaSampler(p.eta), e.x256(seed + NonceBytes(nonce + i)), e.limit, -p.eta, p.eta);
    }
  }

  lemma Wider(v: seq<Poly>, n: nat, a: int, b: int)
    requires IsVector(v, n, a) && a <= b
    ensures IsVector(v, n, b)
  {
    forall i | 0 <= i < n
      ensures IsPoly(v[i], b)
    {
      assert IsPoly(v[i], a);
    }
  }

  /** What a key pair made by KeyGen is: a consistent pair, with ranges the codecs keep. */
  ghost predicate KeyPair(e: Shake, p: Params, pk: seq<byte>, sk: seq<byte>, k: SecretKey, t1: seq<Poly>)
    requires IsParams(p)
  {
    && |pk| == PublicKeySize(p) && UnpackPublicKey(p, pk) == PublicKey(k.rho, t1)
    && |sk| == SecretKeySize(p) && UnpackSecretKey(p, sk) == k
    && k.tr == Hash(e, pk, TR)
    && KeyRows(p, ExpandMatrix(e, p, k.rho), k, t1)
  }

  /** A * s1 + s2 == t1 * 2^13 + t0, row by row. */
  ghost predicate KeyRows(p: Params, mat: seq<seq<Poly>>, k: SecretKey, t1: seq<Poly>) {
    && 0 < p.ell <= 7 && |mat| == p.k && IsShape(t1, p.k) && IsShape(k.s2, p.k) && IsShape(k.t0, p.k)
    && IsVector(k.s1, p.ell, 4)
    && forall i :: 0 <= i < p.k ==> KeyRowOk(p, mat[i], k.s1, k.s2[i], t1[i], k.t0[i])
  }

  ghost predicate KeyRowOk(p: Params, row: seq<Poly>, s1: seq<Poly>, s2: Poly, t1: Poly, t0: Poly) {
    && Matched(row, s1) && 0 < |row| && IsVector(row, p.ell, Q) && IsPoly(s2, 4)
    && Split(KeyRow(row, s1, s2), t1, t0)
  }

  lemma KeyRowsHold(p: Params, mat: seq<seq<Poly>>, k: SecretKey, t: seq<Poly>, t1: seq<Poly>)
    requires IsParams(p) && IsMatrixShape(p, mat) && forall i :: 0 <= i < p.k ==> IsVector(mat[i], p.ell, Q)
    requires IsVector(k.s1, p.ell, p.eta) && IsVector(k.s2, p.k, p.eta)
    requires IsShape(t, p.k) && IsShape(t1, p.k) && IsShape(k.t0, p.k)
    requires forall i :: 0 <= i < p.k ==> Matched(mat[i], k.s1) && t[i] == KeyRow(mat[i], k.s1, k.s2[i])
    requires forall i :: 0 <= i < p.k ==> t1[i] == UpperBits(t[i]) && k.t0[i] == LowerBits(t[i])
    ensures KeyRows(p, mat, k, t1)
    ensures VectorInRange(T1_FORMAT, t1) && VectorInRange(T0_FORMAT, k.t0)
  {
    hide KeyRow, UpperBits, LowerBits;
    Wider(k.s1, p.ell, p.eta, 4);
    Wider(k.s2, p.k, p.eta, 4);
    forall i | 0 <= i < p.k
      ensures KeyRowOk(p, mat[i], k.s1, k.s2[i], t1[i], k.t0[i])
    {
      Wider(mat[i], p.ell, Q, Q);
      Wider(k.s1, p.ell, 4, Q);
      KeyValues(mat[i], k.s1, k.s2[i]);
      SplitOfKey(t[i]);
    }
    forall i | 0 <= i < p.k
      ensures Split(KeyRow(mat[i], k.s1, k.s2[i]), t1[i], k.t0[i])
    {
      assert KeyRowOk(p, mat[i], k.s1, k.s2[i], t1[i], k.t0[i]);
    }
    UpperInRange(t1);
    LowerInRange(k.t0);
  }

  lemma KeyGenMakesPair(e: Shake, p: Params, seed: seq<byte>) returns (k: SecretKey, t1: seq<Poly>)
    requires IsParams(p) && |seed| == SEED && KeyGen(e, p, seed).Some?
    ensures var (pk, sk) := KeyGen(e, p, seed).value; KeyPair(e, p, pk, sk, k, t1)
  {
    hide IsParams, Matched, KeyRow, UpperBits, LowerBits, S.Sampled, KeyRows, Total, EtaFormat, PackSecretKey,
         PackPublicKey, UnpackSecretKey, UnpackPublicKey, VectorInRange;
    SmallOmega(p);
    EtaOf(p);
    var b := Hash(e, seed + [ByteOf(p.k), ByteOf(p.ell)], 2 * SEED + CRH);
    var rho, seed', key := b[..SEED], b[SEED..SEED + CRH], b[SEED + CRH..];
    var mat := ExpandMatrix(e, p, rho);
    var s1, s2 := ShortVector(e, p, seed', 0, p.ell), ShortVector(e, p, seed', p.ell, p.k);
    MatrixMatches(p, mat, s1);
    var t := KeyVector(mat, s1, s2);
    t1 := UpperVector(t);
    var pk := PackPublicKey(PublicKey(rho, t1));
    k := SecretKey(rho, key, Hash(e, pk, TR), s1, s2, LowerVector(t));
    MatrixBound(e, p, rho);
    ShortBound(e, p, seed', 0, p.ell);
    ShortBound(e, p, seed', p.ell, p.k);
    KeyRowsHold(p, mat, k, t, t1);
    ShortInRange(p, s1);
    ShortInRange(p, s2);
    SecretKeyRoundTrip(p, k);
    PublicKeyRoundTrip(p, PublicKey(rho, t1));
  }

  lemma AcceptedRow(p: Params, row: seq<Poly>, k: SecretKey, t1: Poly, i: nat, y: seq<Poly>, z: seq<Poly>, c: Poly)
    requires IsGamma2(p.gamma2) && i < p.k && IsShape(k.s2, p.k) && IsShape(k.t0, p.k)
    requires KeyRowOk(p, row, k.s1, k.s2[i], t1, k.t0[i]) && 0 < p.ell <= 7
    requires IsVector(k.s1, p.ell, 4) && IsVector(y, p.ell, 0x8_0000) && IsVector(z, p.ell, Q) && IsPoly(c, Q)
    requires forall l :: 0 <= l < p.ell ==> z[l] == Response(c, k.s1[l], y[l])
    requires Matched(row, y) && Matched(row, z)
    requires Within(Remainder(p.gamma2, CommitmentRow(row, y), c, k.s2[i]), p.gamma2 - 1)
         && Within(Carry(c, k.t0[i]), p.gamma2 - 1)
    ensures Corrected(p.gamma2, RecoveredRow(row, z, c, t1),
         RowHint(p.gamma2, CommitmentRow(row, y), c, k.s2[i], k.t0[i]))
            == HighPart(p.gamma2, CommitmentRow(row, y))
  {
    hide Response, Remainder, Carry, RowHint, CommitmentRow, RecoveredRow, KeyRow, Split, Corrected, HighPart,
         IsGamma2;
    RowRecovers(p.gamma2, row, k.s1, y, z, c, k.s2[i], t1, k.t0[i]);
  }

  lemma NormWithin(v: seq<Poly>, n: nat, bound: int, i: nat, b: int)
    requires |v| == n && (forall l :: 0 <= l < n ==> |v[l]| == N) && !AnyNormExceeds(v, bound) && i < n && bound <= b
    ensures Within(v[i], b - 1)
  {
    NormAccepts(v, n, bound);
    assert IsPoly(v[i], bound - 1);
  }

  /** All rows: what verify recovers from the response and the hints is the commitment that was hashed. */
  lemma AttemptRecovers(p: Params, mat: seq<seq<Poly>>, k: SecretKey, t1: seq<Poly>, y: seq<Poly>, c: Poly)
    requires IsParams(p) && IsMatrixShape(p, mat) && KeyRows(p, mat, k, t1)
    requires IsVector(y, p.ell, 0x8_0000) && IsPoly(c, 1)
    requires forall i :: 0 <= i < p.k ==> Matched(mat[i], y)
    requires !AnyNormExceeds(ResponseVector(c, k.s1, y), p.gamma1 - p.beta)
    requires !AnyNormExceeds(RemainderVector(p.gamma2, Commitment(mat, y), c, k.s2), p.gamma2 - p.beta)
    requires !AnyNormExceeds(CarryVector(c, k.t0), p.gamma2)
    ensures forall i :: 0 <= i < p.k ==> Matched(mat[i], ResponseVector(c, k.s1, y))
    ensures RecoveredVector(p.gamma2, mat, ResponseVector(c, k.s1, y), c, t1,
         HintVector(p.gamma2, Commitment(mat, y), c, k.s2, k.t0))
            == HighVector(p.gamma2, Commitment(mat, y))
    ensures VectorInRange(MaskFormat(p.gamma1), ResponseVector(c, k.s1, y))
  {
    hide Response, Remainder, Carry, RowHint, CommitmentRow, RecoveredRow, KeyRow, Split, Corrected, HighPart,
         Matched, IsParams, AnyNormExceeds, MaskFormat, KeyRowOk, VectorInRange;
    var g, w, z := p.gamma2, Commitment(mat, y), ResponseVector(c, k.s1, y);
    SmallOmega(p);
    MatrixMatches(p, mat, z);
    Bounds(p);
    NormAccepts(z, p.ell, p.gamma1 - p.beta);
    ResponseInRange(p, z);
    Wider(z, p.ell, p.gamma1 - p.beta - 1, Q);
    ChallengeBound(c);
    forall i | 0 <= i < p.k
      ensures RecoveredVector(g, mat, z, c, t1, HintVector(g, w, c, k.s2, k.t0))[i] == HighVector(g, w)[i]
    {
      assert KeyRowOk(p, mat[i], k.s1, k.s2[i], t1[i], k.t0[i]);
      NormWithin(RemainderVector(g, w, c, k.s2), p.k, g - p.beta, i, g);
      NormWithin(CarryVector(c, k.t0), p.k, g, i, g);
      AcceptedRow(p, mat[i], k, t1[i], i, y, z, c);
    }
  }

  lemma Bounds(p: Params)
    requires IsParams(p)
    ensures 0 <= p.beta && p.gamma1 - p.beta - 1 <= Q
  {
  }

  lemma ChallengeBound(c: Poly)
    requires IsPoly(c, 1)
    ensures IsPoly(c, Q)
  {
  }

  lemma ChallengeIsPoly(s: Stream, limit: nat, tau: nat)
    requires tau <= 64 && S.Challenge(s, limit, tau) != []
    ensures IsPoly(S.Challenge(s, limit, tau), 1)
  {
    hide S.Challenge, S.Weight;
    S.ChallengeIsSparse(s, limit, tau);
  }

  lemma MaskVectorBound(e: Shake, p: Params, seed: seq<byte>, nonce: nat)
    requires IsParams(p)
    ensures IsVector(MaskVector(e, p, seed, nonce), p.ell, 0x8_0000)
  {
    hide MaskPoly, IsParams;
    forall i | 0 <= i < p.ell
      ensures IsPoly(MaskVector(e, p, seed, nonce)[i], 0x8_0000)
    {
      MaskBound(e, p, seed, nonce, i);
    }
  }

  /** For every SHAKE, parameter set, seed, message, randomizer and turn of the rejection
      loop: a signature that sign accepts under a key from keygen verifies. */
  lemma SignThenVerify(e: Shake, p: Params, seed: seq<byte>, m: seq<byte>, rnd: seq<byte>, nonce: nat)
    requires IsParams(p) && |seed| == SEED && KeyGen(e, p, seed).Some?
    ensures var (pk, sk) := KeyGen(e, p, seed).value;
      && |pk| == PublicKeySize(p) && |sk| == SecretKeySize(p)
      && var r := SignAttempt(e, p, sk, m, rnd, nonce);
         r.Accepted? ==> Verify(e, p, pk, m, r.sig) == Valid
  {
    hide IsParams, Matched, CommitmentRow, HighPart, Response, Remainder, Carry, RowHint, S.Challenge, KeyRows,
         MaskVector, UnpackPublicKey, UnpackSecretKey, PackSignature, UnpackSignature, SecretKeySize, PublicKeySize,
         SignatureSize, RecoveredVector, HighVector, ResponseVector, RemainderVector, CarryVector, HintVector,
         Commitment, KeyGen, HighFormat, MaskFormat, Lossless, VectorInRange, AnyNormExceeds, H.Fits, HintSum, Hash,
         ExpandMatrix, PackVector;
    var (pk, sk) := KeyGen(e, p, seed).value;
    var k, t1 := KeyGenMakesPair(e, p, seed);
    var r := SignAttempt(e, p, sk, m, rnd, nonce);
    if r.Accepted? {
      SmallOmega(p);
      Formats(p);
      var g := p.gamma2;
      var mu := MessageHash(e, k.tr, m);
      var mat := ExpandMatrix(e, p, k.rho);
      var s := Hash(e, k.key + rnd + mu, CRH);
      var y := MaskVector(e, p, s, nonce);
      MatrixMatches(p, mat, y);
      var w := Commitment(mat, y);
      var ct := Hash(e, mu + PackVector(HighFormat(g), HighVector(g, w)), p.challengeSize);
      var c := S.Challenge(e.x256(ct), e.limit, p.tau);
      var z, h := ResponseVector(c, k.s1, y), HintVector(g, w, c, k.s2, k.t0);
      MaskVectorBound(e, p, s, nonce);
      ChallengeIsPoly(e.x256(ct), e.limit, p.tau);
      AttemptRecovers(p, mat, k, t1, y, c);
      HintsFit(g, w, c, k.s2, k.t0, p.omega);
      SignatureRoundTrip(p, Signature(ct, z, h));
    }
  }
}
