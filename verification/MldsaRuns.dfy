/** Whole runs of tools/pqc/mldsa/mldsa.c: key generation, signing and verification one after
    the other, and the absence of overflow on each of them. */
module MldsaRuns {
  import opened Polynomials
  import opened NttAlgebra
  import opened Words
  import opened BitCodec
  import opened Rejection
  import opened VectorCodec
  import opened MldsaReduce
  import opened MldsaRounding
  import opened MldsaVector
  import opened MldsaEquation
  import opened MldsaRecovery
  import opened MldsaKeys
  import opened MldsaScheme
  import opened MldsaCorrect
  import opened MldsaNoOverflow
  import MldsaSign
  import S = MldsaSampling
  import H = MldsaHints

  // ----- sign, then verify

  /** Keys from a seed, the rejection loop, and verification of what it returns. */
  method KeyGenSignVerify(e: Shake, p: Params, seed: seq<byte>, m: seq<byte>, rnd: seq<byte>, fuel: nat)
    returns (sig: Option<seq<byte>>, verdict: Verdict)
    requires IsParams(p) && |seed| == SEED
    ensures sig.Some? ==> KeyGen(e, p, seed).Some? && verdict == Valid
    ensures sig.Some? ==> |KeyGen(e, p, seed).value.0| == PublicKeySize(p)
                          && Verify(e, p, KeyGen(e, p, seed).value.0, m, sig.value) == Valid
  {
    hide KeyGen, SignAttempt, Verify, IsParams, SecretKeySize, PublicKeySize;
    sig, verdict := None, Undecided;
    var keys := KeyGen(e, p, seed);
    if keys.Some? {
      var (pk, sk) := keys.value;
      SignThenVerify(e, p, seed, m, rnd, 0);
      var nonce;
      sig, nonce := MldsaSign.Sign(e, p, sk, m, rnd, fuel);
      if sig.Some? {
        SignThenVerify(e, p, seed, m, rnd, nonce);
        verdict := Verify(e, p, pk, m, sig.value);
      }
    }
  }

  // ----- key generation

  ghost predicate KeyVectorSafe(mat: seq<seq<Poly>>, s1: seq<Poly>, s2: seq<Poly>) {
    |s2| == |mat| && forall i :: 0 <= i < |mat| ==>
      Matched(mat[i], s1) && 0 < |mat[i]| && |s2[i]| == N && KeyRowSafe(mat[i], s1, s2[i])
  }

  /** Every 32-bit intermediate of mldsa_keygen_internal fits. */
  ghost predicate KeyGenSafe(e: Shake, p: Params, seed: seq<byte>)
    requires IsParams(p) && |seed| == SEED
  {
    EtaOf(p);
    SmallOmega(p);
    var b := Hash(e, seed + [ByteOf(p.k), ByteOf(p.ell)], 2 * SEED + CRH);
    var mat := ExpandMatrix(e, p, b[..SEED]);
    var s1, s2 := ShortVector(e, p, b[SEED..SEED + CRH], 0, p.ell), ShortVector(e, p, b[SEED..SEED + CRH], p.ell, p.k);
    IsMatrixShape(p, mat) && IsShape(s1, p.ell) && IsShape(s2, p.k) ==> KeyVectorSafe(mat, s1, s2)
  }

  lemma KeyGenNeverOverflows(e: Shake, p: Params, seed: seq<byte>)
    requires IsParams(p) && |seed| == SEED
    ensures KeyGenSafe(e, p, seed)
  {
    hide IsParams, KeyRowSafe, S.Sampled, Hash, S.EtaSampler, Matched, NonceBytes;
    EtaOf(p);
    SmallOmega(p);
    var b := Hash(e, seed + [ByteOf(p.k), ByteOf(p.ell)], 2 * SEED + CRH);
    var rho, short := b[..SEED], b[SEED..SEED + CRH];
    var mat := ExpandMatrix(e, p, rho);
    var s1, s2 := ShortVector(e, p, short, 0, p.ell), ShortVector(e, p, short, p.ell, p.k);
    if IsMatrixShape(p, mat) && IsShape(s1, p.ell) && IsShape(s2, p.k) {
      MatrixBound(e, p, rho);
      ShortBound(e, p, short, 0, p.ell);
      ShortBound(e, p, short, p.ell, p.k);
      EtaBound(p);
      Wider(s1, p.ell, p.eta, Q);
      Wider(s2, p.k, p.eta, 4);
      MatrixMatches(p, mat, s1);
      forall i | 0 <= i < p.k
        ensures Matched(mat[i], s1) && 0 < |mat[i]| && |s2[i]| == N && KeyRowSafe(mat[i], s1, s2[i])
      {
        RowLength(mat[i], s1, p.ell);
        KeyRowIsSafe(mat[i], s1, s2[i]);
      }
    }
  }

  lemma EtaBound(p: Params)
    requires IsParams(p)
    ensures 0 <= p.eta <= 4
  {
  }

  lemma RowLength(row: seq<Poly>, v: seq<Poly>, n: nat)
    requires Matched(row, v) && |v| == n
    ensures |row| == n
  {
  }

  // ----- one turn of the signing loop

  ghost predicate CommitmentSafe(g: int, mat: seq<seq<Poly>>, y: seq<Poly>) {
    IsGamma2(g) && forall i :: 0 <= i < |mat| ==> Matched(mat[i], y) && 0 < |mat[i]| && CommitmentRowSafe(g, mat[i], y)
  }

  ghost predicate ResponsesSafe(c: Poly, s1: seq<Poly>, y: seq<Poly>) {
    |c| == N && |s1| == |y| && forall l :: 0 <= l < |y| ==> |s1[l]| == |y[l]| == N && ResponseSafe(c, s1[l], y[l])
  }

  ghost predicate HintsSafe(g: int, w: seq<Poly>, c: Poly, s2: seq<Poly>, t0: seq<Poly>) {
    && IsGamma2(g) && |c| == N && |w| == |s2| == |t0|
    && forall i :: 0 <= i < |w| ==> |w[i]| == |s2[i]| == |t0[i]| == N && HintRowSafe(g, w[i], c, s2[i], t0[i])
  }

  /** Every 32-bit intermediate of one turn fits, for a mask y and a challenge c. */
  ghost predicate TurnSafe(p: Params, k: SecretKey, mat: seq<seq<Poly>>, y: seq<Poly>, c: Poly) {
    && CommitmentSafe(p.gamma2, mat, y) && 0 < |y|
    && (c != [] ==> ResponsesSafe(c, k.s1, y) && HintsSafe(p.gamma2, Commitment(mat, y), c, k.s2, k.t0))
  }

  /** Turn number nonce of mldsa_sign_internal under any secret key bytes. */
  ghost predicate SignAttemptSafe(e: Shake, p: Params, sk: seq<byte>, m: seq<byte>, rnd: seq<byte>, nonce: nat)
    requires IsParams(p) && |sk| == SecretKeySize(p)
  {
    SmallOmega(p);
    Formats(p);
    var k := UnpackSecretKey(p, sk);
    var mu := MessageHash(e, k.tr, m);
    var mat := ExpandMatrix(e, p, k.rho);
    IsMatrixShape(p, mat) ==>
      var y := MaskVector(e, p, Hash(e, k.key + rnd + mu, CRH), nonce);
      MatrixMatches(p, mat, y);
      var w1 := HighVector(p.gamma2, Commitment(mat, y));
      var ct := Hash(e, mu + PackVector(HighFormat(p.gamma2), w1), p.challengeSize);
      TurnSafe(p, k, mat, y, S.Challenge(e.x256(ct), e.limit, p.tau))
  }

  lemma UnpackedBound(f: Format, b: seq<byte>, n: nat)
    requires Usable(f) && |b| == Total(n, f) && f.codec.negate && 0 <= f.codec.c <= 0x8_0000
         && Pow2(f.codec.d) <= 0x10_0000
    ensures IsVector(UnpackVector(f, b, n), n, 0x10_0000)
  {
    hide Lossless, PackVector, UnpackVector, Pow2;
    VectorBytes(f, b, n);
    var v := UnpackVector(f, b, n);
    forall i | 0 <= i < n
      ensures IsPoly(v[i], 0x10_0000)
    {
      forall j | 0 <= j < N
        ensures -0x10_0000 <= v[i][j] <= 0x10_0000
      {
        assert Storable(f.codec, v[i][j]);
      }
    }
  }

  /** Formats of secret vectors and responses: c - x in at most 20 bits. */
  lemma SecretFormats(p: Params)
    requires IsParams(p)
    ensures forall f :: f in {EtaFormat(p.eta), T0_FORMAT, MaskFormat(p.gamma1)} ==>
      f.codec.negate && 0 <= f.codec.c <= 0x8_0000 && Pow2(f.codec.d) <= 0x10_0000
  {
    hide Pow2;
    FieldSizes();
  }

  lemma SecretsBound(p: Params, sk: seq<byte>)
    requires IsParams(p) && |sk| == SecretKeySize(p)
    ensures var k := UnpackSecretKey(p, sk);
      IsVector(k.s1, p.ell, 0x10_0000) && IsVector(k.s2, p.k, 0x10_0000) && IsVector(k.t0, p.k, 0x10_0000)
  {
    hide Lossless, Total, IsParams, EtaFormat, MaskFormat, InRange, UnpackVector, Pow2;
    Formats(p);
    SecretFormats(p);
    var e := EtaFormat(p.eta);
    var a1 := 2 * SEED + TR;
    var a2 := a1 + Total(p.ell, e);
    var a3 := a2 + Total(p.k, e);
    UnpackedBound(e, sk[a1..a2], p.ell);
    UnpackedBound(e, sk[a2..a3], p.k);
    UnpackedBound(T0_FORMAT, sk[a3..], p.k);
  }

  lemma TurnIsSafe(p: Params, k: SecretKey, mat: seq<seq<Poly>>, y: seq<Poly>, c: Poly)
    requires IsParams(p) && IsMatrixShape(p, mat) && forall i :: 0 <= i < p.k ==> IsVector(mat[i], p.ell, Q)
    requires IsVector(k.s1, p.ell, Q) && IsVector(k.s2, p.k, Q) && IsVector(k.t0, p.k, Q) && IsVector(y, p.ell, Q)
    requires c == [] || IsPoly(c, 1)
    ensures TurnSafe(p, k, mat, y, c)
  {
    hide IsParams, CommitmentRowSafe, ResponseSafe, HintRowSafe, Matched, CommitmentRow, IsCanonical;
    SmallOmega(p);
    MatrixMatches(p, mat, y);
    forall i | 0 <= i < p.k
      ensures Matched(mat[i], y) && 0 < |mat[i]| && CommitmentRowSafe(p.gamma2, mat[i], y)
           && IsCanonical(CommitmentRow(mat[i], y))
    {
      RowLength(mat[i], y, p.ell);
      CommitmentRowIsSafe(p.gamma2, mat[i], y);
    }
    if c != [] {
      ChallengeBound(c);
      forall l | 0 <= l < p.ell
        ensures |k.s1[l]| == |y[l]| == N && ResponseSafe(c, k.s1[l], y[l])
      {
        ResponseIsSafe(c, k.s1[l], y[l]);
      }
      var w := Commitment(mat, y);
      forall i | 0 <= i < p.k
        ensures |w[i]| == |k.s2[i]| == |k.t0[i]| == N && HintRowSafe(p.gamma2, w[i], c, k.s2[i], k.t0[i])
      {
        HintRowIsSafe(p.gamma2, w[i], c, k.s2[i], k.t0[i]);
      }
    }
  }

  lemma SignNeverOverflows(e: Shake, p: Params, sk: seq<byte>, m: seq<byte>, rnd: seq<byte>, nonce: nat)
    requires IsParams(p) && |sk| == SecretKeySize(p)
    ensures SignAttemptSafe(e, p, sk, m, rnd, nonce)
  {
    hide IsParams, TurnSafe, S.Sampled, Hash, S.Challenge, UnpackSecretKey, MaskVector, CommitmentRow, HighPart,
         PackVector, HighFormat, SecretKeySize, Lossless, ExpandMatrix, Matched;
    SmallOmega(p);
    Formats(p);
    var k := UnpackSecretKey(p, sk);
    var mu := MessageHash(e, k.tr, m);
    var mat := ExpandMatrix(e, p, k.rho);
    if IsMatrixShape(p, mat) {
      var y := MaskVector(e, p, Hash(e, k.key + rnd + mu, CRH), nonce);
      MatrixMatches(p, mat, y);
      var w1 := HighVector(p.gamma2, Commitment(mat, y));
      var ct := Hash(e, mu + PackVector(HighFormat(p.gamma2), w1), p.challengeSize);
      var c := S.Challenge(e.x256(ct), e.limit, p.tau);
      MatrixBound(e, p, k.rho);
      MaskVectorBound(e, p, Hash(e, k.key + rnd + mu, CRH), nonce);
      SecretsBound(p, sk);
      Wider(y, p.ell, 0x8_0000, Q);
      Wider(k.s1, p.ell, 0x10_0000, Q);
      Wider(k.s2, p.k, 0x10_0000, Q);
      Wider(k.t0, p.k, 0x10_0000, Q);
      if c != [] {
        ChallengeIsPoly(e.x256(ct), e.limit, p.tau);
      }
      TurnIsSafe(p, k, mat, y, c);
    }
  }

  // ----- verification

  ghost predicate RecoverySafe(g: int, mat: seq<seq<Poly>>, z: seq<Poly>, c: Poly, t1: seq<Poly>) {
    && IsGamma2(g) && |c| == N && |t1| == |mat|
    && forall i :: 0 <= i < |mat| ==>
        Matched(mat[i], z) && 0 < |mat[i]| && |t1[i]| == N && RecoveredRowSafe(g, mat[i], z, c, t1[i])
  }

  /** Every 32-bit intermediate of mldsa_verify_internal fits, for any public key and signature bytes. */
  ghost predicate VerifySafe(e: Shake, p: Params, pk: seq<byte>, sig: seq<byte>)
    requires IsParams(p) && |pk| == PublicKeySize(p)
  {
    SmallOmega(p);
    |sig| == SignatureSize(p) && UnpackSignature(p, sig).Some? ==>
      var key, g := UnpackPublicKey(p, pk), UnpackSignature(p, sig).value;
      var c := S.Challenge(e.x256(g.c), e.limit, p.tau);
      var mat := ExpandMatrix(e, p, key.rho);
      && (forall l :: 0 <= l < |g.z| ==> NormsSafe(g.z[l]))
      && (c != [] && IsMatrixShape(p, mat) ==> RecoverySafe(p.gamma2, mat, g.z, c, key.t1))
  }

  lemma PublicBound(p: Params, pk: seq<byte>)
    requires IsParams(p) && |pk| == PublicKeySize(p)
    ensures var t1 := UnpackPublicKey(p, pk).t1;
      forall i, j :: 0 <= i < p.k && 0 <= j < N ==> |t1[i]| == N && 0 <= t1[i][j] <= 1023
  {
    hide Lossless, Total, IsParams, PackVector, UnpackVector, Pow2;
    Formats(p);
    FieldSizes();
    VectorBytes(T1_FORMAT, pk[SEED..], p.k);
    var t1 := UnpackPublicKey(p, pk).t1;
    forall i, j | 0 <= i < p.k && 0 <= j < N
      ensures |t1[i]| == N && 0 <= t1[i][j] <= 1023
    {
      assert Storable(T1_FORMAT.codec, t1[i][j]);
    }
  }

  lemma ReadResponseBound(p: Params, sig: seq<byte>)
    requires IsParams(p) && |sig| == SignatureSize(p) && UnpackSignature(p, sig).Some?
    ensures IsVector(UnpackSignature(p, sig).value.z, p.ell, 0x10_0000)
  {
    hide Lossless, Total, IsParams, MaskFormat, UnpackVector, Pow2, H.Accepted, H.Decode;
    Formats(p);
    SecretFormats(p);
    UnpackedBound(MaskFormat(p.gamma1), sig[p.challengeSize..HintOffset(p)], p.ell);
  }

  lemma RecoveryIsSafe(p: Params, mat: seq<seq<Poly>>, z: seq<Poly>, c: Poly, t1: seq<Poly>)
    requires IsParams(p) && IsMatrixShape(p, mat) && forall i :: 0 <= i < p.k ==> IsVector(mat[i], p.ell, Q)
    requires IsVector(z, p.ell, Q) && IsPoly(c, 1) && IsShape(t1, p.k)
    requires forall i, j :: 0 <= i < p.k && 0 <= j < N ==> 0 <= t1[i][j] <= 1023
    ensures RecoverySafe(p.gamma2, mat, z, c, t1)
  {
    hide IsParams, RecoveredRowSafe, Matched;
    SmallOmega(p);
    MatrixMatches(p, mat, z);
    ChallengeBound(c);
    forall i | 0 <= i < p.k
      ensures Matched(mat[i], z) && 0 < |mat[i]| && |t1[i]| == N && RecoveredRowSafe(p.gamma2, mat[i], z, c, t1[i])
    {
      RowLength(mat[i], z, p.ell);
      RecoveredRowIsSafe(p.gamma2, mat[i], z, c, t1[i]);
    }
  }

  lemma NormsAreSafe(v: seq<Poly>, n: nat)
    requires IsVector(v, n, 0x10_0000)
    ensures forall l :: 0 <= l < n ==> NormsSafe(v[l])
  {
    forall l | 0 <= l < n
      ensures NormsSafe(v[l])
    {
      assert IsPoly(v[l], 0x10_0000);
    }
  }

  lemma VerifyNeverOverflows(e: Shake, p: Params, pk: seq<byte>, sig: seq<byte>)
    requires IsParams(p) && |pk| == PublicKeySize(p)
    ensures VerifySafe(e, p, pk, sig)
  {
    hide IsParams, RecoverySafe, S.Sampled, S.Challenge, UnpackPublicKey, UnpackSignature, PublicKeySize,
         SignatureSize, ExpandMatrix, NormsSafe;
    SmallOmega(p);
    if |sig| == SignatureSize(p) && UnpackSignature(p, sig).Some? {
      var key, g := UnpackPublicKey(p, pk), UnpackSignature(p, sig).value;
      var c := S.Challenge(e.x256(g.c), e.limit, p.tau);
      var mat := ExpandMatrix(e, p, key.rho);
      ReadResponseBound(p, sig);
      NormsAreSafe(g.z, p.ell);
      if c != [] && IsMatrixShape(p, mat) {
        PublicBound(p, pk);
        MatrixBound(e, p, key.rho);
        Wider(g.z, p.ell, 0x10_0000, Q);
        ChallengeIsPoly(e.x256(g.c), e.limit, p.tau);
        RecoveryIsSafe(p, mat, g.z, c, key.t1);
      }
    }
  }
}
