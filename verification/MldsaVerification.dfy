/** Verification is algorithm 8 of FIPS 204: the verdict of mldsa_verify_internal, for every public key,
    message and signature, in terms of the bits of the key and of the signature, the polynomials of the
    ring, and the bytes of SHAKE. */
module MldsaVerification {
  import opened Polynomials
  import opened NttAlgebra
  import opened Words
  import opened BitCodec
  import BitOrder
  import opened Rejection
  import opened VectorCodec
  import opened FieldVectors
  import opened RingRows
  import opened MldsaReduce
  import opened MldsaRounding
  import opened MldsaVector
  import opened MldsaEquation
  import opened MldsaRecovery
  import opened MldsaKeys
  import opened MldsaScheme
  import opened MldsaCorrect
  import opened MldsaRuns
  import opened MldsaStandard
  import opened MldsaRing
  import opened MldsaFields
  import opened MldsaHintBytes
  import S = MldsaSampling

  /** Every coefficient lies strictly between -b and b. */
  predicate Bounded(v: seq<Poly>, b: int) {
    forall i, t :: 0 <= i < |v| && 0 <= t < |v[i]| ==> -b < v[i][t] < b
  }

  /** The norm check passes exactly the bounded vectors. */
  lemma NormsExactly(v: seq<Poly>, b: int)
    requires b <= (Q - 1) / 8
    ensures AnyNormExceeds(v, b) <==> !Bounded(v, b)
  {
    if !Bounded(v, b) {
      var i, t :| 0 <= i < |v| && 0 <= t < |v[i]| && !(-b < v[i][t] < b);
      assert NormExceeds(v[i], b);
    }
    if AnyNormExceeds(v, b) {
      var i :| 0 <= i < |v| && NormExceeds(v[i], b);
      var t :| 0 <= t < |v[i]| && (v[i][t] >= b || -v[i][t] >= b);
    }
  }

  /** mat holds the transforms of the matrix a. */
  ghost predicate MatrixOf(a: seq<seq<Poly>>, mat: seq<seq<Poly>>) {
    |a| == |mat| && forall i :: 0 <= i < |mat| ==> RowOf(a[i], mat[i])
  }

  /** Whatever was sampled is the transform of a matrix. */
  lemma MatrixExists(p: Params, mat: seq<seq<Poly>>) returns (a: seq<seq<Poly>>)
    requires IsMatrixShape(p, mat)
    ensures IsMatrixShape(p, a) && MatrixOf(a, mat)
  {
    hide RowOf;
    a := [];
    for i := 0 to |mat|
      invariant |a| == i && forall j :: 0 <= j < i ==> IsShape(a[j], p.ell) && RowOf(a[j], mat[j])
    {
      var row := Untransform(mat[i], p.ell);
      a := a + [row];
    }
  }

  /** UseHint on row i of A * z - c * t1 * 2^13. */
  function HintedRow(g: int, a: seq<Poly>, z: seq<Poly>, c: Poly, t1: Poly, h: Poly): (w1: Poly)
    requires IsGamma2(g) && Matched(a, z) && |c| == |t1| == |h| == N
    ensures |w1| == N
  {
    var d := Lin(1, RowSum(a, z, |a|), -0x2000, Product(c, t1));
    seq(N, t requires 0 <= t < N => Hinted(g, h[t], d[t]))
  }

  function HintedRows(p: Params, a: seq<seq<Poly>>, z: seq<Poly>, c: Poly, t1: seq<Poly>, h: seq<Poly>): (w1: seq<Poly>)
    requires IsParams(p) && IsMatrixShape(p, a) && IsShape(z, p.ell) && |c| == N && IsShape(t1, p.k) && IsShape(h, p.k)
    ensures IsShape(w1, p.k) && IsGamma2(p.gamma2)
    ensures forall i :: 0 <= i < p.k ==> Matched(a[i], z) && w1[i] == HintedRow(p.gamma2, a[i], z, c, t1[i], h[i])
  {
    hide IsParams, IsGamma2, Matched;
    SmallOmega(p);
    MatrixMatches(p, a, z);
    seq(p.k, i requires 0 <= i < p.k => HintedRow(p.gamma2, a[i], z, c, t1[i], h[i]))
  }

  predicate IsHint(h: Poly) { forall t :: 0 <= t < |h| ==> h[t] == 0 || h[t] == 1 }

  lemma HintedResidue(g: int, h: int, x: int)
    requires IsGamma2(g) && (h == 0 || h == 1)
    ensures UseHint(g, x % Q, h) == Hinted(g, h, x)
  {
    hide Parts, UseHint;
    UseHintIsStandard(g, x % Q, h);
    SamePart(g, x);
  }

  lemma SamePart(g: int, x: int)
    requires g > 0
    ensures Parts(g, x % Q) == Parts(g, x)
  {
    hide Centred;
  }

  lemma RowExactly(g: int, a: seq<Poly>, row: seq<Poly>, z: seq<Poly>, c: Poly, t1: Poly, h: Poly)
    requires IsGamma2(g) && RowOf(a, row) && Matched(row, z) && 0 < |row| <= 7
    requires IsVector(row, |row|, Q) && IsVector(z, |z|, Q) && IsPoly(c, Q)
    requires |t1| == |h| == N && IsHint(h) && forall i :: 0 <= i < N ==> 0 <= t1[i] <= 1023
    ensures Matched(a, z) && Corrected(g, RecoveredRow(row, z, c, t1), h) == HintedRow(g, a, z, c, t1, h)
  {
    hide RowOf, RecoveredRow, RowSum, Product, Lin, UseHint, Hinted, IsGamma2;
    RecoveredExactly(a, row, z, c, t1);
    var d := Lin(1, RowSum(a, z, |a|), -0x2000, Product(c, t1));
    forall t | 0 <= t < N
      ensures UseHint(g, d[t] % Q, h[t]) == Hinted(g, h[t], d[t])
    {
      HintedResidue(g, h[t], d[t]);
    }
  }

  /** Ten-bit coefficients, as a public key holds them. */
  predicate TenBits(t1: Poly) { |t1| == N && forall i :: 0 <= i < N ==> 0 <= t1[i] <= 1023 }

  lemma RowsExactly(p: Params, a: seq<seq<Poly>>, mat: seq<seq<Poly>>, z: seq<Poly>, c: Poly, t1: seq<Poly>,
       h: seq<Poly>)
    requires IsParams(p) && IsMatrixShape(p, mat) && (forall i :: 0 <= i < p.k ==> IsVector(mat[i], p.ell, Q))
    requires IsMatrixShape(p, a) && MatrixOf(a, mat) && IsShape(z, p.ell) && IsVector(z, p.ell, Q) && IsPoly(c, 1)
    requires IsShape(t1, p.k) && IsShape(h, p.k) && forall i :: 0 <= i < p.k ==> TenBits(t1[i]) && IsHint(h[i])
    ensures 0 < p.ell && IsGamma2(p.gamma2)
    ensures forall i :: 0 <= i < p.k ==> Matched(mat[i], z)
    ensures RecoveredVector(p.gamma2, mat, z, c, t1, h) == HintedRows(p, a, z, c, t1, h)
  {
    hide IsParams, Matched, RowOf, IsGamma2, IsHint, TenBits, Corrected, RecoveredRow, HintedRow;
    SmallOmega(p);
    MatrixMatches(p, mat, z);
    ChallengeBound(c);
    forall i | 0 <= i < p.k
      ensures Corrected(p.gamma2, RecoveredRow(mat[i], z, c, t1[i]), h[i]) == HintedRows(p, a, z, c, t1, h)[i]
    {
      RowLength(mat[i], z, p.ell);
      TenBitsOf(t1[i]);
      RowExactly(p.gamma2, a[i], mat[i], z, c, t1[i], h[i]);
    }
  }

  lemma TenBitsOf(t1: Poly)
    requires TenBits(t1)
    ensures |t1| == N && forall i :: 0 <= i < N ==> 0 <= t1[i] <= 1023
  {
  }

  lemma HintedRange(g: int, h: int, x: int)
    requires IsGamma2(g)
    ensures 0 <= Hinted(g, h, x) < Buckets(g)
  {
    hide Parts, IsDecomposition;
    SamePart(g, x);
    PartsOf32(x % Q);
    PartsOf88(x % Q);
    PartRange(g, x % Q, Parts(g, x).0, Parts(g, x).1);
  }

  /** What is hashed fits the format. */
  lemma HintedFit(p: Params, a: seq<seq<Poly>>, z: seq<Poly>, c: Poly, t1: seq<Poly>, h: seq<Poly>)
    requires IsParams(p) && IsMatrixShape(p, a) && IsShape(z, p.ell) && |c| == N && IsShape(t1, p.k) && IsShape(h, p.k)
    ensures VectorInRange(HighFormat(p.gamma2), HintedRows(p, a, z, c, t1, h))
  {
    hide Hinted, RowSum, Product, Lin, Pow2;
    FieldSizes();
    PowersOfTwo();
    var w1 := HintedRows(p, a, z, c, t1, h);
    forall i, t | 0 <= i < |w1| && 0 <= t < N
      ensures Storable(HighFormat(p.gamma2).codec, w1[i][t])
    {
      HintedRange(p.gamma2, h[i][t], Lin(1, RowSum(a[i], z, |a[i]|), -0x2000, Product(c, t1[i]))[t]);
    }
  }

  /** The bytes of w1 that are hashed. */
  lemma HashedBytes(p: Params, w1: seq<Poly>)
    requires IsParams(p) && IsShape(w1, |w1|) && VectorInRange(HighFormat(p.gamma2), w1)
    ensures Usable(HighFormat(p.gamma2)) && PackVector(HighFormat(p.gamma2), w1) == Packed(HighBits(p), w1, false, 0)
  {
    hide Lossless, BitOrder.Ordered, PackVector, VectorInRange, IsParams;
    Widths(p);
    PackedExactly(HighFormat(p.gamma2), HighBits(p), false, 0, w1);
  }

  lemma ShapeOf(p: Params, a: seq<seq<Poly>>, mat: seq<seq<Poly>>)
    requires IsMatrixShape(p, a) && MatrixOf(a, mat)
    ensures IsMatrixShape(p, mat)
  {
    forall i | 0 <= i < |mat|
      ensures IsShape(mat[i], p.ell)
    {
      assert RowOf(a[i], mat[i]);
    }
  }

  // ----- the verdict

  /** The challenge bytes of sig are those of the hash of the recovered high parts. */
  ghost predicate Confirmed(e: Shake, p: Params, a: seq<seq<Poly>>, pk: seq<byte>, m: seq<byte>, sig: seq<byte>,
       c: Poly)
    requires IsParams(p) && IsMatrixShape(p, a) && |c| == N && |sig| >= p.challengeSize + p.omega + p.k
  {
    var mu := Bytes(e.x256(Bytes(e.x256(pk), 0, 64) + m), 0, 64);
    var w1 := HintedRows(p, a, Responses(p, sig), c, KeyHigh(p, pk), Hints(HintTail(p, sig), p.omega, p.k));
    forall j :: 0 <= j < p.challengeSize ==> sig[j] == e.x256(mu + Packed(HighBits(p), w1, false, 0))(j)
  }

  lemma ReadExactly(p: Params, sig: seq<byte>)
    requires IsParams(p) && |sig| == SignatureSize(p)
    ensures UnpackSignature(p, sig) ==
            if Readable(p, sig)
            then Some(Signature(sig[..p.challengeSize], Responses(p, sig), Hints(HintTail(p, sig), p.omega, p.k)))
            else None
    ensures AnyNormExceeds(Responses(p, sig), p.gamma1 - p.beta) <==> !Bounded(Responses(p, sig), p.gamma1 - p.beta)
  {
    hide Responses, UnpackSignature, Readable, Bounded, AnyNormExceeds, Hints;
    SignatureFields(p, sig);
    NormsExactly(Responses(p, sig), p.gamma1 - p.beta);
  }

  lemma HintsAreHints(y: seq<byte>, omega: nat, k: nat)
    requires |y| == omega + k
    ensures forall i :: 0 <= i < k ==> IsHint(Hints(y, omega, k)[i])
  {
    hide Names;
  }

  lemma KeyHighTenBits(p: Params, pk: seq<byte>)
    requires IsParams(p) && |pk| == PublicKeySize(p)
    ensures forall i :: 0 <= i < p.k ==> TenBits(KeyHigh(p, pk)[i])
  {
    hide KeyHigh, UnpackPublicKey, PublicKeySize;
    PublicKeyFields(p, pk);
    PublicBound(p, pk);
  }

  lemma SameBytes(s: Stream, x: seq<byte>, n: nat)
    requires |x| == n
    ensures x == Bytes(s, 0, n) <==> forall j :: 0 <= j < n ==> x[j] == s(j)
  {
  }

  /** What is decided before the matrix is needed. */
  lemma VerifyEarly(e: Shake, p: Params, pk: seq<byte>, m: seq<byte>, sig: seq<byte>, c: Poly)
    requires IsParams(p) && |pk| == PublicKeySize(p) && |sig| == SignatureSize(p) && |sig| >= p.challengeSize
    requires p.tau <= 64 && c == S.Challenge(e.x256(sig[..p.challengeSize]), e.limit, p.tau)
    ensures !Readable(p, sig) || !Bounded(Responses(p, sig), p.gamma1 - p.beta) ==> Verify(e, p, pk, m, sig) == Invalid
    ensures Readable(p, sig) && Bounded(Responses(p, sig), p.gamma1 - p.beta) && c == [] ==>
      Verify(e, p, pk, m, sig) == Undecided
    ensures Readable(p, sig) && Bounded(Responses(p, sig), p.gamma1 - p.beta) ==>
      !IsMatrixShape(p, ExpandMatrix(e, p, pk[..32])) ==> Verify(e, p, pk, m, sig) == Undecided
  {
    hide IsParams, Matched, S.Challenge, Responses, UnpackSignature, Readable, Bounded, AnyNormExceeds, Hints,
         UnpackPublicKey, PublicKeySize, ExpandMatrix, SignatureSize, RecoveredVector, PackVector, HighFormat, Lossless;
    ReadExactly(p, sig);
    PublicKeyFields(p, pk);
  }

  /** The comparison of the challenge bytes. */
  lemma VerifyLate(e: Shake, p: Params, pk: seq<byte>, m: seq<byte>, sig: seq<byte>, c: Poly, mat: seq<seq<Poly>>)
    requires IsParams(p) && |pk| == PublicKeySize(p) && |sig| == SignatureSize(p) && |pk| >= 32
    requires |sig| >= p.challengeSize + p.omega + p.k
    requires p.tau <= 64 && c == S.Challenge(e.x256(sig[..p.challengeSize]), e.limit, p.tau) && c != []
    requires Readable(p, sig) && Bounded(Responses(p, sig), p.gamma1 - p.beta)
    requires mat == ExpandMatrix(e, p, pk[..32]) && IsMatrixShape(p, mat)
    ensures 0 < p.ell && IsGamma2(p.gamma2) && Usable(HighFormat(p.gamma2)) && |c| == N
    ensures forall i :: 0 <= i < p.k ==> Matched(mat[i], Responses(p, sig))
    ensures var w1 := RecoveredVector(p.gamma2, mat, Responses(p, sig), c, KeyHigh(p, pk),
                                      Hints(HintTail(p, sig), p.omega, p.k));
      Verify(e, p, pk, m, sig) ==
      if sig[..p.challengeSize] == Bytes(e.x256(Bytes(e.x256(Bytes(e.x256(pk), 0, 64) + m), 0, 64)
                                                + PackVector(HighFormat(p.gamma2), w1)), 0, p.challengeSize)
      then Valid else Invalid
  {
    hide IsParams, Matched, S.Challenge, Responses, UnpackSignature, Readable, Bounded, AnyNormExceeds, Hints,
         KeyHigh, UnpackPublicKey, PublicKeySize, ExpandMatrix, SignatureSize, RecoveredVector, PackVector, HighFormat,
         Lossless;
    ReadExactly(p, sig);
    PublicKeyFields(p, pk);
    SmallOmega(p);
    Formats(p);
    MatrixMatches(p, mat, Responses(p, sig));
  }

  /** For every matrix a behind the sampled values: verify accepts exactly the readable signatures with
      bounded responses whose challenge bytes are confirmed. */
  lemma VerifyExactly(e: Shake, p: Params, a: seq<seq<Poly>>, pk: seq<byte>, m: seq<byte>, sig: seq<byte>)
    requires IsParams(p) && |pk| == PublicKeySize(p)
    requires IsMatrixShape(p, a) && MatrixOf(a, ExpandMatrix(e, p, pk[..32]))
    ensures |sig| != SignatureSize(p) ==> Verify(e, p, pk, m, sig) == Invalid
    ensures |sig| == SignatureSize(p) ==>
      var c := S.Challenge(e.x256(sig[..p.challengeSize]), e.limit, p.tau);
      && |sig| >= p.challengeSize + p.omega + p.k && (c == [] || |c| == N)
      && (Verify(e, p, pk, m, sig) == Valid <==>
          && Readable(p, sig) && Bounded(Responses(p, sig), p.gamma1 - p.beta)
          && c != [] && Confirmed(e, p, a, pk, m, sig, c))
      && (Verify(e, p, pk, m, sig) == Undecided <==>
          Readable(p, sig) && Bounded(Responses(p, sig), p.gamma1 - p.beta) && c == [])
  {
    hide IsParams, S.Challenge, MatrixOf, Responses, Readable, Bounded, PublicKeySize, ExpandMatrix, SignatureSize,
         Verify, Confirmed;
    PublicKeyLength(p, pk);
    if |sig| == SignatureSize(p) {
      SmallOmega(p);
      SignatureParts(p);
      var c := S.Challenge(e.x256(sig[..p.challengeSize]), e.limit, p.tau);
      VerifyEarly(e, p, pk, m, sig, c);
      if Readable(p, sig) && Bounded(Responses(p, sig), p.gamma1 - p.beta) && c != [] {
        VerifyProper(e, p, a, pk, m, sig, c);
      }
    } else {
      WrongLength(e, p, pk, m, sig);
    }
  }

  lemma WrongLength(e: Shake, p: Params, pk: seq<byte>, m: seq<byte>, sig: seq<byte>)
    requires IsParams(p) && |pk| == PublicKeySize(p) && |sig| != SignatureSize(p)
    ensures Verify(e, p, pk, m, sig) == Invalid
  {
    hide SignatureSize, PublicKeySize;
  }

  lemma PublicKeyLength(p: Params, pk: seq<byte>)
    requires |pk| == PublicKeySize(p)
    ensures |pk| >= 32
  {
  }

  lemma VerifyProper(e: Shake, p: Params, a: seq<seq<Poly>>, pk: seq<byte>, m: seq<byte>, sig: seq<byte>, c: Poly)
    requires IsParams(p) && |pk| == PublicKeySize(p) && |sig| == SignatureSize(p) && Readable(p, sig)
    requires |pk| >= 32 && |sig| >= p.challengeSize + p.omega + p.k && Bounded(Responses(p, sig), p.gamma1 - p.beta)
    requires IsMatrixShape(p, a) && MatrixOf(a, ExpandMatrix(e, p, pk[..32])) && |c| == N
    requires p.tau <= 64 && c == S.Challenge(e.x256(sig[..p.challengeSize]), e.limit, p.tau) && c != []
    ensures Verify(e, p, pk, m, sig) == if Confirmed(e, p, a, pk, m, sig, c) then Valid else Invalid
  {
    hide IsParams, S.Challenge, MatrixOf, Responses, Readable, Bounded, PublicKeySize, ExpandMatrix, SignatureSize,
         Verify, Confirmed, Matched, Lossless, KeyHigh, Hints, RecoveredVector, PackVector, HighFormat;
    ShapeOf(p, a, ExpandMatrix(e, p, pk[..32]));
    VerifyLate(e, p, pk, m, sig, c, ExpandMatrix(e, p, pk[..32]));
    ConfirmedExactly(e, p, a, pk, m, sig, c);
  }

  lemma ConfirmedExactly(e: Shake, p: Params, a: seq<seq<Poly>>, pk: seq<byte>, m: seq<byte>, sig: seq<byte>, c: Poly)
    requires IsParams(p) && |pk| == PublicKeySize(p) && |sig| == SignatureSize(p) && Readable(p, sig)
    requires |pk| >= 32 && |sig| >= p.challengeSize + p.omega + p.k
    requires IsMatrixShape(p, a) && MatrixOf(a, ExpandMatrix(e, p, pk[..32]))
    requires p.tau <= 64 && c == S.Challenge(e.x256(sig[..p.challengeSize]), e.limit, p.tau) && c != []
    requires 0 < p.ell && IsGamma2(p.gamma2) && Usable(HighFormat(p.gamma2)) && |c| == N
    requires forall i :: 0 <= i < p.k ==> Matched(ExpandMatrix(e, p, pk[..32])[i], Responses(p, sig))
    ensures var w1 := RecoveredVector(p.gamma2, ExpandMatrix(e, p, pk[..32]), Responses(p, sig), c, KeyHigh(p, pk),
                                      Hints(HintTail(p, sig), p.omega, p.k));
      Confirmed(e, p, a, pk, m, sig, c) <==>
      sig[..p.challengeSize] == Bytes(e.x256(Bytes(e.x256(Bytes(e.x256(pk), 0, 64) + m), 0, 64)
                                             + PackVector(HighFormat(p.gamma2), w1)), 0, p.challengeSize)
  {
    hide IsParams, Matched, S.Challenge, MatrixOf, Responses, UnpackSignature, Readable, Hints, KeyHigh, PublicKeySize,
         ExpandMatrix, SignatureSize, RecoveredVector, HintedRows, PackVector, HighFormat, Lossless, Packed, TenBits,
         IsHint, IsPoly;
    var z, y, t1, mat := Responses(p, sig), HintTail(p, sig), KeyHigh(p, pk), ExpandMatrix(e, p, pk[..32]);
    var h := Hints(y, p.omega, p.k);
    ReadExactly(p, sig);
    ReadResponseBound(p, sig);
    Wider(z, p.ell, 0x10_0000, Q);
    ChallengeIsPoly(e.x256(sig[..p.challengeSize]), e.limit, p.tau);
    ShapeOf(p, a, mat);
    MatrixBound(e, p, pk[..32]);
    KeyHighTenBits(p, pk);
    HintsAreHints(y, p.omega, p.k);
    RowsExactly(p, a, mat, z, c, t1, h);
    HintedFit(p, a, z, c, t1, h);
    HashedBytes(p, HintedRows(p, a, z, c, t1, h));
    var mu := Bytes(e.x256(Bytes(e.x256(pk), 0, 64) + m), 0, 64);
    SameBytes(e.x256(mu + Packed(HighBits(p), HintedRows(p, a, z, c, t1, h), false, 0)), sig[..p.challengeSize],
              p.challengeSize);
  }

  lemma SignatureParts(p: Params)
    requires IsParams(p)
    ensures SignatureSize(p) >= p.challengeSize + p.omega + p.k
  {
  }
}
