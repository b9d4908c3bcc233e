/** tools/pqc/mldsa/mldsa.c: the rejection loop of mldsa_sign_internal. */
module MldsaSign {
  import opened Polynomials
  import opened VectorCodec
  import opened Words
  import opened BitCodec
  import opened Rejection
  import opened MldsaVector
  import opened MldsaKeys
  import opened MldsaScheme
  import opened MldsaCorrect
  import opened MldsaRounding
  import opened MldsaEquation
  import opened MldsaRecovery
  import S = MldsaSampling

  /** polyveck_add and polyveck_make_hint, one row after the other. */
  function MakeHints(g: int, w0: seq<Poly>, ct0: seq<Poly>, w1: seq<Poly>): (h: seq<Poly>)
    requires IsShape(w0, |w1|) && IsShape(ct0, |w1|) && IsShape(w1, |w1|)
    ensures |h| == |w1| && forall i :: 0 <= i < |w1| ==> h[i] == HintPart(g, Plus(w0[i], ct0[i]), w1[i])
  {
    seq(|w1|, i requires 0 <= i < |w1| => HintPart(g, Plus(w0[i], ct0[i]), w1[i]))
  }

  lemma HintsAgree(g: int, w: seq<Poly>, c: Poly, s2: seq<Poly>, t0: seq<Poly>)
    requires IsGamma2(g) && |c| == N && IsShape(w, |w|) && IsShape(s2, |w|) && IsShape(t0, |w|)
    ensures MakeHints(g, RemainderVector(g, w, c, s2), CarryVector(c, t0), HighVector(g, w)) == HintVector(g, w, c, s2,
         t0)
  {
    hide Remainder, Carry, HighPart, HintPart, Plus;
  }

  /** The loop, with y, z, w, w1 and h reassigned from one attempt to the next; fuel bounds the
      number of attempts. The signature returned is the first one accepted. */
  method Sign(e: Shake, p: Params, sk: seq<byte>, m: seq<byte>, rnd: seq<byte>, fuel: nat)
    returns (sig: Option<seq<byte>>, nonce: nat)
    requires IsParams(p) && |sk| == SecretKeySize(p)
    ensures nonce <= fuel
    ensures forall n :: 0 <= n < nonce ==> SignAttempt(e, p, sk, m, rnd, n) == Rejected
    ensures sig.Some? ==> nonce < fuel && SignAttempt(e, p, sk, m, rnd, nonce) == Accepted(sig.value)
    ensures sig.None? && nonce < fuel ==> SignAttempt(e, p, sk, m, rnd, nonce) == OutOfBytes
  {
    hide IsParams, Matched, CommitmentRow, HighPart, Response, Remainder, Carry, RowHint, S.Challenge,
         UnpackSecretKey, MaskVector, PackSignature, HighFormat, Lossless, SecretKeySize, HintSum, AnyNormExceeds,
         PackVector, Hash, ExpandMatrix;
    SmallOmega(p);
    Formats(p);
    var key := UnpackSecretKey(p, sk);
    var g := p.gamma2;
    var mu := MessageHash(e, key.tr, m);
    var seed := Hash(e, key.key + rnd + mu, CRH);
    var mat := ExpandMatrix(e, p, key.rho);
    nonce := 0;
    sig := None;
    if !IsMatrixShape(p, mat) {
      return;
    }
    while nonce < fuel
      invariant nonce <= fuel
      invariant forall n :: 0 <= n < nonce ==> SignAttempt(e, p, sk, m, rnd, n) == Rejected
    {
      var y := MaskVector(e, p, seed, nonce);
      MatrixMatches(p, mat, y);
      var w := Commitment(mat, y);
      var w1 := HighVector(g, w);
      var ct := Hash(e, mu + PackVector(HighFormat(g), w1), p.challengeSize);
      var c := S.Challenge(e.x256(ct), e.limit, p.tau);
      if c == [] {
        return;
      }
      var z := ResponseVector(c, key.s1, y);
      if !AnyNormExceeds(z, p.gamma1 - p.beta) {
        var w0 := RemainderVector(g, w, c, key.s2);
        if !AnyNormExceeds(w0, g - p.beta) {
          var h := CarryVector(c, key.t0);
          if !AnyNormExceeds(h, g) {
            HintsAgree(g, w, c, key.s2, key.t0);
            h := MakeHints(g, w0, h, w1);
            if HintSum(h) <= p.omega {
              HintsFit(g, w, c, key.s2, key.t0, p.omega);
              sig := Some(PackSignature(p, Signature(ct, z, h)));
              return;
            }
          }
        }
      }
      nonce := nonce + 1;
    }
  }
}
