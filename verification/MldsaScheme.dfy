/** tools/pqc/mldsa/mldsa.c: key generation, one signing attempt, and verification. SHAKE is
    an arbitrary function from messages to byte streams. */
module MldsaScheme {
  import opened Polynomials
  import opened Words
  import opened BitCodec
  import opened Rejection
  import opened MldsaRounding
  import opened MldsaVector
  import opened MldsaEquation
  import opened MldsaRecovery
  import opened VectorCodec
  import opened MldsaKeys
  import S = MldsaSampling
  import H = MldsaHints

  /** The two extendable-output functions, and how many bytes of a stream a rejection
      sampler may read before it gives up. */
  datatype Shake = Shake(x128: seq<byte> -> Stream, x256: seq<byte> -> Stream, limit: nat)

  function Hash(e: Shake, m: seq<byte>, n: nat): (r: seq<byte>)
    ensures |r| == n
  {
    Bytes(e.x256(m), 0, n)
  }

  /** A uint16_t, low byte first. */
  function NonceBytes(n: nat): (r: seq<byte>) {
    [ByteOf(n % 0x100), ByteOf(n / 0x100 % 0x100)]
  }

  // ----- vectors from seeds

  function UniformPoly(e: Shake, rho: seq<byte>, i: nat, j: nat): (a: Poly) {
    S.Sampled(S.UNIFORM, e.x128(rho + NonceBytes(i * 0x100 + j)), e.limit)
  }

  function ExpandRow(e: Shake, p: Params, rho: seq<byte>, i: nat): (row: seq<Poly>)
    ensures |row| == p.ell && forall j :: 0 <= j < p.ell ==> row[j] == UniformPoly(e, rho, i, j)
  {
    seq(p.ell, j requires 0 <= j < p.ell => UniformPoly(e, rho, i, j))
  }

  function ExpandMatrix(e: Shake, p: Params, rho: seq<byte>): (mat: seq<seq<Poly>>)
    ensures |mat| == p.k && forall i :: 0 <= i < p.k ==> mat[i] == ExpandRow(e, p, rho, i)
  {
    seq(p.k, i requires 0 <= i < p.k => ExpandRow(e, p, rho, i))
  }

  predicate IsMatrixShape(p: Params, mat: seq<seq<Poly>>) {
    |mat| == p.k && forall i :: 0 <= i < p.k ==> IsShape(mat[i], p.ell)
  }

  function ShortVector(e: Shake, p: Params, seed: seq<byte>, nonce: nat, n: nat): (v: seq<Poly>)
    requires S.IsEta(p.eta)
    ensures |v| == n
  {
    seq(n, i requires 0 <= i < n => S.Sampled(S.EtaSampler(p.eta), e.x256(seed + NonceBytes(nonce + i)), e.limit))
  }

  /** The nonce of polynomial i is truncated to 16 bits. */
  function MaskPoly(e: Shake, p: Params, seed: seq<byte>, nonce: nat, i: nat): (y: Poly)
    requires IsParams(p)
    ensures |y| == N
  {
    hide IsParams, Lossless, InRange, MaskFormat;
    Formats(p);
    var f := MaskFormat(p.gamma1);
    var b := Bytes(e.x256(seed + NonceBytes((p.ell * (nonce % 0x1_0000) + i) % 0x1_0000)), 0, Size(f));
    EncodeDecode(f.codec, b, f.groups);
    Decode(f.codec, b, f.groups)
  }

  function MaskVector(e: Shake, p: Params, seed: seq<byte>, nonce: nat): (y: seq<Poly>)
    requires IsParams(p)
    ensures IsShape(y, p.ell)
  {
    seq(p.ell, i requires 0 <= i < p.ell => MaskPoly(e, p, seed, nonce, i))
  }

  // ----- vectors, row by row

  function KeyVector(mat: seq<seq<Poly>>, s1: seq<Poly>, s2: seq<Poly>): (t: seq<Poly>)
    requires 0 < |s1| && IsShape(s2, |mat|) && forall i :: 0 <= i < |mat| ==> Matched(mat[i], s1)
    ensures IsShape(t, |mat|) && forall i :: 0 <= i < |mat| ==> t[i] == KeyRow(mat[i], s1, s2[i])
  {
    seq(|mat|, i requires 0 <= i < |mat| => KeyRow(mat[i], s1, s2[i]))
  }

  function UpperVector(t: seq<Poly>): (r: seq<Poly>)
    requires IsShape(t, |t|)
    ensures IsShape(r, |t|) && forall i :: 0 <= i < |t| ==> r[i] == UpperBits(t[i])
  {
    seq(|t|, i requires 0 <= i < |t| => UpperBits(t[i]))
  }

  function LowerVector(t: seq<Poly>): (r: seq<Poly>)
    requires IsShape(t, |t|)
    ensures IsShape(r, |t|) && forall i :: 0 <= i < |t| ==> r[i] == LowerBits(t[i])
  {
    seq(|t|, i requires 0 <= i < |t| => LowerBits(t[i]))
  }

  function Commitment(mat: seq<seq<Poly>>, y: seq<Poly>): (w: seq<Poly>)
    requires 0 < |y| && forall i :: 0 <= i < |mat| ==> Matched(mat[i], y)
    ensures IsShape(w, |mat|) && forall i :: 0 <= i < |mat| ==> w[i] == CommitmentRow(mat[i], y)
  {
    seq(|mat|, i requires 0 <= i < |mat| => CommitmentRow(mat[i], y))
  }

  function HighVector(g: int, w: seq<Poly>): (r: seq<Poly>)
    requires IsGamma2(g) && IsShape(w, |w|)
    ensures IsShape(r, |w|) && forall i :: 0 <= i < |w| ==> r[i] == HighPart(g, w[i])
  {
    seq(|w|, i requires 0 <= i < |w| => HighPart(g, w[i]))
  }

  function ResponseVector(c: Poly, s1: seq<Poly>, y: seq<Poly>): (z: seq<Poly>)
    requires |c| == N && IsShape(s1, |y|) && IsShape(y, |y|)
    ensures IsShape(z, |y|) && forall l :: 0 <= l < |y| ==> z[l] == Response(c, s1[l], y[l])
  {
    seq(|y|, l requires 0 <= l < |y| => Response(c, s1[l], y[l]))
  }

  function RemainderVector(g: int, w: seq<Poly>, c: Poly, s2: seq<Poly>): (r: seq<Poly>)
    requires IsGamma2(g) && |c| == N && IsShape(w, |w|) && IsShape(s2, |w|)
    ensures IsShape(r, |w|) && forall i :: 0 <= i < |w| ==> r[i] == Remainder(g, w[i], c, s2[i])
  {
    seq(|w|, i requires 0 <= i < |w| => Remainder(g, w[i], c, s2[i]))
  }

  function CarryVector(c: Poly, t0: seq<Poly>): (r: seq<Poly>)
    requires |c| == N && IsShape(t0, |t0|)
    ensures IsShape(r, |t0|) && forall i :: 0 <= i < |t0| ==> r[i] == Carry(c, t0[i])
  {
    seq(|t0|, i requires 0 <= i < |t0| => Carry(c, t0[i]))
  }

  function HintVector(g: int, w: seq<Poly>, c: Poly, s2: seq<Poly>, t0: seq<Poly>): (h: seq<Poly>)
    requires IsGamma2(g) && |c| == N && IsShape(w, |w|) && IsShape(s2, |w|) && IsShape(t0, |w|)
    ensures IsShape(h, |w|) && forall i :: 0 <= i < |w| ==> h[i] == RowHint(g, w[i], c, s2[i], t0[i])
  {
    seq(|w|, i requires 0 <= i < |w| => RowHint(g, w[i], c, s2[i], t0[i]))
  }

  function RecoveredVector(g: int, mat: seq<seq<Poly>>, z: seq<Poly>, c: Poly, t1: seq<Poly>,
       h: seq<Poly>): (w1: seq<Poly>)
    requires IsGamma2(g) && 0 < |z| && |c| == N && IsShape(t1, |mat|) && IsShape(h, |mat|)
    requires forall i :: 0 <= i < |mat| ==> Matched(mat[i], z)
    ensures IsShape(w1, |mat|) && forall i :: 0 <= i < |mat| ==>
         w1[i] == Corrected(g, RecoveredRow(mat[i], z, c, t1[i]), h[i])
  {
    seq(|mat|, i requires 0 <= i < |mat| => Corrected(g, RecoveredRow(mat[i], z, c, t1[i]), h[i]))
  }

  /** The running sum of polyveck_make_hint. */
  function HintSum(h: seq<Poly>): (r: int) {
    if h == [] then 0 else Sum(h[0]) + HintSum(h[1..])
  }

  function Sum(a: Poly): (r: int) {
    if a == [] then 0 else a[0] + Sum(a[1..])
  }

  lemma MatrixMatches(p: Params, mat: seq<seq<Poly>>, v: seq<Poly>)
    requires IsMatrixShape(p, mat) && IsShape(v, p.ell)
    ensures forall i :: 0 <= i < p.k ==> Matched(mat[i], v)
  {
  }

  // ----- the three operations

  /** Public and secret key from a seed; None if a sampler runs into its limit. */
  function KeyGen(e: Shake, p: Params, seed: seq<byte>): (r: Option<(seq<byte>, seq<byte>)>)
    requires IsParams(p) && |seed| == SEED
  {
    hide IsParams, Matched, KeyRow, UpperBits, LowerBits, S.Sampled;
    SmallOmega(p);
    EtaOf(p);
    var b := Hash(e, seed + [ByteOf(p.k), ByteOf(p.ell)], 2 * SEED + CRH);
    var rho, seed', key := b[..SEED], b[SEED..SEED + CRH], b[SEED + CRH..];
    var mat := ExpandMatrix(e, p, rho);
    var s1, s2 := ShortVector(e, p, seed', 0, p.ell), ShortVector(e, p, seed', p.ell, p.k);
    if !IsMatrixShape(p, mat) || !IsShape(s1, p.ell) || !IsShape(s2, p.k) then None
    else
      MatrixMatches(p, mat, s1);
      var t := KeyVector(mat, s1, s2);
      var pk := PackPublicKey(PublicKey(rho, UpperVector(t)));
      Some((pk, PackSecretKey(p, SecretKey(rho, key, Hash(e, pk, TR), s1, s2, LowerVector(t)))))
  }

  lemma EtaOf(p: Params)
    requires IsParams(p)
    ensures S.IsEta(p.eta)
  {
  }

  datatype Outcome = Accepted(sig: seq<byte>) | Rejected | OutOfBytes

  /** One turn of the rejection loop, with the secret key already unpacked. */
  function Attempt(e: Shake, p: Params, sk: SecretKey, mat: seq<seq<Poly>>, mu: seq<byte>, seed: seq<byte>,
       nonce: nat): (r: Outcome)
    requires IsParams(p) && IsSecretKey(p, sk) && IsMatrixShape(p, mat)
  {
    hide IsParams, Matched, CommitmentRow, HighPart, Response, Remainder, Carry, RowHint, S.Challenge;
    SmallOmega(p);
    var g := p.gamma2;
    var y := MaskVector(e, p, seed, nonce);
    MatrixMatches(p, mat, y);
    var w := Commitment(mat, y);
    var w1 := HighVector(g, w);
    Formats(p);
    var ct := Hash(e, mu + PackVector(HighFormat(g), w1), p.challengeSize);
    var c := S.Challenge(e.x256(ct), e.limit, p.tau);
    if c == [] then OutOfBytes
    else
      var z := ResponseVector(c, sk.s1, y);
      if AnyNormExceeds(z, p.gamma1 - p.beta) then Rejected
      else if AnyNormExceeds(RemainderVector(g, w, c, sk.s2), g - p.beta) then Rejected
      else if AnyNormExceeds(CarryVector(c, sk.t0), g) then Rejected
      else
        var h := HintVector(g, w, c, sk.s2, sk.t0);
        if HintSum(h) > p.omega then Rejected
        else
          HintsFit(g, w, c, sk.s2, sk.t0, p.omega);
          Accepted(PackSignature(p, Signature(ct, z, h)))
  }

  // ----- the hint count is the number of positions packed

  lemma {:induction false} SumSnoc(a: Poly, j: nat)
    requires j < |a|
    ensures Sum(a[..j + 1]) == Sum(a[..j]) + a[j]
  {
    if j == 0 {
      assert a[..1] == [a[0]] && a[..0] == [];
      assert Sum([a[0]]) == a[0] + Sum([a[0]][1..]);
    } else {
      SumSnoc(a[1..], j - 1);
      assert a[..j + 1][1..] == a[1..][..j] && a[..j][1..] == a[1..][..j - 1];
    }
  }

  lemma {:induction false} PositionsCount(a: Poly, j: nat)
    requires |a| == N && j <= N && forall i :: 0 <= i < N ==> a[i] == 0 || a[i] == 1
    ensures |H.Positions(a, j)| == Sum(a[..j])
  {
    if j > 0 {
      PositionsCount(a, j - 1);
      SumSnoc(a, j - 1);
    }
  }

  lemma {:induction false} HintSumSnoc(h: seq<Poly>, j: nat)
    requires j < |h|
    ensures HintSum(h[..j + 1]) == HintSum(h[..j]) + Sum(h[j])
  {
    hide Sum;
    if j == 0 {
      assert h[..1] == [h[0]] && h[..0] == [];
      assert HintSum([h[0]]) == Sum(h[0]) + HintSum([h[0]][1..]);
    } else {
      HintSumSnoc(h[1..], j - 1);
      assert h[..j + 1][1..] == h[1..][..j] && h[..j][1..] == h[1..][..j - 1];
    }
  }

  lemma {:induction false} FlatCount(h: seq<Poly>, j: nat)
    requires H.IsHints(h) && j <= |h|
    ensures |H.Flat(h, j)| == HintSum(h[..j])
  {
    hide Sum, H.Positions;
    if j > 0 {
      FlatCount(h, j - 1);
      HintSumSnoc(h, j - 1);
      PositionsCount(h[j - 1], N);
      assert h[j - 1][..N] == h[j - 1];
    }
  }

  lemma HintsFit(g: int, w: seq<Poly>, c: Poly, s2: seq<Poly>, t0: seq<Poly>, omega: nat)
    requires IsGamma2(g) && |c| == N && IsShape(w, |w|) && IsShape(s2, |w|) && IsShape(t0, |w|)
    requires HintSum(HintVector(g, w, c, s2, t0)) <= omega
    ensures H.Fits(HintVector(g, w, c, s2, t0), omega)
  {
    hide HintSum, H.Flat, Remainder, Carry, HighPart;
    var h := HintVector(g, w, c, s2, t0);
    forall i | 0 <= i < |h|
      ensures |h[i]| == N && forall j :: 0 <= j < N ==> h[i][j] == 0 || h[i][j] == 1
    {
      assert h[i] == RowHint(g, w[i], c, s2[i], t0[i]);
    }
    FlatCount(h, |h|);
    assert h[..|h|] == h;
  }

  /** The hash of the message that is signed: mu in sign and in verify. */
  function MessageHash(e: Shake, tr: seq<byte>, m: seq<byte>): (mu: seq<byte>)
    ensures |mu| == CRH && forall j :: 0 <= j < 64 ==> mu[j] == e.x256(tr + m)(j)
  {
    Hash(e, tr + m, CRH)
  }

  /** Turn number nonce of the rejection loop of mldsa_sign_internal. */
  function SignAttempt(e: Shake, p: Params, sk: seq<byte>, m: seq<byte>, rnd: seq<byte>, nonce: nat): (r: Outcome)
    requires IsParams(p) && |sk| == SecretKeySize(p)
  {
    var k := UnpackSecretKey(p, sk);
    var mu := MessageHash(e, k.tr, m);
    var mat := ExpandMatrix(e, p, k.rho);
    if !IsMatrixShape(p, mat) then OutOfBytes
    else Attempt(e, p, k, mat, mu, Hash(e, k.key + rnd + mu, CRH), nonce)
  }

  datatype Verdict = Valid | Invalid | Undecided

  function Verify(e: Shake, p: Params, pk: seq<byte>, m: seq<byte>, sig: seq<byte>): (r: Verdict)
    requires IsParams(p) && |pk| == PublicKeySize(p)
  {
    hide IsParams, Matched, Corrected, RecoveredRow, S.Challenge;
    if |sig| != SignatureSize(p) then Invalid
    else
      SmallOmega(p);
      var key, r := UnpackPublicKey(p, pk), UnpackSignature(p, sig);
      if r.None? then Invalid
      else
        var g := r.value;
        if AnyNormExceeds(g.z, p.gamma1 - p.beta) then Invalid
        else
          var mu := MessageHash(e, Hash(e, pk, TR), m);
          var c := S.Challenge(e.x256(g.c), e.limit, p.tau);
          var mat := ExpandMatrix(e, p, key.rho);
          if c == [] || !IsMatrixShape(p, mat) then Undecided
          else
            MatrixMatches(p, mat, g.z);
            var w1 := RecoveredVector(p.gamma2, mat, g.z, c, key.t1, g.h);
            Formats(p);
            var c2 := Hash(e, mu + PackVector(HighFormat(p.gamma2), w1), p.challengeSize);
            if g.c == c2 then Valid else Invalid
  }
}
