/** Keys and signatures of ML-DSA field by field (algorithms 22 to 28 of FIPS 204). */
module MldsaFields {
  import opened Polynomials
  import opened Words
  import opened BitCodec
  import opened BitOrder
  import opened VectorCodec
  import opened FieldVectors
  import opened MldsaRounding
  import opened MldsaKeys
  import opened MldsaHintBytes
  import F = FormatOrder
  import H = MldsaHints

  function ShortBits(p: Params): (d: nat)
    ensures d > 0
  {
    if p.eta == 2 then 3 else 4
  }

  function MaskBits(p: Params): (d: nat)
    ensures d > 0
  {
    if p.gamma1 == 0x2_0000 then 18 else 20
  }

  function HighBits(p: Params): (d: nat)
    ensures d > 0
  {
    if p.gamma2 == GAMMA2_88 then 6 else 4
  }

  /** The formats of the code and the widths of the standard. */
  lemma Widths(p: Params)
    requires IsParams(p)
    ensures FormatIs(EtaFormat(p.eta), ShortBits(p), true, p.eta)
    ensures FormatIs(MaskFormat(p.gamma1), MaskBits(p), true, p.gamma1)
    ensures FormatIs(HighFormat(p.gamma2), HighBits(p), false, 0)
    ensures FormatIs(T1_FORMAT, 10, false, 0) && FormatIs(T0_FORMAT, 13, true, 0x1000)
  {
    hide Lossless, Ordered;
    Formats(p);
    F.Eta2Ordered();
    F.Eta4Ordered();
    F.T1Ordered();
    F.T0Ordered();
    F.Z17Ordered();
    F.Z19Ordered();
    F.W88Ordered();
    F.SharedOrdered();
  }

  // ----- public keys

  /** t1 in a public key. */
  function KeyHigh(p: Params, pk: seq<byte>): (t1: seq<Poly>)
    ensures IsShape(t1, p.k)
  {
    ReadVector(pk, 8 * 32, 10, p.k, false, 0)
  }

  lemma PublicKeyFields(p: Params, pk: seq<byte>)
    requires IsParams(p) && |pk| == PublicKeySize(p)
    ensures UnpackPublicKey(p, pk) == PublicKey(pk[..32], KeyHigh(p, pk))
  {
    hide Lossless, Ordered, Total, IsParams, UnpackVector, InRange;
    Widths(p);
    PartRead(T1_FORMAT, 10, false, 0, pk, SEED, |pk|, p.k);
    assert pk[SEED..|pk|] == pk[SEED..];
  }

  // ----- signatures

  /** z in a signature. */
  function Responses(p: Params, sig: seq<byte>): (z: seq<Poly>)
    ensures IsShape(z, p.ell)
  {
    ReadVector(sig, 8 * p.challengeSize, MaskBits(p), p.ell, true, p.gamma1)
  }

  /** The last omega + k bytes. */
  function HintTail(p: Params, sig: seq<byte>): (y: seq<byte>)
    requires |sig| >= p.omega + p.k
    ensures |y| == p.omega + p.k
  {
    sig[|sig| - (p.omega + p.k)..]
  }

  /** A signature of the right length with well-formed hint bytes. */
  ghost predicate Readable(p: Params, sig: seq<byte>) {
    |sig| == SignatureSize(p) && WellFormed(HintTail(p, sig), p.omega, p.k)
  }

  lemma SignatureFields(p: Params, sig: seq<byte>)
    requires IsParams(p) && |sig| == SignatureSize(p)
    ensures UnpackSignature(p, sig) ==
            if Readable(p, sig)
            then Some(Signature(sig[..p.challengeSize], Responses(p, sig), Hints(HintTail(p, sig), p.omega, p.k)))
            else None
  {
    hide Lossless, Ordered, Total, IsParams, MaskFormat, UnpackVector, InRange, H.Accepted, H.Decode, WellFormed;
    Widths(p);
    SmallOmega(p);
    var a := HintOffset(p);
    assert sig[a..] == HintTail(p, sig);
    PartRead(MaskFormat(p.gamma1), MaskBits(p), true, p.gamma1, sig, p.challengeSize, a, p.ell);
    AcceptedExactly(sig[a..], p.omega, p.k);
    if H.Accepted(sig[a..], p.omega, p.k) {
      DecodedExactly(sig[a..], p.omega, p.k);
    }
  }

  // ----- secret keys

  function FirstSecret(p: Params, sk: seq<byte>): (s1: seq<Poly>)
    ensures IsShape(s1, p.ell)
  {
    ReadVector(sk, 8 * 128, ShortBits(p), p.ell, true, p.eta)
  }

  function SecondSecret(p: Params, sk: seq<byte>): (s2: seq<Poly>)
    ensures IsShape(s2, p.k)
  {
    ReadVector(sk, 8 * (128 + p.ell * (32 * ShortBits(p))), ShortBits(p), p.k, true, p.eta)
  }

  function KeyLow(p: Params, sk: seq<byte>): (t0: seq<Poly>)
    ensures IsShape(t0, p.k)
  {
    ReadVector(sk, 8 * (128 + p.ell * (32 * ShortBits(p)) + p.k * (32 * ShortBits(p))), 13, p.k, true, 0x1000)
  }

  lemma SecretKeyFields(p: Params, sk: seq<byte>)
    requires IsParams(p) && |sk| == SecretKeySize(p)
    ensures UnpackSecretKey(p, sk) == SecretKey(sk[..32], sk[32..64], sk[64..128], FirstSecret(p, sk),
      SecondSecret(p, sk), KeyLow(p, sk))
  {
    hide Lossless, Ordered, Total, IsParams, EtaFormat, UnpackVector, InRange, ReadVector;
    Widths(p);
    var e, d := EtaFormat(p.eta), ShortBits(p);
    FormatSize(e, d, true, p.eta, p.ell);
    FormatSize(e, d, true, p.eta, p.k);
    var a1 := 2 * SEED + TR;
    var a2 := a1 + Total(p.ell, e);
    var a3 := a2 + Total(p.k, e);
    PartRead(e, d, true, p.eta, sk, a1, a2, p.ell);
    PartRead(e, d, true, p.eta, sk, a2, a3, p.k);
    PartRead(T0_FORMAT, 13, true, 0x1000, sk, a3, |sk|, p.k);
    assert sk[a3..|sk|] == sk[a3..];
  }
}
