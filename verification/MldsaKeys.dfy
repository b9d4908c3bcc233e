/** tools/pqc/mldsa/mldsa.c: parameter sets and the byte layout of keys and signatures. */
module MldsaKeys {
  import opened Polynomials
  import opened NttAlgebra
  import opened Words
  import opened BitCodec
  import opened VectorCodec
  import opened MldsaRounding
  import P = MldsaPack
  import H = MldsaHints

  datatype Params = Params(k: nat, ell: nat, eta: int, tau: nat, beta: int, gamma1: int, gamma2: int,
                           omega: nat, challengeSize: nat)

  const ML_DSA_44: Params := Params(4, 4, 2, 39, 78, 0x2_0000, GAMMA2_88, 80, 32)
  const ML_DSA_65: Params := Params(6, 5, 4, 49, 196, 0x8_0000, GAMMA2_32, 55, 48)
  const ML_DSA_87: Params := Params(8, 7, 2, 60, 120, 0x8_0000, GAMMA2_32, 75, 64)

  predicate IsParams(p: Params) { p == ML_DSA_44 || p == ML_DSA_65 || p == ML_DSA_87 }

  /** What ties the numbers of one row of the table to each other. */
  lemma ParameterRelations(p: Params)
    requires IsParams(p)
    ensures p.beta == p.tau * p.eta && (p.gamma1 == 0x2_0000 || p.gamma1 == 0x8_0000)
    ensures 2 * p.gamma2 * (if p.gamma2 == GAMMA2_88 then 44 else 16) == 8380416
  {
  }

  function EtaFormat(eta: int): (r: Format) {
    if eta == 2 then Format(P.ETA2, 32) else Format(P.ETA4, 128)
  }

  function MaskFormat(gamma1: int): (r: Format) {
    if gamma1 == 0x2_0000 then Format(P.Z17, 64) else Format(P.Z19, 128)
  }

  function HighFormat(gamma2: int): (r: Format) {
    if gamma2 == GAMMA2_32 then Format(P.W32, 128) else Format(P.W88, 64)
  }

  const T1_FORMAT: Format := Format(P.T1, 64)
  const T0_FORMAT: Format := Format(P.T0, 32)

  lemma Formats(p: Params)
    requires IsParams(p)
    ensures Usable(EtaFormat(p.eta)) && Usable(MaskFormat(p.gamma1)) && Usable(HighFormat(p.gamma2))
    ensures Usable(T1_FORMAT) && Usable(T0_FORMAT)
  {
    hide Lossless;
    P.Eta2Lossless();
    P.Eta4Lossless();
    P.Z17Lossless();
    P.Z19Lossless();
    P.W88Lossless();
    P.T1Lossless();
    P.T0Lossless();
  }

  // ----- keys and signatures

  datatype SecretKey = SecretKey(rho: seq<byte>, key: seq<byte>, tr: seq<byte>, s1: seq<Poly>, s2: seq<Poly>,
       t0: seq<Poly>)

  datatype PublicKey = PublicKey(rho: seq<byte>, t1: seq<Poly>)

  datatype Signature = Signature(c: seq<byte>, z: seq<Poly>, h: seq<Poly>)

  const SEED: nat := 32
  const CRH: nat := 64
  const TR: nat := 64

  predicate IsSecretKey(p: Params, sk: SecretKey) {
    |sk.rho| == SEED && |sk.key| == SEED && |sk.tr| == TR && IsShape(sk.s1, p.ell) && IsShape(sk.s2, p.k)
         && IsShape(sk.t0, p.k)
  }

  predicate IsPublicKey(p: Params, pk: PublicKey) { |pk.rho| == SEED && IsShape(pk.t1, p.k) }

  predicate IsSignature(p: Params, g: Signature) {
    |g.c| == p.challengeSize && IsShape(g.z, p.ell) && |g.h| == p.k && H.Fits(g.h, p.omega)
  }

  function SecretKeySize(p: Params): (r: nat) {
    2 * SEED + TR + Total(p.ell, EtaFormat(p.eta)) + Total(p.k, EtaFormat(p.eta)) + Total(p.k, T0_FORMAT)
  }

  function PublicKeySize(p: Params): (r: nat) { SEED + Total(p.k, T1_FORMAT) }

  function SignatureSize(p: Params): (r: nat) {
    p.challengeSize + Total(p.ell, MaskFormat(p.gamma1)) + p.omega + p.k
  }

  /** The sizes of the parameter tables. */
  lemma Sizes()
    ensures SecretKeySize(ML_DSA_44) == 2560 && PublicKeySize(ML_DSA_44) == 1312 && SignatureSize(ML_DSA_44) == 2420
    ensures SecretKeySize(ML_DSA_65) == 4032 && PublicKeySize(ML_DSA_65) == 1952 && SignatureSize(ML_DSA_65) == 3309
    ensures SecretKeySize(ML_DSA_87) == 4896 && PublicKeySize(ML_DSA_87) == 2592 && SignatureSize(ML_DSA_87) == 4627
  {
  }

  function PackSecretKey(p: Params, sk: SecretKey): (r: seq<byte>)
    requires IsParams(p) && IsSecretKey(p, sk)
  {
    sk.rho + sk.key + sk.tr + PackVector(EtaFormat(p.eta), sk.s1) + PackVector(EtaFormat(p.eta),
         sk.s2) + PackVector(T0_FORMAT, sk.t0)
  }

  function UnpackSecretKey(p: Params, b: seq<byte>): (sk: SecretKey)
    requires IsParams(p) && |b| == SecretKeySize(p)
    ensures IsSecretKey(p, sk)
  {
    hide Lossless, Total, IsParams, EtaFormat, MaskFormat, InRange;
    Formats(p);
    var e := EtaFormat(p.eta);
    var a1 := 2 * SEED + TR;
    var a2 := a1 + Total(p.ell, e);
    var a3 := a2 + Total(p.k, e);
    SecretKey(b[..SEED], b[SEED..2 * SEED], b[2 * SEED..a1], UnpackVector(e, b[a1..a2], p.ell),
              UnpackVector(e, b[a2..a3], p.k), UnpackVector(T0_FORMAT, b[a3..], p.k))
  }

  function PackPublicKey(pk: PublicKey): (r: seq<byte>)
    requires IsShape(pk.t1, |pk.t1|)
  {
    pk.rho + PackVector(T1_FORMAT, pk.t1)
  }

  function UnpackPublicKey(p: Params, b: seq<byte>): (pk: PublicKey)
    requires IsParams(p) && |b| == PublicKeySize(p)
    ensures IsPublicKey(p, pk)
  {
    hide Lossless, Total, IsParams, EtaFormat, MaskFormat, InRange;
    Formats(p);
    PublicKey(b[..SEED], UnpackVector(T1_FORMAT, b[SEED..], p.k))
  }

  function PackSignature(p: Params, g: Signature): (r: seq<byte>)
    requires IsParams(p) && IsSignature(p, g)
  {
    g.c + PackVector(MaskFormat(p.gamma1), g.z) + H.Encode(g.h, p.omega)
  }

  /** Where the hint bytes start. */
  function HintOffset(p: Params): (r: nat) { p.challengeSize + Total(p.ell, MaskFormat(p.gamma1)) }

  function UnpackSignature(p: Params, b: seq<byte>): (r: Option<Signature>)
    requires IsParams(p) && |b| == SignatureSize(p)
    ensures r.Some? ==> |r.value.c| == p.challengeSize && IsShape(r.value.z, p.ell) && IsShape(r.value.h, p.k)
  {
    hide Lossless, Total, IsParams, EtaFormat, MaskFormat, InRange, H.Accepted, H.Decode;
    Formats(p);
    var a := HintOffset(p);
    if !H.Accepted(b[a..], p.omega, p.k) then None
    else
      H.EncodeDecode(b[a..], p.omega, p.k);
      Some(Signature(b[..p.challengeSize], UnpackVector(MaskFormat(p.gamma1), b[p.challengeSize..a], p.ell),
                     H.Decode(b[a..], p.omega, p.k)))
  }

  // ----- round trips

  lemma SecretKeyRoundTrip(p: Params, sk: SecretKey)
    requires IsParams(p) && IsSecretKey(p, sk)
    requires VectorInRange(EtaFormat(p.eta), sk.s1) && VectorInRange(EtaFormat(p.eta), sk.s2)
         && VectorInRange(T0_FORMAT, sk.t0)
    ensures |PackSecretKey(p, sk)| == SecretKeySize(p) && UnpackSecretKey(p, PackSecretKey(p, sk)) == sk
  {
    hide Lossless, Total, IsParams, EtaFormat, PackVector, UnpackVector, InRange;
    Formats(p);
    var e := EtaFormat(p.eta);
    VectorRoundTrip(e, sk.s1);
    VectorRoundTrip(e, sk.s2);
    VectorRoundTrip(T0_FORMAT, sk.t0);
    var b, a1 := PackSecretKey(p, sk), 2 * SEED + TR;
    var a2 := a1 + Total(p.ell, e);
    var a3 := a2 + Total(p.k, e);
    assert b[..SEED] == sk.rho && b[SEED..2 * SEED] == sk.key && b[2 * SEED..a1] == sk.tr;
    assert b[a1..a2] == PackVector(e, sk.s1);
    assert b[a2..a3] == PackVector(e, sk.s2);
    assert b[a3..] == PackVector(T0_FORMAT, sk.t0);
  }

  lemma PublicKeyRoundTrip(p: Params, pk: PublicKey)
    requires IsParams(p) && IsPublicKey(p, pk) && VectorInRange(T1_FORMAT, pk.t1)
    ensures |PackPublicKey(pk)| == PublicKeySize(p) && UnpackPublicKey(p, PackPublicKey(pk)) == pk
  {
    hide Lossless, Total, IsParams, PackVector, UnpackVector, InRange;
    Formats(p);
    VectorRoundTrip(T1_FORMAT, pk.t1);
    var b := PackPublicKey(pk);
    assert b[..SEED] == pk.rho && b[SEED..] == PackVector(T1_FORMAT, pk.t1);
  }

  lemma SmallOmega(p: Params)
    requires IsParams(p)
    ensures p.omega < 256 && p.tau <= 64 && 0 < p.ell <= 7 && 0 < p.k <= 8 && IsGamma2(p.gamma2)
  {
  }

  /** Verify reads back what sign packed. */
  lemma SignatureRoundTrip(p: Params, g: Signature)
    requires IsParams(p) && IsSignature(p, g) && VectorInRange(MaskFormat(p.gamma1), g.z)
    ensures |PackSignature(p, g)| == SignatureSize(p) && UnpackSignature(p, PackSignature(p, g)) == Some(g)
  {
    hide Lossless, Total, IsParams, MaskFormat, PackVector, UnpackVector, InRange, H.Accepted, H.Decode, H.Encode,
         H.Fits;
    Formats(p);
    SmallOmega(p);
    VectorRoundTrip(MaskFormat(p.gamma1), g.z);
    H.DecodeEncode(g.h, p.omega);
    var b, a := PackSignature(p, g), HintOffset(p);
    assert b[..p.challengeSize] == g.c;
    assert b[p.challengeSize..a] == PackVector(MaskFormat(p.gamma1), g.z);
    assert b[a..] == H.Encode(g.h, p.omega);
  }

  /** Strictness: bytes that verify can read are exactly what sign would have packed, so no
      two readable signatures mean the same. */
  lemma SignatureBytes(p: Params, b: seq<byte>)
    requires IsParams(p) && |b| == SignatureSize(p) && UnpackSignature(p, b).Some?
    ensures IsSignature(p, UnpackSignature(p, b).value) && PackSignature(p, UnpackSignature(p, b).value) == b
  {
    hide Lossless, Total, IsParams, MaskFormat, PackVector, UnpackVector, InRange, H.Accepted, H.Decode, H.Encode,
         H.Fits;
    Formats(p);
    SmallOmega(p);
    var a := HintOffset(p);
    VectorBytes(MaskFormat(p.gamma1), b[p.challengeSize..a], p.ell);
    H.EncodeDecode(b[a..], p.omega, p.k);
    assert b == b[..p.challengeSize] + b[p.challengeSize..a] + b[a..];
  }
}
