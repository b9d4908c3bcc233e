/** One turn of signing is one pass of the loop of algorithm 7 of FIPS 204: what it rejects and what
    it returns, for any secret key bytes, in terms of bits, polynomials of the ring and bytes of SHAKE. */
module MldsaSigning {
  import opened Polynomials
  import opened NttAlgebra
  import opened Words
  import opened BitCodec
  import opened BitOrder
  import opened Rejection
  import opened VectorCodec
  import opened FieldVectors
  import opened RingRows
  import opened MldsaReduce
  import opened MldsaRounding
  import opened MldsaVector
  import opened MldsaEquation
  import opened MldsaRecovery
  import opened MldsaKeys
  import opened MldsaScheme
  import opened MldsaCorrect
  import opened MldsaRuns
  import opened MldsaStandard
  import opened MldsaRing
  import opened MldsaFields
  import opened MldsaHintBytes
  import opened MldsaVerification
  import opened MldsaTurnRows
  import S = MldsaSampling
  import H = MldsaHints

  // ----- the mask

  /** Polynomial l of turn number nonce: fields of the stream of the seed and the two low bytes of
      ell * nonce + l. */
  function Mask(e: Shake, p: Params, seed: seq<byte>, nonce: nat, l: nat): (y: Poly)
    ensures |y| == N
  {
    var d, n := MaskBits(p), p.ell * nonce + l;
    var b := Bytes(e.x256(seed + [ByteOf(n % 0x100), ByteOf(n / 0x100 % 0x100)]), 0, 32 * d);
    ReadVector(b, 0, d, 1, true, p.gamma1)[0]
  }

  /** ExpandMask */
  function Masks(e: Shake, p: Params, seed: seq<byte>, nonce: nat): (y: seq<Poly>)
    ensures IsShape(y, p.ell) && forall l :: 0 <= l < p.ell ==> y[l] == Mask(e, p, seed, nonce, l)
  {
    hide Mask;
    seq(p.ell, l requires 0 <= l < p.ell => Mask(e, p, seed, nonce, l))
  }

  lemma SameLowBytes(x: nat, k: nat)
    ensures (x + 0x1_0000 * k) % 0x100 == x % 0x100 && (x + 0x1_0000 * k) / 0x100 % 0x100 == x / 0x100 % 0x100
  {
    assert (x + 0x1_0000 * k) / 0x100 == x / 0x100 + 0x100 * k;
  }

  /** A nonce counts modulo 2^16. */
  lemma SameNonce(x: nat, k: nat)
    ensures NonceBytes(x + 0x1_0000 * k) == NonceBytes(x)
  {
    hide ByteOf;
    SameLowBytes(x, k);
  }

  lemma DecodedMask(f: Format, d: nat, c: int, b: seq<byte>)
    requires FormatIs(f, d, true, c) && |b| == Size(f)
    ensures Decode(f.codec, b, f.groups) == ReadVector(b, 0, d, 1, true, c)[0]
  {
    hide Lossless, Ordered, Decode, ReadVector;
    assert b[..Size(f)] == b;
    UnpackedExactly(f, d, true, c, b, 1);
    assert UnpackVector(f, b, 1)[0] == Decode(f.codec, b, f.groups);
  }

  lemma MaskExactly(e: Shake, p: Params, seed: seq<byte>, nonce: nat, l: nat)
    requires IsParams(p)
    ensures MaskPoly(e, p, seed, nonce, l) == Mask(e, p, seed, nonce, l)
  {
    hide IsParams, Lossless, Ordered, MaskFormat, Decode, NonceBytes, Bytes, Read;
    Formats(p);
    Widths(p);
    var f, d := MaskFormat(p.gamma1), MaskBits(p);
    FormatSize(f, d, true, p.gamma1, 1);
    var m, n := p.ell * (nonce % 0x1_0000) + l, p.ell * nonce + l;
    var j, k := nonce / 0x1_0000, m / 0x1_0000;
    assert nonce == nonce % 0x1_0000 + 0x1_0000 * j;
    assert p.ell * nonce == p.ell * (nonce % 0x1_0000) + 0x1_0000 * (p.ell * j);
    SameNonce(m, p.ell * j);
    SameNonce(m % 0x1_0000, k);
    assert m == m % 0x1_0000 + 0x1_0000 * k;
    NonceOf(n);
    DecodedMask(f, d, p.gamma1, Bytes(e.x256(seed + NonceBytes(m % 0x1_0000)), 0, Size(f)));
  }

  lemma NonceOf(n: nat)
    ensures NonceBytes(n) == [ByteOf(n % 0x100), ByteOf(n / 0x100 % 0x100)]
  {
  }

  lemma MasksExactly(e: Shake, p: Params, seed: seq<byte>, nonce: nat)
    requires IsParams(p)
    ensures MaskVector(e, p, seed, nonce) == Masks(e, p, seed, nonce)
  {
    hide IsParams, MaskPoly, Mask;
    forall l | 0 <= l < p.ell
      ensures MaskVector(e, p, seed, nonce)[l] == Masks(e, p, seed, nonce)[l]
    {
      MaskExactly(e, p, seed, nonce, l);
    }
  }

  // ----- vectors

  /** w = A * y modulo Q */
  function Commitments(p: Params, a: seq<seq<Poly>>, y: seq<Poly>): (w: seq<Poly>)
    requires IsMatrixShape(p, a) && IsShape(y, p.ell)
    ensures IsShape(w, p.k)
    ensures forall i :: 0 <= i < p.k ==> Matched(a[i], y) && w[i] == Residues(RowSum(a[i], y, p.ell), Q)
  {
    MatrixMatches(p, a, y);
    seq(p.k, i requires 0 <= i < p.k => Residues(RowSum(a[i], y, p.ell), Q))
  }

  function HighRow(g: int, w: Poly): (r: Poly)
    requires g > 0
    ensures |r| == |w| && forall t :: 0 <= t < |w| ==> r[t] == High(g, w[t])
  {
    seq(|w|, t requires 0 <= t < |w| => High(g, w[t]))
  }

  function HighRows(g: int, w: seq<Poly>): (r: seq<Poly>)
    requires g > 0 && IsShape(w, |w|)
    ensures IsShape(r, |w|) && forall i :: 0 <= i < |w| ==> r[i] == HighRow(g, w[i])
  {
    seq(|w|, i requires 0 <= i < |w| => HighRow(g, w[i]))
  }

  /** z = y + c * s1, centred. */
  function ResponseRows(c: Poly, s1: seq<Poly>, y: seq<Poly>): (z: seq<Poly>)
    requires |c| == N && IsShape(s1, |y|) && IsShape(y, |y|)
    ensures IsShape(z, |y|)
    ensures forall l :: 0 <= l < |y| ==> z[l] == CentredPoly(Lin(1, Product(c, s1[l]), 1, y[l]))
  {
    seq(|y|, l requires 0 <= l < |y| => CentredPoly(Lin(1, Product(c, s1[l]), 1, y[l])))
  }

  /** c * t0, centred. */
  function CarryRows(c: Poly, t0: seq<Poly>): (r: seq<Poly>)
    requires |c| == N && IsShape(t0, |t0|)
    ensures IsShape(r, |t0|) && forall i :: 0 <= i < |t0| ==> r[i] == CentredPoly(Product(c, t0[i]))
  {
    seq(|t0|, i requires 0 <= i < |t0| => CentredPoly(Product(c, t0[i])))
  }

  /** Subtracting c * s2 keeps every high part of w and leaves small low parts. */
  predicate KeepsRows(g: int, w: seq<Poly>, c: Poly, s2: seq<Poly>, b: int)
    requires g > 0 && |c| == N && IsShape(w, |w|) && IsShape(s2, |w|)
  {
    forall i :: 0 <= i < |w| ==> KeepsRow(g, w[i], c, s2[i], b)
  }

  function HintRows(g: int, w: seq<Poly>, c: Poly, s2: seq<Poly>, t0: seq<Poly>): (h: seq<Poly>)
    requires g > 0 && |c| == N && IsShape(w, |w|) && IsShape(s2, |w|) && IsShape(t0, |w|)
    ensures IsShape(h, |w|) && forall i :: 0 <= i < |w| ==> h[i] == HintRow(g, w[i], c, s2[i], t0[i])
  {
    seq(|w|, i requires 0 <= i < |w| => HintRow(g, w[i], c, s2[i], t0[i]))
  }

  /** The number of hints that are set. */
  function HintCount(h: seq<Poly>): (r: nat) {
    if h == [] then 0 else S.Weight(h[0]) + HintCount(h[1..])
  }

  /** The four checks of a turn. */
  predicate Admits(p: Params, w: seq<Poly>, c: Poly, y: seq<Poly>, s1: seq<Poly>, s2: seq<Poly>, t0: seq<Poly>)
    requires p.gamma2 > 0 && |c| == N && IsShape(y, p.ell) && IsShape(s1, p.ell)
    requires IsShape(w, p.k) && IsShape(s2, p.k) && IsShape(t0, p.k)
  {
    && Bounded(ResponseRows(c, s1, y), p.gamma1 - p.beta)
    && KeepsRows(p.gamma2, w, c, s2, p.gamma2 - p.beta)
    && Bounded(CarryRows(c, t0), p.gamma2)
    && HintCount(HintRows(p.gamma2, w, c, s2, t0)) <= p.omega
  }

  // ----- the checks of the code

  lemma BoundedRows(v: seq<Poly>, b: int)
    ensures Bounded(v, b) <==> forall i :: 0 <= i < |v| ==> PolyBounded(v[i], b)
  {
    if forall i :: 0 <= i < |v| ==> PolyBounded(v[i], b) {
      forall i, t | 0 <= i < |v| && 0 <= t < |v[i]|
        ensures -b < v[i][t] < b
      {
        assert PolyBounded(v[i], b);
      }
    }
  }

  lemma FirstCheck(c: Poly, s1: seq<Poly>, y: seq<Poly>, b: int)
    requires IsPoly(c, Q) && IsShape(s1, |y|) && IsShape(y, |y|) && IsVector(s1, |y|, Q) && IsVector(y, |y|, 0x10_0000)
    requires 0 < b <= (Q - 1) / 8
    ensures AnyNormExceeds(ResponseVector(c, s1, y), b) <==> !Bounded(ResponseRows(c, s1, y), b)
    ensures Bounded(ResponseRows(c, s1, y), b) ==> ResponseVector(c, s1, y) == ResponseRows(c, s1, y)
  {
    hide Response, Product, Lin, CentredPoly, PolyBounded, Bounded, AnyNormExceeds, Represents;
    var v, r := ResponseVector(c, s1, y), ResponseRows(c, s1, y);
    forall l | 0 <= l < |y|
      ensures PolyBounded(v[l], b) <==> PolyBounded(r[l], b)
      ensures PolyBounded(v[l], b) ==> v[l] == r[l]
    {
      ResponseRepresents(c, s1[l], y[l]);
      RepresentedRow(v[l], Lin(1, Product(c, s1[l]), 1, y[l]), b);
    }
    NormsExactly(v, b);
    BoundedRows(v, b);
    BoundedRows(r, b);
  }

  lemma ThirdCheck(c: Poly, t0: seq<Poly>, b: int)
    requires IsPoly(c, Q) && IsShape(t0, |t0|) && IsVector(t0, |t0|, Q) && 0 < b <= (Q - 1) / 8
    ensures AnyNormExceeds(CarryVector(c, t0), b) <==> !Bounded(CarryRows(c, t0), b)
  {
    hide Carry, Product, CentredPoly, PolyBounded, Bounded, AnyNormExceeds, Represents;
    var v, r := CarryVector(c, t0), CarryRows(c, t0);
    forall i | 0 <= i < |t0|
      ensures PolyBounded(v[i], b) <==> PolyBounded(r[i], b)
    {
      CarryRepresents(c, t0[i]);
      RepresentedRow(v[i], Product(c, t0[i]), b);
    }
    NormsExactly(v, b);
    BoundedRows(v, b);
    BoundedRows(r, b);
  }

  lemma SecondCheck(g: int, w: seq<Poly>, c: Poly, s2: seq<Poly>, b: int)
    requires IsGamma2(g) && IsPoly(c, Q) && AllCanonical(w) && IsShape(w, |w|) && IsShape(s2, |w|)
    requires IsVector(s2, |w|, Q) && 0 < b <= g
    ensures AnyNormExceeds(RemainderVector(g, w, c, s2), b) <==> !KeepsRows(g, w, c, s2, b)
  {
    hide Remainder, KeepsRow, PolyBounded, Bounded, AnyNormExceeds, IsCanonical;
    var v := RemainderVector(g, w, c, s2);
    forall i | 0 <= i < |w|
      ensures PolyBounded(v[i], b) <==> KeepsRow(g, w[i], c, s2[i], b)
    {
      RemainderRowExactly(g, w[i], c, s2[i], b);
    }
    NormsExactly(v, b);
    BoundedRows(v, b);
  }

  lemma HintsMade(g: int, w: seq<Poly>, c: Poly, s2: seq<Poly>, t0: seq<Poly>, b: int)
    requires IsGamma2(g) && IsPoly(c, Q) && AllCanonical(w) && IsShape(w, |w|) && IsShape(s2, |w|) && IsShape(t0, |w|)
    requires IsVector(s2, |w|, Q) && IsVector(t0, |w|, Q) && 0 < b <= g
    requires !AnyNormExceeds(RemainderVector(g, w, c, s2), b) && !AnyNormExceeds(CarryVector(c, t0), g)
    ensures HintVector(g, w, c, s2, t0) == HintRows(g, w, c, s2, t0)
  {
    hide Remainder, Carry, RowHint, HintRow, PolyBounded, Bounded, AnyNormExceeds, IsCanonical;
    NormsExactly(RemainderVector(g, w, c, s2), b);
    BoundedRows(RemainderVector(g, w, c, s2), b);
    NormsExactly(CarryVector(c, t0), g);
    BoundedRows(CarryVector(c, t0), g);
    forall i | 0 <= i < |w|
      ensures RowHint(g, w[i], c, s2[i], t0[i]) == HintRow(g, w[i], c, s2[i], t0[i])
    {
      assert PolyBounded(RemainderVector(g, w, c, s2)[i], b) && PolyBounded(CarryVector(c, t0)[i], g);
      HintRowExactly(g, w[i], c, s2[i], t0[i], b);
    }
  }

  lemma {:induction false} SumIsWeight(h: Poly)
    requires IsHint(h)
    ensures Sum(h) == S.Weight(h)
  {
    if h != [] {
      SumIsWeight(h[1..]);
    }
  }

  lemma {:induction false} CountExactly(h: seq<Poly>)
    requires forall i :: 0 <= i < |h| ==> IsHint(h[i])
    ensures HintSum(h) == HintCount(h)
  {
    hide Sum, S.Weight, IsHint;
    if h != [] {
      SumIsWeight(h[0]);
      CountExactly(h[1..]);
    }
  }

  // ----- the commitment

  lemma CommitmentsExactly(p: Params, a: seq<seq<Poly>>, mat: seq<seq<Poly>>, y: seq<Poly>)
    requires IsParams(p) && IsMatrixShape(p, a) && IsMatrixShape(p, mat) && MatrixOf(a, mat)
    requires (forall i :: 0 <= i < p.k ==> IsVector(mat[i], p.ell, Q)) && IsShape(y, p.ell) && IsVector(y, p.ell, Q)
    ensures 0 < p.ell && forall i :: 0 <= i < p.k ==> Matched(mat[i], y)
    ensures Commitment(mat, y) == Commitments(p, a, y) && AllCanonical(Commitment(mat, y))
  {
    hide IsParams, Matched, RowOf, RowSum, Residues, CommitmentRow, IsCanonical;
    SmallOmega(p);
    MatrixMatches(p, mat, y);
    forall i | 0 <= i < p.k
      ensures CommitmentRow(mat[i], y) == Commitments(p, a, y)[i] && IsCanonical(CommitmentRow(mat[i], y))
    {
      RowLength(mat[i], y, p.ell);
      CommitmentExactly(a[i], mat[i], y);
      CommitmentValues(mat[i], y);
    }
  }

  lemma HighExactly(g: int, w: Poly)
    requires IsGamma2(g) && IsCanonical(w)
    ensures HighPart(g, w) == HighRow(g, w)
  {
    hide Decompose, Parts;
    forall t | 0 <= t < N
      ensures HighPart(g, w)[t] == HighRow(g, w)[t]
    {
      DecomposeIsStandard(g, w[t]);
    }
  }

  lemma HighVectorExactly(p: Params, w: seq<Poly>)
    requires IsParams(p) && AllCanonical(w) && IsShape(w, |w|)
    ensures IsGamma2(p.gamma2) && HighVector(p.gamma2, w) == HighRows(p.gamma2, w)
    ensures VectorInRange(HighFormat(p.gamma2), HighRows(p.gamma2, w))
  {
    hide HighPart, HighRow, IsCanonical, Pow2, IsParams;
    SmallOmega(p);
    forall i | 0 <= i < |w|
      ensures HighPart(p.gamma2, w[i]) == HighRow(p.gamma2, w[i])
      ensures InRange(HighFormat(p.gamma2).codec, HighRow(p.gamma2, w[i]))
    {
      HighExactly(p.gamma2, w[i]);
      HighInRange(p.gamma2, w[i]);
    }
  }

  lemma HighInRange(g: int, w: Poly)
    requires IsGamma2(g)
    ensures InRange(HighFormat(g).codec, HighRow(g, w))
  {
    hide High, Pow2;
    FieldSizes();
    PowersOfTwo();
    forall t | 0 <= t < |w|
      ensures Storable(HighFormat(g).codec, HighRow(g, w)[t])
    {
      PartsCong(g, w[t]);
      HighIs(g, w[t]);
    }
  }

  // ----- the signature

  /** The bytes of a signature: challenge bytes, response fields, hint bytes. */
  ghost predicate Composed(p: Params, sig: seq<byte>, ct: seq<byte>, z: seq<Poly>, h: seq<Poly>)
    requires IsShape(z, |z|)
  {
    exists y: seq<byte> :: |y| == p.omega + p.k && WellFormed(y, p.omega, p.k) && Hints(y, p.omega, p.k) == h
      && sig == ct + Packed(MaskBits(p), z, true, p.gamma1) + y
  }

  lemma ComposedExactly(p: Params, ct: seq<byte>, z: seq<Poly>, h: seq<Poly>)
    requires IsParams(p) && IsSignature(p, Signature(ct, z, h)) && VectorInRange(MaskFormat(p.gamma1), z)
    ensures Composed(p, PackSignature(p, Signature(ct, z, h)), ct, z, h)
  {
    hide IsParams, Lossless, Ordered, MaskFormat, VectorInRange, PackVector, H.Encode, WellFormed, Packed, H.Fits;
    Widths(p);
    SmallOmega(p);
    EncodedExactly(h, p.omega);
    PackedExactly(MaskFormat(p.gamma1), MaskBits(p), true, p.gamma1, z);
    var y := H.Encode(h, p.omega);
    assert PackSignature(p, Signature(ct, z, h)) == ct + Packed(MaskBits(p), z, true, p.gamma1) + y;
  }

  // ----- one turn

  lemma Bounds2(p: Params)
    requires IsParams(p)
    ensures 0 < p.gamma1 - p.beta <= (Q - 1) / 8 && 0 < p.gamma2 - p.beta <= p.gamma2 <= (Q - 1) / 8
  {
  }

  lemma HintRowsAreHints(g: int, w: seq<Poly>, c: Poly, s2: seq<Poly>, t0: seq<Poly>)
    requires g > 0 && |c| == N && IsShape(w, |w|) && IsShape(s2, |w|) && IsShape(t0, |w|)
    ensures forall i :: 0 <= i < |w| ==> IsHint(HintRows(g, w, c, s2, t0)[i])
  {
    hide Product, High;
  }

  /** The checks of the code, one after the other, admit what the standard admits. */
  lemma ChecksExactly(p: Params, w: seq<Poly>, c: Poly, y: seq<Poly>, s1: seq<Poly>, s2: seq<Poly>, t0: seq<Poly>)
    requires IsParams(p) && IsGamma2(p.gamma2) && IsPoly(c, Q) && AllCanonical(w)
    requires IsShape(y, p.ell) && IsShape(s1, p.ell) && IsShape(w, p.k) && IsShape(s2, p.k) && IsShape(t0, p.k)
    requires IsVector(y, p.ell, 0x10_0000) && IsVector(s1, p.ell, Q) && IsVector(s2, p.k, Q) && IsVector(t0, p.k, Q)
    ensures Admits(p, w, c, y, s1, s2, t0) <==>
      && !AnyNormExceeds(ResponseVector(c, s1, y), p.gamma1 - p.beta)
      && !AnyNormExceeds(RemainderVector(p.gamma2, w, c, s2), p.gamma2 - p.beta)
      && !AnyNormExceeds(CarryVector(c, t0), p.gamma2)
      && HintSum(HintVector(p.gamma2, w, c, s2, t0)) <= p.omega
    ensures Admits(p, w, c, y, s1, s2, t0) ==>
      ResponseVector(c, s1, y) == ResponseRows(c, s1, y)
      && HintVector(p.gamma2, w, c, s2, t0) == HintRows(p.gamma2, w, c, s2, t0)
  {
    hide IsParams, IsGamma2, IsHint, AnyNormExceeds, Bounded, KeepsRow, HintCount, HintSum, AllCanonical, Response,
         ResponseVector, ResponseRows, RemainderVector, CarryVector, CarryRows, HintVector, HintRows, KeepsRows;
    var g := p.gamma2;
    Bounds2(p);
    FirstCheck(c, s1, y, p.gamma1 - p.beta);
    SecondCheck(g, w, c, s2, g - p.beta);
    ThirdCheck(c, t0, g);
    if !AnyNormExceeds(RemainderVector(g, w, c, s2), g - p.beta) && !AnyNormExceeds(CarryVector(c, t0), g) {
      HintsMade(g, w, c, s2, t0, g - p.beta);
      HintRowsAreHints(g, w, c, s2, t0);
      CountExactly(HintRows(g, w, c, s2, t0));
    }
  }

  /** What a turn with secrets s1, s2 and t0 ends in. */
  ghost predicate TurnIs(e: Shake, p: Params, a: seq<seq<Poly>>, s1: seq<Poly>, s2: seq<Poly>, t0: seq<Poly>,
       mu: seq<byte>, seed: seq<byte>, nonce: nat, r: Outcome)
    requires IsParams(p) && IsMatrixShape(p, a) && IsShape(s1, p.ell) && IsShape(s2, p.k) && IsShape(t0, p.k)
  {
    var y := Masks(e, p, seed, nonce);
    var w := Commitments(p, a, y);
    var ct := Bytes(e.x256(mu + Packed(HighBits(p), HighRows(p.gamma2, w), false, 0)), 0, p.challengeSize);
    var c := S.Challenge(e.x256(ct), e.limit, p.tau);
    if c == [] then r == OutOfBytes
    else if !Admits(p, w, c, y, s1, s2, t0) then r == Rejected
    else r.Accepted? && Composed(p, r.sig, ct, ResponseRows(c, s1, y), HintRows(p.gamma2, w, c, s2, t0))
  }

  lemma AcceptedTurn(p: Params, w: seq<Poly>, c: Poly, y: seq<Poly>, k: SecretKey, ct: seq<byte>)
    requires IsParams(p) && IsGamma2(p.gamma2) && |ct| == p.challengeSize && |c| == N && IsShape(y, p.ell)
    requires IsSecretKey(p, k) && IsShape(w, p.k)
    requires !AnyNormExceeds(ResponseVector(c, k.s1, y), p.gamma1 - p.beta)
    requires HintSum(HintVector(p.gamma2, w, c, k.s2, k.t0)) <= p.omega
    ensures VectorInRange(MaskFormat(p.gamma1), ResponseVector(c, k.s1, y))
    ensures IsSignature(p, Signature(ct, ResponseVector(c, k.s1, y), HintVector(p.gamma2, w, c, k.s2, k.t0)))
  {
    hide IsParams, IsGamma2, AnyNormExceeds, HintSum, Response, RowHint, MaskFormat, VectorInRange, H.Fits;
    var z := ResponseVector(c, k.s1, y);
    NormAccepts(z, p.ell, p.gamma1 - p.beta);
    ResponseInRange(p, z);
    HintsFit(p.gamma2, w, c, k.s2, k.t0, p.omega);
  }

  lemma AttemptExactly(e: Shake, p: Params, a: seq<seq<Poly>>, k: SecretKey, mat: seq<seq<Poly>>, mu: seq<byte>,
       seed: seq<byte>, nonce: nat)
    requires IsParams(p) && IsSecretKey(p, k) && IsMatrixShape(p, a) && IsMatrixShape(p, mat) && MatrixOf(a, mat)
    requires forall i :: 0 <= i < p.k ==> IsVector(mat[i], p.ell, Q)
    requires IsVector(k.s1, p.ell, Q) && IsVector(k.s2, p.k, Q) && IsVector(k.t0, p.k, Q)
    ensures TurnIs(e, p, a, k.s1, k.s2, k.t0, mu, seed, nonce, Attempt(e, p, k, mat, mu, seed, nonce))
  {
    hide IsParams, Matched, MatrixOf, IsGamma2, Lossless, VectorInRange, PackVector, Packed, AllCanonical, HighVector,
         HighRows, HighFormat, Commitment, Commitments, S.Challenge, AnyNormExceeds, Admits, HintSum, ResponseVector,
         ResponseRows, RemainderVector, CarryVector, HintVector, HintRows, MaskVector, Masks, IsVector, Composed,
         PackSignature, H.Fits, MaskFormat;
    SmallOmega(p);
    MasksExactly(e, p, seed, nonce);
    MaskVectorBound(e, p, seed, nonce);
    var y := MaskVector(e, p, seed, nonce);
    Wider(y, p.ell, 0x8_0000, Q);
    Wider(y, p.ell, 0x8_0000, 0x10_0000);
    CommitmentsExactly(p, a, mat, y);
    var w := Commitment(mat, y);
    Formats(p);
    HighVectorExactly(p, w);
    HashedBytes(p, HighRows(p.gamma2, w));
    var ct := Hash(e, mu + PackVector(HighFormat(p.gamma2), HighVector(p.gamma2, w)), p.challengeSize);
    var c := S.Challenge(e.x256(ct), e.limit, p.tau);
    if c != [] {
      ChallengeIsPoly(e.x256(ct), e.limit, p.tau);
      ChallengeBound(c);
      ChecksExactly(p, w, c, y, k.s1, k.s2, k.t0);
      if Admits(p, w, c, y, k.s1, k.s2, k.t0) {
        AcceptedTurn(p, w, c, y, k, ct);
        ComposedExactly(p, ct, ResponseVector(c, k.s1, y), HintVector(p.gamma2, w, c, k.s2, k.t0));
      }
    }
  }

  lemma WiderSecrets(p: Params, sk: seq<byte>)
    requires IsParams(p) && |sk| == SecretKeySize(p)
    ensures IsVector(FirstSecret(p, sk), p.ell, Q) && IsVector(SecondSecret(p, sk), p.k, Q)
    ensures IsVector(KeyLow(p, sk), p.k, Q)
  {
    hide IsParams, FirstSecret, SecondSecret, KeyLow, UnpackSecretKey, SecretKeySize, IsVector;
    SecretKeyFields(p, sk);
    SecretsBound(p, sk);
    Wider(FirstSecret(p, sk), p.ell, 0x10_0000, Q);
    Wider(SecondSecret(p, sk), p.k, 0x10_0000, Q);
    Wider(KeyLow(p, sk), p.k, 0x10_0000, Q);
  }

  lemma SecretKeyLength(p: Params, sk: seq<byte>)
    requires |sk| == SecretKeySize(p)
    ensures |sk| >= 128
  {
  }

  /** For every matrix a behind the sampled values, any secret key bytes, message, randomizer and turn: the
      outcome of mldsa_sign_internal is that of the standard, with mu = H(tr || m) and the mask seed
      H(K || rnd || mu). */
  lemma SignExactly(e: Shake, p: Params, a: seq<seq<Poly>>, sk: seq<byte>, m: seq<byte>, rnd: seq<byte>, nonce: nat)
    requires IsParams(p) && |sk| == SecretKeySize(p)
    requires IsMatrixShape(p, a) && MatrixOf(a, ExpandMatrix(e, p, sk[..32]))
    ensures var mu := Bytes(e.x256(sk[64..128] + m), 0, 64);
      var seed := Bytes(e.x256(sk[32..64] + rnd + mu), 0, 64);
      TurnIs(e, p, a, FirstSecret(p, sk), SecondSecret(p, sk), KeyLow(p, sk), mu, seed, nonce,
             SignAttempt(e, p, sk, m, rnd, nonce))
  {
    hide IsParams, MatrixOf, FirstSecret, SecondSecret, KeyLow, UnpackSecretKey, SecretKeySize, IsVector, TurnIs,
         Attempt, ExpandMatrix;
    SecretKeyLength(p, sk);
    SecretKeyFields(p, sk);
    WiderSecrets(p, sk);
    ShapeOf(p, a, ExpandMatrix(e, p, sk[..32]));
    MatrixBound(e, p, sk[..32]);
    var mu := Bytes(e.x256(sk[64..128] + m), 0, 64);
    var seed := Bytes(e.x256(sk[32..64] + rnd + mu), 0, 64);
    AttemptExactly(e, p, a, UnpackSecretKey(p, sk), ExpandMatrix(e, p, sk[..32]), mu, seed, nonce);
  }

  /** Without a complete matrix there is no signature. */
  lemma SignWithoutMatrix(e: Shake, p: Params, sk: seq<byte>, m: seq<byte>, rnd: seq<byte>, nonce: nat)
    requires IsParams(p) && |sk| == SecretKeySize(p) && !IsMatrixShape(p, ExpandMatrix(e, p, sk[..32]))
    ensures SignAttempt(e, p, sk, m, rnd, nonce) == OutOfBytes
  {
    hide IsParams, UnpackSecretKey, SecretKeySize, Attempt, ExpandMatrix, IsMatrixShape;
    SecretKeyFields(p, sk);
  }
}
