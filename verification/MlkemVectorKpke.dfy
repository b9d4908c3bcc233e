/** tools/pqc/mlkem/mlkem_kpke.c built with the vector arithmetic of rvv_poly.c: the same keys,
    ciphertexts and messages as with the scalar arithmetic, byte for byte. Noise and matrix
    entries are the functions of the scalar scheme, which the vector samplers compute as well. */
module MlkemVectorKpke {
  import opened Modular
  import opened Polynomials
  import opened NttAlgebra
  import opened Butterflies
  import opened Words
  import opened BitCodec
  import opened VectorCodec
  import opened Rejection
  import opened WideLayers
  import opened MlkemReduce
  import opened MlkemNtt
  import opened MlkemProduct
  import opened MlkemCompress
  import opened MlkemKpke
  import opened MlkemVectorReduce
  import opened MlkemVectorCorrect
  import opened MlkemVectorProduct
  import P = MlkemPack
  import V = MlkemVectorNtt
  import S = MlkemValues
  import D = MlkemDecryption

  // ----- centred representatives are unique

  lemma SameCentre(x: int, y: int)
    requires Int16(x) && Int16(y) && Cong(x, y, Q)
    ensures BarrettReduce(x) == BarrettReduce(y)
  {
    hide Cong, BarrettReduce;
    BarrettReduceExact(x);
    BarrettReduceExact(y);
    var r, s := BarrettReduce(x), BarrettReduce(y);
    Trans(r, x, y, Q);
    Sym(s, y, Q);
    Trans(r, y, s, Q);
    Close(r, s);
  }

  lemma Close(r: int, s: int)
    requires Cong(r, s, Q) && -Q < r - s < Q
    ensures r == s
  {
    var k := Quotient(r, s, Q);
    MultipleBounds(k, Q);
  }

  /** The vector mlkem_poly_reduce, as a value. */
  function VectorReduced(a: Poly): (r: Poly)
    ensures |r| == |a| && forall i :: 0 <= i < |a| ==> r[i] == FqBarrett(a[i])
  {
    seq(|a|, i requires 0 <= i < |a| => FqBarrett(a[i]))
  }

  lemma SameReduced(a: Poly, b: Poly)
    requires |a| == |b| && Within(a, 0x7fff) && Within(b, 0x7fff) && CongSeq(a, b, Q)
    ensures VectorReduced(a) == Reduced(b) && Within(Reduced(b), 1664)
  {
    hide FqBarrett, BarrettReduce, Cong;
    forall i | 0 <= i < |a|
      ensures VectorReduced(a)[i] == Reduced(b)[i] && -1664 <= Reduced(b)[i] <= 1664
    {
      FqBarrettIsBarrett(a[i]);
      SameCentre(a[i], b[i]);
      BarrettReduceExact(b[i]);
    }
  }

  lemma SumsAgree(a: Poly, b: Poly, a': Poly, b': Poly, m: int, n: int)
    requires IsPoly(a, m) && IsPoly(b, n) && IsPoly(a', m) && IsPoly(b', n) && m + n < 0x8000
    requires CongSeq(a, a', Q) && CongSeq(b, b', Q)
    ensures CongSeq(Plus(a, b), Plus(a', b'), Q) && IsPoly(Plus(a, b), m + n) && IsPoly(Plus(a', b'), m + n)
    ensures CongSeq(Minus(a, b), Minus(a', b'), Q) && IsPoly(Minus(a, b), m + n) && IsPoly(Minus(a', b'), m + n)
  {
    hide Cong, W16;
    forall i | 0 <= i < N
      ensures Cong(Plus(a, b)[i], Plus(a', b')[i], Q) && Cong(Minus(a, b)[i], Minus(a', b')[i], Q)
      ensures -(m + n) <= Plus(a, b)[i] <= m + n && -(m + n) <= Plus(a', b')[i] <= m + n
      ensures -(m + n) <= Minus(a, b)[i] <= m + n && -(m + n) <= Minus(a', b')[i] <= m + n
    {
      Fits(a[i], b[i]);
      Fits(a'[i], b'[i]);
      Add(a[i], a'[i], b[i], b'[i], Q);
    }
  }

  lemma Fits(x: int, y: int)
    ensures -0x8000 < x + y < 0x8000 ==> W16(x + y) == x + y
    ensures -0x8000 < x - y < 0x8000 ==> W16(x - y) == x - y
  {
  }

  // ----- the transforms

  /** What the vector mlkem_poly_ntt leaves. */
  function VectorTransformed(a: Poly): (r: Poly)
    requires |a| == N
    ensures |r| == N
  {
    PowersOfTwo();
    V.MulQ(WideDown(V.WFWD, a, 1, 7, 1), V.MONT_R1)
  }

  function VectorTransformedVector(v: seq<Poly>): (r: seq<Poly>)
    requires IsShape(v, |v|)
    ensures IsShape(r, |v|) && forall i :: 0 <= i < |v| ==> r[i] == VectorTransformed(v[i])
  {
    seq(|v|, i requires 0 <= i < |v| => VectorTransformed(v[i]))
  }

  /** Canonical where the scalar transform is centred. */
  ghost predicate Twins(x: Poly, y: Poly) {
    |x| == |y| == N && Canonical(x) && Within(y, 1664) && CongSeq(x, y, Q)
  }

  lemma TransformsAgree(a: Poly)
    requires IsPoly(a, 9464)
    ensures Twins(VectorTransformed(a), Transformed(a))
  {
    hide V.MulQ, WideDown, Within, CongSeq, Hat, Ntt, Reduced, Canonical;
    LayersAreHat(a, 9464);
    var x := WideDown(V.WFWD, a, 1, 7, 1);
    MulQOne(x, Hat(a)) by { WithinWeaker(x, 9464 + 7 * Q, 0x7fff); }
    TransformedValues(a);
    SymSeq(Transformed(a), Hat(a));
    TransSeq(VectorTransformed(a), Hat(a), Transformed(a), Q);
  }

  ghost predicate AllTwins(x: seq<Poly>, y: seq<Poly>) {
    |x| == |y| && forall i :: 0 <= i < |x| ==> Twins(x[i], y[i])
  }

  lemma VectorsAgree(v: seq<Poly>, n: nat)
    requires IsShape(v, |v|) && IsVector(v, n, 9464)
    ensures AllTwins(VectorTransformedVector(v), TransformedVector(v))
  {
    hide Twins, VectorTransformed, Transformed;
    forall i | 0 <= i < n
      ensures Twins(VectorTransformed(v[i]), Transformed(v[i]))
    {
      assert IsPoly(v[i], 9464);
      TransformsAgree(v[i]);
    }
  }

  lemma TwinRanges(x: Poly, y: Poly)
    requires Twins(x, y)
    ensures IsPoly(x, 4095) && IsPoly(y, 4095) && IsPoly(x, Q) && IsPoly(y, Q) && CongSeq(x, y, Q)
  {
    hide Cong;
  }

  lemma InversesAgree(a: Poly)
    requires IsPoly(a, 1664)
    ensures CongSeq(V.VectorInverse(a), InvNtt(a), Q) && IsPoly(V.VectorInverse(a), Q) && IsPoly(InvNtt(a), Q)
  {
    hide V.VectorInverse, InvNtt, Hat, CongSeq;
    InverseAgrees(a);
    HatInvNtt(a);
  }

  // ----- products of vectors

  lemma BaseProductsAgree(x: Poly, y: Poly, y': Poly)
    requires IsPoly(x, 4095) && IsPoly(y, 4095) && IsPoly(y', 4095) && CongSeq(y, y', Q)
    ensures CongSeq(VectorBase(x, y), BaseMul(x, y'), Q)
    ensures IsPoly(VectorBase(x, y), 2 * Q - 1) && IsPoly(BaseMul(x, y'), 2 * Q - 1)
  {
    hide VectorBase, BaseMul, PairMul, CongSeq, Times;
    var u, v := VectorBase(x, y), BaseMul(x, y');
    VectorBaseValues(x, y);
    BaseMulValues(x, y');
    ReflSeq(x, Q);
    PairMulCong(x, y, x, y');
    TransSeq(Times(R, u), PairMul(x, y), PairMul(x, y'), Q);
    SymSeq(Times(R, v), PairMul(x, y'));
    TransSeq(Times(R, u), PairMul(x, y'), Times(R, v), Q);
    CancelSeq(u, v);
  }

  lemma CancelSeq(u: seq<int>, v: seq<int>)
    requires |u| == |v| && CongSeq(Times(R, u), Times(R, v), Q)
    ensures CongSeq(u, v, Q)
  {
    hide Cong;
    Factors();
    forall i | 0 <= i < |u|
      ensures Cong(u[i], v[i], Q)
    {
      assert Cong(Times(R, u)[i], Times(R, v)[i], Q);
      Cancel(R, RINV, u[i], v[i], Q);
    }
  }

  function VectorAccumulate(x: seq<Poly>, y: seq<Poly>, n: nat): (r: Poly)
    requires Matched(x, y) && 0 < n <= |x|
    ensures |r| == N
  {
    var last := VectorBase(x[n - 1], y[n - 1]);
    if n == 1 then last else Plus(VectorAccumulate(x, y, n - 1), last)
  }

  function VectorRowProduct(x: seq<Poly>, y: seq<Poly>): (r: Poly)
    requires Matched(x, y) && 0 < |x|
    ensures |r| == N
  {
    VectorReduced(VectorAccumulate(x, y, |x|))
  }

  /** A row with 12-bit coefficients against a transformed vector, in both forms. */
  ghost predicate RowOk(row: seq<Poly>, y: seq<Poly>, y': seq<Poly>) {
    0 < |row| <= 4 && IsVector(row, |row|, 4095) && Matched(row, y) && Matched(row, y') && AllTwins(y, y')
  }

  lemma {:induction false} SumsOfProductsAgree(x: seq<Poly>, y: seq<Poly>, y': seq<Poly>, n: nat)
    requires RowOk(x, y, y') && 0 < n <= |x|
    ensures CongSeq(VectorAccumulate(x, y, n), Accumulate(x, y', n), Q)
    ensures IsPoly(VectorAccumulate(x, y, n), n * (2 * Q - 1)) && IsPoly(Accumulate(x, y', n), n * (2 * Q - 1))
    decreases n
  {
    hide VectorBase, BaseMul, CongSeq, Plus, Twins;
    var l := n - 1;
    assert IsPoly(x[l], 4095) && Twins(y[l], y'[l]);
    TwinRanges(y[l], y'[l]);
    BaseProductsAgree(x[l], y[l], y'[l]);
    if n > 1 {
      SumsOfProductsAgree(x, y, y', l);
      SumsAgree(VectorAccumulate(x, y, l), VectorBase(x[l], y[l]), Accumulate(x, y', l), BaseMul(x[l], y'[l]),
                l * (2 * Q - 1), 2 * Q - 1);
    }
  }

  /** polyvec_basemul_acc_montgomery ends in a reduction to the centre: the results are equal. */
  lemma RowProductsAgree(x: seq<Poly>, y: seq<Poly>, y': seq<Poly>)
    requires RowOk(x, y, y')
    ensures VectorRowProduct(x, y) == RowProduct(x, y') && IsPoly(RowProduct(x, y'), 1664)
  {
    hide VectorAccumulate, Accumulate, CongSeq, VectorReduced, Reduced;
    var n := |x|;
    SumsOfProductsAgree(x, y, y', n);
    S.AccumulatedBound(VectorAccumulate(x, y, n), n);
    S.AccumulatedBound(Accumulate(x, y', n), n);
    SameReduced(VectorAccumulate(x, y, n), Accumulate(x, y', n));
  }

  // ----- the rows of the scheme

  /** The vector poly_tomont. */
  function VectorToMont(a: Poly): (r: Poly)
    ensures |r| == |a| && forall i :: 0 <= i < |a| ==> r[i] == FqMulVector(a[i], R2)
  {
    seq(|a|, i requires 0 <= i < |a| => FqMulVector(a[i], R2))
  }

  lemma ToMontAgrees(a: Poly)
    requires IsPoly(a, 1664)
    ensures CongSeq(VectorToMont(a), ToMont(a), Q) && IsPoly(VectorToMont(a), Q) && IsPoly(ToMont(a), Q)
  {
    hide FqMulVector, MontgomeryReduce, Cong;
    forall i | 0 <= i < N
      ensures Cong(VectorToMont(a)[i], ToMont(a)[i], Q) && -Q <= VectorToMont(a)[i] <= Q && -Q <= ToMont(a)[i] <= Q
    {
      FqMulVectorExact(a[i], R2);
      S.ToMontValue(a[i]);
      FromQuotient(VectorToMont(a)[i], ToMont(a)[i], if MulLow(a[i], R2) == -0x8000 then -1 else 0, Q);
    }
  }

  function VectorPublicRow(row: seq<Poly>, s: seq<Poly>, e: Poly): (t: Poly)
    requires Matched(row, s) && 0 < |s| && |e| == N
    ensures |t| == N
  {
    VectorReduced(Plus(VectorToMont(VectorRowProduct(row, s)), VectorTransformed(e)))
  }

  lemma PublicRowsAgree(row: seq<Poly>, s: seq<Poly>, s': seq<Poly>, e: Poly)
    requires RowOk(row, s, s') && IsPoly(e, 9464)
    ensures VectorPublicRow(row, s, e) == PublicRow(row, s', e) && IsPoly(PublicRow(row, s', e), 1664)
  {
    hide VectorRowProduct, RowProduct, VectorTransformed, Transformed, CongSeq, Plus, Minus, VectorReduced, Reduced,
         VectorToMont, ToMont, Twins, RowOk;
    RowFacts(row, s, s');
    RowProductsAgree(row, s, s');
    var a, b := VectorToMont(VectorRowProduct(row, s)), VectorTransformed(e);
    var a', b' := ToMont(RowProduct(row, s')), Transformed(e);
    ToMontAgrees(RowProduct(row, s'));
    TransformsAgree(e);
    TwinRanges(b, b');
    SumsAgree(a, b, a', b', Q, Q);
    Narrow(Plus(a, b), 2 * Q);
    Narrow(Plus(a', b'), 2 * Q);
    SameReduced(Plus(a, b), Plus(a', b'));
  }

  lemma RowFacts(row: seq<Poly>, y: seq<Poly>, y': seq<Poly>)
    requires RowOk(row, y, y')
    ensures Matched(row, y) && Matched(row, y') && 0 < |row| == |y| == |y'|
  {
  }

  lemma Narrow(a: Poly, n: int)
    requires IsPoly(a, n) && n <= 0x7fff
    ensures Within(a, 0x7fff)
  {
  }

  function VectorCipherRow(row: seq<Poly>, r: seq<Poly>, e1: Poly): (u: Poly)
    requires Matched(row, r) && 0 < |r| && |e1| == N
    ensures |u| == N
  {
    VectorReduced(Plus(V.VectorInverse(VectorRowProduct(row, r)), e1))
  }

  lemma CipherRowsAgree(row: seq<Poly>, r: seq<Poly>, r': seq<Poly>, e1: Poly)
    requires RowOk(row, r, r') && IsPoly(e1, 3)
    ensures VectorCipherRow(row, r, e1) == CipherRow(row, r', e1) && IsPoly(CipherRow(row, r', e1), 1664)
  {
    hide VectorRowProduct, RowProduct, V.VectorInverse, InvNtt, CongSeq, Plus, Minus, VectorReduced, Reduced, RowOk;
    RowFacts(row, r, r');
    RowProductsAgree(row, r, r');
    var a, a' := V.VectorInverse(VectorRowProduct(row, r)), InvNtt(RowProduct(row, r'));
    InversesAgree(RowProduct(row, r'));
    ReflSeq(e1, Q);
    SumsAgree(a, e1, a', e1, Q, 3);
    Narrow(Plus(a, e1), Q + 3);
    Narrow(Plus(a', e1), Q + 3);
    SameReduced(Plus(a, e1), Plus(a', e1));
  }

  function VectorCipherPoly(t: seq<Poly>, r: seq<Poly>, e2: Poly, m: Poly): (v: Poly)
    requires Matched(t, r) && 0 < |t| && |e2| == |m| == N
    ensures |v| == N
  {
    VectorReduced(Plus(Plus(V.VectorInverse(VectorRowProduct(t, r)), e2), m))
  }

  lemma CipherPolysAgree(t: seq<Poly>, r: seq<Poly>, r': seq<Poly>, e2: Poly, m: Poly)
    requires RowOk(t, r, r') && IsPoly(e2, 3) && IsPoly(m, 1665)
    ensures VectorCipherPoly(t, r, e2, m) == CipherPoly(t, r', e2, m) && IsPoly(CipherPoly(t, r', e2, m), 1664)
  {
    hide VectorRowProduct, RowProduct, V.VectorInverse, InvNtt, CongSeq, Plus, Minus, VectorReduced, Reduced, RowOk;
    RowFacts(t, r, r');
    RowProductsAgree(t, r, r');
    var a, a' := V.VectorInverse(VectorRowProduct(t, r)), InvNtt(RowProduct(t, r'));
    InversesAgree(RowProduct(t, r'));
    ReflSeq(e2, Q);
    ReflSeq(m, Q);
    SumsAgree(a, e2, a', e2, Q, 3);
    SumsAgree(Plus(a, e2), m, Plus(a', e2), m, Q + 3, 1665);
    Narrow(Plus(Plus(a, e2), m), Q + 1668);
    Narrow(Plus(Plus(a', e2), m), Q + 1668);
    SameReduced(Plus(Plus(a, e2), m), Plus(Plus(a', e2), m));
  }

  function VectorDecryptPoly(s: seq<Poly>, u: seq<Poly>, v: Poly): (w: Poly)
    requires Matched(s, u) && 0 < |s| && |v| == N
    ensures |w| == N
  {
    VectorReduced(Minus(v, V.VectorInverse(VectorRowProduct(s, VectorTransformedVector(u)))))
  }

  lemma DecryptPolysAgree(s: seq<Poly>, u: seq<Poly>, v: Poly, k: nat)
    requires 0 < k <= 4 && IsShape(s, k) && IsShape(u, k) && Matched(s, u)
    requires IsVector(s, k, 4095) && IsVector(u, k, 9464) && IsPoly(v, Q)
    ensures VectorDecryptPoly(s, u, v) == DecryptPoly(s, u, v)
  {
    hide VectorRowProduct, RowProduct, V.VectorInverse, InvNtt, CongSeq, Plus, Minus, VectorReduced, Reduced,
         VectorTransformed, Transformed, Twins;
    var y, y' := VectorTransformedVector(u), TransformedVector(u);
    VectorsAgree(u, k);
    RowProductsAgree(s, y, y');
    var a, a' := V.VectorInverse(VectorRowProduct(s, y)), InvNtt(RowProduct(s, y'));
    InversesAgree(RowProduct(s, y'));
    ReflSeq(v, Q);
    SumsAgree(v, a, v, a', Q, Q);
    Narrow(Minus(v, a), 2 * Q);
    Narrow(Minus(v, a'), 2 * Q);
    SameReduced(Minus(v, a), Minus(v, a'));
  }

  // ----- the scheme

  function VectorPublicVector(a: seq<seq<Poly>>, s: seq<Poly>, e: seq<Poly>): (t: seq<Poly>)
    requires IsShape(e, |a|) && 0 < |s| && forall i :: 0 <= i < |a| ==> Matched(a[i], s)
    ensures IsShape(t, |a|) && forall i :: 0 <= i < |a| ==> t[i] == VectorPublicRow(a[i], s, e[i])
  {
    seq(|a|, i requires 0 <= i < |a| => VectorPublicRow(a[i], s, e[i]))
  }

  function VectorCipherVector(a: seq<seq<Poly>>, r: seq<Poly>, e1: seq<Poly>): (u: seq<Poly>)
    requires IsShape(e1, |a|) && 0 < |r| && forall i :: 0 <= i < |a| ==> Matched(a[i], r)
    ensures IsShape(u, |a|) && forall i :: 0 <= i < |a| ==> u[i] == VectorCipherRow(a[i], r, e1[i])
  {
    seq(|a|, i requires 0 <= i < |a| => VectorCipherRow(a[i], r, e1[i]))
  }

  /** kpke_keygen with the vector transform, product, sum and reduction. */
  function VectorKeyGen(h: Hashes, p: Params, d: seq<byte>): (r: Option<(seq<byte>, seq<byte>)>)
    requires IsParams(p) && |d| == SYM
  {
    hide IsParams, Matched, VectorPublicRow, VectorTransformed, Noise1;
    Depths(p);
    var buf := Bytes(h.g(d + [ByteOf(p.k)]), 0, 2 * SYM);
    var seed, noise := buf[..SYM], buf[SYM..];
    var a := GenMatrix(h, p, seed, false);
    if !IsMatrixShape(p, a) then None
    else
      var s := VectorTransformedVector(NoiseVector1(h, p, noise, 0));
      MatrixMatches(p, a, s);
      var t := VectorPublicVector(a, s, NoiseVector1(h, p, noise, p.k));
      Some((PackVectorBytes(t) + seed, PackVectorBytes(s)))
  }

  function VectorEncrypt(h: Hashes, p: Params, ek: seq<byte>, m: seq<byte>, coins: seq<byte>): (r: Option<seq<byte>>)
    requires IsParams(p) && |ek| == EncryptionKeySize(p) && |m| == SYM
  {
    hide IsParams, Matched, VectorCipherRow, VectorCipherPoly, VectorTransformed, Noise1, Noise2, FromMessage, Total;
    Depths(p);
    var n := Total(p.k, BYTES_FORMAT);
    var t, seed := UnpackVectorBytes(p, ek[..n]), ek[n..];
    var at := GenMatrix(h, p, seed, true);
    if !IsMatrixShape(p, at) then None
    else
      var r := VectorTransformedVector(NoiseVector1(h, p, coins, 0));
      MatrixMatches(p, at, r);
      VectorsMatch(t, r, p.k);
      var u := VectorCipherVector(at, r, NoiseVector2(h, p, coins, p.k));
      var v := VectorCipherPoly(t, r, Noise2(h, coins, 2 * p.k), FromMessage(m));
      Some(PackCiphertext(p, u, v))
  }

  function VectorDecrypt(p: Params, dk: seq<byte>, c: seq<byte>): (m: seq<byte>)
    requires IsParams(p) && |dk| == DecryptionKeySize(p) && |c| == CiphertextSize(p)
  {
    hide IsParams, Matched, VectorDecryptPoly;
    Depths(p);
    var (u, v) := UnpackCiphertext(p, c);
    var s := UnpackVectorBytes(p, dk);
    VectorsMatch(s, u, p.k);
    ToMessage(VectorDecryptPoly(s, u, v))
  }

  // ----- the ranges of what is sampled and of what any bytes unpack to

  lemma NoiseRanges(h: Hashes, p: Params, seed: seq<byte>, nonce: nat)
    requires IsParams(p) && nonce <= 4
    ensures var v, w := NoiseVector1(h, p, seed, nonce), NoiseVector2(h, p, seed, nonce);
      && IsShape(v, p.k) && IsVector(v, p.k, 9464) && IsShape(w, p.k) && IsVector(w, p.k, 3)
  {
    hide IsParams, Noise1, Noise2;
    D.NoiseVectorBound(h, p, seed, nonce);
    Wider(NoiseVector1(h, p, seed, nonce), p.k, 3, 9464);
  }

  lemma Wider(v: seq<Poly>, k: nat, m: int, n: int)
    requires IsVector(v, k, m) && m <= n
    ensures IsVector(v, k, n)
  {
    forall i | 0 <= i < k
      ensures IsPoly(v[i], n)
    {
      assert IsPoly(v[i], m);
    }
  }

  lemma UnpackedRange(p: Params, b: seq<byte>)
    requires IsParams(p) && |b| == Total(p.k, BYTES_FORMAT)
    ensures IsVector(UnpackVectorBytes(p, b), p.k, 4095) && IsShape(UnpackVectorBytes(p, b), p.k)
  {
    hide Lossless, UnpackVector, PackVector, Total, IsParams, Pow2;
    Formats(4);
    D.LevelsArePowers(4);
    VectorBytes(BYTES_FORMAT, b, p.k);
    var v := UnpackVectorBytes(p, b);
    forall i | 0 <= i < p.k
      ensures IsPoly(v[i], 4095)
    {
      assert BitCodec.InRange(P.D12, v[i]);
      forall j | 0 <= j < N
        ensures 0 <= v[i][j] <= 4095
      {
        assert Storable(P.D12, v[i][j]);
      }
    }
  }

  lemma DecompressedRange(d: nat, a: Poly)
    requires IsDepth(d) && |a| == N && BitCodec.InRange(DepthFormat(d).codec, a)
    ensures IsPoly(DecompressPoly(d, a), Q)
  {
    hide Pow2, DepthFormat, Decompress;
    D.LevelsArePowers(d);
    forall i | 0 <= i < N
      ensures 0 <= DecompressPoly(d, a)[i] < Q
    {
      assert Storable(DepthFormat(d).codec, a[i]);
      DecompressBounds(d, a[i]);
    }
  }

  lemma CiphertextRange(p: Params, c: seq<byte>)
    requires IsParams(p) && |c| == CiphertextSize(p)
    ensures var (u, v) := UnpackCiphertext(p, c); IsShape(u, p.k) && IsVector(u, p.k, Q) && IsPoly(v, Q)
  {
    hide Lossless, UnpackVector, PackVector, Total, IsParams, Pow2, DepthFormat, BitCodec.InRange, Decompress;
    Depths(p);
    Formats(p.du);
    Formats(p.dv);
    var f, g := DepthFormat(p.du), DepthFormat(p.dv);
    OneSize(g);
    var n := Total(p.k, f);
    VectorBytes(f, c[..n], p.k);
    VectorBytes(g, c[n..], 1);
    var w := UnpackVector(f, c[..n], p.k);
    forall i | 0 <= i < p.k
      ensures IsPoly(DecompressPoly(p.du, w[i]), Q)
    {
      assert BitCodec.InRange(f.codec, w[i]);
      DecompressedRange(p.du, w[i]);
    }
    DecompressedRange(p.dv, UnpackVector(g, c[n..], 1)[0]);
  }

  lemma RowFits(row: seq<Poly>, y: seq<Poly>, y': seq<Poly>, k: nat)
    requires 0 < k <= 4 && IsShape(row, k) && IsVector(row, k, 4095)
    requires IsShape(y, k) && IsShape(y', k) && AllTwins(y, y')
    ensures RowOk(row, y, y')
  {
    hide Twins;
  }

  // ----- the same bytes

  lemma StandardAgrees(x: seq<Poly>, y: seq<Poly>, k: nat)
    requires IsShape(x, k) && IsShape(y, k) && AllTwins(x, y)
    ensures StandardVector(x) == StandardVector(y)
  {
    forall i | 0 <= i < k
      ensures StandardPoly(x[i]) == StandardPoly(y[i])
    {
      assert Twins(x[i], y[i]);
      StandardPolysAgree(x[i], y[i]);
    }
  }

  lemma StandardPolysAgree(x: Poly, y: Poly)
    requires Twins(x, y)
    ensures StandardPoly(x) == StandardPoly(y)
  {
    hide Cong;
    forall i | 0 <= i < N
      ensures Standard(x[i]) == Standard(y[i])
    {
      FromQuotient(y[i], Standard(y[i]), if y[i] < 0 then -1 else 0, Q);
      Trans(x[i], y[i], Standard(y[i]), Q);
      Close(x[i], Standard(y[i]));
    }
  }

  lemma PublicVectorsAgree(a: seq<seq<Poly>>, s: seq<Poly>, s': seq<Poly>, e: seq<Poly>, k: nat)
    requires 0 < k <= 4 && |a| == k && (forall i :: 0 <= i < k ==> IsShape(a[i], k) && IsVector(a[i], k, 4095))
    requires IsShape(s, k) && IsShape(s', k) && AllTwins(s, s') && IsShape(e, k) && IsVector(e, k, 9464)
    requires forall i :: 0 <= i < k ==> Matched(a[i], s) && Matched(a[i], s')
    ensures VectorPublicVector(a, s, e) == PublicVector(a, s', e)
  {
    hide AllTwins, RowOk, VectorPublicRow, PublicRow;
    forall i | 0 <= i < k
      ensures VectorPublicRow(a[i], s, e[i]) == PublicRow(a[i], s', e[i])
    {
      assert IsPoly(e[i], 9464);
      RowFits(a[i], s, s', k);
      PublicRowsAgree(a[i], s, s', e[i]);
    }
  }

  lemma CipherVectorsAgree(a: seq<seq<Poly>>, r: seq<Poly>, r': seq<Poly>, e1: seq<Poly>, k: nat)
    requires 0 < k <= 4 && |a| == k && (forall i :: 0 <= i < k ==> IsShape(a[i], k) && IsVector(a[i], k, 4095))
    requires IsShape(r, k) && IsShape(r', k) && AllTwins(r, r') && IsShape(e1, k) && IsVector(e1, k, 3)
    requires forall i :: 0 <= i < k ==> Matched(a[i], r) && Matched(a[i], r')
    ensures VectorCipherVector(a, r, e1) == CipherVector(a, r', e1)
  {
    hide AllTwins, RowOk, VectorCipherRow, CipherRow;
    forall i | 0 <= i < k
      ensures VectorCipherRow(a[i], r, e1[i]) == CipherRow(a[i], r', e1[i])
    {
      assert IsPoly(e1[i], 3);
      RowFits(a[i], r, r', k);
      CipherRowsAgree(a[i], r, r', e1[i]);
    }
  }

  /** For every hash, parameter set and key seed. */
  lemma SameKeys(h: Hashes, p: Params, d: seq<byte>)
    requires IsParams(p) && |d| == SYM
    ensures VectorKeyGen(h, p, d) == KeyGen(h, p, d)
  {
    hide IsParams, Matched, VectorPublicRow, PublicRow, VectorTransformed, Transformed, Noise1, UniformPoly, IsVector,
         AllTwins, StandardPoly;
    Depths(p);
    var buf := Bytes(h.g(d + [ByteOf(p.k)]), 0, 2 * SYM);
    var seed, noise := buf[..SYM], buf[SYM..];
    var a := GenMatrix(h, p, seed, false);
    if IsMatrixShape(p, a) {
      var x, e := NoiseVector1(h, p, noise, 0), NoiseVector1(h, p, noise, p.k);
      var s, s' := VectorTransformedVector(x), TransformedVector(x);
      D.MatrixBound(h, p, seed, false);
      NoiseRanges(h, p, noise, 0);
      NoiseRanges(h, p, noise, p.k);
      VectorsAgree(x, p.k);
      MatrixMatches(p, a, s);
      MatrixMatches(p, a, s');
      PublicVectorsAgree(a, s, s', e, p.k);
      StandardAgrees(s, s', p.k);
    }
  }

  /** For every hash, parameter set, encryption key of the right length, message and coins. */
  lemma SameCiphertext(h: Hashes, p: Params, ek: seq<byte>, m: seq<byte>, coins: seq<byte>)
    requires IsParams(p) && |ek| == EncryptionKeySize(p) && |m| == SYM
    ensures VectorEncrypt(h, p, ek, m, coins) == Encrypt(h, p, ek, m, coins)
  {
    hide IsParams, Matched, VectorCipherRow, CipherRow, VectorCipherPoly, CipherPoly, VectorTransformed, Transformed,
         Noise1, Noise2, FromMessage, Total, UniformPoly, IsVector, AllTwins, RowOk, UnpackVectorBytes, PackCiphertext;
    Depths(p);
    var n := Total(p.k, BYTES_FORMAT);
    var t, seed := UnpackVectorBytes(p, ek[..n]), ek[n..];
    var at := GenMatrix(h, p, seed, true);
    if IsMatrixShape(p, at) {
      var x := NoiseVector1(h, p, coins, 0);
      var r, r' := VectorTransformedVector(x), TransformedVector(x);
      D.MatrixBound(h, p, seed, true);
      NoiseRanges(h, p, coins, 0);
      NoiseRanges(h, p, coins, p.k);
      NoiseBound(h, p, coins, 2 * p.k);
      D.MessageBound(m);
      UnpackedRange(p, ek[..n]);
      VectorsAgree(x, p.k);
      MatrixMatches(p, at, r);
      MatrixMatches(p, at, r');
      VectorsMatch(t, r, p.k);
      VectorsMatch(t, r', p.k);
      CipherVectorsAgree(at, r, r', NoiseVector2(h, p, coins, p.k), p.k);
      RowFits(t, r, r', p.k);
      CipherPolysAgree(t, r, r', Noise2(h, coins, 2 * p.k), FromMessage(m));
    }
  }

  /** For every parameter set, decryption key and ciphertext of the right lengths, made by encryption or not. */
  lemma SameMessage(p: Params, dk: seq<byte>, c: seq<byte>)
    requires IsParams(p) && |dk| == DecryptionKeySize(p) && |c| == CiphertextSize(p)
    ensures VectorDecrypt(p, dk, c) == Decrypt(p, dk, c)
  {
    hide IsParams, Matched, VectorDecryptPoly, DecryptPoly, UnpackCiphertext, UnpackVectorBytes, ToMessage, IsVector,
         Total;
    Depths(p);
    var (u, v) := UnpackCiphertext(p, c);
    var s := UnpackVectorBytes(p, dk);
    CiphertextRange(p, c);
    UnpackedRange(p, dk);
    VectorsMatch(s, u, p.k);
    Wider(u, p.k, Q, 9464);
    DecryptPolysAgree(s, u, v, p.k);
  }
}
