/** Decryption undoes encryption, for keys from keygen and ciphertexts from encrypt. */
module MlkemDecryption {
  import opened Modular
  import opened Polynomials
  import opened NttAlgebra
  import opened Butterflies
  import opened Words
  import opened BitCodec
  import opened VectorCodec
  import opened Rejection
  import opened PairAlgebra
  import opened MlkemReduce
  import opened MlkemNtt
  import opened MlkemProduct
  import opened MlkemCompress
  import opened MlkemKpke
  import opened MlkemValues
  import opened MlkemCorrect
  import P = MlkemPack

  // ----- byte formats

  lemma LevelsArePowers(d: nat)
    requires IsDepth(d)
    ensures Levels(d) == Pow2(DepthFormat(d).codec.d) && Pow2(12) == 0x1000
    ensures !DepthFormat(d).codec.negate
  {
    PowersOfTwo();
    assert Pow2(10) == 0x400;
    assert Pow2(12) == 0x1000 && Pow2(11) == 0x800;
  }

  /** Reduced coefficients survive the twelve-bit format as standard representatives. */
  lemma BytesRoundTrip(p: Params, v: seq<Poly>)
    requires IsParams(p) && IsShape(v, p.k) && IsVector(v, p.k, 1664)
    ensures |PackVectorBytes(v)| == Total(p.k, BYTES_FORMAT)
    ensures UnpackVectorBytes(p, PackVectorBytes(v)) == StandardVector(v)
    ensures IsShape(StandardVector(v), p.k) && IsVector(StandardVector(v), p.k, 4095)
    ensures forall i :: 0 <= i < p.k ==> CongSeq(StandardVector(v)[i], v[i], Q)
  {
    hide Lossless, PackVector, UnpackVector, Cong, Pow2, Total, IsParams;
    Formats(4);
    LevelsArePowers(4);
    var s := StandardVector(v);
    forall i | 0 <= i < p.k
      ensures IsPoly(s[i], 4095) && CongSeq(s[i], v[i], Q) && InRange(P.D12, s[i])
    {
      assert IsPoly(v[i], 1664);
      StandardPolyOk(v[i]);
    }
    VectorRoundTrip(BYTES_FORMAT, s);
  }

  lemma StandardPolyOk(a: Poly)
    requires IsPoly(a, 1664) && Pow2(12) == 0x1000
    ensures IsPoly(StandardPoly(a), 4095) && CongSeq(StandardPoly(a), a, Q) && InRange(P.D12, StandardPoly(a))
  {
    hide Cong, Pow2;
    forall i | 0 <= i < N
      ensures Cong(Standard(a[i]), a[i], Q)
    {
      FromQuotient(Standard(a[i]), a[i], if a[i] < 0 then 1 else 0, Q);
    }
  }

  lemma CompressedInRange(d: nat, a: Poly)
    requires IsDepth(d) && IsPoly(a, 1664)
    ensures InRange(DepthFormat(d).codec, CompressPoly(d, a))
    ensures IsPoly(DecompressPoly(d, CompressPoly(d, a)), Q)
  {
    hide Compress, Pow2, DepthFormat, Decompress;
    LevelsArePowers(d);
    forall i | 0 <= i < N
      ensures 0 <= Compress(d, a[i]) < Levels(d) && 0 <= Decompress(d, Compress(d, a[i])) < Q
    {
      CompressExact(d, a[i]);
      CompressDecompress(d, Compress(d, a[i]));
    }
  }

  /** What the other side reads out of a ciphertext. */
  lemma CiphertextRoundTrip(p: Params, u: seq<Poly>, v: Poly)
    requires IsParams(p) && IsShape(u, p.k) && IsVector(u, p.k, 1664) && IsPoly(v, 1664)
    ensures |PackCiphertext(p, u, v)| == CiphertextSize(p)
    ensures IsDepth(p.du) && IsDepth(p.dv)
    ensures UnpackCiphertext(p, PackCiphertext(p, u, v))
         == (DecompressVector(p.du, CompressVector(p.du, u)), DecompressPoly(p.dv, CompressPoly(p.dv, v)))
    ensures IsVector(DecompressVector(p.du, CompressVector(p.du, u)), p.k, Q)
    ensures IsPoly(DecompressPoly(p.dv, CompressPoly(p.dv, v)), Q)
  {
    hide Lossless, PackVector, UnpackVector, Total, IsParams, DepthFormat, InRange;
    Depths(p);
    Formats(p.du);
    Formats(p.dv);
    var f, g := DepthFormat(p.du), DepthFormat(p.dv);
    var cu, cv := CompressVector(p.du, u), [CompressPoly(p.dv, v)];
    forall i | 0 <= i < p.k
      ensures InRange(f.codec, cu[i]) && IsPoly(DecompressPoly(p.du, cu[i]), Q)
    {
      assert IsPoly(u[i], 1664);
      CompressedInRange(p.du, u[i]);
    }
    CompressedInRange(p.dv, v);
    VectorRoundTrip(f, cu);
    VectorRoundTrip(g, cv);
    OneSize(g);
    var c, n := PackCiphertext(p, u, v), Total(p.k, f);
    assert c[..n] == PackVector(f, cu) && c[n..] == PackVector(g, cv);
  }

  // ----- the polynomials of one run

  lemma MatrixBound(h: Hashes, p: Params, seed: seq<byte>, transposed: bool)
    requires IsParams(p) && IsMatrixShape(p, GenMatrix(h, p, seed, transposed))
    ensures forall i :: 0 <= i < p.k ==> IsVector(GenMatrix(h, p, seed, transposed)[i], p.k, 4095)
  {
    hide IsParams;
    var a := GenMatrix(h, p, seed, transposed);
    Depths(p);
    forall i, j | 0 <= i < p.k && 0 <= j < p.k
      ensures IsPoly(a[i][j], 4095)
    {
      assert IsShape(a[i], p.k);
      var x, y := if transposed then i else j, if transposed then j else i;
      UniformBound(h, seed, x, y);
    }
  }

  lemma UniformBound(h: Hashes, seed: seq<byte>, x: nat, y: nat)
    requires x < 256 && y < 256
    ensures Within(UniformPoly(h, seed, x, y), 4095)
  {
    hide Accepted, Accepts;
    TwelveRange();
    var b := Bytes(h.xof(seed + [ByteOf(x), ByteOf(y)]), 0, h.limit);
    AcceptedInRange(TWELVE, b, 0, Q - 1);
    var all := Accepted(TWELVE, b);
    forall i | 0 <= i < |First(N, all)|
      ensures -4095 <= First(N, all)[i] <= 4095
    {
      assert First(N, all)[i] == all[i] && all[i] in all;
    }
  }

  /** The matrix encrypt samples is the transpose of the one keygen samples. */
  lemma MatricesTranspose(h: Hashes, p: Params, seed: seq<byte>)
    requires IsParams(p) && IsMatrixShape(p, GenMatrix(h, p, seed, false))
    ensures IsMatrixShape(p, GenMatrix(h, p, seed, true))
    ensures forall i, j :: 0 <= i < p.k && 0 <= j < p.k ==>
         GenMatrix(h, p, seed, true)[i][j] == GenMatrix(h, p, seed, false)[j][i]
  {
    hide IsParams, UniformPoly;
    Depths(p);
    var a, at := GenMatrix(h, p, seed, false), GenMatrix(h, p, seed, true);
    forall i, j | 0 <= i < p.k && 0 <= j < p.k
      ensures at[i][j] == a[j][i] && |at[i][j]| == N
    {
      assert IsShape(a[j], p.k);
    }
  }

  lemma NoiseVectorBound(h: Hashes, p: Params, seed: seq<byte>, nonce: nat)
    requires IsParams(p) && nonce <= 4
    ensures IsVector(NoiseVector1(h, p, seed, nonce), p.k, 3) && IsVector(NoiseVector2(h, p, seed, nonce), p.k, 3)
  {
    hide IsParams, Noise1, Noise2;
    Depths(p);
    forall i | 0 <= i < p.k
      ensures IsPoly(NoiseVector1(h, p, seed, nonce)[i], 3) && IsPoly(NoiseVector2(h, p, seed, nonce)[i], 3)
    {
      NoiseBound(h, p, seed, nonce + i);
    }
  }

  /** The secrets behind a key. */
  datatype Secrets = Secrets(seed: seq<byte>, a: seq<seq<Poly>>, s: seq<Poly>, e: seq<Poly>)

  function KeySecrets(h: Hashes, p: Params, d: seq<byte>): (x: Secrets)
    requires IsParams(p) && |d| == SYM
    ensures |x.seed| == SYM && IsShape(x.s, p.k) && IsShape(x.e, p.k) && x.a == GenMatrix(h, p, x.seed, false)
  {
    hide IsParams;
    Depths(p);
    var buf := Bytes(h.g(d + [ByteOf(p.k)]), 0, 2 * SYM);
    Secrets(buf[..SYM], GenMatrix(h, p, buf[..SYM], false), NoiseVector1(h, p, buf[SYM..], 0),
         NoiseVector1(h, p, buf[SYM..], p.k))
  }

  /** All polynomials of keygen from d and of encrypting m with coins under that key. */
  function RunOf(h: Hashes, p: Params, d: seq<byte>, m: seq<byte>, coins: seq<byte>): (x: Run)
    requires IsParams(p) && |d| == |m| == SYM && IsMatrixShape(p, KeySecrets(h, p, d).a)
    ensures RunShape(x, p.k)
  {
    hide IsParams, Matched, PublicRow, CipherRow, CipherPoly, Transformed, Noise1, Noise2, FromMessage, Compress,
         Decompress, KeySecrets, UniformPoly;
    Depths(p);
    var k := KeySecrets(h, p, d);
    MatricesTranspose(h, p, k.seed);
    var at := GenMatrix(h, p, k.seed, true);
    var r, e1, e2 := NoiseVector1(h, p, coins, 0), NoiseVector2(h, p, coins, p.k), Noise2(h, coins, 2 * p.k);
    MatrixMatches(p, k.a, TransformedVector(k.s));
    MatrixMatches(p, at, TransformedVector(r));
    var t := PublicVector(k.a, TransformedVector(k.s), k.e);
    VectorsMatch(StandardVector(t), TransformedVector(r), p.k);
    var u := CipherVector(at, TransformedVector(r), e1);
    var v := CipherPoly(StandardVector(t), TransformedVector(r), e2, FromMessage(m));
    Run(k.a, k.s, k.e, r, e1, e2, FromMessage(m), t, u, v,
        DecompressVector(p.du, CompressVector(p.du, u)), DecompressPoly(p.dv, CompressPoly(p.dv, v)))
  }

  // ----- every row stands for what it should

  lemma TransformedOk(v: seq<Poly>, k: nat)
    requires IsVector(v, k, 3) && IsShape(v, k)
    ensures IsVector(TransformedVector(v), k, 1664) && IsVector(TransformedVector(v), k, 4095)
    ensures AllHats(TransformedVector(v), v, k)
    ensures forall i :: 0 <= i < k ==> CongSeq(TransformedVector(v)[i], HatVector(v)[i], Q)
  {
    hide Hat, Cong, Ntt, Reduced, CongSeq;
    forall i | 0 <= i < k
      ensures IsPoly(TransformedVector(v)[i], 1664) && IsPoly(TransformedVector(v)[i], 4095)
      ensures CongSeq(TransformedVector(v)[i], Hat(v[i]), Q)
    {
      assert IsPoly(v[i], 3);
      TransformedValues(v[i]);
    }
  }

  lemma StandsAll(x: seq<Poly>, y: seq<Poly>, k: nat, q: nat)
    requires IsShape(x, k) && IsShape(y, k) && q < 128 && forall i :: 0 <= i < k ==> CongSeq(x[i], y[i], Q)
    ensures forall i :: 0 <= i < k ==> Stands(x[i], q, AllAt(y, q)[i])
  {
    hide CongSeq, Stands;
    forall i | 0 <= i < k
      ensures Stands(x[i], q, AllAt(y, q)[i])
    {
      OwnStands(x[i], y[i], q);
    }
  }

  lemma ReflVector(x: seq<Poly>)
    ensures forall i :: 0 <= i < |x| ==> CongSeq(x[i], x[i], Q)
  {
    forall i | 0 <= i < |x|
      ensures CongSeq(x[i], x[i], Q)
    {
      forall j | 0 <= j < |x[i]|
        ensures Cong(x[i][j], x[i][j], Q)
      {
        Refl(x[i][j], Q);
      }
    }
  }

  lemma NoiseIsSmall(v: seq<Poly>, k: nat, i: nat)
    requires IsVector(v, k, 3) && i < k
    ensures IsPoly(v[i], 3) && IsPoly(v[i], 9464)
  {
  }

  lemma PublicRowHolds(row: seq<Poly>, s: seq<Poly>, e: Poly, k: nat, q: nat)
    requires 2 <= k <= 4 && q < 128 && IsShape(row, k) && IsVector(row, k, 4095) && IsShape(s, k) && IsVector(s, k, 3)
    requires IsPoly(e, 3) && Matched(row, TransformedVector(s))
    ensures PublicOk(PublicRow(row, TransformedVector(s), e), e, AllAt(row, q), AllAt(HatVector(s), q), q)
    ensures IsPoly(PublicRow(row, TransformedVector(s), e), 1664)
  {
    hide Hat, CongSeq, Stands, Dot2, PublicRow, Transformed, Gamma;
    TransformedOk(s, k);
    ReflVector(row);
    StandsAll(row, row, k, q);
    StandsAll(TransformedVector(s), HatVector(s), k, q);
    PublicStands(row, TransformedVector(s), e, AllAt(row, q), AllAt(HatVector(s), q), q);
  }

  lemma CipherRowHolds(row: seq<Poly>, column: seq<Pair>, r: seq<Poly>, e1: Poly, k: nat, q: nat)
    requires 2 <= k <= 4 && q < 128 && IsShape(row, k) && IsVector(row, k, 4095) && IsShape(r, k) && IsVector(r, k, 3)
    requires IsPoly(e1, 3) && Matched(row, TransformedVector(r)) && column == AllAt(row, q)
    ensures CipherOk(CipherRow(row, TransformedVector(r), e1), e1, column, AllAt(HatVector(r), q), q)
    ensures IsPoly(CipherRow(row, TransformedVector(r), e1), 1664)
  {
    hide Hat, CongSeq, Stands, Dot2, CipherRow, Transformed, Gamma;
    TransformedOk(r, k);
    ReflVector(row);
    CipherStands(row, TransformedVector(r), e1, row, HatVector(r), q);
  }

  lemma CipherPolyHolds(t: seq<Poly>, t': seq<Poly>, r: seq<Poly>, e2: Poly, m: Poly, k: nat, q: nat)
    requires 2 <= k <= 4 && q < 128 && IsShape(t, k) && IsShape(t', k) && IsVector(t', k, 4095) && IsShape(r, k)
         && IsVector(r, k, 3)
    requires IsPoly(e2, 3) && IsPoly(m, 1665) && Matched(t', TransformedVector(r))
    requires forall i :: 0 <= i < k ==> CongSeq(t'[i], t[i], Q)
    ensures CipherPolyOk(CipherPoly(t', TransformedVector(r), e2, m), e2, m, AllAt(t, q), AllAt(HatVector(r), q), q)
    ensures IsPoly(CipherPoly(t', TransformedVector(r), e2, m), 1664)
  {
    hide Hat, CongSeq, Stands, Dot2, CipherPoly, Transformed, Gamma;
    TransformedOk(r, k);
    CipherPolyStands(t', TransformedVector(r), e2, m, t, HatVector(r), q);
  }

  predicate IsTranspose(at: seq<seq<Poly>>, a: seq<seq<Poly>>, k: nat) {
    && |a| == |at| == k
    && forall i, j :: 0 <= i < k && 0 <= j < k ==> |at[i]| == k && |a[j]| == k && at[i][j] == a[j][i]
  }

  lemma TransposedColumn(a: seq<seq<Poly>>, at: seq<seq<Poly>>, k: nat, i: nat, q: nat)
    requires IsTranspose(at, a, k) && i < k && q < 128
    requires (forall j :: 0 <= j < k ==> IsShape(a[j], k)) && IsShape(at[i], k)
    ensures (forall j :: 0 <= j < |a| ==> IsShape(a[j], |a[j]|))
         && (forall j :: 0 <= j < k ==> |MatrixAt(a, q)[j]| == k)
    ensures AllAt(at[i], q) == Column(MatrixAt(a, q), i)
  {
    MatrixShape(a, k, q);
    forall j | 0 <= j < k
      ensures AllAt(at[i], q)[j] == Column(MatrixAt(a, q), i)[j]
    {
      assert IsShape(a[j], k);
    }
  }

  /** The ranges of everything sampled; at is the transposed matrix. */
  ghost predicate RunSampled(x: Run, at: seq<seq<Poly>>, k: nat) {
    && RunShape(x, k) && |at| == k && (forall i :: 0 <= i < k ==> IsShape(at[i], k))
    && (forall i :: 0 <= i < k ==> IsVector(x.a[i], k, 4095) && IsVector(at[i], k, 4095))
    && IsTranspose(at, x.a, k)
    && IsVector(x.s, k, 3) && IsVector(x.e, k, 3) && IsVector(x.r, k, 3) && IsVector(x.e1, k, 3) && IsPoly(x.e2, 3)
    && IsPoly(x.m, 1665)
  }

  ghost predicate RowsMade(t: seq<Poly>, a: seq<seq<Poly>>, s: seq<Poly>, e: seq<Poly>, k: nat) {
    && |t| == |a| == |e| == k && 0 < |s|
    && (forall i :: 0 <= i < k ==> Matched(a[i], s) && |e[i]| == N)
    && forall i :: 0 <= i < k ==> t[i] == PublicRow(a[i], s, e[i])
  }

  ghost predicate CiphersMade(u: seq<Poly>, at: seq<seq<Poly>>, r: seq<Poly>, e1: seq<Poly>, k: nat) {
    && |u| == |at| == |e1| == k && 0 < |r|
    && (forall i :: 0 <= i < k ==> Matched(at[i], r) && |e1[i]| == N)
    && forall i :: 0 <= i < k ==> u[i] == CipherRow(at[i], r, e1[i])
  }

  /** How the parts of a run were made: t' is the public vector as the other side reads it. */
  ghost predicate RunMade(x: Run, at: seq<seq<Poly>>, t': seq<Poly>, k: nat) {
    && RunShape(x, k) && IsShape(t', k) && IsVector(t', k, 4095)
    && (forall i :: 0 <= i < k ==> CongSeq(t'[i], x.t[i], Q))
    && RowsMade(x.t, x.a, TransformedVector(x.s), x.e, k)
    && CiphersMade(x.u, at, TransformedVector(x.r), x.e1, k)
    && Matched(t', TransformedVector(x.r)) && x.v == CipherPoly(t', TransformedVector(x.r), x.e2, x.m)
  }

  ghost predicate RunOk(x: Run, at: seq<seq<Poly>>, t': seq<Poly>, k: nat) {
    RunSampled(x, at, k) && RunMade(x, at, t', k)
  }

  /** The rows of one run stand for what they should. */
  lemma RunRows(x: Run, at: seq<seq<Poly>>, t': seq<Poly>, k: nat, q: nat)
    requires RunOk(x, at, t', k) && q < 128
    ensures forall j :: 0 <= j < |x.a| ==> IsShape(x.a[j], |x.a[j]|)
    ensures RunStands(x, k, MatrixAt(x.a, q), AllAt(HatVector(x.s), q), AllAt(HatVector(x.r), q), q)
  {
    hide Hat, CongSeq, Stands, Dot2, PublicRow, CipherRow, CipherPoly, PublicOk, CipherOk, CipherPolyOk, Transformed;
    MatrixShape(x.a, k, q);
    var a, s, r := MatrixAt(x.a, q), AllAt(HatVector(x.s), q), AllAt(HatVector(x.r), q);
    forall i | 0 <= i < k
      ensures PublicOk(x.t[i], x.e[i], a[i], s, q)
    {
      NoiseIsSmall(x.e, k, i);
      PublicRowHolds(x.a[i], x.s, x.e[i], k, q);
    }
    forall i | 0 <= i < k
      ensures CipherOk(x.u[i], x.e1[i], Column(a, i), r, q)
    {
      NoiseIsSmall(x.e1, k, i);
      TransposedColumn(x.a, at, k, i, q);
      CipherRowHolds(at[i], Column(a, i), x.r, x.e1[i], k, q);
    }
    CipherPolyHolds(x.t, t', x.r, x.e2, x.m, k, q);
  }

  lemma MessageBound(m: seq<byte>)
    requires |m| == SYM
    ensures IsPoly(FromMessage(m), 1665)
  {
    hide Decode, Lossless, InRange, Encode;
  }

  lemma PublicVectorBound(a: seq<seq<Poly>>, s: seq<Poly>, e: seq<Poly>, k: nat)
    requires 2 <= k <= 4 && |a| == k && IsShape(s, k) && IsVector(s, k, 3) && IsShape(e, k) && IsVector(e, k, 3)
    requires forall i :: 0 <= i < k ==>
      IsShape(a[i], k) && IsVector(a[i], k, 4095) && Matched(a[i], TransformedVector(s))
    ensures IsVector(PublicVector(a, TransformedVector(s), e), k, 1664)
  {
    hide Hat, PublicRow, Transformed, PublicOk;
    forall i | 0 <= i < k
      ensures IsPoly(PublicVector(a, TransformedVector(s), e)[i], 1664)
    {
      NoiseIsSmall(e, k, i);
      PublicRowHolds(a[i], s, e[i], k, 0);
    }
  }

  lemma CipherVectorBound(a: seq<seq<Poly>>, r: seq<Poly>, e1: seq<Poly>, k: nat)
    requires 2 <= k <= 4 && |a| == k && IsShape(r, k) && IsVector(r, k, 3) && IsShape(e1, k) && IsVector(e1, k, 3)
    requires forall i :: 0 <= i < k ==>
      IsShape(a[i], k) && IsVector(a[i], k, 4095) && Matched(a[i], TransformedVector(r))
    ensures IsVector(CipherVector(a, TransformedVector(r), e1), k, 1664)
  {
    hide Hat, CipherRow, Transformed, CipherOk;
    forall i | 0 <= i < k
      ensures IsPoly(CipherVector(a, TransformedVector(r), e1)[i], 1664)
    {
      NoiseIsSmall(e1, k, i);
      CipherRowHolds(a[i], AllAt(a[i], 0), r, e1[i], k, 0);
    }
  }

  lemma RunOfSampled(h: Hashes, p: Params, d: seq<byte>, m: seq<byte>, coins: seq<byte>)
    requires IsParams(p) && |d| == |m| == SYM && IsMatrixShape(p, KeySecrets(h, p, d).a)
    ensures RunSampled(RunOf(h, p, d, m, coins), GenMatrix(h, p, KeySecrets(h, p, d).seed, true), p.k)
  {
    hide IsParams, Matched, PublicRow, CipherRow, CipherPoly, Transformed, Noise1, Noise2, FromMessage, Compress,
         Decompress, UniformPoly, CongSeq, IsPoly, IsVector, Total;
    Depths(p);
    var k, x := KeySecrets(h, p, d), RunOf(h, p, d, m, coins);
    MatricesTranspose(h, p, k.seed);
    MatrixBound(h, p, k.seed, false);
    MatrixBound(h, p, k.seed, true);
    var noise := Bytes(h.g(d + [ByteOf(p.k)]), 0, 2 * SYM)[SYM..];
    NoiseVectorBound(h, p, noise, 0);
    NoiseVectorBound(h, p, noise, p.k);
    NoiseVectorBound(h, p, coins, 0);
    NoiseVectorBound(h, p, coins, p.k);
    NoiseBound(h, p, coins, 2 * p.k);
    MessageBound(m);
  }

  lemma RunOfOk(h: Hashes, p: Params, d: seq<byte>, m: seq<byte>, coins: seq<byte>)
    requires IsParams(p) && |d| == |m| == SYM && IsMatrixShape(p, KeySecrets(h, p, d).a)
    ensures var x := RunOf(h, p, d, m, coins);
      RunOk(x, GenMatrix(h, p, KeySecrets(h, p, d).seed, true), StandardVector(x.t), p.k) && IsVector(x.t, p.k, 1664)
  {
    RunOfSampled(h, p, d, m, coins);
    RunOfRows(h, p, d, m, coins);
    RunOfCiphers(h, p, d, m, coins);
    hide RunOf, KeySecrets, GenMatrix, RunSampled, RunShape, RowsMade, CiphersMade, CipherPoly, Matched, CongSeq,
         IsVector, IsShape, TransformedVector, StandardVector;
    BytesRoundTrip(p, RunOf(h, p, d, m, coins).t);
  }

  lemma RunOfRows(h: Hashes, p: Params, d: seq<byte>, m: seq<byte>, coins: seq<byte>)
    requires IsParams(p) && |d| == |m| == SYM && IsMatrixShape(p, KeySecrets(h, p, d).a)
    ensures var x := RunOf(h, p, d, m, coins);
      RowsMade(x.t, x.a, TransformedVector(x.s), x.e, p.k) && IsShape(x.t, p.k) && IsVector(x.t, p.k, 1664)
  {
    hide IsParams, Matched, PublicRow, CipherRow, CipherPoly, Transformed, Noise1, Noise2, FromMessage, Compress,
         Decompress, UniformPoly, CongSeq, IsPoly, IsVector, Total, KeySecrets;
    Depths(p);
    RunOfSampled(h, p, d, m, coins);
    var k, x := KeySecrets(h, p, d), RunOf(h, p, d, m, coins);
    MatricesTranspose(h, p, k.seed);
    MatrixMatches(p, k.a, TransformedVector(k.s));
    PublicVectorBound(k.a, k.s, k.e, p.k);
  }

  lemma RunOfCiphers(h: Hashes, p: Params, d: seq<byte>, m: seq<byte>, coins: seq<byte>)
    requires IsParams(p) && |d| == |m| == SYM && IsMatrixShape(p, KeySecrets(h, p, d).a)
    ensures var x, at := RunOf(h, p, d, m, coins), GenMatrix(h, p, KeySecrets(h, p, d).seed, true);
      var t' := StandardVector(x.t);
      CiphersMade(x.u, at, TransformedVector(x.r), x.e1, p.k) && IsShape(t', p.k)
      && Matched(t', TransformedVector(x.r)) && x.v == CipherPoly(t', TransformedVector(x.r), x.e2, x.m)
  {
    hide IsParams, Matched, PublicRow, CipherRow, CipherPoly, Transformed, Noise1, Noise2, FromMessage, Compress,
         Decompress, UniformPoly, CongSeq, IsPoly, IsVector, Total, KeySecrets;
    Depths(p);
    var k, x := KeySecrets(h, p, d), RunOf(h, p, d, m, coins);
    MatricesTranspose(h, p, k.seed);
    var at := GenMatrix(h, p, k.seed, true);
    MatrixMatches(p, at, TransformedVector(x.r));
    VectorsMatch(StandardVector(x.t), TransformedVector(x.r), p.k);
  }

  /** Rows of a run are reduced. */
  lemma RunReduced(x: Run, at: seq<seq<Poly>>, t': seq<Poly>, k: nat)
    requires RunOk(x, at, t', k)
    ensures IsVector(x.u, k, 1664) && IsPoly(x.v, 1664)
  {
    hide CipherRow, CipherPoly, CipherPolyOk, Transformed, CongSeq, Hat, PublicRow;
    CipherVectorBound(at, x.r, x.e1, k);
    assert x.u == CipherVector(at, TransformedVector(x.r), x.e1);
    CipherPolyHolds(x.t, t', x.r, x.e2, x.m, k, 0);
  }

  lemma RunFulfils(x: Run, at: seq<seq<Poly>>, t': seq<Poly>, k: nat)
    requires RunOk(x, at, t', k)
    ensures AllResults(x, k)
  {
    hide RunResult, RunStands, Hat;
    forall q | 0 <= q < 128
      ensures RunResult(x, k, q)
    {
      RunRows(x, at, t', k, q);
      RunAt(x, k, MatrixAt(x.a, q), AllAt(HatVector(x.s), q), AllAt(HatVector(x.r), q), q);
    }
  }

  /** Every run fulfils the equation, and its rows are reduced. */
  lemma RunHolds(h: Hashes, p: Params, d: seq<byte>, m: seq<byte>, coins: seq<byte>)
    requires IsParams(p) && |d| == |m| == SYM && IsMatrixShape(p, KeySecrets(h, p, d).a)
    ensures var x := RunOf(h, p, d, m, coins);
      AllResults(x, p.k) && IsVector(x.t, p.k, 1664) && IsVector(x.u, p.k, 1664) && IsPoly(x.v, 1664)
           && IsVector(x.s, p.k, 3)
  {
    RunOfOk(h, p, d, m, coins);
    var x, at := RunOf(h, p, d, m, coins), GenMatrix(h, p, KeySecrets(h, p, d).seed, true);
    hide RunOf, GenMatrix, KeySecrets, AllResults, IsVector, IsPoly, RunShape, IsTranspose, CongSeq,
         TransformedVector, StandardVector;
    RunReduced(x, at, StandardVector(x.t), p.k);
    RunFulfils(x, at, StandardVector(x.t), p.k);
  }

  /** The noise that decrypting a ciphertext for m, made with coins under the key of d, sees. */
  function NoiseOf(h: Hashes, p: Params, d: seq<byte>, m: seq<byte>, coins: seq<byte>): (n: Poly)
    requires IsParams(p) && |d| == |m| == SYM && IsMatrixShape(p, KeySecrets(h, p, d).a)
    ensures |n| == N
  {
    RunNoise(RunOf(h, p, d, m, coins), p.k)
  }

  lemma KeyOf(h: Hashes, p: Params, d: seq<byte>)
    requires IsParams(p) && |d| == SYM
    ensures KeyGen(h, p, d).Some? <==> IsMatrixShape(p, KeySecrets(h, p, d).a)
  {
    hide IsParams, Matched, PublicRow, Transformed, Noise1, UniformPoly;
    Depths(p);
  }

  /** What the three operations pass to each other. */
  lemma Exchanged(h: Hashes, p: Params, d: seq<byte>, m: seq<byte>, coins: seq<byte>)
    requires IsParams(p) && |d| == |m| == SYM && KeyGen(h, p, d).Some?
    ensures IsMatrixShape(p, KeySecrets(h, p, d).a)
    ensures var (ek, dk) := KeyGen(h, p, d).value; var x := RunOf(h, p, d, m, coins);
      && ek == PackVectorBytes(x.t) + KeySecrets(h, p, d).seed && |ek| == EncryptionKeySize(p)
      && dk == PackVectorBytes(TransformedVector(x.s)) && |dk| == DecryptionKeySize(p)
      && Encrypt(h, p, ek, m, coins) == Some(PackCiphertext(p, x.u, x.v))
  {
    hide IsParams, Matched, PublicRow, CipherRow, CipherPoly, Transformed, Noise1, Noise2, FromMessage, Compress,
         Decompress, UniformPoly, AllResults, Hat, CongSeq, IsPoly, IsVector, Total, PackVectorBytes,
         UnpackVectorBytes, PackCiphertext;
    Depths(p);
    KeyOf(h, p, d);
    RunHolds(h, p, d, m, coins);
    var k, x := KeySecrets(h, p, d), RunOf(h, p, d, m, coins);
    MatricesTranspose(h, p, k.seed);
    BytesRoundTrip(p, x.t);
    TransformedOk(x.s, p.k);
    BytesRoundTrip(p, TransformedVector(x.s));
    var ek := PackVectorBytes(x.t) + k.seed;
    var n := Total(p.k, BYTES_FORMAT);
    assert ek[..n] == PackVectorBytes(x.t) && ek[n..] == k.seed;
  }

  /** For every hash, parameter set, key seed, message and coins: bit j of the message comes
      back if and only if the centred noise at j is at least -832 and at most 832, or 831 for a one. */
  lemma DecryptEncrypt(h: Hashes, p: Params, d: seq<byte>, m: seq<byte>, coins: seq<byte>)
    requires IsParams(p) && |d| == |m| == SYM && KeyGen(h, p, d).Some?
    ensures var (ek, dk) := KeyGen(h, p, d).value;
      && IsMatrixShape(p, KeySecrets(h, p, d).a) && |ek| == EncryptionKeySize(p) && |dk| == DecryptionKeySize(p)
      && Encrypt(h, p, ek, m, coins).Some? && |Encrypt(h, p, ek, m, coins).value| == CiphertextSize(p)
      && var m', n := Decrypt(p, dk, Encrypt(h, p, ek, m, coins).value), NoiseOf(h, p, d, m, coins);
         && |m'| == SYM
         && (m' == m <==> forall j :: 0 <= j < N ==> Survives(MessageBits(m)[j], n[j]))
         && (forall j :: 0 <= j < N ==>
            (MessageBits(m')[j] == MessageBits(m)[j] <==> Survives(MessageBits(m)[j], n[j])))
  {
    hide IsParams, Matched, Transformed, Compress, Decompress, KeyGen, Encrypt, KeySecrets, DecryptPoly, RunNoise,
         RunResult, Hat, CongSeq, IsPoly, Total, PackVectorBytes, UnpackVectorBytes, PackCiphertext, UnpackCiphertext,
         ToMessage, MessageBits, FromMessage, Survives, CiphertextSize, EncryptionKeySize;
    Depths(p);
    KeyOf(h, p, d);
    Exchanged(h, p, d, m, coins);
    RunHolds(h, p, d, m, coins);
    var x := RunOf(h, p, d, m, coins);
    CiphertextRoundTrip(p, x.u, x.v);
    TransformedOk(x.s, p.k);
    var s := StandardVector(TransformedVector(x.s));
    BytesRoundTrip(p, TransformedVector(x.s));
    forall i | 0 <= i < p.k
      ensures HasHat(s[i], x.s[i])
    {
      assert HasHat(TransformedVector(x.s)[i], x.s[i]);
      TransSeq(s[i], TransformedVector(x.s)[i], Hat(x.s[i]), Q);
    }
    VectorsMatch(s, x.u', p.k);
    var w := DecryptPoly(s, x.u', x.v');
    DecryptedPoly(x, p.k, s, w);
    MessageRecovered(m, w, RunNoise(x, p.k));
  }

  /** In particular, noise of at most 831 everywhere loses nothing, and 832 or more loses a 1 bit. */
  lemma SmallNoise(h: Hashes, p: Params, d: seq<byte>, m: seq<byte>, coins: seq<byte>)
    requires IsParams(p) && |d| == |m| == SYM && KeyGen(h, p, d).Some? && IsMatrixShape(p, KeySecrets(h, p, d).a)
    ensures var (ek, dk) := KeyGen(h, p, d).value; var n := NoiseOf(h, p, d, m, coins);
      && |ek| == EncryptionKeySize(p) && |dk| == DecryptionKeySize(p)
      && Encrypt(h, p, ek, m, coins).Some? && |Encrypt(h, p, ek, m, coins).value| == CiphertextSize(p)
      && var m' := Decrypt(p, dk, Encrypt(h, p, ek, m, coins).value);
         && |m'| == SYM
         && ((forall j :: 0 <= j < N ==> -831 <= Centred(n[j]) <= 831) ==> m' == m)
         && forall j :: 0 <= j < N && MessageBits(m)[j] == 1 && Centred(n[j]) >= 832 ==> MessageBits(m')[j] == 0
  {
    hide KeyGen, Encrypt, Decrypt, NoiseOf, Centred, MessageBits, KeySecrets, EncryptionKeySize, DecryptionKeySize,
         CiphertextSize, Survives;
    DecryptEncrypt(h, p, d, m, coins);
    var n := NoiseOf(h, p, d, m, coins);
    var m' := Decrypt(p, KeyGen(h, p, d).value.1, Encrypt(h, p, KeyGen(h, p, d).value.0, m, coins).value);
    forall j | 0 <= j < N
      ensures -831 <= Centred(n[j]) <= 831 ==> Survives(MessageBits(m)[j], n[j])
      ensures MessageBits(m)[j] == 1 && Centred(n[j]) >= 832 ==> MessageBits(m')[j] == 0
    {
      BitRange(m, j);
      BitRange(m', j);
      AtTheEdge(MessageBits(m)[j], n[j]);
    }
  }

  lemma AtTheEdge(b: int, n: int)
    requires b == 0 || b == 1
    ensures -831 <= Centred(n) <= 831 ==> Survives(b, n)
    ensures b == 1 && Centred(n) >= 832 ==> !Survives(b, n)
  {
  }
}
