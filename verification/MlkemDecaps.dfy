/** tools/pqc/mlkem/mlkem.c: decapsulation as the code runs it, with the comparison and the
    selection that do not branch. */
module MlkemDecaps {
  import opened Polynomials
  import opened Words
  import opened VectorCodec
  import opened Rejection
  import opened MlkemReduce
  import opened MlkemNtt
  import opened MlkemProduct
  import opened MlkemKpke
  import opened MlkemCorrect
  import opened MlkemDecryption
  import opened MlkemKem

  /** A sum stored in 16 bits and then reduced is small whatever the summands were. */
  lemma ReducedSum(a: Poly, b: Poly)
    requires |a| == |b| == N
    ensures IsPoly(Reduced(Plus(a, b)), 1664)
  {
    hide BarrettReduce, W16;
    forall i | 0 <= i < N
      ensures -1664 <= Reduced(Plus(a, b))[i] <= 1664
    {
      BarrettReduceExact(W16(a[i] + b[i]));
    }
  }

  lemma RowNotEmpty(row: seq<Poly>, v: seq<Poly>)
    requires Matched(row, v) && 0 < |v|
    ensures 0 < |row|
  {
  }

  lemma CipherBound(at: seq<seq<Poly>>, t: seq<Poly>, r: seq<Poly>, e1: seq<Poly>, e2: Poly, m: Poly)
    requires IsShape(e1, |at|) && 0 < |r| && (forall i :: 0 <= i < |at| ==> Matched(at[i], r))
    requires Matched(t, r) && 0 < |t| && |e2| == |m| == N
    ensures IsVector(CipherVector(at, r, e1), |at|, 1664) && IsPoly(CipherPoly(t, r, e2, m), 1664)
  {
    hide Reduced, Plus, Matched, RowProduct, InvNtt;
    forall i | 0 <= i < |at|
      ensures IsPoly(CipherVector(at, r, e1)[i], 1664)
    {
      RowNotEmpty(at[i], r);
      ReducedSum(InvNtt(RowProduct(at[i], r)), e1[i]);
    }
    ReducedSum(Plus(InvNtt(RowProduct(t, r)), e2), m);
  }

  lemma EncryptLength(e: Hashes, p: Params, ek: seq<byte>, m: seq<byte>, coins: seq<byte>)
    requires IsParams(p) && |ek| == EncryptionKeySize(p) && |m| == SYM && Encrypt(e, p, ek, m, coins).Some?
    ensures |Encrypt(e, p, ek, m, coins).value| == CiphertextSize(p)
  {
    var n := Total(p.k, BYTES_FORMAT);
    assert |ek| == n + SYM;
    hide IsParams, Matched, CipherRow, CipherPoly, Transformed, Noise1, Noise2, FromMessage, Total, CiphertextSize,
         UnpackVectorBytes, EncryptionKeySize, PackCiphertext;
    Depths(p);
    var t, seed := UnpackVectorBytes(p, ek[..n]), ek[n..];
    var at := GenMatrix(e, p, seed, true);
    var r := TransformedVector(NoiseVector1(e, p, coins, 0));
    MatrixMatches(p, at, r);
    VectorsMatch(t, r, p.k);
    var u := CipherVector(at, r, NoiseVector2(e, p, coins, p.k));
    var v := CipherPoly(t, r, Noise2(e, coins, 2 * p.k), FromMessage(m));
    CipherBound(at, t, r, NoiseVector2(e, p, coins, p.k), Noise2(e, coins, 2 * p.k), FromMessage(m));
    CiphertextRoundTrip(p, u, v);
  }

  /** The code: compare without branches, compute the rejection key, then overwrite it if the
      comparison did not fail. */
  method DecapsInPlace(e: Hashes, p: Params, kp: array<byte>, dk: seq<byte>, ct: seq<byte>) returns (ok: bool)
    requires IsParams(p) && |dk| == KemKeySize(p) && |ct| == CiphertextSize(p) && kp.Length == SYM
    modifies kp
    ensures Decaps(e, p, dk, ct) == if ok then Some(kp[..]) else None
    ensures Decapsulated(e, p, dk, ct, if ok then Some(kp[..]) else None)
  {
    hide IsParams, Encrypt, Decrypt, CiphertextSize, EncryptionKeySize, DecryptionKeySize;
    DecapsExactly(e, p, dk, ct);
    var a := DecryptionKeySize(p);
    var b := a + EncryptionKeySize(p);
    DecryptLength(p, dk[..a], ct);
    var m := Decrypt(p, dk[..a], ct);
    var (kr, coins) := G(e, m + dk[b..b + SYM]);
    var cmp := Encrypt(e, p, dk[a..b], m, coins);
    if cmp.None? {
      return false;
    }
    EncryptLength(e, p, dk[a..b], m, coins);
    var fail := VerifyBytes(ct, cmp.value);
    var rejection := RejectionKey(e, dk[b + SYM..], ct);
    for i := 0 to SYM
      invariant kp[..i] == rejection[..i]
    {
      kp[i] := rejection[i];
    }
    assert kp[..SYM] == kp[..] && rejection[..SYM] == rejection;
    CMov(kp, kr, if fail then 0 else 1);
    ok := true;
  }
}
