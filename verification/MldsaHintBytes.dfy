/** The hint bytes of a signature as algorithms 20 and 21 of FIPS 204 lay them out. */
module MldsaHintBytes {
  import opened Polynomials
  import opened Words
  import H = MldsaHints

  /** The number of positions listed for the polynomials before number i. */
  function Listed(y: seq<byte>, omega: nat, i: nat): (r: nat)
    requires omega + i <= |y|
  {
    if i == 0 then 0 else Num(y[omega + i - 1])
  }

  /** y lists the position t for polynomial i. */
  ghost predicate Names(y: seq<byte>, omega: nat, i: nat, t: int)
    requires omega + i < |y|
  {
    exists n :: Listed(y, omega, i) <= n < Listed(y, omega, i + 1) && n < omega && Num(y[n]) == t
  }

  /** The positions of one polynomial increase, and no count goes down or beyond omega. */
  ghost predicate PositionsFit(y: seq<byte>, omega: nat, i: nat)
    requires omega + i < |y|
  {
    && Listed(y, omega, i) <= Listed(y, omega, i + 1) <= omega
    && forall n, m :: Listed(y, omega, i) <= n < m < Listed(y, omega, i + 1) ==> Num(y[n]) < Num(y[m])
  }

  /** Hint bytes of k polynomials: fitting positions, then zeros, then the k counts. */
  ghost predicate WellFormed(y: seq<byte>, omega: nat, k: nat)
    requires |y| == omega + k
  {
    && (forall i :: 0 <= i < k ==> PositionsFit(y, omega, i))
    && forall n :: Listed(y, omega, k) <= n < omega ==> y[n] == 0
  }

  /** The polynomials with coefficient 1 at the listed positions. */
  ghost function Hints(y: seq<byte>, omega: nat, k: nat): (h: seq<Poly>)
    requires |y| == omega + k
    ensures IsShape(h, k)
    ensures forall i, t :: 0 <= i < k && 0 <= t < N ==> h[i][t] == if Names(y, omega, i, t) then 1 else 0
  {
    seq(k, i requires 0 <= i < k => seq(N, t requires 0 <= t < N => if Names(y, omega, i, t) then 1 else 0))
  }

  lemma SegmentIsFit(y: seq<byte>, omega: nat, i: nat)
    requires omega + i < |y|
    ensures H.SegmentOk(y, omega, i) <==> PositionsFit(y, omega, i)
  {
    hide Num;
    var a, b := Listed(y, omega, i), Listed(y, omega, i + 1);
    if a <= b <= omega {
      var s := y[a..b];
      if H.Increasing(s) {
        forall n, m | a <= n < m < b
          ensures Num(y[n]) < Num(y[m])
        {
          assert s[n - a] == y[n] && s[m - a] == y[m];
        }
      }
    }
  }

  /** unpack_sig accepts exactly the well-formed bytes. */
  lemma AcceptedExactly(y: seq<byte>, omega: nat, k: nat)
    requires |y| == omega + k
    ensures H.Accepted(y, omega, k) <==> WellFormed(y, omega, k)
  {
    hide Num, H.SegmentOk, PositionsFit;
    forall i | 0 <= i < k
      ensures H.SegmentOk(y, omega, i) <==> PositionsFit(y, omega, i)
    {
      SegmentIsFit(y, omega, i);
    }
  }

  lemma NamedExactly(y: seq<byte>, omega: nat, i: nat, t: nat)
    requires omega + i < |y| && t < N && H.SegmentOk(y, omega, i)
    ensures ByteOf(t) in y[H.Start(y, omega, i)..H.Start(y, omega, i + 1)] <==> Names(y, omega, i, t)
  {
    hide Num, ByteOf, H.Increasing;
    NumOfByte(t);
    var a, b := Listed(y, omega, i), Listed(y, omega, i + 1);
    var s := y[a..b];
    if Names(y, omega, i, t) {
      var n :| a <= n < b && n < omega && Num(y[n]) == t;
      ByteOfNum(y[n]);
      assert s[n - a] == y[n];
    }
    if ByteOf(t) in s {
      var j :| 0 <= j < |s| && s[j] == ByteOf(t);
      assert y[a + j] == s[j];
    }
  }

  /** What it reads from them. */
  lemma DecodedExactly(y: seq<byte>, omega: nat, k: nat)
    requires |y| == omega + k && H.Accepted(y, omega, k)
    ensures H.Decode(y, omega, k) == Hints(y, omega, k)
  {
    hide H.Accepted, H.Decode, Names;
    forall i | 0 <= i < k
      ensures H.Decode(y, omega, k)[i] == Hints(y, omega, k)[i]
    {
      DecodedRow(y, omega, k, i);
    }
  }

  lemma DecodedRow(y: seq<byte>, omega: nat, k: nat, i: nat)
    requires |y| == omega + k && H.Accepted(y, omega, k) && i < k
    ensures H.Decode(y, omega, k)[i] == Hints(y, omega, k)[i]
  {
    hide Num, ByteOf, H.Increasing, Names, H.Start;
    assert H.SegmentOk(y, omega, i);
    forall t | 0 <= t < N
      ensures H.Decode(y, omega, k)[i][t] == Hints(y, omega, k)[i][t]
    {
      NamedExactly(y, omega, i, t);
    }
  }

  /** pack_sig writes well-formed bytes that list the hints ... */
  lemma EncodedExactly(h: seq<Poly>, omega: nat)
    requires H.Fits(h, omega) && omega < 256
    ensures |H.Encode(h, omega)| == omega + |h| && WellFormed(H.Encode(h, omega), omega, |h|)
    ensures Hints(H.Encode(h, omega), omega, |h|) == h
  {
    hide H.Fits, H.Encode, H.Accepted, H.Decode, WellFormed;
    var y := H.Encode(h, omega);
    H.DecodeEncode(h, omega);
    AcceptedExactly(y, omega, |h|);
    DecodedExactly(y, omega, |h|);
  }

  /** ... and there is only one way to write them. */
  lemma OneEncoding(x: seq<byte>, y: seq<byte>, omega: nat, k: nat)
    requires |x| == |y| == omega + k && omega < 256 && WellFormed(x, omega, k) && WellFormed(y, omega, k)
    requires Hints(x, omega, k) == Hints(y, omega, k)
    ensures x == y
  {
    hide H.Fits, H.Encode, H.Accepted, H.Decode, WellFormed;
    AcceptedExactly(x, omega, k);
    AcceptedExactly(y, omega, k);
    DecodedExactly(x, omega, k);
    DecodedExactly(y, omega, k);
    H.EncodeDecode(x, omega, k);
    H.EncodeDecode(y, omega, k);
  }
}
