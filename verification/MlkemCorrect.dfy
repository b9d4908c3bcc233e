/** The law at the centre of K-PKE: which message bits survive encryption and decryption. */
module MlkemCorrect {
  import opened Modular
  import opened Polynomials
  import opened NttAlgebra
  import opened Words
  import opened BitCodec
  import opened VectorCodec
  import opened Rejection
  import opened PairAlgebra
  import opened RingRows
  import opened MlkemReduce
  import opened MlkemNtt
  import opened MlkemProduct
  import opened MlkemCompress
  import opened MlkemKpke
  import opened MlkemValues
  import P = MlkemPack

  /** The representative nearest to 0. */
  function Centred(x: int): (r: int)
    ensures -1664 <= r <= 1664
  {
    (x + 1664) % Q - 1664
  }

  lemma CentredCong(x: int)
    ensures Cong(x, Centred(x), Q)
  {
    FromQuotient(x, Centred(x), (x + 1664) / Q, Q);
  }

  // ----- the noise polynomial

  /** e1 plus the compression error of u, polynomial by polynomial. */
  function Disturbed(e1: seq<Poly>, u: seq<Poly>, u': seq<Poly>): (f: seq<Poly>)
    requires IsShape(e1, |e1|) && IsShape(u, |e1|) && IsShape(u', |e1|)
    ensures IsShape(f, |e1|) && forall i :: 0 <= i < |e1| ==> f[i] == Lin(1, e1[i], 1, Lin(1, u'[i], -1, u[i]))
  {
    seq(|e1|, i requires 0 <= i < |e1| => Lin(1, e1[i], 1, Lin(1, u'[i], -1, u[i])))
  }

  /** e * r - s * (e1 + c_u) + e2 + c_v, where c_u and c_v are the compression errors. */
  function NoisePoly(s: seq<Poly>, e: seq<Poly>, r: seq<Poly>, f: seq<Poly>, e2: Poly, v: Poly, v': Poly): (n: Poly)
    requires Matched(e, r) && Matched(s, f) && |e2| == |v| == |v'| == N
    ensures |n| == N
  {
    Lin(1, Lin(1, RowSum(e, r, |e|), -1, RowSum(s, f, |s|)), 1, Lin(1, e2, 1, Lin(1, v', -1, v)))
  }

  lemma ZeroAt(p: nat)
    requires p < 128
    ensures At(Hat(Zero()), p) == ZERO
  {
    hide Hat;
    assert Zero() == Lin(1, Zero(), -1, Zero());
    HatSumAt(Zero(), Zero(), p);
  }

  /** The values of h at pair p are the product of the values of x and y. */
  ghost predicate DotStands(h: Poly, x: seq<Poly>, y: seq<Poly>, n: nat, p: nat)
    requires |h| == N && IsShape(x, |x|) && IsShape(y, |y|) && n <= |x| == |y| && p < 128
  {
    Stands(Hat(h), p, Dot2(Gamma(p), AllAt(HatVector(x), p), AllAt(HatVector(y), p), n))
  }

  lemma {:induction false} RowSumStands(x: seq<Poly>, y: seq<Poly>, n: nat, p: nat)
    requires IsShape(x, |x|) && IsShape(y, |y|) && Matched(x, y) && n <= |x| && p < 128
    ensures DotStands(RowSum(x, y, n), x, y, n, p)
  {
    hide Hat, Product, Gamma, Mul2, Add2, Lin;
    var xs, ys := AllAt(HatVector(x), p), AllAt(HatVector(y), p);
    if n == 0 {
      ZeroAt(p);
      ReflCong2(ZERO, Q);
    } else {
      RowSumStands(x, y, n - 1, p);
      HatProductStands(x[n - 1], y[n - 1], p);
      var a, b := RowSum(x, y, n - 1), Product(x[n - 1], y[n - 1]);
      HatSumAt(a, b, p);
      AddCong2(At(Hat(a), p), At(Hat(b), p), Dot2(Gamma(p), xs, ys, n - 1), Mul2(Gamma(p), xs[n - 1], ys[n - 1]), Q);
    }
  }

  // ----- one pair of values of the whole computation

  /** The polynomials of one encryption under one key. */
  datatype Run = Run(a: seq<seq<Poly>>, s: seq<Poly>, e: seq<Poly>, r: seq<Poly>, e1: seq<Poly>, e2: Poly, m: Poly,
                     t: seq<Poly>, u: seq<Poly>, v: Poly, u': seq<Poly>, v': Poly)

  ghost predicate RunShape(x: Run, k: nat) {
    && 2 <= k <= 4 && |x.a| == k && (forall i :: 0 <= i < k ==> IsShape(x.a[i], k))
    && IsShape(x.s, k) && IsShape(x.e, k) && IsShape(x.r, k) && IsShape(x.e1, k) && |x.e2| == |x.m| == N
    && IsShape(x.t, k) && IsShape(x.u, k) && |x.v| == N && IsShape(x.u', k) && |x.v'| == N
  }

  function RunNoise(x: Run, k: nat): (n: Poly)
    requires RunShape(x, k)
    ensures |n| == N
  {
    NoisePoly(x.s, x.e, x.r, Disturbed(x.e1, x.u, x.u'), x.e2, x.v, x.v')
  }

  function MatrixAt(a: seq<seq<Poly>>, p: nat): (m: seq<seq<Pair>>)
    requires (forall i :: 0 <= i < |a| ==> IsShape(a[i], |a[i]|)) && p < 128
    ensures |m| == |a| && forall i :: 0 <= i < |a| ==> m[i] == AllAt(a[i], p)
  {
    seq(|a|, i requires 0 <= i < |a| => AllAt(a[i], p))
  }

  lemma MatrixShape(a: seq<seq<Poly>>, k: nat, p: nat)
    requires |a| == k && (forall i :: 0 <= i < k ==> IsShape(a[i], k)) && p < 128
    ensures forall i :: 0 <= i < |a| ==> IsShape(a[i], |a[i]|)
    ensures forall i :: 0 <= i < k ==> |MatrixAt(a, p)[i]| == k
  {
    assert forall i :: 0 <= i < k ==> IsShape(a[i], k) && IsShape(a[i], |a[i]|);
  }

  /** t stands for row * s + e. */
  ghost predicate PublicOk(t: Poly, e: Poly, row: seq<Pair>, s: seq<Pair>, p: nat) {
    |e| == N && p < 128 && |row| == |s| && Stands(t, p, Add2(Dot2(Gamma(p), row, s, |s|), At(Hat(e), p)))
  }

  /** u stands for column * r + e1. */
  ghost predicate CipherOk(u: Poly, e1: Poly, column: seq<Pair>, r: seq<Pair>, p: nat) {
    |u| == |e1| == N && p < 128 && |column| == |r|
         && Stands(Hat(u), p, Add2(Dot2(Gamma(p), column, r, |r|), At(Hat(e1), p)))
  }

  /** v stands for t * r + e2 + m. */
  ghost predicate CipherPolyOk(v: Poly, e2: Poly, m: Poly, t: seq<Pair>, r: seq<Pair>, p: nat) {
    && |v| == |e2| == |m| == N && p < 128 && |t| == |r|
    && Stands(Hat(v), p, Add2(Add2(Dot2(Gamma(p), t, r, |r|), At(Hat(e2), p)), At(Hat(m), p)))
  }

  ghost predicate PublicRows(t: seq<Poly>, e: seq<Poly>, a: seq<seq<Pair>>, s: seq<Pair>, p: nat) {
    |t| == |e| == |a| && forall i :: 0 <= i < |a| ==> PublicOk(t[i], e[i], a[i], s, p)
  }

  ghost predicate CipherRows(u: seq<Poly>, e1: seq<Poly>, a: seq<seq<Pair>>, r: seq<Pair>, p: nat) {
    && |u| == |e1| == |a| && (forall i :: 0 <= i < |a| ==> |a[i]| == |a|)
    && forall i :: 0 <= i < |a| ==> CipherOk(u[i], e1[i], Column(a, i), r, p)
  }

  /** What the rows computed by keygen and encrypt stand for at pair p. */
  ghost predicate RunStands(x: Run, k: nat, a: seq<seq<Pair>>, s: seq<Pair>, r: seq<Pair>, p: nat) {
    && RunShape(x, k) && p < 128 && |a| == k
    && s == AllAt(HatVector(x.s), p) && r == AllAt(HatVector(x.r), p)
    && PublicRows(x.t, x.e, a, s, p)
    && CipherRows(x.u, x.e1, a, r, p)
    && CipherPolyOk(x.v, x.e2, x.m, AllAt(x.t, p), r, p)
  }

  /** v' - s * u' stands for m + noise. */
  ghost predicate RunResult(x: Run, k: nat, p: nat) {
    && RunShape(x, k) && p < 128
    && Cong2(Sub2(At(Hat(x.v'), p), Dot2(Gamma(p), AllAt(HatVector(x.s), p), AllAt(HatVector(x.u'), p), k)),
             Add2(At(Hat(x.m), p), At(Hat(RunNoise(x, k)), p)), Q)
  }

  lemma DisturbedAt(e1: seq<Poly>, u: seq<Poly>, u': seq<Poly>, i: nat, p: nat)
    requires IsShape(e1, |e1|) && IsShape(u, |e1|) && IsShape(u', |e1|) && i < |e1| && p < 128
    ensures At(Hat(Disturbed(e1, u, u')[i]), p) == Add2(At(Hat(e1[i]), p), Sub2(At(Hat(u'[i]), p), At(Hat(u[i]), p)))
  {
    hide Hat, Lin;
    HatSumAt(u'[i], u[i], p);
    HatSumAt(e1[i], Lin(1, u'[i], -1, u[i]), p);
  }

  lemma MoveError(u': Pair, u: Pair, c: Pair, e: Pair)
    requires Cong2(u, Add2(c, e), Q)
    ensures Cong2(u', Add2(c, Add2(e, Sub2(u', u))), Q)
  {
    var a := Quotient(u.a, c.a + e.a, Q);
    var b := Quotient(u.b, c.b + e.b, Q);
    FromQuotient(u'.a, c.a + (e.a + (u'.a - u.a)), a, Q);
    FromQuotient(u'.b, c.b + (e.b + (u'.b - u.b)), b, Q);
  }

  /** v' - s * u' == m + noise at pair p. */
  lemma RunAt(x: Run, k: nat, a: seq<seq<Pair>>, s: seq<Pair>, r: seq<Pair>, p: nat)
    requires RunStands(x, k, a, s, r, p)
    ensures RunResult(x, k, p)
  {
    hide Hat, Gamma, Mul2, Dot2, Cong, Lin, RowSum;
    var g, e := Gamma(p), AllAt(HatVector(x.e), p);
    var fs := Disturbed(x.e1, x.u, x.u');
    var f := AllAt(HatVector(fs), p);
    var rows := seq(k, i requires 0 <= i < k => Dot2(g, a[i], s, k));
    var cols := seq(k, i requires 0 <= i < k => Dot2(g, Column(a, i), r, k));
    var t := seq(k, i requires 0 <= i < k => Add2(rows[i], e[i]));
    var b := seq(k, i requires 0 <= i < k => Add2(cols[i], f[i]));
    Cancellation(g, a, s, r, e, f, t, b, rows, cols, k);
    var us, ts := AllAt(HatVector(x.u'), p), AllAt(x.t, p);
    forall i | 0 <= i < k
      ensures Cong2(us[i], b[i], Q) && Cong2(ts[i], t[i], Q) && Cong2(s[i], s[i], Q) && Cong2(r[i], r[i], Q)
    {
      assert PublicOk(x.t[i], x.e[i], a[i], s, p) && CipherOk(x.u[i], x.e1[i], Column(a, i), r, p);
      DisturbedAt(x.e1, x.u, x.u', i, p);
      MoveError(us[i], At(Hat(x.u[i]), p), cols[i], At(Hat(x.e1[i]), p));
      ReflCong2(s[i], Q);
      ReflCong2(r[i], Q);
    }
    DotCong2(g, s, us, s, b, k, Q);
    DotCong2(g, ts, r, t, r, k, Q);
    RowSumStands(x.e, x.r, k, p);
    RowSumStands(x.s, fs, k, p);
    NoiseAt(RowSum(x.e, x.r, k), RowSum(x.s, fs, k), x.e2, x.v, x.v', p);
    Assemble(At(Hat(x.v'), p), At(Hat(x.v), p), At(Hat(x.m), p), At(Hat(x.e2), p), Dot2(g, ts, r, k), Dot2(g, t, r, k),
             Dot2(g, s, us, k), Dot2(g, s, b, k), Dot2(g, e, r, k), Dot2(g, s, f, k),
             At(Hat(RowSum(x.e, x.r, k)), p), At(Hat(RowSum(x.s, fs, k)), p), At(Hat(RunNoise(x, k)), p));
  }

  lemma NoiseAt(x: Poly, y: Poly, e2: Poly, v: Poly, v': Poly, p: nat)
    requires |x| == |y| == |e2| == |v| == |v'| == N && p < 128
    ensures At(Hat(Lin(1, Lin(1, x, -1, y), 1, Lin(1, e2, 1, Lin(1, v', -1, v)))), p)
         == Add2(Sub2(At(Hat(x), p), At(Hat(y), p)), Add2(At(Hat(e2), p), Sub2(At(Hat(v'), p), At(Hat(v), p))))
  {
    hide Hat, Lin;
    var c := Lin(1, v', -1, v);
    HatSumAt(v', v, p);
    HatSumAt(e2, c, p);
    HatSumAt(x, y, p);
    HatSumAt(Lin(1, x, -1, y), Lin(1, e2, 1, c), p);
  }

  lemma Assemble(v': Pair, v: Pair, m: Pair, e2: Pair, tr': Pair, tr: Pair, su': Pair, su: Pair, er: Pair, sf: Pair,
                 er': Pair, sf': Pair, n: Pair)
    requires Cong2(v, Add2(Add2(tr', e2), m), Q) && Cong2(tr', tr, Q) && Cong2(su', su, Q)
    requires Sub2(tr, su) == Sub2(er, sf) && Cong2(er', er, Q) && Cong2(sf', sf, Q)
    requires n == Add2(Sub2(er', sf'), Add2(e2, Sub2(v', v)))
    ensures Cong2(Sub2(v', su'), Add2(m, n), Q)
  {
    AssembleHalf(v'.a, v.a, m.a, e2.a, tr'.a, tr.a, su'.a, su.a, er.a, sf.a, er'.a, sf'.a, n.a);
    AssembleHalf(v'.b, v.b, m.b, e2.b, tr'.b, tr.b, su'.b, su.b, er.b, sf.b, er'.b, sf'.b, n.b);
  }

  lemma AssembleHalf(v': int, v: int, m: int, e2: int, tr': int, tr: int, su': int, su: int, er: int, sf: int,
                     er': int, sf': int, n: int)
    requires Cong(v, tr' + e2 + m, Q) && Cong(tr', tr, Q) && Cong(su', su, Q)
    requires tr - su == er - sf && Cong(er', er, Q) && Cong(sf', sf, Q)
    requires n == er' - sf' + (e2 + (v' - v))
    ensures Cong(v' - su', m + n, Q)
  {
    var a := Quotient(v, tr' + e2 + m, Q);
    var b := Quotient(tr', tr, Q);
    var c := Quotient(su', su, Q);
    var d := Quotient(er', er, Q);
    var f := Quotient(sf', sf, Q);
    FromQuotient(v' - su', m + n, a + b - c - d + f, Q);
  }

  lemma AgreeAt(x: Poly, y: Poly)
    requires |x| == |y| == N && forall p :: 0 <= p < 128 ==> Stands(x, p, At(y, p))
    ensures CongSeq(x, y, Q)
  {
    hide Cong;
    forall i | 0 <= i < N
      ensures Cong(x[i], y[i], Q)
    {
      assert Stands(x, i / 2, At(y, i / 2));
      assert i == 2 * (i / 2) || i == 2 * (i / 2) + 1;
    }
  }

  ghost predicate HasHat(s: Poly, a: Poly) {
    |a| == N && CongSeq(s, Hat(a), Q)
  }

  /** s holds the transforms of a. */
  ghost predicate AllHats(s: seq<Poly>, a: seq<Poly>, k: nat) {
    IsVector(s, k, 4095) && |a| == k && forall i :: 0 <= i < k ==> HasHat(s[i], a[i])
  }

  ghost predicate AllResults(x: Run, k: nat) {
    RunShape(x, k) && forall p :: 0 <= p < 128 ==> RunResult(x, k, p)
  }

  /** w is the message polynomial plus the noise, reduced to the centre. */
  ghost predicate MessagePlusNoise(w: Poly, x: Run, k: nat) {
    RunShape(x, k) && IsPoly(w, 1664) && CongSeq(w, Lin(1, x.m, 1, RunNoise(x, k)), Q)
  }

  /** The decrypted polynomial is the message polynomial plus the noise. */
  lemma DecryptedPoly(x: Run, k: nat, s: seq<Poly>, w: Poly)
    requires AllResults(x, k) && AllHats(s, x.s, k) && IsVector(x.u', k, Q) && IsPoly(x.v', Q)
    requires Matched(s, x.u') && 0 < |s| && w == DecryptPoly(s, x.u', x.v')
    ensures MessagePlusNoise(w, x, k)
  {
    hide Hat, DecryptPoly, RunNoise, Lin, Dot2, Gamma, Cong, Cong2;
    var y := Lin(1, x.m, 1, RunNoise(x, k));
    Shaped(s, x.s, k);
    forall i | 0 <= i < k
      ensures CongSeq(s[i], HatVector(x.s)[i], Q)
    {
      assert HasHat(s[i], x.s[i]);
    }
    DecryptStands(s, x.u', x.v', HatVector(x.s), 0);
    forall p | 0 <= p < 128
      ensures Stands(Hat(w), p, At(Hat(y), p))
    {
      assert RunResult(x, k, p);
      DecryptStands(s, x.u', x.v', HatVector(x.s), p);
      HatSumAt(x.m, RunNoise(x, k), p);
      RaiseStands(Hat(w), p,
           Sub2(At(Hat(x.v'), p), Dot2(Gamma(p), AllAt(HatVector(x.s), p), AllAt(HatVector(x.u'), p), k)),
                  Add2(At(Hat(x.m), p), At(Hat(RunNoise(x, k)), p)));
    }
    AgreeAt(Hat(w), Hat(y));
    HatInjective(w, y);
  }

  lemma Shaped(s: seq<Poly>, a: seq<Poly>, k: nat)
    requires AllHats(s, a, k)
    ensures IsShape(s, k)
  {
    forall i | 0 <= i < k
      ensures |s[i]| == N
    {
      assert IsPoly(s[i], 4095);
    }
  }

  // ----- message bits

  function MessageBits(m: seq<byte>): (b: Poly)
    requires |m| == SYM
    ensures |b| == N
  {
    hide Lossless, InRange, Decode, Encode;
    Formats(4);
    EncodeDecode(P.BITS, m, 32);
    Decode(P.BITS, m, 32)
  }

  lemma BitRange(m: seq<byte>, j: nat)
    requires |m| == SYM && j < N
    ensures MessageBits(m)[j] == 0 || MessageBits(m)[j] == 1
  {
    hide Lossless, Decode, Encode;
    Formats(4);
    EncodeDecode(P.BITS, m, 32);
    assert Storable(P.BITS, MessageBits(m)[j]);
    PowersOfTwo();
  }

  lemma MessageOfBits(a: Poly)
    requires |a| == N
    ensures |ToMessage(a)| == SYM
    ensures forall j :: 0 <= j < N ==> MessageBits(ToMessage(a))[j] == ToBit(a[j])
  {
    hide Lossless, Decode, Encode, ToBit;
    Formats(4);
    PowersOfTwo();
    var b := seq(N, i requires 0 <= i < N => ToBit(a[i]));
    forall j | 0 <= j < N
      ensures Storable(P.BITS, b[j])
    {
      BitOf(a[j]);
    }
    DecodeEncode(P.BITS, b, 32);
  }

  lemma BitOf(a: int)
    ensures 0 <= ToBit(a) < 2
  {
  }

  lemma SameBits(m: seq<byte>, n: seq<byte>)
    requires |m| == |n| == SYM && MessageBits(m) == MessageBits(n)
    ensures m == n
  {
    hide Lossless, Decode, Encode, InRange;
    Formats(4);
    EncodeDecode(P.BITS, m, 32);
    EncodeDecode(P.BITS, n, 32);
  }

  /** The noise a bit tolerates: one less on the upper side for a one. */
  predicate Survives(b: int, n: int) { -832 <= Centred(n) <= 832 - b }

  lemma BitRecovered(m: seq<byte>, w: Poly, n: Poly, j: nat)
    requires |m| == SYM && |n| == N && IsPoly(w, 1664) && j < N
    requires CongSeq(w, Lin(1, FromMessage(m), 1, n), Q)
    ensures ToBit(w[j]) == MessageBits(m)[j] <==> Survives(MessageBits(m)[j], n[j])
  {
    hide Cong, ToBit, Centred, Decode, Lossless, FromBit;
    var b := MessageBits(m)[j];
    BitRange(m, j);
    assert FromMessage(m)[j] == FromBit(b);
    CentredCong(n[j]);
    Refl(FromBit(b), Q);
    Add(FromBit(b), FromBit(b), n[j], Centred(n[j]), Q);
    Trans(w[j], FromBit(b) + n[j], FromBit(b) + Centred(n[j]), Q);
    BitSurvives(b, Centred(n[j]), w[j]);
  }

  /** Decoding the decrypted polynomial gives the message back exactly when every bit survives. */
  lemma MessageRecovered(m: seq<byte>, w: Poly, n: Poly)
    requires |m| == SYM && |n| == N && IsPoly(w, 1664) && CongSeq(w, Lin(1, FromMessage(m), 1, n), Q)
    ensures ToMessage(w) == m <==> forall j :: 0 <= j < N ==> Survives(MessageBits(m)[j], n[j])
    ensures |ToMessage(w)| == SYM
    ensures forall j :: 0 <= j < N ==>
         (MessageBits(ToMessage(w))[j] == MessageBits(m)[j] <==> Survives(MessageBits(m)[j], n[j]))
  {
    hide CongSeq, Lin, FromMessage, ToMessage, MessageBits, Survives;
    MessageOfBits(w);
    forall j | 0 <= j < N
      ensures MessageBits(ToMessage(w))[j] == MessageBits(m)[j] <==> Survives(MessageBits(m)[j], n[j])
    {
      BitRecovered(m, w, n, j);
    }
    if forall j :: 0 <= j < N ==> Survives(MessageBits(m)[j], n[j]) {
      assert MessageBits(ToMessage(w)) == MessageBits(m);
      SameBits(ToMessage(w), m);
    }
  }
}
