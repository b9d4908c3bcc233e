/** Which values a rejection sampler returns: the candidates of the stream that pass, in their order.
    The value of rank n is the candidate that passes and has n passing candidates before it. */
module Candidates {
  import opened Words
  import opened Rejection
  import opened BitOrder
  import opened VectorCodec
  import opened Polynomials
  import S = MldsaSampling
  import K = MlkemKpke
  import R = MlkemReduce
  import D = MldsaReduce
  import P = MlkemPack
  import FormatOrder

  /** Candidate number c of a stream, if it passes. */
  type Candidates = nat -> Option<int>

  function Chosen(v: Option<int>): (x: seq<int>) { if v.Some? then [v.value] else [] }

  /** How many of the candidates 0 .. c - 1 pass. */
  function Rank(f: Candidates, c: nat): (r: nat)
    ensures r <= c
  {
    if c == 0 then 0 else Rank(f, c - 1) + if f(c - 1).Some? then 1 else 0
  }

  /** x lists the passing candidates below c. */
  ghost predicate Selects(f: Candidates, c: nat, x: seq<int>) {
    && |x| == Rank(f, c)
    && forall d :: 0 <= d < c && f(d).Some? ==> Rank(f, d) < |x| && x[Rank(f, d)] == f(d).value
  }

  /** The passing ones among n candidates from c on. */
  function Passing(f: Candidates, c: nat, n: nat): (x: seq<int>)
    decreases n
  {
    if n == 0 then [] else Chosen(f(c)) + Passing(f, c + 1, n - 1)
  }

  lemma SelectsMore(f: Candidates, c: nat, x: seq<int>)
    requires Selects(f, c, x)
    ensures Selects(f, c + 1, x + Chosen(f(c)))
  {
  }

  lemma {:induction false} PassingSelects(f: Candidates, c: nat, n: nat, x: seq<int>)
    requires Selects(f, c, x)
    ensures Selects(f, c + n, x + Passing(f, c, n))
    decreases n
  {
    hide Selects;
    var y := Passing(f, c, n);
    if n == 0 {
      assert x + y == x;
    } else {
      var v := Chosen(f(c));
      SelectsMore(f, c, x);
      PassingSelects(f, c + 1, n - 1, x + v);
      assert x + y == x + v + Passing(f, c + 1, n - 1);
    }
  }

  lemma {:induction false} PassingAppend(f: Candidates, c: nat, m: nat, n: nat)
    ensures Passing(f, c, m + n) == Passing(f, c, m) + Passing(f, c + m, n)
    decreases m
  {
    if m > 0 {
      PassingAppend(f, c + 1, m - 1, n);
    }
  }

  /** Group g of the sampler offers the candidates n * g .. n * g + n - 1. */
  ghost predicate Offers(k: Sampler, s: Stream, n: nat, f: Candidates) {
    k.group > 0 && forall g: nat :: OffersAt(k, s, n, f, g)
  }

  ghost predicate OffersAt(k: Sampler, s: Stream, n: nat, f: Candidates, g: nat) {
    k.accept(Bytes(s, k.group * g, k.group)) == Passing(f, n * g, n)
  }

  lemma GroupStep(k: Sampler, s: Stream, b: nat, len: nat)
    requires k.group > 0 && len >= k.group
    ensures Accepted(k, Bytes(s, b, len)) ==
            k.accept(Bytes(s, b, k.group)) + Accepted(k, Bytes(s, b + k.group, len - k.group))
  {
    var x := Bytes(s, b, len);
    assert x[..k.group] == Bytes(s, b, k.group);
    assert x[k.group..] == Bytes(s, b + k.group, len - k.group);
  }

  lemma {:induction false} AcceptedIsPassing(k: Sampler, s: Stream, n: nat, f: Candidates, g: nat,
       b: nat, c: nat, len: nat, m: nat, t: nat)
    requires Offers(k, s, n, f) && b == k.group * g && c == n * g
    requires m * k.group <= len < m * k.group + k.group && t == n * m
    ensures Accepted(k, Bytes(s, b, len)) == Passing(f, c, t)
    decreases m
  {
    hide Accepted;
    if m == 0 {
      NothingAccepted(k, Bytes(s, b, len));
    } else {
      assert m * k.group == (m - 1) * k.group + k.group;
      assert (m - 1) * k.group >= 0;
      assert n * m == n * (m - 1) + n;
      GroupStep(k, s, b, len);
      assert OffersAt(k, s, n, f, g);
      AcceptedIsPassing(k, s, n, f, g + 1, b + k.group, c + n, len - k.group, m - 1, t - n);
      PassingAppend(f, c, n, t - n);
    }
  }

  lemma AcceptedSelects(k: Sampler, s: Stream, n: nat, f: Candidates, len: nat)
    requires Offers(k, s, n, f)
    ensures Selects(f, n * (len / k.group), Accepted(k, Bytes(s, 0, len)))
  {
    hide Accepted, Offers, Selects;
    GroupIsPositive(k, s, n, f);
    var m := len / k.group;
    assert m * k.group + len % k.group == len;
    AcceptedIsPassing(k, s, n, f, 0, 0, 0, len, m, n * m);
    SelectsNothing(f);
    PassingSelects(f, 0, n * m, []);
    assert [] + Passing(f, 0, n * m) == Passing(f, 0, n * m);
  }

  lemma GroupIsPositive(k: Sampler, s: Stream, n: nat, f: Candidates)
    requires Offers(k, s, n, f)
    ensures k.group > 0
  {
  }

  lemma SelectsNothing(f: Candidates)
    ensures Selects(f, 0, [])
  {
  }

  // ----- the four samplers

  function Below(v: int, bound: int, x: int): (r: Option<int>) { if v < bound then Some(x) else None }

  /** 23 bits of three bytes, below Q. */
  function UniformCandidate(s: Stream, c: nat): (r: Option<int>) {
    var v := Num(s(3 * c)) + 0x100 * Num(s(3 * c + 1)) + 0x1_0000 * (Num(s(3 * c + 2)) % 0x80);
    Below(v, D.Q, v)
  }

  function UniformCandidates(s: Stream): (f: Candidates) { (c: nat) => UniformCandidate(s, c) }

  /** Half of a byte, the low half first. */
  function HalfByte(s: Stream, c: nat): (v: nat) {
    if c % 2 == 0 then Num(s(c / 2)) % 16 else Num(s(c / 2)) / 16
  }

  /** Half bytes below 15, taken modulo 5. */
  function Eta2Candidates(s: Stream): (f: Candidates) {
    (c: nat) => Below(HalfByte(s, c), 15, 2 - HalfByte(s, c) % 5)
  }

  /** Half bytes below 9. */
  function Eta4Candidates(s: Stream): (f: Candidates) {
    (c: nat) => Below(HalfByte(s, c), 9, 4 - HalfByte(s, c))
  }

  /** The 12-bit number in bits 12 * c to 12 * c + 11 of the stream. */
  function TwelveBits(s: Stream, c: nat): (v: nat) {
    Field(Bytes(s, 3 * (c / 2), 3), 12 * (c % 2), 12)
  }

  function TwelveBitCandidates(s: Stream): (f: Candidates) {
    (c: nat) => Below(TwelveBits(s, c), R.Q, TwelveBits(s, c))
  }

  lemma OneCandidate(f: Candidates, c: nat)
    ensures Passing(f, c, 1) == Chosen(f(c))
  {
    hide Chosen;
    assert Passing(f, c, 1) == Chosen(f(c)) + Passing(f, c + 1, 0);
  }

  lemma TwoCandidates(f: Candidates, c: nat)
    ensures Passing(f, c, 2) == Chosen(f(c)) + Chosen(f(c + 1))
  {
    hide Chosen;
    assert Passing(f, c, 2) == Chosen(f(c)) + Passing(f, c + 1, 1);
    OneCandidate(f, c + 1);
  }

  lemma TopBitDropped(x: nat, y: nat, z: nat)
    requires x < 0x100 && y < 0x100
    ensures (x + 0x100 * y + 0x1_0000 * z) % 0x80_0000 == x + 0x100 * y + 0x1_0000 * (z % 0x80)
  {
  }

  lemma UniformChosen(x: seq<byte>, s: Stream, g: nat)
    requires |x| == 3 && x[0] == s(3 * g) && x[1] == s(3 * g + 1) && x[2] == s(3 * g + 2)
    ensures S.UniformGroup(x) == Chosen(UniformCandidate(s, g))
  {
    hide Num;
    TopBitDropped(Num(x[0]), Num(x[1]), Num(x[2]));
  }

  lemma UniformOffers(s: Stream)
    ensures Offers(S.UNIFORM, s, 1, UniformCandidates(s))
  {
    hide Num, Chosen, UniformCandidate, S.UniformGroup;
    forall g: nat
      ensures OffersAt(S.UNIFORM, s, 1, UniformCandidates(s), g)
    {
      var x := Bytes(s, 3 * g, 3);
      UniformChosen(x, s, g);
      OneCandidate(UniformCandidates(s), g);
    }
  }

  lemma HalfBytes(s: Stream, g: nat)
    ensures HalfByte(s, 2 * g) == Num(s(g)) % 16 && HalfByte(s, 2 * g + 1) == Num(s(g)) / 16
  {
  }

  lemma Eta2Offers(s: Stream)
    ensures Offers(S.ETA2, s, 2, Eta2Candidates(s))
  {
    hide Num, HalfByte, S.Eta2Of, Passing;
    forall g: nat
      ensures OffersAt(S.ETA2, s, 2, Eta2Candidates(s), g)
    {
      HalfBytes(s, g);
      TwoCandidates(Eta2Candidates(s), 2 * g);
      assert Bytes(s, g, 1)[0] == s(g);
      Eta2Passes(HalfByte(s, 2 * g));
      Eta2Passes(HalfByte(s, 2 * g + 1));
    }
  }

  lemma Eta2Passes(t: nat)
    ensures S.Eta2Of(t) == if t < 15 then [2 - t % 5] else []
  {
    if t < 15 {
      S.Eta2Remainder(t);
    }
  }

  lemma Eta4Offers(s: Stream)
    ensures Offers(S.ETA4, s, 2, Eta4Candidates(s))
  {
    hide Num, HalfByte, Passing;
    forall g: nat
      ensures OffersAt(S.ETA4, s, 2, Eta4Candidates(s), g)
    {
      HalfBytes(s, g);
      TwoCandidates(Eta4Candidates(s), 2 * g);
      assert Bytes(s, g, 1)[0] == s(g);
    }
  }

  lemma TwelveOffers(s: Stream)
    ensures Offers(K.TWELVE, s, 2, TwelveBitCandidates(s))
  {
    hide Num, Passing, Field, P.TwelveUnpack, Value;
    forall g: nat
      ensures OffersAt(K.TWELVE, s, 2, TwelveBitCandidates(s), g)
    {
      var x := Bytes(s, 3 * g, 3);
      FormatOrder.TwelveGroup(x);
      TwelveFields(x);
      TwoCandidates(TwelveBitCandidates(s), 2 * g);
      assert TwelveBits(s, 2 * g) == Field(x, 0, 12) && TwelveBits(s, 2 * g + 1) == Field(x, 12, 12);
    }
  }

  lemma TwelveFields(x: seq<byte>)
    requires GroupOrdered(P.D12, x)
    ensures |x| == 3 && |P.TwelveUnpack(x)| == 2
    ensures Value(P.TwelveUnpack(x)[0]) == Field(x, 0, 12) && Value(P.TwelveUnpack(x)[1]) == Field(x, 12, 12)
  {
    hide Field, P.TwelveUnpack, Value;
    assert Value(P.D12.unpack(x)[1]) == Field(x, P.D12.d * 1, P.D12.d);
    assert Value(P.D12.unpack(x)[0]) == Field(x, P.D12.d * 0, P.D12.d);
  }

  // ----- polynomials

  /** a lists the first N passing candidates among the first n. */
  ghost predicate SampleOf(f: Candidates, n: nat, a: Poly) {
    && |a| == (if Rank(f, n) < N then Rank(f, n) else N)
    && forall c :: 0 <= c < n && f(c).Some? && Rank(f, c) < N ==> Rank(f, c) < |a| && a[Rank(f, c)] == f(c).value
  }

  lemma FirstSelected(f: Candidates, n: nat, x: seq<int>)
    requires Selects(f, n, x)
    ensures SampleOf(f, n, First(N, x))
  {
  }

  /** Every rank is taken by one candidate ... */
  lemma {:induction false} RankTaken(f: Candidates, n: nat, r: nat) returns (c: nat)
    requires r < Rank(f, n)
    ensures c < n && f(c).Some? && Rank(f, c) == r
  {
    if r < Rank(f, n - 1) {
      c := RankTaken(f, n - 1, r);
    } else {
      c := n - 1;
    }
  }

  /** ... so a stream has one sample. */
  lemma OneSample(f: Candidates, n: nat, a: Poly, b: Poly)
    requires SampleOf(f, n, a) && SampleOf(f, n, b)
    ensures a == b
  {
    forall r | 0 <= r < |a|
      ensures a[r] == b[r]
    {
      var c := RankTaken(f, n, r);
    }
  }

  /** poly_uniform takes the candidates below Q, in the order of the stream. */
  lemma UniformSample(s: Stream, limit: nat)
    ensures SampleOf(UniformCandidates(s), limit / 3, S.Sampled(S.UNIFORM, s, limit))
  {
    hide Accepted, Offers, Selects, SampleOf, Bytes;
    UniformOffers(s);
    AcceptedSelects(S.UNIFORM, s, 1, UniformCandidates(s), limit);
    FirstSelected(UniformCandidates(s), limit / 3, Accepted(S.UNIFORM, Bytes(s, 0, limit)));
  }

  /** poly_uniform_eta takes the half bytes below 15 or 9. */
  lemma ShortSample(eta: int, s: Stream, limit: nat)
    requires S.IsEta(eta)
    ensures SampleOf(if eta == 2 then Eta2Candidates(s) else Eta4Candidates(s), 2 * limit,
                     S.Sampled(S.EtaSampler(eta), s, limit))
  {
    hide Accepted, Offers, Selects, SampleOf, Bytes;
    if eta == 2 {
      Eta2Offers(s);
      AcceptedSelects(S.ETA2, s, 2, Eta2Candidates(s), limit);
      FirstSelected(Eta2Candidates(s), 2 * limit, Accepted(S.ETA2, Bytes(s, 0, limit)));
    } else {
      Eta4Offers(s);
      AcceptedSelects(S.ETA4, s, 2, Eta4Candidates(s), limit);
      FirstSelected(Eta4Candidates(s), 2 * limit, Accepted(S.ETA4, Bytes(s, 0, limit)));
    }
  }

  /** gen_matrix takes the 12-bit candidates below q. */
  lemma TwelveBitSample(s: Stream, limit: nat)
    ensures SampleOf(TwelveBitCandidates(s), 2 * (limit / 3), First(N, Accepted(K.TWELVE, Bytes(s, 0, limit))))
  {
    hide Accepted, Offers, Selects, SampleOf, Bytes;
    TwelveOffers(s);
    AcceptedSelects(K.TWELVE, s, 2, TwelveBitCandidates(s), limit);
    FirstSelected(TwelveBitCandidates(s), 2 * (limit / 3), Accepted(K.TWELVE, Bytes(s, 0, limit)));
  }
}
