/** poly_challenge step by step (section 7.3 of FIPS 204): which bytes of the stream are taken, which
    coefficients move, and which bits give the signs. */
module MldsaChallenge {
  import opened Polynomials
  import opened NttAlgebra
  import opened Words
  import opened BitOrder
  import opened Rejection
  import opened MldsaSampling

  /** Coefficient i becomes the old coefficient b, coefficient b becomes v, nothing else changes. */
  ghost predicate Moved(c: Poly, d: Poly, i: nat, b: nat, v: int) {
    && b <= i < N && |c| == |d| == N
    && d[b] == v && (b != i ==> d[i] == c[b])
    && forall j :: 0 <= j < N && j != i && j != b ==> d[j] == c[j]
  }

  /** p is the first position from 'from' on that holds a byte of at most i. */
  ghost predicate FirstAtMost(s: Stream, i: nat, from: nat, p: nat) {
    from <= p && Num(s(p)) <= i && forall q :: from <= q < p ==> Num(s(q)) > i
  }

  /** One step: the byte at position p is accepted, and bit t of the stream gives the sign. */
  ghost predicate Step(s: Stream, i: nat, t: nat, from: nat, p: nat, c: Poly, d: Poly) {
    FirstAtMost(s, i, from, p) && Moved(c, d, i, Num(s(p)), 1 - 2 * StreamBit(s, t))
  }

  /** Where the bytes of step t start: behind the eight sign bytes, then behind the last byte taken. */
  function From(ps: seq<nat>, t: nat): (r: nat)
    requires t <= |ps|
  {
    if t == 0 then 8 else ps[t - 1] + 1
  }

  /** The first steps of SampleInBall: positions taken and polynomials passed through. */
  ghost predicate Steps(s: Stream, tau: nat, ps: seq<nat>, cs: seq<Poly>) {
    && |ps| <= tau <= 64 && |cs| == |ps| + 1 && cs[0] == seq(N, _ => 0)
    && forall t :: 0 <= t < |ps| ==> Step(s, N - tau + t, t, From(ps, t), ps[t], cs[t], cs[t + 1])
  }

  // ----- the signs

  /** The sign bits from number t on are those of signs. */
  ghost predicate SignsFrom(s: Stream, t: nat, signs: nat) {
    forall j :: 0 <= j && t + j < 64 ==> BitOrder.Bit(signs, j) == StreamBit(s, t + j)
  }

  lemma {:induction false} LittleBit(x: seq<byte>, j: nat)
    requires j < 8 * |x|
    ensures BitOrder.Bit(Little(x), j) == BitOrder.Bit(Num(x[j / 8]), j % 8)
  {
    hide BitOrder.Bit, Num;
    PowersOfTwo();
    BitOfJoin(Num(x[0]), Little(x[1..]), 8, 0x100, j);
    if j >= 8 {
      LittleBit(x[1..], j - 8);
      assert (j - 8) / 8 == j / 8 - 1 && (j - 8) % 8 == j % 8;
    }
  }

  lemma AllSigns(s: Stream)
    ensures SignsFrom(s, 0, Little(Bytes(s, 0, 8)))
  {
    hide BitOrder.Bit, Num, Little;
    forall j | 0 <= j < 64
      ensures BitOrder.Bit(Little(Bytes(s, 0, 8)), j) == StreamBit(s, j)
    {
      LittleBit(Bytes(s, 0, 8), j);
    }
  }

  lemma NextSign(s: Stream, t: nat, signs: nat)
    requires SignsFrom(s, t, signs) && t < 64
    ensures signs % 2 == StreamBit(s, t) && SignsFrom(s, t + 1, signs / 2)
  {
    hide StreamBit;
    assert BitOrder.Bit(signs, 0) == StreamBit(s, t + 0);
    forall j | 0 <= j && t + 1 + j < 64
      ensures BitOrder.Bit(signs / 2, j) == StreamBit(s, t + 1 + j)
    {
      assert BitOrder.Bit(signs, j + 1) == StreamBit(s, t + (j + 1));
    }
  }

  // ----- one step

  /** The two stores, in the order of the code. */
  lemma PlacedExactly(c: Poly, i: nat, b: nat, v: int, d: Poly)
    requires |c| == N && b <= i < N
    ensures Moved(c, d, i, b, v) <==> d == Placed(c, i, b, v)
  {
    if Moved(c, d, i, b, v) {
      assert d == Placed(c, i, b, v);
    }
  }

  /** Rejected bytes do not matter. */
  lemma {:induction false} Skip(s: Stream, limit: nat, i: nat, from: nat, p: nat, signs: nat, c: Poly)
    requires i < N == |c| && from <= p && forall q :: from <= q < p ==> Num(s(q)) > i
    ensures p < limit ==> ChallengeFrom(s, limit, i, from, signs, c) == ChallengeFrom(s, limit, i, p, signs, c)
    decreases p - from
  {
    hide Placed, Num;
    if from < p < limit {
      Skip(s, limit, i, from + 1, p, signs, c);
    }
  }

  lemma {:induction false} Find(s: Stream, limit: nat, i: nat, from: nat, signs: nat, c: Poly) returns (p: nat)
    requires i < N == |c| && ChallengeFrom(s, limit, i, from, signs, c) != []
    ensures FirstAtMost(s, i, from, p) && p < limit
    decreases limit - from
  {
    hide Placed, Num;
    if Num(s(from)) > i {
      p := Find(s, limit, i, from + 1, signs, c);
    } else {
      p := from;
    }
  }

  lemma TakeByte(s: Stream, limit: nat, i: nat, t: nat, from: nat, p: nat, signs: nat, c: Poly, d: Poly)
    requires t < 64 && |c| == N && i < N && p < limit && SignsFrom(s, t, signs)
    requires FirstAtMost(s, i, from, p) && d == Placed(c, i, Num(s(p)), 1 - 2 * StreamBit(s, t))
    ensures Step(s, i, t, from, p, c, d) && SignsFrom(s, t + 1, signs / 2)
    ensures ChallengeFrom(s, limit, i, from, signs, c) == ChallengeFrom(s, limit, i + 1, p + 1, signs / 2, d)
  {
    hide Placed, Num, StreamBit, Moved, SignsFrom;
    NextSign(s, t, signs);
    PlacedExactly(c, i, Num(s(p)), 1 - 2 * StreamBit(s, t), d);
    Skip(s, limit, i, from, p, signs, c);
  }

  // ----- whole runs

  /** The steps so far lead to the polynomial c, and the rest of the run starts there. */
  ghost predicate Reached(s: Stream, limit: nat, tau: nat, ps: seq<nat>, cs: seq<Poly>, signs: nat) {
    && Steps(s, tau, ps, cs) && |cs[|ps|]| == N && SignsFrom(s, |ps|, signs)
    && ChallengeFrom(s, limit, N - tau + |ps|, From(ps, |ps|), signs, cs[|ps|]) == Challenge(s, limit, tau)
  }

  lemma OneMore(s: Stream, limit: nat, tau: nat, ps: seq<nat>, cs: seq<Poly>, signs: nat)
    returns (p: nat, d: Poly)
    requires Reached(s, limit, tau, ps, cs, signs) && |ps| < tau && Challenge(s, limit, tau) != []
    ensures p < limit && Reached(s, limit, tau, ps + [p], cs + [d], signs / 2)
  {
    hide Placed, Num, StreamBit, SignsFrom, ChallengeFrom, Challenge, Step;
    var t := |ps|;
    var i, c := N - tau + t, cs[t];
    p := Find(s, limit, i, From(ps, t), signs, c);
    ByteBelow(s, i, From(ps, t), p);
    d := Placed(c, i, Num(s(p)), 1 - 2 * StreamBit(s, t));
    TakeByte(s, limit, i, t, From(ps, t), p, signs, c, d);
    var ps', cs' := ps + [p], cs + [d];
    forall u | 0 <= u < |ps'|
      ensures Step(s, N - tau + u, u, From(ps', u), ps'[u], cs'[u], cs'[u + 1])
    {
      assert From(ps', u) == From(ps, u);
      if u < t {
        assert Step(s, N - tau + u, u, From(ps, u), ps[u], cs[u], cs[u + 1]);
      }
    }
  }

  lemma ByteBelow(s: Stream, i: nat, from: nat, p: nat)
    requires FirstAtMost(s, i, from, p)
    ensures Num(s(p)) <= i
  {
  }

  lemma {:induction false} AllSteps(s: Stream, limit: nat, tau: nat, ps: seq<nat>, cs: seq<Poly>, signs: nat)
    returns (qs: seq<nat>, ds: seq<Poly>)
    requires Reached(s, limit, tau, ps, cs, signs) && Challenge(s, limit, tau) != []
    requires forall t :: 0 <= t < |ps| ==> ps[t] < limit
    ensures Steps(s, tau, qs, ds) && |qs| == tau && ds[tau] == Challenge(s, limit, tau)
    ensures forall t :: 0 <= t < tau ==> qs[t] < limit
    decreases tau - |ps|
  {
    hide SignsFrom, Challenge, Step;
    if |ps| == tau {
      qs, ds := ps, cs;
    } else {
      hide ChallengeFrom;
      var p, d := OneMore(s, limit, tau, ps, cs, signs);
      qs, ds := AllSteps(s, limit, tau, ps + [p], cs + [d], signs / 2);
    }
  }

  /** A challenge is the end of a complete run of steps within the bytes that may be read ... */
  lemma StepsOfChallenge(s: Stream, limit: nat, tau: nat) returns (ps: seq<nat>, cs: seq<Poly>)
    requires tau <= 64 && Challenge(s, limit, tau) != []
    ensures Steps(s, tau, ps, cs) && |ps| == tau && cs[tau] == Challenge(s, limit, tau)
    ensures forall t :: 0 <= t < tau ==> ps[t] < limit
  {
    hide SignsFrom, ChallengeFrom, Step, Little;
    AllSigns(s);
    ps, cs := AllSteps(s, limit, tau, [], [seq(N, _ => 0)], Little(Bytes(s, 0, 8)));
  }

  lemma {:induction false} RestOfSteps(s: Stream, limit: nat, tau: nat, ps: seq<nat>, cs: seq<Poly>, t: nat, signs: nat)
    requires Steps(s, tau, ps, cs) && |ps| == tau && t <= tau && SignsFrom(s, t, signs)
    requires forall u :: 0 <= u < tau ==> ps[u] < limit
    requires forall u :: 0 <= u <= tau ==> |cs[u]| == N
    ensures ChallengeFrom(s, limit, N - tau + t, From(ps, t), signs, cs[t]) == cs[tau]
    decreases tau - t
  {
    hide SignsFrom, Step;
    if t < tau {
      hide ChallengeFrom;
      StepTaken(s, limit, N - tau + t, t, From(ps, t), ps[t], signs, cs[t], cs[t + 1]);
      RestOfSteps(s, limit, tau, ps, cs, t + 1, signs / 2);
    }
  }

  lemma StepTaken(s: Stream, limit: nat, i: nat, t: nat, from: nat, p: nat, signs: nat, c: Poly, d: Poly)
    requires t < 64 && p < limit && SignsFrom(s, t, signs) && i < N == |c| == |d| && Step(s, i, t, from, p, c, d)
    ensures SignsFrom(s, t + 1, signs / 2)
    ensures ChallengeFrom(s, limit, i, from, signs, c) == ChallengeFrom(s, limit, i + 1, p + 1, signs / 2, d)
  {
    hide SignsFrom, Placed, StreamBit, Num, ChallengeFrom;
    PlacedExactly(c, i, Num(s(p)), 1 - 2 * StreamBit(s, t), d);
    TakeByte(s, limit, i, t, from, p, signs, c, d);
  }

  /** ... and every complete run within them ends in the challenge. */
  lemma ChallengeOfSteps(s: Stream, limit: nat, tau: nat, ps: seq<nat>, cs: seq<Poly>)
    requires Steps(s, tau, ps, cs) && |ps| == tau && forall t :: 0 <= t < tau ==> ps[t] < limit
    ensures Challenge(s, limit, tau) == cs[tau]
  {
    hide SignsFrom, ChallengeFrom, Step, Little, StreamBit, Num;
    AllSigns(s);
    forall u | 0 <= u <= tau
      ensures |cs[u]| == N
    {
      if u > 0 {
        StepLength(s, N - tau + (u - 1), u - 1, From(ps, u - 1), ps[u - 1], cs[u - 1], cs[u]);
      }
    }
    RestOfSteps(s, limit, tau, ps, cs, 0, Little(Bytes(s, 0, 8)));
  }

  lemma StepLength(s: Stream, i: nat, t: nat, from: nat, p: nat, c: Poly, d: Poly)
    requires Step(s, i, t, from, p, c, d)
    ensures |c| == |d| == N
  {
  }

  // ----- the positions of the nonzero coefficients

  function Support(c: Poly): (r: set<nat>) { set j: nat | j < |c| && c[j] != 0 }

  predicate ZeroFrom(c: Poly, i: nat) { forall j :: i <= j < |c| ==> c[j] == 0 }

  /** A step at i takes position b if it is free, and i otherwise. */
  lemma SupportGrows(c: Poly, d: Poly, i: nat, b: nat, v: int)
    requires Moved(c, d, i, b, v) && v != 0 && ZeroFrom(c, i)
    ensures Support(d) == Support(c) + {if c[b] == 0 then b else i}
    ensures ZeroFrom(d, i + 1)
  {
    forall j: nat
      ensures j in Support(d) <==> j in Support(c) || j == if c[b] == 0 then b else i
    {
    }
  }

  /** After each step the nonzero positions are the old ones and one more. */
  lemma {:induction false} Positions(s: Stream, tau: nat, ps: seq<nat>, cs: seq<Poly>, t: nat)
    requires Steps(s, tau, ps, cs) && t < |ps|
    ensures |cs[t]| == |cs[t + 1]| == N && Num(s(ps[t])) <= N - tau + t < N
    ensures Support(cs[t + 1]) ==
            Support(cs[t]) + {if cs[t][Num(s(ps[t]))] == 0 then Num(s(ps[t])) else N - tau + t}
    ensures ZeroFrom(cs[t + 1], N - tau + t + 1)
  {
    hide StreamBit, Num, Support;
    assert Step(s, N - tau + t, t, From(ps, t), ps[t], cs[t], cs[t + 1]);
    if t > 0 {
      Positions(s, tau, ps, cs, t - 1);
    }
    SupportGrows(cs[t], cs[t + 1], N - tau + t, Num(s(ps[t])), 1 - 2 * StreamBit(s, t));
  }
}
