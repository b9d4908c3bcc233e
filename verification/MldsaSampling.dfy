/** The samplers of tools/pqc/mldsa/mldsa_poly.c: uniform and short polynomials by
    rejection, and the challenge with tau nonzero coefficients. */
module MldsaSampling {
  import opened Polynomials
  import opened Words
  import opened Rejection
  import opened MldsaReduce

  /** 23 bits of three bytes, accepted below Q. */
  function UniformGroup(x: seq<byte>): (r: seq<int>)
    ensures forall v :: v in r ==> 0 <= v < Q
  {
    if |x| != 3 then []
    else
      var t := (Num(x[0]) + 0x100 * Num(x[1]) + 0x1_0000 * Num(x[2])) % 0x80_0000;
      if t < Q then [t] else []
  }

  /** 205 * t >> 10 is t / 5 for t < 15. */
  function Eta2Of(t: nat): (r: seq<int>) {
    if t < 15 then [2 - (t - (205 * t / 0x400) * 5)] else []
  }

  function Eta4Of(t: nat): (r: seq<int>) {
    if t < 9 then [4 - t] else []
  }

  function Eta2Group(x: seq<byte>): (r: seq<int>) {
    if |x| != 1 then [] else Eta2Of(Num(x[0]) % 16) + Eta2Of(Num(x[0]) / 16)
  }

  function Eta4Group(x: seq<byte>): (r: seq<int>) {
    if |x| != 1 then [] else Eta4Of(Num(x[0]) % 16) + Eta4Of(Num(x[0]) / 16)
  }

  const UNIFORM: Sampler := Sampler(3, UniformGroup)
  const ETA2: Sampler := Sampler(1, Eta2Group)
  const ETA4: Sampler := Sampler(1, Eta4Group)

  predicate IsEta(eta: int) { eta == 2 || eta == 4 }

  function EtaSampler(eta: int): (k: Sampler)
    requires IsEta(eta)
    ensures k.group == 1
  {
    if eta == 2 then ETA2 else ETA4
  }

  /** The multiplication by 205 is an exact division: 2 minus the remainder by 5. */
  lemma Eta2Remainder(t: nat)
    requires t < 15
    ensures Eta2Of(t) == [2 - t % 5]
  {
  }

  lemma Ranges(eta: int)
    requires IsEta(eta)
    ensures Accepts(UNIFORM, 0, Q - 1)
    ensures Accepts(EtaSampler(eta), -eta, eta)
  {
    hide Num;
    forall x, v | |x| == 1 && v in Eta2Group(x)
      ensures -2 <= v <= 2
    {
      var l, h := Num(x[0]) % 16, Num(x[0]) / 16;
      if l < 15 { Eta2Remainder(l); }
      if h < 15 { Eta2Remainder(h); }
    }
  }

  /** A polynomial from the first limit bytes of a stream; shorter than N if they do not
      hold enough accepted values. */
  function Sampled(k: Sampler, s: Stream, limit: nat): (a: seq<int>)
    requires k.group > 0
    ensures |a| <= N
  {
    First(N, Accepted(k, Bytes(s, 0, limit)))
  }

  lemma SampledRange(k: Sampler, s: Stream, limit: nat, lo: int, hi: int)
    requires k.group > 0 && Accepts(k, lo, hi)
    ensures forall i :: 0 <= i < |Sampled(k, s, limit)| ==> lo <= Sampled(k, s, limit)[i] <= hi
  {
    hide Accepted, Accepts;
    AcceptedInRange(k, Bytes(s, 0, limit), lo, hi);
    var x := Accepted(k, Bytes(s, 0, limit));
    forall i | 0 <= i < |First(N, x)|
      ensures lo <= First(N, x)[i] <= hi
    {
      assert First(N, x)[i] == x[i] && x[i] in x;
    }
  }

  const RATE128: nat := 168
  const RATE256: nat := 136

  /** poly_uniform: five blocks of SHAKE128, then one at a time. */
  method PolyUniform(s: Stream, a: array<int>, fuel: nat) returns (ok: bool, read: nat)
    requires a.Length == N
    modifies a
    ensures ok ==> a[..] == Sampled(UNIFORM, s, read) && forall i :: 0 <= i < N ==> 0 <= a[i] < Q
  {
    ok, read := FillFromStream(UNIFORM, s, a, 5 * RATE128, RATE128, fuel);
    Ranges(2);
    SampledRange(UNIFORM, s, read, 0, Q - 1);
    assert forall i :: 0 <= i < N ==> a[i] == a[..][i];
  }

  /** poly_uniform_eta: one block of SHAKE256 for eta 2, two for eta 4, then one at a time. */
  method PolyUniformEta(eta: int, s: Stream, a: array<int>, fuel: nat) returns (ok: bool, read: nat)
    requires IsEta(eta) && a.Length == N
    modifies a
    ensures ok ==> a[..] == Sampled(EtaSampler(eta), s, read) && forall i :: 0 <= i < N ==> -eta <= a[i] <= eta
  {
    hide EtaSampler;
    ok, read := FillFromStream(EtaSampler(eta), s, a, if eta == 2 then RATE256 else 2 * RATE256, RATE256, fuel);
    Ranges(eta);
    SampledRange(EtaSampler(eta), s, read, -eta, eta);
    assert forall i :: 0 <= i < N ==> a[i] == a[..][i];
  }

  // ----- the challenge

  function Little(x: seq<byte>): (r: nat) {
    if x == [] then 0 else Num(x[0]) + 0x100 * Little(x[1..])
  }

  function IsNonzero(v: int): (r: nat) { if v == 0 then 0 else 1 }

  /** The number of nonzero coefficients. */
  function Weight(c: seq<int>): (r: nat) {
    if c == [] then 0 else IsNonzero(c[0]) + Weight(c[1..])
  }

  predicate Ternary(c: seq<int>) {
    forall i :: 0 <= i < |c| ==> -1 <= c[i] <= 1
  }

  /** poly_challenge from step i on: position p of the stream, the sign bits left, and the
      polynomial so far. Empty if the first limit bytes do not suffice. */
  function ChallengeFrom(s: Stream, limit: nat, i: nat, p: nat, signs: nat, c: seq<int>): (r: seq<int>)
    requires i <= N == |c|
    ensures r == [] || |r| == N
    decreases N - i, limit - p
  {
    if i == N then c
    else if p >= limit then []
    else if Num(s(p)) > i then ChallengeFrom(s, limit, i, p + 1, signs, c)
    else ChallengeFrom(s, limit, i + 1, p + 1, signs / 2, Placed(c, i, Num(s(p)), 1 - 2 * (signs % 2)))
  }

  /** Make room at b by moving its coefficient to i, and put v there. */
  function Placed(c: seq<int>, i: nat, b: nat, v: int): (r: seq<int>)
    requires b <= i < |c|
    ensures |r| == |c|
  {
    c[i := c[b]][b := v]
  }

  function Challenge(s: Stream, limit: nat, tau: nat): (c: seq<int>)
    requires tau <= 64
    ensures c == [] || |c| == N
  {
    ChallengeFrom(s, limit, N - tau, 8, Little(Bytes(s, 0, 8)), seq(N, _ => 0))
  }

  lemma {:induction false} WeightUpdate(c: seq<int>, k: nat, v: int)
    requires k < |c|
    ensures Weight(c[k := v]) == Weight(c) - IsNonzero(c[k]) + IsNonzero(v)
  {
    hide IsNonzero;
    if k > 0 {
      WeightUpdate(c[1..], k - 1, v);
      assert c[k := v][1..] == c[1..][k - 1 := v];
    } else {
      assert c[k := v][1..] == c[1..];
    }
  }

  /** What every step keeps: nothing is placed at or above i yet. */
  predicate InProgress(c: seq<int>, i: nat, n: nat) {
    && |c| == N && i <= N && Ternary(c) && Weight(c) == n
    && forall j :: i <= j < N ==> c[j] == 0
  }

  lemma PlacedKeeps(c: seq<int>, i: nat, b: nat, v: int, n: nat)
    requires InProgress(c, i, n) && b <= i < N && (v == 1 || v == -1)
    ensures InProgress(Placed(c, i, b, v), i + 1, n + 1)
  {
    hide Weight;
    WeightUpdate(c, i, c[b]);
    WeightUpdate(c[i := c[b]], b, v);
  }

  lemma {:induction false} ChallengeWeight(s: Stream, limit: nat, i: nat, p: nat, signs: nat, c: seq<int>, n: nat)
    requires i <= N && InProgress(c, i, n)
    ensures var r := ChallengeFrom(s, limit, i, p, signs, c);
      r != [] ==> Ternary(r) && Weight(r) == n + (N - i)
    decreases N - i, limit - p
  {
    hide Weight, InProgress, Placed, Num;
    if i == N {
      InProgressDone(c, n);
    } else if p < limit {
      if Num(s(p)) > i {
        ChallengeWeight(s, limit, i, p + 1, signs, c, n);
      } else {
        var v := 1 - 2 * (signs % 2);
        InProgressLength(c, i, n);
        PlacedKeeps(c, i, Num(s(p)), v, n);
        ChallengeWeight(s, limit, i + 1, p + 1, signs / 2, Placed(c, i, Num(s(p)), v), n + 1);
      }
    }
  }

  lemma InProgressDone(c: seq<int>, n: nat)
    requires InProgress(c, N, n)
    ensures Ternary(c) && Weight(c) == n
  {
  }

  lemma InProgressLength(c: seq<int>, i: nat, n: nat)
    requires InProgress(c, i, n)
    ensures |c| == N
  {
  }

  lemma {:induction false} ZeroWeight(n: nat)
    ensures Weight(seq(n, _ => 0)) == 0
  {
    if n > 0 {
      assert seq(n, _ => 0)[1..] == seq(n - 1, _ => 0);
      ZeroWeight(n - 1);
    }
  }

  /** Exactly tau coefficients are 1 or -1, whatever the stream holds. */
  lemma ChallengeIsSparse(s: Stream, limit: nat, tau: nat)
    requires tau <= 64 && Challenge(s, limit, tau) != []
    ensures |Challenge(s, limit, tau)| == N && Ternary(Challenge(s, limit, tau))
         && Weight(Challenge(s, limit, tau)) == tau
  {
    hide Weight, ChallengeFrom;
    ZeroWeight(N);
    ChallengeWeight(s, limit, N - tau, 8, Little(Bytes(s, 0, 8)), seq(N, _ => 0), 0);
  }

  lemma {:induction false} LongerPrefix(s: Stream, m: nat, n: nat, i: nat, p: nat, signs: nat, c: seq<int>)
    requires i <= N == |c| && m <= n && ChallengeFrom(s, m, i, p, signs, c) != []
    ensures ChallengeFrom(s, n, i, p, signs, c) == ChallengeFrom(s, m, i, p, signs, c)
    decreases N - i, m - p
  {
    hide Num, Placed;
    if i < N && p < m {
      if Num(s(p)) > i {
        LongerPrefix(s, m, n, i, p + 1, signs, c);
      } else {
        LongerPrefix(s, m, n, i + 1, p + 1, signs / 2, Placed(c, i, Num(s(p)), 1 - 2 * (signs % 2)));
      }
    }
  }

  /** However much of the stream is read, and in which blocks, the challenge is the same. */
  lemma ChallengeIsStable(s: Stream, m: nat, n: nat, tau: nat)
    requires tau <= 64 && Challenge(s, m, tau) != [] && Challenge(s, n, tau) != []
    ensures Challenge(s, m, tau) == Challenge(s, n, tau)
  {
    hide ChallengeFrom;
    if m <= n {
      LongerPrefix(s, m, n, N - tau, 8, Little(Bytes(s, 0, 8)), seq(N, _ => 0));
    } else {
      LongerPrefix(s, n, m, N - tau, 8, Little(Bytes(s, 0, 8)), seq(N, _ => 0));
    }
  }

  /** What is left to do from position p on leads to the challenge of any longer prefix. */
  ghost predicate Continues(s: Stream, i: nat, p: nat, signs: nat, c: seq<int>, tau: nat) {
    && i <= N == |c| && tau <= 64
    && forall m: nat :: m >= p ==> ChallengeFrom(s, m, i, p, signs, c) == Challenge(s, m, tau)
  }

  lemma Rejected(s: Stream, i: nat, p: nat, signs: nat, c: seq<int>, tau: nat)
    requires Continues(s, i, p, signs, c, tau) && i < N && Num(s(p)) > i
    ensures Continues(s, i, p + 1, signs, c, tau)
  {
    hide Num, Challenge;
    forall m: nat | m >= p + 1
      ensures ChallengeFrom(s, m, i, p + 1, signs, c) == Challenge(s, m, tau)
    {
      assert ChallengeFrom(s, m, i, p, signs, c) == ChallengeFrom(s, m, i, p + 1, signs, c);
    }
  }

  lemma AcceptedAt(s: Stream, i: nat, p: nat, signs: nat, c: seq<int>, tau: nat)
    requires Continues(s, i, p, signs, c, tau) && i < N && Num(s(p)) <= i
    ensures Continues(s, i + 1, p + 1, signs / 2, Placed(c, i, Num(s(p)), 1 - 2 * (signs % 2)), tau)
  {
    hide Num, Challenge, Placed;
    var d := Placed(c, i, Num(s(p)), 1 - 2 * (signs % 2));
    forall m: nat | m >= p + 1
      ensures ChallengeFrom(s, m, i + 1, p + 1, signs / 2, d) == Challenge(s, m, tau)
    {
      assert ChallengeFrom(s, m, i, p, signs, c) == ChallengeFrom(s, m, i + 1, p + 1, signs / 2, d);
    }
  }

  lemma Starts(s: Stream, tau: nat, c: seq<int>)
    requires tau <= 64 && c == seq(N, _ => 0)
    ensures Continues(s, N - tau, 8, Little(Bytes(s, 0, 8)), c, tau)
  {
  }

  lemma Finished(s: Stream, p: nat, signs: nat, c: seq<int>, tau: nat, read: nat)
    requires Continues(s, N, p, signs, c, tau) && p <= read
    ensures c == Challenge(s, read, tau)
  {
    hide Challenge;
    assert ChallengeFrom(s, read, N, p, signs, c) == c;
  }

  method Zero(c: array<int>)
    modifies c
    ensures c[..] == seq(c.Length, _ => 0)
  {
    for j := 0 to c.Length
      invariant forall k :: 0 <= k < j ==> c[k] == 0
    {
      c[j] := 0;
    }
  }

  /** poly_challenge: the buffer holds one block; it is refilled when used up. */
  method PolyChallenge(s: Stream, tau: nat, c: array<int>, fuel: nat) returns (ok: bool, read: nat)
    requires tau <= 64 && c.Length == N
    modifies c
    ensures ok ==> c[..] == Challenge(s, read, tau)
    ensures ok ==> Ternary(c[..]) && Weight(c[..]) == tau
  {
    hide Num, Weight, Ternary, Little, Continues, Challenge;
    var buf := Bytes(s, 0, RATE256);
    var signs: nat := Little(buf[..8]);
    assert buf[..8] == Bytes(s, 0, 8);
    var pos: nat, left: nat := 8, fuel;
    read := RATE256;
    Zero(c);
    Starts(s, tau, c[..]);
    for i := N - tau to N
      invariant 0 <= pos <= RATE256 <= read && buf == Bytes(s, read - RATE256, RATE256)
      invariant Continues(s, i, read - RATE256 + pos, signs, c[..], tau)
    {
      var b: nat := 256;
      ghost var before := c[..];
      while b > i
        invariant 0 <= pos <= RATE256 <= read && buf == Bytes(s, read - RATE256, RATE256)
        invariant c[..] == before
        invariant b > i ==> Continues(s, i, read - RATE256 + pos, signs, before, tau)
        invariant b <= i ==> Continues(s, i + 1, read - RATE256 + pos, signs / 2,
             Placed(before, i, b, 1 - 2 * (signs % 2)), tau)
        decreases left, RATE256 - pos, b
      {
        if pos >= RATE256 {
          if left == 0 {
            return false, read;
          }
          buf := Bytes(s, read, RATE256);
          read := read + RATE256;
          left := left - 1;
          pos := 0;
        }
        b := Num(buf[pos]);
        if b > i {
          Rejected(s, i, read - RATE256 + pos, signs, before, tau);
        } else {
          AcceptedAt(s, i, read - RATE256 + pos, signs, before, tau);
        }
        pos := pos + 1;
      }
      c[i] := c[b];
      c[b] := 1 - 2 * (signs % 2);
      assert c[..] == Placed(before, i, b, 1 - 2 * (signs % 2));
      signs := signs / 2;
    }
    ok := true;
    Finished(s, read - RATE256 + pos, signs, c[..], tau, read);
    ChallengeIsSparse(s, read, tau);
  }
}
