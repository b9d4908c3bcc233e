/** Lane shuffles: gathers through an index vector, and the index vectors of bitswap_perm in
    tools/pqc/mldsa/rvv_poly.c and tools/pqc/mlkem/rvv_poly.c. */
module Lanes {

  /** The gather instruction; every index used is below the number of lanes. */
  function Gathered<T>(x: seq<T>, p: seq<nat>): (r: seq<T>)
    requires forall i :: 0 <= i < |p| ==> p[i] < |x|
    ensures |r| == |p| && forall i :: 0 <= i < |p| ==> r[i] == x[p[i]]
  {
    seq(|p|, i requires 0 <= i < |p| => x[p[i]])
  }

  /** Gathering twice is gathering with the gathered indices. */
  lemma GatherTwice<T>(x: seq<T>, p: seq<nat>, s: seq<nat>)
    requires forall i :: 0 <= i < |p| ==> p[i] < |x|
    requires forall i :: 0 <= i < |s| ==> s[i] < |p|
    ensures Gathered(Gathered(x, p), s) == Gathered(x, Gathered(p, s))
  {
  }

  // ----- swapping two bits of the lane number

  /** The instructions of bitswap_perm on one lane number. (ML-DSA has 32-bit lanes, ML-KEM
      16-bit ones; lane numbers are below 32, so no bit is shifted out of either.) */
  function SwapBits(a: nat, b: nat, v: bv16): (r: bv16)
    requires a <= b < 16
  {
    var xa := ((v >> (b - a)) ^ v) & (1 << a);
    v ^ (xa ^ (xa << (b - a)))
  }

  function SwappedLane(a: nat, b: nat, i: nat): (r: nat)
    requires a <= b < 16 && i < 32
  {
    SwapBits(a, b, i as bv16) as nat
  }

  ghost predicate IsSwap(a: nat, b: nat) {
    (a, b) in {(0, 3), (1, 3), (2, 3), (1, 4), (2, 4), (3, 4)}
  }

  /** Bit n of a lane number. */
  function Bit(i: nat, n: nat): (r: nat) {
    if n == 0 then i % 2 else if n == 1 then i / 2 % 2 else if n == 2 then i / 4 % 2 else if n == 3 then i / 8 % 2
         else i / 16 % 2
  }

  function LaneCount(b: nat): (r: nat) { if b == 3 then 16 else 32 }

  function Weight(n: nat): (r: nat) { if n == 0 then 1 else if n == 1 then 2 else if n == 2 then 4 else if n == 3 then 8
       else 16 }

  lemma Lanes03()
    ensures SwappedLane(0, 3, 0) == 0 && SwappedLane(0, 3, 1) == 8 && SwappedLane(0, 3, 2) == 2
         && SwappedLane(0, 3, 3) == 10
    ensures SwappedLane(0, 3, 4) == 4 && SwappedLane(0, 3, 5) == 12 && SwappedLane(0, 3, 6) == 6
         && SwappedLane(0, 3, 7) == 14
    ensures SwappedLane(0, 3, 8) == 1 && SwappedLane(0, 3, 9) == 9 && SwappedLane(0, 3, 10) == 3
         && SwappedLane(0, 3, 11) == 11
    ensures SwappedLane(0, 3, 12) == 5 && SwappedLane(0, 3, 13) == 13 && SwappedLane(0, 3, 14) == 7
         && SwappedLane(0, 3, 15) == 15
  {
  }

  lemma Lane03(i: nat)
    requires i < 16
    ensures SwappedLane(0, 3, i) == i + 7 * (Bit(i, 0) - Bit(i, 3))
  {
    hide SwappedLane;
    Lanes03();
    assert i == 0 || i == 1 || i == 2 || i == 3 || i == 4 || i == 5 || i == 6 || i == 7 || i == 8 || i == 9 || i == 10
         || i == 11 || i == 12 || i == 13 || i == 14 || i == 15;
  }

  lemma Lanes13()
    ensures SwappedLane(1, 3, 0) == 0 && SwappedLane(1, 3, 1) == 1 && SwappedLane(1, 3, 2) == 8
         && SwappedLane(1, 3, 3) == 9
    ensures SwappedLane(1, 3, 4) == 4 && SwappedLane(1, 3, 5) == 5 && SwappedLane(1, 3, 6) == 12
         && SwappedLane(1, 3, 7) == 13
    ensures SwappedLane(1, 3, 8) == 2 && SwappedLane(1, 3, 9) == 3 && SwappedLane(1, 3, 10) == 10
         && SwappedLane(1, 3, 11) == 11
    ensures SwappedLane(1, 3, 12) == 6 && SwappedLane(1, 3, 13) == 7 && SwappedLane(1, 3, 14) == 14
         && SwappedLane(1, 3, 15) == 15
  {
  }

  lemma Lane13(i: nat)
    requires i < 16
    ensures SwappedLane(1, 3, i) == i + 6 * (Bit(i, 1) - Bit(i, 3))
  {
    hide SwappedLane;
    Lanes13();
    assert i == 0 || i == 1 || i == 2 || i == 3 || i == 4 || i == 5 || i == 6 || i == 7 || i == 8 || i == 9 || i == 10
         || i == 11 || i == 12 || i == 13 || i == 14 || i == 15;
  }

  lemma Lanes23()
    ensures SwappedLane(2, 3, 0) == 0 && SwappedLane(2, 3, 1) == 1 && SwappedLane(2, 3, 2) == 2
         && SwappedLane(2, 3, 3) == 3
    ensures SwappedLane(2, 3, 4) == 8 && SwappedLane(2, 3, 5) == 9 && SwappedLane(2, 3, 6) == 10
         && SwappedLane(2, 3, 7) == 11
    ensures SwappedLane(2, 3, 8) == 4 && SwappedLane(2, 3, 9) == 5 && SwappedLane(2, 3, 10) == 6
         && SwappedLane(2, 3, 11) == 7
    ensures SwappedLane(2, 3, 12) == 12 && SwappedLane(2, 3, 13) == 13 && SwappedLane(2, 3, 14) == 14
         && SwappedLane(2, 3, 15) == 15
  {
  }

  lemma Lane23(i: nat)
    requires i < 16
    ensures SwappedLane(2, 3, i) == i + 4 * (Bit(i, 2) - Bit(i, 3))
  {
    hide SwappedLane;
    Lanes23();
    assert i == 0 || i == 1 || i == 2 || i == 3 || i == 4 || i == 5 || i == 6 || i == 7 || i == 8 || i == 9 || i == 10
         || i == 11 || i == 12 || i == 13 || i == 14 || i == 15;
  }

  lemma Lanes14()
    ensures SwappedLane(1, 4, 0) == 0 && SwappedLane(1, 4, 1) == 1 && SwappedLane(1, 4, 2) == 16
         && SwappedLane(1, 4, 3) == 17
    ensures SwappedLane(1, 4, 4) == 4 && SwappedLane(1, 4, 5) == 5 && SwappedLane(1, 4, 6) == 20
         && SwappedLane(1, 4, 7) == 21
    ensures SwappedLane(1, 4, 8) == 8 && SwappedLane(1, 4, 9) == 9 && SwappedLane(1, 4, 10) == 24
         && SwappedLane(1, 4, 11) == 25
    ensures SwappedLane(1, 4, 12) == 12 && SwappedLane(1, 4, 13) == 13 && SwappedLane(1, 4, 14) == 28
         && SwappedLane(1, 4, 15) == 29
    ensures SwappedLane(1, 4, 16) == 2 && SwappedLane(1, 4, 17) == 3 && SwappedLane(1, 4, 18) == 18
         && SwappedLane(1, 4, 19) == 19
    ensures SwappedLane(1, 4, 20) == 6 && SwappedLane(1, 4, 21) == 7 && SwappedLane(1, 4, 22) == 22
         && SwappedLane(1, 4, 23) == 23
    ensures SwappedLane(1, 4, 24) == 10 && SwappedLane(1, 4, 25) == 11 && SwappedLane(1, 4, 26) == 26
         && SwappedLane(1, 4, 27) == 27
    ensures SwappedLane(1, 4, 28) == 14 && SwappedLane(1, 4, 29) == 15 && SwappedLane(1, 4, 30) == 30
         && SwappedLane(1, 4, 31) == 31
  {
  }

  lemma Lane14(i: nat)
    requires i < 32
    ensures SwappedLane(1, 4, i) == i + 14 * (Bit(i, 1) - Bit(i, 4))
  {
    hide SwappedLane;
    Lanes14();
    assert i == 0 || i == 1 || i == 2 || i == 3 || i == 4 || i == 5 || i == 6 || i == 7 || i == 8 || i == 9 || i == 10
         || i == 11 || i == 12 || i == 13 || i == 14 || i == 15 || i == 16 || i == 17 || i == 18 || i == 19 || i == 20
            || i == 21 || i == 22 || i == 23 || i == 24 || i == 25 || i == 26 || i == 27 || i == 28 || i == 29
               || i == 30 || i == 31;
  }

  lemma Lanes24()
    ensures SwappedLane(2, 4, 0) == 0 && SwappedLane(2, 4, 1) == 1 && SwappedLane(2, 4, 2) == 2
         && SwappedLane(2, 4, 3) == 3
    ensures SwappedLane(2, 4, 4) == 16 && SwappedLane(2, 4, 5) == 17 && SwappedLane(2, 4, 6) == 18
         && SwappedLane(2, 4, 7) == 19
    ensures SwappedLane(2, 4, 8) == 8 && SwappedLane(2, 4, 9) == 9 && SwappedLane(2, 4, 10) == 10
         && SwappedLane(2, 4, 11) == 11
    ensures SwappedLane(2, 4, 12) == 24 && SwappedLane(2, 4, 13) == 25 && SwappedLane(2, 4, 14) == 26
         && SwappedLane(2, 4, 15) == 27
    ensures SwappedLane(2, 4, 16) == 4 && SwappedLane(2, 4, 17) == 5 && SwappedLane(2, 4, 18) == 6
         && SwappedLane(2, 4, 19) == 7
    ensures SwappedLane(2, 4, 20) == 20 && SwappedLane(2, 4, 21) == 21 && SwappedLane(2, 4, 22) == 22
         && SwappedLane(2, 4, 23) == 23
    ensures SwappedLane(2, 4, 24) == 12 && SwappedLane(2, 4, 25) == 13 && SwappedLane(2, 4, 26) == 14
         && SwappedLane(2, 4, 27) == 15
    ensures SwappedLane(2, 4, 28) == 28 && SwappedLane(2, 4, 29) == 29 && SwappedLane(2, 4, 30) == 30
         && SwappedLane(2, 4, 31) == 31
  {
  }

  lemma Lane24(i: nat)
    requires i < 32
    ensures SwappedLane(2, 4, i) == i + 12 * (Bit(i, 2) - Bit(i, 4))
  {
    hide SwappedLane;
    Lanes24();
    assert i == 0 || i == 1 || i == 2 || i == 3 || i == 4 || i == 5 || i == 6 || i == 7 || i == 8 || i == 9 || i == 10
         || i == 11 || i == 12 || i == 13 || i == 14 || i == 15 || i == 16 || i == 17 || i == 18 || i == 19 || i == 20
            || i == 21 || i == 22 || i == 23 || i == 24 || i == 25 || i == 26 || i == 27 || i == 28 || i == 29
               || i == 30 || i == 31;
  }

  lemma Lanes34()
    ensures SwappedLane(3, 4, 0) == 0 && SwappedLane(3, 4, 1) == 1 && SwappedLane(3, 4, 2) == 2
         && SwappedLane(3, 4, 3) == 3
    ensures SwappedLane(3, 4, 4) == 4 && SwappedLane(3, 4, 5) == 5 && SwappedLane(3, 4, 6) == 6
         && SwappedLane(3, 4, 7) == 7
    ensures SwappedLane(3, 4, 8) == 16 && SwappedLane(3, 4, 9) == 17 && SwappedLane(3, 4, 10) == 18
         && SwappedLane(3, 4, 11) == 19
    ensures SwappedLane(3, 4, 12) == 20 && SwappedLane(3, 4, 13) == 21 && SwappedLane(3, 4, 14) == 22
         && SwappedLane(3, 4, 15) == 23
    ensures SwappedLane(3, 4, 16) == 8 && SwappedLane(3, 4, 17) == 9 && SwappedLane(3, 4, 18) == 10
         && SwappedLane(3, 4, 19) == 11
    ensures SwappedLane(3, 4, 20) == 12 && SwappedLane(3, 4, 21) == 13 && SwappedLane(3, 4, 22) == 14
         && SwappedLane(3, 4, 23) == 15
    ensures SwappedLane(3, 4, 24) == 24 && SwappedLane(3, 4, 25) == 25 && SwappedLane(3, 4, 26) == 26
         && SwappedLane(3, 4, 27) == 27
    ensures SwappedLane(3, 4, 28) == 28 && SwappedLane(3, 4, 29) == 29 && SwappedLane(3, 4, 30) == 30
         && SwappedLane(3, 4, 31) == 31
  {
  }

  lemma Lane34(i: nat)
    requires i < 32
    ensures SwappedLane(3, 4, i) == i + 8 * (Bit(i, 3) - Bit(i, 4))
  {
    hide SwappedLane;
    Lanes34();
    assert i == 0 || i == 1 || i == 2 || i == 3 || i == 4 || i == 5 || i == 6 || i == 7 || i == 8 || i == 9 || i == 10
         || i == 11 || i == 12 || i == 13 || i == 14 || i == 15 || i == 16 || i == 17 || i == 18 || i == 19 || i == 20
            || i == 21 || i == 22 || i == 23 || i == 24 || i == 25 || i == 26 || i == 27 || i == 28 || i == 29
               || i == 30 || i == 31;
  }

  /** Bits a and b change places, the others stay. */
  ghost predicate Swapped(a: nat, b: nat, i: nat, r: nat) {
    && Bit(r, a) == Bit(i, b) && Bit(r, b) == Bit(i, a)
    && (forall n: nat :: n < 5 && n != a && n != b ==> Bit(r, n) == Bit(i, n))
  }

  lemma BitsOf(i: nat, b0: nat, b1: nat, b2: nat, b3: nat, b4: nat)
    requires b0 < 2 && b1 < 2 && b2 < 2 && b3 < 2 && b4 < 2 && i == b0 + 2 * b1 + 4 * b2 + 8 * b3 + 16 * b4
    ensures Bit(i, 0) == b0 && Bit(i, 1) == b1 && Bit(i, 2) == b2 && Bit(i, 3) == b3
    ensures forall n: nat :: n > 3 ==> Bit(i, n) == b4
  {
    assert i / 2 == b1 + 2 * b2 + 4 * b3 + 8 * b4;
    assert i / 4 == b2 + 2 * b3 + 4 * b4;
    assert i / 8 == b3 + 2 * b4;
    assert i / 16 == b4;
  }

  lemma FromBits(i: nat)
    requires i < 32
    ensures i == Bit(i, 0) + 2 * Bit(i, 1) + 4 * Bit(i, 2) + 8 * Bit(i, 3) + 16 * Bit(i, 4)
    ensures forall n: nat :: Bit(i, n) < 2
  {
  }

  lemma Swap03(i: nat)
    requires i < 16
    ensures Swapped(0, 3, i, SwappedLane(0, 3, i)) && SwappedLane(0, 3, i) < 16
  {
    Lane03(i);
    hide SwappedLane, Bit;
    FromBits(i);
    BitsOf(SwappedLane(0, 3, i), Bit(i, 3), Bit(i, 1), Bit(i, 2), Bit(i, 0), Bit(i, 4));
  }

  lemma Swap13(i: nat)
    requires i < 16
    ensures Swapped(1, 3, i, SwappedLane(1, 3, i)) && SwappedLane(1, 3, i) < 16
  {
    Lane13(i);
    hide SwappedLane, Bit;
    FromBits(i);
    BitsOf(SwappedLane(1, 3, i), Bit(i, 0), Bit(i, 3), Bit(i, 2), Bit(i, 1), Bit(i, 4));
  }

  lemma Swap23(i: nat)
    requires i < 16
    ensures Swapped(2, 3, i, SwappedLane(2, 3, i)) && SwappedLane(2, 3, i) < 16
  {
    Lane23(i);
    hide SwappedLane, Bit;
    FromBits(i);
    BitsOf(SwappedLane(2, 3, i), Bit(i, 0), Bit(i, 1), Bit(i, 3), Bit(i, 2), Bit(i, 4));
  }

  lemma Swap14(i: nat)
    requires i < 32
    ensures Swapped(1, 4, i, SwappedLane(1, 4, i)) && SwappedLane(1, 4, i) < 32
  {
    Lane14(i);
    hide SwappedLane, Bit;
    FromBits(i);
    BitsOf(SwappedLane(1, 4, i), Bit(i, 0), Bit(i, 4), Bit(i, 2), Bit(i, 3), Bit(i, 1));
  }

  lemma Swap24(i: nat)
    requires i < 32
    ensures Swapped(2, 4, i, SwappedLane(2, 4, i)) && SwappedLane(2, 4, i) < 32
  {
    Lane24(i);
    hide SwappedLane, Bit;
    FromBits(i);
    BitsOf(SwappedLane(2, 4, i), Bit(i, 0), Bit(i, 1), Bit(i, 4), Bit(i, 3), Bit(i, 2));
  }

  lemma Swap34(i: nat)
    requires i < 32
    ensures Swapped(3, 4, i, SwappedLane(3, 4, i)) && SwappedLane(3, 4, i) < 32
  {
    Lane34(i);
    hide SwappedLane, Bit;
    FromBits(i);
    BitsOf(SwappedLane(3, 4, i), Bit(i, 0), Bit(i, 1), Bit(i, 2), Bit(i, 4), Bit(i, 3));
  }

  lemma BitswapSwaps(a: nat, b: nat, i: nat)
    requires IsSwap(a, b) && i < LaneCount(b)
    ensures Swapped(a, b, i, SwappedLane(a, b, i)) && SwappedLane(a, b, i) < LaneCount(b)
    ensures SwappedLane(a, b, i) - i == (Weight(b) - Weight(a)) * (Bit(i, a) - Bit(i, b))
  {
    hide SwappedLane, Bit, Swapped;
    if a == 0 && b == 3 {
      Swap03(i);
      Lane03(i);
    } else if a == 1 && b == 3 {
      Swap13(i);
      Lane13(i);
    } else if a == 2 && b == 3 {
      Swap23(i);
      Lane23(i);
    } else if a == 1 && b == 4 {
      Swap14(i);
      Lane14(i);
    } else if a == 2 && b == 4 {
      Swap24(i);
      Lane24(i);
    } else if a == 3 && b == 4 {
      Swap34(i);
      Lane34(i);
    }
  }

  /** The index vector of bitswap_perm(a, b). */
  function BitswapPerm(a: nat, b: nat, vl: nat): (r: seq<nat>)
    requires IsSwap(a, b) && vl == LaneCount(b)
    ensures |r| == vl && forall i :: 0 <= i < vl ==> r[i] == SwappedLane(a, b, i) && r[i] < vl
  {
    AllBelow(a, b);
    seq(vl, i requires 0 <= i < vl => SwappedLane(a, b, i))
  }

  lemma AllBelow(a: nat, b: nat)
    requires IsSwap(a, b)
    ensures forall i: nat :: i < LaneCount(b) ==> SwappedLane(a, b, i) < LaneCount(b)
  {
    hide SwappedLane;
    forall i: nat | i < LaneCount(b)
      ensures SwappedLane(a, b, i) < LaneCount(b)
    {
      BitswapSwaps(a, b, i);
    }
  }

  /** It swaps two bits of the lane number, and gathering through it twice puts every lane back. */
  lemma BitswapTwice<T>(x: seq<T>, a: nat, b: nat)
    requires IsSwap(a, b) && |x| == LaneCount(b)
    ensures Gathered(Gathered(x, BitswapPerm(a, b, |x|)), BitswapPerm(a, b, |x|)) == x
  {
    hide SwappedLane, Bit, IsSwap, BitswapPerm;
    var p := BitswapPerm(a, b, |x|);
    GatherTwice(x, p, p);
    forall i: nat | i < |x|
      ensures p[p[i]] == i
    {
      BitswapSwaps(a, b, i);
      BitswapSwaps(a, b, p[i]);
      Opposite(Weight(b) - Weight(a), Bit(i, a), Bit(i, b));
    }
  }

  lemma Opposite(c: int, x: int, y: int)
    ensures c * (x - y) + c * (y - x) == 0
  {
  }
}
