/** tools/pqc/mlkem/cbd.c and cbd_rvv.c: centred binomial sampling. The bit-sliced sums,
    per 32-bit or 24-bit word and per byte, all count the same bits. */
module Cbd {
  import opened Polynomials
  import opened Words

  /** Bit j of a byte. */
  function ByteBit(b: byte, j: nat): (r: bv32) {
    var w := b as bv32;
    if j == 0 then w & 1 else if j == 1 then (w >> 1) & 1 else if j == 2 then (w >> 2) & 1 else if j == 3 then
         (w >> 3) & 1
    else if j == 4 then (w >> 4) & 1 else if j == 5 then (w >> 5) & 1 else if j == 6 then (w >> 6) & 1 else (w >> 7) & 1
  }

  /** A count kept in three bits. */
  function Small(w: bv32): (r: int) {
    if w == 0 then 0 else if w == 1 then 1 else if w == 2 then 2 else if w == 3 then 3
    else if w == 4 then 4 else if w == 5 then 5 else if w == 6 then 6 else 7
  }

  // ----- eta == 2: section 4.2.2 of FIPS 203, four bits for each coefficient

  /** The coefficient of the low (h == 0) or high (h == 1) half of byte b. */
  function Nibble(b: byte, h: nat): (r: int) {
    Small(ByteBit(b, 4 * h)) + Small(ByteBit(b, 4 * h + 1)) - Small(ByteBit(b, 4 * h + 2)) - Small(ByteBit(b,
         4 * h + 3))
  }

  function Cbd2(buf: seq<byte>): (r: Poly)
    requires |buf| == 128
    ensures |r| == N
  {
    seq(N, i requires 0 <= i < N => Nibble(buf[i / 2], i % 2))
  }

  function Load32(x: seq<byte>): (r: bv32)
    requires |x| == 4
  {
    (x[0] as bv32) | ((x[1] as bv32) << 8) | ((x[2] as bv32) << 16) | ((x[3] as bv32) << 24)
  }

  function Plus(p: bv32, q: bv32): (r: bv32) { p + q }

  function Plus3(p: bv32, q: bv32, r: bv32): (s: bv32) { p + q + r }

  function Sums2(t: bv32): (r: bv32) { (t & 0x5555_5555) + ((t >> 1) & 0x5555_5555) }

  /** Coefficient j of a word: the difference of two fields of two bits. */
  function Field2(d: bv32, j: nat): (r: int) {
    if j == 0 then Small(d & 3) - Small((d >> 2) & 3)
    else if j == 1 then Small((d >> 4) & 3) - Small((d >> 6) & 3)
    else if j == 2 then Small((d >> 8) & 3) - Small((d >> 10) & 3)
    else if j == 3 then Small((d >> 12) & 3) - Small((d >> 14) & 3)
    else if j == 4 then Small((d >> 16) & 3) - Small((d >> 18) & 3)
    else if j == 5 then Small((d >> 20) & 3) - Small((d >> 22) & 3)
    else if j == 6 then Small((d >> 24) & 3) - Small((d >> 26) & 3)
    else Small((d >> 28) & 3) - Small((d >> 30) & 3)
  }

  lemma PairSums0(t: bv32)
    ensures Sums2(t) & 3 == Plus(t & 1, (t >> 1) & 1)
    ensures (Sums2(t) >> 2) & 3 == Plus((t >> 2) & 1, (t >> 3) & 1)
    ensures (Sums2(t) >> 4) & 3 == Plus((t >> 4) & 1, (t >> 5) & 1)
    ensures (Sums2(t) >> 6) & 3 == Plus((t >> 6) & 1, (t >> 7) & 1)
  {
  }

  lemma PairSums1(t: bv32)
    ensures (Sums2(t) >> 8) & 3 == Plus((t >> 8) & 1, (t >> 9) & 1)
    ensures (Sums2(t) >> 10) & 3 == Plus((t >> 10) & 1, (t >> 11) & 1)
    ensures (Sums2(t) >> 12) & 3 == Plus((t >> 12) & 1, (t >> 13) & 1)
    ensures (Sums2(t) >> 14) & 3 == Plus((t >> 14) & 1, (t >> 15) & 1)
  {
  }

  lemma PairSums2(t: bv32)
    ensures (Sums2(t) >> 16) & 3 == Plus((t >> 16) & 1, (t >> 17) & 1)
    ensures (Sums2(t) >> 18) & 3 == Plus((t >> 18) & 1, (t >> 19) & 1)
    ensures (Sums2(t) >> 20) & 3 == Plus((t >> 20) & 1, (t >> 21) & 1)
    ensures (Sums2(t) >> 22) & 3 == Plus((t >> 22) & 1, (t >> 23) & 1)
  {
  }

  lemma PairSums3(t: bv32)
    ensures (Sums2(t) >> 24) & 3 == Plus((t >> 24) & 1, (t >> 25) & 1)
    ensures (Sums2(t) >> 26) & 3 == Plus((t >> 26) & 1, (t >> 27) & 1)
    ensures (Sums2(t) >> 28) & 3 == Plus((t >> 28) & 1, (t >> 29) & 1)
    ensures (Sums2(t) >> 30) & 3 == Plus((t >> 30) & 1, (t >> 31) & 1)
  {
  }

  /** The bits of a little-endian word are the bits of its bytes. */
  lemma WordBits0(x: seq<byte>)
    requires |x| == 4
    ensures Load32(x) & 1 == ByteBit(x[0], 0)
    ensures (Load32(x) >> 1) & 1 == ByteBit(x[0], 1)
    ensures (Load32(x) >> 2) & 1 == ByteBit(x[0], 2)
    ensures (Load32(x) >> 3) & 1 == ByteBit(x[0], 3)
    ensures (Load32(x) >> 4) & 1 == ByteBit(x[0], 4)
    ensures (Load32(x) >> 5) & 1 == ByteBit(x[0], 5)
    ensures (Load32(x) >> 6) & 1 == ByteBit(x[0], 6)
    ensures (Load32(x) >> 7) & 1 == ByteBit(x[0], 7)
  {
  }

  lemma WordBits1(x: seq<byte>)
    requires |x| == 4
    ensures (Load32(x) >> 8) & 1 == ByteBit(x[1], 0)
    ensures (Load32(x) >> 9) & 1 == ByteBit(x[1], 1)
    ensures (Load32(x) >> 10) & 1 == ByteBit(x[1], 2)
    ensures (Load32(x) >> 11) & 1 == ByteBit(x[1], 3)
    ensures (Load32(x) >> 12) & 1 == ByteBit(x[1], 4)
    ensures (Load32(x) >> 13) & 1 == ByteBit(x[1], 5)
    ensures (Load32(x) >> 14) & 1 == ByteBit(x[1], 6)
    ensures (Load32(x) >> 15) & 1 == ByteBit(x[1], 7)
  {
  }

  lemma WordBits2(x: seq<byte>)
    requires |x| == 4
    ensures (Load32(x) >> 16) & 1 == ByteBit(x[2], 0)
    ensures (Load32(x) >> 17) & 1 == ByteBit(x[2], 1)
    ensures (Load32(x) >> 18) & 1 == ByteBit(x[2], 2)
    ensures (Load32(x) >> 19) & 1 == ByteBit(x[2], 3)
    ensures (Load32(x) >> 20) & 1 == ByteBit(x[2], 4)
    ensures (Load32(x) >> 21) & 1 == ByteBit(x[2], 5)
    ensures (Load32(x) >> 22) & 1 == ByteBit(x[2], 6)
    ensures (Load32(x) >> 23) & 1 == ByteBit(x[2], 7)
  {
  }

  lemma WordBits3(x: seq<byte>)
    requires |x| == 4
    ensures (Load32(x) >> 24) & 1 == ByteBit(x[3], 0)
    ensures (Load32(x) >> 25) & 1 == ByteBit(x[3], 1)
    ensures (Load32(x) >> 26) & 1 == ByteBit(x[3], 2)
    ensures (Load32(x) >> 27) & 1 == ByteBit(x[3], 3)
    ensures (Load32(x) >> 28) & 1 == ByteBit(x[3], 4)
    ensures (Load32(x) >> 29) & 1 == ByteBit(x[3], 5)
    ensures (Load32(x) >> 30) & 1 == ByteBit(x[3], 6)
    ensures (Load32(x) >> 31) & 1 == ByteBit(x[3], 7)
  {
  }

  lemma SmallSum(p: bv32, q: bv32)
    requires (p == 0 || p == 1) && (q == 0 || q == 1)
    ensures Small(Plus(p, q)) == Small(p) + Small(q)
  {
  }

  lemma IsBit(b: byte, j: nat)
    ensures ByteBit(b, j) == 0 || ByteBit(b, j) == 1
  {
  }

  lemma BitSum(b: byte, i: nat, j: nat)
    ensures Small(Plus(ByteBit(b, i), ByteBit(b, j))) == Small(ByteBit(b, i)) + Small(ByteBit(b, j))
  {
    hide ByteBit, Small, Plus;
    IsBit(b, i);
    IsBit(b, j);
    SmallSum(ByteBit(b, i), ByteBit(b, j));
  }

  lemma TwoSums(b: byte, h: nat, p: bv32, q: bv32)
    requires p == Plus(ByteBit(b, 4 * h), ByteBit(b, 4 * h + 1))
    requires q == Plus(ByteBit(b, 4 * h + 2), ByteBit(b, 4 * h + 3))
    ensures Small(p) - Small(q) == Nibble(b, h)
  {
    hide ByteBit, Small, Plus;
    BitSum(b, 4 * h, 4 * h + 1);
    BitSum(b, 4 * h + 2, 4 * h + 3);
  }

  lemma WordSums0(x: seq<byte>)
    requires |x| == 4
    ensures Sums2(Load32(x)) & 3 == Plus(ByteBit(x[0], 0), ByteBit(x[0], 1))
    ensures (Sums2(Load32(x)) >> 2) & 3 == Plus(ByteBit(x[0], 2), ByteBit(x[0], 3))
    ensures (Sums2(Load32(x)) >> 4) & 3 == Plus(ByteBit(x[0], 4), ByteBit(x[0], 5))
    ensures (Sums2(Load32(x)) >> 6) & 3 == Plus(ByteBit(x[0], 6), ByteBit(x[0], 7))
  {
    hide Sums2, Load32, ByteBit, Plus;
    PairSums0(Load32(x));
    WordBits0(x);
  }

  lemma WordSums1(x: seq<byte>)
    requires |x| == 4
    ensures (Sums2(Load32(x)) >> 8) & 3 == Plus(ByteBit(x[1], 0), ByteBit(x[1], 1))
    ensures (Sums2(Load32(x)) >> 10) & 3 == Plus(ByteBit(x[1], 2), ByteBit(x[1], 3))
    ensures (Sums2(Load32(x)) >> 12) & 3 == Plus(ByteBit(x[1], 4), ByteBit(x[1], 5))
    ensures (Sums2(Load32(x)) >> 14) & 3 == Plus(ByteBit(x[1], 6), ByteBit(x[1], 7))
  {
    hide Sums2, Load32, ByteBit, Plus;
    PairSums1(Load32(x));
    WordBits1(x);
  }

  lemma WordSums2(x: seq<byte>)
    requires |x| == 4
    ensures (Sums2(Load32(x)) >> 16) & 3 == Plus(ByteBit(x[2], 0), ByteBit(x[2], 1))
    ensures (Sums2(Load32(x)) >> 18) & 3 == Plus(ByteBit(x[2], 2), ByteBit(x[2], 3))
    ensures (Sums2(Load32(x)) >> 20) & 3 == Plus(ByteBit(x[2], 4), ByteBit(x[2], 5))
    ensures (Sums2(Load32(x)) >> 22) & 3 == Plus(ByteBit(x[2], 6), ByteBit(x[2], 7))
  {
    hide Sums2, Load32, ByteBit, Plus;
    PairSums2(Load32(x));
    WordBits2(x);
  }

  lemma WordSums3(x: seq<byte>)
    requires |x| == 4
    ensures (Sums2(Load32(x)) >> 24) & 3 == Plus(ByteBit(x[3], 0), ByteBit(x[3], 1))
    ensures (Sums2(Load32(x)) >> 26) & 3 == Plus(ByteBit(x[3], 2), ByteBit(x[3], 3))
    ensures (Sums2(Load32(x)) >> 28) & 3 == Plus(ByteBit(x[3], 4), ByteBit(x[3], 5))
    ensures (Sums2(Load32(x)) >> 30) & 3 == Plus(ByteBit(x[3], 6), ByteBit(x[3], 7))
  {
    hide Sums2, Load32, ByteBit, Plus;
    PairSums3(Load32(x));
    WordBits3(x);
  }

  lemma WordByte0(x: seq<byte>, d: bv32)
    requires |x| == 4 && d == Sums2(Load32(x))
    ensures Small(d & 3) - Small((d >> 2) & 3) == Nibble(x[0], 0)
    ensures Small((d >> 4) & 3) - Small((d >> 6) & 3) == Nibble(x[0], 1)
  {
    hide Sums2, Load32, ByteBit, Small, Nibble, Plus;
    WordSums0(x);
    TwoSums(x[0], 0, d & 3, (d >> 2) & 3);
    TwoSums(x[0], 1, (d >> 4) & 3, (d >> 6) & 3);
  }

  lemma WordByte1(x: seq<byte>, d: bv32)
    requires |x| == 4 && d == Sums2(Load32(x))
    ensures Small((d >> 8) & 3) - Small((d >> 10) & 3) == Nibble(x[1], 0)
    ensures Small((d >> 12) & 3) - Small((d >> 14) & 3) == Nibble(x[1], 1)
  {
    hide Sums2, Load32, ByteBit, Small, Nibble, Plus;
    WordSums1(x);
    TwoSums(x[1], 0, (d >> 8) & 3, (d >> 10) & 3);
    TwoSums(x[1], 1, (d >> 12) & 3, (d >> 14) & 3);
  }

  lemma WordByte2(x: seq<byte>, d: bv32)
    requires |x| == 4 && d == Sums2(Load32(x))
    ensures Small((d >> 16) & 3) - Small((d >> 18) & 3) == Nibble(x[2], 0)
    ensures Small((d >> 20) & 3) - Small((d >> 22) & 3) == Nibble(x[2], 1)
  {
    hide Sums2, Load32, ByteBit, Small, Nibble, Plus;
    WordSums2(x);
    TwoSums(x[2], 0, (d >> 16) & 3, (d >> 18) & 3);
    TwoSums(x[2], 1, (d >> 20) & 3, (d >> 22) & 3);
  }

  lemma WordByte3(x: seq<byte>, d: bv32)
    requires |x| == 4 && d == Sums2(Load32(x))
    ensures Small((d >> 24) & 3) - Small((d >> 26) & 3) == Nibble(x[3], 0)
    ensures Small((d >> 28) & 3) - Small((d >> 30) & 3) == Nibble(x[3], 1)
  {
    hide Sums2, Load32, ByteBit, Small, Nibble, Plus;
    WordSums3(x);
    TwoSums(x[3], 0, (d >> 24) & 3, (d >> 26) & 3);
    TwoSums(x[3], 1, (d >> 28) & 3, (d >> 30) & 3);
  }

  lemma Counted2(x: seq<byte>, j: nat)
    requires |x| == 4 && j < 8
    ensures Field2(Sums2(Load32(x)), j) == Nibble(x[j / 2], j % 2)
  {
    hide Sums2, Load32, Small, Nibble;
    var d := Sums2(Load32(x));
    if j < 2 {
      WordByte0(x, d);
    } else if j < 4 {
      WordByte1(x, d);
    } else if j < 6 {
      WordByte2(x, d);
    } else {
      WordByte3(x, d);
    }
  }

  method Cbd2Loop(r: array<int>, buf: seq<byte>)
    requires r.Length == N && |buf| == 128
    modifies r
    ensures r[..] == Cbd2(buf)
  {
    hide Field2, Sums2, Load32, Nibble;
    for i := 0 to 32
      invariant forall k :: 0 <= k < 8 * i ==> r[k] == Cbd2(buf)[k]
    {
      var d := Sums2(Load32(buf[4 * i..4 * i + 4]));
      for j := 0 to 8
        invariant forall k :: 0 <= k < 8 * i + j ==> r[k] == Cbd2(buf)[k]
      {
        Counted2(buf[4 * i..4 * i + 4], j);
        r[8 * i + j] := Field2(d, j);
        assert (8 * i + j) / 2 == 4 * i + j / 2 && (8 * i + j) % 2 == j % 2;
      }
    }
  }

  lemma NibbleRange(b: byte, h: nat)
    ensures -2 <= Nibble(b, h) <= 2
  {
    hide ByteBit;
    IsBit(b, 4 * h);
    IsBit(b, 4 * h + 1);
    IsBit(b, 4 * h + 2);
    IsBit(b, 4 * h + 3);
  }

  // ----- the vector form for eta == 2: sixteen bytes at a time

  /** The value of a byte read as int8_t. */
  function Signed8(b: byte): (r: int) { if Num(b) < 128 then Num(b) else Num(b) - 256 }

  function ByteSums(b: byte): (r: byte) { (b & 0x55) + ((b >> 1) & 0x55) }

  /** The two coefficients of one lane; the second difference needs no mask. */
  function LowLane(b: byte): (r: int) { Signed8((ByteSums(b) & 3) - ((ByteSums(b) >> 2) & 3)) }

  function HighLane(b: byte): (r: int) { Signed8(((ByteSums(b) >> 4) & 3) - (ByteSums(b) >> 6)) }

  function Small8(w: byte): (r: int) {
    if w == 0 then 0 else if w == 1 then 1 else if w == 2 then 2 else 3
  }

  lemma SignedDifference8(p: byte, q: byte)
    requires (p == 0 || p == 1 || p == 2) && (q == 0 || q == 1 || q == 2)
    ensures Signed8(p - q) == Small8(p) - Small8(q)
  {
    assert (1 as byte) - 2 == 0xFF && (0 as byte) - 1 == 0xFF && (0 as byte) - 2 == 0xFE;
  }

  lemma ByteSumFields(b: byte)
    ensures ByteSums(b) & 3 == 0 || ByteSums(b) & 3 == 1 || ByteSums(b) & 3 == 2
    ensures (ByteSums(b) >> 2) & 3 == 0 || (ByteSums(b) >> 2) & 3 == 1 || (ByteSums(b) >> 2) & 3 == 2
    ensures (ByteSums(b) >> 4) & 3 == 0 || (ByteSums(b) >> 4) & 3 == 1 || (ByteSums(b) >> 4) & 3 == 2
    ensures ByteSums(b) >> 6 == 0 || ByteSums(b) >> 6 == 1 || ByteSums(b) >> 6 == 2
  {
  }

  lemma ByteSumCounts(b: byte)
    ensures Small8(ByteSums(b) & 3) == Small(ByteBit(b, 0)) + Small(ByteBit(b, 1))
    ensures Small8((ByteSums(b) >> 2) & 3) == Small(ByteBit(b, 2)) + Small(ByteBit(b, 3))
    ensures Small8((ByteSums(b) >> 4) & 3) == Small(ByteBit(b, 4)) + Small(ByteBit(b, 5))
    ensures Small8(ByteSums(b) >> 6) == Small(ByteBit(b, 6)) + Small(ByteBit(b, 7))
  {
  }

  lemma LanesCount(b: byte)
    ensures LowLane(b) == Nibble(b, 0) && HighLane(b) == Nibble(b, 1)
  {
    hide ByteSums, ByteBit, Small, Small8, Signed8;
    ByteSumFields(b);
    ByteSumCounts(b);
    SignedDifference8(ByteSums(b) & 3, (ByteSums(b) >> 2) & 3);
    SignedDifference8((ByteSums(b) >> 4) & 3, ByteSums(b) >> 6);
  }

  /** cbd2_rvv: the interleaving store puts the two coefficients of a byte side by side. */
  method Cbd2Vector(r: array<int>, buf: seq<byte>)
    requires r.Length == N && |buf| == 128
    modifies r
    ensures r[..] == Cbd2(buf)
  {
    hide LowLane, HighLane, Nibble;
    for i := 0 to 8
      invariant forall k :: 0 <= k < 32 * i ==> r[k] == Cbd2(buf)[k]
    {
      for l := 0 to 16
        invariant forall k :: 0 <= k < 32 * i + 2 * l ==> r[k] == Cbd2(buf)[k]
      {
        var b := buf[16 * i + l];
        LanesCount(b);
        var k := 32 * i + 2 * l;
        assert k / 2 == 16 * i + l && k % 2 == 0 && (k + 1) / 2 == 16 * i + l && (k + 1) % 2 == 1;
        r[k] := LowLane(b);
        r[k + 1] := HighLane(b);
      }
    }
  }

  // ----- eta == 3: six bits for each coefficient

  function Load24(x: seq<byte>): (r: bv32)
    requires |x| == 3
  {
    (x[0] as bv32) | ((x[1] as bv32) << 8) | ((x[2] as bv32) << 16)
  }

  /** Coefficient j of a group of three bytes. */
  function Sextet(x: seq<byte>, j: nat): (r: int)
    requires |x| == 3 && j < 4
  {
    GroupBit(x, 6 * j) + GroupBit(x, 6 * j + 1) + GroupBit(x, 6 * j + 2)
    - GroupBit(x, 6 * j + 3) - GroupBit(x, 6 * j + 4) - GroupBit(x, 6 * j + 5)
  }

  function GroupBit(x: seq<byte>, k: nat): (r: int)
    requires |x| == 3 && k < 24
  {
    Small(ByteBit(x[k / 8], k % 8))
  }

  function Cbd3(buf: seq<byte>): (r: Poly)
    requires |buf| == 192
    ensures |r| == N
  {
    seq(N, i requires 0 <= i < N => Sextet(buf[3 * (i / 4)..3 * (i / 4) + 3], i % 4))
  }

  function Sums3(t: bv32): (r: bv32) { (t & 0x24_9249) + ((t >> 1) & 0x24_9249) + ((t >> 2) & 0x24_9249) }

  /** Coefficient j of a group: the difference of two fields of three bits. */
  function Field3(d: bv32, j: nat): (r: int) {
    if j == 0 then Small(d & 7) - Small((d >> 3) & 7)
    else if j == 1 then Small((d >> 6) & 7) - Small((d >> 9) & 7)
    else if j == 2 then Small((d >> 12) & 7) - Small((d >> 15) & 7)
    else Small((d >> 18) & 7) - Small((d >> 21) & 7)
  }

  lemma TripleSums(t: bv32)
    requires t >> 24 == 0
    ensures Sums3(t) & 7 == Plus3(t & 1, (t >> 1) & 1, (t >> 2) & 1)
    ensures (Sums3(t) >> 3) & 7 == Plus3((t >> 3) & 1, (t >> 4) & 1, (t >> 5) & 1)
    ensures (Sums3(t) >> 6) & 7 == Plus3((t >> 6) & 1, (t >> 7) & 1, (t >> 8) & 1)
    ensures (Sums3(t) >> 9) & 7 == Plus3((t >> 9) & 1, (t >> 10) & 1, (t >> 11) & 1)
    ensures (Sums3(t) >> 12) & 7 == Plus3((t >> 12) & 1, (t >> 13) & 1, (t >> 14) & 1)
    ensures (Sums3(t) >> 15) & 7 == Plus3((t >> 15) & 1, (t >> 16) & 1, (t >> 17) & 1)
    ensures (Sums3(t) >> 18) & 7 == Plus3((t >> 18) & 1, (t >> 19) & 1, (t >> 20) & 1)
    ensures (Sums3(t) >> 21) & 7 == Plus3((t >> 21) & 1, (t >> 22) & 1, (t >> 23) & 1)
    ensures Sums3(t) >> 24 == 0
  {
  }

  lemma GroupWordBits(x: seq<byte>)
    requires |x| == 3
    ensures Load24(x) >> 24 == 0
    ensures Load24(x) & 1 == ByteBit(x[0], 0)
    ensures (Load24(x) >> 1) & 1 == ByteBit(x[0], 1)
    ensures (Load24(x) >> 2) & 1 == ByteBit(x[0], 2)
    ensures (Load24(x) >> 3) & 1 == ByteBit(x[0], 3)
    ensures (Load24(x) >> 4) & 1 == ByteBit(x[0], 4)
    ensures (Load24(x) >> 5) & 1 == ByteBit(x[0], 5)
    ensures (Load24(x) >> 6) & 1 == ByteBit(x[0], 6)
    ensures (Load24(x) >> 7) & 1 == ByteBit(x[0], 7)
    ensures (Load24(x) >> 8) & 1 == ByteBit(x[1], 0)
    ensures (Load24(x) >> 9) & 1 == ByteBit(x[1], 1)
    ensures (Load24(x) >> 10) & 1 == ByteBit(x[1], 2)
    ensures (Load24(x) >> 11) & 1 == ByteBit(x[1], 3)
    ensures (Load24(x) >> 12) & 1 == ByteBit(x[1], 4)
    ensures (Load24(x) >> 13) & 1 == ByteBit(x[1], 5)
    ensures (Load24(x) >> 14) & 1 == ByteBit(x[1], 6)
    ensures (Load24(x) >> 15) & 1 == ByteBit(x[1], 7)
    ensures (Load24(x) >> 16) & 1 == ByteBit(x[2], 0)
    ensures (Load24(x) >> 17) & 1 == ByteBit(x[2], 1)
    ensures (Load24(x) >> 18) & 1 == ByteBit(x[2], 2)
    ensures (Load24(x) >> 19) & 1 == ByteBit(x[2], 3)
    ensures (Load24(x) >> 20) & 1 == ByteBit(x[2], 4)
    ensures (Load24(x) >> 21) & 1 == ByteBit(x[2], 5)
    ensures (Load24(x) >> 22) & 1 == ByteBit(x[2], 6)
    ensures (Load24(x) >> 23) & 1 == ByteBit(x[2], 7)
  {
  }

  lemma SmallSum3(p: bv32, q: bv32, r: bv32)
    requires (p == 0 || p == 1) && (q == 0 || q == 1) && (r == 0 || r == 1)
    ensures Small(Plus3(p, q, r)) == Small(p) + Small(q) + Small(r)
  {
  }

  lemma SixBits(p: bv32, q: bv32, b0: bv32, b1: bv32, b2: bv32, b3: bv32, b4: bv32, b5: bv32)
    requires p == Plus3(b0, b1, b2) && q == Plus3(b3, b4, b5)
    requires (b0 == 0 || b0 == 1) && (b1 == 0 || b1 == 1) && (b2 == 0 || b2 == 1)
    requires (b3 == 0 || b3 == 1) && (b4 == 0 || b4 == 1) && (b5 == 0 || b5 == 1)
    ensures Small(p) - Small(q) == Small(b0) + Small(b1) + Small(b2) - Small(b3) - Small(b4) - Small(b5)
  {
    hide Small, Plus3;
    SmallSum3(b0, b1, b2);
    SmallSum3(b3, b4, b5);
  }

  lemma SextetSums0(x: seq<byte>, d: bv32)
    requires |x| == 3 && d == Sums3(Load24(x))
    ensures d & 7 == Plus3(ByteBit(x[0], 0), ByteBit(x[0], 1), ByteBit(x[0], 2))
    ensures (d >> 3) & 7 == Plus3(ByteBit(x[0], 3), ByteBit(x[0], 4), ByteBit(x[0], 5))
  {
    hide Sums3, Load24, ByteBit, Plus3;
    GroupWordBits(x);
    TripleSums(Load24(x));
  }

  lemma Sextet0(x: seq<byte>, d: bv32)
    requires |x| == 3 && d == Sums3(Load24(x))
    ensures Small(d & 7) - Small((d >> 3) & 7) == Sextet(x, 0)
  {
    hide Sums3, Load24, ByteBit, Small, Plus3;
    SextetSums0(x, d);
    IsBit(x[0], 0);
    IsBit(x[0], 1);
    IsBit(x[0], 2);
    IsBit(x[0], 3);
    IsBit(x[0], 4);
    IsBit(x[0], 5);
    SixBits(d & 7, (d >> 3) & 7, ByteBit(x[0], 0), ByteBit(x[0], 1), ByteBit(x[0], 2),
            ByteBit(x[0], 3), ByteBit(x[0], 4), ByteBit(x[0], 5));
  }

  lemma SextetSums1(x: seq<byte>, d: bv32)
    requires |x| == 3 && d == Sums3(Load24(x))
    ensures (d >> 6) & 7 == Plus3(ByteBit(x[0], 6), ByteBit(x[0], 7), ByteBit(x[1], 0))
    ensures (d >> 9) & 7 == Plus3(ByteBit(x[1], 1), ByteBit(x[1], 2), ByteBit(x[1], 3))
  {
    hide Sums3, Load24, ByteBit, Plus3;
    GroupWordBits(x);
    TripleSums(Load24(x));
  }

  lemma Sextet1(x: seq<byte>, d: bv32)
    requires |x| == 3 && d == Sums3(Load24(x))
    ensures Small((d >> 6) & 7) - Small((d >> 9) & 7) == Sextet(x, 1)
  {
    hide Sums3, Load24, ByteBit, Small, Plus3;
    SextetSums1(x, d);
    IsBit(x[0], 6);
    IsBit(x[0], 7);
    IsBit(x[1], 0);
    IsBit(x[1], 1);
    IsBit(x[1], 2);
    IsBit(x[1], 3);
    SixBits((d >> 6) & 7, (d >> 9) & 7, ByteBit(x[0], 6), ByteBit(x[0], 7), ByteBit(x[1], 0),
            ByteBit(x[1], 1), ByteBit(x[1], 2), ByteBit(x[1], 3));
  }

  lemma SextetSums2(x: seq<byte>, d: bv32)
    requires |x| == 3 && d == Sums3(Load24(x))
    ensures (d >> 12) & 7 == Plus3(ByteBit(x[1], 4), ByteBit(x[1], 5), ByteBit(x[1], 6))
    ensures (d >> 15) & 7 == Plus3(ByteBit(x[1], 7), ByteBit(x[2], 0), ByteBit(x[2], 1))
  {
    hide Sums3, Load24, ByteBit, Plus3;
    GroupWordBits(x);
    TripleSums(Load24(x));
  }

  lemma Sextet2(x: seq<byte>, d: bv32)
    requires |x| == 3 && d == Sums3(Load24(x))
    ensures Small((d >> 12) & 7) - Small((d >> 15) & 7) == Sextet(x, 2)
  {
    hide Sums3, Load24, ByteBit, Small, Plus3;
    SextetSums2(x, d);
    IsBit(x[1], 4);
    IsBit(x[1], 5);
    IsBit(x[1], 6);
    IsBit(x[1], 7);
    IsBit(x[2], 0);
    IsBit(x[2], 1);
    SixBits((d >> 12) & 7, (d >> 15) & 7, ByteBit(x[1], 4), ByteBit(x[1], 5), ByteBit(x[1], 6),
            ByteBit(x[1], 7), ByteBit(x[2], 0), ByteBit(x[2], 1));
  }

  lemma SextetSums3(x: seq<byte>, d: bv32)
    requires |x| == 3 && d == Sums3(Load24(x))
    ensures (d >> 18) & 7 == Plus3(ByteBit(x[2], 2), ByteBit(x[2], 3), ByteBit(x[2], 4))
    ensures (d >> 21) & 7 == Plus3(ByteBit(x[2], 5), ByteBit(x[2], 6), ByteBit(x[2], 7))
  {
    hide Sums3, Load24, ByteBit, Plus3;
    GroupWordBits(x);
    TripleSums(Load24(x));
  }

  lemma Sextet3(x: seq<byte>, d: bv32)
    requires |x| == 3 && d == Sums3(Load24(x))
    ensures Small((d >> 18) & 7) - Small((d >> 21) & 7) == Sextet(x, 3)
  {
    hide Sums3, Load24, ByteBit, Small, Plus3;
    SextetSums3(x, d);
    IsBit(x[2], 2);
    IsBit(x[2], 3);
    IsBit(x[2], 4);
    IsBit(x[2], 5);
    IsBit(x[2], 6);
    IsBit(x[2], 7);
    SixBits((d >> 18) & 7, (d >> 21) & 7, ByteBit(x[2], 2), ByteBit(x[2], 3), ByteBit(x[2], 4),
            ByteBit(x[2], 5), ByteBit(x[2], 6), ByteBit(x[2], 7));
  }

  lemma Counted3(x: seq<byte>, j: nat)
    requires |x| == 3 && j < 4
    ensures Field3(Sums3(Load24(x)), j) == Sextet(x, j)
  {
    hide Sums3, Load24, Small, Sextet;
    var d := Sums3(Load24(x));
    if j == 0 {
      Sextet0(x, d);
    } else if j == 1 {
      Sextet1(x, d);
    } else if j == 2 {
      Sextet2(x, d);
    } else {
      Sextet3(x, d);
    }
  }

  method Cbd3Loop(r: array<int>, buf: seq<byte>)
    requires r.Length == N && |buf| == 192
    modifies r
    ensures r[..] == Cbd3(buf)
  {
    hide Field3, Sums3, Load24, Sextet;
    for i := 0 to 64
      invariant forall k :: 0 <= k < 4 * i ==> r[k] == Cbd3(buf)[k]
    {
      var d := Sums3(Load24(buf[3 * i..3 * i + 3]));
      for j := 0 to 4
        invariant forall k :: 0 <= k < 4 * i + j ==> r[k] == Cbd3(buf)[k]
      {
        Counted3(buf[3 * i..3 * i + 3], j);
        r[4 * i + j] := Field3(d, j);
        assert (4 * i + j) / 4 == i && (4 * i + j) % 4 == j;
      }
    }
  }

  lemma SextetRange(x: seq<byte>, j: nat)
    requires |x| == 3 && j < 4
    ensures -3 <= Sextet(x, j) <= 3
  {
    hide ByteBit;
    forall k | 0 <= k < 24
      ensures 0 <= GroupBit(x, k) <= 1
    {
      IsBit(x[k / 8], k % 8);
    }
  }

  // ----- the vector form for eta == 3: eight groups at a time

  /** The int32_t value of a word between -7 and 7. */
  function SignedSmall(w: bv32): (r: int) {
    if w == 0 || w == 1 || w == 2 || w == 3 || w == 4 || w == 5 || w == 6 || w == 7 then Small(w) else -Small(0 - w)
  }

  lemma SignedDifference(p: bv32, q: bv32)
    requires p & !7 == 0 && q & !7 == 0
    ensures SignedSmall(p - q) == Small(p) - Small(q)
  {
    assert p == 0 || p == 1 || p == 2 || p == 3 || p == 4 || p == 5 || p == 6 || p == 7;
    assert q == 0 || q == 1 || q == 2 || q == 3 || q == 4 || q == 5 || q == 6 || q == 7;
  }

  function Lane3(d: bv32, j: nat): (r: int) {
    if j == 0 then SignedSmall((d & 7) - ((d >> 3) & 7))
    else if j == 1 then SignedSmall(((d >> 6) & 7) - ((d >> 9) & 7))
    else if j == 2 then SignedSmall(((d >> 12) & 7) - ((d >> 15) & 7))
    else SignedSmall(((d >> 18) & 7) - (d >> 21))
  }

  lemma MaskedFields(d: bv32)
    requires d >> 24 == 0
    ensures d >> 21 == (d >> 21) & 7
    ensures (d & 7) & !7 == 0 && ((d >> 3) & 7) & !7 == 0 && ((d >> 6) & 7) & !7 == 0 && ((d >> 9) & 7) & !7 == 0
    ensures ((d >> 12) & 7) & !7 == 0 && ((d >> 15) & 7) & !7 == 0 && ((d >> 18) & 7) & !7 == 0
         && ((d >> 21) & 7) & !7 == 0
  {
  }

  lemma LaneIsField(d: bv32, j: nat)
    requires d >> 24 == 0 && j < 4
    ensures Lane3(d, j) == Field3(d, j)
  {
    hide SignedSmall, Small;
    MaskedFields(d);
    if j == 0 {
      SignedDifference(d & 7, (d >> 3) & 7);
    } else if j == 1 {
      SignedDifference((d >> 6) & 7, (d >> 9) & 7);
    } else if j == 2 {
      SignedDifference((d >> 12) & 7, (d >> 15) & 7);
    } else {
      SignedDifference((d >> 18) & 7, (d >> 21) & 7);
    }
  }

  lemma GroupLane(buf: seq<byte>, g: nat, j: nat)
    requires |buf| == 192 && g < 64 && j < 4
    ensures Lane3(Sums3(Load24(buf[3 * g..3 * g + 3])), j) == Cbd3(buf)[4 * g + j]
  {
    hide Sums3, Load24, Field3, Sextet, Lane3;
    var x := buf[3 * g..3 * g + 3];
    GroupWordBits(x);
    TripleSums(Load24(x));
    LaneIsField(Sums3(Load24(x)), j);
    Counted3(x, j);
    assert (4 * g + j) / 4 == g && (4 * g + j) % 4 == j;
  }

  /** cbd3_rvv: lane l of block i is group 8 * i + l; four strided stores, then one pass that
      narrows the scratch array. */
  method Cbd3Vector(r: array<int>, buf: seq<byte>)
    requires r.Length == N && |buf| == 192
    modifies r
    ensures r[..] == Cbd3(buf)
  {
    hide Sums3, Load24, Lane3, Cbd3;
    var tmp := new int[N];
    for i := 0 to 8
      invariant forall k :: 0 <= k < 32 * i ==> tmp[k] == Cbd3(buf)[k]
    {
      for l := 0 to 8
        invariant forall k :: 0 <= k < 32 * i + 4 * l ==> tmp[k] == Cbd3(buf)[k]
      {
        var g := 8 * i + l;
        var d := Sums3(Load24(buf[3 * g..3 * g + 3]));
        GroupLane(buf, g, 0);
        GroupLane(buf, g, 1);
        GroupLane(buf, g, 2);
        GroupLane(buf, g, 3);
        tmp[4 * g] := Lane3(d, 0);
        tmp[4 * g + 1] := Lane3(d, 1);
        tmp[4 * g + 2] := Lane3(d, 2);
        tmp[4 * g + 3] := Lane3(d, 3);
      }
    }
    for j := 0 to N
      invariant forall k :: 0 <= k < N ==> tmp[k] == Cbd3(buf)[k]
      invariant forall k :: 0 <= k < j ==> r[k] == tmp[k]
    {
      r[j] := tmp[j];
    }
  }
}
