/** The bit order of the byte formats: bit d * i + j of the bytes is bit j of coefficient i,
    least significant first, for every group format of both schemes. */
module BitOrder {
  import opened Polynomials
  import opened NttAlgebra
  import Modular
  import opened Words
  import opened Rejection
  import opened BitCodec
  import opened VectorCodec

  /** Bit j of n. */
  function Bit(n: nat, j: nat): (r: nat)
    ensures r < 2
  {
    if j == 0 then n % 2 else Bit(n / 2, j - 1)
  }

  /** Bit i of a byte string: bit i % 8 of byte i / 8. Behind the end there are zeros. */
  function StringBit(b: seq<byte>, i: nat): (r: nat)
    ensures r < 2
  {
    if i / 8 < |b| then Bit(Num(b[i / 8]), i % 8) else 0
  }

  /** Bit i of a stream of bytes. */
  function StreamBit(s: Stream, i: nat): (r: nat)
    ensures r < 2
  {
    Bit(Num(s(i / 8)), i % 8)
  }

  /** The number with the binary digits start, start + 1, ... of a byte string. */
  function Field(b: seq<byte>, start: nat, d: nat): (r: nat)
    decreases d
  {
    if d == 0 then 0 else StringBit(b, start) + 2 * Field(b, start + 1, d - 1)
  }

  lemma {:induction false} FieldBit(b: seq<byte>, start: nat, d: nat, j: nat)
    requires j < d
    ensures Bit(Field(b, start, d), j) == StringBit(b, start + j)
    decreases d
  {
    hide StringBit;
    if j > 0 {
      FieldBit(b, start + 1, d - 1, j - 1);
    }
  }

  lemma {:induction false} FieldOfNumber(b: seq<byte>, start: nat, d: nat, x: nat)
    requires forall t :: 0 <= t < d ==> Bit(x, t) == StringBit(b, start + t)
    ensures x % Pow2(d) == Field(b, start, d)
    decreases d
  {
    hide StringBit;
    if d > 0 {
      assert Bit(x, 0) == StringBit(b, start);
      forall t | 0 <= t < d - 1
        ensures Bit(x / 2, t) == StringBit(b, start + 1 + t)
      {
        assert Bit(x, t + 1) == StringBit(b, start + (t + 1));
      }
      FieldOfNumber(b, start + 1, d - 1, x / 2);
      HalfOfRemainder(x, Pow2(d - 1));
    }
  }

  lemma HalfOfRemainder(x: nat, p: nat)
    requires p > 0
    ensures x % (2 * p) == x % 2 + 2 * (x / 2 % p)
  {
    var y := x / 2;
    var q, r := y / p, y % p;
    assert y == q * p + r;
    assert x == q * (2 * p) + (x % 2 + 2 * r);
    Modular.QuotientRemainder(2 * p, q, x % 2 + 2 * r);
  }

  // ----- numbers made of bytes

  function At(b: seq<byte>, q: nat): (r: byte) { if q < |b| then b[q] else 0 }

  /** Three bytes from byte q on, as a word. */
  function Three(b: seq<byte>, q: nat): (w: bv32) {
    Joined(At(b, q), Joined(At(b, q + 1), At(b, q + 2) as bv32))
  }

  function Joined(b: byte, w: bv32): (r: bv32) { (b as bv32) | (w << 8) }

  lemma NumBits(b: byte)
    ensures Num(b) == (if b & 1 == 1 then 1 else 0) + (if (b >> 1) & 1 == 1 then 2 else 0)
                      + (if (b >> 2) & 1 == 1 then 4 else 0) + (if (b >> 3) & 1 == 1 then 8 else 0)
                      + (if (b >> 4) & 1 == 1 then 16 else 0) + (if (b >> 5) & 1 == 1 then 32 else 0)
                      + (if (b >> 6) & 1 == 1 then 64 else 0) + (if (b >> 7) & 1 == 1 then 128 else 0)
  {
  }

  lemma ValueUnfolds(w: bv32)
    ensures Value(w) == 2 * Value(Rest(w)) + (if Low(w) == 1 then 1 else 0)
  {
    hide Low;
    RestOfZero();
  }

  lemma RestOfZero()
    ensures Rest(0) == 0 && Low(0) == 0
  {
  }

  lemma ValueOfPush(w: bv32, b: bv32, d: nat)
    requires Fits(w, d) && d <= 31 && (b == 0 || b == 1)
    ensures Fits(Push(w, b), d + 1) && Value(Push(w, b)) == 2 * Value(w) + (if b == 1 then 1 else 0)
  {
    hide Value, Under, Push, Low, Rest;
    PushUnder(w, Ones(d), b);
    OnesUnder(d, 31);
    OnesValues();
    UnderTrans(w, Ones(d), 0x7FFF_FFFF);
    RestOfPush(w, b);
    ValueUnfolds(Push(w, b));
  }

  /** Bit r of b, as a word. */
  function Digit(b: byte, r: nat): (w: bv32) {
    if r == 0 then (b & 1) as bv32 else if r == 1 then ((b >> 1) & 1) as bv32 else if r == 2 then ((b >> 2) & 1) as bv32
    else if r == 3 then ((b >> 3) & 1) as bv32 else if r == 4 then ((b >> 4) & 1) as bv32
    else if r == 5 then ((b >> 5) & 1) as bv32 else if r == 6 then ((b >> 6) & 1) as bv32 else ((b >> 7) & 1) as bv32
  }

  lemma IsDigit(b: byte, r: nat)
    ensures Digit(b, r) == 0 || Digit(b, r) == 1
  {
  }

  function Weighted(b: byte, r: nat): (n: nat) { if Digit(b, r) == 1 then 1 else 0 }

  lemma NumOfDigits(b: byte)
    ensures Num(b) == Weighted(b, 0) + 2 * Weighted(b, 1) + 4 * Weighted(b, 2) + 8 * Weighted(b, 3)
                      + 16 * Weighted(b, 4) + 32 * Weighted(b, 5) + 64 * Weighted(b, 6) + 128 * Weighted(b, 7)
  {
    NumBits(b);
    DigitsAreBits(b);
    hide Digit, Num;
  }

  lemma DigitsAreBits(b: byte)
    ensures Digit(b, 0) == 1 <==> b & 1 == 1
    ensures Digit(b, 1) == 1 <==> (b >> 1) & 1 == 1
    ensures Digit(b, 2) == 1 <==> (b >> 2) & 1 == 1
    ensures Digit(b, 3) == 1 <==> (b >> 3) & 1 == 1
    ensures Digit(b, 4) == 1 <==> (b >> 4) & 1 == 1
    ensures Digit(b, 5) == 1 <==> (b >> 5) & 1 == 1
    ensures Digit(b, 6) == 1 <==> (b >> 6) & 1 == 1
    ensures Digit(b, 7) == 1 <==> (b >> 7) & 1 == 1
  {
  }

  /** The digits of b pushed one after the other, highest first. */
  function Pushed(b: byte, w: bv32, r: nat): (x: bv32)
    requires r <= 8
    decreases 8 - r
  {
    if r == 8 then w else Push(Pushed(b, w, r + 1), Digit(b, r))
  }

  /** b without its r lowest bits, below w. */
  function Glued(b: byte, w: bv32, r: nat): (x: bv32) {
    if r == 0 then Joined(b, w) else if r == 1 then ((b as bv32) >> 1) | (w << 7)
    else if r == 2 then ((b as bv32) >> 2) | (w << 6) else if r == 3 then ((b as bv32) >> 3) | (w << 5)
    else if r == 4 then ((b as bv32) >> 4) | (w << 4) else if r == 5 then ((b as bv32) >> 5) | (w << 3)
    else if r == 6 then ((b as bv32) >> 6) | (w << 2) else if r == 7 then ((b as bv32) >> 7) | (w << 1) else w
  }

  lemma Glue0(b: byte, w: bv32)
    ensures Push(Glued(b, w, 1), Digit(b, 0)) == Glued(b, w, 0)
  {
  }

  lemma Glue1(b: byte, w: bv32)
    ensures Push(Glued(b, w, 2), Digit(b, 1)) == Glued(b, w, 1)
  {
  }

  lemma Glue2(b: byte, w: bv32)
    ensures Push(Glued(b, w, 3), Digit(b, 2)) == Glued(b, w, 2)
  {
  }

  lemma Glue3(b: byte, w: bv32)
    ensures Push(Glued(b, w, 4), Digit(b, 3)) == Glued(b, w, 3)
  {
  }

  lemma Glue4(b: byte, w: bv32)
    ensures Push(Glued(b, w, 5), Digit(b, 4)) == Glued(b, w, 4)
  {
  }

  lemma Glue5(b: byte, w: bv32)
    ensures Push(Glued(b, w, 6), Digit(b, 5)) == Glued(b, w, 5)
  {
  }

  lemma Glue6(b: byte, w: bv32)
    ensures Push(Glued(b, w, 7), Digit(b, 6)) == Glued(b, w, 6)
  {
  }

  lemma Glue7(b: byte, w: bv32)
    ensures Push(Glued(b, w, 8), Digit(b, 7)) == Glued(b, w, 7)
  {
  }

  lemma GlueStep(b: byte, w: bv32, r: nat)
    requires r < 8
    ensures Push(Glued(b, w, r + 1), Digit(b, r)) == Glued(b, w, r)
  {
    hide *;
    if r == 0 {
      Glue0(b, w);
    } else if r == 1 {
      Glue1(b, w);
    } else if r == 2 {
      Glue2(b, w);
    } else if r == 3 {
      Glue3(b, w);
    } else if r == 4 {
      Glue4(b, w);
    } else if r == 5 {
      Glue5(b, w);
    } else if r == 6 {
      Glue6(b, w);
    } else if r == 7 {
      Glue7(b, w);
    }
  }

  lemma {:induction false} GluedIsPushed(b: byte, w: bv32, r: nat)
    requires r <= 8
    ensures Glued(b, w, r) == Pushed(b, w, r)
    decreases 8 - r
  {
    if r < 8 {
      hide Glued, Push, Digit;
      GluedIsPushed(b, w, r + 1);
      GlueStep(b, w, r);
    }
  }

  /** Value of the digits from r on, above those of w. */
  function Upper(b: byte, v: nat, r: nat): (n: nat)
    requires r <= 8
    decreases 8 - r
  {
    if r == 8 then v else 2 * Upper(b, v, r + 1) + Weighted(b, r)
  }

  lemma {:induction false} ValueOfPushed(b: byte, w: bv32, r: nat)
    requires Fits(w, 24) && r <= 8
    ensures Fits(Pushed(b, w, r), 32 - r) && Value(Pushed(b, w, r)) == Upper(b, Value(w), r)
    decreases 8 - r
  {
    hide Fits, Value, Digit, Push;
    if r < 8 {
      ValueOfPushed(b, w, r + 1);
      IsDigit(b, r);
      ValueOfPush(Pushed(b, w, r + 1), Digit(b, r), 32 - (r + 1));
    }
  }

  lemma ValueOfJoined(b: byte, w: bv32)
    requires Fits(w, 24)
    ensures Value(Joined(b, w)) == Num(b) + 0x100 * Value(w)
  {
    hide Fits, Value, Digit, Pushed, Joined, Num, Weighted;
    GluedIsPushed(b, w, 0);
    ValueOfPushed(b, w, 0);
    NumOfDigits(b);
    var v := Value(w);
    assert Upper(b, v, 6) == 4 * v + 2 * Weighted(b, 7) + Weighted(b, 6);
    assert Upper(b, v, 4) == 4 * Upper(b, v, 6) + 2 * Weighted(b, 5) + Weighted(b, 4);
    assert Upper(b, v, 2) == 4 * Upper(b, v, 4) + 2 * Weighted(b, 3) + Weighted(b, 2);
  }

  lemma FitsByte(b: byte)
    ensures Fits(b as bv32, 8) && Fits(b as bv32, 24) && Joined(b, 0) == b as bv32
  {
    hide Value;
    OnesValues24();
    OnesValues();
    ByteUnder(b);
  }

  lemma OnesValues24()
    ensures Ones(8) == 0xFF && Ones(16) == 0xFFFF && Ones(24) == 0xFF_FFFF
  {
    OnesValues();
    hide Push;
    assert Ones(7) == Push(Ones(6), 1) && Ones(8) == Push(Ones(7), 1);
    assert Ones(14) == Push(Ones(13), 1) && Ones(15) == Push(Ones(14), 1) && Ones(16) == Push(Ones(15), 1);
    assert Ones(21) == Push(Ones(20), 1) && Ones(22) == Push(Ones(21), 1) && Ones(23) == Push(Ones(22), 1);
    PushedOnes();
  }

  lemma PushedOnes()
    ensures Push(Push(0x3F, 1), 1) == 0xFF && Push(Push(Push(0x1FFF, 1), 1), 1) == 0xFFFF
    ensures Push(Push(Push(Push(0xF_FFFF, 1), 1), 1), 1) == 0xFF_FFFF
  {
  }

  lemma ByteUnder(b: byte)
    ensures Under(b as bv32, 0xFF) && Under(b as bv32, 0xFF_FFFF) && (b as bv32) | (0 << 8) == b as bv32
  {
  }

  lemma JoinedUnder(b: byte, c: byte)
    ensures Under((b as bv32) | ((c as bv32) << 8), 0xFFFF) && Under((b as bv32) | ((c as bv32) << 8), 0xFF_FFFF)
  {
  }

  /** Three bytes, lowest first, as a number. */
  lemma ValueOfThree(b: seq<byte>, q: nat)
    ensures Value(Three(b, q)) == Num(At(b, q)) + 0x100 * (Num(At(b, q + 1)) + 0x100 * Num(At(b, q + 2)))
  {
    hide Value, Ones, Under, Num;
    var x, y, z := At(b, q), At(b, q + 1), At(b, q + 2);
    FitsByte(z);
    OnesValues24();
    JoinedUnder(y, z);
    ValueZero();
    ValueOfJoined(z, 0);
    ValueOfJoined(y, z as bv32);
    ValueOfJoined(x, Joined(y, z as bv32));
  }

  lemma ValueZero()
    ensures Value(0) == 0 && Fits(0, 24)
  {
    ZeroUnder(Ones(24));
  }

  lemma {:induction false} BitOfJoin(x: nat, y: nat, k: nat, p: nat, t: nat)
    requires p == Pow2(k) && x < p
    ensures Bit(x + p * y, t) == if t < k then Bit(x, t) else Bit(y, t - k)
    decreases k
  {
    if k == 0 {
    } else {
      var h := Pow2(k - 1);
      var z := h * y;
      assert p * y == 2 * z;
      if t > 0 {
        BitOfJoin(x / 2, y, k - 1, h, t - 1);
        assert (x + p * y) / 2 == x / 2 + h * y;
      }
    }
  }

  lemma ThreeBit(b: seq<byte>, q: nat, t: nat)
    requires t < 24 && 8 * q + t < 8 * |b|
    ensures Bit(Value(Three(b, q)), t) == StringBit(b, 8 * q + t)
  {
    hide Value, Num, Bit, Three;
    ValueOfThree(b, q);
    PowersOfTwo();
    var x, y, z := Num(At(b, q)), Num(At(b, q + 1)), Num(At(b, q + 2));
    BitOfJoin(x, y + 0x100 * z, 8, 0x100, t);
    if t >= 8 {
      BitOfJoin(y, z, 8, 0x100, t - 8);
    }
  }

  // ----- shifting and masking

  function RestOf(w: bv32, s: nat): (r: bv32) { if s == 0 then w else RestOf(Rest(w), s - 1) }

  lemma {:induction false} BitOfRest(w: bv32, s: nat, t: nat)
    ensures Bit(Value(RestOf(w, s)), t) == Bit(Value(w), s + t)
    decreases s
  {
    hide Rest, Low, Value;
    if s > 0 {
      ValueUnfolds(w);
      BitOfRest(Rest(w), s - 1, t);
    }
  }

  function ShiftBy(w: bv32, s: nat): (r: bv32) {
    if s == 0 then w else if s == 1 then w >> 1 else if s == 2 then w >> 2 else if s == 3 then w >> 3
    else if s == 4 then w >> 4 else if s == 5 then w >> 5 else if s == 6 then w >> 6 else w >> 7
  }

  lemma Shift1(w: bv32)
    ensures ShiftBy(Rest(w), 0) == ShiftBy(w, 1)
  {
  }

  lemma Shift2(w: bv32)
    ensures ShiftBy(Rest(w), 1) == ShiftBy(w, 2)
  {
  }

  lemma Shift3(w: bv32)
    ensures ShiftBy(Rest(w), 2) == ShiftBy(w, 3)
  {
  }

  lemma Shift4(w: bv32)
    ensures ShiftBy(Rest(w), 3) == ShiftBy(w, 4)
  {
  }

  lemma Shift5(w: bv32)
    ensures ShiftBy(Rest(w), 4) == ShiftBy(w, 5)
  {
  }

  lemma Shift6(w: bv32)
    ensures ShiftBy(Rest(w), 5) == ShiftBy(w, 6)
  {
  }

  lemma Shift7(w: bv32)
    ensures ShiftBy(Rest(w), 6) == ShiftBy(w, 7)
  {
  }

  lemma ShiftStep(w: bv32, s: nat)
    requires 0 < s < 8
    ensures ShiftBy(Rest(w), s - 1) == ShiftBy(w, s)
  {
    hide *;
    if s == 1 {
      Shift1(w);
    } else if s == 2 {
      Shift2(w);
    } else if s == 3 {
      Shift3(w);
    } else if s == 4 {
      Shift4(w);
    } else if s == 5 {
      Shift5(w);
    } else if s == 6 {
      Shift6(w);
    } else if s == 7 {
      Shift7(w);
    }
  }

  lemma {:induction false} ShiftIsRest(w: bv32, s: nat)
    requires s < 8
    ensures ShiftBy(w, s) == RestOf(w, s)
    decreases s
  {
    if s > 0 {
      hide ShiftBy, Rest;
      ShiftIsRest(Rest(w), s - 1);
      ShiftStep(w, s);
    }
  }

  function And(w: bv32, m: bv32): (r: bv32) { w & m }

  lemma MaskStep(w: bv32, m: bv32)
    requires Under(m, 0x7FFF_FFFF)
    ensures Rest(And(w, Push(m, 1))) == And(Rest(w), m) && Low(And(w, Push(m, 1))) == Low(w)
  {
  }

  lemma {:induction false} ValueOfMask(w: bv32, d: nat)
    requires d <= 32
    ensures Value(And(w, Ones(d))) == Value(w) % Pow2(d)
    decreases d
  {
    hide Value, Push, Rest, Low, Under, And;
    if d == 0 {
      MaskZero(w);
      ValueZero();
    } else {
      OnesUnder(d - 1, 31);
      OnesValues();
      MaskStep(w, Ones(d - 1));
      ValueOfMask(Rest(w), d - 1);
      ValueUnfolds(w);
      ValueUnfolds(And(w, Ones(d)));
      MaskedHalf(Value(w), Value(Rest(w)), Value(And(w, Ones(d))), if Low(w) == 1 then 1 else 0, Pow2(d - 1));
    }
  }

  lemma MaskedHalf(v: nat, h: nat, m: nat, b: nat, p: nat)
    requires p > 0 && b < 2 && v == 2 * h + b && m == 2 * (h % p) + b
    ensures m == v % (2 * p)
  {
    HalfOfRemainder(v, p);
  }

  lemma MaskZero(w: bv32)
    ensures And(w, 0) == 0
  {
  }

  /** What the unpackers compute for the d bits from bit s of byte q on. */
  lemma CutField(b: seq<byte>, q: nat, s: nat, d: nat, w: bv32)
    requires s < 8 && s + d <= 24 && 8 * q + s + d <= 8 * |b| && w == And(ShiftBy(Three(b, q), s), Ones(d))
    ensures Value(w) == Field(b, 8 * q + s, d)
  {
    hide Value, Three, ShiftBy, Ones, Bit, StringBit, And;
    var x := ShiftBy(Three(b, q), s);
    ShiftIsRest(Three(b, q), s);
    forall t | 0 <= t < d
      ensures Bit(Value(x), t) == StringBit(b, 8 * q + s + t)
    {
      BitOfRest(Three(b, q), s, t);
      ThreeBit(b, q, s + t);
    }
    FieldOfNumber(b, 8 * q + s, d, Value(x));
    ValueOfMask(x, d);
  }

  // ----- groups, polynomials, vectors

  /** Coefficient i of a group of bytes is the number in bits d * i to d * i + d - 1. */
  ghost predicate GroupOrdered(k: Codec, b: seq<byte>) {
    && |b| == k.m && |k.unpack(b)| == k.n
    && forall i: nat :: i < k.n ==> Value(k.unpack(b)[i]) == Field(b, k.d * i, k.d)
  }

  ghost predicate Ordered(k: Codec) {
    k.n * k.d == 8 * k.m && forall b: seq<byte> :: |b| == k.m ==> GroupOrdered(k, b)
  }

  lemma SliceBit(b: seq<byte>, lo: nat, hi: nat, i: nat)
    requires lo <= hi <= |b| && i < 8 * (hi - lo)
    ensures StringBit(b[lo..hi], i) == StringBit(b, 8 * lo + i)
  {
    hide Num, Bit;
    assert (8 * lo + i) / 8 == lo + i / 8 && (8 * lo + i) % 8 == i % 8;
  }

  lemma {:induction false} FieldOfSlice(b: seq<byte>, lo: nat, hi: nat, start: nat, d: nat)
    requires lo <= hi <= |b| && start + d <= 8 * (hi - lo)
    ensures Field(b[lo..hi], start, d) == Field(b, 8 * lo + start, d)
    decreases d
  {
    hide StringBit;
    if d > 0 {
      SliceBit(b, lo, hi, start);
      FieldOfSlice(b, lo, hi, start + 1, d - 1);
    }
  }

  lemma StoredTwice(k: Codec, x: int)
    ensures Stored(k, Stored(k, x)) == x
  {
  }

  /** A field of one of g groups lies within their bytes; the next group starts 8 * m bits later. */
  lemma FieldFits(n: nat, m: nat, d: nat, g: nat, i: nat, p: nat)
    requires n * d == 8 * m && i < g * n && p == d * i
    ensures p + d <= 8 * (g * m)
    ensures i >= n ==> p >= 8 * m && p - 8 * m == d * (i - n)
  {
    var last := g * n - (i + 1);
    assert d * last >= 0;
    assert d * (g * n) == d * i + d + d * last;
    assert d * (g * n) == g * (n * d);
    assert g * (8 * m) == 8 * (g * m);
    if i >= n {
      assert d * i == n * d + d * (i - n);
    }
  }

  lemma FieldInGroup(k: Codec, x: seq<byte>, i: nat, p: nat)
    requires Ordered(k) && |x| == k.m && i < k.n && p == k.d * i
    ensures |k.unpack(x)| == k.n && Stored(k, FromWords(k, k.unpack(x))[i]) == Field(x, p, k.d)
  {
    hide Value, Field;
    assert GroupOrdered(k, x);
    StoredTwice(k, Value(k.unpack(x)[i]));
  }

  lemma DecodeParts(k: Codec, b: seq<byte>, g: nat)
    requires Lossless(k) && g > 0 && |b| == g * k.m
    ensures k.m <= |b| && |b[k.m..]| == (g - 1) * k.m && |k.unpack(b[..k.m])| == k.n
    ensures Decode(k, b, g) == FromWords(k, k.unpack(b[..k.m])) + Decode(k, b[k.m..], g - 1)
  {
    hide FromWords;
    GroupFits(g, k.m);
  }

  lemma {:induction false} DecodedField(k: Codec, b: seq<byte>, g: nat, i: nat, p: nat)
    requires Lossless(k) && Ordered(k) && |b| == g * k.m && i < g * k.n && p == k.d * i
    ensures |Decode(k, b, g)| == g * k.n && Stored(k, Decode(k, b, g)[i]) == Field(b, p, k.d)
    decreases g
  {
    hide Lossless, Ordered, Value, Field, Stored, FromWords, Decode;
    EncodeDecode(k, b, g);
    OrderedSize(k);
    FieldFits(k.n, k.m, k.d, g, i, p);
    if g > 0 {
      DecodeParts(k, b, g);
      GroupFits(g, k.n);
      if i < k.n {
        FieldInGroup(k, b[..k.m], i, p);
        FieldFits(k.n, k.m, k.d, 1, i, p);
        FieldOfSlice(b, 0, k.m, p, k.d);
      } else {
        assert b[k.m..|b|] == b[k.m..];
        DecodedField(k, b[k.m..], g - 1, i - k.n, p - 8 * k.m);
        FieldFits(k.n, k.m, k.d, g - 1, i - k.n, p - 8 * k.m);
        FieldOfSlice(b, k.m, |b|, p - 8 * k.m, k.d);
      }
    }
  }

  lemma OrderedSize(k: Codec)
    requires Lossless(k) && Ordered(k)
    ensures k.n > 0 && k.n * k.d == 8 * k.m
  {
  }

  /** A polynomial takes 256 fields. */
  lemma PolynomialBits(f: Format)
    requires Usable(f) && Ordered(f.codec)
    ensures 8 * Size(f) == f.codec.d * N
  {
    hide Lossless;
    var k := f.codec;
    assert 8 * (f.groups * k.m) == f.groups * (k.n * k.d);
    assert f.groups * (k.n * k.d) == k.d * (f.groups * k.n);
  }

  lemma OneField(f: Format, b: seq<byte>, t: nat, p: nat)
    requires Usable(f) && Ordered(f.codec) && |b| == Size(f) && t < N && p == f.codec.d * t
    ensures |Decode(f.codec, b, f.groups)| == N
    ensures Stored(f.codec, Decode(f.codec, b, f.groups)[t]) == Field(b, p, f.codec.d)
  {
    hide Lossless, Ordered, Field, Decode, Stored;
    DecodedField(f.codec, b, f.groups, t, p);
  }

  /** Coefficient t of polynomial i, in the bits from p on. */
  lemma {:induction false} UnpackedField(f: Format, b: seq<byte>, n: nat, i: nat, t: nat, p: nat)
    requires Usable(f) && Ordered(f.codec) && |b| == Total(n, f) && i < n && t < N && p == f.codec.d * (N * i + t)
    ensures Stored(f.codec, UnpackVector(f, b, n)[i][t]) == Field(b, p, f.codec.d)
    decreases n
  {
    hide Lossless, Ordered, Field, Decode, Stored;
    var s, k := Size(f), f.codec;
    PolynomialBits(f);
    NextPolynomial(n, s);
    FieldInVector(k.d, n, s, i, t, p);
    EncodeDecode(k, b[..s], f.groups);
    if i == 0 {
      OneField(f, b[..s], t, p);
      FieldOfSlice(b, 0, s, p, k.d);
    } else {
      assert b[s..|b|] == b[s..];
      UnpackedField(f, b[s..], n - 1, i - 1, t, p - 8 * s);
      FieldOfSlice(b, s, |b|, p - 8 * s, k.d);
    }
  }

  lemma FieldInVector(d: nat, n: nat, s: nat, i: nat, t: nat, p: nat)
    requires i < n && t < N && 8 * s == d * N && p == d * (N * i + t)
    ensures p + d <= 8 * (n * s)
    ensures i == 0 ==> p == d * t && p + d <= 8 * s
    ensures i > 0 ==> p >= 8 * s && p - 8 * s == d * (N * (i - 1) + t)
  {
    assert d * (N * n) == (d * N) * n && (8 * s) * n == 8 * (n * s);
    FieldBelow(d, N * i + t, N * n);
    if i == 0 {
      FieldBelow(d, t, N);
    } else {
      FieldAfter(d, N, N * (i - 1) + t);
    }
  }

  lemma FieldBelow(d: nat, e: nat, n: nat)
    requires e < n
    ensures d * e + d <= d * n
  {
    var rest: nat := n - e - 1;
    assert d * (e + 1 + rest) == d * e + d + d * rest;
  }

  lemma FieldAfter(d: nat, m: nat, e: nat)
    ensures d * (m + e) == d * m + d * e
  {
  }

  lemma PackedField(f: Format, v: seq<Poly>, i: nat, t: nat, p: nat)
    requires Usable(f) && Ordered(f.codec) && IsShape(v, |v|) && VectorInRange(f, v) && i < |v| && t < N
    requires p == f.codec.d * (N * i + t)
    ensures |PackVector(f, v)| == Total(|v|, f) && Field(PackVector(f, v), p, f.codec.d) == Stored(f.codec, v[i][t])
  {
    hide Lossless, Ordered, Field, PackVector, UnpackVector, Stored, VectorInRange, Total;
    VectorRoundTrip(f, v);
    UnpackedField(f, PackVector(f, v), |v|, i, t, p);
  }

  // ----- a list of numbers as a byte string

  /** Bit c of the list of d-bit numbers v, one after the other. */
  function ListBit(d: nat, v: seq<nat>, c: nat): (r: nat)
    requires d > 0
    ensures r < 2
  {
    if c / d < |v| then Bit(v[c / d], c % d) else 0
  }

  function ListDigits(d: nat, v: seq<nat>, c: nat, n: nat): (r: nat)
    requires d > 0
    ensures r < Pow2(n)
    decreases n
  {
    if n == 0 then 0 else ListBit(d, v, c) + 2 * ListDigits(d, v, c + 1, n - 1)
  }

  lemma {:induction false} ListDigit(d: nat, v: seq<nat>, c: nat, n: nat, j: nat)
    requires d > 0 && j < n
    ensures Bit(ListDigits(d, v, c, n), j) == ListBit(d, v, c + j)
    decreases n
  {
    hide ListBit;
    if j > 0 {
      ListDigit(d, v, c + 1, n - 1, j - 1);
    }
  }

  /** n bytes with the bits of the d-bit numbers v, lowest bits first. */
  function BitString(d: nat, v: seq<nat>, n: nat): (b: seq<byte>)
    requires d > 0
    ensures |b| == n
  {
    PowersOfTwo();
    seq(n, q requires 0 <= q < n => ByteOf(ListDigits(d, v, 8 * q, 8)))
  }

  lemma BitOfString(d: nat, v: seq<nat>, n: nat, c: nat)
    requires d > 0 && c < 8 * n
    ensures StringBit(BitString(d, v, n), c) == ListBit(d, v, c)
  {
    hide Bit, Num, ByteOf, ListBit, ListDigits;
    PowersOfTwo();
    var q := c / 8;
    NumOfByte(ListDigits(d, v, 8 * q, 8));
    ListDigit(d, v, 8 * q, 8, c % 8);
  }

  lemma BitOfByte(b: seq<byte>, q: nat, t: nat)
    requires q < |b| && t < 8
    ensures Bit(Num(b[q]), t) == StringBit(b, 8 * q + t)
  {
    hide Num, Bit;
    assert (8 * q + t) / 8 == q && (8 * q + t) % 8 == t;
  }

  lemma FieldOfByte(b: seq<byte>, q: nat)
    requires q < |b|
    ensures Field(b, 8 * q, 8) == Num(b[q])
  {
    hide Num, Field, Bit, StringBit;
    PowersOfTwo();
    forall t | 0 <= t < 8
      ensures Bit(Num(b[q]), t) == StringBit(b, 8 * q + t)
    {
      BitOfByte(b, q, t);
    }
    FieldOfNumber(b, 8 * q, 8, Num(b[q]));
  }

  lemma {:induction false} SameFields(x: seq<byte>, y: seq<byte>, start: nat, d: nat)
    requires forall c :: start <= c < start + d ==> StringBit(x, c) == StringBit(y, c)
    ensures Field(x, start, d) == Field(y, start, d)
    decreases d
  {
    hide StringBit;
    if d > 0 {
      SameFields(x, y, start + 1, d - 1);
    }
  }

  /** A byte string is determined by its bits. */
  lemma SameBits(x: seq<byte>, y: seq<byte>)
    requires |x| == |y| && forall c :: 0 <= c < 8 * |x| ==> StringBit(x, c) == StringBit(y, c)
    ensures x == y
  {
    hide StringBit, Field, Num, ByteOf;
    forall q | 0 <= q < |x|
      ensures x[q] == y[q]
    {
      FieldOfByte(x, q);
      FieldOfByte(y, q);
      SameFields(x, y, 8 * q, 8);
      ByteOfNum(x[q]);
      ByteOfNum(y[q]);
    }
  }

  /** x lists the coefficients of a vector as they are stored, one polynomial after the other. */
  ghost predicate Lists(k: Codec, v: seq<Poly>, x: seq<nat>) {
    && IsShape(v, |v|) && |x| == N * |v|
    && forall i, t :: 0 <= i < |v| && 0 <= t < N ==> x[N * i + t] == Stored(k, v[i][t])
  }

  lemma BitPosition(d: nat, n: nat, s: nat, c: nat)
    requires d > 0 && 8 * s == d * N && c < 8 * (n * s)
    ensures c / d < N * n && c / d / N < n && d * (c / d) + c % d == c
  {
    assert (8 * s) * n == 8 * (n * s) && (d * N) * n == d * (N * n);
    QuotientBelow(d, N * n, c);
  }

  lemma QuotientBelow(d: nat, m: nat, c: nat)
    requires d > 0 && c < d * m
    ensures c / d < m && d * (c / d) + c % d == c
  {
    var e := c / d;
    assert (e - m) * d == e * d - m * d;
    Modular.MultipleBounds(e - m, d);
  }

  /** Bit c of a packed vector is bit c of the list. */
  lemma PackedBit(f: Format, v: seq<Poly>, x: seq<nat>, c: nat)
    requires Usable(f) && Ordered(f.codec) && f.codec.d > 0 && VectorInRange(f, v) && Lists(f.codec, v, x)
    requires c < 8 * Total(|v|, f)
    ensures |PackVector(f, v)| == Total(|v|, f) && StringBit(PackVector(f, v), c) == ListBit(f.codec.d, x, c)
  {
    hide Lossless, Ordered, PackVector, StringBit, Bit, VectorInRange, Stored, Field;
    var d, b := f.codec.d, PackVector(f, v);
    VectorRoundTrip(f, v);
    PolynomialBits(f);
    BitPosition(d, |v|, Size(f), c);
    var e, j := c / d, c % d;
    PackedField(f, v, e / N, e % N, d * e);
    FieldBit(b, d * e, d, j);
    assert x[N * (e / N) + e % N] == x[e];
  }

  /** Every packer: the bytes are the bits of the stored coefficients, in order. */
  lemma PackedBits(f: Format, v: seq<Poly>, x: seq<nat>)
    requires Usable(f) && Ordered(f.codec) && f.codec.d > 0 && VectorInRange(f, v) && Lists(f.codec, v, x)
    ensures PackVector(f, v) == BitString(f.codec.d, x, Total(|v|, f))
  {
    hide Lossless, Ordered, PackVector, StringBit, VectorInRange, BitString, Total, ListBit, Lists;
    ListShape(f.codec, v, x);
    VectorRoundTrip(f, v);
    var b, y := PackVector(f, v), BitString(f.codec.d, x, Total(|v|, f));
    forall c | 0 <= c < 8 * |b|
      ensures StringBit(b, c) == StringBit(y, c)
    {
      BitOfString(f.codec.d, x, |b|, c);
      PackedBit(f, v, x, c);
    }
    SameBits(b, y);
  }

  lemma ListShape(k: Codec, v: seq<Poly>, x: seq<nat>)
    requires Lists(k, v, x)
    ensures IsShape(v, |v|)
  {
  }
}
