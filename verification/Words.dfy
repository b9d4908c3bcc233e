/** Unsigned 32-bit words as bit-vectors, and the numbers they stand for. */
module Words {
  import opened NttAlgebra

  type byte = bv8

  function ByteOf(n: int): (r: byte)
    requires 0 <= n < 256
  {
    n as byte
  }

  function Num(b: byte): (n: nat)
    ensures n < 256
  {
    b as int
  }

  lemma SameByte(b: byte)
    ensures (b as int) as byte == b
  {
  }

  lemma NextByte(b: byte)
    requires b < 255
    ensures (b + 1) as int == b as int + 1
  {
  }

  lemma {:induction false} RoundTrip(n: int)
    requires 0 <= n < 256
    ensures (n as byte) as int == n
  {
    if n > 0 {
      RoundTrip(n - 1);
      var b := (n - 1) as byte;
      NextByte(b);
      SameByte(b + 1);
    }
  }

  lemma NumOfByte(n: int)
    requires 0 <= n < 256
    ensures Num(ByteOf(n)) == n
  {
    RoundTrip(n);
  }

  lemma ByteOfNum(b: byte)
    ensures ByteOf(Num(b)) == b
  {
  }

  lemma ByteValues()
    ensures forall n :: 0 <= n < 256 ==> Num(ByteOf(n)) == n
    ensures forall b :: ByteOf(Num(b)) == b
    ensures ByteOf(0) == 0
  {
    assert ByteOf(0) == 0;
    hide ByteOf, Num;
    forall n | 0 <= n < 256
      ensures Num(ByteOf(n)) == n
    {
      NumOfByte(n);
    }
    forall b
      ensures ByteOf(Num(b)) == b
    {
      ByteOfNum(b);
    }
  }

  function Push(w: bv32, b: bv32): (r: bv32) { (w << 1) | b }

  function Rest(w: bv32): (r: bv32)
    ensures w != 0 ==> r < w
  {
    w >> 1
  }

  function Low(w: bv32): (b: bv32)
    ensures b == 0 || b == 1
  {
    w & 1
  }

  function Bit(n: int): (b: bv32)
    ensures b == 0 || b == 1
  {
    if n % 2 == 1 then 1 else 0
  }

  /** All bits of w are bits of m. */
  predicate Under(w: bv32, m: bv32) { w & !m == 0 }

  /** The word that holds n when a non-negative int is stored in a uint32_t. */
  function Word(n: nat): (r: bv32) {
    if n == 0 then 0 else Push(Word(n / 2), Bit(n))
  }

  function Value(w: bv32): (r: nat)
    decreases w
  {
    if w == 0 then 0 else 2 * Value(Rest(w)) + (if Low(w) == 1 then 1 else 0)
  }

  /** The mask of the d low bits. */
  function Ones(d: nat): (r: bv32) {
    if d == 0 then 0 else Push(Ones(d - 1), 1)
  }

  predicate Fits(w: bv32, d: nat) { Under(w, Ones(d)) }

  lemma ShiftUnder(w: bv32, m: bv32)
    requires Under(w, m)
    ensures Under(w << 1, (m << 1) | 1) && Under((w << 1) | 1, (m << 1) | 1)
  {
  }

  lemma PushUnder(w: bv32, m: bv32, b: bv32)
    requires Under(w, m) && (b == 0 || b == 1)
    ensures Under(Push(w, b), Push(m, 1))
  {
    hide Under;
    ShiftUnder(w, m);
    if b == 0 {
      assert Push(w, b) == w << 1;
    } else {
      assert Push(w, b) == (w << 1) | 1;
    }
  }

  lemma ZeroUnder(m: bv32)
    ensures Under(0, m)
  {
  }

  lemma RestUnder(w: bv32, m: bv32)
    requires Under(w, Push(m, 1))
    ensures Under(Rest(w), m)
  {
  }

  lemma UnderZero(w: bv32)
    requires Under(w, 0)
    ensures w == 0
  {
  }

  lemma UnderTrans(a: bv32, b: bv32, c: bv32)
    requires Under(a, b) && Under(b, c)
    ensures Under(a, c)
  {
    assert a & !c == a & !c & (b | !b);
  }

  lemma RestOfPush(w: bv32, b: bv32)
    requires Under(w, 0x7FFF_FFFF) && (b == 0 || b == 1)
    ensures Rest(Push(w, b)) == w && Low(Push(w, b)) == b
    ensures w != 0 || b != 0 ==> Push(w, b) != 0
  {
  }

  lemma PushOfRest(w: bv32)
    ensures w == Push(Rest(w), Low(w))
  {
  }

  lemma {:induction false} WordFits(n: nat, d: nat)
    requires n < Pow2(d)
    ensures Fits(Word(n), d)
  {
    hide Bit, Under, Push;
    if n == 0 {
      ZeroUnder(Ones(d));
    } else {
      WordFits(n / 2, d - 1);
      PushUnder(Word(n / 2), Ones(d - 1), Bit(n));
    }
  }

  lemma {:induction false} OnesUnder(d: nat, e: nat)
    requires d <= e
    ensures Under(Ones(d), Ones(e))
  {
    hide Under, Push;
    if d == 0 {
      ZeroUnder(Ones(e));
    } else {
      OnesUnder(d - 1, e - 1);
      PushUnder(Ones(d - 1), Ones(e - 1), 1);
    }
  }

  lemma OnesValues()
    ensures Ones(1) == 0x1 && Ones(3) == 0x7 && Ones(4) == 0xF && Ones(5) == 0x1F && Ones(6) == 0x3F
         && Ones(10) == 0x3FF
    ensures Ones(11) == 0x7FF && Ones(12) == 0xFFF && Ones(13) == 0x1FFF && Ones(18) == 0x3_FFFF
    ensures Ones(20) == 0xF_FFFF && Ones(31) == 0x7FFF_FFFF
  {
    assert Ones(8) == 0xFF;
    assert Ones(16) == 0xFFFF by { assert Ones(14) == 0x3FFF; }
    assert Ones(24) == 0xFF_FFFF by { assert Ones(22) == 0x3F_FFFF; }
    assert Ones(28) == 0xFFF_FFFF by { assert Ones(26) == 0x3FF_FFFF; }
    assert Ones(30) == 0x3FFF_FFFF;
  }

  lemma {:induction false} ValueOfWord(n: nat, d: nat)
    requires n < Pow2(d) && d <= 32
    ensures Value(Word(n)) == n
  {
    hide Under, Push, Rest, Low;
    if n > 0 {
      var w, b := Word(n / 2), Bit(n);
      ValueOfWord(n / 2, d - 1);
      WordFits(n / 2, d - 1);
      OnesUnder(d - 1, 31);
      OnesValues();
      UnderTrans(w, Ones(d - 1), 0x7FFF_FFFF);
      RestOfPush(w, b);
    }
  }

  lemma {:induction false} WordOfValue(w: bv32)
    ensures Word(Value(w)) == w
    decreases w
  {
    hide Push, Rest, Low;
    if w != 0 {
      PushOfRest(w);
      ZeroPushed();
      WordOfValue(Rest(w));
      var v := Value(Rest(w));
      assert Value(w) / 2 == v && Bit(Value(w)) == Low(w);
      hide Bit;
    }
  }

  lemma ZeroPushed()
    ensures Push(0, 0) == 0
  {
  }

  lemma {:induction false} ValueFits(w: bv32, d: nat)
    requires Fits(w, d)
    ensures Value(w) < Pow2(d)
    decreases d
  {
    hide Push, Rest, Low, Under;
    if d == 0 {
      UnderZero(w);
    } else if w != 0 {
      RestUnder(w, Ones(d - 1));
      ValueFits(Rest(w), d - 1);
    }
  }
}
