/** The noise of ML-KEM bit by bit: section 4.2.2 of FIPS 203. A coefficient is the number of ones
    among eta bits of the stream minus the number of ones among the next eta bits. */
module MlkemNoise {
  import opened Polynomials
  import opened Words
  import opened BitOrder
  import opened Rejection
  import opened Cbd
  import opened MlkemKpke

  /** The number of ones among n bits of a stream. */
  function Ones(s: Stream, from: nat, n: nat): (r: nat)
    decreases n
  {
    if n == 0 then 0 else StreamBit(s, from) + Ones(s, from + 1, n - 1)
  }

  /** Coefficient i of a centred binomial polynomial. */
  function Binomial(s: Stream, eta: nat, i: nat): (r: int) {
    Ones(s, 2 * eta * i, eta) - Ones(s, 2 * eta * i + eta, eta)
  }

  // ----- the bits the samplers count

  lemma DigitIsByteBit(b: byte, j: nat)
    requires j < 8
    ensures ByteBit(b, j) == Digit(b, j)
  {
    hide *;
    if j == 0 {
      ByteBit0(b);
    } else if j == 1 {
      ByteBit1(b);
    } else if j == 2 {
      ByteBit2(b);
    } else if j == 3 {
      ByteBit3(b);
    } else if j == 4 {
      ByteBit4(b);
    } else if j == 5 {
      ByteBit5(b);
    } else if j == 6 {
      ByteBit6(b);
    } else if j == 7 {
      ByteBit7(b);
    }
  }

  lemma ByteBit0(b: byte)
    ensures ByteBit(b, 0) == Digit(b, 0)
  {
  }

  lemma ByteBit1(b: byte)
    ensures ByteBit(b, 1) == Digit(b, 1)
  {
  }

  lemma ByteBit2(b: byte)
    ensures ByteBit(b, 2) == Digit(b, 2)
  {
  }

  lemma ByteBit3(b: byte)
    ensures ByteBit(b, 3) == Digit(b, 3)
  {
  }

  lemma ByteBit4(b: byte)
    ensures ByteBit(b, 4) == Digit(b, 4)
  {
  }

  lemma ByteBit5(b: byte)
    ensures ByteBit(b, 5) == Digit(b, 5)
  {
  }

  lemma ByteBit6(b: byte)
    ensures ByteBit(b, 6) == Digit(b, 6)
  {
  }

  lemma ByteBit7(b: byte)
    ensures ByteBit(b, 7) == Digit(b, 7)
  {
  }

  lemma SmallDigit(w: bv32)
    requires w == 0 || w == 1
    ensures Small(w) == if w == 1 then 1 else 0
  {
  }

  lemma NumIsUpper(b: byte)
    ensures Num(b) == Upper(b, 0, 0)
  {
    hide Num, Weighted;
    NumOfDigits(b);
    assert Upper(b, 0, 6) == 2 * Weighted(b, 7) + Weighted(b, 6);
    assert Upper(b, 0, 4) == 4 * Upper(b, 0, 6) + 2 * Weighted(b, 5) + Weighted(b, 4);
    assert Upper(b, 0, 2) == 4 * Upper(b, 0, 4) + 2 * Weighted(b, 3) + Weighted(b, 2);
  }

  lemma {:induction false} BitOfUpper(b: byte, r: nat, j: nat)
    requires r + j < 8
    ensures BitOrder.Bit(Upper(b, 0, r), j) == Weighted(b, r + j)
    decreases j
  {
    hide Digit, BitOrder.Bit;
    var y := Upper(b, 0, r + 1);
    assert Upper(b, 0, r) == 2 * y + Weighted(b, r);
    BitStep(Weighted(b, r), y, j);
    if j > 0 {
      BitOfUpper(b, r + 1, j - 1);
    }
  }

  lemma BitStep(x: nat, y: nat, j: nat)
    requires x < 2
    ensures BitOrder.Bit(2 * y + x, j) == if j == 0 then x else BitOrder.Bit(y, j - 1)
  {
  }

  /** The bit the samplers mask out is the binary digit of the byte. */
  lemma CountedBit(b: byte, j: nat)
    requires j < 8
    ensures Small(ByteBit(b, j)) == BitOrder.Bit(Num(b), j)
  {
    hide ByteBit, Digit, Small, Upper, Num, BitOrder.Bit;
    DigitIsByteBit(b, j);
    IsDigit(b, j);
    SmallDigit(Digit(b, j));
    NumIsUpper(b);
    BitOfUpper(b, 0, j);
  }

  lemma TwoOnes(s: Stream, from: nat)
    ensures Ones(s, from, 2) == StreamBit(s, from) + StreamBit(s, from + 1)
  {
    hide StreamBit;
    assert Ones(s, from, 2) == StreamBit(s, from) + Ones(s, from + 1, 1);
    assert Ones(s, from + 1, 1) == StreamBit(s, from + 1) + Ones(s, from + 2, 0);
  }

  lemma ThreeOnes(s: Stream, from: nat)
    ensures Ones(s, from, 3) == StreamBit(s, from) + StreamBit(s, from + 1) + StreamBit(s, from + 2)
  {
    hide StreamBit;
    assert Ones(s, from, 3) == StreamBit(s, from) + Ones(s, from + 1, 2);
    TwoOnes(s, from + 1);
  }

  lemma Cbd2Binomial(s: Stream, i: nat)
    requires i < N
    ensures Cbd2(Bytes(s, 0, 128))[i] == Binomial(s, 2, i)
  {
    hide ByteBit, Small, StreamBit, Ones;
    NibbleBit(s, i, 0);
    NibbleBit(s, i, 1);
    NibbleBit(s, i, 2);
    NibbleBit(s, i, 3);
    TwoOnes(s, 4 * i);
    TwoOnes(s, 4 * i + 2);
  }

  lemma NibbleBit(s: Stream, i: nat, j: nat)
    requires j < 4
    ensures Small(ByteBit(s(i / 2), 4 * (i % 2) + j)) == StreamBit(s, 4 * i + j)
  {
    hide ByteBit, Small, Num, BitOrder.Bit;
    CountedBit(s(i / 2), 4 * (i % 2) + j);
    assert (4 * i + j) / 8 == i / 2 && (4 * i + j) % 8 == 4 * (i % 2) + j;
  }

  lemma GroupedBit(s: Stream, g: nat, x: seq<byte>, k: nat)
    requires |x| == 3 && k < 24 && forall j :: 0 <= j < 3 ==> x[j] == s(3 * g + j)
    ensures GroupBit(x, k) == StreamBit(s, 24 * g + k)
  {
    hide ByteBit, Small, Num, BitOrder.Bit;
    CountedBit(x[k / 8], k % 8);
    assert (24 * g + k) / 8 == 3 * g + k / 8 && (24 * g + k) % 8 == k % 8;
  }

  lemma Cbd3Binomial(s: Stream, i: nat)
    requires i < N
    ensures Cbd3(Bytes(s, 0, 192))[i] == Binomial(s, 3, i)
  {
    hide GroupBit, StreamBit, Ones;
    var g, j := i / 4, i % 4;
    var x := Bytes(s, 0, 192)[3 * g..3 * g + 3];
    GroupedBit(s, g, x, 6 * j);
    GroupedBit(s, g, x, 6 * j + 1);
    GroupedBit(s, g, x, 6 * j + 2);
    GroupedBit(s, g, x, 6 * j + 3);
    GroupedBit(s, g, x, 6 * j + 4);
    GroupedBit(s, g, x, 6 * j + 5);
    ThreeOnes(s, 6 * i);
    ThreeOnes(s, 6 * i + 3);
    assert 24 * g + 6 * j == 6 * i;
  }

  // ----- the polynomials

  /** eta1 of the parameter sets. */
  function Eta1(p: Params): (eta: nat) { if p == ML_KEM_512 then 3 else 2 }

  /** getnoise_eta1: the noise of nonce n, from the stream of seed and n. */
  lemma Noise1Binomial(e: Hashes, p: Params, seed: seq<byte>, nonce: nat, i: nat)
    requires IsParams(p) && nonce < 256 && i < N
    ensures Noise1(e, p, seed, nonce)[i] == Binomial(e.prf(seed + [ByteOf(nonce)]), Eta1(p), i)
  {
    hide Cbd2, Cbd3, Binomial;
    Cbd2Binomial(e.prf(seed + [ByteOf(nonce)]), i);
    Cbd3Binomial(e.prf(seed + [ByteOf(nonce)]), i);
  }

  /** getnoise_eta2: eta is 2 for every parameter set. */
  lemma Noise2Binomial(e: Hashes, seed: seq<byte>, nonce: nat, i: nat)
    requires nonce < 256 && i < N
    ensures Noise2(e, seed, nonce)[i] == Binomial(e.prf(seed + [ByteOf(nonce)]), 2, i)
  {
    hide Cbd2, Binomial;
    Cbd2Binomial(e.prf(seed + [ByteOf(nonce)]), i);
  }
}
