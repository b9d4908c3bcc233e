/** tools/pqc/mlkem/mlkem_poly.c and polyvec.c: rounding coefficients to d bits and back
    without division, and the message bits. */
module MlkemCompress {
  import opened Modular
  import opened MlkemReduce

  predicate IsDepth(d: nat) { d == 4 || d == 5 || d == 10 || d == 11 }

  function Levels(d: nat): (r: int)
    requires IsDepth(d)
  {
    if d == 4 then 16 else if d == 5 then 32 else if d == 10 then 1024 else 2048
  }

  /** u >> 15 is all ones for a negative 16-bit value, so Q is added to those. */
  function Standard(a: int): (r: int) { if a < 0 then a + Q else a }

  function U32(x: int): (r: int) { x % 0x1_0000_0000 }

  /** The multiply-and-shift forms; for d 4 and 5 the product is a uint32_t and wraps. */
  function Compress(d: nat, a: int): (r: int)
    requires IsDepth(d)
  {
    var u := Standard(a);
    if d == 4 then U32((16 * u + 1665) * 80635) / 0x1000_0000 % 16
    else if d == 5 then U32((32 * u + 1664) * 40318) / 0x800_0000 % 32
    else if d == 10 then (1024 * u + 1665) * 1290167 / 0x1_0000_0000 % 1024
    else (2048 * u + 1664) * 645084 / 0x8000_0000 % 2048
  }

  function Decompress(d: nat, y: int): (r: int)
    requires IsDepth(d)
  {
    (y * Q + Levels(d) / 2) / Levels(d)
  }

  /** Section 4.2.1 of FIPS 203: round(2^d * x / q) mod 2^d, with x the standard representative. */
  function Rounded(d: nat, x: int): (r: int)
    requires IsDepth(d)
  {
    (2 * Levels(d) * x + Q) / (2 * Q) % Levels(d)
  }

  /** q is odd, so rounding is a division of n + 1664. */
  lemma RoundHalfUp(n: int, y: int)
    requires y == (n + 1664) / Q
    ensures (2 * n + Q) / (2 * Q) == y
  {
  }

  lemma Wrapped4(p: int, y: int)
    requires y * 0x1000_0000 <= p < (y + 1) * 0x1000_0000
    ensures U32(p) / 0x1000_0000 % 16 == y % 16
  {
    var w := p / 0x1_0000_0000;
    assert p - w * 0x1_0000_0000 == U32(p);
    assert (y - 16 * w) * 0x1000_0000 <= U32(p) < (y - 16 * w + 1) * 0x1000_0000;
  }

  lemma Wrapped5(p: int, y: int)
    requires y * 0x800_0000 <= p < (y + 1) * 0x800_0000
    ensures U32(p) / 0x800_0000 % 32 == y % 32
  {
    var w := p / 0x1_0000_0000;
    assert p - w * 0x1_0000_0000 == U32(p);
    assert (y - 32 * w) * 0x800_0000 <= U32(p) < (y - 32 * w + 1) * 0x800_0000;
  }

  lemma Compress4(x: int)
    requires 0 <= x < Q
    ensures Compress(4, x) == Rounded(4, x)
  {
    var y, r := (16 * x + 1664) / Q, (16 * x + 1664) % Q;
    RoundHalfUp(16 * x, y);
    Wrapped4((16 * x + 1665) * 80635, y);
  }

  lemma Compress5(x: int)
    requires 0 <= x < Q
    ensures Compress(5, x) == Rounded(5, x)
  {
    var y, r := (32 * x + 1664) / Q, (32 * x + 1664) % Q;
    RoundHalfUp(32 * x, y);
    Wrapped5((32 * x + 1664) * 40318, y);
  }

  /** The error bound alone does not exclude y >= 954 with remainder 0; the residue does. */
  lemma Residue10(x: int, y: int)
    requires 0 <= x < Q && 1024 * x + 1664 == y * Q
    ensures y == 640
  {
    assert y == 1024 * (769 * x - 2500 * y + 1249) + 640;
  }

  lemma Compress10(x: int)
    requires 0 <= x < Q
    ensures Compress(10, x) == Rounded(10, x)
  {
    var y, r := (1024 * x + 1664) / Q, (1024 * x + 1664) % Q;
    RoundHalfUp(1024 * x, y);
    if r == 0 {
      Residue10(x, y);
    }
    var p := (1024 * x + 1665) * 1290167;
    assert y * 0x1_0000_0000 <= p < (y + 1) * 0x1_0000_0000;
  }

  /** The three largest remainders are the ones the bound does not cover. */
  lemma Residue11(x: int, y: int, r: int)
    requires 0 <= x < Q && 2048 * x + 1664 == y * Q + r && 3326 <= r <= 3328
    ensures y == 384 + 769 * (3328 - r)
  {
    assert y == 2048 * (769 * x - 1250 * y - 625) + 384 + 769 * (3328 - r);
    assert 0 <= y <= 2047;
  }

  lemma Quotient11(y: int, r: int)
    requires 0 <= y <= 2048 && 0 <= r < Q && (r >= 3326 ==> y == 384 + 769 * (3328 - r))
    ensures 0 <= 988 * y + 645084 * r < 0x8000_0000
  {
    assert r >= 3326 ==> r == 3326 || r == 3327 || r == 3328;
  }

  lemma Compress11(x: int)
    requires 0 <= x < Q
    ensures Compress(11, x) == Rounded(11, x)
  {
    var y, r := (2048 * x + 1664) / Q, (2048 * x + 1664) % Q;
    assert 2048 * x + 1664 == y * Q + r;
    RoundHalfUp(2048 * x, y);
    if r >= 3326 {
      Residue11(x, y, r);
    }
    Quotient11(y, r);
    QuotientRemainder(0x8000_0000, y, 988 * y + 645084 * r);
    assert (2048 * x + 1664) * 645084 == y * 0x8000_0000 + (988 * y + 645084 * r);
  }

  /** Every division-free form is the exact rounding, for every reduced coefficient. */
  lemma CompressExact(d: nat, a: int)
    requires IsDepth(d) && -Q < a < Q
    ensures Compress(d, a) == Rounded(d, Standard(a)) && 0 <= Compress(d, a) < Levels(d)
  {
    hide Rounded;
    var x := Standard(a);
    if d == 4 { Compress4(x); } else if d == 5 { Compress5(x); } else if d == 10 { Compress10(x); }
         else { Compress11(x); }
  }

  lemma RoundBack(l: int, x: int, y: int, t: int)
    requires 0 < l < Q && t == l * x && t <= y * Q + l / 2 < t + l
    ensures (2 * t + Q) / (2 * Q) == y
  {
  }

  /** Nothing is lost in the other direction. */
  lemma CompressDecompress(d: nat, y: int)
    requires IsDepth(d) && 0 <= y < Levels(d)
    ensures 0 <= Decompress(d, y) < Q && Compress(d, Decompress(d, y)) == y
  {
    hide Compress, Decompress, Rounded;
    var l, x := Levels(d), Decompress(d, y);
    DecompressBounds(d, y);
    CompressExact(d, x);
    RoundBack(l, x, y, l * x);
    RoundedOf(d, x, l * x);
    assert y % l == y;
  }

  lemma RoundedOf(d: nat, x: int, t: int)
    requires IsDepth(d) && t == Levels(d) * x
    ensures Rounded(d, x) == (2 * t + Q) / (2 * Q) % Levels(d)
  {
    assert 2 * Levels(d) * x == 2 * t;
  }

  lemma DecompressBounds(d: nat, y: int)
    requires IsDepth(d) && 0 <= y < Levels(d)
    ensures var l, x := Levels(d), Decompress(d, y);
      0 <= x < Q && l * x <= y * Q + l / 2 < l * x + l
  {
    var l, x := Levels(d), Decompress(d, y);
    if d == 4 { Floor(16, y * Q + 8, x); } else if d == 5 { Floor(32, y * Q + 16, x); }
    else if d == 10 { Floor(1024, y * Q + 512, x); } else { Floor(2048, y * Q + 1024, x); }
  }

  lemma Floor(l: int, n: int, x: int)
    requires l in {16, 32, 1024, 2048} && x == n / l
    ensures l * x <= n < l * x + l
  {
  }

  /** round(q / 2^(d+1)). */
  function MaxError(d: nat): (r: int)
    requires IsDepth(d)
  {
    if d == 4 then 104 else if d == 5 then 52 else if d == 10 then 2 else 1
  }

  lemma ErrorBound(d: nat, x: int, y: int, z: int)
    requires IsDepth(d) && 0 <= x < Q && 2 * Q * y <= 2 * (Levels(d) * x) + Q < 2 * Q * y + 2 * Q
    requires y < Levels(d) ==> Levels(d) * z <= y * Q + Levels(d) / 2 < Levels(d) * z + Levels(d)
    requires y >= Levels(d) ==> z == 0
    ensures y <= Levels(d)
    ensures -MaxError(d) <= (if y < Levels(d) then z - x else z - x + Q) <= MaxError(d)
  {
    if d == 4 {
    } else if d == 5 {
    } else if d == 10 {
    } else {
    }
  }

  /** The rounding error, taken modulo q around the circle. */
  lemma DecompressCompress(d: nat, a: int) returns (e: int)
    requires IsDepth(d) && -Q < a < Q
    ensures -MaxError(d) <= e <= MaxError(d) && Cong(Decompress(d, Compress(d, a)), a + e, Q)
    ensures 0 <= Decompress(d, Compress(d, a)) < Q
  {
    hide Compress, Decompress, MaxError, Rounded, Cong;
    CompressExact(d, a);
    var x, c := Standard(a), Compress(d, a);
    var k;
    e, k := ErrorOf(d, x, c);
    FromQuotient(Decompress(d, c), a + e, (if a < 0 then 1 else 0) - k, Q);
  }

  lemma ErrorOf(d: nat, x: int, c: int) returns (e: int, k: int)
    requires IsDepth(d) && 0 <= x < Q && c == Rounded(d, x) && 0 <= c < Levels(d)
    ensures -MaxError(d) <= e <= MaxError(d) && Decompress(d, c) == x + e - k * Q && 0 <= Decompress(d, c) < Q
  {
    hide Decompress, MaxError, Rounded;
    var l := Levels(d);
    var t := l * x;
    var y, z := (2 * t + Q) / (2 * Q), Decompress(d, c);
    RoundedOf(d, x, t);
    DecompressBounds(d, c);
    LevelOf(l, y, c, x);
    DecompressZero(d);
    assert 2 * Q * y <= 2 * t + Q < 2 * Q * y + 2 * Q;
    ErrorBound(d, x, y, z);
    e, k := if y < l then z - x else z - x + Q, if y < l then 0 else 1;
  }

  lemma LevelOf(l: int, y: int, c: int, x: int)
    requires l in {16, 32, 1024, 2048} && 0 <= x < Q && y == (2 * (l * x) + Q) / (2 * Q) && c == y % l
    ensures c == if y < l then y else 0
  {
  }

  lemma DecompressZero(d: nat)
    requires IsDepth(d)
    ensures Decompress(d, 0) == 0
  {
  }

  // ----- messages

  /** poly_frommsg: half of q for a one. */
  function FromBit(b: int): (r: int) { if b == 0 then 0 else (Q + 1) / 2 }

  /** poly_tomsg on a centred coefficient: uint32_t arithmetic, also for negative values. */
  function ToBit(a: int): (r: int) { U32((2 * a + 1665) * 80635) / 0x1000_0000 % 2 }

  lemma ToBitExact(a: int)
    requires -1664 <= a <= 1664
    ensures ToBit(a) == if -832 <= a <= 832 then 0 else 1
  {
    var p := (2 * a + 1665) * 80635;
    var y := if a < -832 then -1 else if a <= 832 then 0 else 1;
    Wrapped4(p, y);
  }

  /** Decoding a bit plus centred noise n, reduced: right exactly up to 832, and for a one
      only up to 831 on the upper side. */
  lemma BitSurvives(b: int, n: int, a: int)
    requires (b == 0 || b == 1) && -1664 <= n <= 1664 && -1664 <= a <= 1664 && Cong(a, FromBit(b) + n, Q)
    ensures ToBit(a) == b <==> -832 <= n <= 832 - b
  {
    hide ToBit;
    ToBitExact(a);
    var k := Quotient(a, FromBit(b) + n, Q);
    NoisyBit(b, n, a, k);
  }

  lemma NoisyBit(b: int, n: int, a: int, k: int)
    requires (b == 0 || b == 1) && -1664 <= n <= 1664 && -1664 <= a <= 1664 && a == FromBit(b) + n + k * Q
    ensures (if -832 <= a <= 832 then 0 else 1) == b <==> -832 <= n <= 832 - b
  {
    assert k == 0 || k == -1;
  }
}
