/** tools/pqc/mldsa/fips202.c: what the Keccak sponge computes, incremental and in one call, on a
    state of 200 bytes and for any function on states as permutation. */
module Sponge {
  import opened Modular
  import opened Words

  const WIDTH: nat := 200

  type State = s: seq<byte> | |s| == 200 witness seq(200, _ => 0)

  type Permutation = State -> State

  /** Rates are whole lanes: 168 and 136 for SHAKE128 and SHAKE256, 136 and 72 for SHA3-256 and SHA3-512. */
  predicate IsRate(r: nat) { 0 < r <= WIDTH && r % 8 == 0 }

  const ZERO_STATE: State := seq(200, _ => 0)

  function Xor(a: byte, b: byte): (r: byte) { a ^ b }

  /** s[i / 8] ^= (uint64_t) b << 8 * (i % 8) */
  function XorByte(s: State, i: nat, b: byte): (r: State)
    requires i < WIDTH
  {
    s[i := Xor(s[i], b)]
  }

  // ----- absorbing, one byte at a time

  /** A sponge state and the number of bytes absorbed into, or squeezed out of, the current block. */
  datatype Progress = Progress(s: State, pos: nat)

  function AbsorbByte(f: Permutation, r: nat, p: Progress, b: byte): (q: Progress)
    requires IsRate(r) && p.pos < r
    ensures q.pos < r
  {
    var s := XorByte(p.s, p.pos, b);
    if p.pos + 1 == r then Progress(f(s), 0) else Progress(s, p.pos + 1)
  }

  function AbsorbBytes(f: Permutation, r: nat, p: Progress, x: seq<byte>): (q: Progress)
    requires IsRate(r) && p.pos < r
    ensures q.pos < r
    decreases |x|
  {
    if x == [] then p else AbsorbBytes(f, r, AbsorbByte(f, r, p, x[0]), x[1..])
  }

  function Finalized(r: nat, p: Progress, suffix: byte): (y: State)
    requires IsRate(r) && p.pos < r
  {
    XorByte(XorByte(p.s, p.pos, suffix), r - 1, 0x80)
  }

  /** Absorbing in two calls is absorbing the concatenation. */
  lemma {:induction false} AbsorbAppend(f: Permutation, r: nat, p: Progress, x: seq<byte>, y: seq<byte>)
    requires IsRate(r) && p.pos < r
    ensures AbsorbBytes(f, r, p, x + y) == AbsorbBytes(f, r, AbsorbBytes(f, r, p, x), y)
    decreases |x|
  {
    hide AbsorbByte;
    if x == [] {
      assert x + y == y;
    } else {
      assert (x + y)[1..] == x[1..] + y;
      AbsorbAppend(f, r, AbsorbByte(f, r, p, x[0]), x[1..], y);
    }
  }

  function Concat(xs: seq<seq<byte>>): (r: seq<byte>) {
    if xs == [] then [] else xs[0] + Concat(xs[1..])
  }

  function AbsorbAll(f: Permutation, r: nat, p: Progress, xs: seq<seq<byte>>): (q: Progress)
    requires IsRate(r) && p.pos < r
    ensures q.pos < r
    decreases |xs|
  {
    if xs == [] then p else AbsorbAll(f, r, AbsorbBytes(f, r, p, xs[0]), xs[1..])
  }

  /** However the input is split, the state is the one of the whole input. */
  lemma {:induction false} AnySplit(f: Permutation, r: nat, p: Progress, xs: seq<seq<byte>>)
    requires IsRate(r) && p.pos < r
    ensures AbsorbAll(f, r, p, xs) == AbsorbBytes(f, r, p, Concat(xs))
    decreases |xs|
  {
    hide AbsorbBytes;
    if xs == [] {
      NothingAbsorbed(f, r, p);
    } else {
      AnySplit(f, r, AbsorbBytes(f, r, p, xs[0]), xs[1..]);
      AbsorbAppend(f, r, p, xs[0], Concat(xs[1..]));
    }
  }

  lemma NothingAbsorbed(f: Permutation, r: nat, p: Progress)
    requires IsRate(r) && p.pos < r
    ensures AbsorbBytes(f, r, p, []) == p
  {
  }

  // ----- whole blocks

  /** x xored into the bytes of s from place i on. */
  function XorBytes(s: State, i: nat, x: seq<byte>): (r: State)
    requires i + |x| <= WIDTH
    decreases |x|
  {
    if x == [] then s else XorBytes(XorByte(s, i, x[0]), i + 1, x[1..])
  }

  lemma {:induction false} XorBytesAt(s: State, i: nat, x: seq<byte>, j: nat)
    requires i + |x| <= WIDTH && j < WIDTH
    ensures XorBytes(s, i, x)[j] == if i <= j < i + |x| then Xor(s[j], x[j - i]) else s[j]
    decreases |x|
  {
    hide Xor;
    if x != [] {
      XorBytesAt(XorByte(s, i, x[0]), i + 1, x[1..], j);
    }
  }

  lemma {:induction false} FillBlock(f: Permutation, r: nat, p: Progress, x: seq<byte>)
    requires IsRate(r) && p.pos < r && p.pos + |x| <= r && x != []
    ensures AbsorbBytes(f, r, p, x)
         == if p.pos + |x| == r then Progress(f(XorBytes(p.s, p.pos, x)), 0)
              else Progress(XorBytes(p.s, p.pos, x), p.pos + |x|)
    decreases |x|
  {
    hide XorByte;
    var q := AbsorbByte(f, r, p, x[0]);
    if |x| == 1 {
      assert x[1..] == [];
      NothingAbsorbed(f, r, q);
    } else {
      FillBlock(f, r, q, x[1..]);
    }
  }

  // ----- the sponge of section 4 of FIPS 202

  /** f applied after each block of the padded input. */
  function AbsorbBlocks(f: Permutation, r: nat, s: State, x: seq<byte>): (y: State)
    requires IsRate(r)
    decreases |x|
  {
    if |x| < r then s else AbsorbBlocks(f, r, f(XorBytes(s, 0, x[..r])), x[r..])
  }

  /** The suffix bits and pad10*1: suffix after the message, zeros, and the last bit of the last block. */
  function Padding(r: nat, n: nat, suffix: byte): (x: seq<byte>)
    requires IsRate(r) && n < r
    ensures |x| == r - n
  {
    var zeros := seq(r - n, _ => 0);
    var first := zeros[0 := suffix];
    first[r - n - 1 := Xor(first[r - n - 1], 0x80)]
  }

  function Padded(r: nat, x: seq<byte>, suffix: byte): (y: seq<byte>)
    requires IsRate(r)
    decreases |x|
  {
    if |x| < r then x + Padding(r, |x|, suffix) else x[..r] + Padded(r, x[r..], suffix)
  }

  lemma XorZero(a: byte)
    ensures Xor(a, 0) == a
  {
  }

  lemma XorAssoc(a: byte, b: byte, c: byte)
    ensures Xor(Xor(a, b), c) == Xor(a, Xor(b, c))
  {
  }

  lemma PaddingAt(r: nat, n: nat, suffix: byte, k: nat)
    requires IsRate(r) && n < r && k < r - n
    ensures Padding(r, n, suffix)[k] == Xor(if k == 0 then suffix else 0, if k == r - n - 1 then 0x80 else 0)
  {
    hide Xor;
    XorZero(suffix);
    XorZero(0);
  }

  lemma FinalizedAt(r: nat, p: Progress, suffix: byte, j: nat)
    requires IsRate(r) && p.pos < r && j < WIDTH
    ensures Finalized(r, p, suffix)[j] == Xor(Xor(p.s[j], if j == p.pos then suffix else 0), if j == r - 1 then 0x80
         else 0)
  {
    hide Xor;
    XorZero(p.s[j]);
    XorZero(Xor(p.s[j], suffix));
  }

  /** The last block: xoring message and padding is what finalize does to the open block. */
  lemma LastBlock(r: nat, s: State, x: seq<byte>, suffix: byte)
    requires IsRate(r) && |x| < r
    ensures XorBytes(s, 0, x + Padding(r, |x|, suffix)) == Finalized(r, Progress(XorBytes(s, 0, x), |x|), suffix)
  {
    hide XorBytes, Padding, Finalized, Xor;
    var n, pad := |x|, Padding(r, |x|, suffix);
    var open := XorBytes(s, 0, x);
    var a, b := XorBytes(s, 0, x + pad), Finalized(r, Progress(open, n), suffix);
    forall j | 0 <= j < WIDTH
      ensures a[j] == b[j]
    {
      XorBytesAt(s, 0, x + pad, j);
      XorBytesAt(s, 0, x, j);
      FinalizedAt(r, Progress(open, n), suffix, j);
      XorZero(open[j]);
      if n <= j < r {
        PaddingAt(r, n, suffix, j - n);
        assert (x + pad)[j] == pad[j - n];
        XorAssoc(s[j], if j == n then suffix else 0, if j == r - 1 then 0x80 else 0);
      } else {
        assert j < n ==> (x + pad)[j] == x[j];
      }
    }
    assert a == b;
  }

  lemma OpenBlock(f: Permutation, r: nat, s: State, x: seq<byte>)
    requires IsRate(r) && |x| < r
    ensures AbsorbBytes(f, r, Progress(s, 0), x) == Progress(XorBytes(s, 0, x), |x|)
  {
    if x != [] {
      FillBlock(f, r, Progress(s, 0), x);
    }
  }

  /** Absorbing byte by byte, finalizing and permuting once is the block-wise sponge on the padded input. */
  lemma {:induction false} AbsorbIsSponge(f: Permutation, r: nat, s: State, x: seq<byte>, suffix: byte)
    requires IsRate(r)
    ensures f(Finalized(r, AbsorbBytes(f, r, Progress(s, 0), x), suffix)) == AbsorbBlocks(f, r, s, Padded(r, x, suffix))
    decreases |x|
  {
    hide AbsorbBytes, Finalized, XorBytes, Padding;
    if |x| < r {
      OpenBlock(f, r, s, x);
      LastBlock(r, s, x, suffix);
      OneBlock(f, r, s, x + Padding(r, |x|, suffix));
    } else {
      var s' := f(XorBytes(s, 0, x[..r]));
      FillBlock(f, r, Progress(s, 0), x[..r]);
      AbsorbAppend(f, r, Progress(s, 0), x[..r], x[r..]);
      assert x == x[..r] + x[r..];
      AbsorbIsSponge(f, r, s', x[r..], suffix);
      var rest := Padded(r, x[r..], suffix);
      assert (x[..r] + rest)[..r] == x[..r] && (x[..r] + rest)[r..] == rest;
    }
  }

  lemma OneBlock(f: Permutation, r: nat, s: State, x: seq<byte>)
    requires IsRate(r) && |x| == r
    ensures AbsorbBlocks(f, r, s, x) == f(XorBytes(s, 0, x))
  {
    assert x[..r] == x && x[r..] == [];
  }

  // ----- squeezing

  function SqueezeByte(f: Permutation, r: nat, p: Progress): (q: (byte, Progress))
    requires IsRate(r) && p.pos <= r
    ensures 0 < q.1.pos <= r
  {
    var o := if p.pos == r then Progress(f(p.s), 0) else p;
    (o.s[o.pos], Progress(o.s, o.pos + 1))
  }

  function SqueezeBytes(f: Permutation, r: nat, p: Progress, n: nat): (q: (seq<byte>, Progress))
    requires IsRate(r) && p.pos <= r
    ensures |q.0| == n && q.1.pos <= r
    decreases n
  {
    if n == 0 then ([], p)
    else
      var (b, o) := SqueezeByte(f, r, p);
      var (x, q) := SqueezeBytes(f, r, o, n - 1);
      ([b] + x, q)
  }

  /** Squeezing in two calls is squeezing once. */
  lemma {:induction false} SqueezeAppend(f: Permutation, r: nat, p: Progress, m: nat, n: nat)
    requires IsRate(r) && p.pos <= r
    ensures var (x, q) := SqueezeBytes(f, r, p, m); var (y, o) := SqueezeBytes(f, r, q, n);
      SqueezeBytes(f, r, p, m + n) == (x + y, o)
    decreases m
  {
    hide SqueezeByte;
    if m == 0 {
      assert [] + SqueezeBytes(f, r, p, n).0 == SqueezeBytes(f, r, p, n).0;
    } else {
      var (b, o) := SqueezeByte(f, r, p);
      SqueezeAppend(f, r, o, m - 1, n);
      var x, y := SqueezeBytes(f, r, o, m - 1), SqueezeBytes(f, r, SqueezeBytes(f, r, o, m - 1).1, n);
      assert [b] + (x.0 + y.0) == ([b] + x.0) + y.0;
    }
  }

  function SqueezeAll(f: Permutation, r: nat, p: Progress, ns: seq<nat>): (q: (seq<byte>, Progress))
    requires IsRate(r) && p.pos <= r
    ensures q.1.pos <= r
    decreases |ns|
  {
    if ns == [] then ([], p)
    else
      var (x, o) := SqueezeBytes(f, r, p, ns[0]);
      var (y, q) := SqueezeAll(f, r, o, ns[1..]);
      (x + y, q)
  }

  function Total(ns: seq<nat>): (r: nat) {
    if ns == [] then 0 else ns[0] + Total(ns[1..])
  }

  /** However the output is asked for, it is one stream. */
  lemma {:induction false} AnyPieces(f: Permutation, r: nat, p: Progress, ns: seq<nat>)
    requires IsRate(r) && p.pos <= r
    ensures SqueezeAll(f, r, p, ns) == SqueezeBytes(f, r, p, Total(ns))
    decreases |ns|
  {
    if ns != [] {
      AnyPieces(f, r, SqueezeBytes(f, r, p, ns[0]).1, ns[1..]);
      SqueezeAppend(f, r, p, ns[0], Total(ns[1..]));
    }
    hide SqueezeByte;
  }

  /** f applied n times. */
  function Permuted(f: Permutation, s: State, n: nat): (r: State) {
    if n == 0 then s else f(Permuted(f, s, n - 1))
  }

  lemma {:induction false} PermutedFirst(f: Permutation, s: State, n: nat)
    ensures Permuted(f, f(s), n) == Permuted(f, s, n + 1)
  {
    if n > 0 {
      PermutedFirst(f, s, n - 1);
    }
  }

  /** Byte i of the output of section 4 of FIPS 202, from the state after absorbing: byte
      i % r of the state permuted i / r times. */
  function StreamByte(f: Permutation, r: nat, s: State, i: nat): (y: byte)
    requires IsRate(r)
  {
    Permuted(f, s, i / r)[i % r]
  }

  lemma {:induction false} SqueezeWithin(f: Permutation, r: nat, s: State, pos: nat, n: nat)
    requires IsRate(r) && pos + n <= r
    ensures SqueezeBytes(f, r, Progress(s, pos), n) == (s[pos..pos + n], Progress(s, pos + n))
    decreases n
  {
    if n == 0 {
      assert s[pos..pos] == [];
    } else {
      SqueezeWithin(f, r, s, pos + 1, n - 1);
      assert s[pos..pos + n] == [s[pos]] + s[pos + 1..pos + 1 + (n - 1)];
    }
  }

  /** From the state after finalizing, with nothing of it squeezed yet. */
  lemma {:induction false} SqueezeIsStream(f: Permutation, r: nat, s: State, n: nat, i: nat)
    requires IsRate(r) && i < n
    ensures SqueezeBytes(f, r, Progress(s, r), n).0[i] == StreamByte(f, r, f(s), i)
    decreases n
  {
    hide SqueezeBytes, SqueezeByte, StreamByte;
    FirstPermutes(f, r, s, n);
    var m := if n < r then n else r;
    SqueezeWithin(f, r, f(s), 0, m);
    SqueezeAppend(f, r, Progress(f(s), 0), m, n - m);
    if i < m {
      FirstByte(f, r, f(s), i);
    } else {
      SqueezeIsStream(f, r, f(s), n - m, i - m);
      LaterByte(f, r, f(s), i);
    }
  }

  lemma FirstByte(f: Permutation, r: nat, s: State, i: nat)
    requires IsRate(r) && i < r
    ensures StreamByte(f, r, s, i) == s[i]
  {
    FirstBlock(r, i);
  }

  lemma LaterByte(f: Permutation, r: nat, s: State, i: nat)
    requires IsRate(r) && i >= r
    ensures StreamByte(f, r, s, i) == StreamByte(f, r, f(s), i - r)
  {
    LaterBlock(r, i);
    hide Xor;
    PermutedFirst(f, s, (i - r) / r);
  }

  lemma FirstPermutes(f: Permutation, r: nat, s: State, n: nat)
    requires IsRate(r) && n > 0
    ensures SqueezeBytes(f, r, Progress(s, r), n) == SqueezeBytes(f, r, Progress(f(s), 0), n)
  {
  }

  lemma FirstBlock(r: nat, i: nat)
    requires i < r
    ensures i / r == 0 && i % r == i
  {
  }

  lemma LaterBlock(r: nat, i: nat)
    requires 0 < r <= i
    ensures i / r == (i - r) / r + 1 && i % r == (i - r) % r
  {
    var b, m := (i - r) / r, (i - r) % r;
    assert i == (b + 1) * r + m;
    QuotientRemainder(r, b + 1, m);
  }

  // ----- what the loops over bytes need

  lemma {:induction false} XorAppend(s: State, i: nat, x: seq<byte>, y: seq<byte>)
    requires i + |x| + |y| <= WIDTH
    ensures XorBytes(s, i, x + y) == XorBytes(XorBytes(s, i, x), i + |x|, y)
    decreases |x|
  {
    if x == [] {
      assert x + y == y;
    } else {
      assert (x + y)[1..] == x[1..] + y;
      XorAppend(XorByte(s, i, x[0]), i + 1, x[1..], y);
    }
  }

  lemma XorSnoc(s: State, i: nat, x: seq<byte>, n: nat)
    requires n < |x| && i + |x| <= WIDTH
    ensures XorBytes(s, i, x[..n + 1]) == XorByte(XorBytes(s, i, x[..n]), i + n, x[n])
  {
    assert x[..n + 1] == x[..n] + [x[n]];
    XorAppend(s, i, x[..n], [x[n]]);
    XorOne(XorBytes(s, i, x[..n]), i + n, x[n]);
  }

  lemma XorOne(s: State, i: nat, b: byte)
    requires i < WIDTH
    ensures XorBytes(s, i, [b]) == XorByte(s, i, b)
  {
    assert [b][1..] == [];
  }

  lemma XorNothing(s: State, i: nat)
    requires i <= WIDTH
    ensures XorBytes(s, i, []) == s
  {
  }

  lemma TailBlock(f: Permutation, r: nat, p: Progress, x: seq<byte>)
    requires IsRate(r) && p.pos < r && p.pos + |x| < r
    ensures AbsorbBytes(f, r, p, x) == Progress(XorBytes(p.s, p.pos, x), p.pos + |x|)
  {
    if x != [] {
      FillBlock(f, r, p, x);
    }
  }

  lemma NothingSqueezed(f: Permutation, r: nat, p: Progress)
    requires IsRate(r) && p.pos <= r
    ensures SqueezeBytes(f, r, p, 0) == ([], p)
  {
  }

  lemma PermutedLate(f: Permutation, r: nat, p: Progress, n: nat)
    requires IsRate(r) && p.pos <= r && n > 0
    ensures SqueezeBytes(f, r, p, n) == SqueezeBytes(f, r, if p.pos == r then Progress(f(p.s), 0) else p, n)
  {
  }

  /** Any sequence of incremental absorbs, then finalize, then any sequence of squeezes: one
      stream, the one of the whole input. */
  lemma IncrementalIsShake(f: Permutation, r: nat, xs: seq<seq<byte>>, ns: seq<nat>, i: nat)
    requires IsRate(r) && i < Total(ns)
    ensures var p := AbsorbAll(f, r, Progress(ZERO_STATE, 0), xs);
      var out := SqueezeAll(f, r, Progress(Finalized(r, p, 0x1F), r), ns).0;
      |out| == Total(ns) && out[i] == StreamByte(f, r, AbsorbBlocks(f, r, ZERO_STATE, Padded(r, Concat(xs), 0x1F)), i)
  {
    hide SqueezeBytes, Finalized, AbsorbBytes, AbsorbBlocks, Padded, StreamByte;
    AnySplit(f, r, Progress(ZERO_STATE, 0), xs);
    AbsorbIsSponge(f, r, ZERO_STATE, Concat(xs), 0x1F);
    var s := Finalized(r, AbsorbAll(f, r, Progress(ZERO_STATE, 0), xs), 0x1F);
    AnyPieces(f, r, Progress(s, r), ns);
    SqueezeIsStream(f, r, s, Total(ns), i);
  }
}
