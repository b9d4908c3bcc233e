/** tools/pqc/mldsa/fips202.c on the 25 lanes it works on, with the permutation of keccak.c: byte
    i of the state is byte i % 8, least significant first, of lane i / 8. */
module Fips202 {
  import opened Words
  import opened Sponge
  import opened Keccak

  // ----- the bytes of a lane

  function LowByte(w: bv64): (b: byte) { (w & 0xFF) as byte }

  function HighBytes(w: bv64): (r: bv64) { w >> 8 }

  /** s >> 8 * k, cut to a byte. */
  function LaneByte(w: bv64, k: nat): (b: byte) {
    if k == 0 then LowByte(w) else LaneByte(HighBytes(w), k - 1)
  }

  /** (uint64_t) b << 8 * k */
  function ByteAt(b: byte, k: nat): (w: bv64) {
    if k == 0 then b as bv64 else ByteAt(b, k - 1) << 8
  }

  lemma XorParts(v: bv64, w: bv64)
    ensures LowByte(Keccak.Xor(v, w)) == Sponge.Xor(LowByte(v), LowByte(w))
    ensures HighBytes(Keccak.Xor(v, w)) == Keccak.Xor(HighBytes(v), HighBytes(w))
  {
  }

  lemma {:induction false} ByteOfXor(v: bv64, w: bv64, k: nat)
    ensures LaneByte(Keccak.Xor(v, w), k) == Sponge.Xor(LaneByte(v, k), LaneByte(w, k))
    decreases k
  {
    hide LowByte, HighBytes, Keccak.Xor, Sponge.Xor;
    XorParts(v, w);
    if k > 0 {
      ByteOfXor(HighBytes(v), HighBytes(w), k - 1);
    }
  }

  lemma ZeroParts()
    ensures LowByte(0) == 0 && HighBytes(0) == 0
  {
  }

  lemma {:induction false} ByteOfZero(k: nat)
    ensures LaneByte(0, k) == 0
  {
    hide LowByte, HighBytes;
    ZeroParts();
    if k > 0 {
      ByteOfZero(k - 1);
    }
  }

  /** w has at most n bytes. */
  predicate Short(w: bv64, n: nat) {
    if n == 0 then w == 0 else Short(HighBytes(w), n - 1)
  }

  lemma TopByte(w: bv64)
    ensures LaneByte(w, 7) == ((w >> 8 >> 8 >> 8 >> 8 >> 8 >> 8 >> 8) & 0xFF) as byte
  {
    var w2 := HighBytes(HighBytes(w));
    var w4 := HighBytes(HighBytes(w2));
    var w6 := HighBytes(HighBytes(w4));
    assert LaneByte(w6, 1) == LowByte(HighBytes(w6));
    assert LaneByte(w4, 3) == LaneByte(w6, 1) && LaneByte(w2, 5) == LaneByte(w4, 3);
  }

  lemma ShiftBack(w: bv64)
    requires ((w >> 8 >> 8 >> 8 >> 8 >> 8 >> 8 >> 8) & 0xFF) as byte == 0
    ensures w << 8 >> 8 == w && (w << 8) & 0xFF == 0
  {
  }

  lemma ShiftParts(w: bv64)
    requires LaneByte(w, 7) == 0
    ensures LowByte(w << 8) == 0 && HighBytes(w << 8) == w
  {
    hide LaneByte;
    TopByte(w);
    ShiftBack(w);
  }

  lemma LowestParts(b: byte)
    ensures LowByte(b as bv64) == b && HighBytes(b as bv64) == 0
  {
  }

  lemma {:induction false} ByteOfByteAt(b: byte, k: nat, j: nat)
    requires k < 8 && j < 8
    ensures LaneByte(ByteAt(b, k), j) == if j == k then b else 0
  {
    hide LowByte, HighBytes;
    if k == 0 {
      LowestParts(b);
      if j > 0 {
        ByteOfZero(j - 1);
      }
    } else {
      ByteOfByteAt(b, k - 1, 7);
      ShiftParts(ByteAt(b, k - 1));
      if j > 0 {
        ByteOfByteAt(b, k - 1, j - 1);
      }
    }
  }

  lemma PartsDetermine(v: bv64, w: bv64)
    requires LowByte(v) == LowByte(w) && HighBytes(v) == HighBytes(w)
    ensures v == w
  {
  }

  lemma {:induction false} SameBytes(v: bv64, w: bv64, n: nat)
    requires Short(v, n) && Short(w, n) && forall j :: 0 <= j < n ==> LaneByte(v, j) == LaneByte(w, j)
    ensures v == w
    decreases n
  {
    hide LowByte, HighBytes;
    if n > 0 {
      assert LaneByte(v, 0) == LaneByte(w, 0);
      forall j | 0 <= j < n - 1
        ensures LaneByte(HighBytes(v), j) == LaneByte(HighBytes(w), j)
      {
        assert LaneByte(v, j + 1) == LaneByte(w, j + 1);
      }
      SameBytes(HighBytes(v), HighBytes(w), n - 1);
      PartsDetermine(v, w);
    }
  }

  lemma ShiftedOut(w: bv64)
    ensures w >> 8 >> 8 >> 8 >> 8 >> 8 >> 8 >> 8 >> 8 == 0
  {
  }

  lemma NoNinthByte(w: bv64)
    ensures HighBytes(HighBytes(HighBytes(HighBytes(HighBytes(HighBytes(HighBytes(HighBytes(w)))))))) == 0
  {
    ShiftedOut(w);
  }

  lemma OneMore(w: bv64, n: nat)
    requires Short(HighBytes(w), n)
    ensures Short(w, n + 1)
  {
  }

  lemma AllShort(w: bv64)
    ensures Short(w, 8)
  {
    hide *;
    var w1 := HighBytes(w);
    var w2 := HighBytes(w1);
    var w3 := HighBytes(w2);
    var w4 := HighBytes(w3);
    var w5 := HighBytes(w4);
    var w6 := HighBytes(w5);
    var w7 := HighBytes(w6);
    NoNinthByte(w);
    ZeroIsShort();
    OneMore(w7, 0);
    OneMore(w6, 1);
    OneMore(w5, 2);
    OneMore(w4, 3);
    OneMore(w3, 4);
    OneMore(w2, 5);
    OneMore(w1, 6);
    OneMore(w, 7);
  }

  lemma ZeroIsShort()
    ensures Short(0, 0)
  {
  }

  /** A lane is determined by its eight bytes. */
  lemma SameLane(v: bv64, w: bv64)
    requires forall j :: 0 <= j < 8 ==> LaneByte(v, j) == LaneByte(w, j)
    ensures v == w
  {
    AllShort(v);
    AllShort(w);
    SameBytes(v, w, 8);
  }

  // ----- states

  function StateBytes(s: Lanes): (x: State) {
    seq(200, i requires 0 <= i < 200 => LaneByte(s[i / 8], i % 8))
  }

  /** The lane with the given eight bytes. */
  function Load(x: seq<byte>, n: nat): (w: bv64)
    requires n <= |x| && n <= 8
  {
    if n == 0 then 0 else Keccak.Xor(Load(x, n - 1), ByteAt(x[n - 1], n - 1))
  }

  lemma ZeroXor(b: byte)
    ensures Sponge.Xor(0, b) == b && Sponge.Xor(b, 0) == b
  {
  }

  lemma {:induction false} LoadedByte(x: seq<byte>, n: nat, j: nat)
    requires n <= |x| && n <= 8 && j < 8
    ensures LaneByte(Load(x, n), j) == if j < n then x[j] else 0
  {
    hide LaneByte, ByteAt, Keccak.Xor, Sponge.Xor;
    if n == 0 {
      ByteOfZero(j);
    } else {
      LoadedByte(x, n - 1, j);
      ByteOfXor(Load(x, n - 1), ByteAt(x[n - 1], n - 1), j);
      ByteOfByteAt(x[n - 1], n - 1, j);
      ZeroXor(x[n - 1]);
      ZeroXor(LaneByte(Load(x, n - 1), j));
    }
  }

  function LanesOf(x: State): (s: Lanes) {
    seq(25, l requires 0 <= l < 25 => Load(x[8 * l..8 * l + 8], 8))
  }

  lemma LanesOfBytes(s: Lanes)
    ensures LanesOf(StateBytes(s)) == s
  {
    hide LaneByte, Load;
    forall l | 0 <= l < 25
      ensures LanesOf(StateBytes(s))[l] == s[l]
    {
      var x := StateBytes(s)[8 * l..8 * l + 8];
      forall j | 0 <= j < 8
        ensures LaneByte(Load(x, 8), j) == LaneByte(s[l], j)
      {
        LoadedByte(x, 8, j);
        assert (8 * l + j) / 8 == l && (8 * l + j) % 8 == j;
      }
      SameLane(Load(x, 8), s[l]);
    }
  }

  lemma BytesOfLanes(x: State)
    ensures StateBytes(LanesOf(x)) == x
  {
    hide LaneByte, Load;
    forall i | 0 <= i < 200
      ensures StateBytes(LanesOf(x))[i] == x[i]
    {
      LoadedByte(x[8 * (i / 8)..8 * (i / 8) + 8], 8, i % 8);
    }
  }

  /** Keccak-f[1600] on the 200 bytes of the state. */
  function KeccakBytes(x: State): (y: State) { StateBytes(KeccakF(LanesOf(x))) }

  lemma PermutedBytes(s: Lanes)
    ensures StateBytes(KeccakF(s)) == KeccakBytes(StateBytes(s))
  {
    hide LanesOf, StateBytes, KeccakF;
    LanesOfBytes(s);
  }

  /** s[i / 8] ^= (uint64_t) b << 8 * (i % 8) */
  lemma XoredByte(s: Lanes, t: Lanes, i: nat, b: byte)
    requires i < WIDTH && t == s[i / 8 := Keccak.Xor(s[i / 8], ByteAt(b, i % 8))]
    ensures StateBytes(t) == XorByte(StateBytes(s), i, b)
  {
    hide LaneByte, ByteAt, Keccak.Xor, Sponge.Xor;
    forall j | 0 <= j < WIDTH
      ensures StateBytes(t)[j] == XorByte(StateBytes(s), i, b)[j]
    {
      if j / 8 == i / 8 {
        ByteOfXor(s[i / 8], ByteAt(b, i % 8), j % 8);
        ByteOfByteAt(b, i % 8, j % 8);
        ZeroXor(LaneByte(s[i / 8], j % 8));
        assert j % 8 == i % 8 <==> j == i;
      }
    }
  }

  lemma TopBit()
    ensures ByteAt(0x80, 7) == 0x8000_0000_0000_0000
  {
    assert ByteAt(0x80, 3) == 0x8000_0000;
  }

  lemma LastByte(r: nat)
    requires IsRate(r)
    ensures (r - 1) / 8 == r / 8 - 1 && (r - 1) % 8 == 7 && r / 8 <= 25
  {
  }

  /** load64 */
  method LoadLane(x: seq<byte>) returns (w: bv64)
    requires |x| == 8
    ensures w == Load(x, 8)
  {
    hide LaneByte, Or, ByteAt, Keccak.Xor;
    w := 0;
    for i := 0 to 8
      invariant w == Load(x, i)
    {
      NoOverlap(x, i);
      w := Or(w, ByteAt(x[i], i));
    }
  }

  function Or(v: bv64, w: bv64): (r: bv64) { v | w }

  function OrBytes(a: byte, b: byte): (r: byte) { a | b }

  lemma OrParts(v: bv64, w: bv64)
    ensures LowByte(Or(v, w)) == OrBytes(LowByte(v), LowByte(w))
    ensures HighBytes(Or(v, w)) == Or(HighBytes(v), HighBytes(w))
  {
  }

  lemma {:induction false} ByteOfOr(v: bv64, w: bv64, k: nat)
    ensures LaneByte(Or(v, w), k) == OrBytes(LaneByte(v, k), LaneByte(w, k))
    decreases k
  {
    hide LowByte, HighBytes, Or, OrBytes;
    OrParts(v, w);
    if k > 0 {
      ByteOfOr(HighBytes(v), HighBytes(w), k - 1);
    }
  }

  lemma OrIsXor(a: byte, b: byte)
    requires a == 0 || b == 0
    ensures OrBytes(a, b) == Sponge.Xor(a, b)
  {
  }

  /** The or of load64 never meets a bit that is already set. */
  lemma NoOverlap(x: seq<byte>, n: nat)
    requires n < 8 && n < |x|
    ensures Or(Load(x, n), ByteAt(x[n], n)) == Load(x, n + 1)
  {
    hide LaneByte, ByteAt, Keccak.Xor, Sponge.Xor, Or, OrBytes;
    var v, w := Load(x, n), ByteAt(x[n], n);
    forall j | 0 <= j < 8
      ensures LaneByte(Or(v, w), j) == LaneByte(Load(x, n + 1), j)
    {
      ByteOfOr(v, w, j);
      ByteOfXor(v, w, j);
      LoadedByte(x, n, j);
      ByteOfByteAt(x[n], n, j);
      OrIsXor(LaneByte(v, j), LaneByte(w, j));
    }
    SameLane(Or(v, w), Load(x, n + 1));
  }

  /** store64 */
  method StoreLane(w: bv64) returns (x: seq<byte>)
    ensures |x| == 8 && forall j :: 0 <= j < 8 ==> x[j] == LaneByte(w, j)
  {
    hide LaneByte;
    x := [];
    for i := 0 to 8
      invariant |x| == i && forall j :: 0 <= j < i ==> x[j] == LaneByte(w, j)
    {
      x := x + [LaneByte(w, i)];
    }
  }

  lemma ZeroBytes(s: Lanes)
    requires forall l :: 0 <= l < 25 ==> s[l] == 0
    ensures StateBytes(s) == ZERO_STATE
  {
    hide LaneByte;
    forall i | 0 <= i < 200
      ensures StateBytes(s)[i] == 0
    {
      ByteOfZero(i % 8);
    }
  }

  /** s[l] ^= load64(x) */
  lemma XoredLane(s: Lanes, t: Lanes, l: nat, x: seq<byte>)
    requires l < 25 && |x| == 8 && t == s[l := Keccak.Xor(s[l], Load(x, 8))]
    ensures StateBytes(t) == XorBytes(StateBytes(s), 8 * l, x)
  {
    hide LaneByte, Load, Keccak.Xor, Sponge.Xor, XorBytes;
    forall j | 0 <= j < WIDTH
      ensures StateBytes(t)[j] == XorBytes(StateBytes(s), 8 * l, x)[j]
    {
      XorBytesAt(StateBytes(s), 8 * l, x, j);
      if j / 8 == l {
        ByteOfXor(s[l], Load(x, 8), j % 8);
        LoadedByte(x, 8, j % 8);
        assert j - 8 * l == j % 8;
      }
    }
  }

  // ----- the loops

  /** keccak_state: pos counts the bytes absorbed into the open block, or squeezed from it. */
  class KeccakState {
    const s: array<bv64>
    var pos: nat

    ghost predicate Valid() { s.Length == 25 }

    ghost function Block(): (x: State)
      requires Valid()
      reads s
    {
      StateBytes(s[..])
    }

    ghost function View(): (r: Progress)
      requires Valid()
      reads this, s
    {
      Progress(Block(), pos)
    }

    /** keccak_init */
    constructor ()
      ensures Valid() && fresh(s) && View() == Progress(ZERO_STATE, 0)
    {
      s := new bv64[25](_ => 0);
      pos := 0;
      new;
      ZeroBytes(s[..]);
    }

    /** KeccakF1600_StatePermute on the lanes is the permutation of the bytes. */
    method Permute()
      requires Valid()
      modifies s
      ensures Block() == KeccakBytes(old(Block()))
    {
      hide StateBytes, KeccakF, KeccakBytes;
      PermutedBytes(s[..]);
      StatePermute(s);
    }

    method XorAt(i: nat, b: byte)
      requires Valid() && i < WIDTH
      modifies s
      ensures Block() == XorByte(old(Block()), i, b)
    {
      hide StateBytes, ByteAt, Keccak.Xor, XorByte;
      ghost var was: Lanes := s[..];
      s[i / 8] := Keccak.Xor(s[i / 8], ByteAt(b, i % 8));
      XoredByte(was, s[..], i, b);
    }

    method XorInto(i: nat, x: seq<byte>)
      requires Valid() && i + |x| <= WIDTH
      modifies s
      ensures Block() == XorBytes(old(Block()), i, x)
    {
      hide StateBytes, XorByte, XorBytes;
      ghost var start := Block();
      XorNothing(start, i);
      for n := 0 to |x|
        invariant Block() == XorBytes(start, i, x[..n])
      {
        XorSnoc(start, i, x, n);
        XorAt(i + n, x[n]);
      }
      assert x[..|x|] == x;
    }

    /** s[r / 8 - 1] ^= 1ULL << 63 */
    method XorLast(r: nat)
      requires Valid() && IsRate(r)
      modifies s
      ensures Block() == XorByte(old(Block()), r - 1, 0x80)
    {
      hide StateBytes, ByteAt, Keccak.Xor, XorByte;
      ghost var was: Lanes := s[..];
      LastByte(r);
      TopBit();
      s[r / 8 - 1] := Keccak.Xor(s[r / 8 - 1], 0x8000_0000_0000_0000);
      XoredByte(was, s[..], r - 1, 0x80);
    }

    /** keccak_absorb: fill the open block, permute, go on; the rest stays in the open block. */
    method Absorb(r: nat, input: seq<byte>)
      requires Valid() && IsRate(r) && pos < r
      modifies this, s
      ensures pos < r && View() == AbsorbBytes(KeccakBytes, r, old(View()), input)
    {
      hide AbsorbBytes, XorBytes, StateBytes, KeccakBytes;
      var rest := input;
      ghost var start := View();
      while pos + |rest| >= r
        invariant pos < r
        invariant AbsorbBytes(KeccakBytes, r, View(), rest) == AbsorbBytes(KeccakBytes, r, start, input)
        decreases |rest|
      {
        var n := r - pos;
        ghost var before := View();
        FillBlock(KeccakBytes, r, before, rest[..n]);
        AbsorbAppend(KeccakBytes, r, before, rest[..n], rest[n..]);
        assert rest == rest[..n] + rest[n..];
        XorInto(pos, rest[..n]);
        Permute();
        pos := 0;
        rest := rest[n..];
      }
      TailBlock(KeccakBytes, r, View(), rest);
      XorInto(pos, rest);
      pos := pos + |rest|;
    }

    /** keccak_finalize, then pos is set to the rate: nothing of the block is left to give out. */
    method Finalize(r: nat, suffix: byte)
      requires Valid() && IsRate(r) && pos < r
      modifies this, s
      ensures View() == Progress(Finalized(r, old(View()), suffix), r)
    {
      hide StateBytes, XorByte;
      XorAt(pos, suffix);
      XorLast(r);
      pos := r;
    }

    /** Whole lanes: s[i] ^= load64(x + 8 * i). */
    method XorLanes(lanes: nat, x: seq<byte>)
      requires Valid() && 8 * lanes <= |x| && lanes <= 25
      modifies s
      ensures Block() == XorBytes(old(Block()), 0, x[..8 * lanes])
    {
      hide XorBytes, StateBytes, Load, Keccak.Xor;
      ghost var start := Block();
      XorNothing(start, 0);
      for i := 0 to lanes
        invariant Block() == XorBytes(start, 0, x[..8 * i])
      {
        ghost var was: Lanes := s[..];
        var w := LoadLane(x[8 * i..8 * i + 8]);
        s[i] := Keccak.Xor(s[i], w);
        XoredLane(was, s[..], i, x[8 * i..8 * i + 8]);
        assert x[..8 * (i + 1)] == x[..8 * i] + x[8 * i..8 * i + 8];
        XorAppend(start, 0, x[..8 * i], x[8 * i..8 * i + 8]);
      }
    }

    /** keccak_absorb_once: lane by lane, without an open block to start from. */
    method AbsorbOnce(r: nat, input: seq<byte>, suffix: byte)
      requires Valid() && IsRate(r)
      modifies this, s
      ensures View() == Progress(Finalized(r, AbsorbBytes(KeccakBytes, r, Progress(ZERO_STATE, 0), input), suffix), r)
    {
      hide AbsorbBytes, XorBytes, XorByte, StateBytes, KeccakBytes;
      for i := 0 to 25
        invariant forall l :: 0 <= l < i ==> s[l] == 0
      {
        s[i] := 0;
      }
      ZeroBytes(s[..]);
      var rest := input;
      ghost var start := Progress(ZERO_STATE, 0);
      while |rest| >= r
        invariant AbsorbBytes(KeccakBytes, r, Progress(Block(), 0), rest) == AbsorbBytes(KeccakBytes, r, start, input)
        decreases |rest|
      {
        ghost var before := Block();
        XorLanes(r / 8, rest[..r]);
        assert 8 * (r / 8) == r && rest[..r][..r] == rest[..r];
        FillBlock(KeccakBytes, r, Progress(before, 0), rest[..r]);
        AbsorbAppend(KeccakBytes, r, Progress(before, 0), rest[..r], rest[r..]);
        assert rest == rest[..r] + rest[r..];
        Permute();
        rest := rest[r..];
      }
      TailBlock(KeccakBytes, r, Progress(Block(), 0), rest);
      XorInto(0, rest);
      XorAt(|rest|, suffix);
      XorLast(r);
      pos := r;
    }

    /** Bytes pos to pos + n of the block. */
    method Give(n: nat) returns (out: seq<byte>)
      requires Valid() && pos + n <= WIDTH
      ensures out == Block()[pos..pos + n]
    {
      hide LaneByte;
      out := [];
      for i := pos to pos + n
        invariant out == Block()[pos..i]
      {
        out := out + [LaneByte(s[i / 8], i % 8)];
      }
    }

    /** The first lanes of the block. */
    method GiveLanes(lanes: nat) returns (out: seq<byte>)
      requires Valid() && lanes <= 25
      ensures out == Block()[..8 * lanes]
    {
      hide LaneByte;
      out := [];
      for i := 0 to lanes
        invariant out == Block()[..8 * i]
      {
        var x := StoreLane(s[i]);
        out := out + x;
      }
    }

    /** keccak_squeeze: permute only when a byte is wanted and the block is used up. */
    method Squeeze(r: nat, n: nat) returns (out: seq<byte>)
      requires Valid() && IsRate(r) && pos <= r
      modifies this, s
      ensures pos <= r && (out, View()) == SqueezeBytes(KeccakBytes, r, old(View()), n)
    {
      hide SqueezeBytes, StateBytes, KeccakBytes;
      out := [];
      var left: nat := n;
      ghost var start := View();
      NothingSqueezed(KeccakBytes, r, start);
      while left > 0
        invariant left <= n && pos <= r
        invariant (out, View()) == SqueezeBytes(KeccakBytes, r, start, n - left)
      {
        ghost var before := View();
        if pos == r {
          FirstPermutes(KeccakBytes, r, Block(), left);
          Permute();
          pos := 0;
        }
        var m := if left < r - pos then left else r - pos;
        PermutedLate(KeccakBytes, r, before, m);
        SqueezeWithin(KeccakBytes, r, Block(), pos, m);
        SqueezeAppend(KeccakBytes, r, start, n - left, m);
        var x := Give(m);
        out := out + x;
        pos := pos + m;
        left := left - m;
      }
    }

    /** keccak_squeezeblocks, called with nothing of the current block left. */
    method SqueezeBlocks(r: nat, blocks: nat) returns (out: seq<byte>)
      requires Valid() && IsRate(r) && pos == r
      modifies this, s
      ensures (out, View()) == SqueezeBytes(KeccakBytes, r, old(View()), blocks * r) && pos == r
    {
      hide SqueezeBytes, StateBytes, KeccakBytes;
      out := [];
      ghost var start := View();
      NothingSqueezed(KeccakBytes, r, start);
      for b := 0 to blocks
        invariant pos == r && (out, View()) == SqueezeBytes(KeccakBytes, r, start, b * r)
      {
        PermutedLate(KeccakBytes, r, View(), r);
        SqueezeWithin(KeccakBytes, r, KeccakBytes(Block()), 0, r);
        SqueezeAppend(KeccakBytes, r, start, b * r, r);
        assert (b + 1) * r == b * r + r;
        Permute();
        var x := GiveLanes(r / 8);
        out := out + x;
      }
    }
  }

  /** Byte i of the output of section 4 of FIPS 202 with Keccak-f[1600]. */
  function OutputByte(r: nat, input: seq<byte>, suffix: byte, i: nat): (y: byte)
    requires IsRate(r)
  {
    StreamByte(KeccakBytes, r, AbsorbBlocks(KeccakBytes, r, ZERO_STATE, Padded(r, input, suffix)), i)
  }

  /** shake128 and shake256: whole blocks first, then the rest, is the contiguous output stream. */
  method Shake(r: nat, input: seq<byte>, n: nat) returns (out: seq<byte>)
    requires IsRate(r)
    ensures |out| == n && forall i :: 0 <= i < n ==> out[i] == OutputByte(r, input, 0x1F, i)
  {
    hide SqueezeBytes, Finalized, AbsorbBytes, AbsorbBlocks, Padded, StreamByte, KeccakBytes, StateBytes;
    var state := new KeccakState();
    state.AbsorbOnce(r, input, 0x1F);
    ghost var s := state.Block();
    var blocks := n / r;
    var x := state.SqueezeBlocks(r, blocks);
    var y := state.Squeeze(r, n - blocks * r);
    SqueezeAppend(KeccakBytes, r, Progress(s, r), blocks * r, n - blocks * r);
    out := x + y;
    AbsorbIsSponge(KeccakBytes, r, ZERO_STATE, input, 0x1F);
    forall i | 0 <= i < n
      ensures out[i] == OutputByte(r, input, 0x1F, i)
    {
      SqueezeIsStream(KeccakBytes, r, s, n, i);
    }
  }

  /** sha3_256 and sha3_512: the first lanes after one permutation. */
  method Sha3(r: nat, input: seq<byte>, lanes: nat) returns (out: seq<byte>)
    requires IsRate(r) && 8 * lanes <= r
    ensures |out| == 8 * lanes && forall i :: 0 <= i < 8 * lanes ==> out[i] == OutputByte(r, input, 0x06, i)
  {
    hide Finalized, AbsorbBytes, AbsorbBlocks, Padded, KeccakBytes, StateBytes;
    var state := new KeccakState();
    state.AbsorbOnce(r, input, 0x06);
    AbsorbIsSponge(KeccakBytes, r, ZERO_STATE, input, 0x06);
    state.Permute();
    out := state.GiveLanes(lanes);
    forall i | 0 <= i < 8 * lanes
      ensures out[i] == OutputByte(r, input, 0x06, i)
    {
      FirstByte(KeccakBytes, r, state.Block(), i);
    }
  }
}
