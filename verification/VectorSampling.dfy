/** The vector forms of the uniform samplers, tools/pqc/mldsa/rvv_poly.c and
    tools/pqc/mlkem/rvv_poly.c: lanes of candidates, a mask, and a compressing store. */
module VectorSampling {
  import opened Polynomials
  import opened Words
  import opened Rejection
  import opened Modular
  import M = MldsaSampling
  import R = MldsaReduce
  import K = MlkemKpke
  import MlkemReduce

  /** vcompress: the lanes whose mask bit is set, in order. */
  function Compressed(x: seq<int>, q: int): (y: seq<int>)
    ensures |y| <= |x|
  {
    if x == [] then [] else (if x[0] < q then [x[0]] else []) + Compressed(x[1..], q)
  }

  lemma {:induction false} AllKept(x: seq<int>, q: int)
    requires |Compressed(x, q)| == |x|
    ensures Compressed(x, q) == x
  {
    if x != [] {
      AllKept(x[1..], q);
      assert x == [x[0]] + x[1..];
    }
  }

  /** Store the first n lanes. */
  method StoreLanes(a: array<int>, at: nat, x: seq<int>, n: nat)
    requires n <= |x| && at + n <= a.Length
    modifies a
    ensures a[at..at + n] == x[..n] && a[..at] == old(a[..at])
  {
    for i := 0 to n
      invariant a[at..at + i] == x[..i] && a[..at] == old(a[..at])
    {
      a[at + i] := x[i];
    }
  }

  // ----- ML-DSA: eight candidates of 23 bits in 24 bytes

  /** Lane l of the segmented load: bytes 3 * l, 3 * l + 1 and 3 * l + 2, masked to 23 bits. */
  function Lane23(x: seq<byte>, l: nat): (r: int)
    requires 3 * l + 2 < |x|
  {
    (Num(x[3 * l]) + 0x100 * Num(x[3 * l + 1]) + 0x1_0000 * Num(x[3 * l + 2])) % 0x80_0000
  }

  function Lanes23(x: seq<byte>, n: nat): (y: seq<int>)
    requires |x| == 3 * n
    ensures |y| == n && forall l :: 0 <= l < n ==> y[l] == Lane23(x, l)
  {
    seq(n, l requires 0 <= l < n => Lane23(x, l))
  }

  lemma FirstLane(x: seq<byte>)
    requires |x| >= 3
    ensures M.UniformGroup(x[..3]) == if Lane23(x, 0) < R.Q then [Lane23(x, 0)] else []
  {
    hide Num;
    assert x[..3][0] == x[0] && x[..3][1] == x[1] && x[..3][2] == x[2];
  }

  lemma OtherLanes(x: seq<byte>, n: nat)
    requires n > 0 && |x| == 3 * n
    ensures Lanes23(x, n)[1..] == Lanes23(x[3..], n - 1)
  {
    hide Num;
    forall l | 0 <= l < n - 1
      ensures Lane23(x, l + 1) == Lane23(x[3..], l)
    {
      assert 3 * (l + 1) == 3 * l + 3;
    }
  }

  lemma {:induction false} LanesAreAccepted(x: seq<byte>, n: nat)
    requires |x| == 3 * n
    ensures Compressed(Lanes23(x, n), R.Q) == Accepted(M.UNIFORM, x)
    decreases n
  {
    hide Lane23, M.UniformGroup;
    if n > 0 {
      LanesAreAccepted(x[3..], n - 1);
      FirstLane(x);
      OtherLanes(x, n);
    }
  }

  lemma GroupsOfBlocks(blocks: nat, groups: nat, n: nat)
    ensures (blocks * groups) * n == blocks * (groups * n)
  {
  }

  lemma BlockAccepted(k: Sampler, buf: seq<byte>, pos: nat, size: nat, blocks: nat, groups: nat)
    requires k.group > 0 && pos == blocks * size && size == groups * k.group && pos + size <= |buf|
    ensures Accepted(k, buf[..pos + size]) == Accepted(k, buf[..pos]) + Accepted(k, buf[pos..pos + size])
    ensures pos + size == (blocks + 1) * size
  {
    hide Accepted;
    var x := buf[..pos + size];
    GroupsOfBlocks(blocks, groups, k.group);
    AcceptedSplitAt(k, x, pos, blocks * groups);
    assert x[..pos] == buf[..pos] && x[pos..] == buf[pos..pos + size];
  }

  lemma TailAccepted(k: Sampler, buf: seq<byte>, pos: nat, size: nat, blocks: nat, groups: nat)
    requires k.group > 0 && pos == blocks * size && size == groups * k.group && pos <= |buf|
    ensures Accepted(k, buf) == Accepted(k, buf[..pos]) + Accepted(k, buf[pos..])
  {
    hide Accepted;
    GroupsOfBlocks(blocks, groups, k.group);
    AcceptedSplitAt(k, buf, pos, blocks * groups);
  }

  /** What the truncated store leaves in the array. */
  lemma FirstOfStored(len: nat, x: seq<int>, y: seq<int>, n: nat)
    requires |x| < len && n == (if |x| + |y| <= len then |y| else len - |x|)
    ensures First(len, x + y) == x + y[..n]
  {
  }

  lemma Full(len: nat, x: seq<int>, y: seq<int>)
    requires |First(len, x)| == len
    ensures First(len, x + y) == First(len, x)
  {
  }

  /** Compress one block of lanes and store as many as there is room for. */
  method StoreBlock(a: array<int>, start: nat, len: nat, stored: nat, x: seq<int>, q: int) returns (ctr: nat)
    requires stored < len && start + len <= a.Length
    modifies a
    ensures ctr <= len && a[start..start + ctr] == First(len, old(a[start..start + stored]) + Compressed(x, q))
    ensures a[..start] == old(a[..start])
  {
    hide First, Compressed;
    ghost var before := a[start..start + stored];
    var y := Compressed(x, q);
    var n := |y|;
    if n == |x| {
      AllKept(x, q);
      n := if len - stored < |x| then len - stored else |x|;
    } else if stored + n > len {
      n := len - stored;
    }
    FirstOfStored(len, before, y, n);
    StoreLanes(a, start + stored, y, n);
    ctr := stored + n;
    assert a[..start + stored][start..] == before;
    AppendStored(a[..start + ctr], start, stored, before, y[..n]);
    assert a[..start] == a[..start + stored][..start];
  }

  lemma AppendStored(a: seq<int>, start: nat, ctr: nat, before: seq<int>, y: seq<int>)
    requires start + ctr + |y| == |a| && a[..start + ctr][start..] == before && a[start + ctr..] == y
    ensures a[start..] == before + y
  {
  }

  /** The vector loop and its scalar tail store exactly what the scalar sampler stores, for
      every buffer length. */
  method RejUniform23(a: array<int>, start: nat, len: nat, buf: seq<byte>) returns (ctr: nat)
    requires start + len <= a.Length
    modifies a
    ensures ctr <= len && a[start..start + ctr] == First(len, Accepted(M.UNIFORM, buf))
    ensures a[..start] == old(a[..start])
  {
    hide Accepted, First, Compressed, Lane23;
    ctr := 0;
    var pos := 0;
    ghost var blocks := 0;
    NothingAccepted(M.UNIFORM, buf[..0]);
    NothingFirst(len);
    while ctr < len && pos + 24 <= |buf|
      invariant 0 <= ctr <= len && 0 <= pos <= |buf| && pos == blocks * 24
      invariant a[start..start + ctr] == First(len, Accepted(M.UNIFORM, buf[..pos]))
      invariant a[..start] == old(a[..start])
      decreases |buf| - pos
    {
      var x := Lanes23(buf[pos..pos + 24], 8);
      LanesAreAccepted(buf[pos..pos + 24], 8);
      BlockAccepted(M.UNIFORM, buf, pos, 24, blocks, 8);
      RoomLeft(len, Accepted(M.UNIFORM, buf[..pos]), ctr);
      ctr := StoreBlock(a, start, len, ctr, x, R.Q);
      pos := pos + 24;
      blocks := blocks + 1;
    }
    TailAccepted(M.UNIFORM, buf, pos, 24, blocks, 8);
    ctr := Finish(a, start, len, ctr, Accepted(M.UNIFORM, buf[..pos]), buf[pos..]);
  }

  /** The candidates left over, without vector over-read. */
  method Finish(a: array<int>, start: nat, len: nat, stored: nat, ghost before: seq<int>,
       rest: seq<byte>) returns (ctr: nat)
    requires stored <= len && start + len <= a.Length && a[start..start + stored] == First(len, before)
    modifies a
    ensures ctr <= len && a[start..start + ctr] == First(len, before + Accepted(M.UNIFORM, rest))
    ensures a[..start] == old(a[..start])
  {
    hide Accepted, First;
    if stored < len {
      RoomLeft(len, before, stored);
      var n := Reject(M.UNIFORM, a, start + stored, len - stored, rest);
      FirstOfAppend(len, before, Accepted(M.UNIFORM, rest));
      ctr := stored + n;
      assert a[..start + ctr][..start + stored] == a[..start + stored];
      assert a[..start + stored][start..] == before;
      AppendStored(a[..start + ctr], start, stored, before, a[start + stored..start + ctr]);
      assert a[..start] == a[..start + stored][..start];
    } else {
      Full(len, before, Accepted(M.UNIFORM, rest));
      ctr := stored;
    }
  }

  lemma NothingFirst(len: nat)
    ensures First(len, []) == []
  {
  }

  // ----- ML-KEM: sixteen candidates of 12 bits in 24 bytes

  /** A 16-bit word, low byte first. */
  function Word(b0: byte, b1: byte): (r: bv32) { (b0 as bv32) | ((b1 as bv32) << 8) }

  /** vsrl and vsll on 16-bit lanes use the shift amount modulo 16; the amounts are 12 * l and
      4 * l, so only 0, 4, 8 and 12 occur. */
  function ShiftRight(w: bv32, n: nat): (r: bv32) {
    if n % 16 == 0 then w else if n % 16 == 4 then w >> 4 else if n % 16 == 8 then w >> 8 else w >> 12
  }

  function ShiftLeft(w: bv32, n: nat): (r: bv32) {
    if n % 16 == 0 then w else if n % 16 == 4 then (w << 4) & 0xFFFF else if n % 16 == 8 then (w << 8) & 0xFFFF
         else (w << 12) & 0xFFFF
  }

  function Merged(w: bv32, next: bv32, right: nat,
       left: nat): (r: bv32) { (ShiftRight(w, right) | ShiftLeft(next, left)) & 0xFFF }

  /** vrgather with index 12 * l / 16; sliding down past the last lane gives zero. */
  function Gathered(x: seq<byte>, l: nat): (r: bv32)
    requires |x| == 24
  {
    if l < 16 then Word(x[2 * (12 * l / 16)], x[2 * (12 * l / 16) + 1]) else 0
  }

  function Lane12(x: seq<byte>, l: nat): (r: bv32)
    requires |x| == 24 && l < 16
  {
    Merged(Gathered(x, l), Gathered(x, l + 1), 12 * l, 4 * l)
  }

  /** The two candidates of three bytes, as the scalar sampler forms them. */
  function First12(b0: byte, b1: byte): (r: bv32) { ((b0 as bv32) | ((b1 as bv32) << 8)) & 0xFFF }

  function Second12(b1: byte, b2: byte): (r: bv32) { (((b1 as bv32) >> 4) | ((b2 as bv32) << 4)) & 0xFFF }

  lemma Merge0(b0: byte, b1: byte, n: nat, m: nat)
    requires n % 16 == 0 && m % 16 == 0
    ensures Merged(Word(b0, b1), Word(b0, b1), n, m) == First12(b0, b1)
  {
  }

  lemma ShiftsRight(w: bv32, n: nat)
    ensures n % 16 == 4 ==> ShiftRight(w, n) == w >> 4
    ensures n % 16 == 8 ==> ShiftRight(w, n) == w >> 8
    ensures n % 16 == 12 ==> ShiftRight(w, n) == w >> 12
  {
  }

  lemma ShiftsLeft(w: bv32, n: nat)
    ensures n % 16 == 4 ==> ShiftLeft(w, n) == (w << 4) & 0xFFFF
    ensures n % 16 == 8 ==> ShiftLeft(w, n) == (w << 8) & 0xFFFF
    ensures n % 16 == 12 ==> ShiftLeft(w, n) == (w << 12) & 0xFFFF
  {
  }

  /** The candidates cut out of neighbouring words. */
  lemma Cut(w: bv32, v: bv32, b0: byte, b1: byte, b2: byte, b3: byte)
    requires w == (b0 as bv32) | ((b1 as bv32) << 8) && v == (b2 as bv32) | ((b3 as bv32) << 8)
    ensures ((w >> 12) | ((v << 4) & 0xFFFF)) & 0xFFF == (((b1 as bv32) >> 4) | ((b2 as bv32) << 4)) & 0xFFF
    ensures ((w >> 8) | ((v << 8) & 0xFFFF)) & 0xFFF == ((b1 as bv32) | ((b2 as bv32) << 8)) & 0xFFF
  {
  }

  lemma CutLast(w: bv32, next: bv32, b0: byte, b1: byte)
    requires w == (b0 as bv32) | ((b1 as bv32) << 8)
    ensures ((w >> 4) | ((next << 12) & 0xFFFF)) & 0xFFF == (((b0 as bv32) >> 4) | ((b1 as bv32) << 4)) & 0xFFF
  {
  }

  lemma Merge12(b0: byte, b1: byte, b2: byte, b3: byte, n: nat, m: nat)
    requires n % 16 == 12 && m % 16 == 4
    ensures Merged(Word(b0, b1), Word(b2, b3), n, m) == Second12(b1, b2)
  {
    hide ShiftRight, ShiftLeft;
    ShiftsRight(Word(b0, b1), n);
    ShiftsLeft(Word(b2, b3), m);
    Cut(Word(b0, b1), Word(b2, b3), b0, b1, b2, b3);
  }

  lemma Merge8(b0: byte, b1: byte, b2: byte, b3: byte, n: nat, m: nat)
    requires n % 16 == 8 && m % 16 == 8
    ensures Merged(Word(b0, b1), Word(b2, b3), n, m) == First12(b1, b2)
  {
    hide ShiftRight, ShiftLeft;
    ShiftsRight(Word(b0, b1), n);
    ShiftsLeft(Word(b2, b3), m);
    Cut(Word(b0, b1), Word(b2, b3), b0, b1, b2, b3);
  }

  lemma Merge4(b0: byte, b1: byte, next: bv32, n: nat, m: nat)
    requires n % 16 == 4 && m % 16 == 12
    ensures Merged(Word(b0, b1), next, n, m) == Second12(b0, b1)
  {
    hide ShiftRight, ShiftLeft;
    ShiftsRight(Word(b0, b1), n);
    ShiftsLeft(next, m);
    CutLast(Word(b0, b1), next, b0, b1);
  }

  lemma LaneIndex(g: nat, i: nat)
    requires i < 4
    ensures 12 * (4 * g + i) / 16 == 3 * g + 12 * i / 16
    ensures 12 * (4 * g + i) % 16 == 12 * i % 16 && 4 * (4 * g + i) % 16 == 4 * i
    ensures 12 * (4 * g + 4) / 16 == 3 * g + 3
  {
    var q, r := 12 * i / 16, 12 * i % 16;
    assert 12 * (4 * g + i) == (3 * g + q) * 16 + r && 12 * (4 * g + 4) == (3 * g + 3) * 16;
    QuotientRemainder(16, 3 * g + q, r);
    QuotientRemainder(16, 3 * g + 3, 0);
    QuotientRemainder(16, g, 4 * i);
  }

  /** The words that lanes 4g to 4g + 3 are cut from. */
  lemma GroupWords(x: seq<byte>, g: nat)
    requires |x| == 24 && g < 4
    ensures Gathered(x, 4 * g) == Word(x[6 * g], x[6 * g + 1]) && Gathered(x, 4 * g + 1) == Word(x[6 * g], x[6 * g + 1])
    ensures Gathered(x, 4 * g + 2) == Word(x[6 * g + 2], x[6 * g + 3])
         && Gathered(x, 4 * g + 3) == Word(x[6 * g + 4], x[6 * g + 5])
  {
    hide Word;
    LaneIndex(g, 0);
    LaneIndex(g, 1);
    LaneIndex(g, 2);
    LaneIndex(g, 3);
  }

  lemma LowLanes(x: seq<byte>, g: nat, b: nat, l: nat)
    requires |x| == 24 && g < 4 && b == 6 * g && l == 4 * g
    ensures Lane12(x, l) == First12(x[b], x[b + 1]) && Lane12(x, l + 1) == Second12(x[b + 1], x[b + 2])
  {
    hide Merged, Word, First12, Second12, Gathered;
    GroupWords(x, g);
    LaneIndex(g, 0);
    LaneIndex(g, 1);
    Merge0(x[b], x[b + 1], 12 * l, 4 * l);
    Merge12(x[b], x[b + 1], x[b + 2], x[b + 3], 12 * (l + 1), 4 * (l + 1));
  }

  lemma HighLanes(x: seq<byte>, g: nat, b: nat, l: nat)
    requires |x| == 24 && g < 4 && b == 6 * g && l == 4 * g
    ensures Lane12(x, l + 2) == First12(x[b + 3], x[b + 4]) && Lane12(x, l + 3) == Second12(x[b + 4], x[b + 5])
  {
    hide *;
    ThirdLane(x, g, b, l);
    FourthLane(x, g, b, l);
  }

  lemma ThirdLane(x: seq<byte>, g: nat, b: nat, l: nat)
    requires |x| == 24 && g < 4 && b == 6 * g && l == 4 * g
    ensures Lane12(x, l + 2) == First12(x[b + 3], x[b + 4])
  {
    hide Merged, Word, First12, Second12, Gathered;
    GroupWords(x, g);
    LaneIndex(g, 2);
    Merge8(x[b + 2], x[b + 3], x[b + 4], x[b + 5], 12 * (l + 2), 4 * (l + 2));
  }

  lemma FourthLane(x: seq<byte>, g: nat, b: nat, l: nat)
    requires |x| == 24 && g < 4 && b == 6 * g && l == 4 * g
    ensures Lane12(x, l + 3) == Second12(x[b + 4], x[b + 5])
  {
    hide Merged, Word, First12, Second12, Gathered;
    GroupWords(x, g);
    LaneIndex(g, 3);
    Merge4(x[b + 4], x[b + 5], Gathered(x, l + 4), 12 * (l + 3), 4 * (l + 3));
  }

  /** Four lanes are the candidates of six bytes. */
  lemma LaneGroup(x: seq<byte>, g: nat)
    requires |x| == 24 && g < 4
    ensures Lane12(x, 4 * g) == First12(x[6 * g], x[6 * g + 1])
    ensures Lane12(x, 4 * g + 1) == Second12(x[6 * g + 1], x[6 * g + 2])
    ensures Lane12(x, 4 * g + 2) == First12(x[6 * g + 3], x[6 * g + 4])
    ensures Lane12(x, 4 * g + 3) == Second12(x[6 * g + 4], x[6 * g + 5])
  {
    hide *;
    LowLanes(x, g, 6 * g, 4 * g);
    HighLanes(x, g, 6 * g, 4 * g);
  }

  /** All candidates of n groups of three bytes, in order, before the comparison with q. */
  function Candidates(x: seq<byte>, n: nat): (y: seq<int>)
    requires |x| == 3 * n
    ensures |y| == 2 * n
    decreases n
  {
    if n == 0 then [] else [Value(First12(x[0], x[1])), Value(Second12(x[1], x[2]))] + Candidates(x[3..], n - 1)
  }

  lemma {:induction false} CandidateAt(x: seq<byte>, n: nat, h: nat)
    requires |x| == 3 * n && h < n
    ensures Candidates(x, n)[2 * h] == Value(First12(x[3 * h], x[3 * h + 1]))
    ensures Candidates(x, n)[2 * h + 1] == Value(Second12(x[3 * h + 1], x[3 * h + 2]))
    decreases n
  {
    hide First12, Second12, Value;
    if h > 0 {
      CandidateAt(x[3..], n - 1, h - 1);
    }
  }

  /** The sixteen lanes of one block, as values. */
  function Lanes12(x: seq<byte>): (y: seq<int>)
    requires |x| == 24
    ensures |y| == 16 && forall l :: 0 <= l < 16 ==> y[l] == Value(Lane12(x, l))
  {
    seq(16, l requires 0 <= l < 16 => Value(Lane12(x, l)))
  }

  lemma LaneIsCandidate(x: seq<byte>, g: nat, i: nat)
    requires |x| == 24 && g < 4 && i < 4
    ensures Value(Lane12(x, 4 * g + i)) == Candidates(x, 8)[4 * g + i]
  {
    hide First12, Second12, Value, Lane12, Candidates;
    LaneGroup(x, g);
    CandidateAt(x, 8, 2 * g);
    CandidateAt(x, 8, 2 * g + 1);
    assert i == 0 || i == 1 || i == 2 || i == 3;
  }

  lemma LanesAreCandidates(x: seq<byte>)
    requires |x| == 24
    ensures Lanes12(x) == Candidates(x, 8)
  {
    hide Value, Lane12, Candidates;
    forall l | 0 <= l < 16
      ensures Lanes12(x)[l] == Candidates(x, 8)[l]
    {
      LaneIsCandidate(x, l / 4, l % 4);
    }
  }

  lemma GroupIs(x: seq<byte>)
    requires |x| == 3
    ensures K.TwelveBitGroup(x) == K.Candidate(First12(x[0], x[1])) + K.Candidate(Second12(x[1], x[2]))
  {
    hide K.Candidate;
  }

  lemma {:induction false} CandidatesAccepted(x: seq<byte>, n: nat)
    requires |x| == 3 * n
    ensures Compressed(Candidates(x, n), MlkemReduce.Q) == Accepted(K.TWELVE, x)
    decreases n
  {
    hide First12, Second12, Value, K.TwelveBitGroup;
    if n > 0 {
      CandidatesAccepted(x[3..], n - 1);
      GroupIs(x[..3]);
      var y := Candidates(x, n);
      assert y[1..][1..] == Candidates(x[3..], n - 1);
      var u, v := Value(First12(x[0], x[1])), Value(Second12(x[1], x[2]));
      assert y[0] == u && y[1..][0] == v;
      assert K.TwelveBitGroup(x[..3]) == (if u < MlkemReduce.Q then [u] else []) + (if v < MlkemReduce.Q then [v]
           else []);
    }
  }

  /** The part of a buffer that consists of whole blocks of 24 bytes. */
  function WholeBlocks(buf: seq<byte>): (r: seq<byte>)
    ensures |r| <= |buf| && |r| % 24 == 0 && |buf| - |r| < 24 && r == buf[..|r|]
  {
    buf[..|buf| - |buf| % 24]
  }

  /** The vector loop over whole blocks; it has no scalar tail. */
  method WholeUniform12(a: array<int>, start: nat, len: nat, buf: seq<byte>) returns (ctr: nat)
    requires start + len <= a.Length
    modifies a
    ensures ctr <= len && a[start..start + ctr] == First(len, Accepted(K.TWELVE, WholeBlocks(buf)))
    ensures a[..start] == old(a[..start])
  {
    hide Accepted, First, Compressed, Lane12, WholeBlocks;
    ghost var whole := WholeBlocks(buf);
    ctr := 0;
    var pos := 0;
    ghost var blocks := 0;
    NothingAccepted(K.TWELVE, whole[..0]);
    NothingFirst(len);
    while ctr < len && pos + 24 <= |buf|
      invariant 0 <= ctr <= len && 0 <= pos <= |whole| && pos == blocks * 24
      invariant a[start..start + ctr] == First(len, Accepted(K.TWELVE, whole[..pos]))
      invariant a[..start] == old(a[..start])
      decreases |buf| - pos
    {
      ctr := OneBlock12(a, start, len, ctr, buf[pos..pos + 24], whole, pos, blocks);
      pos := pos + 24;
      blocks := blocks + 1;
    }
    TailAccepted(K.TWELVE, whole, pos, 24, blocks, 8);
    if ctr < len {
      assert whole[..pos] == whole;
    } else {
      Full(len, Accepted(K.TWELVE, whole[..pos]), Accepted(K.TWELVE, whole[pos..]));
    }
  }

  /** One turn of the loop: sixteen candidates, masked, compressed and stored. */
  method OneBlock12(a: array<int>, start: nat, len: nat, stored: nat, x: seq<byte>,
                    ghost whole: seq<byte>, ghost pos: nat, ghost blocks: nat) returns (ctr: nat)
    requires stored < len && start + len <= a.Length && |x| == 24
    requires pos == blocks * 24 && pos + 24 <= |whole| && x == whole[pos..pos + 24]
    requires a[start..start + stored] == First(len, Accepted(K.TWELVE, whole[..pos]))
    modifies a
    ensures ctr <= len && a[start..start + ctr] == First(len, Accepted(K.TWELVE, whole[..pos + 24]))
    ensures a[..start] == old(a[..start])
  {
    hide Accepted, First, Compressed, Lane12;
    LanesAreCandidates(x);
    CandidatesAccepted(x, 8);
    BlockAccepted(K.TWELVE, whole, pos, 24, blocks, 8);
    RoomLeft(len, Accepted(K.TWELVE, whole[..pos]), stored);
    ctr := StoreBlock(a, start, len, stored, Lanes12(x), MlkemReduce.Q);
  }

  /** No candidate of the bytes after the last whole block is missed: there is none, or the
      whole blocks already hold enough. */
  ghost predicate NothingLost(len: nat, buf: seq<byte>) {
    |Accepted(K.TWELVE, WholeBlocks(buf))| >= len || Accepted(K.TWELVE, buf[|WholeBlocks(buf)|..]) == []
  }

  lemma AcceptedWhole(buf: seq<byte>)
    ensures Accepted(K.TWELVE, buf) == Accepted(K.TWELVE, WholeBlocks(buf)) + Accepted(K.TWELVE,
         buf[|WholeBlocks(buf)|..])
  {
    hide Accepted, K.TwelveBitGroup;
    var m := |WholeBlocks(buf)|;
    assert m == (m / 3) * 3;
    AcceptedSplitAt(K.TWELVE, buf, m, m / 3);
  }

  lemma FirstOfMore(len: nat, x: seq<int>, y: seq<int>)
    ensures First(len, x) == First(len, x + y) <==> |x| >= len || y == []
  {
    if |x| < len && y != [] {
      assert |First(len, x)| < |First(len, x + y)|;
    } else if |x| < len {
      assert x + y == x;
    }
  }

  /** Exactly when the vector sampler stores what the scalar one stores. */
  lemma SameSamples(len: nat, buf: seq<byte>)
    ensures First(len, Accepted(K.TWELVE, WholeBlocks(buf))) == First(len, Accepted(K.TWELVE, buf))
            <==> NothingLost(len, buf)
  {
    hide Accepted, First, WholeBlocks;
    AcceptedWhole(buf);
    FirstOfMore(len, Accepted(K.TWELVE, WholeBlocks(buf)), Accepted(K.TWELVE, buf[|WholeBlocks(buf)|..]));
  }

  /** The vector mlkem_rej_uniform. On whole blocks it is the scalar sampler; on other lengths
      it is unless a candidate is lost. */
  method RejUniform12(a: array<int>, start: nat, len: nat, buf: seq<byte>) returns (ctr: nat)
    requires start + len <= a.Length
    modifies a
    ensures ctr <= len && a[start..start + ctr] == First(len, Accepted(K.TWELVE, WholeBlocks(buf)))
    ensures a[start..start + ctr] == First(len, Accepted(K.TWELVE, buf)) <==> NothingLost(len, buf)
    ensures |buf| % 24 == 0 ==> a[start..start + ctr] == First(len, Accepted(K.TWELVE, buf))
    ensures a[..start] == old(a[..start])
  {
    hide Accepted, First, K.TwelveBitGroup;
    ctr := WholeUniform12(a, start, len, buf);
    SameSamples(len, buf);
    assert |buf| % 24 == 0 ==> WholeBlocks(buf) == buf;
  }

  /** On other lengths a candidate can be lost: three accepted bytes that the scalar sampler uses. */
  lemma ShortBufferDiffers(buf: seq<byte>)
    requires buf == [0, 0, 0]
    ensures Accepted(K.TWELVE, buf) == [0, 0] && Accepted(K.TWELVE, WholeBlocks(buf)) == []
    ensures forall len: nat :: NothingLost(len, buf) <==> len == 0
  {
    GroupIs(buf);
    assert First12(0, 0) == 0 && Second12(0, 0) == 0;
    assert buf[..3] == buf && buf[3..] == [];
    assert WholeBlocks(buf) == [] && buf[0..] == buf;
  }

  // ----- the block loops that call them

  /** After whole groups the next block is sampled by itself. */
  lemma NextBlock(k: Sampler, s: Stream, n: nat, read: nat, block: nat, all: seq<byte>)
    requires k.group == 3 && read == n * 3 && all == Bytes(s, 0, read + block)
    ensures Accepted(k, all) == Accepted(k, Bytes(s, 0, read)) + Accepted(k, Bytes(s, read, block))
  {
    hide Accepted;
    BytesAppend(s, read, block);
    AcceptedSplit(k, Bytes(s, 0, read), Bytes(s, read, block), n);
  }

  /** What a sampler that was given room for the rest leaves in the array. */
  lemma BlockStored(k: Sampler, s: Stream, read: nat, block: nat, len: nat, before: seq<int>, more: seq<int>)
    requires k.group > 0 && |before| <= len && before == Accepted(k, Bytes(s, 0, read))
    requires more == First(len - |before|, Accepted(k, Bytes(s, read, block)))
    requires Accepted(k, Bytes(s, 0, read + block)) == Accepted(k, Bytes(s, 0, read)) + Accepted(k,
         Bytes(s, read, block))
    ensures before + more == First(len, Accepted(k, Bytes(s, 0, read + block)))
  {
    hide Accepted, First;
    FirstOfAppend(len, before, Accepted(k, Bytes(s, read, block)));
  }

  const RATE: nat := 168

  /** The loop of gen_matrix around the vector sampler: three blocks, then one at a time, all of
      them whole multiples of 24 bytes. */
  method MatrixStream(s: Stream, a: array<int>, fuel: nat) returns (ok: bool, read: nat)
    requires a.Length == N
    modifies a
    ensures ok ==> a[..] == First(N, Accepted(K.TWELVE, Bytes(s, 0, read)))
    ensures !ok ==> |Accepted(K.TWELVE, Bytes(s, 0, read))| < N && read == (3 + fuel) * RATE
  {
    hide Accepted, First, K.TwelveBitGroup, NothingLost;
    read := 3 * RATE;
    var ctr: nat := RejUniform12(a, 0, N, Bytes(s, 0, read));
    assert a[0..ctr] == a[..ctr];
    var left: nat := fuel;
    ghost var groups: nat := 168;
    while ctr < N && left > 0
      invariant ctr <= N && left <= fuel && read == (3 + fuel - left) * RATE == groups * 3
      invariant a[..ctr] == First(N, Accepted(K.TWELVE, Bytes(s, 0, read)))
      decreases left
    {
      ghost var before := a[..ctr];
      RoomLeft(N, Accepted(K.TWELVE, Bytes(s, 0, read)), ctr);
      NextBlock(K.TWELVE, s, groups, read, RATE, Bytes(s, 0, read + RATE));
      var n := RejUniform12(a, ctr, N - ctr, Bytes(s, read, RATE));
      BlockStored(K.TWELVE, s, read, RATE, N, before, a[ctr..ctr + n]);
      assert a[..ctr + n] == before + a[ctr..ctr + n];
      ctr := ctr + n;
      read := read + RATE;
      groups := groups + 56;
      left := left - 1;
    }
    ok := ctr == N;
    assert a[..N] == a[..];
    if !ok {
      RoomLeft(N, Accepted(K.TWELVE, Bytes(s, 0, read)), ctr);
    }
  }

  /** One matrix entry by either sampler: whenever both the loop and the bounded sampling of the
      scheme find 256 values, they are the same. */
  method MatrixEntry(e: K.Hashes, seed: seq<byte>, x: nat, y: nat, vector: bool, a: array<int>,
       fuel: nat) returns (ok: bool)
    requires x < 256 && y < 256 && a.Length == N
    modifies a
    ensures ok && |K.UniformPoly(e, seed, x, y)| == N ==> a[..] == K.UniformPoly(e, seed, x, y)
    ensures ok ==> forall i :: 0 <= i < N ==> 0 <= a[i] < MlkemReduce.Q
  {
    hide Accepted, First, K.TwelveBitGroup, Accepts;
    var s := e.xof(seed + [ByteOf(x), ByteOf(y)]);
    var read;
    if vector {
      ok, read := MatrixStream(s, a, fuel);
    } else {
      ok, read := FillFromStream(K.TWELVE, s, a, 3 * RATE, RATE, fuel);
    }
    if ok {
      K.TwelveRange();
      M.SampledRange(K.TWELVE, s, read, 0, MlkemReduce.Q - 1);
      assert a[..] == M.Sampled(K.TWELVE, s, read);
      assert forall i :: 0 <= i < N ==> a[i] == a[..][i];
      if |K.UniformPoly(e, seed, x, y)| == N {
        FirstIsStable(K.TWELVE, s, N, read, e.limit);
      }
    }
  }

  /** The loop of poly_uniform around the vector sampler. Blocks are whole groups of three
      bytes, so no byte is ever moved to the front of the next buffer. */
  method UniformStream(s: Stream, a: array<int>, fuel: nat) returns (ok: bool, read: nat)
    requires a.Length == N
    modifies a
    ensures ok ==> a[..] == First(N, Accepted(M.UNIFORM, Bytes(s, 0, read)))
    ensures !ok ==> |Accepted(M.UNIFORM, Bytes(s, 0, read))| < N && read == (5 + fuel) * RATE
  {
    hide Accepted, First, M.UniformGroup;
    read := 5 * RATE;
    var ctr: nat := RejUniform23(a, 0, N, Bytes(s, 0, read));
    assert a[0..ctr] == a[..ctr];
    var left: nat := fuel;
    ghost var groups: nat := 280;
    while ctr < N && left > 0
      invariant ctr <= N && left <= fuel && read == (5 + fuel - left) * RATE == groups * 3
      invariant a[..ctr] == First(N, Accepted(M.UNIFORM, Bytes(s, 0, read)))
      decreases left
    {
      ghost var before := a[..ctr];
      RoomLeft(N, Accepted(M.UNIFORM, Bytes(s, 0, read)), ctr);
      NextBlock(M.UNIFORM, s, groups, read, RATE, Bytes(s, 0, read + RATE));
      var n := RejUniform23(a, ctr, N - ctr, Bytes(s, read, RATE));
      BlockStored(M.UNIFORM, s, read, RATE, N, before, a[ctr..ctr + n]);
      assert a[..ctr + n] == before + a[ctr..ctr + n];
      ctr := ctr + n;
      read := read + RATE;
      groups := groups + 56;
      left := left - 1;
    }
    ok := ctr == N;
    assert a[..N] == a[..];
    if !ok {
      RoomLeft(N, Accepted(M.UNIFORM, Bytes(s, 0, read)), ctr);
    }
  }

  /** poly_uniform by either sampler gives the polynomial that a bounded prefix of the stream gives. */
  method UniformEntry(s: Stream, limit: nat, vector: bool, a: array<int>, fuel: nat) returns (ok: bool)
    requires a.Length == N
    modifies a
    ensures ok && |M.Sampled(M.UNIFORM, s, limit)| == N ==> a[..] == M.Sampled(M.UNIFORM, s, limit)
  {
    hide Accepted, First, M.UniformGroup;
    var read;
    if vector {
      ok, read := UniformStream(s, a, fuel);
    } else {
      ok, read := M.PolyUniform(s, a, fuel);
    }
    if ok && |M.Sampled(M.UNIFORM, s, limit)| == N {
      FirstIsStable(M.UNIFORM, s, N, read, limit);
    }
  }
}
