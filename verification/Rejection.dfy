/** Rejection sampling from a byte stream read in blocks: the samplers of
    tools/pqc/mldsa/mldsa_poly.c and tools/pqc/mlkem/mlkem_kpke.c. */
module Rejection {
  import opened Words

  /** The unbounded output of an extendable-output function. */
  type Stream = nat -> byte

  function Bytes(s: Stream, from: nat, n: nat): (r: seq<byte>)
    ensures |r| == n && forall i :: 0 <= i < n ==> r[i] == s(from + i)
  {
    seq(n, i requires 0 <= i < n => s(from + i))
  }

  /** Candidates are read from groups of bytes; accept lists those of one group that pass. */
  datatype Sampler = Sampler(group: nat, accept: seq<byte> -> seq<int>)

  /** Everything accepted from the complete groups of x, in order. */
  function Accepted(k: Sampler, x: seq<byte>): (r: seq<int>)
    requires k.group > 0
    decreases |x|
  {
    if |x| < k.group then [] else k.accept(x[..k.group]) + Accepted(k, x[k.group..])
  }

  function First(n: nat, x: seq<int>): (r: seq<int>)
    ensures |r| == if |x| <= n then |x| else n
  {
    if |x| <= n then x else x[..n]
  }

  lemma {:induction false} AcceptedSplit(k: Sampler, x: seq<byte>, y: seq<byte>, n: nat)
    requires k.group > 0 && |x| == n * k.group
    ensures Accepted(k, x + y) == Accepted(k, x) + Accepted(k, y)
    decreases n
  {
    if n == 0 {
      assert x + y == y && Accepted(k, x) == [];
    } else {
      assert n * k.group == (n - 1) * k.group + k.group;
      assert (x + y)[..k.group] == x[..k.group] && (x + y)[k.group..] == x[k.group..] + y;
      AcceptedSplit(k, x[k.group..], y, n - 1);
    }
  }

  lemma AcceptedSplitAt(k: Sampler, x: seq<byte>, m: nat, n: nat)
    requires k.group > 0 && m == n * k.group <= |x|
    ensures Accepted(k, x) == Accepted(k, x[..m]) + Accepted(k, x[m..])
  {
    AcceptedSplit(k, x[..m], x[m..], n);
    assert x == x[..m] + x[m..];
  }

  lemma NothingAccepted(k: Sampler, x: seq<byte>)
    requires k.group > 0 && |x| < k.group
    ensures Accepted(k, x) == []
  {
  }

  /** A longer input only appends to what was accepted. */
  lemma AcceptedGrows(k: Sampler, x: seq<byte>, y: seq<byte>)
    requires k.group > 0
    ensures Accepted(k, x) <= Accepted(k, x + y)
  {
    var n := |x| / k.group;
    var m := n * k.group;
    assert m + |x| % k.group == |x|;
    AcceptedSplitAt(k, x, m, n);
    AcceptedSplitAt(k, x + y, m, n);
    assert (x + y)[..m] == x[..m];
    NothingAccepted(k, x[m..]);
  }

  /** Once n values are found, it does not matter how much of the stream was read, nor in
      which blocks: they are the first n of the whole stream. */
  lemma FirstIsStable(k: Sampler, s: Stream, n: nat, a: nat, b: nat)
    requires k.group > 0
    requires |First(n, Accepted(k, Bytes(s, 0, a)))| == n && |First(n, Accepted(k, Bytes(s, 0, b)))| == n
    ensures First(n, Accepted(k, Bytes(s, 0, a))) == First(n, Accepted(k, Bytes(s, 0, b)))
  {
    if a <= b {
      FirstOfLonger(k, s, n, a, b);
    } else {
      FirstOfLonger(k, s, n, b, a);
    }
  }

  lemma FirstOfLonger(k: Sampler, s: Stream, n: nat, a: nat, b: nat)
    requires k.group > 0 && a <= b && |First(n, Accepted(k, Bytes(s, 0, a)))| == n
    ensures First(n, Accepted(k, Bytes(s, 0, a))) == First(n, Accepted(k, Bytes(s, 0, b)))
  {
    hide Accepted;
    var x, y := Bytes(s, 0, a), Bytes(s, a, b - a);
    assert Bytes(s, 0, b) == x + y;
    AcceptedGrows(k, x, y);
  }

  ghost predicate Accepts(k: Sampler, lo: int, hi: int) {
    forall x :: |x| == k.group ==> forall v :: v in k.accept(x) ==> lo <= v <= hi
  }

  lemma {:induction false} AcceptedInRange(k: Sampler, x: seq<byte>, lo: int, hi: int)
    requires k.group > 0 && Accepts(k, lo, hi)
    ensures forall v :: v in Accepted(k, x) ==> lo <= v <= hi
    decreases |x|
  {
    if |x| >= k.group {
      AcceptedInRange(k, x[k.group..], lo, hi);
    }
  }

  // ----- the loops

  /** Append candidates to the values stored from a[start] on, as long as there is room for len. */
  method Store(a: array<int>, start: nat, len: nat, stored: nat, candidates: seq<int>) returns (ctr: nat)
    requires stored <= len && start + len <= a.Length
    modifies a
    ensures ctr <= len && a[start..start + ctr] == First(len, old(a[start..start + stored]) + candidates)
    ensures a[..start] == old(a[..start])
  {
    hide First;
    ctr := stored;
    ghost var before := a[start..start + stored];
    FirstOfAll(len, before, candidates);
    for j := 0 to |candidates|
      invariant ctr <= len
      invariant a[start..start + ctr] == First(len, before + candidates[..j])
      invariant a[..start] == old(a[..start])
    {
      FirstOfSnoc(len, before + candidates[..j], candidates[j], before + candidates[..j + 1]);
      ghost var sofar := a[start..start + ctr];
      if ctr < len {
        a[start + ctr] := candidates[j];
        ctr := ctr + 1;
        assert a[start..start + ctr] == sofar + [candidates[j]];
      }
    }
    assert candidates[..|candidates|] == candidates;
  }

  lemma FirstOfAll(n: nat, x: seq<int>, y: seq<int>)
    requires |x| <= n
    ensures First(n, x + y[..0]) == x
  {
  }

  /** At most len accepted values of buf, stored from a[start] on. */
  method Reject(k: Sampler, a: array<int>, start: nat, len: nat, buf: seq<byte>) returns (ctr: nat)
    requires k.group > 0 && start + len <= a.Length
    modifies a
    ensures ctr <= len && a[start..start + ctr] == First(len, Accepted(k, buf))
    ensures a[..start] == old(a[..start])
  {
    hide Accepted, First;
    ctr := 0;
    var pos := 0;
    ghost var groups := 0;
    NothingAccepted(k, buf[..0]);
    while ctr < len && pos + k.group <= |buf|
      invariant ctr <= len && pos == groups * k.group <= |buf|
      invariant a[start..start + ctr] == First(len, Accepted(k, buf[..pos]))
      invariant a[..start] == old(a[..start])
      decreases |buf| - pos
    {
      var candidates := k.accept(buf[pos..pos + k.group]);
      OneGroup(k, buf, pos, groups);
      RoomLeft(len, Accepted(k, buf[..pos]), ctr);
      ctr := Store(a, start, len, ctr, candidates);
      pos := pos + k.group;
      groups := groups + 1;
    }
    RestAddsNothing(k, buf, pos, groups, len, ctr);
  }

  lemma RoomLeft(n: nat, x: seq<int>, ctr: nat)
    requires ctr == |First(n, x)| < n
    ensures First(n, x) == x
  {
  }

  lemma FirstOfSnoc(n: nat, x: seq<int>, v: int, y: seq<int>)
    requires y == x + [v]
    ensures First(n, y) == if |First(n, x)| < n then First(n, x) + [v] else First(n, x)
  {
  }

  lemma OneGroup(k: Sampler, buf: seq<byte>, pos: nat, groups: nat)
    requires k.group > 0 && pos == groups * k.group && pos + k.group <= |buf|
    ensures Accepted(k, buf[..pos + k.group]) == Accepted(k, buf[..pos]) + k.accept(buf[pos..pos + k.group])
    ensures pos + k.group == (groups + 1) * k.group
  {
    var x := buf[..pos + k.group];
    AcceptedSplitAt(k, x, pos, groups);
    assert x[..pos] == buf[..pos] && x[pos..] == buf[pos..pos + k.group];
    assert x[pos..][..k.group] == x[pos..] && x[pos..][k.group..] == [];
    assert Accepted(k, []) == [];
  }

  lemma RestAddsNothing(k: Sampler, buf: seq<byte>, pos: nat, groups: nat, len: nat, ctr: nat)
    requires k.group > 0 && pos == groups * k.group <= |buf| && ctr == |First(len, Accepted(k, buf[..pos]))|
    requires ctr >= len || pos + k.group > |buf|
    ensures First(len, Accepted(k, buf)) == First(len, Accepted(k, buf[..pos]))
  {
    AcceptedSplitAt(k, buf, pos, groups);
    if ctr < len {
      NothingAccepted(k, buf[pos..]);
    }
  }

  /** How many of n bytes form complete groups. */
  function Whole(k: Sampler, n: nat): (m: nat)
    requires k.group > 0
    ensures m <= n && n - m < k.group
  {
    n - n % k.group
  }

  /** The bytes of buf after its last complete group. */
  function Leftover(k: Sampler, buf: seq<byte>): (r: seq<byte>)
    requires k.group > 0
    ensures |r| < k.group
  {
    buf[Whole(k, |buf|)..]
  }

  lemma CarryOver(k: Sampler, done: seq<byte>, buf: seq<byte>, more: seq<byte>, n: nat)
    requires k.group > 0 && |done| == n * k.group
    ensures Accepted(k, done + buf + more) == Accepted(k, done + buf) + Accepted(k, Leftover(k, buf) + more)
  {
    hide Accepted, Whole;
    var g := WholeGroups(k, |done|, |buf|, n);
    var m := Whole(k, |buf|);
    SplitTwice(k, done + buf[..m], buf[m..], more, g);
    assert done + buf == (done + buf[..m]) + buf[m..];
    assert done + buf + more == (done + buf[..m]) + (buf[m..] + more);
  }

  lemma SplitTwice(k: Sampler, x: seq<byte>, y: seq<byte>, more: seq<byte>, g: nat)
    requires k.group > 0 && |x| == g * k.group && |y| < k.group
    ensures Accepted(k, x + (y + more)) == Accepted(k, x + y) + Accepted(k, y + more)
  {
    AcceptedSplit(k, x, y, g);
    AcceptedSplit(k, x, y + more, g);
    NothingAccepted(k, y);
  }

  /** Fill a from the stream: one long read, then block by block, moving the bytes of an
      incomplete group to the front of the next buffer. Gives up after fuel blocks. */
  method FillFromStream(k: Sampler, s: Stream, a: array<int>, first: nat, block: nat, fuel: nat)
    returns (ok: bool, read: nat)
    requires k.group > 0
    modifies a
    ensures ok ==> a[..] == First(a.Length, Accepted(k, Bytes(s, 0, read)))
    ensures !ok ==> |Accepted(k, Bytes(s, 0, read))| < a.Length && read == first + fuel * block
  {
    hide Accepted, First, Whole;
    var buf := Bytes(s, 0, first);
    read := first;
    var ctr := Reject(k, a, 0, a.Length, buf);
    ghost var done: seq<byte> := [];
    ghost var groups := 0;
    assert a[0..ctr] == a[..ctr] && done + buf == buf;
    var left := fuel;
    while ctr < a.Length && left > 0
      invariant 0 <= ctr <= a.Length && 0 <= left <= fuel && read == first + (fuel - left) * block
      invariant done + buf == Bytes(s, 0, read) && |done| == groups * k.group
      invariant a[..ctr] == First(a.Length, Accepted(k, Bytes(s, 0, read)))
      decreases left
    {
      var more := Bytes(s, read, block);
      CarryOver(k, done, buf, more, groups);
      ghost var before := a[..ctr];
      RoomLeft(a.Length, Accepted(k, Bytes(s, 0, read)), ctr);
      BytesAppend(s, read, block);
      groups := WholeGroups(k, |done|, |buf|, groups);
      assert done + buf + more == (done + buf[..Whole(k, |buf|)]) + (Leftover(k, buf) + more);
      done := done + buf[..Whole(k, |buf|)];
      buf := Leftover(k, buf) + more;
      var n := Reject(k, a, ctr, a.Length - ctr, buf);
      FirstOfAppend(a.Length, before, Accepted(k, buf));
      assert a[..ctr + n] == before + a[ctr..ctr + n];
      ctr := ctr + n;
      OneBlockMore(fuel, left, block);
      read := read + block;
      left := left - 1;
    }
    ok := ctr == a.Length;
    assert a[..a.Length] == a[..];
    if !ok {
      RoomLeft(a.Length, Accepted(k, Bytes(s, 0, read)), ctr);
    }
  }

  lemma BytesAppend(s: Stream, m: nat, n: nat)
    ensures Bytes(s, 0, m + n) == Bytes(s, 0, m) + Bytes(s, m, n)
  {
  }

  lemma OneBlockMore(fuel: nat, left: nat, block: nat)
    requires 0 < left <= fuel
    ensures (fuel - (left - 1)) * block == (fuel - left) * block + block
  {
  }

  lemma WholeGroups(k: Sampler, d: nat, b: nat, n: nat) returns (g: nat)
    requires k.group > 0 && d == n * k.group
    ensures d + Whole(k, b) == g * k.group
  {
    g := n + b / k.group;
  }

  lemma FirstOfAppend(n: nat, x: seq<int>, y: seq<int>)
    requires |x| <= n
    ensures First(n, x + y) == x + First(n - |x|, y)
  {
  }
}
