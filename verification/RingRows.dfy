/** Rows of matrix-vector products over the ring Z[X]/(X^256 + 1), as the standards write them. */
module RingRows {
  import opened Polynomials
  import opened NttAlgebra

  function Zero(): (r: Poly)
    ensures |r| == N && forall i :: 0 <= i < N ==> r[i] == 0
  {
    seq(N, i => 0)
  }

  /** a[0] * v[0] + ... + a[n - 1] * v[n - 1]. */
  function RowSum(a: seq<Poly>, v: seq<Poly>, n: nat): (r: Poly)
    requires n <= |a| && Matched(a, v)
    ensures |r| == N
  {
    if n == 0 then Zero() else Lin(1, RowSum(a, v, n - 1), 1, Product(a[n - 1], v[n - 1]))
  }

  /** Every coefficient as its representative in [0, q). */
  function Residues(d: Poly, q: int): (r: Poly)
    requires q > 0
    ensures |r| == |d| && forall i :: 0 <= i < |d| ==> r[i] == d[i] % q
  {
    seq(|d|, i requires 0 <= i < |d| => d[i] % q)
  }
}
