/** Polynomials modulo X^256 + 1, as both schemes store them: 256 coefficients. */
module Polynomials {

  const N: nat := 256

  type Poly = seq<int>

  predicate Within(a: seq<int>, b: int) {
    forall i :: 0 <= i < |a| ==> -b <= a[i] <= b
  }

  predicate IsPoly(a: Poly, bound: int) { |a| == N && Within(a, bound) }

  predicate IsVector(v: seq<Poly>, n: nat, bound: int) {
    |v| == n && forall i :: 0 <= i < n ==> IsPoly(v[i], bound)
  }

  predicate IsShape(v: seq<Poly>, n: nat) {
    |v| == n && forall i :: 0 <= i < n ==> |v[i]| == N
  }

  /** row and v are vectors of the same length. */
  predicate Matched(row: seq<Poly>, v: seq<Poly>) {
    |row| == |v| && forall l :: 0 <= l < |row| ==> |row[l]| == |v[l]| == N
  }
}
