/** Vectors of polynomials as bytes: one polynomial after the other, each in the same format. */
module VectorCodec {
  import opened Polynomials
  import opened Words
  import opened BitCodec

  datatype Option<T> = None | Some(value: T)

  /** A group format and how many groups make a polynomial. */
  datatype Format = Format(codec: Codec, groups: nat)

  function Size(f: Format): (r: nat) { f.groups * f.codec.m }

  /** The bytes of n polynomials. */
  function Total(n: nat, f: Format): (r: nat) { n * Size(f) }

  ghost predicate Usable(f: Format) {
    Lossless(f.codec) && f.groups * f.codec.n == N
  }

  ghost predicate VectorInRange(f: Format, v: seq<Poly>) {
    forall i :: 0 <= i < |v| ==> InRange(f.codec, v[i])
  }

  function PackVector(f: Format, v: seq<Poly>): (r: seq<byte>)
    requires f.groups * f.codec.n == N && IsShape(v, |v|)
  {
    if v == [] then [] else Encode(f.codec, v[0], f.groups) + PackVector(f, v[1..])
  }

  function UnpackVector(f: Format, b: seq<byte>, n: nat): (v: seq<Poly>)
    requires |b| == Total(n, f)
    requires Usable(f)
    ensures IsShape(v, n)
    decreases n
  {
    if n == 0 then []
    else
      var s := Size(f);
      NextPolynomial(n, s);
      EncodeDecode(f.codec, b[..s], f.groups);
      [Decode(f.codec, b[..s], f.groups)] + UnpackVector(f, b[s..], n - 1)
  }

  lemma NextPolynomial(n: nat, s: nat)
    requires n > 0
    ensures s <= n * s && n * s - s == (n - 1) * s
  {
  }

  lemma {:induction false} VectorRoundTrip(f: Format, v: seq<Poly>)
    requires Usable(f) && IsShape(v, |v|) && VectorInRange(f, v)
    ensures |PackVector(f, v)| == Total(|v|, f) && UnpackVector(f, PackVector(f, v), |v|) == v
  {
    hide Lossless, InRange, Encode, Decode;
    if v != [] {
      var s := Size(f);
      VectorRoundTrip(f, v[1..]);
      DecodeEncode(f.codec, v[0], f.groups);
      NextPolynomial(|v|, s);
      var b := PackVector(f, v);
      assert b[..s] == Encode(f.codec, v[0], f.groups) && b[s..] == PackVector(f, v[1..]);
      assert v == [v[0]] + v[1..];
    }
  }

  lemma {:induction false} VectorBytes(f: Format, b: seq<byte>, n: nat)
    requires Usable(f) && |b| == Total(n, f)
    ensures VectorInRange(f, UnpackVector(f, b, n)) && PackVector(f, UnpackVector(f, b, n)) == b
    decreases n
  {
    hide Lossless, InRange, Encode, Decode;
    if n > 0 {
      var s := Size(f);
      NextPolynomial(n, s);
      EncodeDecode(f.codec, b[..s], f.groups);
      VectorBytes(f, b[s..], n - 1);
      var d, rest := Decode(f.codec, b[..s], f.groups), UnpackVector(f, b[s..], n - 1);
      assert UnpackVector(f, b, n) == [d] + rest;
      assert ([d] + rest)[1..] == rest;
      assert b == b[..s] + b[s..];
    } else {
      assert b == [];
    }
  }
}
