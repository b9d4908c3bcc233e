/** tools/pqc/mlkem/mlkem.c and verify.c: the key-encapsulation mechanism with implicit rejection. */
module MlkemKem {
  import opened Polynomials
  import opened Words
  import opened VectorCodec
  import opened Rejection
  import opened MlkemKpke
  import opened MlkemCorrect
  import opened MlkemDecryption

  // ----- comparing and selecting without branches

  /** verify: every difference leaves a bit in the accumulator. */
  method VerifyBytes(a: seq<byte>, b: seq<byte>) returns (fail: bool)
    requires |a| == |b|
    ensures fail <==> a != b
  {
    var r: byte := 0;
    for i := 0 to |a|
      invariant r == 0 <==> a[..i] == b[..i]
    {
      Accumulates(r, a[i], b[i]);
      assert a[..i + 1] == a[..i] + [a[i]] && b[..i + 1] == b[..i] + [b[i]];
      r := r | (a[i] ^ b[i]);
    }
    assert a[..|a|] == a && b[..|b|] == b;
    fail := r != 0;
  }

  lemma Accumulates(r: byte, x: byte, y: byte)
    ensures r | (x ^ y) == 0 <==> r == 0 && x == y
  {
  }

  /** cmov: the mask is 0xFF when b is 1 and 0 when b is 0. */
  method CMov(r: array<byte>, x: seq<byte>, b: byte)
    requires r.Length == |x| && (b == 0 || b == 1)
    modifies r
    ensures r[..] == if b == 1 then x else old(r[..])
  {
    var mask := 0 - b;
    for i := 0 to |x|
      invariant forall j :: 0 <= j < i ==> r[j] == if b == 1 then x[j] else old(r[j])
      invariant forall j :: i <= j < |x| ==> r[j] == old(r[j])
    {
      Selects(r[i], x[i], b);
      r[i] := r[i] ^ (mask & (r[i] ^ x[i]));
    }
  }

  lemma Selects(r: byte, x: byte, b: byte)
    requires b == 0 || b == 1
    ensures r ^ ((0 - b) & (r ^ x)) == if b == 1 then x else r
  {
  }

  // ----- the mechanism

  function H(e: Hashes, x: seq<byte>): (r: seq<byte>)
    ensures |r| == SYM
  {
    Bytes(e.h(x), 0, SYM)
  }

  /** Key and coins. */
  function G(e: Hashes, x: seq<byte>): (r: (seq<byte>, seq<byte>))
    ensures |r.0| == |r.1| == SYM
  {
    (Bytes(e.g(x), 0, SYM), Bytes(e.g(x), SYM, SYM))
  }

  function RejectionKey(e: Hashes, z: seq<byte>, ct: seq<byte>): (r: seq<byte>)
    ensures |r| == SYM
  {
    Bytes(e.prf(z + ct), 0, SYM)
  }

  function KemKeySize(p: Params): (r: nat) { DecryptionKeySize(p) + EncryptionKeySize(p) + 2 * SYM }

  lemma KemSizes()
    ensures KemKeySize(ML_KEM_512) == 1632 && KemKeySize(ML_KEM_768) == 2400 && KemKeySize(ML_KEM_1024) == 3168
  {
  }

  function KemKeyGen(e: Hashes, p: Params, d: seq<byte>, z: seq<byte>): (r: Option<(seq<byte>, seq<byte>)>)
    requires IsParams(p) && |d| == |z| == SYM
  {
    var r := KeyGen(e, p, d);
    if r.None? then None
    else
      var (ek, dk) := r.value;
      Some((ek, dk + ek + H(e, ek) + z))
  }

  /** Shared secret and ciphertext. */
  function Encaps(e: Hashes, p: Params, ek: seq<byte>, m: seq<byte>): (r: Option<(seq<byte>, seq<byte>)>)
    requires IsParams(p) && |ek| == EncryptionKeySize(p) && |m| == SYM
  {
    var (key, coins) := G(e, m + H(e, ek));
    var c := Encrypt(e, p, ek, m, coins);
    if c.None? then None else Some((key, c.value))
  }

  lemma DecryptLength(p: Params, dk: seq<byte>, c: seq<byte>)
    requires IsParams(p) && |dk| == DecryptionKeySize(p) && |c| == CiphertextSize(p)
    ensures |Decrypt(p, dk, c)| == SYM
  {
    hide IsParams, Matched, DecryptPoly, UnpackCiphertext, UnpackVectorBytes, Total;
    Depths(p);
    var (u, v) := UnpackCiphertext(p, c);
    var s := UnpackVectorBytes(p, dk);
    VectorsMatch(s, u, p.k);
    MessageOfBits(DecryptPoly(s, u, v));
  }

  function Decaps(e: Hashes, p: Params, dk: seq<byte>, ct: seq<byte>): (r: Option<seq<byte>>)
    requires IsParams(p) && |dk| == KemKeySize(p) && |ct| == CiphertextSize(p)
  {
    var a := DecryptionKeySize(p);
    var b := a + EncryptionKeySize(p);
    DecryptLength(p, dk[..a], ct);
    var m := Decrypt(p, dk[..a], ct);
    var (key, coins) := G(e, m + dk[b..b + SYM]);
    var c := Encrypt(e, p, dk[a..b], m, coins);
    if c.None? then None
    else Some(if ct == c.value then key else RejectionKey(e, dk[b + SYM..], ct))
  }

  lemma KeySizes(e: Hashes, p: Params, d: seq<byte>)
    requires IsParams(p) && |d| == SYM && KeyGen(e, p, d).Some?
    ensures |KeyGen(e, p, d).value.0| == EncryptionKeySize(p) && |KeyGen(e, p, d).value.1| == DecryptionKeySize(p)
  {
    hide KeyGen, EncryptionKeySize, DecryptionKeySize, IsParams, NoiseOf, Encrypt, Decrypt, CiphertextSize,
         KeySecrets, IsMatrixShape, Survives, MessageBits;
    DecryptEncrypt(e, p, d, d, d);
  }

  /** The parts of a key made by KemKeyGen: the two keys of K-PKE, the hash of the first, and z. */
  lemma KeyParts(e: Hashes, p: Params, d: seq<byte>, z: seq<byte>)
    requires IsParams(p) && |d| == |z| == 32 && KemKeyGen(e, p, d, z).Some?
    ensures KeyGen(e, p, d).Some?
    ensures var (ek, dk) := KemKeyGen(e, p, d, z).value; var a := DecryptionKeySize(p); var b :=
         a + EncryptionKeySize(p);
      && |ek| == EncryptionKeySize(p) && |dk| == KemKeySize(p) && KeyGen(e, p, d).value == (ek, dk[..a])
      && dk[a..b] == ek && dk[b..b + 32] == Bytes(e.h(ek), 0, 32) && dk[b + 32..] == z
  {
    hide KeyGen, EncryptionKeySize, DecryptionKeySize, IsParams, NoiseOf, Encrypt, Decrypt, CiphertextSize,
         KeySecrets, IsMatrixShape;
    KeySizes(e, p, d);
    var (ek, k) := KeyGen(e, p, d).value;
    FourParts(k, ek, Bytes(e.h(ek), 0, 32), z, DecryptionKeySize(p), EncryptionKeySize(p));
  }

  lemma FourParts(x: seq<byte>, y: seq<byte>, h: seq<byte>, z: seq<byte>, a: nat, n: nat)
    requires |x| == a && |y| == n && |h| == |z| == 32
    ensures var s := x + y + h + z; var b := a + n;
      |s| == b + 2 * 32 && s[..a] == x && s[a..b] == y && s[b..b + 32] == h && s[b + 32..] == z
  {
  }

  /** Encapsulation: the first 32 bytes of G(m || H(ek)) are the secret, the next 32 the coins. */
  lemma EncapsExactly(e: Hashes, p: Params, ek: seq<byte>, m: seq<byte>)
    requires IsParams(p) && |ek| == EncryptionKeySize(p) && |m| == 32
    ensures var g := e.g(m + Bytes(e.h(ek), 0, 32)); var c := Encrypt(e, p, ek, m, Bytes(g, 32, 32));
      Encaps(e, p, ek, m) == if c.None? then None else Some((Bytes(g, 0, 32), c.value))
  {
    hide Encrypt, IsParams, EncryptionKeySize;
  }

  /** Byte j of the secret r is byte j of G(m || h) if encrypting the decrypted message m again gives the same
      ciphertext, and otherwise byte j of the stream of z and ct; there is none if encrypting fails. The key
      bytes are those of K-PKE, then h at b and z behind h. */
  ghost predicate Decapsulated(e: Hashes, p: Params, dk: seq<byte>, ct: seq<byte>, r: Option<seq<byte>>)
    requires IsParams(p) && |dk| == KemKeySize(p) && |ct| == CiphertextSize(p)
  {
    var a := DecryptionKeySize(p);
    var b := a + EncryptionKeySize(p);
    var m := Decrypt(p, dk[..a], ct);
    && |m| == 32
    && var g := e.g(m + dk[b..b + 32]);
       var c := Encrypt(e, p, dk[a..b], m, Bytes(g, 32, 32));
       && (r.Some? <==> c.Some?)
       && (c.Some? ==> |r.value| == 32 && forall j :: 0 <= j < 32 ==>
            r.value[j] == if ct == c.value then g(j) else e.prf(dk[b + 32..] + ct)(j))
  }

  /** Decapsulation under any key bytes. */
  lemma DecapsExactly(e: Hashes, p: Params, dk: seq<byte>, ct: seq<byte>)
    requires IsParams(p) && |dk| == KemKeySize(p) && |ct| == CiphertextSize(p)
    ensures Decapsulated(e, p, dk, ct, Decaps(e, p, dk, ct))
  {
    hide Encrypt, Decrypt, IsParams, EncryptionKeySize, DecryptionKeySize, CiphertextSize;
    DecryptLength(p, dk[..DecryptionKeySize(p)], ct);
  }

  /** With keys from keygen: decapsulating what encaps made gives exactly its shared secret,
      whenever every bit of the message survives the noise of that ciphertext. */
  lemma DecapsEncaps(e: Hashes, p: Params, d: seq<byte>, z: seq<byte>, m: seq<byte>)
    requires IsParams(p) && |d| == |z| == |m| == 32 && KemKeyGen(e, p, d, z).Some?
    ensures var (ek, dk) := KemKeyGen(e, p, d, z).value; var g := e.g(m + Bytes(e.h(ek), 0, 32));
      && |ek| == EncryptionKeySize(p) && |dk| == KemKeySize(p) && IsMatrixShape(p, KeySecrets(e, p, d).a)
      && Encaps(e, p, ek, m).Some?
      && var (key, ct) := Encaps(e, p, ek, m).value; var n := NoiseOf(e, p, d, m, Bytes(g, 32, 32));
         && key == Bytes(g, 0, 32) && |ct| == CiphertextSize(p)
         && ((forall j :: 0 <= j < N ==> Survives(MessageBits(m)[j], n[j])) ==> Decaps(e, p, dk, ct) == Some(key))
  {
    hide KeyGen, Encrypt, Decrypt, NoiseOf, Survives, MessageBits, KeySecrets, IsParams, IsMatrixShape,
         EncryptionKeySize, DecryptionKeySize, CiphertextSize;
    KeyParts(e, p, d, z);
    var (ek, dk) := KemKeyGen(e, p, d, z).value;
    DecryptEncrypt(e, p, d, m, Bytes(e.g(m + Bytes(e.h(ek), 0, 32)), 32, 32));
  }

  /** Decapsulation, for keys from keygen and any ciphertext: with m the decrypted message, the secret
      is the first half of G(m || H(ek)) if encrypting m with the second half gives the same
      ciphertext, and otherwise byte j of it is byte j of the stream of z and the ciphertext. */
  lemma ImplicitRejection(e: Hashes, p: Params, d: seq<byte>, z: seq<byte>, ct: seq<byte>)
    requires IsParams(p) && |d| == |z| == 32 && KemKeyGen(e, p, d, z).Some? && |ct| == CiphertextSize(p)
    ensures var (ek, dk) := KemKeyGen(e, p, d, z).value; var k := KeyGen(e, p, d);
      && |ek| == EncryptionKeySize(p) && |dk| == KemKeySize(p) && k.Some? && |k.value.1| == DecryptionKeySize(p)
      && var m := Decrypt(p, k.value.1, ct); var g := e.g(m + Bytes(e.h(ek), 0, 32));
      && |m| == 32 && Encrypt(e, p, ek, m, Bytes(g, 32, 32)).Some? && Decaps(e, p, dk, ct).Some?
      && var r, ct' := Decaps(e, p, dk, ct).value, Encrypt(e, p, ek, m, Bytes(g, 32, 32)).value;
         |r| == 32 && forall j :: 0 <= j < 32 ==> r[j] == if ct' == ct then g(j) else e.prf(z + ct)(j)
  {
    hide KeyGen, Encrypt, Decrypt, NoiseOf, Survives, MessageBits, KeySecrets, IsParams, IsMatrixShape,
         EncryptionKeySize, DecryptionKeySize, CiphertextSize, Decaps;
    KeyParts(e, p, d, z);
    var k := KeyGen(e, p, d).value.1;
    DecryptLength(p, k, ct);
    var m := Decrypt(p, k, ct);
    var (ek, dk) := KemKeyGen(e, p, d, z).value;
    DecryptEncrypt(e, p, d, m, Bytes(e.g(m + Bytes(e.h(ek), 0, 32)), 32, 32));
    DecapsExactly(e, p, dk, ct);
  }
}
