/** The calls of fips202.c that the schemes make, in the order the code makes them: what
    mldsa.c, mldsa_poly.c, mlkem.c and the two symmetric-shake.c hash, and which bytes they get. */
module HashCalls {
  import opened Words
  import opened Rejection
  import opened Sponge
  import opened Fips202
  import D = MldsaScheme
  import S = MldsaSampling
  import K = MlkemKpke

  /** The rate of SHA3-512. */
  const RATE512: nat := 72

  /** f gives the output streams of SHAKE, or the digests of SHA-3, at rate r. */
  ghost predicate IsStream(f: seq<byte> -> Stream, r: nat, suffix: byte) {
    IsRate(r) && forall x: seq<byte>, j: nat :: f(x)(j) == OutputByte(r, x, suffix, j)
  }

  /** The state after init, absorbing input, and finalize. */
  ghost predicate Absorbed(p: Progress, r: nat, input: seq<byte>)
    requires IsRate(r)
  {
    p == Progress(Finalized(r, AbsorbBytes(KeccakBytes, r, Progress(ZERO_STATE, 0), input), 0x1F), r)
  }

  lemma SqueezedBytes(r: nat, input: seq<byte>, p: Progress, f: seq<byte> -> Stream, n: nat)
    requires IsStream(f, r, 0x1F) && Absorbed(p, r, input)
    ensures p.pos == r && SqueezeBytes(KeccakBytes, r, p, n).0 == Bytes(f(input), 0, n)
  {
    hide Finalized, AbsorbBytes, AbsorbBlocks, SqueezeBytes, KeccakBytes, Padded, StreamByte;
    AbsorbIsSponge(KeccakBytes, r, ZERO_STATE, input, 0x1F);
    forall i | 0 <= i < n
      ensures SqueezeBytes(KeccakBytes, r, p, n).0[i] == f(input)(i)
    {
      SqueezeIsStream(KeccakBytes, r, p.s, n, i);
    }
  }

  // ----- the calls

  /** init, absorb x, finalize */
  method AbsorbOne(r: nat, x: seq<byte>) returns (state: KeccakState)
    requires IsRate(r)
    ensures fresh(state) && fresh(state.s) && state.Valid() && Absorbed(state.View(), r, x)
  {
    hide Finalized, AbsorbBytes, KeccakBytes, StateBytes;
    state := new KeccakState();
    state.Absorb(r, x);
    state.Finalize(r, 0x1F);
  }

  /** init, absorb x, absorb y, finalize */
  method AbsorbBoth(r: nat, x: seq<byte>, y: seq<byte>) returns (state: KeccakState)
    requires IsRate(r)
    ensures fresh(state) && fresh(state.s) && state.Valid() && Absorbed(state.View(), r, x + y)
  {
    hide Finalized, AbsorbBytes, KeccakBytes, StateBytes;
    state := new KeccakState();
    state.Absorb(r, x);
    state.Absorb(r, y);
    AbsorbAppend(KeccakBytes, r, Progress(ZERO_STATE, 0), x, y);
    state.Finalize(r, 0x1F);
  }

  /** first blocks together, then more blocks one at a time. */
  method Blocks(state: KeccakState, f: seq<byte> -> Stream, r: nat, ghost input: seq<byte>, first: nat, more: nat)
    returns (out: seq<byte>)
    requires IsStream(f, r, 0x1F) && state.Valid() && Absorbed(state.View(), r, input)
    modifies state, state.s
    ensures out == Bytes(f(input), 0, (first + more) * r)
  {
    hide Finalized, AbsorbBytes, SqueezeBytes, KeccakBytes, StateBytes, OutputByte, Absorbed;
    ghost var p := state.View();
    SqueezedBytes(r, input, p, f, (first + more) * r);
    out := state.SqueezeBlocks(r, first);
    for i := 0 to more
      invariant state.Valid() && state.pos == r
      invariant (out, state.View()) == SqueezeBytes(KeccakBytes, r, p, (first + i) * r)
    {
      SqueezeAppend(KeccakBytes, r, p, (first + i) * r, 1 * r);
      var x := state.SqueezeBlocks(r, 1);
      assert (first + (i + 1)) * r == (first + i) * r + 1 * r;
      out := out + x;
    }
  }

  // ----- ML-DSA

  /** mldsa_sign_internal and mldsa_verify_internal: absorb tr, absorb m, squeeze 64 bytes. */
  method MessageRepresentative(e: D.Shake, tr: seq<byte>, m: seq<byte>) returns (mu: seq<byte>)
    requires IsStream(e.x256, S.RATE256, 0x1F)
    ensures mu == D.MessageHash(e, tr, m) && forall j :: 0 <= j < 64 ==> mu[j] == e.x256(tr + m)(j)
  {
    hide Finalized, AbsorbBytes, SqueezeBytes, KeccakBytes, StateBytes, OutputByte, Absorbed;
    var state := AbsorbBoth(S.RATE256, tr, m);
    SqueezedBytes(S.RATE256, tr + m, state.View(), e.x256, 64);
    mu := state.Squeeze(S.RATE256, 64);
  }

  /** The seed of the mask: shake256 of the 32 bytes of key, the randomizer and mu, which lie in a row. */
  method MaskSeed(e: D.Shake, key: seq<byte>, rnd: seq<byte>, mu: seq<byte>) returns (seed: seq<byte>)
    requires IsStream(e.x256, S.RATE256, 0x1F)
    ensures |seed| == 64 && forall j :: 0 <= j < 64 ==> seed[j] == e.x256(key + rnd + mu)(j)
  {
    hide OutputByte;
    seed := Shake(S.RATE256, key + rnd + mu, 64);
  }

  /** The challenge bytes: absorb mu, absorb the packed high parts, squeeze n bytes. */
  method ChallengeBytes(e: D.Shake, mu: seq<byte>, w1: seq<byte>, n: nat) returns (c: seq<byte>)
    requires IsStream(e.x256, S.RATE256, 0x1F)
    ensures |c| == n && forall j :: 0 <= j < n ==> c[j] == e.x256(mu + w1)(j)
  {
    hide Finalized, AbsorbBytes, SqueezeBytes, KeccakBytes, StateBytes, OutputByte, Absorbed;
    var state := AbsorbBoth(S.RATE256, mu, w1);
    SqueezedBytes(S.RATE256, mu + w1, state.View(), e.x256, n);
    c := state.Squeeze(S.RATE256, n);
  }

  /** stream128_init and stream256_init with a nonce, then blocks. */
  method SeedBlocks(f: seq<byte> -> Stream, r: nat, seed: seq<byte>, nonce: nat, first: nat, more: nat)
    returns (out: seq<byte>)
    requires IsStream(f, r, 0x1F) && nonce < 0x1_0000
    ensures out == Bytes(f(seed + [ByteOf(nonce % 0x100), ByteOf(nonce / 0x100)]), 0, (first + more) * r)
  {
    hide Absorbed, ByteOf, OutputByte;
    var t := [ByteOf(nonce % 0x100), ByteOf(nonce / 0x100)];
    var state := AbsorbBoth(r, seed, t);
    out := Blocks(state, f, r, seed + t, first, more);
  }

  /** poly_challenge: the blocks of the stream of the challenge bytes. */
  method ChallengeBlocks(e: D.Shake, c: seq<byte>, more: nat) returns (out: seq<byte>)
    requires IsStream(e.x256, S.RATE256, 0x1F)
    ensures out == Bytes(e.x256(c), 0, (1 + more) * S.RATE256)
  {
    hide Absorbed, OutputByte;
    var state := AbsorbOne(S.RATE256, c);
    out := Blocks(state, e.x256, S.RATE256, c, 1, more);
  }

  // ----- ML-KEM

  /** kyber_shake256_rkprf: absorb z, absorb the ciphertext, squeeze 32 bytes. */
  method RejectionSecret(e: K.Hashes, z: seq<byte>, ct: seq<byte>) returns (out: seq<byte>)
    requires IsStream(e.prf, S.RATE256, 0x1F)
    ensures |out| == 32 && forall j :: 0 <= j < 32 ==> out[j] == e.prf(z + ct)(j)
  {
    hide Finalized, AbsorbBytes, SqueezeBytes, KeccakBytes, StateBytes, OutputByte, Absorbed;
    var state := AbsorbBoth(S.RATE256, z, ct);
    SqueezedBytes(S.RATE256, z + ct, state.View(), e.prf, 32);
    out := state.Squeeze(S.RATE256, 32);
  }

  /** kyber_shake256_prf */
  method NoiseBytes(e: K.Hashes, seed: seq<byte>, nonce: nat, n: nat) returns (out: seq<byte>)
    requires IsStream(e.prf, S.RATE256, 0x1F) && nonce < 256
    ensures out == Bytes(e.prf(seed + [ByteOf(nonce)]), 0, n)
  {
    hide OutputByte, ByteOf;
    out := Shake(S.RATE256, seed + [ByteOf(nonce)], n);
  }

  /** kyber_shake128_absorb, then blocks. */
  method MatrixBlocks(e: K.Hashes, seed: seq<byte>, x: nat, y: nat, first: nat, more: nat) returns (out: seq<byte>)
    requires IsStream(e.xof, S.RATE128, 0x1F) && x < 256 && y < 256
    ensures out == Bytes(e.xof(seed + [ByteOf(x), ByteOf(y)]), 0, (first + more) * S.RATE128)
  {
    hide Finalized, AbsorbBytes, KeccakBytes, StateBytes, ByteOf, OutputByte;
    var input := seed + [ByteOf(x), ByteOf(y)];
    var state := new KeccakState();
    state.AbsorbOnce(S.RATE128, input, 0x1F);
    out := Blocks(state, e.xof, S.RATE128, input, first, more);
  }

  /** hash_g: the 64 bytes of SHA3-512. */
  method HashG(e: K.Hashes, x: seq<byte>) returns (out: seq<byte>)
    requires IsStream(e.g, RATE512, 0x06)
    ensures out == Bytes(e.g(x), 0, 64)
  {
    hide OutputByte;
    out := Sha3(RATE512, x, 8);
  }

  /** hash_h: the 32 bytes of SHA3-256. */
  method HashH(e: K.Hashes, x: seq<byte>) returns (out: seq<byte>)
    requires IsStream(e.h, S.RATE256, 0x06)
    ensures out == Bytes(e.h(x), 0, 32)
  {
    hide OutputByte;
    out := Sha3(S.RATE256, x, 4);
  }
}
