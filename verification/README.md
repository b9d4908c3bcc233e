# Post-quantum reference code: model and proofs

This project models the cryptographic core of `tools/pqc`: ML-DSA (FIPS 204), ML-KEM (FIPS 203),
the SHA-3 sponge and the Keccak permutation (FIPS 202), each with its hand-vectorised twin.
`dafny verify dfyconfig.toml` checks everything.

How the parts fit together:

- **Transforms.** `NttAlgebra` is the tree of rings under a number-theoretic transform over unreduced
  integers, with the number of layers, the modulus and the roots as parameters. `Butterflies` ties it
  to loops that work layer by layer on an array. `MldsaNtt` and `MlkemNtt` are the loops of the code,
  storing 32-bit and 16-bit words, with the root tables checked entry by entry (`MldsaZetas`,
  `MlkemZetas`); `MldsaNtt.ProductTheorem` and `MlkemProduct.ProductTheorem` say what they are for.
- **Vector twins.** Registers are sequences of lanes, gathers are index vectors (`Lanes`,
  `VectorLayers`). ML-DSA's vector transforms give the same arrays bit for bit; ML-KEM's give the
  canonical residues of the same values, and no 16-bit lane wraps. `MlkemVectorKpke` concludes that
  keys, ciphertexts and messages are the same bytes with either arithmetic.
- **Schemes.** SHAKE is an arbitrary function from messages to byte streams. `MldsaScheme` and
  `MlkemKpke`/`MlkemKem` are the operations on bytes; the central laws are `MldsaCorrect.SignThenVerify`
  and `MlkemDecryption.DecryptEncrypt` with `MlkemKem.DecapsEncaps` and `MlkemKem.ImplicitRejection`.
- **Standards.** Beside each operation stands an independent definition of what it computes: rounding and
  hints of FIPS 204 (`MldsaStandard`), compression of FIPS 203 (`MlkemStandard`), fields of bits
  (`BitOrder`, `FieldVectors`, `FormatOrder`, `MldsaFields`, `MldsaHintBytes`), candidates of a stream
  (`Candidates`), counted noise bits (`MlkemNoise`), the steps of the challenge (`MldsaChallenge`), the order
  of the roots (`MldsaRoots`, `MlkemRoots`) and rows over the ring itself (`RingRows`). `MldsaVerification`,
  `MldsaSigning`, `MldsaKeyGeneration` and `MlkemEncryption` prove that the verdict, every turn of signing,
  keys, ciphertexts and decrypted messages are those of the standards for all inputs; `HashCalls` runs the
  absorbs and squeezes of the code that supply the bytes.
- **Sponge.** `Sponge` is the sponge over bytes for any permutation, `Keccak` the permutation on 25
  lanes; `Fips202` is the code that xors bytes into lanes and permutes them.
- **Codecs and samplers.** One codec (`BitCodec`) applied with each packer's group format; samplers read
  a stream in blocks (`Rejection`).

Machine arithmetic is explicit: `W32` and `W16` are the values kept by a store, Montgomery and Barrett
steps truncate where the C code does, shifts of negative values round down.

Where code and comments differ, the model follows the code:

- `montgomery_reduce` of ML-DSA is said to stay below Q on the closed range up to 2^31 * Q; at the
  upper end it returns Q (`MldsaReduce.MontgomeryReduceOnClosedRange`).
- `reduce32` is said to reach -6283008 at least; it reaches -6283009, at one input (`MldsaReduce.Reduce32Exact`).
- The inverse transform of ML-DSA is said to stay below Q; it stays below 0.503 * Q, and that is what
  lets `caddq` after adding `s2` end in [0, Q) (`MldsaNtt.InvNttIsInv`, `MldsaEquation.KeyValues`).
- Decryption of ML-KEM survives noise in [-832, 832 - bit]: 832 is harmless for a 0 bit and flips a 1 bit.

## Model

| member | source | states |
|---|---|---|
| MldsaCorrect.SignThenVerify | tools/pqc/mldsa/mldsa.c:336-594 | for every SHAKE, parameter set, seed, message, rnd and turn of the loop, a signature accepted under a key from keygen verifies |
| MldsaRuns.KeyGenSignVerify | tools/pqc/mldsa/mldsa.c:336-594 | keygen, the whole rejection loop and verify run one after the other: whatever signature the loop returns, verify says Valid |
| MldsaVerification.VerifyExactly | tools/pqc/mldsa/mldsa.c:525-594 | for every public key, message and signature bytes: the verdict is Valid if and only if length and hint bytes are right, every coefficient of z lies strictly within gamma1 - beta, and byte j of the challenge is byte j of SHAKE256(mu, w1), with w1 = UseHint of A*z - c*t1*2^13 in the ring, read from the bits of key and signature |
| MldsaVerification.VerifyEarly | tools/pqc/mldsa/mldsa.c:525-550 | what is refused before anything is hashed; where the model stops because a stream runs dry, it never says Valid |
| MldsaVerification.MatrixExists | tools/pqc/mldsa/polyvec.c:12-22 | the sampled values are the transform of a matrix A of polynomials, so the statements about A speak of every sampled matrix |
| MldsaVerification.NormsExactly | tools/pqc/mldsa/mldsa_poly.c:257-283 | for bounds up to (Q - 1) / 8 the norm check passes exactly the vectors strictly within the bound |
| MldsaSigning.SignExactly | tools/pqc/mldsa/mldsa.c:404-514 | for any secret key bytes, message, rnd and turn: mu and the mask seed are SHAKE256 of tr, m and of K, rnd, mu; the turn is rejected exactly by the four checks on ring polynomials, and the signature is the challenge bytes, the fields of z and the hint bytes of the standard |
| MldsaSigning.SignWithoutMatrix | tools/pqc/mldsa/mldsa.c:438-439 | without a complete matrix there is no signature |
| MldsaSigning.MaskExactly | tools/pqc/mldsa/mldsa_poly.c:455-468 | mask polynomial l of turn nonce is gamma1 minus the fields of the stream of the seed and the two low bytes of ell * nonce + l |
| MldsaSigning.ChecksExactly | tools/pqc/mldsa/mldsa.c:479-514 | the checks of the code on representatives that are not centred admit exactly what the checks on centred coefficients, high parts and hint counts admit |
| MldsaTurnRows.KeepsExactly | tools/pqc/mldsa/mldsa.c:490-499 | the check on w0 - c*s2 tells exactly whether w - c*s2 keeps the high part of w with a small low part |
| MldsaTurnRows.HintRowExactly | tools/pqc/mldsa/mldsa.c:501-512 | after the checks the hint of a coefficient is MakeHint(-c*t0, w - c*s2 + c*t0) |
| MldsaKeyGeneration.KeyGenExactly | tools/pqc/mldsa/mldsa.c:336-395 | bytes 0-31, 32-95 and 96-127 of SHAKE256(seed, k, ell) are rho, the seed of the short vectors and K; both keys, bit by bit, from Power2Round of A*s1 + s2 modulo Q and tr = SHAKE256(pk) |
| MldsaKeyGeneration.KeyGenSampled | tools/pqc/mldsa/mldsa.c:336-395 | whenever keys come out, the vectors behind them are complete samples: s1 of nonces 0 to ell - 1, s2 of nonces ell to ell + k - 1 |
| MldsaKeyGeneration.MatrixEntry | tools/pqc/mldsa/polyvec.c:12-22 | entry i, j of the matrix is the sample of the SHAKE128 stream of rho, j, i |
| MldsaKeyGeneration.ShortExactly | tools/pqc/mldsa/polyvec.c:34-42 | short vectors are determined by the streams of their seed and nonces |
| MldsaRing.RecoveredExactly | tools/pqc/mldsa/mldsa.c:560-577 | one row of verify is A*z - c*t1*2^13 in [0, Q), for every row of polynomials whose transform was sampled |
| MldsaRing.CommitmentExactly | tools/pqc/mldsa/mldsa.c:452-465 | one row of sign is A*y in [0, Q) |
| MldsaRing.KeyRowExactly | tools/pqc/mldsa/mldsa.c:369-384 | one row of keygen is A*s1 + s2 in [0, Q) |
| MldsaStandard.DecomposeIsStandard | tools/pqc/mldsa/mldsa_poly.c:29-53 | decompose is algorithm 36 of FIPS 204 on [0, Q) |
| MldsaStandard.UseHintIsStandard | tools/pqc/mldsa/mldsa_poly.c:67-95 | use_hint is algorithm 40 |
| MldsaStandard.MakeHintIsStandard | tools/pqc/mldsa/mldsa_poly.c:57-63 | make_hint is set exactly if a value with the moved low part has another high part |
| MldsaStandard.Power2RoundIsStandard | tools/pqc/mldsa/mldsa_poly.c:14-21 | power2round is algorithm 35 |
| MldsaCorrect.AttemptRecovers | tools/pqc/mldsa/mldsa.c:440-514 | if the three norm checks of a turn pass, the hints turn A*z - c*t1*2^13 back into the high parts that were hashed, row by row |
| MldsaSign.Sign | tools/pqc/mldsa/mldsa.c:404-514 | the loop returns the first turn that is accepted, all earlier ones being rejected |
| MldsaRuns.KeyGenNeverOverflows | tools/pqc/mldsa/mldsa.c:336-395 | no 32-bit intermediate of key generation overflows: transforms, partial sums, reduce32, caddq, power2round |
| MldsaRuns.SignNeverOverflows | tools/pqc/mldsa/mldsa.c:404-514 | nor any of a turn of the signing loop, under arbitrary secret key bytes, including decompose and the doubling in the norm check |
| MldsaRuns.VerifyNeverOverflows | tools/pqc/mldsa/mldsa.c:525-594 | nor any of verification, for arbitrary public key and signature bytes |
| MldsaEquation.RowEquation | tools/pqc/mldsa/mldsa.c:540-572 | A*z - c*t1*2^13 as verify computes it is congruent to w - c*s2 + c*t0 as sign computes it, coefficient by coefficient |
| MldsaEquation.KeyValues | tools/pqc/mldsa/mldsa.c:369-384 | A*s1 + s2 after caddq lies in [0, Q) and has the values of the ring equation |
| MldsaRecovery.RowRecovers | tools/pqc/mldsa/mldsa.c:490-514 | one row: with the hint made from w0 - c*s2 + c*t0, use_hint on verify's row gives w1 |
| MldsaRounding.HintRecovers | tools/pqc/mldsa/mldsa_poly.c:57-95 | a value whose low part moved by less than 2*gamma2 gets its high part back from the hint, including wraparound at the top bucket |
| MldsaRounding.HintRecoversExactly | tools/pqc/mldsa/mldsa_poly.c:57-95 | for both gamma2, every w1 and a move of at most 2*gamma2 either way, the high part comes back if and only if the move is not exactly -2*gamma2 from a bucket other than 0 |
| MldsaRounding.DecomposeExact | tools/pqc/mldsa/mldsa_poly.c:29-53 | the shifts and the multipliers 1025 and 11275 compute the centred division by 2*gamma2, the top half bucket folded into 0, for all a in [0, Q) |
| MldsaRounding.DecompositionUnique | tools/pqc/mldsa/mldsa_poly.c:23-53 | no other pair of parts meets the definition |
| MldsaRounding.Power2RoundExact | tools/pqc/mldsa/mldsa_poly.c:14-21 | the split by 2^13 recombines, with low part in (-2^12, 2^12] and high part in ten bits |
| MldsaVector.AccumulateValues | tools/pqc/mldsa/polyvec.c:111-122 | a sum of up to 8 products never leaves 32 bits and stands for the sum of the products of the values |
| MldsaVector.NormAccepts | tools/pqc/mldsa/mldsa_poly.c:257-283 | a vector that passes the norm check lies strictly within the bound |
| MldsaNtt.ProductTheorem | tools/pqc/mldsa/mldsa_ntt.c:51-97 | invntt of the pointwise Montgomery product of two transforms is congruent to the product modulo X^256 + 1 |
| MldsaNtt.InvNttOfNtt | tools/pqc/mldsa/mldsa_ntt.c:51-97 | the inverse of a transform, reduced in any way, is 2^32 times the polynomial |
| MldsaNtt.HatInvNtt | tools/pqc/mldsa/mldsa_ntt.c:75-97 | the values of an inverse transform are 2^32 times its input |
| MldsaNtt.InvNttIsInv | tools/pqc/mldsa/mldsa_ntt.c:75-97 | the inverse loops compute the inverse of the ring transform with factor 2^32, and their output stays below 0.503 * Q |
| MldsaNtt.NttIsHat | tools/pqc/mldsa/mldsa_ntt.c:51-73 | the eight layers give the values at the roots of X^256 + 1 modulo Q, growing by at most 8Q |
| MldsaNtt.NttInPlace | tools/pqc/mldsa/mldsa_ntt.c:51-73 | the triple loop with its table index, storing 32-bit words in place, computes the eight layers: no store wraps |
| MldsaNtt.InvNttInPlace | tools/pqc/mldsa/mldsa_ntt.c:75-97 | the inverse loop, table read backwards and negated, with values doubling up to 256 * Q, never wraps |
| MldsaZetas.Tree | tools/pqc/mldsa/mldsa_ntt.c:9-47 | every table entry squares to its parent's root, down from -1, and the mirrored negated entry is its inverse |
| MldsaRoots.EntryIsPower | tools/pqc/mldsa/mldsa_ntt.c:9-47 | table entry k is 1753 to the power of the bit reversal of k, for all 255 entries |
| MldsaRoots.HatIsEvaluation | tools/pqc/mldsa/mldsa_ntt.c:51-73 | value i of the transform is the value of the polynomial at 1753^(2 * BitRev8(i) + 1) |
| MldsaReduce.MontgomeryReduceExact | tools/pqc/mldsa/mldsa_reduce.h:12-19 | below 2^31 * Q the result lies in (-Q, Q) and 2^32 times it is congruent to the input |
| MldsaReduce.MontgomeryReduceOnClosedRange | tools/pqc/mldsa/mldsa_reduce.h:9-19 | on the closed range of the comment the promise fails at exactly one point, the upper end |
| MldsaReduce.Reduce32Exact | tools/pqc/mldsa/mldsa_reduce.h:24-31 | congruent, in [-6283009, 6283008], the lower end reached at exactly one input |
| MldsaReduce.FreezeCanonical | tools/pqc/mldsa/mldsa_reduce.h:41-46 | reduce32 then caddq is the remainder modulo Q |
| MldsaVectorNtt.VectorNtt | tools/pqc/mldsa/rvv_poly.c:396-487 | the vector transform leaves the same array as the scalar one, on every input for which that one cannot overflow |
| MldsaVectorNtt.VectorInvNtt | tools/pqc/mldsa/rvv_poly.c:505-627 | the vector inverse leaves the same array as the scalar one |
| MldsaVectorNtt.VectorNtt2Layers | tools/pqc/mldsa/rvv_poly.c:288-342 | three gathers and permuted roots compute the last four layers of sixteen values, back in natural order |
| MldsaVectorNtt.VectorIntt2Layers | tools/pqc/mldsa/rvv_poly.c:344-394 | the first four inverse layers likewise |
| MldsaVectorNtt.LayoutsUndone | tools/pqc/mldsa/rvv_poly.c:293-300 | the final gather undoes the composition of the three swaps |
| MldsaVectorTables.RvvZetaEntry | tools/pqc/mldsa/rvv_poly.c:147-196 | every word of the permuted table is the root of the node its lane works on |
| MldsaVectorTables.RvvIzetaEntry | tools/pqc/mldsa/rvv_poly.c:198-241 | the permuted inverse table holds the inverse roots in the same order; the last words are unused |
| Lanes.BitswapSwaps | tools/pqc/mldsa/rvv_poly.c:274-286 | the xor-and-shift code of bitswap_perm exchanges bits a and b of the lane number and keeps the others |
| Lanes.BitswapTwice | tools/pqc/mldsa/rvv_poly.c:274-286 | gathering through it twice puts every lane back |
| VectorLayers.Stage | tools/pqc/mldsa/rvv_poly.c:312-337 | for any butterfly, a layer on permuted lanes with aligned roots is the layer, permuted |
| VectorLayers.RegisterLayer | tools/pqc/mldsa/rvv_poly.c:404-474 | whole-register butterflies compute a layer over the array |
| MldsaKeys.SignatureRoundTrip | tools/pqc/mldsa/mldsa.c:192-266 | unpacking a packed signature returns it, hints included |
| MldsaKeys.SignatureBytes | tools/pqc/mldsa/mldsa.c:192-266 | bytes that unpack_sig accepts are exactly what pack_sig emits for the signature read from them |
| MldsaKeys.SecretKeyRoundTrip | tools/pqc/mldsa/mldsa.c:112-190 | unpacking a packed secret key returns it, at the sizes of the parameter sets |
| MldsaKeys.PublicKeyRoundTrip | tools/pqc/mldsa/mldsa.c:76-110 | unpacking a packed public key returns it |
| MldsaKeys.Sizes | tools/pqc/mldsa/mldsa.c:14-66 | key and signature sizes computed from the formats are those of the parameter tables |
| MldsaFields.SignatureFields | tools/pqc/mldsa/mldsa.c:225-266 | which bits of a signature are which coefficient of z and which hints, and that nothing else is refused |
| MldsaFields.PublicKeyFields | tools/pqc/mldsa/mldsa.c:94-110 | which bits of a public key are which coefficient of t1 |
| MldsaFields.SecretKeyFields | tools/pqc/mldsa/mldsa.c:153-190 | which bytes of a secret key are rho, K and tr, and which bits are s1, s2 and t0 |
| MldsaHintBytes.AcceptedExactly | tools/pqc/mldsa/mldsa.c:237-264 | hint bytes are accepted if and only if counts never go down or beyond omega, positions increase within each polynomial, and the rest is zero |
| MldsaHintBytes.DecodedExactly | tools/pqc/mldsa/mldsa.c:237-264 | coefficient t of polynomial i is 1 exactly if t is listed for i |
| MldsaHintBytes.EncodedExactly | tools/pqc/mldsa/mldsa.c:204-221 | what pack_sig writes is well formed and lists the hints |
| MldsaHintBytes.OneEncoding | tools/pqc/mldsa/mldsa.c:192-266 | no two well-formed byte strings list the same hints |
| MldsaHints.DecodeEncode | tools/pqc/mldsa/mldsa.c:192-266 | a hint vector of weight at most omega is accepted and returned by the strict decoder |
| MldsaHints.EncodeDecode | tools/pqc/mldsa/mldsa.c:225-266 | hint bytes the decoder accepts are the encoding of what it returns: order, padding and counts are all checked |
| MldsaHints.PackHints | tools/pqc/mldsa/mldsa.c:204-221 | the double loop with running index k writes that encoding in place |
| MldsaHints.UnpackHints | tools/pqc/mldsa/mldsa.c:237-264 | the loop with early returns accepts exactly the accepted bytes and returns their decoding |
| BitCodec.DecodeEncode | tools/pqc/mldsa/mldsa_poly.c:511-803 | for every packer, unpack after pack is the identity on coefficients in range |
| BitCodec.EncodeDecode | tools/pqc/mldsa/mldsa_poly.c:511-803 | pack after unpack is the identity on every byte array |
| BitCodec.Pack | tools/pqc/mldsa/mldsa_poly.c:511-541 | the group loop writes the packed bytes in place |
| FieldVectors.PackedExactly | tools/pqc/mldsa/mldsa_poly.c:511-827 | for every format, bit d * e + j of the packed bytes is bit j of stored coefficient e, polynomial after polynomial, without gaps |
| FieldVectors.UnpackedExactly | tools/pqc/mldsa/mldsa_poly.c:543-803 | for every format, unpacking reads coefficient e from the bits d * e to d * e + d - 1 |
| BitOrder.FieldBit | tools/pqc/mldsa/mldsa_poly.c:543-803 | bit j of the number in such a field is bit start + j of the byte string, least significant first |
| FormatOrder.Eta2Ordered | tools/pqc/mldsa/mldsa_poly.c:543-580 | the shifts and masks of the 3-bit group cut out bits 3i to 3i + 2 |
| FormatOrder.Eta4Ordered | tools/pqc/mldsa/mldsa_poly.c:543-580 | the same for the 4-bit group |
| FormatOrder.T1Ordered | tools/pqc/mldsa/mldsa_poly.c:601-617 | the same for the 10-bit group |
| FormatOrder.T0Ordered | tools/pqc/mldsa/mldsa_poly.c:659-711 | the same for the 13-bit group |
| FormatOrder.Z17Ordered | tools/pqc/mldsa/mldsa_poly.c:755-803 | the same for the 18-bit group |
| FormatOrder.Z19Ordered | tools/pqc/mldsa/mldsa_poly.c:755-803 | the same for the 20-bit group |
| FormatOrder.W88Ordered | tools/pqc/mldsa/mldsa_poly.c:808-827 | the same for the 6-bit group of high parts |
| FormatOrder.TwelveOrdered | tools/pqc/mlkem/mlkem_poly.c:130-140 | the same for the 12-bit group |
| FormatOrder.ElevenOrdered | tools/pqc/mlkem/polyvec.c:80-125 | the same for the 11-bit group |
| FormatOrder.FiveOrdered | tools/pqc/mlkem/mlkem_poly.c:72-107 | the same for the 5-bit group |
| FormatOrder.BitsOrdered | tools/pqc/mlkem/mlkem_poly.c:144-182 | the same for message bits |
| FormatOrder.SharedOrdered | tools/pqc/mlkem/polyvec.c:80-125 | the same for the 4-bit and 10-bit groups of ciphertexts and the 4-bit group of high parts |
| MldsaPack.Eta2Lossless | tools/pqc/mldsa/mldsa_poly.c:511-580 | eight 3-bit coefficients in three bytes, both ways |
| MldsaPack.Eta4Lossless | tools/pqc/mldsa/mldsa_poly.c:511-580 | two 4-bit coefficients in a byte, both ways |
| MldsaPack.T1Lossless | tools/pqc/mldsa/mldsa_poly.c:582-617 | four 10-bit coefficients in five bytes, both ways |
| MldsaPack.T0Lossless | tools/pqc/mldsa/mldsa_poly.c:619-711 | eight 13-bit coefficients in thirteen bytes, both ways |
| MldsaPack.Z17Lossless | tools/pqc/mldsa/mldsa_poly.c:713-803 | four 18-bit coefficients in nine bytes, both ways |
| MldsaPack.Z19Lossless | tools/pqc/mldsa/mldsa_poly.c:713-803 | two 20-bit coefficients in five bytes, both ways |
| MldsaSampling.ChallengeIsSparse | tools/pqc/mldsa/mldsa_poly.c:474-507 | for every stream, the challenge has exactly tau coefficients 1 or -1 and zeros elsewhere |
| MldsaSampling.ChallengeIsStable | tools/pqc/mldsa/mldsa_poly.c:474-507 | it does not depend on how much of the stream was read |
| MldsaChallenge.PlacedExactly | tools/pqc/mldsa/mldsa_poly.c:503-504 | the two stores: coefficient i becomes the old coefficient b, coefficient b the sign, and nothing else changes |
| MldsaChallenge.StepsOfChallenge | tools/pqc/mldsa/mldsa_poly.c:474-507 | a challenge is the end of a run of tau steps: step t takes the first byte of at most 256 - tau + t after the byte taken before, and bit t of the first eight bytes as its sign |
| MldsaChallenge.ChallengeOfSteps | tools/pqc/mldsa/mldsa_poly.c:474-507 | every such run within the bytes that may be read ends in the challenge, so it is missing only if there is none |
| MldsaChallenge.Positions | tools/pqc/mldsa/mldsa_poly.c:491-505 | after each step the nonzero positions are the old ones and the sampled position if it was free, else the position of the step |
| MldsaSampling.PolyChallenge | tools/pqc/mldsa/mldsa_poly.c:474-507 | the swap-and-set loop with block refills leaves that challenge in the array |
| MldsaSampling.PolyUniform | tools/pqc/mldsa/mldsa_poly.c:321-342 | block after block, the polynomial is the first 256 accepted candidates of the stream, all in [0, Q) |
| MldsaSampling.PolyUniformEta | tools/pqc/mldsa/mldsa_poly.c:348-453 | the same for coefficients in [-eta, eta], with 205*t >> 10 as division by 5 |
| Candidates.UniformSample | tools/pqc/mldsa/mldsa_poly.c:293-342 | the n-th coefficient is the 23-bit candidate below Q with n passing candidates before it |
| Candidates.ShortSample | tools/pqc/mldsa/mldsa_poly.c:348-453 | the same with half bytes below 15 as 2 - t mod 5, or below 9 as 4 - t |
| Candidates.TwelveBitSample | tools/pqc/mlkem/mlkem_kpke.c:80-144 | the same with the 12-bit fields of the stream below q |
| Candidates.OneSample | tools/pqc/mldsa/mldsa_poly.c:293-453 | a stream has only one such sample |
| Rejection.FirstIsStable | tools/pqc/mldsa/mldsa_poly.c:321-342 | once n values are found, the first n accepted values are the same for every prefix of the stream |
| Rejection.FillFromStream | tools/pqc/mldsa/mldsa_poly.c:321-342 | reading in blocks and moving an incomplete group to the front of the buffer loses and repeats nothing |
| VectorSampling.RejUniform23 | tools/pqc/mldsa/rvv_poly.c:21-82 | the vector sampler with its scalar tail stores what the scalar one stores, for every buffer length |
| VectorSampling.RejUniform12 | tools/pqc/mlkem/rvv_poly.c:813-854 | the vector sampler stores what the scalar one stores if and only if no candidate after the last whole 24 bytes is needed; always on whole blocks |
| VectorSampling.SameSamples | tools/pqc/mlkem/rvv_poly.c:813-854 | that condition, for every buffer and length |
| VectorSampling.ShortBufferDiffers | tools/pqc/mlkem/rvv_poly.c:829-851 | three zero bytes are a buffer on which a candidate is lost |
| VectorSampling.CandidatesAccepted | tools/pqc/mlkem/mlkem_kpke.c:80-104 | comparing and compressing all 12-bit candidates keeps exactly the scalar sampler's values, in order |
| VectorSampling.MatrixEntry | tools/pqc/mlkem/mlkem_kpke.c:117-144 | the block loop of gen_matrix with either sampler gives the matrix entry the scheme uses, in [0, q) |
| VectorSampling.UniformEntry | tools/pqc/mldsa/mldsa_poly.c:321-342 | the block loop of poly_uniform with either sampler gives the polynomial the scheme uses |
| MlkemDecryption.DecryptEncrypt | tools/pqc/mlkem/mlkem_kpke.c:149-254 | bit i of the message returns if and only if the centred ring noise e*r + e2 + c_v - s*(e1 + c_u) of that run lies in [-832, 832 - bit] |
| MlkemEncryption.KeyGenExactly | tools/pqc/mlkem/mlkem_kpke.c:149-187 | both keys bit by bit: the halves of G(d, k) are the seeds, s takes nonces 0 to k - 1 and e nonces k to 2k - 1, the encryption key holds the transform of A*s + e in [0, q), the decryption key that of s |
| MlkemEncryption.EncryptExactly | tools/pqc/mlkem/mlkem_kpke.c:192-233 | for every encryption key, message and coins: the ciphertext bit by bit, compressed A^T*r + e1 and t*r + e2 + m in the ring, with nonces from 0 for r, from k for e1 and 2k for e2 |
| MlkemEncryption.EncryptSampled | tools/pqc/mlkem/mlkem_kpke.c:192-233 | there is a ciphertext if and only if the transposed matrix is complete |
| MlkemEncryption.DecryptedExactly | tools/pqc/mlkem/mlkem_kpke.c:237-254 | for every decryption key and ciphertext: the message is the rounded v - s*u in the ring |
| MlkemEncryption.MatrixEntry | tools/pqc/mlkem/mlkem_kpke.c:117-144 | entry i, j is the sample of the stream of the seed, j, i, and of the seed, i, j for the transpose |
| MlkemEncryption.MatrixExists | tools/pqc/mlkem/mlkem_kpke.c:117-144 | the sampled values are the transform of a matrix A of polynomials |
| MlkemEncryption.NoiseRowsExactly | tools/pqc/mlkem/mlkem_kpke.c:166-171 | polynomial i of a noise vector is drawn from the stream of the seed and the nonce first + i |
| MlkemNoise.Noise1Binomial | tools/pqc/mlkem/mlkem_poly.c:188-196 | coefficient i is the number of ones among bits 2*eta*i to 2*eta*i + eta - 1 of the stream of seed and nonce minus the number among the next eta bits, with eta 3 for ML-KEM-512 and 2 otherwise |
| MlkemNoise.Noise2Binomial | tools/pqc/mlkem/mlkem_poly.c:201-207 | the same with eta 2 for every parameter set |
| MlkemRing.CipherExactly | tools/pqc/mlkem/mlkem_kpke.c:215-229 | one row of u is congruent to A^T*r + e1 in the ring |
| MlkemRing.CipherPolyExactly | tools/pqc/mlkem/mlkem_kpke.c:221-230 | v is congruent to t*r + e2 + m |
| MlkemRing.DecryptExactly | tools/pqc/mlkem/mlkem_kpke.c:246-251 | the decrypted polynomial is congruent to v - s*u |
| MlkemRing.PublicExactly | tools/pqc/mlkem/mlkem_kpke.c:176-183 | one row of the public key is congruent to the transform of A*s + e |
| MlkemDecryption.SmallNoise | tools/pqc/mlkem/mlkem_kpke.c:149-254 | if the noise is at most 831 everywhere the message returns, and wherever it is 832 or more a 1 bit becomes 0 |
| MlkemKpke.Sizes | tools/pqc/mlkem/mlkem.c:13-41 | key and ciphertext sizes computed from the formats are those of the parameter tables |
| MlkemKem.KemSizes | tools/pqc/mlkem/mlkem.c:13-41 | so are the sizes of decapsulation keys |
| MlkemKem.DecapsEncaps | tools/pqc/mlkem/mlkem.c:51-115 | decapsulation returns the encapsulated key, the first half of G(m, H(ek)), whenever every bit survives the noise drawn from the second half |
| MlkemKem.ImplicitRejection | tools/pqc/mlkem/mlkem.c:86-115 | for any ciphertext: byte j of the secret is byte j of G(m, H(ek)) for the decrypted m if re-encryption gives the same bytes, and byte j of SHAKE256(z, ct) if not |
| MlkemKem.DecapsExactly | tools/pqc/mlkem/mlkem.c:86-115 | the same for arbitrary decapsulation key bytes, with the hash and z stored in them |
| MlkemKem.EncapsExactly | tools/pqc/mlkem/mlkem.c:64-82 | for every encryption key: the halves of G(m, H(ek)) are the secret and the coins |
| MlkemKem.KeyParts | tools/pqc/mlkem/mlkem.c:51-60 | a decapsulation key is the decryption key, the encryption key, its SHA3-256 digest and z |
| MlkemDecaps.DecapsInPlace | tools/pqc/mlkem/mlkem.c:86-115 | the code order, rejection key first and conditional move after a branch-free comparison, leaves byte j of G(m, h) or of SHAKE256(z, ct) in place j |
| MlkemKem.VerifyBytes | tools/pqc/mlkem/verify.c:16-30 | the accumulated xor is nonzero if and only if the byte strings differ |
| MlkemKem.CMov | tools/pqc/mlkem/verify.c:40-58 | the masked move overwrites all bytes or none |
| MlkemProduct.ProductTheorem | tools/pqc/mlkem/mlkem_ntt.c:60-144 | transform with reduction, pairwise basemul, reduction and inverse give the product modulo X^256 + 1, all factors 2^16 cancelled |
| MlkemProduct.BaseMulValues | tools/pqc/mlkem/reduce.h:45-54 | for 12-bit operands, 2^16 times a basemul is the product in Z_q[X]/(X^2 - root), below 2q |
| MlkemProduct.BaseMulLoop | tools/pqc/mlkem/mlkem_ntt.c:122-132 | the loop over groups of four, with both signs of the root, computes all pairs |
| MlkemProduct.HatInvNtt | tools/pqc/mlkem/mlkem_ntt.c:78-101 | the values of an inverse transform are 2^16 times its input, and the output stays near q / 2 |
| MlkemNtt.NttInPlace | tools/pqc/mlkem/mlkem_ntt.c:60-76 | the seven-layer loop on 16-bit words computes its layers on even and odd positions; no store wraps |
| MlkemNtt.InvNttInPlace | tools/pqc/mlkem/mlkem_ntt.c:78-101 | the inverse loop with Barrett reduction keeps every value within q |
| MlkemZetas.Tree | tools/pqc/mlkem/mlkem_ntt.c:42-55 | every table entry squares to its parent's root and has its inverse in the mirrored place |
| MlkemRoots.EntryIsPower | tools/pqc/mlkem/mlkem_ntt.c:42-55 | table entry k is 17 to the power of the bit reversal of k |
| MlkemRoots.HatIsRemainder | tools/pqc/mlkem/mlkem_ntt.c:60-76 | pair p of the transform is the polynomial modulo X^2 - 17^(2 * BitRev7(p) + 1), and pairs multiply modulo the same |
| MlkemReduce.MontgomeryReduceExact | tools/pqc/mlkem/reduce.h:13-21 | below 2^15 * q the result lies in (-q, q) and 2^16 times it is congruent to the input |
| MlkemReduce.BarrettReduceExact | tools/pqc/mlkem/reduce.h:25-35 | the centred remainder for every 16-bit value, although t * q may wrap |
| MlkemVectorReduce.FqRedcIsFqRedc2 | tools/pqc/mlkem/rvv_poly.c:104-132 | the half-word reduction of the product of any two lanes is the narrowing one |
| MlkemVectorReduce.FqRedc2VsMontgomery | tools/pqc/mlkem/rvv_poly.c:121-132 | it is the scalar reduction, except when the low half is 0x8000, where it is exactly q lower |
| MlkemVectorReduce.FqRedc2Exact | tools/pqc/mlkem/rvv_poly.c:96-132 | on the range of the header comment the result lies in (-q, q) and 2^16 times it is congruent to the input |
| MlkemVectorReduce.FqBarrettIsBarrett | tools/pqc/mlkem/rvv_poly.c:136-148 | the high-half Barrett step equals the scalar one for every 16-bit value |
| MlkemVectorReduce.FqMulQExact | tools/pqc/mlkem/rvv_poly.c:204-207 | multiply and add q to negatives: the canonical residue |
| MlkemVectorCorrect.VectorNtt | tools/pqc/mlkem/rvv_poly.c:329-439 | the vector mlkem_poly_ntt gives canonical values congruent to the scalar transform |
| MlkemVectorCorrect.VectorInvNtt | tools/pqc/mlkem/rvv_poly.c:512-644 | the vector inverse gives canonical values congruent to the scalar inverse |
| MlkemVectorCorrect.InverseNeverWraps | tools/pqc/mlkem/rvv_poly.c:223-241 | with one-sided fq_csub the lanes sink to -8q at most, twice, and no operation leaves 16 bits |
| MlkemVectorNtt.VectorNtt2Layers | tools/pqc/mlkem/rvv_poly.c:259-314 | three gathers and permuted roots compute the last three layers of 32 values, made canonical, in natural order |
| MlkemVectorNtt.VectorIntt2Layers | tools/pqc/mlkem/rvv_poly.c:441-500 | the first three inverse layers likewise |
| MlkemVectorTables.TableEntry | tools/pqc/mlkem/rvv_poly.c:331-346 | every used word of both permuted tables is the root of its node |
| MlkemVectorTables.PairEntry | tools/pqc/mlkem/rvv_poly.c:663-686 | even words are 2^16 mod q, odd words the roots of the pairs with both signs |
| MlkemVectorProduct.VectorBaseAgrees | tools/pqc/mlkem/rvv_poly.c:661-720 | for 12-bit or reduced operands every lane is congruent to the scalar basemul and below q; the 32-bit sums fit |
| MlkemVectorProduct.VectorBaseMul | tools/pqc/mlkem/rvv_poly.c:661-720 | the loop of swaps, slides, merges and reductions computes every pair |
| MlkemVectorProduct.VectorMultiply | tools/pqc/mlkem/rvv_poly.c:329-767 | vector transforms, product, reduction and inverse leave the canonical product modulo X^256 + 1 |
| MlkemVectorKpke.SameKeys | tools/pqc/mlkem/mlkem_kpke.c:149-187 | for every hash, parameter set and seed, key generation with the vector arithmetic gives the same key bytes |
| MlkemVectorKpke.SameCiphertext | tools/pqc/mlkem/mlkem_kpke.c:192-233 | for every encryption key of the right length, message and coins, encryption with either arithmetic gives the same ciphertext |
| MlkemVectorKpke.SameMessage | tools/pqc/mlkem/mlkem_kpke.c:237-254 | for every decryption key and ciphertext of the right length, from encryption or not, decryption with either arithmetic gives the same message |
| MlkemVectorKpke.RowProductsAgree | tools/pqc/mlkem/polyvec.c:175-188 | sums of up to four products, canonical lanes against centred ones, end in equal reduced polynomials |
| MlkemVectorKpke.PublicRowsAgree | tools/pqc/mlkem/rvv_poly.c:733-767 | so do the rows of the public key, through both forms of poly_tomont and the reduction |
| MlkemVectorKpke.StandardAgrees | tools/pqc/mlkem/mlkem_poly.c:111-127 | canonical and centred representatives have the same byte encoding |
| MlkemCompress.CompressExact | tools/pqc/mlkem/mlkem_poly.c:14-68 | for d = 4, 5, 10, 11 and every residue the multiply-and-shift form is round(2^d * x / q) mod 2^d, although products wrap |
| MlkemStandard.CompressIsNearest | tools/pqc/mlkem/mlkem_poly.c:14-68 | compression of any reduced representative is round(2^d / q * x) mod 2^d of the residue it stands for |
| MlkemStandard.DecompressIsExpanded | tools/pqc/mlkem/mlkem_poly.c:72-107 | decompression is round(q / 2^d * y) |
| MlkemStandard.ToBitIsNearest | tools/pqc/mlkem/mlkem_poly.c:163-182 | the decoded message bit is the same rounding with d = 1 |
| MlkemCompress.CompressDecompress | tools/pqc/mlkem/polyvec.c:9-125 | decompress then compress is the identity on d bits |
| MlkemCompress.DecompressCompress | tools/pqc/mlkem/polyvec.c:9-125 | compress then decompress errs by at most round(q / 2^(d+1)) |
| MlkemCompress.ToBitExact | tools/pqc/mlkem/mlkem_poly.c:163-182 | the division-free message bit is round(2 * x / q) mod 2 for every reduced value |
| MlkemCompress.BitSurvives | tools/pqc/mlkem/mlkem_poly.c:144-182 | an encoded bit with added noise decodes to itself if and only if the noise lies in [-832, 832 - bit] |
| MlkemPack.TwelveLossless | tools/pqc/mlkem/mlkem_poly.c:111-140 | two 12-bit values in three bytes, both ways, values up to 4095 |
| MlkemPack.ElevenLossless | tools/pqc/mlkem/polyvec.c:9-125 | eight 11-bit values in eleven bytes, both ways |
| MlkemPack.FiveLossless | tools/pqc/mlkem/mlkem_poly.c:14-107 | eight 5-bit values in five bytes, both ways |
| MlkemPack.BitsLossless | tools/pqc/mlkem/mlkem_poly.c:144-182 | eight message bits in a byte, both ways |
| VectorCodec.VectorRoundTrip | tools/pqc/mlkem/polyvec.c:129-147 | vectors of polynomials packed one after the other unpack to themselves |
| VectorCodec.VectorBytes | tools/pqc/mlkem/polyvec.c:129-147 | and pack again to the same bytes |
| Cbd.Cbd2Loop | tools/pqc/mlkem/cbd.c:37-55 | the bit-sliced sums give each coefficient as the difference of two counts of two bits |
| Cbd.Cbd3Loop | tools/pqc/mlkem/cbd.c:61-79 | the same with counts of three bits |
| Cbd.Cbd2Vector | tools/pqc/mlkem/cbd_rvv.c:15-44 | the vector form leaves the same array |
| Cbd.Cbd3Vector | tools/pqc/mlkem/cbd_rvv.c:46-104 | the vector form leaves the same array |
| Sponge.IncrementalIsShake | tools/pqc/mldsa/fips202.c:59-194 | for any permutation, any sequence of absorbs, finalize and any sequence of squeezes give the one stream of the concatenated input |
| Sponge.AnySplit | tools/pqc/mldsa/fips202.c:59-87 | absorbing in pieces is absorbing the concatenation |
| Sponge.AnyPieces | tools/pqc/mldsa/fips202.c:113-143 | squeezing in pieces is squeezing once |
| Sponge.AbsorbIsSponge | tools/pqc/mldsa/fips202.c:89-180 | byte-wise absorbing with the padding xors is the block-wise sponge on the padded input |
| Sponge.SqueezeIsStream | tools/pqc/mldsa/fips202.c:113-194 | byte i of what is squeezed is byte i of the output stream of section 4 of FIPS 202 |
| Fips202.XoredByte | tools/pqc/mldsa/fips202.c:65-74 | xoring a shifted byte into a lane xors it into one byte of the state and leaves the other 199 |
| Fips202.NoOverlap | tools/pqc/mldsa/fips202.c:12-21 | the or of load64 never meets a bit that is set: it builds the lane with the given bytes |
| Fips202.LanesOfBytes | tools/pqc/mldsa/fips202.c:12-30 | loading the bytes of 25 lanes gives the lanes |
| Fips202.BytesOfLanes | tools/pqc/mldsa/fips202.c:12-30 | and the bytes of the loaded lanes are the bytes |
| Fips202.KeccakState.Permute | tools/pqc/mldsa/fips202.c:69-70 | the in-place permutation of the lanes is Keccak-f[1600] on the 200 bytes |
| Fips202.KeccakState.Absorb | tools/pqc/mldsa/fips202.c:59-77 | the in-place loop over lanes reaches the state and position of absorbing byte by byte |
| Fips202.KeccakState.Finalize | tools/pqc/mldsa/fips202.c:89-94 | suffix and last bit are xored into the right bytes of the lanes |
| Fips202.KeccakState.AbsorbOnce | tools/pqc/mldsa/fips202.c:145-166 | one-shot absorbing, whole lanes at a time, reaches the state of absorb and finalize |
| Fips202.KeccakState.Squeeze | tools/pqc/mldsa/fips202.c:113-130 | the bytes and the new state of the in-place loop |
| Fips202.KeccakState.SqueezeBlocks | tools/pqc/mldsa/fips202.c:182-194 | whole blocks, stored lane by lane, are the squeeze of their length |
| Fips202.Shake | tools/pqc/mldsa/fips202.c:392-426 | with the real permutation, squeezeblocks followed by squeeze is the contiguous output stream of SHAKE |
| Fips202.Sha3 | tools/pqc/mldsa/fips202.c:437-466 | the digest is the beginning of the Keccak stream with suffix 0x06 |
| HashCalls.MessageRepresentative | tools/pqc/mldsa/mldsa.c:427-431 | absorb tr, absorb m, finalize, squeeze 64: byte j of mu is byte j of the SHAKE256 stream of tr, m |
| HashCalls.MaskSeed | tools/pqc/mldsa/mldsa.c:433-436 | byte j of the mask seed is byte j of the SHAKE256 stream of K, rnd, mu |
| HashCalls.ChallengeBytes | tools/pqc/mldsa/mldsa.c:471-475 | the challenge bytes are those of the stream of mu and the packed high parts |
| HashCalls.SeedBlocks | tools/pqc/mldsa/symmetric-shake.c:8-34 | blocks squeezed after stream_init are the stream of the seed and the nonce, low byte first, whatever their number |
| HashCalls.ChallengeBlocks | tools/pqc/mldsa/mldsa_poly.c:481-496 | the blocks poly_challenge reads are the stream of the challenge bytes |
| HashCalls.RejectionSecret | tools/pqc/mlkem/symmetric-shake.c:70-80 | the rejection key is 32 bytes of the SHAKE256 stream of z, ct |
| HashCalls.NoiseBytes | tools/pqc/mlkem/symmetric-shake.c:47-56 | noise bytes are those of the SHAKE256 stream of the seed and the nonce |
| HashCalls.MatrixBlocks | tools/pqc/mlkem/symmetric-shake.c:22-34 | matrix blocks are the SHAKE128 stream of the seed and the two index bytes |
| HashCalls.HashG | tools/pqc/mlkem/symmetric.h:24-24 | hash_g gives 64 bytes of SHA3-512 |
| HashCalls.HashH | tools/pqc/mlkem/symmetric.h:23-23 | hash_h gives 32 bytes of SHA3-256 |
| Keccak.StatePermute | tools/pqc/mldsa/keccak.c:105-369 | for every state, the loop that alternates A and E lanes, two rounds a turn, is 24 applications of theta, rho, pi, chi and iota |
| Keccak.RoundLane | tools/pqc/mldsa/keccak.c:151-246 | one lane of a round, as three rotated lanes and chi |
| Keccak.OffsetsFollowWalk | tools/pqc/mldsa/keccak.c:151-246 | the rotation amounts are the triangular numbers along the walk of section 3.2.2 of FIPS 202 |
| Keccak.ConstantsFollowRegister | tools/pqc/mldsa/keccak.c:82-96 | the round constants are those of the shift register of section 3.2.5 of FIPS 202 |

## Left out

- Termination of the signing loop and of the samplers: it depends on hash output. `MldsaSign.Sign` has a bound on the number of turns; samplers have a bound on the number of blocks, or on the bytes of a stream in the functions of the schemes.
- Sign: the 16-bit nonce counter is a number; the masks use its low 16 bits as the code does, and the bound on turns is the caller's.
- In the schemes SHAKE and SHA-3 are arbitrary functions from messages to byte streams, of which those of `Fips202` are instances; no randomness, security or failure-rate claim is made.
- Vectors and byte buffers of keygen, sign, verify and the ML-KEM operations are values: their updates in place and pointer arithmetic are not modelled above the polynomial and hint loops.
- The rejection of a wrong signature length and of undecodable signatures is modelled; a stream that runs dry in verify or decapsulation gives a third outcome the C code does not have, since it would go on reading.
- MldsaNoOverflow covers the signed arithmetic on coefficients; the unsigned bit fields of packers and samplers are bit-vectors.
- Polynomial unpackers are proved through the group format; only the packing loop is also written as a loop (`BitCodec.Pack`).
- The three bytes of an ML-DSA candidate are added, not or-ed: the fields do not overlap.
- The vector forms of `poly_tomont`, `mlkem_poly_add` and `mlkem_poly_sub` apply one lane operation each; they are values in `MlkemVectorKpke`, as the whole of K-PKE is, and not loops.
- The registers of the vector transforms are kept in an array in the order of the lanes; register allocation, vector length configuration and over-read of the last load are not modelled.
- Inline assembly (the hardware Keccak branch), counters, probes and benchmarks; the ML-KEM copies of the hash files, which are the same functions.
- Formatting layers above the internal functions: context strings, pre-hashing, key checks and randomness in the public entry points.
