/** The coefficient formats of tools/pqc/mldsa/mldsa_poly.c, one group each. */
module MldsaPack {
  import opened NttAlgebra
  import opened Words
  import opened BitCodec

  function L(w: bv32): (r: byte) { (w & 0xFF) as byte }

  function U(b: byte): (r: bv32) { b as bv32 }

  // ----- eta == 2: three bits, eight coefficients in three bytes

  function Eta2Pack(t: seq<bv32>): (r: seq<byte>) {
    if |t| != 8 then [] else
      [L(t[0] | (t[1] << 3) | (t[2] << 6)),
       L((t[2] >> 2) | (t[3] << 1) | (t[4] << 4) | (t[5] << 7)),
       L((t[5] >> 1) | (t[6] << 2) | (t[7] << 5))]
  }

  function Eta2Unpack(a: seq<byte>): (r: seq<bv32>) {
    if |a| != 3 then [] else
      [U(a[0]) & 7,
       (U(a[0]) >> 3) & 7,
       ((U(a[0]) >> 6) | (U(a[1]) << 2)) & 7,
       (U(a[1]) >> 1) & 7,
       (U(a[1]) >> 4) & 7,
       ((U(a[1]) >> 7) | (U(a[2]) << 1)) & 7,
       (U(a[2]) >> 2) & 7,
       (U(a[2]) >> 5) & 7]
  }

  // ----- eta == 4: four bits, two coefficients in one byte

  function Eta4Pack(t: seq<bv32>): (r: seq<byte>) {
    if |t| != 2 then [] else [L(t[0] | (t[1] << 4))]
  }

  function Eta4Unpack(a: seq<byte>): (r: seq<bv32>) {
    if |a| != 1 then [] else [U(a[0]) & 0x0F, U(a[0]) >> 4]
  }

  // ----- t1: ten bits, four coefficients in five bytes

  function T1Pack(t: seq<bv32>): (r: seq<byte>) {
    if |t| != 4 then [] else
      [L(t[0]),
       L((t[0] >> 8) | (t[1] << 2)),
       L((t[1] >> 6) | (t[2] << 4)),
       L((t[2] >> 4) | (t[3] << 6)),
       L(t[3] >> 2)]
  }

  function T1Unpack(a: seq<byte>): (r: seq<bv32>) {
    if |a| != 5 then [] else
      [(U(a[0]) | (U(a[1]) << 8)) & 0x3FF,
       ((U(a[1]) >> 2) | (U(a[2]) << 6)) & 0x3FF,
       ((U(a[2]) >> 4) | (U(a[3]) << 4)) & 0x3FF,
       ((U(a[3]) >> 6) | (U(a[4]) << 2)) & 0x3FF]
  }

  // ----- t0: thirteen bits, eight coefficients in thirteen bytes

  function T0Pack(t: seq<bv32>): (r: seq<byte>) {
    if |t| != 8 then [] else
      [L(t[0]),
       L(t[0] >> 8) | L(t[1] << 5),
       L(t[1] >> 3),
       L(t[1] >> 11) | L(t[2] << 2),
       L(t[2] >> 6) | L(t[3] << 7),
       L(t[3] >> 1),
       L(t[3] >> 9) | L(t[4] << 4),
       L(t[4] >> 4),
       L(t[4] >> 12) | L(t[5] << 1),
       L(t[5] >> 7) | L(t[6] << 6),
       L(t[6] >> 2),
       L(t[6] >> 10) | L(t[7] << 3),
       L(t[7] >> 5)]
  }

  function T0Unpack(a: seq<byte>): (r: seq<bv32>) {
    if |a| != 13 then [] else
      [(U(a[0]) | (U(a[1]) << 8)) & 0x1FFF,
       ((U(a[1]) >> 5) | (U(a[2]) << 3) | (U(a[3]) << 11)) & 0x1FFF,
       ((U(a[3]) >> 2) | (U(a[4]) << 6)) & 0x1FFF,
       ((U(a[4]) >> 7) | (U(a[5]) << 1) | (U(a[6]) << 9)) & 0x1FFF,
       ((U(a[6]) >> 4) | (U(a[7]) << 4) | (U(a[8]) << 12)) & 0x1FFF,
       ((U(a[8]) >> 1) | (U(a[9]) << 7)) & 0x1FFF,
       ((U(a[9]) >> 6) | (U(a[10]) << 2) | (U(a[11]) << 10)) & 0x1FFF,
       ((U(a[11]) >> 3) | (U(a[12]) << 5)) & 0x1FFF]
  }

  // ----- z with gamma1 == 2^17: eighteen bits, four coefficients in nine bytes

  function Z17Pack(t: seq<bv32>): (r: seq<byte>) {
    if |t| != 4 then [] else
      [L(t[0]),
       L(t[0] >> 8),
       L(t[0] >> 16) | L(t[1] << 2),
       L(t[1] >> 6),
       L(t[1] >> 14) | L(t[2] << 4),
       L(t[2] >> 4),
       L(t[2] >> 12) | L(t[3] << 6),
       L(t[3] >> 2),
       L(t[3] >> 10)]
  }

  function Z17Unpack(a: seq<byte>): (r: seq<bv32>) {
    if |a| != 9 then [] else
      [(U(a[0]) | (U(a[1]) << 8) | (U(a[2]) << 16)) & 0x3_FFFF,
       ((U(a[2]) >> 2) | (U(a[3]) << 6) | (U(a[4]) << 14)) & 0x3_FFFF,
       ((U(a[4]) >> 4) | (U(a[5]) << 4) | (U(a[6]) << 12)) & 0x3_FFFF,
       ((U(a[6]) >> 6) | (U(a[7]) << 2) | (U(a[8]) << 10)) & 0x3_FFFF]
  }

  // ----- z with gamma1 == 2^19: twenty bits, two coefficients in five bytes

  function Z19Pack(t: seq<bv32>): (r: seq<byte>) {
    if |t| != 2 then [] else
      [L(t[0]),
       L(t[0] >> 8),
       L(t[0] >> 16) | L(t[1] << 4),
       L(t[1] >> 4),
       L(t[1] >> 12)]
  }

  /** The second coefficient needs no mask: its three parts are 4 + 8 + 8 bits. */
  function Z19Unpack(a: seq<byte>): (r: seq<bv32>) {
    if |a| != 5 then [] else
      [(U(a[0]) | (U(a[1]) << 8) | (U(a[2]) << 16)) & 0xF_FFFF,
       (U(a[2]) >> 4) | (U(a[3]) << 4) | (U(a[4]) << 12)]
  }

  // ----- w1: six bits (44 high parts) or four bits (16); the C code never unpacks it

  function W88Pack(t: seq<bv32>): (r: seq<byte>) {
    if |t| != 4 then [] else
      [L(t[0]) | L(t[1] << 6),
       L(t[1] >> 2) | L(t[2] << 4),
       L(t[2] >> 4) | L(t[3] << 2)]
  }

  function W88Fields(a: seq<byte>): (r: seq<bv32>) {
    if |a| != 3 then [] else
      [U(a[0]) & 63,
       ((U(a[0]) >> 6) | (U(a[1]) << 2)) & 63,
       ((U(a[1]) >> 4) | (U(a[2]) << 4)) & 63,
       U(a[2]) >> 2]
  }

  const ETA2: Codec := Codec(8, 3, 3, true, 2, Eta2Pack, Eta2Unpack)
  const ETA4: Codec := Codec(2, 1, 4, true, 4, Eta4Pack, Eta4Unpack)
  const T1: Codec := Codec(4, 5, 10, false, 0, T1Pack, T1Unpack)
  const T0: Codec := Codec(8, 13, 13, true, 0x1000, T0Pack, T0Unpack)
  const Z17: Codec := Codec(4, 9, 18, true, 0x2_0000, Z17Pack, Z17Unpack)
  const Z19: Codec := Codec(2, 5, 20, true, 0x8_0000, Z19Pack, Z19Unpack)
  const W88: Codec := Codec(4, 3, 6, false, 0, W88Pack, W88Fields)
  const W32: Codec := Codec(2, 1, 4, false, 0, Eta4Pack, Eta4Unpack)

  lemma Eta2Words(t: seq<bv32>)
    requires |t| == 8 && t[0] & !7 == 0 && t[1] & !7 == 0 && t[2] & !7 == 0 && t[3] & !7 == 0 && t[4] & !7 == 0
         && t[5] & !7 == 0 && t[6] & !7 == 0 && t[7] & !7 == 0
    ensures Eta2Unpack(Eta2Pack(t)) == t
  {
  }

  lemma Eta2Bytes(a: seq<byte>)
    requires |a| == 3
    ensures Eta2Pack(Eta2Unpack(a)) == a
  {
  }

  lemma Eta2Masked(a: seq<byte>)
    requires |a| == 3
    ensures Eta2Unpack(a)[0] & !7 == 0 && Eta2Unpack(a)[1] & !7 == 0 && Eta2Unpack(a)[2] & !7 == 0
         && Eta2Unpack(a)[3] & !7 == 0 && Eta2Unpack(a)[4] & !7 == 0 && Eta2Unpack(a)[5] & !7 == 0
            && Eta2Unpack(a)[6] & !7 == 0 && Eta2Unpack(a)[7] & !7 == 0
  {
  }

  lemma Eta4Words(t: seq<bv32>)
    requires |t| == 2 && t[0] & !0xF == 0 && t[1] & !0xF == 0
    ensures Eta4Unpack(Eta4Pack(t)) == t
  {
  }

  lemma Eta4Bytes(a: seq<byte>)
    requires |a| == 1
    ensures Eta4Pack(Eta4Unpack(a)) == a
  {
  }

  lemma Eta4Masked(a: seq<byte>)
    requires |a| == 1
    ensures Eta4Unpack(a)[0] & !0xF == 0 && Eta4Unpack(a)[1] & !0xF == 0
  {
  }

  lemma T1Words(t: seq<bv32>)
    requires |t| == 4 && t[0] & !0x3FF == 0 && t[1] & !0x3FF == 0 && t[2] & !0x3FF == 0 && t[3] & !0x3FF == 0
    ensures T1Unpack(T1Pack(t)) == t
  {
  }

  lemma T1Bytes(a: seq<byte>)
    requires |a| == 5
    ensures T1Pack(T1Unpack(a)) == a
  {
  }

  lemma T1Masked(a: seq<byte>)
    requires |a| == 5
    ensures T1Unpack(a)[0] & !0x3FF == 0 && T1Unpack(a)[1] & !0x3FF == 0 && T1Unpack(a)[2] & !0x3FF == 0
         && T1Unpack(a)[3] & !0x3FF == 0
  {
  }

  lemma T0Words(t: seq<bv32>)
    requires |t| == 8 && t[0] & !0x1FFF == 0 && t[1] & !0x1FFF == 0 && t[2] & !0x1FFF == 0 && t[3] & !0x1FFF == 0
         && t[4] & !0x1FFF == 0 && t[5] & !0x1FFF == 0 && t[6] & !0x1FFF == 0 && t[7] & !0x1FFF == 0
    ensures T0Unpack(T0Pack(t)) == t
  {
  }

  lemma T0Bytes(a: seq<byte>)
    requires |a| == 13
    ensures T0Pack(T0Unpack(a)) == a
  {
  }

  lemma T0Masked(a: seq<byte>)
    requires |a| == 13
    ensures T0Unpack(a)[0] & !0x1FFF == 0 && T0Unpack(a)[1] & !0x1FFF == 0 && T0Unpack(a)[2] & !0x1FFF == 0
         && T0Unpack(a)[3] & !0x1FFF == 0 && T0Unpack(a)[4] & !0x1FFF == 0 && T0Unpack(a)[5] & !0x1FFF == 0
            && T0Unpack(a)[6] & !0x1FFF == 0 && T0Unpack(a)[7] & !0x1FFF == 0
  {
  }

  lemma Z17Words(t: seq<bv32>)
    requires |t| == 4 && t[0] & !0x3_FFFF == 0 && t[1] & !0x3_FFFF == 0 && t[2] & !0x3_FFFF == 0
         && t[3] & !0x3_FFFF == 0
    ensures Z17Unpack(Z17Pack(t)) == t
  {
  }

  lemma Z17Bytes(a: seq<byte>)
    requires |a| == 9
    ensures Z17Pack(Z17Unpack(a)) == a
  {
  }

  lemma Z17Masked(a: seq<byte>)
    requires |a| == 9
    ensures Z17Unpack(a)[0] & !0x3_FFFF == 0 && Z17Unpack(a)[1] & !0x3_FFFF == 0 && Z17Unpack(a)[2] & !0x3_FFFF == 0
         && Z17Unpack(a)[3] & !0x3_FFFF == 0
  {
  }

  lemma Z19Words(t: seq<bv32>)
    requires |t| == 2 && t[0] & !0xF_FFFF == 0 && t[1] & !0xF_FFFF == 0
    ensures Z19Unpack(Z19Pack(t)) == t
  {
  }

  lemma Z19Bytes(a: seq<byte>)
    requires |a| == 5
    ensures Z19Pack(Z19Unpack(a)) == a
  {
  }

  lemma Z19Masked(a: seq<byte>)
    requires |a| == 5
    ensures Z19Unpack(a)[0] & !0xF_FFFF == 0 && Z19Unpack(a)[1] & !0xF_FFFF == 0
  {
  }

  lemma W88Words(t: seq<bv32>)
    requires |t| == 4 && t[0] & !63 == 0 && t[1] & !63 == 0 && t[2] & !63 == 0 && t[3] & !63 == 0
    ensures W88Fields(W88Pack(t)) == t
  {
  }

  lemma W88Bytes(a: seq<byte>)
    requires |a| == 3
    ensures W88Pack(W88Fields(a)) == a
  {
  }

  lemma W88Masked(a: seq<byte>)
    requires |a| == 3
    ensures W88Fields(a)[0] & !63 == 0 && W88Fields(a)[1] & !63 == 0 && W88Fields(a)[2] & !63 == 0
         && W88Fields(a)[3] & !63 == 0
  {
  }

  lemma Eta2Lossless()
    ensures Lossless(ETA2)
  {
    OnesValues();
    hide Ones, Eta2Pack, Eta2Unpack;
    forall t: seq<bv32> | |t| == 8 && AllFit(t, 3)
      ensures |Eta2Pack(t)| == 3 && Eta2Unpack(Eta2Pack(t)) == t
    {
      Eta2Words(t);
      Eta2Sizes(t, [0, 0, 0]);
    }
    forall a: seq<byte> | |a| == 3
      ensures |Eta2Unpack(a)| == 8 && AllFit(Eta2Unpack(a), 3) && Eta2Pack(Eta2Unpack(a)) == a
    {
      Eta2Sizes([0, 0, 0, 0, 0, 0, 0, 0], a);
      Eta2Bytes(a);
      Eta2Masked(a);
    }
  }

  lemma Eta2Sizes(t: seq<bv32>, a: seq<byte>)
    requires |t| == 8 && |a| == 3
    ensures |Eta2Pack(t)| == 3 && |Eta2Unpack(a)| == 8
  {
  }

  lemma Eta4Lossless()
    ensures Lossless(ETA4) && Lossless(W32)
  {
    OnesValues();
    hide Ones, Eta4Pack, Eta4Unpack;
    forall t: seq<bv32> | |t| == 2 && AllFit(t, 4)
      ensures |Eta4Pack(t)| == 1 && Eta4Unpack(Eta4Pack(t)) == t
    {
      Eta4Words(t);
      Eta4Sizes(t, [0]);
    }
    forall a: seq<byte> | |a| == 1
      ensures |Eta4Unpack(a)| == 2 && AllFit(Eta4Unpack(a), 4) && Eta4Pack(Eta4Unpack(a)) == a
    {
      Eta4Sizes([0, 0], a);
      Eta4Bytes(a);
      Eta4Masked(a);
    }
  }

  lemma Eta4Sizes(t: seq<bv32>, a: seq<byte>)
    requires |t| == 2 && |a| == 1
    ensures |Eta4Pack(t)| == 1 && |Eta4Unpack(a)| == 2
  {
  }

  lemma T1Lossless()
    ensures Lossless(T1)
  {
    OnesValues();
    hide Ones, T1Pack, T1Unpack;
    forall t: seq<bv32> | |t| == 4 && AllFit(t, 10)
      ensures |T1Pack(t)| == 5 && T1Unpack(T1Pack(t)) == t
    {
      T1Words(t);
      T1Sizes(t, [0, 0, 0, 0, 0]);
    }
    forall a: seq<byte> | |a| == 5
      ensures |T1Unpack(a)| == 4 && AllFit(T1Unpack(a), 10) && T1Pack(T1Unpack(a)) == a
    {
      T1Sizes([0, 0, 0, 0], a);
      T1Bytes(a);
      T1Masked(a);
    }
  }

  lemma T1Sizes(t: seq<bv32>, a: seq<byte>)
    requires |t| == 4 && |a| == 5
    ensures |T1Pack(t)| == 5 && |T1Unpack(a)| == 4
  {
  }

  lemma T0Lossless()
    ensures Lossless(T0)
  {
    OnesValues();
    hide Ones, T0Pack, T0Unpack;
    forall t: seq<bv32> | |t| == 8 && AllFit(t, 13)
      ensures |T0Pack(t)| == 13 && T0Unpack(T0Pack(t)) == t
    {
      T0Words(t);
      T0Sizes(t, [0, 0, 0, 0, 0, 0, 0, 0, 0, 0, 0, 0, 0]);
    }
    forall a: seq<byte> | |a| == 13
      ensures |T0Unpack(a)| == 8 && AllFit(T0Unpack(a), 13) && T0Pack(T0Unpack(a)) == a
    {
      T0Sizes([0, 0, 0, 0, 0, 0, 0, 0], a);
      T0Bytes(a);
      T0Masked(a);
    }
  }

  lemma T0Sizes(t: seq<bv32>, a: seq<byte>)
    requires |t| == 8 && |a| == 13
    ensures |T0Pack(t)| == 13 && |T0Unpack(a)| == 8
  {
  }

  lemma Z17Lossless()
    ensures Lossless(Z17)
  {
    OnesValues();
    hide Ones, Z17Pack, Z17Unpack;
    forall t: seq<bv32> | |t| == 4 && AllFit(t, 18)
      ensures |Z17Pack(t)| == 9 && Z17Unpack(Z17Pack(t)) == t
    {
      Z17Words(t);
      Z17Sizes(t, [0, 0, 0, 0, 0, 0, 0, 0, 0]);
    }
    forall a: seq<byte> | |a| == 9
      ensures |Z17Unpack(a)| == 4 && AllFit(Z17Unpack(a), 18) && Z17Pack(Z17Unpack(a)) == a
    {
      Z17Sizes([0, 0, 0, 0], a);
      Z17Bytes(a);
      Z17Masked(a);
    }
  }

  lemma Z17Sizes(t: seq<bv32>, a: seq<byte>)
    requires |t| == 4 && |a| == 9
    ensures |Z17Pack(t)| == 9 && |Z17Unpack(a)| == 4
  {
  }

  lemma Z19Lossless()
    ensures Lossless(Z19)
  {
    OnesValues();
    hide Ones, Z19Pack, Z19Unpack;
    forall t: seq<bv32> | |t| == 2 && AllFit(t, 20)
      ensures |Z19Pack(t)| == 5 && Z19Unpack(Z19Pack(t)) == t
    {
      Z19Words(t);
      Z19Sizes(t, [0, 0, 0, 0, 0]);
    }
    forall a: seq<byte> | |a| == 5
      ensures |Z19Unpack(a)| == 2 && AllFit(Z19Unpack(a), 20) && Z19Pack(Z19Unpack(a)) == a
    {
      Z19Sizes([0, 0], a);
      Z19Bytes(a);
      Z19Masked(a);
    }
  }

  lemma Z19Sizes(t: seq<bv32>, a: seq<byte>)
    requires |t| == 2 && |a| == 5
    ensures |Z19Pack(t)| == 5 && |Z19Unpack(a)| == 2
  {
  }

  lemma W88Lossless()
    ensures Lossless(W88)
  {
    OnesValues();
    hide Ones, W88Pack, W88Fields;
    forall t: seq<bv32> | |t| == 4 && AllFit(t, 6)
      ensures |W88Pack(t)| == 3 && W88Fields(W88Pack(t)) == t
    {
      W88Words(t);
      W88Sizes(t, [0, 0, 0]);
    }
    forall a: seq<byte> | |a| == 3
      ensures |W88Fields(a)| == 4 && AllFit(W88Fields(a), 6) && W88Pack(W88Fields(a)) == a
    {
      W88Sizes([0, 0, 0, 0], a);
      W88Bytes(a);
      W88Masked(a);
    }
  }

  lemma W88Sizes(t: seq<bv32>, a: seq<byte>)
    requires |t| == 4 && |a| == 3
    ensures |W88Pack(t)| == 3 && |W88Fields(a)| == 4
  {
  }
}
