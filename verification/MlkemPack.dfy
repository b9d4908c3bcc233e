/** The byte formats of tools/pqc/mlkem/mlkem_poly.c and polyvec.c, one group each. The
    four-bit and ten-bit groups are the ones ML-DSA uses for eta 4 and for t1. */
module MlkemPack {
  import opened NttAlgebra
  import opened Words
  import opened BitCodec
  import opened MldsaPack

  // ----- twelve bits: two coefficients in three bytes

  function TwelvePack(t: seq<bv32>): (r: seq<byte>) {
    if |t| != 2 then [] else
      [L(t[0]),
       L(t[0] >> 8) | L(t[1] << 4),
       L(t[1] >> 4)]
  }

  function TwelveUnpack(a: seq<byte>): (r: seq<bv32>) {
    if |a| != 3 then [] else
      [(U(a[0]) | (U(a[1]) << 8)) & 0xFFF,
       ((U(a[1]) >> 4) | (U(a[2]) << 4)) & 0xFFF]
  }

  // ----- five bits: eight coefficients in five bytes

  function FivePack(t: seq<bv32>): (r: seq<byte>) {
    if |t| != 8 then [] else
      [L(t[0]) | L(t[1] << 5),
       L(t[1] >> 3) | L(t[2] << 2) | L(t[3] << 7),
       L(t[3] >> 1) | L(t[4] << 4),
       L(t[4] >> 4) | L(t[5] << 1) | L(t[6] << 6),
       L(t[6] >> 2) | L(t[7] << 3)]
  }

  function FiveUnpack(a: seq<byte>): (r: seq<bv32>) {
    if |a| != 5 then [] else
      [U(a[0]) & 0x1F,
       ((U(a[0]) >> 5) | (U(a[1]) << 3)) & 0x1F,
       (U(a[1]) >> 2) & 0x1F,
       ((U(a[1]) >> 7) | (U(a[2]) << 1)) & 0x1F,
       ((U(a[2]) >> 4) | (U(a[3]) << 4)) & 0x1F,
       (U(a[3]) >> 1) & 0x1F,
       ((U(a[3]) >> 6) | (U(a[4]) << 2)) & 0x1F,
       (U(a[4]) >> 3) & 0x1F]
  }

  // ----- eleven bits: eight coefficients in eleven bytes

  function ElevenPack(t: seq<bv32>): (r: seq<byte>) {
    if |t| != 8 then [] else
      [L(t[0]),
       L(t[0] >> 8) | L(t[1] << 3),
       L(t[1] >> 5) | L(t[2] << 6),
       L(t[2] >> 2),
       L(t[2] >> 10) | L(t[3] << 1),
       L(t[3] >> 7) | L(t[4] << 4),
       L(t[4] >> 4) | L(t[5] << 7),
       L(t[5] >> 1),
       L(t[5] >> 9) | L(t[6] << 2),
       L(t[6] >> 6) | L(t[7] << 5),
       L(t[7] >> 3)]
  }

  function ElevenUnpack(a: seq<byte>): (r: seq<bv32>) {
    if |a| != 11 then [] else
      [(U(a[0]) | (U(a[1]) << 8)) & 0x7FF,
       ((U(a[1]) >> 3) | (U(a[2]) << 5)) & 0x7FF,
       ((U(a[2]) >> 6) | (U(a[3]) << 2) | (U(a[4]) << 10)) & 0x7FF,
       ((U(a[4]) >> 1) | (U(a[5]) << 7)) & 0x7FF,
       ((U(a[5]) >> 4) | (U(a[6]) << 4)) & 0x7FF,
       ((U(a[6]) >> 7) | (U(a[7]) << 1) | (U(a[8]) << 9)) & 0x7FF,
       ((U(a[8]) >> 2) | (U(a[9]) << 6)) & 0x7FF,
       ((U(a[9]) >> 5) | (U(a[10]) << 3)) & 0x7FF]
  }

  // ----- message bits: eight coefficients in one byte, lowest bit first

  function BitsPack(t: seq<bv32>): (r: seq<byte>) {
    if |t| != 8 then [] else
      [L(t[0] | (t[1] << 1) | (t[2] << 2) | (t[3] << 3) | (t[4] << 4) | (t[5] << 5) | (t[6] << 6) | (t[7] << 7))]
  }

  function BitsUnpack(a: seq<byte>): (r: seq<bv32>) {
    if |a| != 1 then [] else
      [U(a[0]) & 1,
       (U(a[0]) >> 1) & 1,
       (U(a[0]) >> 2) & 1,
       (U(a[0]) >> 3) & 1,
       (U(a[0]) >> 4) & 1,
       (U(a[0]) >> 5) & 1,
       (U(a[0]) >> 6) & 1,
       (U(a[0]) >> 7) & 1]
  }

  const D4: Codec := Codec(2, 1, 4, false, 0, Eta4Pack, Eta4Unpack)
  const D5: Codec := Codec(8, 5, 5, false, 0, FivePack, FiveUnpack)
  const D10: Codec := Codec(4, 5, 10, false, 0, T1Pack, T1Unpack)
  const D11: Codec := Codec(8, 11, 11, false, 0, ElevenPack, ElevenUnpack)
  const D12: Codec := Codec(2, 3, 12, false, 0, TwelvePack, TwelveUnpack)
  const BITS: Codec := Codec(8, 1, 1, false, 0, BitsPack, BitsUnpack)

  lemma SharedLossless()
    ensures Lossless(D4) && Lossless(D10)
  {
    Eta4Lossless();
    T1Lossless();
  }

  lemma TwelveWords(t: seq<bv32>)
    requires |t| == 2 && t[0] & !0xFFF == 0 && t[1] & !0xFFF == 0
    ensures TwelveUnpack(TwelvePack(t)) == t
  {
  }

  lemma TwelveBytes(a: seq<byte>)
    requires |a| == 3
    ensures TwelvePack(TwelveUnpack(a)) == a
  {
  }

  lemma TwelveMasked(a: seq<byte>)
    requires |a| == 3
    ensures TwelveUnpack(a)[0] & !0xFFF == 0 && TwelveUnpack(a)[1] & !0xFFF == 0
  {
  }

  lemma TwelveSizes(t: seq<bv32>, a: seq<byte>)
    requires |t| == 2 && |a| == 3
    ensures |TwelvePack(t)| == 3 && |TwelveUnpack(a)| == 2
  {
  }

  lemma TwelveLossless()
    ensures Lossless(D12)
  {
    OnesValues();
    hide Ones, TwelvePack, TwelveUnpack;
    forall t: seq<bv32> | |t| == 2 && AllFit(t, 12)
      ensures |TwelvePack(t)| == 3 && TwelveUnpack(TwelvePack(t)) == t
    {
      TwelveWords(t);
      TwelveSizes(t, [0, 0, 0]);
    }
    forall a: seq<byte> | |a| == 3
      ensures |TwelveUnpack(a)| == 2 && AllFit(TwelveUnpack(a), 12) && TwelvePack(TwelveUnpack(a)) == a
    {
      TwelveSizes([0, 0], a);
      TwelveBytes(a);
      TwelveMasked(a);
    }
  }

  lemma FiveWords(t: seq<bv32>)
    requires |t| == 8 && t[0] & !0x1F == 0 && t[1] & !0x1F == 0 && t[2] & !0x1F == 0 && t[3] & !0x1F == 0
         && t[4] & !0x1F == 0 && t[5] & !0x1F == 0 && t[6] & !0x1F == 0 && t[7] & !0x1F == 0
    ensures FiveUnpack(FivePack(t)) == t
  {
  }

  lemma FiveBytes(a: seq<byte>)
    requires |a| == 5
    ensures FivePack(FiveUnpack(a)) == a
  {
  }

  lemma FiveMasked(a: seq<byte>)
    requires |a| == 5
    ensures FiveUnpack(a)[0] & !0x1F == 0 && FiveUnpack(a)[1] & !0x1F == 0 && FiveUnpack(a)[2] & !0x1F == 0
         && FiveUnpack(a)[3] & !0x1F == 0 && FiveUnpack(a)[4] & !0x1F == 0 && FiveUnpack(a)[5] & !0x1F == 0
            && FiveUnpack(a)[6] & !0x1F == 0 && FiveUnpack(a)[7] & !0x1F == 0
  {
  }

  lemma FiveSizes(t: seq<bv32>, a: seq<byte>)
    requires |t| == 8 && |a| == 5
    ensures |FivePack(t)| == 5 && |FiveUnpack(a)| == 8
  {
  }

  lemma FiveLossless()
    ensures Lossless(D5)
  {
    OnesValues();
    hide Ones, FivePack, FiveUnpack;
    forall t: seq<bv32> | |t| == 8 && AllFit(t, 5)
      ensures |FivePack(t)| == 5 && FiveUnpack(FivePack(t)) == t
    {
      FiveWords(t);
      FiveSizes(t, [0, 0, 0, 0, 0]);
    }
    forall a: seq<byte> | |a| == 5
      ensures |FiveUnpack(a)| == 8 && AllFit(FiveUnpack(a), 5) && FivePack(FiveUnpack(a)) == a
    {
      FiveSizes([0, 0, 0, 0, 0, 0, 0, 0], a);
      FiveBytes(a);
      FiveMasked(a);
    }
  }

  lemma ElevenWords(t: seq<bv32>)
    requires |t| == 8 && t[0] & !0x7FF == 0 && t[1] & !0x7FF == 0 && t[2] & !0x7FF == 0 && t[3] & !0x7FF == 0
         && t[4] & !0x7FF == 0 && t[5] & !0x7FF == 0 && t[6] & !0x7FF == 0 && t[7] & !0x7FF == 0
    ensures ElevenUnpack(ElevenPack(t)) == t
  {
  }

  lemma ElevenBytes(a: seq<byte>)
    requires |a| == 11
    ensures ElevenPack(ElevenUnpack(a)) == a
  {
  }

  lemma ElevenMasked(a: seq<byte>)
    requires |a| == 11
    ensures ElevenUnpack(a)[0] & !0x7FF == 0 && ElevenUnpack(a)[1] & !0x7FF == 0 && ElevenUnpack(a)[2] & !0x7FF == 0
         && ElevenUnpack(a)[3] & !0x7FF == 0 && ElevenUnpack(a)[4] & !0x7FF == 0 && ElevenUnpack(a)[5] & !0x7FF == 0
            && ElevenUnpack(a)[6] & !0x7FF == 0 && ElevenUnpack(a)[7] & !0x7FF == 0
  {
  }

  lemma ElevenSizes(t: seq<bv32>, a: seq<byte>)
    requires |t| == 8 && |a| == 11
    ensures |ElevenPack(t)| == 11 && |ElevenUnpack(a)| == 8
  {
  }

  lemma ElevenLossless()
    ensures Lossless(D11)
  {
    OnesValues();
    hide Ones, ElevenPack, ElevenUnpack;
    forall t: seq<bv32> | |t| == 8 && AllFit(t, 11)
      ensures |ElevenPack(t)| == 11 && ElevenUnpack(ElevenPack(t)) == t
    {
      ElevenWords(t);
      ElevenSizes(t, [0, 0, 0, 0, 0, 0, 0, 0, 0, 0, 0]);
    }
    forall a: seq<byte> | |a| == 11
      ensures |ElevenUnpack(a)| == 8 && AllFit(ElevenUnpack(a), 11) && ElevenPack(ElevenUnpack(a)) == a
    {
      ElevenSizes([0, 0, 0, 0, 0, 0, 0, 0], a);
      ElevenBytes(a);
      ElevenMasked(a);
    }
  }

  lemma BitsWords(t: seq<bv32>)
    requires |t| == 8 && t[0] & !0x1 == 0 && t[1] & !0x1 == 0 && t[2] & !0x1 == 0 && t[3] & !0x1 == 0
         && t[4] & !0x1 == 0 && t[5] & !0x1 == 0 && t[6] & !0x1 == 0 && t[7] & !0x1 == 0
    ensures BitsUnpack(BitsPack(t)) == t
  {
  }

  lemma BitsBytes(a: seq<byte>)
    requires |a| == 1
    ensures BitsPack(BitsUnpack(a)) == a
  {
  }

  lemma BitsMasked(a: seq<byte>)
    requires |a| == 1
    ensures BitsUnpack(a)[0] & !0x1 == 0 && BitsUnpack(a)[1] & !0x1 == 0 && BitsUnpack(a)[2] & !0x1 == 0
         && BitsUnpack(a)[3] & !0x1 == 0 && BitsUnpack(a)[4] & !0x1 == 0 && BitsUnpack(a)[5] & !0x1 == 0
            && BitsUnpack(a)[6] & !0x1 == 0 && BitsUnpack(a)[7] & !0x1 == 0
  {
  }

  lemma BitsSizes(t: seq<bv32>, a: seq<byte>)
    requires |t| == 8 && |a| == 1
    ensures |BitsPack(t)| == 1 && |BitsUnpack(a)| == 8
  {
  }

  lemma BitsLossless()
    ensures Lossless(BITS)
  {
    OnesValues();
    hide Ones, BitsPack, BitsUnpack;
    forall t: seq<bv32> | |t| == 8 && AllFit(t, 1)
      ensures |BitsPack(t)| == 1 && BitsUnpack(BitsPack(t)) == t
    {
      BitsWords(t);
      BitsSizes(t, [0]);
    }
    forall a: seq<byte> | |a| == 1
      ensures |BitsUnpack(a)| == 8 && AllFit(BitsUnpack(a), 1) && BitsPack(BitsUnpack(a)) == a
    {
      BitsSizes([0, 0, 0, 0, 0, 0, 0, 0], a);
      BitsBytes(a);
      BitsMasked(a);
    }
  }
}
