/** Every group format of mldsa_poly.c, mlkem_poly.c and polyvec.c lists its coefficients bit by
    bit, least significant first and without gaps. */
module FormatOrder {
  import opened Words
  import opened BitCodec
  import opened BitOrder
  import M = MldsaPack
  import K = MlkemPack

  lemma Eta2Cuts(a: seq<byte>)
    requires |a| == 3
    ensures |M.Eta2Unpack(a)| == 8
    ensures M.Eta2Unpack(a)[0] == And(ShiftBy(Three(a, 0), 0), 7)
    ensures M.Eta2Unpack(a)[1] == And(ShiftBy(Three(a, 0), 3), 7)
    ensures M.Eta2Unpack(a)[2] == And(ShiftBy(Three(a, 0), 6), 7)
    ensures M.Eta2Unpack(a)[3] == And(ShiftBy(Three(a, 1), 1), 7)
    ensures M.Eta2Unpack(a)[4] == And(ShiftBy(Three(a, 1), 4), 7)
    ensures M.Eta2Unpack(a)[5] == And(ShiftBy(Three(a, 1), 7), 7)
    ensures M.Eta2Unpack(a)[6] == And(ShiftBy(Three(a, 2), 2), 7)
    ensures M.Eta2Unpack(a)[7] == And(ShiftBy(Three(a, 2), 5), 7)
  {
  }

  lemma Eta2Group(a: seq<byte>)
    requires |a| == 3
    ensures GroupOrdered(M.ETA2, a)
  {
    hide Value, Field, And, ShiftBy, Three, M.Eta2Unpack, Ones;
    OnesValues();
    Eta2Cuts(a);
    var t := M.Eta2Unpack(a);
    CutField(a, 0, 0, 3, t[0]);
    CutField(a, 0, 3, 3, t[1]);
    CutField(a, 0, 6, 3, t[2]);
    CutField(a, 1, 1, 3, t[3]);
    CutField(a, 1, 4, 3, t[4]);
    CutField(a, 1, 7, 3, t[5]);
    CutField(a, 2, 2, 3, t[6]);
    CutField(a, 2, 5, 3, t[7]);
    forall i: nat | i < 8
      ensures Value(t[i]) == Field(a, 3 * i, 3)
    {
      assert i == 0 || i == 1 || i == 2 || i == 3 || i == 4 || i == 5 || i == 6 || i == 7;
    }
  }

  lemma Eta2Ordered()
    ensures Ordered(M.ETA2)
  {
    hide GroupOrdered;
    forall a: seq<byte> | |a| == 3
      ensures GroupOrdered(M.ETA2, a)
    {
      Eta2Group(a);
    }
  }

  lemma Eta4Cuts(a: seq<byte>)
    requires |a| == 1
    ensures |M.Eta4Unpack(a)| == 2
    ensures M.Eta4Unpack(a)[0] == And(ShiftBy(Three(a, 0), 0), 0xF)
    ensures M.Eta4Unpack(a)[1] == And(ShiftBy(Three(a, 0), 4), 0xF)
  {
  }

  lemma Eta4Group(a: seq<byte>)
    requires |a| == 1
    ensures GroupOrdered(M.ETA4, a)
  {
    hide Value, Field, And, ShiftBy, Three, M.Eta4Unpack, Ones;
    OnesValues();
    Eta4Cuts(a);
    var t := M.Eta4Unpack(a);
    CutField(a, 0, 0, 4, t[0]);
    CutField(a, 0, 4, 4, t[1]);
    forall i: nat | i < 2
      ensures Value(t[i]) == Field(a, 4 * i, 4)
    {
      assert i == 0 || i == 1;
    }
  }

  lemma Eta4Ordered()
    ensures Ordered(M.ETA4)
  {
    hide GroupOrdered;
    forall a: seq<byte> | |a| == 1
      ensures GroupOrdered(M.ETA4, a)
    {
      Eta4Group(a);
    }
  }

  lemma T1Cuts(a: seq<byte>)
    requires |a| == 5
    ensures |M.T1Unpack(a)| == 4
    ensures M.T1Unpack(a)[0] == And(ShiftBy(Three(a, 0), 0), 0x3FF)
    ensures M.T1Unpack(a)[1] == And(ShiftBy(Three(a, 1), 2), 0x3FF)
    ensures M.T1Unpack(a)[2] == And(ShiftBy(Three(a, 2), 4), 0x3FF)
    ensures M.T1Unpack(a)[3] == And(ShiftBy(Three(a, 3), 6), 0x3FF)
  {
  }

  lemma T1Group(a: seq<byte>)
    requires |a| == 5
    ensures GroupOrdered(M.T1, a)
  {
    hide Value, Field, And, ShiftBy, Three, M.T1Unpack, Ones;
    OnesValues();
    T1Cuts(a);
    var t := M.T1Unpack(a);
    CutField(a, 0, 0, 10, t[0]);
    CutField(a, 1, 2, 10, t[1]);
    CutField(a, 2, 4, 10, t[2]);
    CutField(a, 3, 6, 10, t[3]);
    forall i: nat | i < 4
      ensures Value(t[i]) == Field(a, 10 * i, 10)
    {
      assert i == 0 || i == 1 || i == 2 || i == 3;
    }
  }

  lemma T1Ordered()
    ensures Ordered(M.T1)
  {
    hide GroupOrdered;
    forall a: seq<byte> | |a| == 5
      ensures GroupOrdered(M.T1, a)
    {
      T1Group(a);
    }
  }

  lemma T0Cuts(a: seq<byte>)
    requires |a| == 13
    ensures |M.T0Unpack(a)| == 8
    ensures M.T0Unpack(a)[0] == And(ShiftBy(Three(a, 0), 0), 0x1FFF)
    ensures M.T0Unpack(a)[1] == And(ShiftBy(Three(a, 1), 5), 0x1FFF)
    ensures M.T0Unpack(a)[2] == And(ShiftBy(Three(a, 3), 2), 0x1FFF)
    ensures M.T0Unpack(a)[3] == And(ShiftBy(Three(a, 4), 7), 0x1FFF)
    ensures M.T0Unpack(a)[4] == And(ShiftBy(Three(a, 6), 4), 0x1FFF)
    ensures M.T0Unpack(a)[5] == And(ShiftBy(Three(a, 8), 1), 0x1FFF)
    ensures M.T0Unpack(a)[6] == And(ShiftBy(Three(a, 9), 6), 0x1FFF)
    ensures M.T0Unpack(a)[7] == And(ShiftBy(Three(a, 11), 3), 0x1FFF)
  {
  }

  lemma T0Group(a: seq<byte>)
    requires |a| == 13
    ensures GroupOrdered(M.T0, a)
  {
    hide Value, Field, And, ShiftBy, Three, M.T0Unpack, Ones;
    OnesValues();
    T0Cuts(a);
    var t := M.T0Unpack(a);
    CutField(a, 0, 0, 13, t[0]);
    CutField(a, 1, 5, 13, t[1]);
    CutField(a, 3, 2, 13, t[2]);
    CutField(a, 4, 7, 13, t[3]);
    CutField(a, 6, 4, 13, t[4]);
    CutField(a, 8, 1, 13, t[5]);
    CutField(a, 9, 6, 13, t[6]);
    CutField(a, 11, 3, 13, t[7]);
    forall i: nat | i < 8
      ensures Value(t[i]) == Field(a, 13 * i, 13)
    {
      assert i == 0 || i == 1 || i == 2 || i == 3 || i == 4 || i == 5 || i == 6 || i == 7;
    }
  }

  lemma T0Ordered()
    ensures Ordered(M.T0)
  {
    hide GroupOrdered;
    forall a: seq<byte> | |a| == 13
      ensures GroupOrdered(M.T0, a)
    {
      T0Group(a);
    }
  }

  lemma Z17Cuts(a: seq<byte>)
    requires |a| == 9
    ensures |M.Z17Unpack(a)| == 4
    ensures M.Z17Unpack(a)[0] == And(ShiftBy(Three(a, 0), 0), 0x3_FFFF)
    ensures M.Z17Unpack(a)[1] == And(ShiftBy(Three(a, 2), 2), 0x3_FFFF)
    ensures M.Z17Unpack(a)[2] == And(ShiftBy(Three(a, 4), 4), 0x3_FFFF)
    ensures M.Z17Unpack(a)[3] == And(ShiftBy(Three(a, 6), 6), 0x3_FFFF)
  {
  }

  lemma Z17Group(a: seq<byte>)
    requires |a| == 9
    ensures GroupOrdered(M.Z17, a)
  {
    hide Value, Field, And, ShiftBy, Three, M.Z17Unpack, Ones;
    OnesValues();
    Z17Cuts(a);
    var t := M.Z17Unpack(a);
    CutField(a, 0, 0, 18, t[0]);
    CutField(a, 2, 2, 18, t[1]);
    CutField(a, 4, 4, 18, t[2]);
    CutField(a, 6, 6, 18, t[3]);
    forall i: nat | i < 4
      ensures Value(t[i]) == Field(a, 18 * i, 18)
    {
      assert i == 0 || i == 1 || i == 2 || i == 3;
    }
  }

  lemma Z17Ordered()
    ensures Ordered(M.Z17)
  {
    hide GroupOrdered;
    forall a: seq<byte> | |a| == 9
      ensures GroupOrdered(M.Z17, a)
    {
      Z17Group(a);
    }
  }

  lemma Z19Cuts(a: seq<byte>)
    requires |a| == 5
    ensures |M.Z19Unpack(a)| == 2
    ensures M.Z19Unpack(a)[0] == And(ShiftBy(Three(a, 0), 0), 0xF_FFFF)
    ensures M.Z19Unpack(a)[1] == And(ShiftBy(Three(a, 2), 4), 0xF_FFFF)
  {
  }

  lemma Z19Group(a: seq<byte>)
    requires |a| == 5
    ensures GroupOrdered(M.Z19, a)
  {
    hide Value, Field, And, ShiftBy, Three, M.Z19Unpack, Ones;
    OnesValues();
    Z19Cuts(a);
    var t := M.Z19Unpack(a);
    CutField(a, 0, 0, 20, t[0]);
    CutField(a, 2, 4, 20, t[1]);
    forall i: nat | i < 2
      ensures Value(t[i]) == Field(a, 20 * i, 20)
    {
      assert i == 0 || i == 1;
    }
  }

  lemma Z19Ordered()
    ensures Ordered(M.Z19)
  {
    hide GroupOrdered;
    forall a: seq<byte> | |a| == 5
      ensures GroupOrdered(M.Z19, a)
    {
      Z19Group(a);
    }
  }

  lemma W88Cuts(a: seq<byte>)
    requires |a| == 3
    ensures |M.W88Fields(a)| == 4
    ensures M.W88Fields(a)[0] == And(ShiftBy(Three(a, 0), 0), 0x3F)
    ensures M.W88Fields(a)[1] == And(ShiftBy(Three(a, 0), 6), 0x3F)
    ensures M.W88Fields(a)[2] == And(ShiftBy(Three(a, 1), 4), 0x3F)
    ensures M.W88Fields(a)[3] == And(ShiftBy(Three(a, 2), 2), 0x3F)
  {
  }

  lemma W88Group(a: seq<byte>)
    requires |a| == 3
    ensures GroupOrdered(M.W88, a)
  {
    hide Value, Field, And, ShiftBy, Three, M.W88Fields, Ones;
    OnesValues();
    W88Cuts(a);
    var t := M.W88Fields(a);
    CutField(a, 0, 0, 6, t[0]);
    CutField(a, 0, 6, 6, t[1]);
    CutField(a, 1, 4, 6, t[2]);
    CutField(a, 2, 2, 6, t[3]);
    forall i: nat | i < 4
      ensures Value(t[i]) == Field(a, 6 * i, 6)
    {
      assert i == 0 || i == 1 || i == 2 || i == 3;
    }
  }

  lemma W88Ordered()
    ensures Ordered(M.W88)
  {
    hide GroupOrdered;
    forall a: seq<byte> | |a| == 3
      ensures GroupOrdered(M.W88, a)
    {
      W88Group(a);
    }
  }

  lemma TwelveCuts(a: seq<byte>)
    requires |a| == 3
    ensures |K.TwelveUnpack(a)| == 2
    ensures K.TwelveUnpack(a)[0] == And(ShiftBy(Three(a, 0), 0), 0xFFF)
    ensures K.TwelveUnpack(a)[1] == And(ShiftBy(Three(a, 1), 4), 0xFFF)
  {
  }

  lemma TwelveGroup(a: seq<byte>)
    requires |a| == 3
    ensures GroupOrdered(K.D12, a)
  {
    hide Value, Field, And, ShiftBy, Three, K.TwelveUnpack, Ones;
    OnesValues();
    TwelveCuts(a);
    var t := K.TwelveUnpack(a);
    CutField(a, 0, 0, 12, t[0]);
    CutField(a, 1, 4, 12, t[1]);
    forall i: nat | i < 2
      ensures Value(t[i]) == Field(a, 12 * i, 12)
    {
      assert i == 0 || i == 1;
    }
  }

  lemma TwelveOrdered()
    ensures Ordered(K.D12)
  {
    hide GroupOrdered;
    forall a: seq<byte> | |a| == 3
      ensures GroupOrdered(K.D12, a)
    {
      TwelveGroup(a);
    }
  }

  lemma FiveCuts(a: seq<byte>)
    requires |a| == 5
    ensures |K.FiveUnpack(a)| == 8
    ensures K.FiveUnpack(a)[0] == And(ShiftBy(Three(a, 0), 0), 0x1F)
    ensures K.FiveUnpack(a)[1] == And(ShiftBy(Three(a, 0), 5), 0x1F)
    ensures K.FiveUnpack(a)[2] == And(ShiftBy(Three(a, 1), 2), 0x1F)
    ensures K.FiveUnpack(a)[3] == And(ShiftBy(Three(a, 1), 7), 0x1F)
    ensures K.FiveUnpack(a)[4] == And(ShiftBy(Three(a, 2), 4), 0x1F)
    ensures K.FiveUnpack(a)[5] == And(ShiftBy(Three(a, 3), 1), 0x1F)
    ensures K.FiveUnpack(a)[6] == And(ShiftBy(Three(a, 3), 6), 0x1F)
    ensures K.FiveUnpack(a)[7] == And(ShiftBy(Three(a, 4), 3), 0x1F)
  {
  }

  lemma FiveGroup(a: seq<byte>)
    requires |a| == 5
    ensures GroupOrdered(K.D5, a)
  {
    hide Value, Field, And, ShiftBy, Three, K.FiveUnpack, Ones;
    OnesValues();
    FiveCuts(a);
    var t := K.FiveUnpack(a);
    CutField(a, 0, 0, 5, t[0]);
    CutField(a, 0, 5, 5, t[1]);
    CutField(a, 1, 2, 5, t[2]);
    CutField(a, 1, 7, 5, t[3]);
    CutField(a, 2, 4, 5, t[4]);
    CutField(a, 3, 1, 5, t[5]);
    CutField(a, 3, 6, 5, t[6]);
    CutField(a, 4, 3, 5, t[7]);
    forall i: nat | i < 8
      ensures Value(t[i]) == Field(a, 5 * i, 5)
    {
      assert i == 0 || i == 1 || i == 2 || i == 3 || i == 4 || i == 5 || i == 6 || i == 7;
    }
  }

  lemma FiveOrdered()
    ensures Ordered(K.D5)
  {
    hide GroupOrdered;
    forall a: seq<byte> | |a| == 5
      ensures GroupOrdered(K.D5, a)
    {
      FiveGroup(a);
    }
  }

  lemma ElevenCuts(a: seq<byte>)
    requires |a| == 11
    ensures |K.ElevenUnpack(a)| == 8
    ensures K.ElevenUnpack(a)[0] == And(ShiftBy(Three(a, 0), 0), 0x7FF)
    ensures K.ElevenUnpack(a)[1] == And(ShiftBy(Three(a, 1), 3), 0x7FF)
    ensures K.ElevenUnpack(a)[2] == And(ShiftBy(Three(a, 2), 6), 0x7FF)
    ensures K.ElevenUnpack(a)[3] == And(ShiftBy(Three(a, 4), 1), 0x7FF)
    ensures K.ElevenUnpack(a)[4] == And(ShiftBy(Three(a, 5), 4), 0x7FF)
    ensures K.ElevenUnpack(a)[5] == And(ShiftBy(Three(a, 6), 7), 0x7FF)
    ensures K.ElevenUnpack(a)[6] == And(ShiftBy(Three(a, 8), 2), 0x7FF)
    ensures K.ElevenUnpack(a)[7] == And(ShiftBy(Three(a, 9), 5), 0x7FF)
  {
  }

  lemma ElevenGroup(a: seq<byte>)
    requires |a| == 11
    ensures GroupOrdered(K.D11, a)
  {
    hide Value, Field, And, ShiftBy, Three, K.ElevenUnpack, Ones;
    OnesValues();
    ElevenCuts(a);
    var t := K.ElevenUnpack(a);
    CutField(a, 0, 0, 11, t[0]);
    CutField(a, 1, 3, 11, t[1]);
    CutField(a, 2, 6, 11, t[2]);
    CutField(a, 4, 1, 11, t[3]);
    CutField(a, 5, 4, 11, t[4]);
    CutField(a, 6, 7, 11, t[5]);
    CutField(a, 8, 2, 11, t[6]);
    CutField(a, 9, 5, 11, t[7]);
    forall i: nat | i < 8
      ensures Value(t[i]) == Field(a, 11 * i, 11)
    {
      assert i == 0 || i == 1 || i == 2 || i == 3 || i == 4 || i == 5 || i == 6 || i == 7;
    }
  }

  lemma ElevenOrdered()
    ensures Ordered(K.D11)
  {
    hide GroupOrdered;
    forall a: seq<byte> | |a| == 11
      ensures GroupOrdered(K.D11, a)
    {
      ElevenGroup(a);
    }
  }

  lemma BitsCuts(a: seq<byte>)
    requires |a| == 1
    ensures |K.BitsUnpack(a)| == 8
    ensures K.BitsUnpack(a)[0] == And(ShiftBy(Three(a, 0), 0), 1)
    ensures K.BitsUnpack(a)[1] == And(ShiftBy(Three(a, 0), 1), 1)
    ensures K.BitsUnpack(a)[2] == And(ShiftBy(Three(a, 0), 2), 1)
    ensures K.BitsUnpack(a)[3] == And(ShiftBy(Three(a, 0), 3), 1)
  {
  }

  lemma UpperBitsCuts(a: seq<byte>)
    requires |a| == 1
    ensures |K.BitsUnpack(a)| == 8
    ensures K.BitsUnpack(a)[4] == And(ShiftBy(Three(a, 0), 4), 1)
    ensures K.BitsUnpack(a)[5] == And(ShiftBy(Three(a, 0), 5), 1)
    ensures K.BitsUnpack(a)[6] == And(ShiftBy(Three(a, 0), 6), 1)
    ensures K.BitsUnpack(a)[7] == And(ShiftBy(Three(a, 0), 7), 1)
  {
  }

  lemma BitsGroup(a: seq<byte>)
    requires |a| == 1
    ensures GroupOrdered(K.BITS, a)
  {
    hide Value, Field, And, ShiftBy, Three, K.BitsUnpack, Ones;
    OnesValues();
    BitsCuts(a);
    UpperBitsCuts(a);
    var t := K.BitsUnpack(a);
    CutField(a, 0, 0, 1, t[0]);
    CutField(a, 0, 1, 1, t[1]);
    CutField(a, 0, 2, 1, t[2]);
    CutField(a, 0, 3, 1, t[3]);
    CutField(a, 0, 4, 1, t[4]);
    CutField(a, 0, 5, 1, t[5]);
    CutField(a, 0, 6, 1, t[6]);
    CutField(a, 0, 7, 1, t[7]);
    forall i: nat | i < 8
      ensures Value(t[i]) == Field(a, 1 * i, 1)
    {
      assert i == 0 || i == 1 || i == 2 || i == 3 || i == 4 || i == 5 || i == 6 || i == 7;
    }
  }

  lemma BitsOrdered()
    ensures Ordered(K.BITS)
  {
    hide GroupOrdered;
    forall a: seq<byte> | |a| == 1
      ensures GroupOrdered(K.BITS, a)
    {
      BitsGroup(a);
    }
  }

  lemma SharedOrdered()
    ensures Ordered(M.W32) && Ordered(K.D4) && Ordered(K.D10)
  {
    hide GroupOrdered;
    forall a: seq<byte> | |a| == 1
      ensures GroupOrdered(M.W32, a) && GroupOrdered(K.D4, a)
    {
      Eta4Group(a);
      SameGroups(M.ETA4, M.W32, a);
      SameGroups(M.ETA4, K.D4, a);
    }
    forall a: seq<byte> | |a| == 5
      ensures GroupOrdered(K.D10, a)
    {
      T1Group(a);
      SameGroups(M.T1, K.D10, a);
    }
  }

  lemma SameGroups(k: Codec, l: Codec, a: seq<byte>)
    requires GroupOrdered(k, a) && k.n == l.n && k.m == l.m && k.d == l.d && k.unpack == l.unpack
    ensures GroupOrdered(l, a)
  {
  }
}
