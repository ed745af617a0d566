// Known answers above 16 bytes, stripe by stripe: a tail alone, a round and a tail, and the
// eight lanes at the shortest length that takes them.
module LongAnswers {
  import opened Powers
  import opened Words
  import opened Machine
  import opened Reference
  import opened Finalizers
  import opened ClosedForms
  import opened KnownAnswers

  // ---- The messages ------------------------------------------------------------------

  /** Bytes o to o + 7 of the messages: byte i is (i * 0x9E37_79B9_7F4A_7C15 + 0x2545_F491_4F6C_DD1D) >> 56. */
  function EightBytes(o: Vector): Vector {
    ((o * 0x9E37_79B9_7F4A_7C15 + 0x2545_F491_4F6C_DD1D) >> 56)
    | ((((o + 1) * 0x9E37_79B9_7F4A_7C15 + 0x2545_F491_4F6C_DD1D) >> 56) << 8)
    | ((((o + 2) * 0x9E37_79B9_7F4A_7C15 + 0x2545_F491_4F6C_DD1D) >> 56) << 16)
    | ((((o + 3) * 0x9E37_79B9_7F4A_7C15 + 0x2545_F491_4F6C_DD1D) >> 56) << 24)
    | ((((o + 4) * 0x9E37_79B9_7F4A_7C15 + 0x2545_F491_4F6C_DD1D) >> 56) << 32)
    | ((((o + 5) * 0x9E37_79B9_7F4A_7C15 + 0x2545_F491_4F6C_DD1D) >> 56) << 40)
    | ((((o + 6) * 0x9E37_79B9_7F4A_7C15 + 0x2545_F491_4F6C_DD1D) >> 56) << 48)
    | ((((o + 7) * 0x9E37_79B9_7F4A_7C15 + 0x2545_F491_4F6C_DD1D) >> 56) << 56)
  }

  function WordAt(o: Vector): Word { EightBytes(o) as int }

  /** 8 * k as a vector. */
  function Offset(k: nat): Vector { if k == 0 then 0 else Offset(k - 1) + 8 }

  /** The first 8 * m bytes of the messages. */
  function Pattern(m: nat): (p: Bytes)
    ensures |p| == 8 * m
  {
    hide BytesOf, WordAt, Offset;
    if m == 0 then [] else Pattern(m - 1) + BytesOf(WordAt(Offset(m - 1)))
  }

  lemma {:induction false} PatternLoad(m: nat, k: nat)
    requires k < m
    ensures Load64(Pattern(m), 8 * k) == WordAt(Offset(k))
  {
    hide Load64, BytesOf, WordAt, Offset;
    var p, w := Pattern(m - 1), WordAt(Offset(m - 1));
    if k < m - 1 {
      PatternLoad(m - 1, k);
      LoadPrefix(p, BytesOf(w), 8 * k);
    } else {
      BytesLoad(w);
      LoadSame(p + BytesOf(w), BytesOf(w), 8 * k, 0);
    }
  }

  lemma PatternLoads(m: nat)
    ensures |Pattern(m)| == 8 * m
    ensures forall k: nat {:trigger Offset(k)} :: k < m ==> Load64(Pattern(m), 8 * k) == WordAt(Offset(k))
  {
    hide Load64, Pattern, WordAt, Offset;
    forall k: nat | k < m ensures Load64(Pattern(m), 8 * k) == WordAt(Offset(k)) { PatternLoad(m, k); }
  }

  lemma Offsets0()
    ensures Offset(0) == 0 && Offset(1) == 8 && Offset(2) == 16 && Offset(3) == 24 && Offset(4) == 32
    ensures Offset(5) == 40 && Offset(6) == 48 && Offset(7) == 56
  {
  }

  lemma Offsets1()
    ensures Offset(8) == 64 && Offset(9) == 72 && Offset(10) == 80 && Offset(11) == 88 && Offset(12) == 96
    ensures Offset(13) == 104 && Offset(14) == 112 && Offset(15) == 120
  {
    Offsets0();
  }

  lemma Offsets2()
    ensures Offset(16) == 128 && Offset(17) == 136 && Offset(18) == 144 && Offset(19) == 152
    ensures Offset(20) == 160 && Offset(21) == 168 && Offset(22) == 176 && Offset(23) == 184
  {
    Offsets1();
  }

  lemma Offsets3()
    ensures Offset(24) == 192 && Offset(25) == 200 && Offset(26) == 208 && Offset(27) == 216
    ensures Offset(28) == 224 && Offset(29) == 232 && Offset(30) == 240 && Offset(31) == 248
  {
    Offsets2();
  }

  lemma Offsets4()
    ensures Offset(32) == 256 && Offset(33) == 264 && Offset(34) == 272 && Offset(35) == 280
    ensures Offset(36) == 288 && Offset(37) == 296 && Offset(38) == 304 && Offset(39) == 312
  {
    Offsets3();
  }

  lemma LaneXors()
    ensures Premix(0xDEADBEEFCAFEBABE) == 0x409AC756B5B4C6AB
    ensures Xor(0x409AC756B5B4C6AB, 0x9E3779B97F4A7C15) == 0xDEADBEEFCAFEBABE
    ensures Xor(0xD6D31AAD026B1D5A, 0x4F1BBCDCBFA53) == 0xD6D7EB16CFA0E709
    ensures Xor(0x58EAD6B698D56813, 0x6EF372FE94F82A00) == 0x3619A4480C2D4213
    ensures Xor(0xDA6355A04D63AB5A, 0x5FD29F0540000000) == 0x85B1CAA50D63AB5A
  {
    hide Xor;
    XorIs(0xDEADBEEFCAFEBABE, 0x9E3779B97F4A7C15);
    XorIs(0x409AC756B5B4C6AB, 0x9E3779B97F4A7C15);
    XorIs(0xD6D31AAD026B1D5A, 0x4F1BBCDCBFA53);
    XorIs(0x58EAD6B698D56813, 0x6EF372FE94F82A00);
    XorIs(0xDA6355A04D63AB5A, 0x5FD29F0540000000);
  }

  lemma LaneShifts()
    ensures Shl(K, 21) == 0x372FE94F82A00000 && Shr(K, 13) == 0x4F1BBCDCBFA53
    ensures Shl(K, 42) == 0x29F0540000000000 && Shr(K, 27) == 0x13C6EF372F && Shl(K, 9) == 0x6EF372FE94F82A00
    ensures Shr(K, 40) == 0x9E3779 && Shl(K, 30) == 0x5FD29F0540000000
  {
    hide Shr, Pow2;
    PowerTable();
    ShrsAre(K);
  }

  lemma LaneTurns()
    ensures Rotl(0x409AC756B5B4C6AB, 17) == 0x8EAD6B698D568135
    ensures Rotl(0x409AC756B5B4C6AB, 34) == 0xD6D31AAD026B1D5A
    ensures Rotl(0x409AC756B5B4C6AB, 51) == 0x355A04D63AB5ADA6
    ensures Rotl(0x409AC756B5B4C6AB, 13) == 0x58EAD6B698D56813
    ensures Rotl(0x409AC756B5B4C6AB, 26) == 0x5AD6D31AAD026B1D
    ensures Rotl(0x409AC756B5B4C6AB, 39) == 0xDA6355A04D63AB5A
  {
    hide Rotl;
    AllRotls();
  }

  lemma LaneSums()
    ensures Add(0x8EAD6B698D568135, 0x372FE94F82A00000) == 0xC5DD54B90FF68135
    ensures Add(0x355A04D63AB5ADA6, 0x29F0540000000000) == 0x5F4A58D63AB5ADA6
    ensures Add(0x409AC756B5B4C6AB, 0x13C6EF372F) == 0x409AC76A7CA3FDDA
    ensures Add(0x5AD6D31AAD026B1D, 0x9E3779) == 0x5AD6D31AADA0A296
  {
  }

  lemma FirstLanes()
    ensures LanesOfPremix(0x409AC756B5B4C6AB) ==
      Lanes(0xDEADBEEFCAFEBABE, 0xC5DD54B90FF68135, 0xD6D7EB16CFA0E709, 0x5F4A58D63AB5ADA6, 0x409AC76A7CA3FDDA,
        0x3619A4480C2D4213, 0x5AD6D31AADA0A296, 0x85B1CAA50D63AB5A, 0)
  {
    hide Xor, Rotl, Shl, Shr, Add;
    LaneTurns();
    LaneSums();
    LaneShifts();
    LaneXors();
  }

  lemma Stripes0()
    ensures WordAt(0) == 0x78DA3C9EFF61C325 && WordAt(8) == 0x6ACC2E8FF153B517
    ensures WordAt(16) == 0x5CBE1F81E345A608 && WordAt(24) == 0x4DAF1173D53698FA
    ensures WordAt(32) == 0x3FA10365C6288AEC && WordAt(40) == 0x3193F556B81A7CDD
    ensures WordAt(48) == 0x2384E648AA0C6DCF && WordAt(56) == 0x1476D83A9CFD5FC1
  {
  }

  lemma Block0Turns()
    ensures Rotl(0x78DA3C9EFF61C325, 27) == 0xF7FB0E192BC6D1E4
    ensures Rotl(0x6ACC2E8FF153B517, 27) == 0x7F8A9DA8BB566174
    ensures Rotl(0x5CBE1F81E345A608, 27) == 0xF1A2D3042E5F0FC
    ensures Rotl(0x4DAF1173D53698FA, 27) == 0x9EA9B4C7D26D788B
    ensures Rotl(0x3FA10365C6288AEC, 27) == 0x2E31445761FD081B
    ensures Rotl(0x3193F556B81A7CDD, 27) == 0xB5C0D3E6E98C9FAA
    ensures Rotl(0x2384E648AA0C6DCF, 27) == 0x4550636E791C2732
  {
    hide Rotl;
    AllRotls();
  }

  lemma Block0Sums()
    ensures Add(0x78DA3C9EFF61C325, 0) == 0x78DA3C9EFF61C325
    ensures Add(0x6ACC2E8FF153B517, 0xF7FB0E192BC6D1E4) == 0x62C73CA91D1A86FB
    ensures Add(0x5CBE1F81E345A608, 0x7F8A9DA8BB566174) == 0xDC48BD2A9E9C077C
    ensures Add(0x4DAF1173D53698FA, 0xF1A2D3042E5F0FC) == 0x5CC93EA4181C89F6
    ensures Add(0x3FA10365C6288AEC, 0x9EA9B4C7D26D788B) == 0xDE4AB82D98960377
    ensures Add(0x3193F556B81A7CDD, 0x2E31445761FD081B) == 0x5FC539AE1A1784F8
    ensures Add(0x2384E648AA0C6DCF, 0xB5C0D3E6E98C9FAA) == 0xD945BA2F93990D79
    ensures Add(0x1476D83A9CFD5FC1, 0x4550636E791C2732) == 0x59C73BA9161986F3
    ensures Add(0x54564AB2B0CA0DB7, 0x1476D83A9CFD5FC1) == 0x68CD22ED4DC76D78
    ensures Mul(0xA6778271359F799B, K) == 0x54564AB2B0CA0DB7 && Mul(0xA71A681012EC07CE, K) == 0x9B1EE47354B06BE6
    ensures Mul(0xA9F563C513CE075, K) == 0xD0CC7ACC13891599 && Mul(0x383667222A92450, K) == 0x572BABDEF496BA90
    ensures Mul(0x9ED07F47E435FEAD, K) == 0x674FD46850CBB031 && Mul(0x69DC9DE6163AC6EB, K) == 0xF419CF23601A2547
    ensures Mul(0x839369353E39AFEF, K) == 0x8F81212D7809329B && Mul(0xDC76F10C1B7A2DA9, K) == 0x19D4116678FD9ADD
  {
  }

  lemma Block0Xors()
    ensures Xor(0xDEADBEEFCAFEBABE, 0x78DA3C9EFF61C325) == 0xA6778271359F799B
    ensures Xor(0xC5DD54B90FF68135, 0x62C73CA91D1A86FB) == 0xA71A681012EC07CE
    ensures Xor(0xD6D7EB16CFA0E709, 0xDC48BD2A9E9C077C) == 0xA9F563C513CE075
    ensures Xor(0x5F4A58D63AB5ADA6, 0x5CC93EA4181C89F6) == 0x383667222A92450
    ensures Xor(0x409AC76A7CA3FDDA, 0xDE4AB82D98960377) == 0x9ED07F47E435FEAD
    ensures Xor(0x3619A4480C2D4213, 0x5FC539AE1A1784F8) == 0x69DC9DE6163AC6EB
    ensures Xor(0x5AD6D31AADA0A296, 0xD945BA2F93990D79) == 0x839369353E39AFEF
    ensures Xor(0x85B1CAA50D63AB5A, 0x59C73BA9161986F3) == 0xDC76F10C1B7A2DA9
  {
    hide Xor;
    XorIs(0xDEADBEEFCAFEBABE, 0x78DA3C9EFF61C325);
    XorIs(0xC5DD54B90FF68135, 0x62C73CA91D1A86FB);
    XorIs(0xD6D7EB16CFA0E709, 0xDC48BD2A9E9C077C);
    XorIs(0x5F4A58D63AB5ADA6, 0x5CC93EA4181C89F6);
    XorIs(0x409AC76A7CA3FDDA, 0xDE4AB82D98960377);
    XorIs(0x3619A4480C2D4213, 0x5FC539AE1A1784F8);
    XorIs(0x5AD6D31AADA0A296, 0xD945BA2F93990D79);
    XorIs(0x85B1CAA50D63AB5A, 0x59C73BA9161986F3);
  }

  lemma Block0(m: nat)
    requires 8 <= m
    ensures Block(Lanes(0xDEADBEEFCAFEBABE, 0xC5DD54B90FF68135, 0xD6D7EB16CFA0E709, 0x5F4A58D63AB5ADA6,
      0x409AC76A7CA3FDDA, 0x3619A4480C2D4213, 0x5AD6D31AADA0A296, 0x85B1CAA50D63AB5A, 0), Pattern(m), 0) ==
      Lanes(0x68CD22ED4DC76D78, 0x9B1EE47354B06BE6, 0xD0CC7ACC13891599, 0x572BABDEF496BA90, 0x674FD46850CBB031,
        0xF419CF23601A2547, 0x8F81212D7809329B, 0x19D4116678FD9ADD, 0x1476D83A9CFD5FC1)
  {
    hide Xor, Rotl, Add, Mul, Load64, WordAt, Offset, Pattern;
    PatternLoads(m);
    Offsets0();
    Stripes0();
    RotlZero(27);
    Block0Turns();
    Block0Sums();
    Block0Xors();
  }

  lemma Stripes1()
    ensures WordAt(64) == 0x668CA2C8DEF51B3 && WordAt(72) == 0xF85ABB1D7FE143A4
    ensures WordAt(80) == 0xEA4BAD0F71D33496 && WordAt(88) == 0xDB3D9F0162C42688
    ensures WordAt(96) == 0xCD2F91F254B6187A && WordAt(104) == 0xBF2182E446A80A6B
    ensures WordAt(112) == 0xB11274D63899FB5D && WordAt(120) == 0xA20466C8298BED4F
  {
  }

  lemma Block1Turns()
    ensures Rotl(0x1476D83A9CFD5FC1, 27) == 0xD4E7EAFE08A3B6C1
    ensures Rotl(0x668CA2C8DEF51B3, 27) == 0x646F7A8D98334651
    ensures Rotl(0xF85ABB1D7FE143A4, 27) == 0xEBFF0A1D27C2D5D8
    ensures Rotl(0xEA4BAD0F71D33496, 27) == 0x7B8E99A4B7525D68
    ensures Rotl(0xDB3D9F0162C42688, 27) == 0xB16213446D9ECF8
    ensures Rotl(0xCD2F91F254B6187A, 27) == 0x92A5B0C3D6697C8F
    ensures Rotl(0xBF2182E446A80A6B, 27) == 0x223540535DF90C17
    ensures Rotl(0xB11274D63899FB5D, 27) == 0xB1C4CFDAED8893A6
  {
    hide Rotl;
    AllRotls();
  }

  lemma Block1Sums()
    ensures Add(0x668CA2C8DEF51B3, 0xD4E7EAFE08A3B6C1) == 0xDB50B52A96930874
    ensures Add(0xF85ABB1D7FE143A4, 0x646F7A8D98334651) == 0x5CCA35AB181489F5
    ensures Add(0xEA4BAD0F71D33496, 0xEBFF0A1D27C2D5D8) == 0xD64AB72C99960A6E
    ensures Add(0xDB3D9F0162C42688, 0x7B8E99A4B7525D68) == 0x56CC38A61A1683F0
    ensures Add(0xCD2F91F254B6187A, 0xB16213446D9ECF8) == 0xD845B3269B900572
    ensures Add(0xBF2182E446A80A6B, 0x92A5B0C3D6697C8F) == 0x51C733A81D1186FA
    ensures Add(0xB11274D63899FB5D, 0x223540535DF90C17) == 0xD347B52996930774
    ensures Add(0xA20466C8298BED4F, 0xB1C4CFDAED8893A6) == 0x53C936A3171480F5
    ensures Add(0x985A37D4085619FC, 0xA20466C8298BED4F) == 0x3A5E9E9C31E2074B
    ensures Mul(0xB39D97C7DB54650C, K) == 0x985A37D4085619FC && Mul(0xC7D4D1D84CA4E213, K) == 0xEBD4A69ED85BF8F
    ensures Mul(0x686CDE08A1F1FF7, K) == 0x92DFDCAC2E6F4343 && Mul(0x1E79378EE803960, K) == 0x7C1C1058E20F34E0
    ensures Mul(0xBF0A674ECB5BB543, K) == 0x42E593D0BCB0527F && Mul(0xA5DEFC8B7D0BA3BD, K) == 0x8261DC2FFCE5FA81
    ensures Mul(0x5CC69404EE9A35EF, K) == 0x710FF2066CDC309B && Mul(0x4A1D27C56FE91A28, K) == 0xA7B1AA7E5A8548
  {
  }

  lemma Block1Xors()
    ensures Xor(0x68CD22ED4DC76D78, 0xDB50B52A96930874) == 0xB39D97C7DB54650C
    ensures Xor(0x9B1EE47354B06BE6, 0x5CCA35AB181489F5) == 0xC7D4D1D84CA4E213
    ensures Xor(0xD0CC7ACC13891599, 0xD64AB72C99960A6E) == 0x686CDE08A1F1FF7
    ensures Xor(0x572BABDEF496BA90, 0x56CC38A61A1683F0) == 0x1E79378EE803960
    ensures Xor(0x674FD46850CBB031, 0xD845B3269B900572) == 0xBF0A674ECB5BB543
    ensures Xor(0xF419CF23601A2547, 0x51C733A81D1186FA) == 0xA5DEFC8B7D0BA3BD
    ensures Xor(0x8F81212D7809329B, 0xD347B52996930774) == 0x5CC69404EE9A35EF
    ensures Xor(0x19D4116678FD9ADD, 0x53C936A3171480F5) == 0x4A1D27C56FE91A28
  {
    hide Xor;
    XorIs(0x68CD22ED4DC76D78, 0xDB50B52A96930874);
    XorIs(0x9B1EE47354B06BE6, 0x5CCA35AB181489F5);
    XorIs(0xD0CC7ACC13891599, 0xD64AB72C99960A6E);
    XorIs(0x572BABDEF496BA90, 0x56CC38A61A1683F0);
    XorIs(0x674FD46850CBB031, 0xD845B3269B900572);
    XorIs(0xF419CF23601A2547, 0x51C733A81D1186FA);
    XorIs(0x8F81212D7809329B, 0xD347B52996930774);
    XorIs(0x19D4116678FD9ADD, 0x53C936A3171480F5);
  }

  lemma Block1(m: nat)
    requires 16 <= m
    ensures Block(Lanes(0x68CD22ED4DC76D78, 0x9B1EE47354B06BE6, 0xD0CC7ACC13891599, 0x572BABDEF496BA90,
      0x674FD46850CBB031, 0xF419CF23601A2547, 0x8F81212D7809329B, 0x19D4116678FD9ADD, 0x1476D83A9CFD5FC1),
      Pattern(m), 64) ==
      Lanes(0x3A5E9E9C31E2074B, 0xEBD4A69ED85BF8F, 0x92DFDCAC2E6F4343, 0x7C1C1058E20F34E0, 0x42E593D0BCB0527F,
        0x8261DC2FFCE5FA81, 0x710FF2066CDC309B, 0xA7B1AA7E5A8548, 0xA20466C8298BED4F)
  {
    hide Xor, Rotl, Add, Mul, Load64, WordAt, Offset, Pattern;
    PatternLoads(m);
    Offsets1();
    Stripes1();
    Block1Turns();
    Block1Sums();
    Block1Xors();
  }

  lemma Stripes2()
    ensures WordAt(128) == 0x94F658B91B7DDF41 && WordAt(136) == 0x86E849AB0D6FD032
    ensures WordAt(144) == 0x77D93B9DFF60C224 && WordAt(152) == 0x69CB2D8FF052B416
    ensures WordAt(160) == 0x5BBD1F80E244A607 && WordAt(168) == 0x4DAE1072D43697F9
    ensures WordAt(176) == 0x3EA00264C62789EB && WordAt(184) == 0x3092F456B7197BDD
  {
  }

  lemma Block2Turns()
    ensures Rotl(0xA20466C8298BED4F, 27) == 0x414C5F6A7D102336
    ensures Rotl(0x94F658B91B7DDF41, 27) == 0xC8DBEEFA0CA7B2C5
    ensures Rotl(0x86E849AB0D6FD032, 27) == 0x586B7E819437424D
    ensures Rotl(0x77D93B9DFF60C224, 27) == 0xEFFB061123BEC9DC
    ensures Rotl(0x69CB2D8FF052B416, 27) == 0x7F8295A0B34E596C
    ensures Rotl(0x5BBD1F80E244A607, 27) == 0x71225303ADDE8FC
    ensures Rotl(0x4DAE1072D43697F9, 27) == 0x96A1B4BFCA6D7083
    ensures Rotl(0x3EA00264C62789EB, 27) == 0x26313C4F59F50013
  {
    hide Rotl;
    AllRotls();
  }

  lemma Block2Sums()
    ensures Add(0x94F658B91B7DDF41, 0x414C5F6A7D102336) == 0xD642B823988E0277
    ensures Add(0x86E849AB0D6FD032, 0xC8DBEEFA0CA7B2C5) == 0x4FC438A51A1782F7
    ensures Add(0x77D93B9DFF60C224, 0x586B7E819437424D) == 0xD044BA1F93980471
    ensures Add(0x69CB2D8FF052B416, 0xEFFB061123BEC9DC) == 0x59C633A114117DF2
    ensures Add(0x5BBD1F80E244A607, 0x7F8295A0B34E596C) == 0xDB3FB5219592FF73
    ensures Add(0x4DAE1072D43697F9, 0x71225303ADDE8FC) == 0x54C035A30F1480F5
    ensures Add(0x3EA00264C62789EB, 0x96A1B4BFCA6D7083) == 0xD541B7249094FA6E
    ensures Add(0x3092F456B7197BDD, 0x26313C4F59F50013) == 0x56C430A6110E7BF0
    ensures Add(0xEEF4B7F77FBD7DEC, 0x3092F456B7197BDD) == 0x1F87AC4E36D6F9C9
    ensures Mul(0xEC1C26BFA96C053C, K) == 0xEEF4B7F77FBD7DEC && Mul(0x417972CCF7923D78, K) == 0x5D26F33771752AD8
    ensures Mul(0x429B66B3BDF74732, K) == 0xE7C827B0BE390F1A && Mul(0x25DA23F9F61E4912, K) == 0x26F681BAE914B67A
    ensures Mul(0x99DA26F12922AD0C, K) == 0xE24DD340252201FC && Mul(0xD6A1E98CF3F17A74, K) == 0xCB7A1019EBA73B84
    ensures Mul(0xA44E4522FC48CAF5, K) == 0x44591FD92A195219 && Mul(0x5663810C6F54FEB8, K) == 0xABD7FFD9368A0518
  {
  }

  lemma Block2Xors()
    ensures Xor(0x3A5E9E9C31E2074B, 0xD642B823988E0277) == 0xEC1C26BFA96C053C
    ensures Xor(0xEBD4A69ED85BF8F, 0x4FC438A51A1782F7) == 0x417972CCF7923D78
    ensures Xor(0x92DFDCAC2E6F4343, 0xD044BA1F93980471) == 0x429B66B3BDF74732
    ensures Xor(0x7C1C1058E20F34E0, 0x59C633A114117DF2) == 0x25DA23F9F61E4912
    ensures Xor(0x42E593D0BCB0527F, 0xDB3FB5219592FF73) == 0x99DA26F12922AD0C
    ensures Xor(0x8261DC2FFCE5FA81, 0x54C035A30F1480F5) == 0xD6A1E98CF3F17A74
    ensures Xor(0x710FF2066CDC309B, 0xD541B7249094FA6E) == 0xA44E4522FC48CAF5
    ensures Xor(0xA7B1AA7E5A8548, 0x56C430A6110E7BF0) == 0x5663810C6F54FEB8
  {
    hide Xor;
    XorIs(0x3A5E9E9C31E2074B, 0xD642B823988E0277);
    XorIs(0xEBD4A69ED85BF8F, 0x4FC438A51A1782F7);
    XorIs(0x92DFDCAC2E6F4343, 0xD044BA1F93980471);
    XorIs(0x7C1C1058E20F34E0, 0x59C633A114117DF2);
    XorIs(0x42E593D0BCB0527F, 0xDB3FB5219592FF73);
    XorIs(0x8261DC2FFCE5FA81, 0x54C035A30F1480F5);
    XorIs(0x710FF2066CDC309B, 0xD541B7249094FA6E);
    XorIs(0xA7B1AA7E5A8548, 0x56C430A6110E7BF0);
  }

  lemma Block2(m: nat)
    requires 24 <= m
    ensures Block(Lanes(0x3A5E9E9C31E2074B, 0xEBD4A69ED85BF8F, 0x92DFDCAC2E6F4343, 0x7C1C1058E20F34E0,
      0x42E593D0BCB0527F, 0x8261DC2FFCE5FA81, 0x710FF2066CDC309B, 0xA7B1AA7E5A8548, 0xA20466C8298BED4F), Pattern(m),
      128) ==
      Lanes(0x1F87AC4E36D6F9C9, 0x5D26F33771752AD8, 0xE7C827B0BE390F1A, 0x26F681BAE914B67A, 0xE24DD340252201FC,
        0xCB7A1019EBA73B84, 0x44591FD92A195219, 0xABD7FFD9368A0518, 0x3092F456B7197BDD)
  {
    hide Xor, Rotl, Add, Mul, Load64, WordAt, Offset, Pattern;
    PatternLoads(m);
    Offsets2();
    Stripes2();
    Block2Turns();
    Block2Sums();
    Block2Xors();
  }

  lemma Stripes3()
    ensures WordAt(192) == 0x2284E547A90B6DCE && WordAt(200) == 0x1475D7399BFD5EC0
    ensures WordAt(208) == 0x567C92B8CEE50B2 && WordAt(216) == 0xF759BB1C7EE042A4
    ensures WordAt(224) == 0xE94BAC0E70D23495 && WordAt(232) == 0xDB3C9E0062C32587
    ensures WordAt(240) == 0xCC2E90F253B51779 && WordAt(248) == 0xBE2082E345A7096B
  {
  }

  lemma Block3Turns()
    ensures Rotl(0x3092F456B7197BDD, 27) == 0xB5B8CBDEE98497A2
    ensures Rotl(0x2284E547A90B6DCE, 27) == 0x3D485B6E7114272A
    ensures Rotl(0x1475D7399BFD5EC0, 27) == 0xCCDFEAF600A3AEB9
    ensures Rotl(0x567C92B8CEE50B2, 27) == 0x5C677285902B3E49
    ensures Rotl(0xF759BB1C7EE042A4, 27) == 0xE3F7021527BACDD8
    ensures Rotl(0xE94BAC0E70D23495, 27) == 0x738691A4AF4A5D60
    ensures Rotl(0xDB3C9E0062C32587, 27) == 0x316192C3ED9E4F0
    ensures Rotl(0xCC2E90F253B51779, 27) == 0x929DA8BBCE617487
  {
    hide Rotl;
    AllRotls();
  }

  lemma Block3Sums()
    ensures Add(0x2284E547A90B6DCE, 0xB5B8CBDEE98497A2) == 0xD83DB12692900570
    ensures Add(0x1475D7399BFD5EC0, 0x3D485B6E7114272A) == 0x51BE32A80D1185EA
    ensures Add(0x567C92B8CEE50B2, 0xCCDFEAF600A3AEB9) == 0xD247B4218D91FF6B
    ensures Add(0xF759BB1C7EE042A4, 0x5C677285902B3E49) == 0x53C12DA20F0B80ED
    ensures Add(0xE94BAC0E70D23495, 0xE3F7021527BACDD8) == 0xCD42AE23988D026D
    ensures Add(0xDB3C9E0062C32587, 0x738691A4AF4A5D60) == 0x4EC32FA5120D82E7
    ensures Add(0xCC2E90F253B51779, 0x316192C3ED9E4F0) == 0xCF44AA1E928EFC69
    ensures Add(0xBE2082E345A7096B, 0x929DA8BBCE617487) == 0x50BE2B9F14087DF2
    ensures Add(0xB0C0DFBDB0B6572D, 0xBE2082E345A7096B) == 0x6EE162A0F65D6098
    ensures Mul(0xC7BA1D68A446FCB9, K) == 0xB0C0DFBDB0B6572D && Mul(0xC98C19F7C64AF32, K) == 0x1870477C6B92971A
    ensures Mul(0x358F939133A8F071, K) == 0x35DD58B5A0FC7545 && Mul(0x7537AC18E61F3697, K) == 0xA81600BBAFA69E63
    ensures Mul(0x2F0F7D63BDAF0391, K) == 0x25405D344BFF86E5 && Mul(0x85B93FBCF9AAB963, K) == 0xEBD2644BE06B291F
    ensures Mul(0x8B1DB5C7B897AE70, K) == 0x1EEB411D994F8F30 && Mul(0xFB69D446228278EA, K) == 0xB9B114510E94332
  {
  }

  lemma Block3Xors()
    ensures Xor(0x1F87AC4E36D6F9C9, 0xD83DB12692900570) == 0xC7BA1D68A446FCB9
    ensures Xor(0x5D26F33771752AD8, 0x51BE32A80D1185EA) == 0xC98C19F7C64AF32
    ensures Xor(0xE7C827B0BE390F1A, 0xD247B4218D91FF6B) == 0x358F939133A8F071
    ensures Xor(0x26F681BAE914B67A, 0x53C12DA20F0B80ED) == 0x7537AC18E61F3697
    ensures Xor(0xE24DD340252201FC, 0xCD42AE23988D026D) == 0x2F0F7D63BDAF0391
    ensures Xor(0xCB7A1019EBA73B84, 0x4EC32FA5120D82E7) == 0x85B93FBCF9AAB963
    ensures Xor(0x44591FD92A195219, 0xCF44AA1E928EFC69) == 0x8B1DB5C7B897AE70
    ensures Xor(0xABD7FFD9368A0518, 0x50BE2B9F14087DF2) == 0xFB69D446228278EA
  {
    hide Xor;
    XorIs(0x1F87AC4E36D6F9C9, 0xD83DB12692900570);
    XorIs(0x5D26F33771752AD8, 0x51BE32A80D1185EA);
    XorIs(0xE7C827B0BE390F1A, 0xD247B4218D91FF6B);
    XorIs(0x26F681BAE914B67A, 0x53C12DA20F0B80ED);
    XorIs(0xE24DD340252201FC, 0xCD42AE23988D026D);
    XorIs(0xCB7A1019EBA73B84, 0x4EC32FA5120D82E7);
    XorIs(0x44591FD92A195219, 0xCF44AA1E928EFC69);
    XorIs(0xABD7FFD9368A0518, 0x50BE2B9F14087DF2);
  }

  lemma Block3(m: nat)
    requires 32 <= m
    ensures Block(Lanes(0x1F87AC4E36D6F9C9, 0x5D26F33771752AD8, 0xE7C827B0BE390F1A, 0x26F681BAE914B67A,
      0xE24DD340252201FC, 0xCB7A1019EBA73B84, 0x44591FD92A195219, 0xABD7FFD9368A0518, 0x3092F456B7197BDD),
      Pattern(m), 192) ==
      Lanes(0x6EE162A0F65D6098, 0x1870477C6B92971A, 0x35DD58B5A0FC7545, 0xA81600BBAFA69E63, 0x25405D344BFF86E5,
        0xEBD2644BE06B291F, 0x1EEB411D994F8F30, 0xB9B114510E94332, 0xBE2082E345A7096B)
  {
    hide Xor, Rotl, Add, Mul, Load64, WordAt, Offset, Pattern;
    PatternLoads(m);
    Offsets3();
    Stripes3();
    Block3Turns();
    Block3Sums();
    Block3Xors();
  }

  lemma Stripes4()
    ensures WordAt(256) == 0xB01273D53799FA5C && WordAt(264) == 0xA10365C7298AEC4E
    ensures WordAt(272) == 0x93F557B91A7CDE40 && WordAt(280) == 0x85E749AA0C6ED031
    ensures WordAt(288) == 0x77D83A9CFE60C123 && WordAt(296) == 0x68CA2C8EF051B315
    ensures WordAt(304) == 0x5ABC1E80E143A507 && WordAt(312) == 0x4CAE0F71D33597F8
  {
  }

  lemma Block4Turns()
    ensures Rotl(0xBE2082E345A7096B, 27) == 0x1A2D384B5DF10417
    ensures Rotl(0xB01273D53799FA5C, 27) == 0xA9BCCFD2E580939E
    ensures Rotl(0xA10365C7298AEC4E, 27) == 0x394C576275081B2E
    ensures Rotl(0x93F557B91A7CDE40, 27) == 0xC8D3E6F2049FAABD
    ensures Rotl(0x85E749AA0C6ED031, 27) == 0x506376818C2F3A4D
    ensures Rotl(0x77D83A9CFE60C123, 27) == 0xE7F306091BBEC1D4
    ensures Rotl(0x68CA2C8EF051B315, 27) == 0x77828D98AB465164
    ensures Rotl(0x5ABC1E80E143A507, 27) == 0x70A1D283AD5E0F4
  {
    hide Rotl;
    AllRotls();
  }

  lemma Block4Sums()
    ensures Add(0xB01273D53799FA5C, 0x1A2D384B5DF10417) == 0xCA3FAC20958AFE73
    ensures Add(0xA10365C7298AEC4E, 0xA9BCCFD2E580939E) == 0x4AC0359A0F0B7FEC
    ensures Add(0x93F557B91A7CDE40, 0x394C576275081B2E) == 0xCD41AF1B8F84F96E
    ensures Add(0x85E749AA0C6ED031, 0xC8D3E6F2049FAABD) == 0x4EBB309C110E7AEE
    ensures Add(0x77D83A9CFE60C123, 0x506376818C2F3A4D) == 0xC83BB11E8A8FFB70
    ensures Add(0x68CA2C8EF051B315, 0xE7F306091BBEC1D4) == 0x50BD32980C1074E9
    ensures Add(0x5ABC1E80E143A507, 0x77828D98AB465164) == 0xD23EAC198C89F66B
    ensures Add(0x4CAE0F71D33597F8, 0x70A1D283AD5E0F4) == 0x53B82C9A0E0B78EC
    ensures Add(0x145DDFE22697DD47, 0x4CAE0F71D33597F8) == 0x610BEF53F9CD753F
    ensures Mul(0xA4DECE8063D79EEB, K) == 0x145DDFE22697DD47 && Mul(0x52B072E66499E8F6, K) == 0x15D214762E93442E
    ensures Mul(0xF89CF7AE2F788C2B, K) == 0x5E59D4BD22365387 && Mul(0xE6AD3027BEA8E48D, K) == 0x2EF9E8B576510B91
    ensures Mul(0xED7BEC2AC1707D95, K) == 0xE28AFBB293207939 && Mul(0xBB6F56D3EC7B5DF6, K) == 0xC22E81FA5ABDDD2E
    ensures Mul(0xCCD5ED0415C6795B, K) == 0xBEACE338255E0877 && Mul(0x58233DDF1EE23BDE, K) == 0x2880C98DBA7136
  {
  }

  lemma Block4Xors()
    ensures Xor(0x6EE162A0F65D6098, 0xCA3FAC20958AFE73) == 0xA4DECE8063D79EEB
    ensures Xor(0x1870477C6B92971A, 0x4AC0359A0F0B7FEC) == 0x52B072E66499E8F6
    ensures Xor(0x35DD58B5A0FC7545, 0xCD41AF1B8F84F96E) == 0xF89CF7AE2F788C2B
    ensures Xor(0xA81600BBAFA69E63, 0x4EBB309C110E7AEE) == 0xE6AD3027BEA8E48D
    ensures Xor(0x25405D344BFF86E5, 0xC83BB11E8A8FFB70) == 0xED7BEC2AC1707D95
    ensures Xor(0xEBD2644BE06B291F, 0x50BD32980C1074E9) == 0xBB6F56D3EC7B5DF6
    ensures Xor(0x1EEB411D994F8F30, 0xD23EAC198C89F66B) == 0xCCD5ED0415C6795B
    ensures Xor(0xB9B114510E94332, 0x53B82C9A0E0B78EC) == 0x58233DDF1EE23BDE
  {
    hide Xor;
    XorIs(0x6EE162A0F65D6098, 0xCA3FAC20958AFE73);
    XorIs(0x1870477C6B92971A, 0x4AC0359A0F0B7FEC);
    XorIs(0x35DD58B5A0FC7545, 0xCD41AF1B8F84F96E);
    XorIs(0xA81600BBAFA69E63, 0x4EBB309C110E7AEE);
    XorIs(0x25405D344BFF86E5, 0xC83BB11E8A8FFB70);
    XorIs(0xEBD2644BE06B291F, 0x50BD32980C1074E9);
    XorIs(0x1EEB411D994F8F30, 0xD23EAC198C89F66B);
    XorIs(0xB9B114510E94332, 0x53B82C9A0E0B78EC);
  }

  lemma Block4(m: nat)
    requires 40 <= m
    ensures Block(Lanes(0x6EE162A0F65D6098, 0x1870477C6B92971A, 0x35DD58B5A0FC7545, 0xA81600BBAFA69E63,
      0x25405D344BFF86E5, 0xEBD2644BE06B291F, 0x1EEB411D994F8F30, 0xB9B114510E94332, 0xBE2082E345A7096B), Pattern(m),
      256) ==
      Lanes(0x610BEF53F9CD753F, 0x15D214762E93442E, 0x5E59D4BD22365387, 0x2EF9E8B576510B91, 0xE28AFBB293207939,
        0xC22E81FA5ABDDD2E, 0xBEACE338255E0877, 0x2880C98DBA7136, 0x4CAE0F71D33597F8)
  {
    hide Xor, Rotl, Add, Mul, Load64, WordAt, Offset, Pattern;
    PatternLoads(m);
    Offsets4();
    Stripes4();
    Block4Turns();
    Block4Sums();
    Block4Xors();
  }

  lemma TailAloneTail()
    ensures WordAt(0) == 0x78DA3C9EFF61C325 && WordAt(8) == 0x6ACC2E8FF153B517
    ensures WordAt(8) == 0x6ACC2E8FF153B517 && WordAt(16) == 0x5CBE1F81E345A608
  {
  }

  lemma TailAloneInjection0()
    ensures Inj(0x78DA3C9EFF61C325) == 0x28839A572FB7E59C
  {
    hide Inj;
    InjIs(0x78DA3C9EFF61C325, 0x93DFEC3864AF1B47, 0xC3864AF1B4793DFE, 0x78DA3C9EFF61C325, 0x93DFEC3864AF1B47,
      0xC3864AF1B4793DFE, 0xEB05D0A69BCED862);
  }

  lemma TailAloneInjection1()
    ensures Inj(0x6ACC2E8FF153B517) == 0x1C582A2CCBE3F370
  {
    hide Inj;
    InjIs(0x6ACC2E8FF153B517, 0xD1FE2A76A2ED5985, 0xA76A2ED5985D1FE2, 0x6ACC2E8FF153B517, 0xD1FE2A76A2ED5985,
      0xA76A2ED5985D1FE2, 0xBB3204F953BEEC92);
  }

  lemma TailAloneInjection2()
    ensures Inj(0x6ACC2E8FF153B517) == 0x1C582A2CCBE3F370
  {
    hide Inj;
    InjIs(0x6ACC2E8FF153B517, 0xD1FE2A76A2ED5985, 0xA76A2ED5985D1FE2, 0x6ACC2E8FF153B517, 0xD1FE2A76A2ED5985,
      0xA76A2ED5985D1FE2, 0xBB3204F953BEEC92);
  }

  lemma TailAloneInjection3()
    ensures Inj(0x5CBE1F81E345A608) == 0x27CE678C5E71320D
  {
    hide Inj;
    InjIs(0x5CBE1F81E345A608, 0xF03C68B4C10B97C3, 0x8B4C10B97C3F03C6, 0x5CBE1F81E345A608, 0xF03C68B4C10B97C3,
      0x8B4C10B97C3F03C6, 0xAC827735224E31CB);
  }

  lemma TailAloneXors()
    ensures Xor(Xor(0x24A31A406AABF62, 0x1E932D83AFB126BA), 0xD5336963EEFBA1F8) == 0xC9EA754447E03820
    ensures Xor(0xB9346D1A49B287ED, 0xB6921B5E5DF4B7AD) == 0xFA6764414463040
    ensures Xor(0xB5B4C6AB409AC756, 0x9E44CA500D3A422A) == 0x2BF00CFB4DA0857C
    ensures Xor(Xor(0x409AC756B5B4C6AB, 0xA0DD633299D41AA0), 0x2B741EA8121E8F3C) == 0xCB33BACC3E7E5337
  {
    hide Xor;
    TwoXorsAre(0x24A31A406AABF62, 0x1E932D83AFB126BA, 0xD5336963EEFBA1F8, 0x1CD91C27A91B99D8);
    XorIs(0xB9346D1A49B287ED, 0xB6921B5E5DF4B7AD);
    XorIs(0xB5B4C6AB409AC756, 0x9E44CA500D3A422A);
    TwoXorsAre(0x409AC756B5B4C6AB, 0xA0DD633299D41AA0, 0x2B741EA8121E8F3C, 0xE047A4642C60DC0B);
  }

  lemma TailAloneDrainTurns()
    ensures Rotl(0x35D0F4996C1D7D89, 13) == 0x1E932D83AFB126BA
    ensures Rotl(0x2EFA5BD6DB490DAF, 33) == 0xB6921B5E5DF4B7AD
  {
    hide Rotl;
    AllRotls();
  }

  lemma TailAloneDrainSums()
    ensures Add(0xDEADBEEFCAFEBABE, 0) == 0xDEADBEEFCAFEBABE
    ensures Add(0xDEADBEEFCAFEBABE, 0x28839A572FB7E59C) == 0x7315946FAB6A05A
    ensures Add(0xC5DD54B90FF68135, 0x1C582A2CCBE3F370) == 0xE2357EE5DBDA74A5
    ensures Add(0xD6D7EB16CFA0E709, 0x1C582A2CCBE3F370) == 0xF33015439B84DA79
    ensures Add(0x5F4A58D63AB5ADA6, 0x27CE678C5E71320D) == 0x8718C0629926DFB3
    ensures Mul(0x7315946FAB6A05A, K) == 0x24A31A406AABF62 && Mul(0xE2357EE5DBDA74A5, K) == 0x35D0F4996C1D7D89
    ensures Mul(0xF33015439B84DA79, K) == 0xB9346D1A49B287ED && Mul(0x8718C0629926DFB3, K) == 0x2EFA5BD6DB490DAF
    ensures Mul(0xC9EA754447E03820, K) == 0xA0DD633299D41AA0 && Mul(0xFA6764414463040, K) == 0x90F479E15BA0F540
  {
  }

  lemma TailAloneDrain(p: Bytes)
    requires |p| == 24 && p == Pattern(3)
    ensures Drain(Quad(0xDEADBEEFCAFEBABE, 0xC5DD54B90FF68135, 0xD6D7EB16CFA0E709, 0x5F4A58D63AB5ADA6, 0), p, 0, 24) ==
      Folds(0xA0DD633299D41AA0, 0x90F479E15BA0F540)
  {
    hide Xor, Rotl, Add, Mul, Inj, Load64, LenMix, WordAt, Offset, Pattern;
    PatternLoads(3);
    RotlZero(27);
    TailAloneDrainTurns();
    TailAloneDrainSums();
    Offsets0();
    TailAloneTail();
    TailAloneInjection0();
    TailAloneInjection1();
    TailAloneInjection2();
    TailAloneInjection3();
    TailAloneXors();
    LenMixIs(24);
  }

  lemma TailAloneMixes()
    ensures LongFmix(0xCB33BACC3E7E5337) == 0xBE8112B0F103E6C5 && Fmix128(0x2BF00CFB4DA0857C) == 0xDC9D251B5F97DD90
  {
    hide LongFmix, Fmix128;
    LongFmixIs(0xCB33BACC3E7E5337, 0x6599DD6, 0xCB33BACC3827CEE1, 0xBE8112B04F82F475, 0xBE8112B0);
    Fmix128Is(0x2BF00CFB4DA0857C, 0xAFC033ED, 0x2BF00CFBE260B691, 0x65714B69066E7E1D, 0xCAE296D2, 0x65714B69CC8CE8CF,
      0xDC9D251B31D94F1D, 0x6E4E928D);
  }

  lemma TailAloneEndTurns()
    ensures Rotl(0x90F479E15BA0F540, 29) == 0x2B741EA8121E8F3C
    ensures Rotl(0x409AC756B5B4C6AB, 32) == 0xB5B4C6AB409AC756
    ensures Rotl(0xA0DD633299D41AA0, 47) == 0xD50506EB1994CEA
  {
    hide Rotl;
    AllRotls();
  }

  lemma TailAloneEndSums()
    ensures Add(0x90F479E15BA0F540, 0xD50506EB1994CEA) == 0x9E44CA500D3A422A
  {
  }

  lemma TailAloneEnds()
    ensures LowWord(0x409AC756B5B4C6AB, Folds(0xA0DD633299D41AA0, 0x90F479E15BA0F540)) == 0xBE8112B0F103E6C5
    ensures HighWord(0x409AC756B5B4C6AB, Folds(0xA0DD633299D41AA0, 0x90F479E15BA0F540)) == 0xDC9D251B5F97DD90
  {
    hide Xor, Rotl, Add, LongFmix, Fmix128;
    TailAloneEndTurns();
    TailAloneEndSums();
    TailAloneXors();
    TailAloneMixes();
  }

  /** 24 bytes: no stripe, both ends of the tail. */
  lemma TailAlone(p: Bytes)
    requires p == Pattern(3)
    ensures Hash128(p, 0xDEADBEEFCAFEBABE) == Digest(0xBE8112B0F103E6C5, 0xDC9D251B5F97DD90)
  {
    hide Xor, Drain, Rounds, Pattern, LanesOfPremix, Walk, LowWord, HighWord, Block, Round, Premix, FoldUpper;
    PatternLoads(3);
    LongHash(p, 0xDEADBEEFCAFEBABE);
    WalkBelow(p, 0xDEADBEEFCAFEBABE);
    FirstLanes();
    RoundsNone(Quad(0xDEADBEEFCAFEBABE, 0xC5DD54B90FF68135, 0xD6D7EB16CFA0E709, 0x5F4A58D63AB5ADA6, 0), p, 0);
    TailAloneDrain(p);
    TailAloneEnds();
    LaneXors();
  }

  lemma FirstRoundTurns()
    ensures Rotl(0x78DA3C9EFF61C325, 27) == 0xF7FB0E192BC6D1E4
    ensures Rotl(0x6ACC2E8FF153B517, 27) == 0x7F8A9DA8BB566174
    ensures Rotl(0x5CBE1F81E345A608, 27) == 0xF1A2D3042E5F0FC
  {
    hide Rotl;
    AllRotls();
  }

  lemma FirstRoundSums()
    ensures Add(0x78DA3C9EFF61C325, 0) == 0x78DA3C9EFF61C325
    ensures Add(0x6ACC2E8FF153B517, 0xF7FB0E192BC6D1E4) == 0x62C73CA91D1A86FB
    ensures Add(0x5CBE1F81E345A608, 0x7F8A9DA8BB566174) == 0xDC48BD2A9E9C077C
    ensures Add(0x4DAF1173D53698FA, 0xF1A2D3042E5F0FC) == 0x5CC93EA4181C89F6
    ensures Mul(0xA6778271359F799B, K) == 0x54564AB2B0CA0DB7 && Mul(0xA71A681012EC07CE, K) == 0x9B1EE47354B06BE6
    ensures Mul(0xA9F563C513CE075, K) == 0xD0CC7ACC13891599 && Mul(0x383667222A92450, K) == 0x572BABDEF496BA90
  {
  }

  lemma FirstRoundXors()
    ensures Xor(0xDEADBEEFCAFEBABE, 0x78DA3C9EFF61C325) == 0xA6778271359F799B
    ensures Xor(0xC5DD54B90FF68135, 0x62C73CA91D1A86FB) == 0xA71A681012EC07CE
    ensures Xor(0xD6D7EB16CFA0E709, 0xDC48BD2A9E9C077C) == 0xA9F563C513CE075
    ensures Xor(0x5F4A58D63AB5ADA6, 0x5CC93EA4181C89F6) == 0x383667222A92450
  {
    hide Xor;
    XorIs(0xDEADBEEFCAFEBABE, 0x78DA3C9EFF61C325);
    XorIs(0xC5DD54B90FF68135, 0x62C73CA91D1A86FB);
    XorIs(0xD6D7EB16CFA0E709, 0xDC48BD2A9E9C077C);
    XorIs(0x5F4A58D63AB5ADA6, 0x5CC93EA4181C89F6);
  }

  lemma FirstRound(m: nat)
    requires 4 <= m
    ensures Round(Quad(0xDEADBEEFCAFEBABE, 0xC5DD54B90FF68135, 0xD6D7EB16CFA0E709, 0x5F4A58D63AB5ADA6, 0),
      Pattern(m), 0) ==
      Quad(0x54564AB2B0CA0DB7, 0x9B1EE47354B06BE6, 0xD0CC7ACC13891599, 0x572BABDEF496BA90, 0x4DAF1173D53698FA)
  {
    hide Xor, Rotl, Add, Mul, Load64, WordAt, Offset, Pattern;
    PatternLoads(m);
    Offsets0();
    Stripes0();
    RotlZero(27);
    FirstRoundTurns();
    FirstRoundSums();
    FirstRoundXors();
  }

  lemma OneRoundTail()
    ensures WordAt(32) == 0x3FA10365C6288AEC && WordAt(40) == 0x3193F556B81A7CDD
  {
  }

  lemma OneRoundInjection2()
    ensures Inj(0x3FA10365C6288AEC) == 0x20C1E0BD9A9B540
  {
    hide Inj;
    InjIs(0x3FA10365C6288AEC, 0x6CB8C5115D87F420, 0x5115D87F4206CB8C, 0x3FA10365C6288AEC, 0x6CB8C5115D87F420,
      0x5115D87F4206CB8C, 0x5319C6749BAF7ECC);
  }

  lemma OneRoundInjection3()
    ensures Inj(0x3193F556B81A7CDD) == 0xAFBD4C7A0456E3D3
  {
    hide Inj;
    InjIs(0x3193F556B81A7CDD, 0xAAD7034F9BA6327E, 0x34F9BA6327EAAD70, 0x3193F556B81A7CDD, 0xAAD7034F9BA6327E,
      0x34F9BA6327EAAD70, 0x9B44F61923BC4EA3);
  }

  lemma OneRoundXors()
    ensures Xor(Xor(0xF2FFFF7A83378642, 0xDC8E6A960D7CD363), 0xAA66D2C7DDF743F0) == 0x8417472B53BC16D1
    ensures Xor(0x71180BBC5925BFCD, 0xD3A7E43F56ED1D5A) == 0xA2BFEF830FC8A297
    ensures Xor(0xB5B4C6AB409AC756, 0x7D53D633B1479AD5) == 0xC8E71098F1DD5D83
    ensures Xor(Xor(0x409AC756B5B4C6AB, 0x7C0E9CD640E51B25), 0x8C5B8F4C7DF82305) == 0xB0CFD4CC88A9FE8B
  {
    hide Xor;
    TwoXorsAre(0xF2FFFF7A83378642, 0xDC8E6A960D7CD363, 0xAA66D2C7DDF743F0, 0x2E7195EC8E4B5521);
    XorIs(0x71180BBC5925BFCD, 0xD3A7E43F56ED1D5A);
    XorIs(0xB5B4C6AB409AC756, 0x7D53D633B1479AD5);
    TwoXorsAre(0x409AC756B5B4C6AB, 0x7C0E9CD640E51B25, 0x8C5B8F4C7DF82305, 0x3C945B80F551DD8E);
  }

  lemma OneRoundDrainTurns()
    ensures Rotl(0x4DAF1173D53698FA, 27) == 0x9EA9B4C7D26D788B
    ensures Rotl(0x9B1EE47354B06BE6, 13) == 0xDC8E6A960D7CD363
    ensures Rotl(0xAB768EAD69D3F21F, 33) == 0xD3A7E43F56ED1D5A
  {
    hide Rotl;
    AllRotls();
  }

  lemma OneRoundDrainSums()
    ensures Add(0x54564AB2B0CA0DB7, 0x9EA9B4C7D26D788B) == 0xF2FFFF7A83378642
    ensures Add(0xD0CC7ACC13891599, 0x20C1E0BD9A9B540) == 0xD2D898D7ED32CAD9
    ensures Add(0x572BABDEF496BA90, 0xAFBD4C7A0456E3D3) == 0x6E8F858F8ED9E63
    ensures Mul(0xD2D898D7ED32CAD9, K) == 0x71180BBC5925BFCD && Mul(0x6E8F858F8ED9E63, K) == 0xAB768EAD69D3F21F
    ensures Mul(0x8417472B53BC16D1, K) == 0x7C0E9CD640E51B25 && Mul(0xA2BFEF830FC8A297, K) == 0xEFC1182C62DC7A63
  {
  }

  lemma OneRoundDrain(p: Bytes)
    requires |p| == 48 && p == Pattern(6)
    ensures Drain(Quad(0x54564AB2B0CA0DB7, 0x9B1EE47354B06BE6, 0xD0CC7ACC13891599, 0x572BABDEF496BA90,
      0x4DAF1173D53698FA), p, 32, 48) ==
      Folds(0x7C0E9CD640E51B25, 0xEFC1182C62DC7A63)
  {
    hide Xor, Rotl, Add, Mul, Inj, Load64, LenMix, WordAt, Offset, Pattern;
    PatternLoads(6);
    OneRoundDrainTurns();
    OneRoundDrainSums();
    Offsets0();
    OneRoundTail();
    OneRoundInjection2();
    OneRoundInjection3();
    OneRoundXors();
    LenMixIs(48);
  }

  lemma OneRoundMixes()
    ensures LongFmix(0xB0CFD4CC88A9FE8B) == 0xF3DECF00052380B1 && Fmix128(0xC8E71098F1DD5D83) == 0xEE62CABEEFA08B54
  {
    hide LongFmix, Fmix128;
    LongFmixIs(0xB0CFD4CC88A9FE8B, 0x5867EA6, 0xB0CFD4CC8D2F802D, 0xF3DECF00F6FD4FB1, 0xF3DECF00);
    Fmix128Is(0xC8E71098F1DD5D83, 0x3239C4263, 0xC8E7109BD2411FE0, 0x52DC8304F0F50660, 0xA5B90609,
      0x52DC8304554C0069, 0xEE62CABE9891EE0B, 0x7731655F);
  }

  lemma OneRoundEndTurns()
    ensures Rotl(0xEFC1182C62DC7A63, 29) == 0x8C5B8F4C7DF82305
    ensures Rotl(0x409AC756B5B4C6AB, 32) == 0xB5B4C6AB409AC756
    ensures Rotl(0x7C0E9CD640E51B25, 47) == 0x8D92BE074E6B2072
  {
    hide Rotl;
    AllRotls();
  }

  lemma OneRoundEndSums()
    ensures Add(0xEFC1182C62DC7A63, 0x8D92BE074E6B2072) == 0x7D53D633B1479AD5
  {
  }

  lemma OneRoundEnds()
    ensures LowWord(0x409AC756B5B4C6AB, Folds(0x7C0E9CD640E51B25, 0xEFC1182C62DC7A63)) == 0xF3DECF00052380B1
    ensures HighWord(0x409AC756B5B4C6AB, Folds(0x7C0E9CD640E51B25, 0xEFC1182C62DC7A63)) == 0xEE62CABEEFA08B54
  {
    hide Xor, Rotl, Add, LongFmix, Fmix128;
    OneRoundEndTurns();
    OneRoundEndSums();
    OneRoundXors();
    OneRoundMixes();
  }

  /** 48 bytes: one round and a tail of 16 bytes, which only the last two loads read. */
  lemma OneRound(p: Bytes)
    requires p == Pattern(6)
    ensures Hash128(p, 0xDEADBEEFCAFEBABE) == Digest(0xF3DECF00052380B1, 0xEE62CABEEFA08B54)
  {
    hide Xor, Drain, Rounds, Pattern, LanesOfPremix, Walk, LowWord, HighWord, Block, Round, Premix, FoldUpper;
    PatternLoads(6);
    LongHash(p, 0xDEADBEEFCAFEBABE);
    WalkBelow(p, 0xDEADBEEFCAFEBABE);
    FirstLanes();
    FirstRound(6);
    RoundsNone(Quad(0xDEADBEEFCAFEBABE, 0xC5DD54B90FF68135, 0xD6D7EB16CFA0E709, 0x5F4A58D63AB5ADA6, 0), p, 0);
    RoundsNext(Quad(0xDEADBEEFCAFEBABE, 0xC5DD54B90FF68135, 0xD6D7EB16CFA0E709, 0x5F4A58D63AB5ADA6, 0), p, 0, 0);
    OneRoundDrain(p);
    OneRoundEnds();
    LaneXors();
  }

  lemma FiveBlocks(p: Bytes, n: nat)
    requires n == |p| == 320 && n % 64 == 0 && p == Pattern(40)
    ensures Blocks(Lanes(0xDEADBEEFCAFEBABE, 0xC5DD54B90FF68135, 0xD6D7EB16CFA0E709, 0x5F4A58D63AB5ADA6,
      0x409AC76A7CA3FDDA, 0x3619A4480C2D4213, 0x5AD6D31AADA0A296, 0x85B1CAA50D63AB5A, 0), p, n) ==
      Lanes(0x610BEF53F9CD753F, 0x15D214762E93442E, 0x5E59D4BD22365387, 0x2EF9E8B576510B91, 0xE28AFBB293207939,
        0xC22E81FA5ABDDD2E, 0xBEACE338255E0877, 0x2880C98DBA7136, 0x4CAE0F71D33597F8)
  {
    hide Block, Blocks, Pattern;
    PatternLoads(40);
    BlocksNone(Lanes(0xDEADBEEFCAFEBABE, 0xC5DD54B90FF68135, 0xD6D7EB16CFA0E709, 0x5F4A58D63AB5ADA6,
      0x409AC76A7CA3FDDA, 0x3619A4480C2D4213, 0x5AD6D31AADA0A296, 0x85B1CAA50D63AB5A, 0), p);
    BlocksNext(Lanes(0xDEADBEEFCAFEBABE, 0xC5DD54B90FF68135, 0xD6D7EB16CFA0E709, 0x5F4A58D63AB5ADA6,
      0x409AC76A7CA3FDDA, 0x3619A4480C2D4213, 0x5AD6D31AADA0A296, 0x85B1CAA50D63AB5A, 0), p, 0);
    Block0(40);
    BlocksNext(Lanes(0xDEADBEEFCAFEBABE, 0xC5DD54B90FF68135, 0xD6D7EB16CFA0E709, 0x5F4A58D63AB5ADA6,
      0x409AC76A7CA3FDDA, 0x3619A4480C2D4213, 0x5AD6D31AADA0A296, 0x85B1CAA50D63AB5A, 0), p, 64);
    Block1(40);
    BlocksNext(Lanes(0xDEADBEEFCAFEBABE, 0xC5DD54B90FF68135, 0xD6D7EB16CFA0E709, 0x5F4A58D63AB5ADA6,
      0x409AC76A7CA3FDDA, 0x3619A4480C2D4213, 0x5AD6D31AADA0A296, 0x85B1CAA50D63AB5A, 0), p, 128);
    Block2(40);
    BlocksNext(Lanes(0xDEADBEEFCAFEBABE, 0xC5DD54B90FF68135, 0xD6D7EB16CFA0E709, 0x5F4A58D63AB5ADA6,
      0x409AC76A7CA3FDDA, 0x3619A4480C2D4213, 0x5AD6D31AADA0A296, 0x85B1CAA50D63AB5A, 0), p, 192);
    Block3(40);
    BlocksNext(Lanes(0xDEADBEEFCAFEBABE, 0xC5DD54B90FF68135, 0xD6D7EB16CFA0E709, 0x5F4A58D63AB5ADA6,
      0x409AC76A7CA3FDDA, 0x3619A4480C2D4213, 0x5AD6D31AADA0A296, 0x85B1CAA50D63AB5A, 0), p, 256);
    Block4(40);
  }

  lemma UpperXors()
    ensures Xor(0x610BEF53F9CD753F, 0x57DD949903C9CF14) == 0x36D67BCAFA04BA2B
    ensures Xor(0x15D214762E93442E, 0xFD2D5EEE9761174) == 0x1A00C198C7E5555A
    ensures Xor(0x5E59D4BD22365387, 0x12AF043BDF56719C) == 0x4CF6D086FD60221B
    ensures Xor(0x2EF9E8B576510B91, 0x389B00144064C6DD) == 0x1662E8A13635CD4C
  {
    hide Xor;
    XorIs(0x610BEF53F9CD753F, 0x57DD949903C9CF14);
    XorIs(0x15D214762E93442E, 0xFD2D5EEE9761174);
    XorIs(0x5E59D4BD22365387, 0x12AF043BDF56719C);
    XorIs(0x2EF9E8B576510B91, 0x389B00144064C6DD);
  }

  lemma UpperTurns()
    ensures Rotl(0xE28AFBB293207939, 11) == 0x57DD949903C9CF14
    ensures Rotl(0xC22E81FA5ABDDD2E, 19) == 0xFD2D5EEE9761174
    ensures Rotl(0xBEACE338255E0877, 31) == 0x12AF043BDF56719C
    ensures Rotl(0x2880C98DBA7136, 47) == 0x389B00144064C6DD
  {
    hide Rotl;
    AllRotls();
  }

  lemma UpperSums()
    ensures Mul(0x36D67BCAFA04BA2B, K) == 0x50E8F28CF1FE1987 && Mul(0x1A00C198C7E5555A, K) == 0xFD92A807CD2B9862
    ensures Mul(0x4CF6D086FD60221B, K) == 0xA45CD5059A35E037 && Mul(0x1662E8A13635CD4C, K) == 0x9587CFCD8DD2A73C
  {
  }

  lemma Folded()
    ensures FoldUpper(Lanes(0x610BEF53F9CD753F, 0x15D214762E93442E, 0x5E59D4BD22365387, 0x2EF9E8B576510B91,
      0xE28AFBB293207939, 0xC22E81FA5ABDDD2E, 0xBEACE338255E0877, 0x2880C98DBA7136, 0x4CAE0F71D33597F8)) ==
      Quad(0x50E8F28CF1FE1987, 0xFD92A807CD2B9862, 0xA45CD5059A35E037, 0x9587CFCD8DD2A73C, 0x4CAE0F71D33597F8)
  {
    hide Xor, Rotl, Mul;
    UpperTurns();
    UpperSums();
    UpperXors();
  }

  lemma BulkXors()
    ensures Xor(Xor(0xDF829F4CB4638A02, 0x5500F9A5730C5FB2), 0xC55827DF1D1B1A40) == 0x4FDA4136DA74CFF0
    ensures Xor(0xA45CD5059A35E037, 0x1BA54E792B0F9F9B) == 0xBFF99B7CB13A7FAC
    ensures Xor(0xB5B4C6AB409AC756, 0x6BAC119BF7B21EF2) == 0xDE18D730B728D9A4
    ensures Xor(Xor(0x409AC756B5B4C6AB, 0x35FBB8ACABAD4EB0), 0xC36B7923988A7ED3) == 0xB60A06D98693F6C8
  {
    hide Xor;
    TwoXorsAre(0xDF829F4CB4638A02, 0x5500F9A5730C5FB2, 0xC55827DF1D1B1A40, 0x8A8266E9C76FD5B0);
    XorIs(0xA45CD5059A35E037, 0x1BA54E792B0F9F9B);
    XorIs(0xB5B4C6AB409AC756, 0x6BAC119BF7B21EF2);
    TwoXorsAre(0x409AC756B5B4C6AB, 0x35FBB8ACABAD4EB0, 0xC36B7923988A7ED3, 0x75617FFA1E19881B);
  }

  lemma BulkDrainTurns()
    ensures Rotl(0x4CAE0F71D33597F8, 27) == 0x8E99ACBFC265707B
    ensures Rotl(0xFD92A807CD2B9862, 13) == 0x5500F9A5730C5FB2
    ensures Rotl(0x9587CFCD8DD2A73C, 33) == 0x1BA54E792B0F9F9B
  {
    hide Rotl;
    AllRotls();
  }

  lemma BulkDrainSums()
    ensures Add(0x50E8F28CF1FE1987, 0x8E99ACBFC265707B) == 0xDF829F4CB4638A02
    ensures Mul(0x4FDA4136DA74CFF0, K) == 0x35FBB8ACABAD4EB0 && Mul(0xBFF99B7CB13A7FAC, K) == 0xC453F69E1B5BC91C
  {
  }

  lemma BulkDrain(p: Bytes)
    requires |p| == 320 && p == Pattern(40)
    ensures Drain(Quad(0x50E8F28CF1FE1987, 0xFD92A807CD2B9862, 0xA45CD5059A35E037, 0x9587CFCD8DD2A73C,
      0x4CAE0F71D33597F8), p, 320, 320) ==
      Folds(0x35FBB8ACABAD4EB0, 0xC453F69E1B5BC91C)
  {
    hide Xor, Rotl, Add, Mul, Inj, Load64, LenMix, WordAt, Offset, Pattern;
    BulkDrainTurns();
    BulkDrainSums();
    BulkXors();
    LenMixIs(320);
  }

  lemma BulkMixes()
    ensures LongFmix(0xB60A06D98693F6C8) == 0xF0563F11BE6D85C7 && Fmix128(0xDE18D730B728D9A4) == 0x63C926A1F75FDED0
  {
    hide LongFmix, Fmix128;
    LongFmixIs(0xB60A06D98693F6C8, 0x5B05036, 0xB60A06D98323A6FE, 0xF0563F114E3BBAD6, 0xF0563F11);
    Fmix128Is(0xDE18D730B728D9A4, 0x378635CC2, 0xDE18D733CF4B8566, 0x62952B17054B9AAE, 0xC52A562E,
      0x62952B17C061CC80, 0x63C926A1C6BB4D80, 0x31E49350);
  }

  lemma BulkEndTurns()
    ensures Rotl(0xC453F69E1B5BC91C, 29) == 0xC36B7923988A7ED3
    ensures Rotl(0x409AC756B5B4C6AB, 32) == 0xB5B4C6AB409AC756
    ensures Rotl(0x35FBB8ACABAD4EB0, 47) == 0xA7581AFDDC5655D6
  {
    hide Rotl;
    AllRotls();
  }

  lemma BulkEndSums()
    ensures Add(0xC453F69E1B5BC91C, 0xA7581AFDDC5655D6) == 0x6BAC119BF7B21EF2
  {
  }

  lemma BulkEnds()
    ensures LowWord(0x409AC756B5B4C6AB, Folds(0x35FBB8ACABAD4EB0, 0xC453F69E1B5BC91C)) == 0xF0563F11BE6D85C7
    ensures HighWord(0x409AC756B5B4C6AB, Folds(0x35FBB8ACABAD4EB0, 0xC453F69E1B5BC91C)) == 0x63C926A1F75FDED0
  {
    hide Xor, Rotl, Add, LongFmix, Fmix128;
    BulkEndTurns();
    BulkEndSums();
    BulkXors();
    BulkMixes();
  }

  /** 320 bytes: five blocks, and nothing left for a round or a tail. */
  lemma Bulk(p: Bytes)
    requires p == Pattern(40)
    ensures Hash128(p, 0xDEADBEEFCAFEBABE) == Digest(0xF0563F11BE6D85C7, 0x63C926A1F75FDED0)
  {
    hide Xor, Drain, Rounds, Pattern, LanesOfPremix, Walk, LowWord, HighWord, Block, Round, Premix, FoldUpper;
    PatternLoads(40);
    LongHash(p, 0xDEADBEEFCAFEBABE);
    WalkFrom(p, 0xDEADBEEFCAFEBABE);
    FirstLanes();
    FiveBlocks(p, 320);
    Folded();
    RoundsNone(Quad(0x50E8F28CF1FE1987, 0xFD92A807CD2B9862, 0xA45CD5059A35E037, 0x9587CFCD8DD2A73C,
      0x4CAE0F71D33597F8), p, 320);
    BulkDrain(p);
    BulkEnds();
    LaneXors();
  }
}
