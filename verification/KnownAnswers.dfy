// Known answers of the repository, proved of the reference: messages of at most 16 bytes.
module KnownAnswers {
  import opened Words
  import opened Machine
  import opened Reference
  import opened ClosedForms

  lemma ConstantShifts()
    ensures Shr(K, 19) == 0x13C6EF372FE9
  {
    hide Shr;
    ShrsAre(K);
  }

  lemma LenMixIs(n: nat)
    requires n < 0x1_0000
    ensures LenMix(n) == n * 0x9E37_79B9_7F4A_7C15 % 0x1_0000_0000_0000_0000
  {
  }

  /** The short path from its parts. */
  lemma ShortAnswer(p: Bytes, seed: Word, s: Word, x: Word, y: Word, u: Word)
    requires |p| <= 16 && s == Premix(seed) && x == ShortX(ShortA(p), s) && y == ShortY(ShortB(p), s)
    requires u == ShortU(x, y, LenMix(|p|))
    ensures Hash128(p, seed) == Digest(Fmix(u), ShortHigh(x, u))
  {
    hide Xor, Mul, Fmix, ShortX, ShortY, ShortU, ShortHigh, ShortA, ShortB, Premix, LenMix;
  }

  lemma EmptyXors()
    ensures Premix(0) == 0x9E3779B97F4A7C15
    ensures Inj(0) == 0 && Xor(Xor(0, 0x9E3779B97F4A7C15), K) == 0
    ensures Inj2(0) == 0 && Xor(Xor(0, 0xDCBFA53E0ACF1BBC), 0x13C6EF372FE9) == 0xDCBFB6F8E5F83455
    ensures Xor(Xor(0, 0x85904226F20658F), 0) == 0x85904226F20658F
  {
    hide Xor, Inj, Inj2;
    XorIs(0, 0x9E3779B97F4A7C15);
    InjIs(0, 0, 0, 0, 0, 0, 0);
    TwoXorsAre(0, 0x9E3779B97F4A7C15, 0x9E3779B97F4A7C15, 0x9E3779B97F4A7C15);
    Inj2Is(0, 0, 0, 0, 0, 0, 0);
    TwoXorsAre(0, 0xDCBFA53E0ACF1BBC, 0x13C6EF372FE9, 0xDCBFA53E0ACF1BBC);
    TwoXorsAre(0, 0x85904226F20658F, 0, 0x85904226F20658F);
  }

  lemma EmptyEnds()
    ensures Fmix(0x85904226F20658F) == 0x68AC507CF298CA3F && Fmix128(0x6F20658F08590422) == 0xACE2141F6BA30868
  {
    hide Fmix, Fmix128;
    FmixIs(0x85904226F20658F, 0x10B20844D, 0x85904236400E1C2, 0xEB509B62E8571DE6, 0x75A84DB1, 0xEB509B629DFF5057,
      0x68AC5071E712C403, 0xD158A0E3C);
    Fmix128Is(0x6F20658F08590422, 0x1BC81963C, 0x6F20658EB4D8921E, 0x958D228D8B4B6A06, 0x12B1A451B,
      0x958D228CA0512F1D, 0xACE2141F3DD20267, 0x56710A0F);
  }

  lemma EmptyTurns()
    ensures Rotl(0x9E3779B97F4A7C15, 23) == 0xDCBFA53E0ACF1BBC
    ensures Rotl(0x85904226F20658F, 32) == 0x6F20658F08590422
  {
    hide Rotl;
    AllRotls();
  }

  lemma EmptySums()
    ensures Add(0, 0x6F20658F08590422) == 0x6F20658F08590422 && Mul(0, K) == 0
    ensures Mul(0xDCBFB6F8E5F83455, M1) == 0x85904226F20658F
  {
  }

  lemma EmptyWords()
    ensures ShortX(0, 0x9E3779B97F4A7C15) == 0 && ShortY(0, 0x9E3779B97F4A7C15) == 0x85904226F20658F
    ensures ShortU(0, 0x85904226F20658F, 0) == 0x85904226F20658F
    ensures ShortHigh(0, 0x85904226F20658F) == 0xACE2141F6BA30868
  {
    hide Xor, Rotl, Shr, Inj, Inj2, Fmix128, Mul, Add;
    RotlZero(27);
    EmptyTurns();
    EmptySums();
    ConstantShifts();
    EmptyXors();
    EmptyEnds();
  }

  lemma EmptyLoads()
    ensures ShortA([]) == 0 && ShortB([]) == 0
  {
    hide Load64, Load32, Pair;
    var p: Bytes := [];
  }

  /** The empty message. */
  lemma Empty()
    ensures Hash128([], 0) == Digest(0x68AC507CF298CA3F, 0xACE2141F6BA30868)
  {
    hide Xor, Mul, Inj, Inj2, Rotl, Fmix, Fmix128, ShortX, ShortY, ShortU, ShortHigh, ShortA, ShortB, Shr, Add,
      Premix, LenMix, Hash128;
    EmptyLoads();
    LenMixIs(0);
    EmptyXors();
    EmptyWords();
    EmptyEnds();
    ShortAnswer([], 0, 0x9E3779B97F4A7C15, 0, 0x85904226F20658F, 0x85904226F20658F);
  }

  lemma ThreeBytesXors()
    ensures Premix(0xDEADBEEFCAFEBABE) == 0x409AC756B5B4C6AB
    ensures Inj(0x25) == 0x4A0004A00025 && Xor(Xor(0x4A0004A00025, 0x409AC756B5B4C6AB), K) == 0xDEADF4EFCE5EBA9B
    ensures Inj2(0x61C300) == 0xC0000030E79C287
    ensures Xor(Xor(0xC0000030E79C287, 0xAB5ADA6355A04D63), 0x13C6EF372FE9) == 0xA75AC9A6B4EEA00D
    ensures Xor(Xor(0xCD2FB315BFAC8814, 0xF7A961EFE6A22237), 0xDAA66D2C7DDF743F) == 0xE020BFD624D1DE1C
  {
    hide Xor, Inj, Inj2;
    XorIs(0xDEADBEEFCAFEBABE, 0x9E3779B97F4A7C15);
    InjIs(0x25, 0x4A00000, 0x4A0000000000, 0x25, 0x4A00000, 0x4A0000000000, 0x4A00025);
    TwoXorsAre(0x4A0004A00025, 0x409AC756B5B4C6AB, 0x9E3779B97F4A7C15, 0x409A8D56B114C68E);
    Inj2Is(0x61C300, 0x30E180000, 0xC00000000000187, 0x61C300, 0x30E180000, 0xC00000000000187, 0x30E79C300);
    TwoXorsAre(0xC0000030E79C287, 0xAB5ADA6355A04D63, 0x13C6EF372FE9, 0xA75ADA605BD98FE4);
    TwoXorsAre(0xCD2FB315BFAC8814, 0xF7A961EFE6A22237, 0xDAA66D2C7DDF743F, 0x3A86D2FA590EAA23);
  }

  lemma ThreeBytesEnds()
    ensures Fmix(0xE020BFD624D1DE1C) == 0xDCC0CB335DC1DE4B && Fmix128(0x1A62E0B68617228D) == 0xC51357A09E6BDD3D
  {
    hide Fmix, Fmix128;
    FmixIs(0xE020BFD624D1DE1C, 0x1C0417FAC4, 0xE020BFCA20C624D8, 0x86AE2CDFCF578208, 0x4357166F, 0x86AE2CDF8C009467,
      0xDCC0CB28C5D8BB53, 0x1B98196518);
    Fmix128Is(0x1A62E0B68617228D, 0x698B82DA, 0x1A62E0B6EF9CA057, 0xDF50AF0A4FFEF9AB, 0x1BEA15E14,
      0xDF50AF0BF15FA7BF, 0xC51357A0FCE276ED, 0x6289ABD0);
  }

  lemma ThreeBytesTurns()
    ensures Rotl(0x409AC756B5B4C6AB, 23) == 0xAB5ADA6355A04D63
    ensures Rotl(0xF5910299A5F662B7, 27) == 0xCD2FB315BFAC8814
    ensures Rotl(0xE020BFD624D1DE1C, 32) == 0x24D1DE1CE020BFD6
  {
    hide Rotl;
    AllRotls();
  }

  lemma ThreeBytesSums()
    ensures Add(0xF5910299A5F662B7, 0x24D1DE1CE020BFD6) == 0x1A62E0B68617228D
    ensures Mul(0xDEADF4EFCE5EBA9B, K) == 0xF5910299A5F662B7
    ensures Mul(0xA75AC9A6B4EEA00D, M1) == 0xF7A961EFE6A22237
  {
  }

  lemma ThreeBytesWords()
    ensures ShortX(0x25, 0x409AC756B5B4C6AB) == 0xF5910299A5F662B7
    ensures ShortY(0x61C300, 0x409AC756B5B4C6AB) == 0xF7A961EFE6A22237
    ensures ShortU(0xF5910299A5F662B7, 0xF7A961EFE6A22237, 0xDAA66D2C7DDF743F) == 0xE020BFD624D1DE1C
    ensures ShortHigh(0xF5910299A5F662B7, 0xE020BFD624D1DE1C) == 0xC51357A09E6BDD3D
  {
    hide Xor, Rotl, Shr, Inj, Inj2, Fmix128, Mul, Add;
    ThreeBytesTurns();
    ThreeBytesSums();
    ConstantShifts();
    ThreeBytesXors();
    ThreeBytesEnds();
  }

  lemma ThreeBytesLoads()
    ensures ShortA([0x25, 0xC3, 0x61]) == 0x25 && ShortB([0x25, 0xC3, 0x61]) == 0x61C300
  {
    hide Load64, Load32, Pair;
    var p: Bytes := [0x25, 0xC3, 0x61];
    PairIs(0xC3, 0x61);
  }

  /** One to three bytes. */
  lemma ThreeBytes()
    ensures Hash128([0x25, 0xC3, 0x61], 0xDEADBEEFCAFEBABE) == Digest(0xDCC0CB335DC1DE4B, 0xC51357A09E6BDD3D)
  {
    hide Xor, Mul, Inj, Inj2, Rotl, Fmix, Fmix128, ShortX, ShortY, ShortU, ShortHigh, ShortA, ShortB, Shr, Add,
      Premix, LenMix, Hash128;
    ThreeBytesLoads();
    LenMixIs(3);
    ThreeBytesXors();
    ThreeBytesWords();
    ThreeBytesEnds();
    ShortAnswer([0x25, 0xC3, 0x61], 0xDEADBEEFCAFEBABE, 0x409AC756B5B4C6AB, 0xF5910299A5F662B7, 0xF7A961EFE6A22237,
      0xE020BFD624D1DE1C);
  }

  lemma FourBytesXors()
    ensures Premix(0) == 0x9E3779B97F4A7C15
    ensures Inj(0xFF61C325) == 0xC399A6389BC1C2DB
    ensures Xor(Xor(0xC399A6389BC1C2DB, 0x9E3779B97F4A7C15), K) == 0xC399A6389BC1C2DB
    ensures Inj2(0xFF61C325) == 0xC9407FBF17B16A2
    ensures Xor(Xor(0xC9407FBF17B16A2, 0xDCBFA53E0ACF1BBC), 0x13C6EF372FE9) == 0xD02BB103148322F7
    ensures Xor(Xor(0x34CCA87FBE276438, 0xEB18E96F2D80F015), 0x78DDE6E5FD29F054) == 0xA709A7F56E8E6479
  {
    hide Xor, Inj, Inj2;
    XorIs(0, 0x9E3779B97F4A7C15);
    InjIs(0xFF61C325, 0x1FEC3864A00000, 0xC3864A00000001FE, 0xFF61C325, 0x1FEC3864A00000, 0xC3864A00000001FE,
      0x1FEC389BC1C325);
    TwoXorsAre(0xC399A6389BC1C2DB, 0x9E3779B97F4A7C15, 0x9E3779B97F4A7C15, 0x5DAEDF81E48BBECE);
    Inj2Is(0xFF61C325, 0x7FB0E192800, 0xC9400000003FD87, 0xFF61C325, 0x7FB0E192800, 0xC9400000003FD87, 0x7FBF178EB25);
    TwoXorsAre(0xC9407FBF17B16A2, 0xDCBFA53E0ACF1BBC, 0x13C6EF372FE9, 0xD02BA2C5FBB40D1E);
    TwoXorsAre(0x34CCA87FBE276438, 0xEB18E96F2D80F015, 0x78DDE6E5FD29F054, 0xDFD4411093A7942D);
  }

  lemma FourBytesEnds()
    ensures Fmix(0xA709A7F56E8E6479) == 0x3FF33333AEEA0226 && Fmix128(0x337AEB80409EB7EC) == 0xFB1361E3305035B6
  {
    hide Fmix, Fmix128;
    FmixIs(0xA709A7F56E8E6479, 0x14E134FEAD, 0xA709A7E18FBA9AD4, 0xA7357B80DFDEEABC, 0x539ABDC0, 0xA7357B808C44577C,
      0x3FF33334508C64AC, 0x7FE66668A);
    Fmix128Is(0x337AEB80409EB7EC, 0xCDEBAE01, 0x337AEB808D7519ED, 0xC7EC0D3A55A45EC9, 0x18FD81A74,
      0xC7EC0D3BDA7C44BD, 0xFB1361E34DD98547, 0x7D89B0F1);
  }

  lemma FourBytesTurns()
    ensures Rotl(0x9E3779B97F4A7C15, 23) == 0xDCBFA53E0ACF1BBC
    ensures Rotl(0xC4EC870699950FF7, 27) == 0x34CCA87FBE276438
    ensures Rotl(0xA709A7F56E8E6479, 32) == 0x6E8E6479A709A7F5
  {
    hide Rotl;
    AllRotls();
  }

  lemma FourBytesSums()
    ensures Add(0xC4EC870699950FF7, 0x6E8E6479A709A7F5) == 0x337AEB80409EB7EC
    ensures Mul(0xC399A6389BC1C2DB, K) == 0xC4EC870699950FF7
    ensures Mul(0xD02BB103148322F7, M1) == 0xEB18E96F2D80F015
  {
  }

  lemma FourBytesWords()
    ensures ShortX(0xFF61C325, 0x9E3779B97F4A7C15) == 0xC4EC870699950FF7
    ensures ShortY(0xFF61C325, 0x9E3779B97F4A7C15) == 0xEB18E96F2D80F015
    ensures ShortU(0xC4EC870699950FF7, 0xEB18E96F2D80F015, 0x78DDE6E5FD29F054) == 0xA709A7F56E8E6479
    ensures ShortHigh(0xC4EC870699950FF7, 0xA709A7F56E8E6479) == 0xFB1361E3305035B6
  {
    hide Xor, Rotl, Shr, Inj, Inj2, Fmix128, Mul, Add;
    FourBytesTurns();
    FourBytesSums();
    ConstantShifts();
    FourBytesXors();
    FourBytesEnds();
  }

  lemma FourBytesLoads()
    ensures ShortA([0x25, 0xC3, 0x61, 0xFF]) == 0xFF61C325 && ShortB([0x25, 0xC3, 0x61, 0xFF]) == 0xFF61C325
  {
    hide Load64, Load32, Pair;
    var p: Bytes := [0x25, 0xC3, 0x61, 0xFF];
    LoadIsSum(p, 0);
    LoadIsSum(p, 0);
  }

  /** Four bytes, the last of them above 0x7F. */
  lemma FourBytes()
    ensures Hash128([0x25, 0xC3, 0x61, 0xFF], 0) == Digest(0x3FF33333AEEA0226, 0xFB1361E3305035B6)
  {
    hide Xor, Mul, Inj, Inj2, Rotl, Fmix, Fmix128, ShortX, ShortY, ShortU, ShortHigh, ShortA, ShortB, Shr, Add,
      Premix, LenMix, Hash128;
    FourBytesLoads();
    LenMixIs(4);
    FourBytesXors();
    FourBytesWords();
    FourBytesEnds();
    ShortAnswer([0x25, 0xC3, 0x61, 0xFF], 0, 0x9E3779B97F4A7C15, 0xC4EC870699950FF7, 0xEB18E96F2D80F015,
      0xA709A7F56E8E6479);
  }

  lemma HelloWorldXors()
    ensures Premix(0) == 0x9E3779B97F4A7C15
    ensures Inj(0x6F77206F6C6C6568) == 0xBA507D3D2F215554
    ensures Xor(Xor(0xBA507D3D2F215554, 0x9E3779B97F4A7C15), K) == 0xBA507D3D2F215554
    ensures Inj2(0x646C726F77206F6C) == 0xBA4E9867BDE6D0CE
    ensures Xor(Xor(0xBA4E9867BDE6D0CE, 0xDCBFA53E0ACF1BBC), 0x13C6EF372FE9) == 0x66F12E9F581EE49B
    ensures Xor(Xor(0x22CAC57F2686637C, 0x48C1670FB2A75041), 0xCC623AF8783354E7) == 0xA6699888EC1267DA
  {
    hide Xor, Inj, Inj2;
    XorIs(0, 0x9E3779B97F4A7C15);
    InjIs(0x6F77206F6C6C6568, 0xDED8D8CAD0DEEE4, 0xD8CAD0DEEE40DED8, 0x6F77206F6C6C6568, 0xDED8D8CAD0DEEE4,
      0xD8CAD0DEEE40DED8, 0x629AADE3C1618B8C);
    TwoXorsAre(0xBA507D3D2F215554, 0x9E3779B97F4A7C15, 0x9E3779B97F4A7C15, 0x24670484506B2941);
    Inj2Is(0x646C726F77206F6C, 0x63937BB9037B6323, 0xBDB191B1C9BDDC81, 0x646C726F77206F6C, 0x63937BB9037B6323,
      0xBDB191B1C9BDDC81, 0x7FF09D6745B0C4F);
    TwoXorsAre(0xBA4E9867BDE6D0CE, 0xDCBFA53E0ACF1BBC, 0x13C6EF372FE9, 0x66F13D59B729CB72);
    TwoXorsAre(0x22CAC57F2686637C, 0x48C1670FB2A75041, 0xCC623AF8783354E7, 0x6A0BA2709421333D);
  }

  lemma HelloWorldEnds()
    ensures Fmix(0xA6699888EC1267DA) == 0x4524B96611BFC05A && Fmix128(0xBCDED75EFFC2486C) == 0x41D8671459F6EEF8
  {
    hide Fmix, Fmix128;
    FmixIs(0xA6699888EC1267DA, 0x14CD33111D, 0xA669989C212176C7, 0x848D48B3711BFC85, 0x4246A459, 0x848D48B3335D58DC,
      0x4524B96EB528ED8C, 0x8A4972DD6);
    Fmix128Is(0xBCDED75EFFC2486C, 0x2F37B5D7B, 0xBCDED75C0CB91517, 0x9FB2CCF6B361776B, 0x13F6599ED,
      0x9FB2CCF78C04EE86, 0x41D86714791ADD72, 0x20EC338A);
  }

  lemma HelloWorldTurns()
    ensures Rotl(0x9E3779B97F4A7C15, 23) == 0xDCBFA53E0ACF1BBC
    ensures Rotl(0xD0CC6F845958AFE4, 27) == 0x22CAC57F2686637C
    ensures Rotl(0xA6699888EC1267DA, 32) == 0xEC1267DAA6699888
  {
    hide Rotl;
    AllRotls();
  }

  lemma HelloWorldSums()
    ensures Add(0xD0CC6F845958AFE4, 0xEC1267DAA6699888) == 0xBCDED75EFFC2486C
    ensures Mul(0xBA507D3D2F215554, K) == 0xD0CC6F845958AFE4
    ensures Mul(0x66F12E9F581EE49B, M1) == 0x48C1670FB2A75041
  {
  }

  lemma HelloWorldWords()
    ensures ShortX(0x6F77206F6C6C6568, 0x9E3779B97F4A7C15) == 0xD0CC6F845958AFE4
    ensures ShortY(0x646C726F77206F6C, 0x9E3779B97F4A7C15) == 0x48C1670FB2A75041
    ensures ShortU(0xD0CC6F845958AFE4, 0x48C1670FB2A75041, 0xCC623AF8783354E7) == 0xA6699888EC1267DA
    ensures ShortHigh(0xD0CC6F845958AFE4, 0xA6699888EC1267DA) == 0x41D8671459F6EEF8
  {
    hide Xor, Rotl, Shr, Inj, Inj2, Fmix128, Mul, Add;
    HelloWorldTurns();
    HelloWorldSums();
    ConstantShifts();
    HelloWorldXors();
    HelloWorldEnds();
  }

  lemma HelloWorldLoads()
    ensures ShortA([0x68, 0x65, 0x6C, 0x6C, 0x6F, 0x20, 0x77, 0x6F, 0x72, 0x6C, 0x64]) == 0x6F77206F6C6C6568
    ensures ShortB([0x68, 0x65, 0x6C, 0x6C, 0x6F, 0x20, 0x77, 0x6F, 0x72, 0x6C, 0x64]) == 0x646C726F77206F6C
  {
    hide Load64, Load32, Pair;
    var p: Bytes := [0x68, 0x65, 0x6C, 0x6C, 0x6F, 0x20, 0x77, 0x6F, 0x72, 0x6C, 0x64];
    LoadIsSum(p, 0);
    LoadIsSum(p, 4);
    LoadIsSum(p, 3);
    LoadIsSum(p, 7);
  }

  /** hello world. */
  lemma HelloWorld()
    ensures Hash128([0x68, 0x65, 0x6C, 0x6C, 0x6F, 0x20, 0x77, 0x6F, 0x72, 0x6C, 0x64], 0) ==
      Digest(0x4524B96611BFC05A, 0x41D8671459F6EEF8)
  {
    hide Xor, Mul, Inj, Inj2, Rotl, Fmix, Fmix128, ShortX, ShortY, ShortU, ShortHigh, ShortA, ShortB, Shr, Add,
      Premix, LenMix, Hash128;
    HelloWorldLoads();
    LenMixIs(11);
    HelloWorldXors();
    HelloWorldWords();
    HelloWorldEnds();
    ShortAnswer([0x68, 0x65, 0x6C, 0x6C, 0x6F, 0x20, 0x77, 0x6F, 0x72, 0x6C, 0x64], 0, 0x9E3779B97F4A7C15,
      0xD0CC6F845958AFE4, 0x48C1670FB2A75041, 0xA6699888EC1267DA);
  }
}
