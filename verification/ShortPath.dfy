// Messages of at most 16 bytes: the 128-bit digest loses nothing. For a fixed length it
// determines the message from the seed and the seed from the message, by explicit inverses.
module ShortPath {
  import opened Words
  import opened Bijections
  import opened Reference
  import opened Finalizers

  /** The n message bytes behind the loaded words a and b: the overlap is taken from a. */
  function Unload(n: nat, a: Word, b: Word): Bytes
    requires n <= 16
  {
    if n >= 8 then BytesOf(a) + BytesOf(b)[16 - n..]
    else if n >= 4 then BytesOf(a)[..4] + BytesOf(b)[8 - n..4]
    else if n > 0 then BytesOf(a)[..1] + BytesOf(b)[4 - n..3]
    else []
  }

  /** The overlapping loads cover every byte. */
  lemma UnloadLoaded(p: Bytes)
    requires |p| <= 16
    ensures Unload(|p|, ShortA(p), ShortB(p)) == p
  {
    hide ShortA, ShortB, Unload;
    if |p| >= 8 {
      UnloadEight(p);
    } else if |p| >= 4 {
      UnloadFour(p);
    } else {
      UnloadSmall(p);
    }
  }

  lemma UnloadEight(p: Bytes)
    requires 8 <= |p| <= 16
    ensures Unload(|p|, ShortA(p), ShortB(p)) == p
  {
    hide BytesOf, Load64;
    LoadBytes(p, 0);
    LoadBytes(p, |p| - 8);
    assert p[|p| - 8..|p|][16 - |p|..] == p[8..];
    assert p == p[0..8] + p[8..];
  }

  lemma UnloadFour(p: Bytes)
    requires 4 <= |p| < 8
    ensures Unload(|p|, ShortA(p), ShortB(p)) == p
  {
    hide BytesOf, Load32;
    Load32Bytes(p, 0);
    Load32Bytes(p, |p| - 4);
    var t := BytesOf(Load32(p, |p| - 4));
    assert t[8 - |p|..4] == t[..4][8 - |p|..];
    assert p == p[0..4] + p[4..];
  }

  lemma UnloadSmall(p: Bytes)
    requires |p| < 4
    ensures Unload(|p|, ShortA(p), ShortB(p)) == p
  {
    hide BytesOf, Pair;
    if |p| > 0 {
      SmallBytes(p[0], p[|p| / 2], p[|p| - 1]);
    }
  }

  lemma SmallBytes(x: Byte, y: Byte, z: Byte)
    ensures BytesOf(x)[0] == x
    ensures BytesOf(Pair(y, z))[1] == y && BytesOf(Pair(y, z))[2] == z
  {
    PairIsSum(y, z);
    ThreeDigits(x, 0, 0);
    ThreeDigits(0, y, z);
  }

  lemma ThreeDigits(x: Byte, y: Byte, z: Byte)
    ensures var n := x + 256 * y + 65536 * z;
      Digits(n, 8)[0] == x && Digits(n, 8)[1] == y && Digits(n, 8)[2] == z
  {
    var n := x + 256 * y + 65536 * z;
    assert n % 256 == x && n / 256 == y + 256 * z;
    assert Digits(n, 8)[1] == Digits(n / 256, 7)[0];
    assert Digits(n, 8)[2] == Digits(n / 256 / 256, 6)[0];
  }

  // ---- (x, y) from the digest, (a, b) from (x, y) -------------------------------------

  function DigestU(d: Digest): Word { UnFmix(d.lo) }

  function DigestX(d: Digest): Word { Sub(UnFmix128(d.hi), Rotl(DigestU(d), 32)) }

  function DigestY(d: Digest, lenmix: Word): Word { Xor(Xor(DigestU(d), lenmix), Rotl(DigestX(d), 27)) }

  function UnShortX(x: Word, s: Word): Word { UnInj(Xor(Xor(Mul(x, KINV), K), s)) }

  function UnShortY(y: Word, s: Word): Word { UnInj2(Xor(Xor(Mul(y, M1INV), Shr(K, 19)), Rotl(s, 23))) }

  lemma ShortXInverse(a: Word, s: Word)
    ensures UnShortX(ShortX(a, s), s) == a && ShortX(UnShortX(a, s), s) == a
  {
    InverseConstants();
    hide Mul, Xor, Inj, UnInj, Inverse;
    MulInverse(Xor(Xor(Inj(a), s), K), K, KINV);
    XorCancel(Xor(Inj(a), s), K);
    XorCancel(Inj(a), s);
    InjInverse(a);
    var t := Xor(Xor(Mul(a, KINV), K), s);
    InjInverse(t);
    XorCancel(Xor(Mul(a, KINV), K), s);
    XorCancel(Mul(a, KINV), K);
    MulInverse(a, K, KINV);
  }

  lemma ShortYInverse(b: Word, s: Word)
    ensures UnShortY(ShortY(b, s), s) == b && ShortY(UnShortY(b, s), s) == b
  {
    InverseConstants();
    hide Mul, Xor, Rotl, Inj2, UnInj2, Inverse;
    var r, c := Rotl(s, 23), Shr(K, 19);
    MulInverse(Xor(Xor(Inj2(b), r), c), M1, M1INV);
    XorCancel(Xor(Inj2(b), r), c);
    XorCancel(Inj2(b), r);
    InjInverse(b);
    InjInverse(Xor(Xor(Mul(b, M1INV), c), r));
    XorCancel(Xor(Mul(b, M1INV), c), r);
    XorCancel(Mul(b, M1INV), c);
    MulInverse(b, M1, M1INV);
  }

  /** The pair of output words as a function of the pair (x, y). */
  function Extract(x: Word, y: Word, lenmix: Word): Digest {
    var u := ShortU(x, y, lenmix);
    Digest(Fmix(u), ShortHigh(x, u))
  }

  lemma ExtractInverse(x: Word, y: Word, lenmix: Word)
    ensures var d := Extract(x, y, lenmix); DigestX(d) == x && DigestY(d, lenmix) == y
  {
    hide Xor, Rotl, Add, Sub, Fmix, UnFmix, Fmix128, UnFmix128;
    var u := ShortU(x, y, lenmix);
    FmixInverse(u);
    Fmix128Inverse(Add(x, Rotl(u, 32)));
    AddSub(x, Rotl(u, 32));
    XorCancel(Xor(Rotl(x, 27), y), lenmix);
    XorComm(Rotl(x, 27), y);
    XorCancel(y, Rotl(x, 27));
  }

  lemma ExtractOnto(d: Digest, lenmix: Word)
    ensures Extract(DigestX(d), DigestY(d, lenmix), lenmix) == d
  {
    hide Xor, Rotl, Add, Sub, Fmix, UnFmix, Fmix128, UnFmix128;
    var x, y, u := DigestX(d), DigestY(d, lenmix), DigestU(d);
    XorComm(Rotl(x, 27), y);
    XorCancel(Xor(u, lenmix), Rotl(x, 27));
    XorCancel(u, lenmix);
    FmixInverse(d.lo);
    AddSub(UnFmix128(d.hi), Rotl(u, 32));
    Fmix128Inverse(d.hi);
  }

  lemma HashIsExtract(p: Bytes, seed: Word)
    requires |p| <= 16
    ensures Hash128(p, seed) ==
      Extract(ShortX(ShortA(p), Premix(seed)), ShortY(ShortB(p), Premix(seed)), LenMix(|p|))
  {
    hide ShortA, ShortB, ShortX, ShortY, ShortU, ShortHigh, LenMix, Fmix, Premix;
  }

  // ---- The three theorems ------------------------------------------------------------

  /** The n-byte message with digest d under a seed. */
  function UnHash(d: Digest, n: nat, seed: Word): Bytes
    requires n <= 16
  {
    var s := Premix(seed);
    Unload(n, UnShortX(DigestX(d), s), UnShortY(DigestY(d, LenMix(n)), s))
  }

  /** The digest determines the message, for each length and seed. */
  lemma MessageFromDigest(p: Bytes, seed: Word)
    requires |p| <= 16
    ensures UnHash(Hash128(p, seed), |p|, seed) == p
  {
    hide ShortA, ShortB, ShortX, ShortY, UnShortX, UnShortY, Extract, DigestX, DigestY, LenMix, Premix, Unload, Hash128;
    var s := Premix(seed);
    HashIsExtract(p, seed);
    ExtractInverse(ShortX(ShortA(p), s), ShortY(ShortB(p), s), LenMix(|p|));
    ShortXInverse(ShortA(p), s);
    ShortYInverse(ShortB(p), s);
    UnloadLoaded(p);
  }

  lemma UnloadSixteen(a: Word, b: Word)
    ensures var p := Unload(16, a, b); |p| == 16 && ShortA(p) == a && ShortB(p) == b
  {
    hide BytesOf, Load64;
    LoadPrefix(BytesOf(a), BytesOf(b), 0);
    LoadSuffix(BytesOf(a), BytesOf(b), 0);
    BytesLoad(a);
    BytesLoad(b);
  }

  /** At 16 bytes the hash is a permutation of the 128-bit space: every digest is taken, by UnHash's message. */
  lemma PermutationAtSixteen(d: Digest, seed: Word)
    ensures |UnHash(d, 16, seed)| == 16
    ensures Hash128(UnHash(d, 16, seed), seed) == d
  {
    hide ShortX, ShortY, UnShortX, UnShortY, Extract, DigestX, DigestY, LenMix, Premix, Unload, ShortA, ShortB, Hash128;
    var s := Premix(seed);
    UnloadSixteen(UnShortX(DigestX(d), s), UnShortY(DigestY(d, LenMix(16)), s));
    HashIsExtract(UnHash(d, 16, seed), seed);
    ShortXInverse(DigestX(d), s);
    ShortYInverse(DigestY(d, LenMix(16)), s);
    ExtractOnto(d, LenMix(16));
  }

  /** The seed under which message p has digest d. */
  function SeedOf(d: Digest, p: Bytes): Word
    requires |p| <= 16
  {
    Xor(Xor(Xor(Mul(DigestX(d), KINV), K), Inj(ShortA(p))), K)
  }

  /** The digest determines the seed, for each message. */
  lemma SeedFromDigest(p: Bytes, seed: Word)
    requires |p| <= 16
    ensures SeedOf(Hash128(p, seed), p) == seed
  {
    InverseConstants();
    hide ShortA, ShortB, ShortY, Extract, DigestX, DigestY, LenMix, Hash128, Mul, Xor, Inj, Inverse;
    var s, i := Premix(seed), Inj(ShortA(p));
    HashIsExtract(p, seed);
    ExtractInverse(ShortX(ShortA(p), s), ShortY(ShortB(p), s), LenMix(|p|));
    MulInverse(Xor(Xor(i, s), K), K, KINV);
    XorCancel(Xor(i, s), K);
    XorComm(i, s);
    XorCancel(s, i);
    XorCancel(seed, K);
  }
}
