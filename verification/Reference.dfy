// The digest as a function of the seed and the bytes, in one shape: the state walk of
// design.md. Every spelling of the hash in the repository is proved against this one.
module Reference {
  import opened Powers
  import opened Words
  import opened Rotations

  type Bytes = seq<Byte>

  const BULK_MIN := 320

  /** The eight bulk lanes and the previous stripe. */
  datatype Lanes = Lanes(h0: Word, h1: Word, h2: Word, h3: Word, h4: Word, h5: Word, h6: Word, h7: Word, wp: Word)

  /** The four mid lanes and the previous stripe. */
  datatype Quad = Quad(h0: Word, h1: Word, h2: Word, h3: Word, wp: Word)

  /** The two words every long path folds its lanes into. */
  datatype Folds = Folds(t0: Word, t1: Word)

  datatype Digest = Digest(lo: Word, hi: Word)

  // ---- Single-word mixers -----------------------------------------------------------

  function Inj(w: Word): Word { Xor(Xor(w, Rotl(w, 21)), Rotl(w, 41)) }

  function Inj2(w: Word): Word { Xor(Xor(w, Rotl(w, 11)), Rotl(w, 50)) }

  function Fmix(x: Word): Word {
    var x := Mul(Xor(x, Shr(x, 27)), M1);
    var x := Mul(Xor(x, Shr(x, 33)), M2);
    Xor(x, Shr(x, 27))
  }

  function Fmix128(x: Word): Word {
    var x := Mul(Xor(x, Shr(x, 30)), N1);
    var x := Mul(Xor(x, Shr(x, 31)), N2);
    Xor(x, Shr(x, 33))
  }

  function LongFmix(x: Word): Word {
    var x := Mul(Xor(x, Shr(x, 37)), K);
    Xor(x, Shr(x, 32))
  }

  function Premix(seed: Word): Word { Xor(seed, K) }

  function LenMix(n: nat): Word { Mul(Wrap(n), K) }

  // ---- At most 16 bytes -------------------------------------------------------------

  /** The middle and the last byte of a short message, one and two bytes up. */
  function Pair(y: Byte, z: Byte): Word {
    PairIsSum(y, z);
    BitOr(Shl(y, 8), Shl(z, 16))
  }

  /** The pair is the sum of its bytes, each at its place. */
  lemma PairIs(y: Byte, z: Byte)
    ensures Pair(y, z) == 0x100 * y as nat + 0x1_0000 * z as nat
  {
    PairIsSum(y, z);
  }

  lemma PairIsSum(y: Byte, z: Byte)
    ensures BitOr(Shl(y, 8), Shl(z, 16)) == 256 * y + 65536 * z
  {
    ShlByte(y);
    ShlByte(z);
    hide Shl, BitOr, Pow2;
    BitOrComm(256 * y, 65536 * z);
    BitOrDisjoint(z, 256 * y, 16);
  }

  lemma ShlByte(x: Byte)
    ensures Shl(x, 8) == 256 * x && Shl(x, 16) == 65536 * x
    ensures Pow2(16) == 65536
  {
    assert Pow2(8) == 256;
    assert Pow2(16) == 65536;
  }

  function ShortA(p: Bytes): Word
    requires |p| <= 16
  {
    if |p| >= 8 then Load64(p, 0)
    else if |p| >= 4 then Load32(p, 0)
    else if |p| > 0 then p[0]
    else 0
  }

  function ShortB(p: Bytes): Word
    requires |p| <= 16
  {
    if |p| >= 8 then Load64(p, |p| - 8)
    else if |p| >= 4 then Load32(p, |p| - 4)
    else if |p| > 0 then Pair(p[|p| / 2], p[|p| - 1])
    else 0
  }

  function ShortX(a: Word, s: Word): Word { Mul(Xor(Xor(Inj(a), s), K), K) }

  function ShortY(b: Word, s: Word): Word { Mul(Xor(Xor(Inj2(b), Rotl(s, 23)), Shr(K, 19)), M1) }

  function ShortU(x: Word, y: Word, lenmix: Word): Word { Xor(Xor(Rotl(x, 27), y), lenmix) }

  function ShortHigh(x: Word, u: Word): Word { Fmix128(Add(x, Rotl(u, 32))) }

  // ---- Lanes, blocks and rounds -----------------------------------------------------

  /** The lane initial values for the premixed seed s. */
  function LanesOfPremix(s: Word): Lanes {
    Lanes(Xor(s, K),
          Add(Rotl(s, 17), Shl(K, 21)),
          Xor(Rotl(s, 34), Shr(K, 13)),
          Add(Rotl(s, 51), Shl(K, 42)),
          Add(s, Shr(K, 27)),
          Xor(Rotl(s, 13), Shl(K, 9)),
          Add(Rotl(s, 26), Shr(K, 40)),
          Xor(Rotl(s, 39), Shl(K, 30)),
          0)
  }

  function InitLanes(seed: Word): Lanes { LanesOfPremix(Premix(seed)) }

  /** One lane absorbs stripe w after stripe wp. */
  function Absorb(h: Word, wp: Word, w: Word): Word { Mul(Xor(h, Add(w, Rotl(wp, 27))), K) }

  /** One 64-byte block at offset o, with the checkpoint into lane 0. */
  function Block(st: Lanes, p: Bytes, o: nat): Lanes
    requires o + 64 <= |p|
  {
    var w0, w1, w2, w3 := Load64(p, o), Load64(p, o + 8), Load64(p, o + 16), Load64(p, o + 24);
    var w4, w5, w6, w7 := Load64(p, o + 32), Load64(p, o + 40), Load64(p, o + 48), Load64(p, o + 56);
    Lanes(Add(Absorb(st.h0, st.wp, w0), w7), Absorb(st.h1, w0, w1), Absorb(st.h2, w1, w2), Absorb(st.h3, w2, w3),
          Absorb(st.h4, w3, w4), Absorb(st.h5, w4, w5), Absorb(st.h6, w5, w6), Absorb(st.h7, w6, w7), w7)
  }

  /** The blocks of the first n bytes. */
  function Blocks(st: Lanes, p: Bytes, n: nat): Lanes
    requires n <= |p| && n % 64 == 0
  {
    if n == 0 then st else Block(Blocks(st, p, n - 64), p, n - 64)
  }

  function FoldUpper(st: Lanes): Quad {
    Quad(Mul(Xor(st.h0, Rotl(st.h4, 11)), K), Mul(Xor(st.h1, Rotl(st.h5, 19)), K),
         Mul(Xor(st.h2, Rotl(st.h6, 31)), K), Mul(Xor(st.h3, Rotl(st.h7, 47)), K), st.wp)
  }

  /** One 32-byte round at offset o. */
  function Round(q: Quad, p: Bytes, o: nat): Quad
    requires o + 32 <= |p|
  {
    var w0, w1, w2, w3 := Load64(p, o), Load64(p, o + 8), Load64(p, o + 16), Load64(p, o + 24);
    Quad(Absorb(q.h0, q.wp, w0), Absorb(q.h1, w0, w1), Absorb(q.h2, w1, w2), Absorb(q.h3, w2, w3), w3)
  }

  /** The rounds of the n bytes from offset b on. */
  function Rounds(q: Quad, p: Bytes, b: nat, n: nat): Quad
    requires b + n <= |p| && n % 32 == 0
  {
    if n == 0 then q else Round(Rounds(q, p, b, n - 32), p, b + n - 32)
  }

  // ---- Wall, tail and folds ---------------------------------------------------------

  function Wall(q: Quad): Quad { q.(h0 := Add(q.h0, Rotl(q.wp, 27))) }

  function AbsorbTail(h: Word, w: Word): Word { Mul(Add(h, Inj(w)), K) }

  /** The up to 31 bytes from offset o on; the last two words reach back over absorbed bytes. */
  function Tail(q: Quad, p: Bytes, o: nat): Quad
    requires 16 <= |p| && o <= |p|
  {
    var q := if |p| - o > 16
      then q.(h0 := AbsorbTail(q.h0, Load64(p, o)), h1 := AbsorbTail(q.h1, Load64(p, o + 8))) else q;
    if |p| - o > 0
    then q.(h2 := AbsorbTail(q.h2, Load64(p, |p| - 16)), h3 := AbsorbTail(q.h3, Load64(p, |p| - 8))) else q
  }

  function FoldLow(h0: Word, h1: Word, lenmix: Word): Word { Mul(Xor(Xor(h0, Rotl(h1, 13)), lenmix), K) }

  function FoldHigh(h2: Word, h3: Word): Word { Mul(Xor(h2, Rotl(h3, 33)), K) }

  function MixFolds(q: Quad, lenmix: Word): Folds {
    Folds(FoldLow(q.h0, q.h1, lenmix), FoldHigh(q.h2, q.h3))
  }

  /** Wall, tail and folds for a message of n bytes of which those before o are absorbed. */
  function Drain(q: Quad, p: Bytes, o: nat, n: nat): Folds
    requires 16 <= |p| && o <= |p|
  {
    MixFolds(Tail(Wall(q), p, o), LenMix(n))
  }

  /** The four-lane path over p from offset b on, for a message of n bytes. */
  function Finish(q: Quad, p: Bytes, b: nat, n: nat): Folds
    requires 16 <= |p| && b <= |p|
  {
    var r := (|p| - b) / 32 * 32;
    Drain(Rounds(q, p, b, r), p, b + r, n)
  }

  /** The long path over the bytes p that are still to be absorbed out of n. */
  function Continue(st: Lanes, p: Bytes, n: nat): Folds
    requires 16 <= |p|
  {
    var b := |p| / 64 * 64;
    Finish(FoldUpper(Blocks(st, p, b)), p, b, n)
  }

  /** The lanes that enter the four-lane path, and the offset it starts from. */
  function Entry(p: Bytes, s: Word): (Quad, nat) {
    hide LanesOfPremix, Block, FoldUpper;
    var st := LanesOfPremix(s);
    if |p| >= BULK_MIN then
      var b := |p| / 64 * 64;
      (FoldUpper(Blocks(st, p, b)), b)
    else
      (Quad(st.h0, st.h1, st.h2, st.h3, 0), 0)
  }

  function Walk(p: Bytes, seed: Word): Folds
    requires |p| > 16
  {
    hide LanesOfPremix, Block, FoldUpper, Finish;
    var (q, b) := Entry(p, Premix(seed));
    Finish(q, p, b, |p|)
  }

  function LowWord(s: Word, f: Folds): Word { LongFmix(Xor(Xor(s, f.t0), Rotl(f.t1, 29))) }

  function HighWord(s: Word, f: Folds): Word { Fmix128(Xor(Rotl(s, 32), Add(f.t1, Rotl(f.t0, 47)))) }

  // ---- The two widths ---------------------------------------------------------------

  function Hash64(p: Bytes, seed: Word): Word {
    var s := Premix(seed);
    if |p| <= 16 then
      Fmix(ShortU(ShortX(ShortA(p), s), ShortY(ShortB(p), s), LenMix(|p|)))
    else
      LowWord(s, Walk(p, seed))
  }

  function Hash128(p: Bytes, seed: Word): (d: Digest)
    ensures d.lo == Hash64(p, seed)
  {
    hide Mul, Xor, Rotl, Load64, Load32, Fmix, Fmix128, LongFmix, ShortA, ShortB, ShortX, ShortY, ShortU, Walk, LenMix;
    var s := Premix(seed);
    if |p| <= 16 then
      var x := ShortX(ShortA(p), s);
      var u := ShortU(x, ShortY(ShortB(p), s), LenMix(|p|));
      Digest(Fmix(u), ShortHigh(x, u))
    else
      var f := Walk(p, seed);
      Digest(LowWord(s, f), HighWord(s, f))
  }

  /** Below 320 bytes the walk is the four-lane path from the first byte on. */
  lemma WalkBelow(p: Bytes, seed: Word)
    requires 16 < |p| < 320
    ensures var st := LanesOfPremix(Premix(seed));
      Walk(p, seed) == Finish(Quad(st.h0, st.h1, st.h2, st.h3, 0), p, 0, |p|)
  {
    hide LanesOfPremix, Premix, Finish;
  }

  /** From 320 bytes on it starts with the eight-lane path. */
  lemma WalkFrom(p: Bytes, seed: Word)
    requires |p| >= 320
    ensures Walk(p, seed) == Continue(LanesOfPremix(Premix(seed)), p, |p|)
  {
    hide LanesOfPremix, Premix, Finish, Blocks, FoldUpper;
  }

  /** Above 16 bytes both widths are extracted from the folds of the walk. */
  lemma LongHash(p: Bytes, seed: Word)
    requires |p| > 16
    ensures Hash64(p, seed) == LowWord(Premix(seed), Walk(p, seed))
    ensures Hash128(p, seed) == Digest(LowWord(Premix(seed), Walk(p, seed)), HighWord(Premix(seed), Walk(p, seed)))
  {
    hide Walk, LowWord, HighWord;
  }

  // ---- One step further --------------------------------------------------------------

  lemma BlocksNext(st: Lanes, p: Bytes, o: nat)
    requires o % 64 == 0 && o + 64 <= |p|
    ensures Blocks(st, p, 0) == st
    ensures Blocks(st, p, o + 64) == Block(Blocks(st, p, o), p, o)
  {
    hide Block;
  }

  lemma RoundsNext(q: Quad, p: Bytes, b: nat, n: nat)
    requires n % 32 == 0 && b + n + 32 <= |p|
    ensures Rounds(q, p, b, 0) == q
    ensures Rounds(q, p, b, n + 32) == Round(Rounds(q, p, b, n), p, b + n)
  {
    hide Round;
  }

  lemma RoundsNone(q: Quad, p: Bytes, b: nat)
    requires b <= |p|
    ensures Rounds(q, p, b, 0) == q
  {
  }

  lemma BlocksNone(st: Lanes, p: Bytes)
    ensures Blocks(st, p, 0) == st
  {
  }

  // ---- Where the bytes lie does not matter --------------------------------------------

  /** A load depends on its eight bytes only. */
  lemma LoadSame(p: Bytes, q: Bytes, i: nat, j: nat)
    requires i + 8 <= |p| && j + 8 <= |q|
    requires forall k :: i <= k < i + 8 ==> p[k] == q[k - i + j]
    ensures Load64(p, i) == Load64(q, j)
  {
    SameNumber(p, q, i, j, 8);
  }

  lemma {:induction false} SameNumber(p: Bytes, q: Bytes, i: nat, j: nat, n: nat)
    requires i + n <= |p| && j + n <= |q|
    requires forall k :: i <= k < i + n ==> p[k] == q[k - i + j]
    ensures LittleEndian(p, i, n) == LittleEndian(q, j, n)
    decreases n
  {
    if n > 0 { SameNumber(p, q, i + 1, j + 1, n - 1); }
  }

  lemma LoadPrefix(a: Bytes, b: Bytes, i: nat)
    requires i + 8 <= |a|
    ensures Load64(a + b, i) == Load64(a, i)
  {
    hide Load64;
    LoadSame(a + b, a, i, i);
  }

  lemma LoadSuffix(a: Bytes, b: Bytes, i: nat)
    requires i + 8 <= |b|
    ensures Load64(a + b, |a| + i) == Load64(b, i)
  {
    hide Load64;
    LoadSame(a + b, b, |a| + i, i);
  }

  lemma BlockPrefix(st: Lanes, a: Bytes, b: Bytes, o: nat)
    requires o + 64 <= |a|
    ensures Block(st, a + b, o) == Block(st, a, o)
  {
    hide Load64, Absorb, Add;
    forall i | 0 <= i < 8 ensures Load64(a + b, o + 8 * i) == Load64(a, o + 8 * i) { LoadPrefix(a, b, o + 8 * i); }
    BlockLoads(st, a + b, o, a, o);
  }

  lemma BlockSuffix(st: Lanes, a: Bytes, b: Bytes, o: nat)
    requires o + 64 <= |b|
    ensures Block(st, a + b, |a| + o) == Block(st, b, o)
  {
    hide Load64, Absorb, Add;
    forall i | 0 <= i < 8 ensures Load64(a + b, |a| + o + 8 * i) == Load64(b, o + 8 * i) { LoadSuffix(a, b, o + 8 * i); }
    BlockLoads(st, a + b, |a| + o, b, o);
  }

  lemma BlockLoads(st: Lanes, p: Bytes, i: nat, q: Bytes, j: nat)
    requires i + 64 <= |p| && j + 64 <= |q|
    requires forall k :: 0 <= k < 8 ==> Load64(p, i + 8 * k) == Load64(q, j + 8 * k)
    ensures Block(st, p, i) == Block(st, q, j)
  {
    hide Load64, Absorb, Add;
    assert Load64(p, i + 8 * 0) == Load64(q, j + 8 * 0);
    assert Load64(p, i + 8 * 1) == Load64(q, j + 8 * 1);
    assert Load64(p, i + 8 * 2) == Load64(q, j + 8 * 2);
    assert Load64(p, i + 8 * 3) == Load64(q, j + 8 * 3);
    assert Load64(p, i + 8 * 4) == Load64(q, j + 8 * 4);
    assert Load64(p, i + 8 * 5) == Load64(q, j + 8 * 5);
    assert Load64(p, i + 8 * 6) == Load64(q, j + 8 * 6);
    assert Load64(p, i + 8 * 7) == Load64(q, j + 8 * 7);
  }

  lemma {:induction false} BlocksPrefix(st: Lanes, a: Bytes, b: Bytes, n: nat)
    requires n <= |a| && n % 64 == 0
    ensures Blocks(st, a + b, n) == Blocks(st, a, n)
  {
    hide Block;
    if n > 0 {
      BlocksPrefix(st, a, b, n - 64);
      BlockPrefix(Blocks(st, a, n - 64), a, b, n - 64);
    }
  }

  /** Absorbing a then b is absorbing a + b. */
  lemma {:induction false} BlocksSplit(st: Lanes, a: Bytes, b: Bytes, n: nat)
    requires |a| % 64 == 0 && n <= |b| && n % 64 == 0
    ensures Blocks(st, a + b, |a| + n) == Blocks(Blocks(st, a, |a|), b, n)
  {
    hide Block;
    if n == 0 {
      BlocksPrefix(st, a, b, |a|);
    } else {
      BlocksSplit(st, a, b, n - 64);
      BlockSuffix(Blocks(Blocks(st, a, |a|), b, n - 64), a, b, n - 64);
    }
  }

  lemma RoundLoads(q: Quad, p: Bytes, i: nat, r: Bytes, j: nat)
    requires i + 32 <= |p| && j + 32 <= |r|
    requires forall k :: 0 <= k < 4 ==> Load64(p, i + 8 * k) == Load64(r, j + 8 * k)
    ensures Round(q, p, i) == Round(q, r, j)
  {
    hide Load64, Absorb;
    assert Load64(p, i + 8 * 0) == Load64(r, j + 8 * 0);
    assert Load64(p, i + 8 * 1) == Load64(r, j + 8 * 1);
    assert Load64(p, i + 8 * 2) == Load64(r, j + 8 * 2);
    assert Load64(p, i + 8 * 3) == Load64(r, j + 8 * 3);
  }

  lemma RoundSuffix(q: Quad, a: Bytes, b: Bytes, o: nat)
    requires o + 32 <= |b|
    ensures Round(q, a + b, |a| + o) == Round(q, b, o)
  {
    hide Load64, Round;
    forall i | 0 <= i < 4 ensures Load64(a + b, |a| + o + 8 * i) == Load64(b, o + 8 * i) { LoadSuffix(a, b, o + 8 * i); }
    RoundLoads(q, a + b, |a| + o, b, o);
  }

  lemma {:induction false} RoundsSuffix(q: Quad, a: Bytes, p: Bytes, b: nat, n: nat)
    requires b + n <= |p| && n % 32 == 0
    ensures Rounds(q, a + p, |a| + b, n) == Rounds(q, p, b, n)
  {
    hide Round, Rounds;
    if n == 0 {
      RoundsNone(q, a + p, |a| + b);
      RoundsNone(q, p, b);
    } else {
      var o := n - 32;
      RoundsNext(q, a + p, |a| + b, o);
      RoundsNext(q, p, b, o);
      RoundsSuffix(q, a, p, b, o);
      RoundSuffix(Rounds(q, p, b, o), a, p, b + o);
    }
  }

  lemma DrainSuffix(q: Quad, a: Bytes, b: Bytes, o: nat, n: nat)
    requires 16 <= |b| && o <= |b|
    ensures Drain(q, a + b, |a| + o, n) == Drain(q, b, o, n)
  {
    hide Load64, AbsorbTail, Wall, MixFolds, LenMix;
    if |b| - o > 16 {
      LoadSuffix(a, b, o);
      LoadSuffix(a, b, o + 8);
    }
    LoadSuffix(a, b, |b| - 16);
    LoadSuffix(a, b, |b| - 8);
  }

  /** The long path may absorb whole blocks first and forget them, as long as 16 bytes remain. */
  lemma ContinueSplit(st: Lanes, a: Bytes, p: Bytes, n: nat)
    requires |a| % 64 == 0 && 16 <= |p|
    ensures Continue(st, a + p, n) == Continue(Blocks(st, a, |a|), p, n)
  {
    hide Block, FoldUpper, Round, Drain;
    var b := |p| / 64 * 64;
    assert |a + p| / 64 * 64 == |a| + b;
    BlocksSplit(st, a, p, b);
    var q := FoldUpper(Blocks(st, a + p, |a| + b));
    var r := (|p| - b) / 32 * 32;
    RoundsSuffix(q, a, p, b, r);
    DrainSuffix(Rounds(q, p, b, r), a, p, b + r, n);
  }
}
