// The BigInt helpers of the pure engine. A Word here is a masked BigInt: every operand of an
// xor or a rotation has that type, while sums that feed a mask may be any natural number.
module BigInts {
  import opened Powers
  import opened Words
  import opened Rotations
  import opened Reference

  /** `seed & MASK64` for a BigInt of any sign and size. */
  function SeedMask(seed: int): Word { seed % TWO_64 }

  /** The masked seed is the one word that differs from the seed by whole multiples of 2^64. */
  lemma SeedMaskIs(seed: int, k: int)
    requires 0 <= seed - k * 0x1_0000_0000_0000_0000 < 0x1_0000_0000_0000_0000
    ensures SeedMask(seed) == seed - k * 0x1_0000_0000_0000_0000
  {
  }

  /** ((x << n) & MASK64) | (x >> (64n - n)) */
  function JsRotl(x: Word, n: nat): (r: Word)
    requires n <= 64
    ensures r == Rotl(x, n)
  {
    hide Rotate, Rotl;
    RotlShifts(x, n);
    Rotate(x, n)
  }

  /** x >> n */
  function JsShr(x: Word, n: nat): (r: Word)
    ensures r == Shr(x, n)
  {
    ShrDivides(x, n);
    x / Pow2(n)
  }

  /** (x + y) & MASK64 */
  function JsSum(x: nat, y: nat): (r: Word)
    ensures r == Add(Wrap(x), Wrap(y))
  {
    hide Wrap;
    WrapTerm(x, y);
    WrapTerm(y, Wrap(x));
    Wrap(x + y)
  }

  /** (x * c) & MASK64, with x possibly an unmasked sum */
  function JsMul(x: nat, c: Word): (r: Word)
    ensures r == Mul(Wrap(x), c)
  {
    hide Wrap;
    WrapFactor(x, c);
    Wrap(x * c)
  }

  lemma Masked(x: Word)
    ensures Wrap(x) == x
  {
  }

  function JsInj(w: Word): (r: Word)
    ensures r == Inj(w)
  {
    hide Xor, Rotl;
    Xor(Xor(w, JsRotl(w, 21)), JsRotl(w, 41))
  }

  function JsInj2(w: Word): (r: Word)
    ensures r == Inj2(w)
  {
    hide Xor, Rotl;
    Xor(Xor(w, JsRotl(w, 11)), JsRotl(w, 50))
  }

  /** x ^ (x >> n), then a masked product. */
  function JsStage(x: Word, n: nat, c: Word): (r: Word)
    ensures r == Mul(Xor(x, Shr(x, n)), c)
  {
    hide Wrap, Xor, Shr, Mul;
    Masked(Xor(x, JsShr(x, n)));
    JsMul(Xor(x, JsShr(x, n)), c)
  }

  function JsFmix(x: Word): (r: Word)
    ensures r == Fmix(x)
  {
    hide Xor, Shr, Mul;
    var x := JsStage(JsStage(x, 27, M1), 33, M2);
    Xor(x, JsShr(x, 27))
  }

  function JsFmix128(x: Word): (r: Word)
    ensures r == Fmix128(x)
  {
    hide Xor, Shr, Mul;
    var x := JsStage(JsStage(x, 30, N1), 31, N2);
    Xor(x, JsShr(x, 33))
  }

  function JsFmixLong(x: Word): (r: Word)
    ensures r == LongFmix(x)
  {
    hide Xor, Shr, Mul;
    var x := JsStage(x, 37, K);
    Xor(x, JsShr(x, 32))
  }

  /** ((h ^ ((w + rotl(wp, 27n)) & MASK64)) * K) & MASK64 */
  function JsAbsorb(h: Word, wp: Word, w: Word): (r: Word)
    ensures r == Absorb(h, wp, w)
  {
    hide Wrap, Xor, Rotl, Mul, Add;
    Masked(w);
    Masked(Rotl(wp, 27));
    Masked(Xor(h, Add(w, Rotl(wp, 27))));
    JsMul(Xor(h, JsSum(w, JsRotl(wp, 27))), K)
  }

  /** ((h + inj(w)) * K) & MASK64, the sum unmasked */
  function JsAbsorbTail(h: Word, w: Word): (r: Word)
    ensures r == AbsorbTail(h, w)
  {
    hide Wrap, Inj, Mul;
    JsMul(h + JsInj(w), K)
  }

  /** ((h ^ rotl(g, n)) * K) & MASK64 */
  function JsMerge(h: Word, g: Word, n: nat): (r: Word)
    requires n <= 64
    ensures r == Mul(Xor(h, Rotl(g, n)), K)
  {
    hide Wrap, Xor, Rotl, Mul;
    Masked(Xor(h, Rotl(g, n)));
    JsMul(Xor(h, JsRotl(g, n)), K)
  }
}
