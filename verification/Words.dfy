// The 64-bit words every hayahash path computes with: natural numbers below 2^64, and the
// handful of operations the hash is built from, with the laws they obey. Machine relates
// them to the operations on 64-bit vectors.
module Words {
  import opened Powers

  type Byte = b: nat | b < 0x100
  type Word = w: nat | w < 0x1_0000_0000_0000_0000

  /** The one multiplier of the long path: 2^64 over the golden ratio. */
  const K: Word := 0x9E37_79B9_7F4A_7C15
  /** The moremur finalizer constants; M1 is also the second multiplier of the short path. */
  const M1: Word := 0x3C79_AC49_2BA7_B653
  const M2: Word := 0x1C69_B3F7_4AC4_AE35
  /** The MurmurHash3 finalizer constants of the high word. */
  const N1: Word := 0xFF51_AFD7_ED55_8CCD
  const N2: Word := 0xC4CE_B9FE_1A85_EC53

  /** K is 2^64 over the golden ratio, rounded down: the positive root of x^2 + 2^64 x = 2^128. */
  lemma MultiplierIsGolden()
    ensures K * K + K * TWO_64 < TWO_64 * TWO_64 < (K + 1) * (K + 1) + (K + 1) * TWO_64
  {
  }

  /** What a 64-bit register keeps of n. */
  function Wrap(n: nat): Word { n % TWO_64 }

  /** Bitwise xor of two numbers of any size. */
  function BitXor(x: nat, y: nat): nat {
    if x == 0 && y == 0 then 0 else 2 * BitXor(x / 2, y / 2) + (if x % 2 == y % 2 then 0 else 1)
  }

  lemma {:induction false} BitXorBound(x: nat, y: nat, k: nat)
    requires x < Pow2(k) && y < Pow2(k)
    ensures BitXor(x, y) < Pow2(k)
  {
    if k > 0 { BitXorBound(x / 2, y / 2, k - 1); }
  }

  function Xor(a: Word, b: Word): Word {
    Pow2Values();
    BitXorBound(a, b, 64);
    BitXor(a, b)
  }

  function Add(a: Word, b: Word): Word { Wrap(a + b) }

  function Sub(a: Word, b: Word): Word { Wrap(a + TWO_64 - b) }

  function Mul(a: Word, b: Word): Word { Wrap(a * b) }

  /** Rotate left by one bit. */
  function Rotl1(x: Word): Word { if 2 * x < TWO_64 then 2 * x else 2 * x - TWO_64 + 1 }

  /** Rotate left by n bits, one bit at a time; Rotations.RotlShifts gives the two-shift form. */
  function Rotl(x: Word, n: nat): Word {
    if n == 0 then x else Rotl1(Rotl(x, n - 1))
  }

  lemma {:induction false} RotlZero(n: nat)
    ensures Rotl(0, n) == 0
  {
    if n > 0 { RotlZero(n - 1); }
  }

  /** Logical shift right by n bits, one bit at a time; Rotations.ShrDivides gives the quotient. */
  function Shr(x: Word, n: nat): Word {
    if n == 0 then x else Shr(x, n - 1) / 2
  }

  /** Shift left by n bits, dropping what leaves the word. */
  function Shl(x: Word, n: nat): Word { Wrap(x * Pow2(n)) }

  function Pow256(k: nat): nat { if k == 0 then 1 else 256 * Pow256(k - 1) }

  /** The number of k bytes, least significant first. */
  function LittleEndian(p: seq<Byte>, i: nat, k: nat): (r: nat)
    requires i + k <= |p|
    ensures r < Pow256(k)
    decreases k
  {
    if k == 0 then 0 else p[i] + 256 * LittleEndian(p, i + 1, k - 1)
  }

  /** Eight bytes, least significant first. */
  function Load64(p: seq<Byte>, i: nat): Word
    requires i + 8 <= |p|
  {
    assert Pow256(8) == TWO_64;
    LittleEndian(p, i, 8)
  }

  /** Four bytes, least significant first, zero-extended. */
  function Load32(p: seq<Byte>, i: nat): Word
    requires i + 4 <= |p|
  {
    assert Pow256(4) == 0x1_0000_0000;
    LittleEndian(p, i, 4)
  }

  function BytesSum(b0: nat, b1: nat, b2: nat, b3: nat): nat { b0 + 0x100 * b1 + 0x1_0000 * b2 + 0x100_0000 * b3 }

  /** A load is the sum of its bytes, each at its place. */
  lemma LoadIsSum(p: seq<Byte>, i: nat)
    ensures i + 4 <= |p| ==>
      Load32(p, i) == p[i] as nat + 0x100 * p[i + 1] as nat + 0x1_0000 * p[i + 2] as nat + 0x100_0000 * p[i + 3] as nat
    ensures i + 8 <= |p| ==>
      Load64(p, i) == Load32(p, i) + 0x1_0000_0000 * Load32(p, i + 4)
  {
    if i + 4 <= |p| { FourBytes(p, i); }
    if i + 8 <= |p| {
      FourBytes(p, i + 4);
      EightBytes(p, i);
    }
  }

  lemma FourBytes(p: seq<Byte>, i: nat)
    requires i + 4 <= |p|
    ensures LittleEndian(p, i, 4) == BytesSum(p[i], p[i + 1], p[i + 2], p[i + 3])
  {
    assert LittleEndian(p, i + 2, 2) == BytesSum(p[i + 2], p[i + 3], 0, 0);
  }

  lemma EightBytes(p: seq<Byte>, i: nat)
    requires i + 8 <= |p|
    ensures LittleEndian(p, i, 8) == LittleEndian(p, i, 4) + 0x1_0000_0000 * LittleEndian(p, i + 4, 4)
  {
    FourBytes(p, i);
    assert LittleEndian(p, i + 2, 6) == BytesSum(p[i + 2], p[i + 3], 0, 0) + 0x1_0000 * LittleEndian(p, i + 4, 4);
  }

  // ---- Xor ---------------------------------------------------------------------------

  lemma BitXorHalf(x: nat, y: nat)
    ensures BitXor(x, y) / 2 == BitXor(x / 2, y / 2)
    ensures BitXor(x, y) % 2 == if x % 2 == y % 2 then 0 else 1
  {
  }

  lemma {:induction false} BitXorComm(a: nat, b: nat)
    ensures BitXor(a, b) == BitXor(b, a)
  {
    if a > 0 || b > 0 { BitXorComm(a / 2, b / 2); }
  }

  lemma {:induction false} BitXorAssoc(a: nat, b: nat, c: nat)
    ensures BitXor(BitXor(a, b), c) == BitXor(a, BitXor(b, c))
    decreases a + b + c
  {
    if a > 0 || b > 0 || c > 0 {
      BitXorAssoc(a / 2, b / 2, c / 2);
      BitXorHalf(a, b);
      BitXorHalf(b, c);
      BitXorHalf(BitXor(a, b), c);
      BitXorHalf(a, BitXor(b, c));
    }
  }

  lemma {:induction false} BitXorCancel(a: nat, b: nat)
    ensures BitXor(BitXor(a, b), b) == a
    decreases a + b
  {
    if a > 0 || b > 0 {
      BitXorCancel(a / 2, b / 2);
      BitXorHalf(a, b);
      BitXorHalf(BitXor(a, b), b);
    }
  }

  lemma BitXorDouble(g: nat, h: nat, x: nat, y: nat, r: nat)
    requires BitXor(g + x / 2, h + y / 2) == r + BitXor(x / 2, y / 2)
    ensures BitXor(2 * g + x, 2 * h + y) == 2 * r + BitXor(x, y)
  {
    hide BitXor;
    BitXorHalf(2 * g + x, 2 * h + y);
    BitXorHalf(x, y);
  }

  /** g doubled k times. */
  function Doubled(g: nat, k: nat): nat { if k == 0 then g else 2 * Doubled(g, k - 1) }

  lemma {:induction false} DoubledIsProduct(g: nat, k: nat)
    ensures Doubled(g, k) == g * Pow2(k)
  {
    if k > 0 {
      DoubledIsProduct(g, k - 1);
      Pow2Half(g, k);
    }
  }

  lemma NothingToXor()
    ensures BitXor(0, 0) == 0
  {
  }

  lemma {:induction false} BitXorDoubled(g: nat, h: nat, x: nat, y: nat, k: nat)
    requires x < Pow2(k) && y < Pow2(k)
    ensures BitXor(Doubled(g, k) + x, Doubled(h, k) + y) == Doubled(BitXor(g, h), k) + BitXor(x, y)
  {
    hide BitXor;
    if k == 0 {
      NothingToXor();
    } else {
      BitXorDoubled(g, h, x / 2, y / 2, k - 1);
      BitXorDouble(Doubled(g, k - 1), Doubled(h, k - 1), x, y, Doubled(BitXor(g, h), k - 1));
    }
  }

  /** Xor works on high and low parts separately. */
  lemma BitXorParts(g: nat, h: nat, x: nat, y: nat, k: nat)
    requires x < Pow2(k) && y < Pow2(k)
    ensures BitXor(g * Pow2(k) + x, h * Pow2(k) + y) == BitXor(g, h) * Pow2(k) + BitXor(x, y)
  {
    hide Pow2, BitXor, Doubled;
    BitXorDoubled(g, h, x, y, k);
    DoubledIsProduct(g, k);
    DoubledIsProduct(h, k);
    DoubledIsProduct(BitXor(g, h), k);
  }

  lemma XorComm(a: Word, b: Word)
    ensures Xor(a, b) == Xor(b, a)
  {
    BitXorComm(a, b);
  }

  lemma XorAssoc(a: Word, b: Word, c: Word)
    ensures Xor(Xor(a, b), c) == Xor(a, Xor(b, c))
  {
    BitXorAssoc(a, b, c);
  }

  lemma XorCancel(a: Word, b: Word)
    ensures Xor(Xor(a, b), b) == a
  {
    BitXorCancel(a, b);
  }

  // ---- Sums and products -------------------------------------------------------------

  lemma WrapMultiple(q: int, x: nat)
    requires q * TWO_64 + x >= 0
    ensures Wrap(q * TWO_64 + x) == Wrap(x)
  {
  }

  /** A factor may be wrapped before it is multiplied. */
  lemma WrapFactor(x: nat, y: nat)
    ensures Wrap(Wrap(x) * y) == Wrap(x * y)
  {
    var q := x / TWO_64;
    assert x * y == (q * TWO_64 + Wrap(x)) * y == q * y * TWO_64 + Wrap(x) * y;
    WrapMultiple(q * y, Wrap(x) * y);
  }

  /** And so may a term before it is added. */
  lemma WrapTerm(x: nat, y: nat)
    ensures Wrap(Wrap(x) + y) == Wrap(x + y)
  {
  }

  lemma AddComm(a: Word, b: Word)
    ensures Add(a, b) == Add(b, a)
  {
  }

  lemma AddAssoc(a: Word, b: Word, c: Word)
    ensures Add(Add(a, b), c) == Add(a, Add(b, c))
  {
    hide Wrap;
    WrapTerm(a + b, c);
    WrapTerm(b + c, a);
  }

  lemma WrapOnce(x: nat)
    requires x < 2 * TWO_64
    ensures Wrap(x) == if x < TWO_64 then x else x - TWO_64
  {
  }

  lemma AddSub(a: Word, b: Word)
    ensures Sub(Add(a, b), b) == a
    ensures Add(Sub(a, b), b) == a
  {
    hide Wrap;
    WrapOnce(a + b);
    WrapOnce(Add(a, b) + TWO_64 - b);
    WrapOnce(a + TWO_64 - b);
    WrapOnce(Sub(a, b) + b);
  }

  lemma MulComm(a: Word, b: Word)
    ensures Mul(a, b) == Mul(b, a)
  {
  }

  lemma MulAssoc(a: Word, b: Word, c: Word)
    ensures Mul(Mul(a, b), c) == Mul(a, Mul(b, c))
  {
    hide Wrap;
    WrapFactor(a * b, c);
    WrapFactor(b * c, a);
    assert a * b * c == b * c * a;
  }

  lemma MulOne(a: Word)
    ensures Mul(a, 1) == a
  {
  }

  /** Multiplication distributes over addition. */
  lemma MulAdd(a: Word, b: Word, c: Word)
    ensures Mul(Add(a, b), c) == Add(Mul(a, c), Mul(b, c))
  {
    hide Wrap;
    WrapFactor(a + b, c);
    assert (a + b) * c == a * c + b * c;
    WrapTerm(a * c, b * c);
    WrapTerm(b * c, Wrap(a * c));
  }

  // ---- Shifts and rotations ----------------------------------------------------------

  lemma ShrHalfXor(a: Word, b: Word)
    ensures Xor(a, b) / 2 == Xor(a / 2, b / 2)
  {
    BitXorHalf(a, b);
  }

  /** The top bit of a word and the 63 below it. */
  lemma TopAndRest(x: Word)
    ensures var t, r := x / 0x8000_0000_0000_0000, x % 0x8000_0000_0000_0000;
      t < 2 && x == t * 0x8000_0000_0000_0000 + r && Rotl1(x) == 2 * r + t
  {
  }

  lemma Rotl1Xor(a: Word, b: Word)
    ensures Rotl1(Xor(a, b)) == Xor(Rotl1(a), Rotl1(b))
  {
    hide BitXor, Rotl1;
    var h := 0x8000_0000_0000_0000;
    var s, t, x, y := a / h, b / h, a % h, b % h;
    TopAndRest(a);
    TopAndRest(b);
    Pow2Values();
    BitXorParts(s, t, x, y, 63);
    BitXorBound(x, y, 63);
    BitXorBound(s, t, 1);
    DivUnique(Xor(a, b), h, BitXor(s, t), BitXor(x, y));
    TopAndRest(Xor(a, b));
    BitXorParts(x, y, s, t, 1);
    assert Pow2(1) == 2;
  }
}
