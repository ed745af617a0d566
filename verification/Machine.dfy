// The number operations of Words are the operations of a 64-bit machine: reading numbers as
// 64-bit vectors takes each of them to the vector operation, and loses no word.
module Machine {
  import opened Powers
  import opened Words
  import opened Rotations

  type Vector = bv64

  function Plus(x: Vector, y: Vector): Vector { x + y }

  function Times(x: Vector, y: Vector): Vector { x * y }

  function Either(x: Vector, y: Vector): Vector { x ^ y }

  function Union(x: Vector, y: Vector): Vector { x | y }

  function Both(x: Vector, y: Vector): Vector { x & y }

  function Minus(x: Vector, y: Vector): Vector { x - y }

  function DoubleOf(x: Vector): Vector { x << 1 }

  function HalfOf(x: Vector): Vector { x >> 1 }

  function TurnOnce(x: Vector): Vector { (x << 1) | (x >> 63) }

  /** The low 64 bits of n as a vector. */
  function Bits(n: nat): Vector { if n == 0 then 0 else Plus(Bits(n - 1), 1) }

  // ---- Sums and products -------------------------------------------------------------

  lemma PlusLaws(x: Vector, y: Vector, z: Vector)
    ensures Plus(x, 0) == x && Plus(0, x) == x
    ensures Plus(x, Plus(y, z)) == Plus(Plus(x, y), z)
  {
    assert Plus(x, y + z) == Plus(x + y, z);
  }

  lemma {:induction false} BitsSum(a: nat, b: nat)
    ensures Bits(a + b) == Plus(Bits(a), Bits(b))
  {
    hide Plus;
    if b == 0 {
      PlusLaws(Bits(a), 0, 0);
    } else {
      BitsSum(a, b - 1);
      PlusLaws(Bits(a), Bits(b - 1), 1);
    }
  }

  lemma TimesLaws(x: Vector, y: Vector)
    ensures Times(x, Plus(y, 1)) == Plus(Times(x, y), x) && Times(x, 0) == 0
  {
    assert Times(x, y + 1) == Plus(x * y, x);
  }

  lemma {:induction false} BitsProduct(a: nat, b: nat)
    ensures Bits(a * b) == Times(Bits(a), Bits(b))
  {
    hide Plus, Times;
    TimesLaws(Bits(a), 0);
    if b > 0 {
      BitsProduct(a, b - 1);
      BitsSum(a * (b - 1), a);
      TimesLaws(Bits(a), Bits(b - 1));
      assert a * b == a * (b - 1) + a;
    }
  }

  // ---- One bit at a time -------------------------------------------------------------

  /** One more bit at the low end. */
  function Append(x: Vector, bit: nat): Vector { if bit == 0 then x << 1 else (x << 1) | 1 }

  lemma Doubling(x: Vector)
    ensures Plus(x, x) == Append(x, 0) && Plus(Append(x, 0), 1) == Append(x, 1)
  {
    DoublingEven(x);
    DoublingOdd(x);
  }

  lemma DoublingEven(x: Vector)
    ensures x + x == x << 1
  {
  }

  lemma DoublingOdd(x: Vector)
    ensures (x << 1) + 1 == (x << 1) | 1
  {
  }

  lemma BitsHalf(n: nat)
    ensures Bits(n) == Append(Bits(n / 2), n % 2)
  {
    hide Plus, Append;
    BitsSum(n / 2, n / 2);
    Doubling(Bits(n / 2));
  }

  lemma EitherLaws(x: Vector, y: Vector)
    ensures Either(x, y) == Either(y, x) && Either(x, 0) == x && Either(x, x) == 0
  {
  }

  lemma EitherAssoc(x: Vector, y: Vector, z: Vector)
    ensures Either(Either(x, y), z) == Either(x, Either(y, z))
  {
    assert Either(x ^ y, z) == Either(x, y ^ z);
  }

  lemma EitherDoubled(x: Vector, y: Vector)
    ensures Either(Append(x, 0), Append(y, 0)) == Append(Either(x, y), 0)
  {
  }

  lemma AppendOne(x: Vector)
    ensures Append(x, 1) == Either(Append(x, 0), 1)
  {
  }

  lemma AppendEither(x: Vector, y: Vector, r: nat, s: nat)
    requires r < 2 && s < 2
    ensures Either(Append(x, r), Append(y, s)) == Append(Either(x, y), if r == s then 0 else 1)
  {
    hide Either, Append;
    var u, v := Append(x, 0), Append(y, 0);
    EitherDoubled(x, y);
    AppendOne(x);
    AppendOne(y);
    AppendOne(Either(x, y));
    EitherAssoc(u, 1, v);
    EitherAssoc(u, v, 1);
    EitherLaws(1, v);
    EitherAssoc(u, 1, Either(v, 1));
    EitherAssoc(1, 1, v);
    EitherAssoc(1, v, 1);
    EitherAssoc(v, 1, 1);
    EitherLaws(1, 1);
    EitherLaws(v, 1);
    EitherLaws(v, 0);
    EitherAssoc(Either(u, v), 1, 1);
    EitherLaws(Either(u, v), 0);
  }

  lemma UnionShifted(x: Vector, y: Vector)
    ensures (x << 1) | (y << 1) == (x | y) << 1
    ensures ((x << 1) | 1) | (y << 1) == ((x | y) << 1) | 1
  {
  }

  lemma UnionShiftedOdd(x: Vector, y: Vector)
    ensures (x << 1) | ((y << 1) | 1) == ((x | y) << 1) | 1
    ensures ((x << 1) | 1) | ((y << 1) | 1) == ((x | y) << 1) | 1
  {
  }

  lemma UnionEven(x: Vector, y: Vector)
    ensures Union(Append(x, 0), Append(y, 0)) == Append(Union(x, y), 0)
    ensures Union(Append(x, 1), Append(y, 0)) == Append(Union(x, y), 1)
  {
    UnionShifted(x, y);
  }

  lemma UnionOdd(x: Vector, y: Vector)
    ensures Union(Append(x, 0), Append(y, 1)) == Append(Union(x, y), 1)
    ensures Union(Append(x, 1), Append(y, 1)) == Append(Union(x, y), 1)
  {
    UnionShiftedOdd(x, y);
  }

  lemma NoBits()
    ensures Bits(0) == 0 && Either(0, 0) == 0 && Union(0, 0) == 0 && Within(0, 0)
    ensures BitXor(0, 0) == 0 && BitOr(0, 0) == 0
  {
  }

  lemma {:induction false} BitsXor(x: nat, y: nat)
    ensures Bits(BitXor(x, y)) == Either(Bits(x), Bits(y))
  {
    hide Bits, Append, Either, BitXor;
    if x == 0 && y == 0 {
      NoBits();
    } else {
      BitsXor(x / 2, y / 2);
      BitXorHalf(x, y);
      BitsHalf(x);
      BitsHalf(y);
      BitsHalf(BitXor(x, y));
      AppendEither(Bits(x / 2), Bits(y / 2), x % 2, y % 2);
    }
  }

  lemma {:induction false} BitsOr(x: nat, y: nat)
    ensures Bits(BitOr(x, y)) == Union(Bits(x), Bits(y))
  {
    hide Bits, Append, Union, BitOr;
    if x == 0 && y == 0 {
      NoBits();
    } else {
      BitsOr(x / 2, y / 2);
      BitOrHalf(x, y);
      BitsHalf(x);
      BitsHalf(y);
      BitsHalf(BitOr(x, y));
      UnionEven(Bits(x / 2), Bits(y / 2));
      UnionOdd(Bits(x / 2), Bits(y / 2));
    }
  }

  // ---- Wrapping and the top bit ------------------------------------------------------

  /** 1 shifted left k times. */
  function Power(k: nat): Vector { if k == 0 then 1 else Append(Power(k - 1), 0) }

  lemma PowerValues()
    ensures Power(63) == 0x8000_0000_0000_0000 && Power(64) == 0
  {
    assert Power(8) == 0x100;
    assert Power(16) == 0x1_0000;
    assert Power(24) == 0x100_0000;
    assert Power(32) == 0x1_0000_0000;
    assert Power(40) == 0x100_0000_0000;
    assert Power(48) == 0x1_0000_0000_0000;
    assert Power(56) == 0x100_0000_0000_0000;
  }

  lemma {:induction false} BitsOfPower(k: nat)
    ensures Bits(Pow2(k)) == Power(k)
  {
    hide Plus, Append;
    if k == 0 {
      BitsOfOne();
    } else {
      BitsOfPower(k - 1);
      BitsSum(Pow2(k - 1), Pow2(k - 1));
      Doubling(Power(k - 1));
    }
  }

  lemma BitsOfOne()
    ensures Bits(1) == 1
  {
    PlusLaws(1, 0, 0);
    assert Bits(0) == 0;
  }

  lemma {:induction false} BitsWrap(n: nat)
    ensures Bits(Wrap(n)) == Bits(n)
  {
    hide Bits, Plus;
    if n >= TWO_64 {
      BitsWrap(n - TWO_64);
      BitsSum(n - TWO_64, TWO_64);
      Pow2Values();
      BitsOfPower(64);
      PowerValues();
      PlusLaws(Bits(n - TWO_64), 0, 0);
    }
  }

  predicate Within(x: Vector, mask: Vector) { Both(x, mask) == x }

  lemma BothShifted(x: Vector, m: Vector)
    ensures (x << 1) & ((m << 1) | 1) == (x & m) << 1
  {
  }

  lemma BothShiftedOdd(x: Vector, m: Vector)
    ensures ((x << 1) | 1) & ((m << 1) | 1) == ((x & m) << 1) | 1
  {
  }

  lemma BothAppend(x: Vector, m: Vector)
    ensures Both(Append(x, 0), Append(m, 1)) == Append(Both(x, m), 0)
    ensures Both(Append(x, 1), Append(m, 1)) == Append(Both(x, m), 1)
  {
    BothShifted(x, m);
    BothShiftedOdd(x, m);
  }

  lemma WithinAppend(x: Vector, m: Vector, bit: nat)
    requires Within(x, m) && bit < 2
    ensures Within(Append(x, bit), Append(m, 1))
  {
    hide Both, Append;
    BothAppend(x, m);
  }

  /** The k low bits set. */
  function LowMask(k: nat): Vector { if k == 0 then 0 else Append(LowMask(k - 1), 1) }

  lemma LowMaskValue()
    ensures LowMask(63) == 0x7FFF_FFFF_FFFF_FFFF
  {
    assert LowMask(8) == 0xFF;
    assert LowMask(16) == 0xFFFF;
    assert LowMask(24) == 0xFF_FFFF;
    assert LowMask(32) == 0xFFFF_FFFF;
    assert LowMask(40) == 0xFF_FFFF_FFFF;
    assert LowMask(48) == 0xFFFF_FFFF_FFFF;
    assert LowMask(56) == 0xFF_FFFF_FFFF_FFFF;
  }

  lemma {:induction false} BitsFit(n: nat, k: nat)
    requires n < Pow2(k)
    ensures Within(Bits(n), LowMask(k))
  {
    hide Bits, Append, Within;
    if k == 0 {
      NoBits();
    } else {
      BitsFit(n / 2, k - 1);
      BitsHalf(n);
      WithinAppend(Bits(n / 2), LowMask(k - 1), n % 2);
    }
  }

  predicate TopClear(x: Vector) { x & 0x8000_0000_0000_0000 == 0 }

  lemma BitsTopClear(n: nat)
    requires n < 0x8000_0000_0000_0000
    ensures TopClear(Bits(n))
  {
    hide Bits;
    Pow2Values();
    BitsFit(n, 63);
    LowMaskValue();
    MaskedTopClear(Bits(n));
  }

  lemma MaskedTopClear(x: Vector)
    requires Within(x, 0x7FFF_FFFF_FFFF_FFFF)
    ensures TopClear(x)
  {
    LowPart(x);
  }

  lemma LowPart(x: Vector)
    ensures (x & 0x7FFF_FFFF_FFFF_FFFF) & 0x8000_0000_0000_0000 == 0
  {
  }

  // ---- The word operations -----------------------------------------------------------

  lemma BitsOfAdd(a: Word, b: Word)
    ensures Bits(Add(a, b)) == Plus(Bits(a), Bits(b))
  {
    hide Bits, Wrap, Plus;
    BitsSum(a, b);
    BitsWrap(a + b);
  }

  lemma BitsOfMul(a: Word, b: Word)
    ensures Bits(Mul(a, b)) == Times(Bits(a), Bits(b))
  {
    hide Bits, Wrap, Times;
    BitsProduct(a, b);
    BitsWrap(a * b);
  }

  lemma HalfAppend(x: Vector, bit: nat)
    requires TopClear(x) && bit < 2
    ensures HalfOf(Append(x, bit)) == x
  {
    assert HalfOf(x << 1) == x;
    assert HalfOf((x << 1) | 1) == x;
  }

  /** Halving a word is shifting it right by one. */
  lemma BitsOfHalf(x: Word)
    ensures Bits(x / 2) == HalfOf(Bits(x))
  {
    hide Bits, Append, TopClear, HalfOf;
    BitsHalf(x);
    BitsTopClear(x / 2);
    HalfAppend(Bits(x / 2), x % 2);
  }

  lemma TurnClear(x: Vector)
    requires TopClear(x)
    ensures TurnOnce(x) == Append(x, 0)
  {
  }

  lemma TurnOfTop(x: Vector)
    ensures TurnOnce(0x8000_0000_0000_0000 | x) == TurnOnce(x) | 1
  {
  }

  lemma TopJoins(x: Vector)
    requires TopClear(x)
    ensures Plus(0x8000_0000_0000_0000, x) == 0x8000_0000_0000_0000 | x
  {
  }

  lemma TurnSet(x: Vector)
    requires TopClear(x)
    ensures TurnOnce(Plus(0x8000_0000_0000_0000, x)) == Append(x, 1)
  {
    TopJoins(x);
    TurnOfTop(x);
    TurnClear(x);
    hide TurnOnce, Plus, TopClear;
  }

  lemma BitsOfTop()
    ensures Bits(0x8000_0000_0000_0000) == 0x8000_0000_0000_0000
  {
    hide Bits;
    Pow2Values();
    BitsOfPower(63);
    PowerValues();
  }

  lemma RotlTop(r: nat)
    requires r < 0x8000_0000_0000_0000
    ensures Append(Bits(r), 1) == TurnOnce(Bits(0x8000_0000_0000_0000 + r))
  {
    hide Bits, Append, TopClear, TurnOnce, Plus;
    BitsTopClear(r);
    BitsSum(0x8000_0000_0000_0000, r);
    BitsOfTop();
    TurnSet(Bits(r));
  }

  /** Rotating a word by one bit is the two shifts of its vector. */
  lemma BitsOfRotl1(x: Word)
    ensures Bits(Rotl1(x)) == TurnOnce(Bits(x))
  {
    hide Bits, Append, TopClear, TurnOnce;
    BitsHalf(Rotl1(x));
    if x < 0x8000_0000_0000_0000 {
      BitsTopClear(x);
      TurnClear(Bits(x));
    } else {
      RotlTop(x - 0x8000_0000_0000_0000);
    }
  }

  predicate Odd(x: Vector) { x & 1 == 1 }

  lemma AppendParity(x: Vector, bit: nat)
    requires bit < 2
    ensures Odd(Append(x, bit)) <==> bit == 1
  {
    ParityOfShift(x);
  }

  lemma ParityOfShift(x: Vector)
    ensures Odd((x << 1) | 1) && !Odd(x << 1)
  {
  }

  /** Different words have different vectors. */
  lemma {:induction false} BitsInjective(a: Word, b: Word)
    requires Bits(a) == Bits(b)
    ensures a == b
    decreases a + b
  {
    hide Bits, Append, TopClear, HalfOf, Odd;
    if a > 0 || b > 0 {
      BitsHalf(a);
      BitsHalf(b);
      BitsOfHalf(a);
      BitsOfHalf(b);
      AppendParity(Bits(a / 2), a % 2);
      AppendParity(Bits(b / 2), b % 2);
      BitsInjective(a / 2, b / 2);
    }
  }

  // ---- Differences, shifts and rotations by any amount --------------------------------

  lemma MinusLaws(x: Vector, y: Vector)
    ensures Minus(Plus(x, y), y) == x
  {
    assert Minus(x + y, y) == x;
  }

  lemma BitsOfSub(a: Word, b: Word)
    ensures Bits(Sub(a, b)) == Minus(Bits(a), Bits(b))
  {
    hide Bits, Minus, Plus, Add, Sub;
    AddSub(a, b);
    BitsOfAdd(Sub(a, b), b);
    MinusLaws(Bits(Sub(a, b)), Bits(b));
  }

  /** n one-bit shifts to the left. */
  function LeftBy(x: Vector, n: nat): Vector { if n == 0 then x else DoubleOf(LeftBy(x, n - 1)) }

  /** n one-bit shifts to the right. */
  function RightBy(x: Vector, n: nat): Vector { if n == 0 then x else HalfOf(RightBy(x, n - 1)) }

  lemma BitsDouble(n: nat)
    ensures Bits(2 * n) == DoubleOf(Bits(n))
  {
    BitsHalf(2 * n);
    hide Bits;
  }

  lemma {:induction false} BitsOfMultiple(x: nat, n: nat)
    ensures Bits(x * Pow2(n)) == LeftBy(Bits(x), n)
  {
    hide Bits, DoubleOf;
    if n > 0 {
      BitsOfMultiple(x, n - 1);
      BitsDouble(x * Pow2(n - 1));
      Pow2Half(x, n);
    }
  }

  lemma BitsOfShl(x: Word, n: nat)
    ensures Bits(Shl(x, n)) == LeftBy(Bits(x), n)
  {
    hide Bits, LeftBy, Wrap;
    BitsOfMultiple(x, n);
    BitsWrap(x * Pow2(n));
  }

  lemma {:induction false} BitsOfShr(x: Word, n: nat)
    ensures Bits(Shr(x, n)) == RightBy(Bits(x), n)
  {
    hide Bits, HalfOf;
    if n > 0 {
      BitsOfShr(x, n - 1);
      BitsOfHalf(Shr(x, n - 1));
    }
  }

  /** Rotating a word by n bits is the two shifts and the or of its vector. */
  lemma BitsOfRotl(x: Word, n: nat)
    requires n <= 64
    ensures Bits(Rotl(x, n)) == Union(LeftBy(Bits(x), n), RightBy(Bits(x), 64 - n))
  {
    hide Bits, Union, LeftBy, RightBy, Rotl, Shl, Shr, BitOr;
    RotlOr(x, n);
    BitsOr(Shl(x, n), Shr(x, 64 - n));
    BitsOfShl(x, n);
    BitsOfShr(x, 64 - n);
  }

  // ---- Loads -------------------------------------------------------------------------

  /** Bytes or-ed together, each shifted past the ones before it. */
  function VectorLoad(p: seq<Byte>, i: nat, k: nat): Vector
    requires i + k <= |p|
    decreases k
  {
    if k == 0 then 0 else Union(LeftBy(VectorLoad(p, i + 1, k - 1), 8), Bits(p[i]))
  }

  lemma ByteAndRest(r: nat, b: Byte)
    ensures Bits(b + 256 * r) == Union(LeftBy(Bits(r), 8), Bits(b))
  {
    assert Pow2(8) == 256;
    hide Bits, Union, LeftBy, BitOr, Pow2;
    BitOrDisjoint(r, b, 8);
    BitsOr(r * 256, b);
    BitsOfMultiple(r, 8);
  }

  /** The number of k bytes stands for the vector they are assembled into. */
  lemma {:induction false} BitsOfBytes(p: seq<Byte>, i: nat, k: nat)
    requires i + k <= |p|
    ensures Bits(LittleEndian(p, i, k)) == VectorLoad(p, i, k)
    decreases k
  {
    hide Bits, Union, LeftBy;
    if k == 0 {
      NoBits();
    } else {
      BitsOfBytes(p, i + 1, k - 1);
      ByteAndRest(LittleEndian(p, i + 1, k - 1), p[i]);
    }
  }
}
