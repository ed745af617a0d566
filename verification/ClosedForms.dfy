// Closed forms for the operations of the hash: the machine's own xor, and quotients and
// remainders by powers of two for shifts and rotations. On numerals they are plain arithmetic.
module ClosedForms {
  import opened Powers
  import opened Words
  import opened Rotations
  import opened Machine
  import opened Reference

  // ---- Vectors and their values ------------------------------------------------------

  /** The unsigned value of a vector. */
  function Value(v: Vector): Word { v as int }

  lemma BackAgain(v: Vector)
    ensures (v as int) as Vector == v
  {
  }

  lemma Twice(v: Vector)
    requires TopClear(v)
    ensures (v << 1) as int == 2 * (v as int) && ((v << 1) | 1) as int == 2 * (v as int) + 1
  {
  }

  lemma AppendValue(v: Vector, bit: nat)
    requires TopClear(v) && bit < 2
    ensures Append(v, bit) as int == 2 * (v as int) + bit
  {
    Twice(v);
  }

  /** The vector a number stands for has that number as its value. */
  lemma {:induction false} ValueBits(x: Word)
    ensures Value(Bits(x)) == x
  {
    hide Bits, Append;
    if x == 0 {
      NoBits();
    } else {
      ValueBits(x / 2);
      BitsHalf(x);
      BitsTopClear(x / 2);
      AppendValue(Bits(x / 2), x % 2);
    }
  }

  lemma BitsValue(v: Vector)
    ensures Bits(Value(v)) == v
  {
    hide Bits;
    ValueBits(Value(v));
    BackAgain(Bits(Value(v)));
    BackAgain(v);
  }

  lemma XorOfBits(a: Word, b: Word)
    ensures Bits(Xor(a, b)) == Either(Bits(a), Bits(b))
  {
    hide Bits, Either, BitXor;
    BitsXor(a, b);
  }

  lemma Xors(u: Vector, v: Vector)
    ensures Xor(Value(u), Value(v)) == Value(Either(u, v))
  {
    hide Value, Bits, Either, Xor;
    BitsValue(u);
    BitsValue(v);
    XorOfBits(Value(u), Value(v));
    ValueBits(Xor(Value(u), Value(v)));
  }

  /** The value of the vectors' xor. */
  function XorValue(u: Vector, v: Vector): Word { (u ^ v) as int }

  lemma EitherValue(u: Vector, v: Vector)
    ensures Value(Either(u, v)) == XorValue(u, v)
  {
  }

  /** Xor of two values is the value of the vectors' xor. */
  lemma XorIs(u: Vector, v: Vector)
    ensures Xor(Value(u), Value(v)) == XorValue(u, v)
  {
    hide Value, Either, Xor, XorValue;
    Xors(u, v);
    EitherValue(u, v);
  }

  lemma TwoXorsAre(u: Vector, v: Vector, w: Vector, y: Vector)
    requires Value(y) == XorValue(u, v)
    ensures Xor(Xor(Value(u), Value(v)), Value(w)) == XorValue(y, w)
  {
    hide Value, Xor, XorValue;
    XorIs(u, v);
    XorIs(y, w);
  }

  lemma PowerTable()
    ensures Pow2(8) == 0x100 && Pow2(9) == 0x200 && Pow2(10) == 0x400 && Pow2(11) == 0x800
    ensures Pow2(12) == 0x1000 && Pow2(13) == 0x2000 && Pow2(14) == 0x4000 && Pow2(15) == 0x8000
    ensures Pow2(16) == 0x1_0000 && Pow2(17) == 0x2_0000 && Pow2(18) == 0x4_0000 && Pow2(19) == 0x8_0000
    ensures Pow2(20) == 0x10_0000 && Pow2(21) == 0x20_0000 && Pow2(22) == 0x40_0000 && Pow2(23) == 0x80_0000
    ensures Pow2(24) == 0x100_0000 && Pow2(25) == 0x200_0000 && Pow2(26) == 0x400_0000 && Pow2(27) == 0x800_0000
    ensures Pow2(28) == 0x1000_0000 && Pow2(29) == 0x2000_0000 && Pow2(30) == 0x4000_0000 && Pow2(31) == 0x8000_0000
    ensures Pow2(32) == 0x1_0000_0000 && Pow2(33) == 0x2_0000_0000 && Pow2(34) == 0x4_0000_0000 && Pow2(35) == 0x8_0000_0000
    ensures Pow2(36) == 0x10_0000_0000 && Pow2(37) == 0x20_0000_0000 && Pow2(38) == 0x40_0000_0000 && Pow2(39) == 0x80_0000_0000
    ensures Pow2(40) == 0x100_0000_0000 && Pow2(41) == 0x200_0000_0000 && Pow2(42) == 0x400_0000_0000 && Pow2(43) == 0x800_0000_0000
    ensures Pow2(44) == 0x1000_0000_0000 && Pow2(45) == 0x2000_0000_0000 && Pow2(46) == 0x4000_0000_0000 && Pow2(47) == 0x8000_0000_0000
    ensures Pow2(48) == 0x1_0000_0000_0000 && Pow2(49) == 0x2_0000_0000_0000 && Pow2(50) == 0x4_0000_0000_0000 && Pow2(51) == 0x8_0000_0000_0000
    ensures Pow2(52) == 0x10_0000_0000_0000 && Pow2(53) == 0x20_0000_0000_0000 && Pow2(54) == 0x40_0000_0000_0000 && Pow2(55) == 0x80_0000_0000_0000
    ensures Pow2(56) == 0x100_0000_0000_0000 && Pow2(57) == 0x200_0000_0000_0000 && Pow2(58) == 0x400_0000_0000_0000 && Pow2(59) == 0x800_0000_0000_0000
    ensures Pow2(60) == 0x1000_0000_0000_0000 && Pow2(61) == 0x2000_0000_0000_0000 && Pow2(62) == 0x4000_0000_0000_0000 && Pow2(63) == 0x8000_0000_0000_0000
  {
    assert Pow2(4) == 16;
  }

  /** A rotation by n is a remainder, a product and a quotient. */
  lemma RotlQuotient(x: Word, n: nat, up: nat, down: nat)
    requires n <= 64 && up == Pow2(n) && down == Pow2(64 - n)
    ensures Rotl(x, n) == x % down * up + x / down
  {
    hide Rotl, Rotate, Pow2;
    RotlShifts(x, n);
    RotateParts(x, n);
  }

  /** Every rotation the hash uses. */
  lemma RotlsAre(x: Word)
    ensures Rotl(x, 11) == x % 0x20_0000_0000_0000 * 0x800 + x / 0x20_0000_0000_0000
    ensures Rotl(x, 13) == x % 0x8_0000_0000_0000 * 0x2000 + x / 0x8_0000_0000_0000
    ensures Rotl(x, 17) == x % 0x8000_0000_0000 * 0x2_0000 + x / 0x8000_0000_0000
    ensures Rotl(x, 19) == x % 0x2000_0000_0000 * 0x8_0000 + x / 0x2000_0000_0000
    ensures Rotl(x, 21) == x % 0x800_0000_0000 * 0x20_0000 + x / 0x800_0000_0000
    ensures Rotl(x, 23) == x % 0x200_0000_0000 * 0x80_0000 + x / 0x200_0000_0000
    ensures Rotl(x, 26) == x % 0x40_0000_0000 * 0x400_0000 + x / 0x40_0000_0000
    ensures Rotl(x, 27) == x % 0x20_0000_0000 * 0x800_0000 + x / 0x20_0000_0000
    ensures Rotl(x, 29) == x % 0x8_0000_0000 * 0x2000_0000 + x / 0x8_0000_0000
    ensures Rotl(x, 31) == x % 0x2_0000_0000 * 0x8000_0000 + x / 0x2_0000_0000
    ensures Rotl(x, 32) == x % 0x1_0000_0000 * 0x1_0000_0000 + x / 0x1_0000_0000
    ensures Rotl(x, 33) == x % 0x8000_0000 * 0x2_0000_0000 + x / 0x8000_0000
    ensures Rotl(x, 34) == x % 0x4000_0000 * 0x4_0000_0000 + x / 0x4000_0000
    ensures Rotl(x, 39) == x % 0x200_0000 * 0x80_0000_0000 + x / 0x200_0000
    ensures Rotl(x, 41) == x % 0x80_0000 * 0x200_0000_0000 + x / 0x80_0000
    ensures Rotl(x, 47) == x % 0x2_0000 * 0x8000_0000_0000 + x / 0x2_0000
    ensures Rotl(x, 50) == x % 0x4000 * 0x4_0000_0000_0000 + x / 0x4000
    ensures Rotl(x, 51) == x % 0x2000 * 0x8_0000_0000_0000 + x / 0x2000
  {
    hide Rotl, Pow2;
    PowerTable();
    RotlQuotient(x, 11, 0x800, 0x20_0000_0000_0000);
    RotlQuotient(x, 13, 0x2000, 0x8_0000_0000_0000);
    RotlQuotient(x, 17, 0x2_0000, 0x8000_0000_0000);
    RotlQuotient(x, 19, 0x8_0000, 0x2000_0000_0000);
    RotlQuotient(x, 21, 0x20_0000, 0x800_0000_0000);
    RotlQuotient(x, 23, 0x80_0000, 0x200_0000_0000);
    RotlQuotient(x, 26, 0x400_0000, 0x40_0000_0000);
    RotlQuotient(x, 27, 0x800_0000, 0x20_0000_0000);
    RotlQuotient(x, 29, 0x2000_0000, 0x8_0000_0000);
    RotlQuotient(x, 31, 0x8000_0000, 0x2_0000_0000);
    RotlQuotient(x, 32, 0x1_0000_0000, 0x1_0000_0000);
    RotlQuotient(x, 33, 0x2_0000_0000, 0x8000_0000);
    RotlQuotient(x, 34, 0x4_0000_0000, 0x4000_0000);
    RotlQuotient(x, 39, 0x80_0000_0000, 0x200_0000);
    RotlQuotient(x, 41, 0x200_0000_0000, 0x80_0000);
    RotlQuotient(x, 47, 0x8000_0000_0000, 0x2_0000);
    RotlQuotient(x, 50, 0x4_0000_0000_0000, 0x4000);
    RotlQuotient(x, 51, 0x8_0000_0000_0000, 0x2000);
  }

  lemma AllRotls()
    ensures forall x: Word :: Rotl(x, 11) == x % 0x20_0000_0000_0000 * 0x800 + x / 0x20_0000_0000_0000
    ensures forall x: Word :: Rotl(x, 13) == x % 0x8_0000_0000_0000 * 0x2000 + x / 0x8_0000_0000_0000
    ensures forall x: Word :: Rotl(x, 17) == x % 0x8000_0000_0000 * 0x2_0000 + x / 0x8000_0000_0000
    ensures forall x: Word :: Rotl(x, 19) == x % 0x2000_0000_0000 * 0x8_0000 + x / 0x2000_0000_0000
    ensures forall x: Word :: Rotl(x, 23) == x % 0x200_0000_0000 * 0x80_0000 + x / 0x200_0000_0000
    ensures forall x: Word :: Rotl(x, 26) == x % 0x40_0000_0000 * 0x400_0000 + x / 0x40_0000_0000
    ensures forall x: Word :: Rotl(x, 27) == x % 0x20_0000_0000 * 0x800_0000 + x / 0x20_0000_0000
    ensures forall x: Word :: Rotl(x, 29) == x % 0x8_0000_0000 * 0x2000_0000 + x / 0x8_0000_0000
    ensures forall x: Word :: Rotl(x, 31) == x % 0x2_0000_0000 * 0x8000_0000 + x / 0x2_0000_0000
    ensures forall x: Word :: Rotl(x, 32) == x % 0x1_0000_0000 * 0x1_0000_0000 + x / 0x1_0000_0000
    ensures forall x: Word :: Rotl(x, 33) == x % 0x8000_0000 * 0x2_0000_0000 + x / 0x8000_0000
    ensures forall x: Word :: Rotl(x, 34) == x % 0x4000_0000 * 0x4_0000_0000 + x / 0x4000_0000
    ensures forall x: Word :: Rotl(x, 39) == x % 0x200_0000 * 0x80_0000_0000 + x / 0x200_0000
    ensures forall x: Word :: Rotl(x, 47) == x % 0x2_0000 * 0x8000_0000_0000 + x / 0x2_0000
    ensures forall x: Word :: Rotl(x, 51) == x % 0x2000 * 0x8_0000_0000_0000 + x / 0x2000
  {
    hide Rotl;
    forall x: Word ensures Rotl(x, 11) == x % 0x20_0000_0000_0000 * 0x800 + x / 0x20_0000_0000_0000 { RotlsAre(x); }
    forall x: Word ensures Rotl(x, 13) == x % 0x8_0000_0000_0000 * 0x2000 + x / 0x8_0000_0000_0000 { RotlsAre(x); }
    forall x: Word ensures Rotl(x, 17) == x % 0x8000_0000_0000 * 0x2_0000 + x / 0x8000_0000_0000 { RotlsAre(x); }
    forall x: Word ensures Rotl(x, 19) == x % 0x2000_0000_0000 * 0x8_0000 + x / 0x2000_0000_0000 { RotlsAre(x); }
    forall x: Word ensures Rotl(x, 23) == x % 0x200_0000_0000 * 0x80_0000 + x / 0x200_0000_0000 { RotlsAre(x); }
    forall x: Word ensures Rotl(x, 26) == x % 0x40_0000_0000 * 0x400_0000 + x / 0x40_0000_0000 { RotlsAre(x); }
    forall x: Word ensures Rotl(x, 27) == x % 0x20_0000_0000 * 0x800_0000 + x / 0x20_0000_0000 { RotlsAre(x); }
    forall x: Word ensures Rotl(x, 29) == x % 0x8_0000_0000 * 0x2000_0000 + x / 0x8_0000_0000 { RotlsAre(x); }
    forall x: Word ensures Rotl(x, 31) == x % 0x2_0000_0000 * 0x8000_0000 + x / 0x2_0000_0000 { RotlsAre(x); }
    forall x: Word ensures Rotl(x, 32) == x % 0x1_0000_0000 * 0x1_0000_0000 + x / 0x1_0000_0000 { RotlsAre(x); }
    forall x: Word ensures Rotl(x, 33) == x % 0x8000_0000 * 0x2_0000_0000 + x / 0x8000_0000 { RotlsAre(x); }
    forall x: Word ensures Rotl(x, 34) == x % 0x4000_0000 * 0x4_0000_0000 + x / 0x4000_0000 { RotlsAre(x); }
    forall x: Word ensures Rotl(x, 39) == x % 0x200_0000 * 0x80_0000_0000 + x / 0x200_0000 { RotlsAre(x); }
    forall x: Word ensures Rotl(x, 47) == x % 0x2_0000 * 0x8000_0000_0000 + x / 0x2_0000 { RotlsAre(x); }
    forall x: Word ensures Rotl(x, 51) == x % 0x2000 * 0x8_0000_0000_0000 + x / 0x2000 { RotlsAre(x); }
  }

  /** Every shift right. */
  lemma ShrsAre(x: Word)
    ensures Shr(x, 13) == x / 0x2000
    ensures Shr(x, 19) == x / 0x8_0000
    ensures Shr(x, 27) == x / 0x800_0000
    ensures Shr(x, 30) == x / 0x4000_0000
    ensures Shr(x, 31) == x / 0x8000_0000
    ensures Shr(x, 32) == x / 0x1_0000_0000
    ensures Shr(x, 33) == x / 0x2_0000_0000
    ensures Shr(x, 37) == x / 0x20_0000_0000
    ensures Shr(x, 40) == x / 0x100_0000_0000
  {
    hide Shr, Pow2;
    PowerTable();
    ShrDivides(x, 13);
    ShrDivides(x, 19);
    ShrDivides(x, 27);
    ShrDivides(x, 30);
    ShrDivides(x, 31);
    ShrDivides(x, 32);
    ShrDivides(x, 33);
    ShrDivides(x, 37);
    ShrDivides(x, 40);
  }

  // ---- The mixers in closed form -----------------------------------------------------

  lemma FmixIs(x: Vector, q: Vector, y0: Word, y: Vector, r: Vector, z0: Word, z: Vector, t: Vector)
    requires Value(q) == Value(x) / 0x800_0000 && y0 == XorValue(x, q) && Value(y) == y0 * 0x3C79_AC49_2BA7_B653 % 0x1_0000_0000_0000_0000
    requires Value(r) == Value(y) / 0x2_0000_0000 && z0 == XorValue(y, r) && Value(z) == z0 * 0x1C69_B3F7_4AC4_AE35 % 0x1_0000_0000_0000_0000
    requires Value(t) == Value(z) / 0x800_0000
    ensures Fmix(Value(x)) == XorValue(z, t)
  {
    hide Xor, Shr, Value, XorValue;
    ShrsAre(Value(x));
    XorIs(x, q);
    ShrsAre(Value(y));
    XorIs(y, r);
    ShrsAre(Value(z));
    XorIs(z, t);
  }

  lemma Fmix128Is(x: Vector, q: Vector, y0: Word, y: Vector, r: Vector, z0: Word, z: Vector, t: Vector)
    requires Value(q) == Value(x) / 0x4000_0000 && y0 == XorValue(x, q) && Value(y) == y0 * 0xFF51_AFD7_ED55_8CCD % 0x1_0000_0000_0000_0000
    requires Value(r) == Value(y) / 0x8000_0000 && z0 == XorValue(y, r) && Value(z) == z0 * 0xC4CE_B9FE_1A85_EC53 % 0x1_0000_0000_0000_0000
    requires Value(t) == Value(z) / 0x2_0000_0000
    ensures Fmix128(Value(x)) == XorValue(z, t)
  {
    hide Xor, Shr, Value, XorValue;
    ShrsAre(Value(x));
    XorIs(x, q);
    ShrsAre(Value(y));
    XorIs(y, r);
    ShrsAre(Value(z));
    XorIs(z, t);
  }

  lemma LongFmixIs(x: Vector, q: Vector, y0: Word, y: Vector, r: Vector)
    requires Value(q) == Value(x) / 0x20_0000_0000 && y0 == XorValue(x, q) && Value(y) == y0 * 0x9E37_79B9_7F4A_7C15 % 0x1_0000_0000_0000_0000
    requires Value(r) == Value(y) / 0x1_0000_0000
    ensures LongFmix(Value(x)) == XorValue(y, r)
  {
    hide Xor, Shr, Value, XorValue;
    ShrsAre(Value(x));
    XorIs(x, q);
    ShrsAre(Value(y));
    XorIs(y, r);
  }

  lemma InjIs(x: Word, u: Word, v: Word, x': Vector, u': Vector, v': Vector, y: Vector)
    requires u == x % 0x800_0000_0000 * 0x20_0000 + x / 0x800_0000_0000
    requires v == x % 0x80_0000 * 0x200_0000_0000 + x / 0x80_0000
    requires x == Value(x') && u == Value(u') && v == Value(v') && Value(y) == XorValue(x', u')
    ensures Inj(x) == XorValue(y, v')
  {
    hide Xor, Rotl, Value, XorValue;
    RotlsAre(x);
    TwoXorsAre(x', u', v', y);
  }

  lemma Inj2Is(x: Word, u: Word, v: Word, x': Vector, u': Vector, v': Vector, y: Vector)
    requires u == x % 0x20_0000_0000_0000 * 0x800 + x / 0x20_0000_0000_0000
    requires v == x % 0x4000 * 0x4_0000_0000_0000 + x / 0x4000
    requires x == Value(x') && u == Value(u') && v == Value(v') && Value(y) == XorValue(x', u')
    ensures Inj2(x) == XorValue(y, v')
  {
    hide Xor, Rotl, Value, XorValue;
    RotlsAre(x);
    TwoXorsAre(x', u', v', y);
  }
}
