// Every step of the hash that touches a single word is a bijection. Each is given an
// explicit inverse, and both round trips are proved for every word.
module Bijections {
  import opened Powers
  import opened Words
  import opened Rotations

  const KINV: Word := 0xF1DE_83E1_9937_733D
  const M1INV: Word := 0xC09C_5FE5_BD6D_FDDB
  const M2INV: Word := 0xC47C_8F6B_6BAF_B41D
  const N1INV: Word := 0x4F74_430C_22A5_4005
  const N2INV: Word := 0x9CB4_B2F8_1293_37DB

  // ---- Odd multipliers --------------------------------------------------------------

  ghost predicate Inverse(c: Word, d: Word) { Mul(c, d) == 1 }

  lemma InverseConstants()
    ensures Inverse(K, KINV) && Inverse(M1, M1INV) && Inverse(M2, M2INV)
    ensures Inverse(N1, N1INV) && Inverse(N2, N2INV)
  {
  }

  lemma MulInverse(x: Word, c: Word, d: Word)
    requires Inverse(c, d)
    ensures Mul(Mul(x, c), d) == x && Mul(Mul(x, d), c) == x
  {
    hide Mul;
    MulAssoc(x, c, d);
    MulAssoc(x, d, c);
    MulComm(c, d);
    MulOne(x);
  }

  // ---- Rotations and shifts ---------------------------------------------------------

  lemma {:induction false} RotlAdd(x: Word, m: nat, n: nat)
    ensures Rotl(Rotl(x, m), n) == Rotl(x, m + n)
  {
    hide Rotl1;
    if n > 0 { RotlAdd(x, m, n - 1); }
  }

  lemma {:induction false} RotlXor(a: Word, b: Word, n: nat)
    ensures Rotl(Xor(a, b), n) == Xor(Rotl(a, n), Rotl(b, n))
  {
    hide Rotl1, Xor;
    if n > 0 {
      RotlXor(a, b, n - 1);
      Rotl1Xor(Rotl(a, n - 1), Rotl(b, n - 1));
    }
  }

  lemma {:induction false} ShrAdd(x: Word, m: nat, n: nat)
    ensures Shr(Shr(x, m), n) == Shr(x, m + n)
  {
    if n > 0 { ShrAdd(x, m, n - 1); }
  }

  lemma {:induction false} ShrXor(a: Word, b: Word, n: nat)
    ensures Shr(Xor(a, b), n) == Xor(Shr(a, n), Shr(b, n))
  {
    hide Xor;
    if n > 0 {
      ShrXor(a, b, n - 1);
      ShrHalfXor(Shr(a, n - 1), Shr(b, n - 1));
    }
  }

  lemma {:induction false} RotlTurns(x: Word, n: nat)
    ensures Rotl(x, 64 * n) == x
  {
    hide Rotl1;
    if n > 0 {
      RotlTurns(x, n - 1);
      RotlAdd(x, 64 * (n - 1), 64);
      RotlFullTurn(x);
    }
  }

  lemma {:induction false} ShrZero(n: nat)
    ensures Shr(0, n) == 0
  {
    if n > 0 { ShrZero(n - 1); }
  }

  lemma ShrNone(x: Word)
    ensures Shr(x, 0) == x
  {
  }

  lemma ShrBeyond(x: Word, n: nat)
    requires n >= 64
    ensures Shr(x, n) == 0
  {
    hide Shr, Pow2;
    ShrAdd(x, 64, n - 64);
    ShrDivides(x, 64);
    Pow2Values();
    ShrZero(n - 64);
  }

  lemma XorZero(a: Word)
    ensures Xor(a, 0) == a && Xor(0, a) == a && Xor(a, a) == 0
  {
    BitXorCancel(a, 0);
    BitXorCancel(0, a);
    BitXorComm(0, a);
    BitXorZero(a);
  }

  lemma {:induction false} BitXorZero(a: nat)
    ensures BitXor(a, 0) == a
  {
    if a > 0 { BitXorZero(a / 2); }
  }

  /** Regroups a sum of four. */
  lemma XorSwap(a: Word, b: Word, c: Word, d: Word)
    ensures Xor(Xor(a, b), Xor(c, d)) == Xor(Xor(a, c), Xor(b, d))
  {
    hide Xor;
    XorAssoc(a, b, Xor(c, d));
    XorAssoc(b, c, d);
    XorComm(b, c);
    XorAssoc(c, b, d);
    XorAssoc(a, c, Xor(b, d));
  }

  // ---- x ^ (x >> n) -----------------------------------------------------------------

  function XorShift(x: Word, n: nat): Word { Xor(x, Shr(x, n)) }

  /** y ^ (y >> n) ^ (y >> 2n) ^ ..., k terms. */
  function ShiftSum(y: Word, n: nat, k: nat): Word {
    if k == 0 then 0 else Xor(y, Shr(ShiftSum(y, n, k - 1), n))
  }

  function UnXorShift(y: Word, n: nat): Word { ShiftSum(y, n, 64) }

  lemma XorBridge(a: Word, b: Word, c: Word)
    ensures Xor(Xor(a, b), Xor(b, c)) == Xor(a, c)
  {
    hide Xor;
    XorAssoc(Xor(a, b), b, c);
    XorCancel(a, b);
  }

  lemma {:induction false} ShiftSumTelescopes(y: Word, n: nat, k: nat)
    ensures Xor(ShiftSum(y, n, k), Shr(ShiftSum(y, n, k), n)) == Xor(y, Shr(y, k * n))
    ensures ShiftSum(XorShift(y, n), n, k) == Xor(y, Shr(y, k * n))
  {
    hide Xor, Shr;
    if k == 0 {
      ShrNone(y);
      ShrZero(n);
      XorZero(y);
      XorZero(0);
    } else {
      ShiftSumTelescopes(y, n, k - 1);
      var g, s := ShiftSum(y, n, k - 1), Shr(y, n);
      ShrXor(y, Shr(g, n), n);
      XorSwap(y, Shr(g, n), s, Shr(Shr(g, n), n));
      ShrXor(g, Shr(g, n), n);
      ShrXor(y, Shr(y, (k - 1) * n), n);
      ShrAdd(y, (k - 1) * n, n);
      assert (k - 1) * n + n == k * n;
      XorBridge(y, s, Shr(y, k * n));
    }
  }

  lemma XorShiftInverse(x: Word, n: nat)
    requires n > 0
    ensures UnXorShift(XorShift(x, n), n) == x
    ensures XorShift(UnXorShift(x, n), n) == x
  {
    hide Xor, Shr, ShiftSum;
    ShiftSumTelescopes(x, n, 64);
    ShrBeyond(x, 64 * n);
    XorZero(x);
  }

  // ---- x ^ rotl(x, a) ^ rotl(x, b) --------------------------------------------------

  function Spread(x: Word, a: nat, b: nat): Word { Xor(Xor(x, Rotl(x, a)), Rotl(x, b)) }

  /** Spread applied k times. */
  function SpreadPower(x: Word, a: nat, b: nat, k: nat): Word {
    if k == 0 then x else Spread(SpreadPower(x, a, b, k - 1), a, b)
  }

  function Unspread(x: Word, a: nat, b: nat): Word { SpreadPower(x, a, b, 63) }

  /** Over GF(2) the cross terms of a square cancel, so squaring doubles both rotations. */
  lemma SpreadSquare(x: Word, a: nat, b: nat)
    ensures Spread(Spread(x, a, b), a, b) == Spread(x, 2 * a, 2 * b)
  {
    hide Xor, Rotl;
    var p, q := Rotl(x, a), Rotl(x, b);
    RotlXor(Xor(x, p), q, a);
    RotlXor(x, p, a);
    RotlXor(Xor(x, p), q, b);
    RotlXor(x, p, b);
    RotlAdd(x, a, a);
    RotlAdd(x, a, b);
    RotlAdd(x, b, a);
    RotlAdd(x, b, b);
    var pp, pq, qq := Rotl(x, 2 * a), Rotl(x, a + b), Rotl(x, 2 * b);
    XorSwap(Xor(x, p), q, Xor(p, pp), pq);
    XorBridge(x, p, pp);
    XorBridge(Xor(x, pp), Xor(q, pq), qq);
  }

  lemma {:induction false} SpreadPowerDoubles(x: Word, a: nat, b: nat, k: nat)
    ensures SpreadPower(x, a, b, 2 * k) == SpreadPower(x, 2 * a, 2 * b, k)
  {
    hide Spread;
    if k > 0 {
      SpreadPowerDoubles(x, a, b, k - 1);
      var y := SpreadPower(x, a, b, 2 * k - 2);
      assert SpreadPower(x, a, b, 2 * k - 1) == Spread(y, a, b);
      SpreadSquare(y, a, b);
    }
  }

  /** Applying the spread 64 times turns both rotations by whole turns: the identity. */
  lemma SpreadOrder(x: Word, a: nat, b: nat)
    ensures SpreadPower(x, a, b, 64) == x
  {
    hide Xor, Rotl;
    SpreadPowerDoubles(x, a, b, 32);
    SpreadPowerDoubles(x, 2 * a, 2 * b, 16);
    SpreadPowerDoubles(x, 4 * a, 4 * b, 8);
    SpreadPowerDoubles(x, 8 * a, 8 * b, 4);
    SpreadPowerDoubles(x, 16 * a, 16 * b, 2);
    SpreadPowerDoubles(x, 32 * a, 32 * b, 1);
    assert SpreadPower(x, 64 * a, 64 * b, 0) == x;
    RotlTurns(x, a);
    RotlTurns(x, b);
    XorCancel(x, x);
  }

  lemma {:induction false} SpreadPowerShift(x: Word, a: nat, b: nat, k: nat)
    ensures SpreadPower(Spread(x, a, b), a, b, k) == SpreadPower(x, a, b, k + 1)
  {
    hide Spread;
    if k == 0 {
      assert SpreadPower(x, a, b, 0) == x;
    } else {
      SpreadPowerShift(x, a, b, k - 1);
    }
  }

  lemma SpreadInverse(x: Word, a: nat, b: nat)
    ensures Unspread(Spread(x, a, b), a, b) == x
    ensures Spread(Unspread(x, a, b), a, b) == x
  {
    hide Spread;
    SpreadPowerShift(x, a, b, 63);
    SpreadOrder(x, a, b);
  }
}
