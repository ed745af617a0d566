// Rotations and shifts in the forms the sources write them: two shifts and an or, and a quotient.
module Rotations {
  import opened Powers
  import opened Words

  /** Bitwise or of two numbers of any size. */
  function BitOr(x: nat, y: nat): nat {
    if x == 0 && y == 0 then 0 else 2 * BitOr(x / 2, y / 2) + (if x % 2 == 0 && y % 2 == 0 then 0 else 1)
  }

  /** (x << n) | (x >> (64 - n)) */
  function Rotate(x: Word, n: nat): nat
    requires n <= 64
  {
    hide BitOr, Pow2;
    BitOr(Shl(x, n), x / Pow2(64 - n))
  }

  lemma {:induction false} BitOrZero(a: nat)
    ensures BitOr(a, 0) == a
  {
    if a > 0 { BitOrZero(a / 2); }
  }

  lemma {:induction false} BitOrComm(a: nat, b: nat)
    ensures BitOr(a, b) == BitOr(b, a)
  {
    if a > 0 || b > 0 { BitOrComm(a / 2, b / 2); }
  }

  lemma BitOrHalf(x: nat, y: nat)
    ensures BitOr(x, y) / 2 == BitOr(x / 2, y / 2)
    ensures BitOr(x, y) % 2 == if x % 2 == 0 && y % 2 == 0 then 0 else 1
  {
  }

  lemma BitOrUnfold(a: nat, b: nat)
    ensures BitOr(2 * a, b) == 2 * BitOr(a, b / 2) + b % 2
  {
  }

  /** Or of a high part and a low part is their sum. */
  lemma {:induction false} BitOrDisjoint(h: nat, l: nat, n: nat)
    requires l < Pow2(n)
    ensures BitOr(h * Pow2(n), l) == h * Pow2(n) + l
  {
    if n == 0 {
      assert Pow2(0) == 1;
      BitOrZero(h);
    } else {
      hide BitOr, Pow2;
      Pow2Half(h, n);
      BitOrDisjoint(h, l / 2, n - 1);
      BitOrUnfold(h * Pow2(n - 1), l);
    }
  }

  // ---- Shifting right ----------------------------------------------------------------

  lemma {:induction false} ShrDivides(x: Word, n: nat)
    ensures Shr(x, n) == x / Pow2(n)
  {
    if n > 0 {
      ShrDivides(x, n - 1);
      DivTwice(x, Pow2(n - 1));
    }
  }

  // ---- Rotating ----------------------------------------------------------------------

  lemma MulLess(h: nat, P: nat, Q: nat)
    requires h * Q < P * Q
    ensures h < P
  {
  }

  lemma SplitProduct(x: nat, P: nat, Q: nat, h: nat, r: nat)
    requires P * Q == TWO_64 && x < TWO_64 && Q > 0 && P > 0 && x == h * Q + r && r < Q
    ensures h < P && x * P % TWO_64 == r * P
  {
    MulLess(h, P, Q);
    assert x * P == h * (P * Q) + r * P;
    assert r * P <= (Q - 1) * P;
    DivUnique(x * P, TWO_64, h, r * P);
  }

  /** The two-shift form splits x at bit 64 - n and swaps the two parts. */
  lemma RotateParts(x: Word, n: nat)
    requires n <= 64
    ensures Rotate(x, n) == x % Pow2(64 - n) * Pow2(n) + x / Pow2(64 - n)
    ensures x / Pow2(64 - n) < Pow2(n)
  {
    hide BitOr, Pow2;
    var P, Q := Pow2(n), Pow2(64 - n);
    Pow2Add(n, 64 - n);
    Pow2Values();
    var h, r := x / Q, x % Q;
    assert x == h * Q + r;
    SplitProduct(x, P, Q, h, r);
    BitOrDisjoint(r, h, n);
  }

  lemma BelowProduct(P: nat, Q: nat, h: nat, s: nat)
    requires h < P && s < Q
    ensures s * P + h < Q * P
  {
    assert s * P <= (Q - 1) * P;
    assert (Q - 1) * P == Q * P - P;
  }

  lemma BitTimes(b: nat, Q: nat, s: nat, P: nat)
    requires b < 2
    ensures (b * Q + s) * P == (if b == 1 then Q * P else 0) + s * P
    ensures s * (2 * P) == 2 * (s * P)
  {
  }

  /** Rotating r * P + h with r = b * Q + s by one bit moves b from the top to the bottom. */
  lemma RotateArithmetic(P: nat, Q: nat, h: nat, b: nat, s: nat)
    requires Q * P == 0x8000_0000_0000_0000 && h < P && b < 2 && s < Q
    ensures (b * Q + s) * P + h < TWO_64
    ensures Rotl1((b * Q + s) * P + h) == s * (2 * P) + (2 * h + b)
  {
    BelowProduct(P, Q, h, s);
    BitTimes(b, Q, s, P);
    var y, z := (b * Q + s) * P + h, s * P;
    assert y == b * 0x8000_0000_0000_0000 + z + h;
  }

  lemma DivHalf(x: nat, Q: nat, h: nat, b: nat, s: nat)
    requires Q > 0 && h == x / (2 * Q) && b * Q + s == x % (2 * Q) && s < Q
    ensures x / Q == 2 * h + b && x % Q == s
  {
    assert x == h * (2 * Q) + (b * Q + s);
    assert x == (2 * h + b) * Q + s;
    DivUnique(x, Q, 2 * h + b, s);
  }

  lemma RotateNextParts(x: nat, P: nat, Q: nat)
    requires P > 0 && Q > 0 && Q * P == 0x8000_0000_0000_0000 && x / (2 * Q) < P
    ensures x % (2 * Q) * P + x / (2 * Q) < TWO_64
    ensures Rotl1(x % (2 * Q) * P + x / (2 * Q)) == x % Q * (2 * P) + x / Q
  {
    hide Rotl1;
    var h, r := x / (2 * Q), x % (2 * Q);
    var b, s := if r >= Q then 1 else 0, if r >= Q then r - Q else r;
    DivHalf(x, Q, h, b, s);
    RotateArithmetic(P, Q, h, b, s);
  }

  lemma RotateNext(x: Word, n: nat)
    requires n < 64
    ensures Rotate(x, n) < TWO_64 && Rotate(x, n + 1) == Rotl1(Rotate(x, n))
  {
    hide Rotate, Rotl1, Pow2;
    RotateParts(x, n);
    RotateParts(x, n + 1);
    var P, Q := Pow2(n), Pow2(63 - n);
    Pow2Half(1, 64 - n);
    Pow2Half(1, n + 1);
    Pow2Add(63 - n, n);
    Pow2Values();
    RotateNextParts(x, P, Q);
  }

  lemma RotateNone(x: Word)
    ensures Rotate(x, 0) == x
  {
    RotateParts(x, 0);
    Pow2Values();
  }

  /** The two-shift form is rotation, for every amount up to a full turn. */
  lemma {:induction false} RotlShifts(x: Word, n: nat)
    requires n <= 64
    ensures Rotate(x, n) == Rotl(x, n)
  {
    hide Rotl1, Rotate;
    if n == 0 {
      RotateNone(x);
    } else {
      RotlShifts(x, n - 1);
      RotateNext(x, n - 1);
    }
  }

  /** A full turn is the identity. */
  lemma RotlFullTurn(x: Word)
    ensures Rotl(x, 64) == x
  {
    hide Rotate, Rotl;
    RotlShifts(x, 64);
    RotateParts(x, 64);
    Pow2Values();
    assert Pow2(0) == 1;
  }

  /** The same with the right shift named. */
  lemma RotlOr(x: Word, n: nat)
    requires n <= 64
    ensures Rotl(x, n) == BitOr(Shl(x, n), Shr(x, 64 - n))
  {
    hide Rotl, Shl, Shr, BitOr, Pow2;
    RotlShifts(x, n);
    ShrDivides(x, 64 - n);
  }
}
