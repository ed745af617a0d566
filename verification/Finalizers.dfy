// Inverses of the mixers and finalizers, and of little-endian loading.
module Finalizers {
  import opened Powers
  import opened Words
  import opened Rotations
  import opened Bijections
  import opened Reference

  function UnInj(w: Word): Word { Unspread(w, 21, 41) }

  function UnInj2(w: Word): Word { Unspread(w, 11, 50) }

  function UnFmix(y: Word): Word {
    var y := Mul(UnXorShift(y, 27), M2INV);
    var y := Mul(UnXorShift(y, 33), M1INV);
    UnXorShift(y, 27)
  }

  function UnFmix128(y: Word): Word {
    var y := Mul(UnXorShift(y, 33), N2INV);
    var y := Mul(UnXorShift(y, 31), N1INV);
    UnXorShift(y, 30)
  }

  function UnLongFmix(y: Word): Word {
    var y := Mul(UnXorShift(y, 32), KINV);
    UnXorShift(y, 37)
  }

  lemma InjInverse(w: Word)
    ensures UnInj(Inj(w)) == w && Inj(UnInj(w)) == w
    ensures UnInj2(Inj2(w)) == w && Inj2(UnInj2(w)) == w
  {
    hide Xor, Rotl, Unspread;
    SpreadInverse(w, 21, 41);
    SpreadInverse(w, 11, 50);
  }

  /** One multiply between two shifts, the building block of the finalizers. */
  lemma StageInverse(x: Word, n: nat, c: Word, d: Word)
    requires n > 0 && Inverse(c, d)
    ensures UnXorShift(Mul(Mul(XorShift(x, n), c), d), n) == x
    ensures Mul(XorShift(UnXorShift(Mul(x, d), n), n), c) == x
  {
    hide Mul, XorShift, UnXorShift, Inverse;
    MulInverse(XorShift(x, n), c, d);
    XorShiftInverse(x, n);
    XorShiftInverse(Mul(x, d), n);
    MulInverse(x, c, d);
  }

  lemma FmixInverse(x: Word)
    ensures UnFmix(Fmix(x)) == x && Fmix(UnFmix(x)) == x
  {
    InverseConstants();
    hide Mul, Xor, Shr, UnXorShift, Inverse;
    var a := Mul(XorShift(x, 27), M1);
    StageInverse(x, 27, M1, M1INV);
    StageInverse(a, 33, M2, M2INV);
    XorShiftInverse(Mul(XorShift(a, 33), M2), 27);
    var u := UnXorShift(x, 27);
    XorShiftInverse(x, 27);
    StageInverse(u, 33, M2, M2INV);
    StageInverse(UnXorShift(Mul(u, M2INV), 33), 27, M1, M1INV);
  }

  lemma Fmix128Inverse(x: Word)
    ensures UnFmix128(Fmix128(x)) == x && Fmix128(UnFmix128(x)) == x
  {
    InverseConstants();
    hide Mul, Xor, Shr, UnXorShift, Inverse;
    var a := Mul(XorShift(x, 30), N1);
    StageInverse(x, 30, N1, N1INV);
    StageInverse(a, 31, N2, N2INV);
    XorShiftInverse(Mul(XorShift(a, 31), N2), 33);
    var u := UnXorShift(x, 33);
    XorShiftInverse(x, 33);
    StageInverse(u, 31, N2, N2INV);
    StageInverse(UnXorShift(Mul(u, N2INV), 31), 30, N1, N1INV);
  }

  lemma LongFmixInverse(x: Word)
    ensures UnLongFmix(LongFmix(x)) == x && LongFmix(UnLongFmix(x)) == x
  {
    InverseConstants();
    hide Mul, Xor, Shr, UnXorShift, Inverse;
    StageInverse(x, 37, K, KINV);
    XorShiftInverse(Mul(XorShift(x, 37), K), 32);
    var u := UnXorShift(x, 32);
    XorShiftInverse(x, 32);
    StageInverse(u, 37, K, KINV);
  }

  /** The stripe word that took lane h to g after stripe wp. */
  function UnAbsorb(h: Word, wp: Word, g: Word): Word { Sub(Xor(Mul(g, KINV), h), Rotl(wp, 27)) }

  /** The lane that stripe w after stripe wp took to g. */
  function BeforeAbsorb(g: Word, wp: Word, w: Word): Word { Xor(Mul(g, KINV), Add(w, Rotl(wp, 27))) }

  lemma AbsorbInverse(h: Word, wp: Word, w: Word)
    ensures UnAbsorb(h, wp, Absorb(h, wp, w)) == w
    ensures BeforeAbsorb(Absorb(h, wp, w), wp, w) == h
    ensures Absorb(BeforeAbsorb(h, wp, w), wp, w) == h
  {
    InverseConstants();
    hide Mul, Xor, Add, Sub, Rotl, Inverse;
    var t := Add(w, Rotl(wp, 27));
    MulInverse(Xor(h, t), K, KINV);
    XorComm(h, t);
    XorCancel(t, h);
    XorCancel(h, t);
    AddSub(w, Rotl(wp, 27));
    XorCancel(Mul(h, KINV), t);
    MulInverse(h, K, KINV);
  }

  function UnAbsorbTail(h: Word, g: Word): Word { UnInj(Sub(Mul(g, KINV), h)) }

  lemma AbsorbTailInverse(h: Word, w: Word)
    ensures UnAbsorbTail(h, AbsorbTail(h, w)) == w
  {
    InverseConstants();
    hide Mul, Add, Sub, Inj, UnInj, Inverse;
    MulInverse(Add(h, Inj(w)), K, KINV);
    AddComm(h, Inj(w));
    AddSub(Inj(w), h);
    InjInverse(w);
  }

  lemma RotlInverse(x: Word, n: nat)
    requires n <= 64
    ensures Rotl(Rotl(x, n), 64 - n) == x && Rotl(Rotl(x, 64 - n), n) == x
  {
    hide Rotl;
    RotlAdd(x, n, 64 - n);
    RotlAdd(x, 64 - n, n);
    RotlFullTurn(x);
  }

  // ---- Loads -------------------------------------------------------------------------

  /** The k lowest bytes of n, least significant first. */
  function Digits(n: nat, k: nat): (r: Bytes)
    ensures |r| == k
  {
    if k == 0 then [] else [n % 256] + Digits(n / 256, k - 1)
  }

  /** The eight bytes of a word, least significant first. */
  function BytesOf(w: Word): (r: Bytes)
    ensures |r| == 8
  {
    Digits(w, 8)
  }

  lemma NumberParts(p: Bytes, i: nat, k: nat)
    requires 0 < k && i + k <= |p|
    ensures var n := LittleEndian(p, i, k);
      n % 256 == p[i] && n / 256 == LittleEndian(p, i + 1, k - 1)
  {
  }

  lemma SliceFront(p: Bytes, i: nat, j: nat)
    requires i < j <= |p|
    ensures p[i..j] == [p[i]] + p[i + 1..j]
  {
  }

  lemma {:induction false} DigitsOfNumber(p: Bytes, i: nat, k: nat)
    requires i + k <= |p|
    ensures Digits(LittleEndian(p, i, k), k) == p[i..i + k]
    decreases k
  {
    hide LittleEndian;
    if k > 0 {
      DigitsOfNumber(p, i + 1, k - 1);
      NumberParts(p, i, k);
      SliceFront(p, i, i + k);
    }
  }

  lemma {:induction false} NumberOfDigits(p: Bytes, i: nat, n: nat, k: nat)
    requires i + k <= |p| && p[i..i + k] == Digits(n, k) && n < Pow256(k)
    ensures LittleEndian(p, i, k) == n
    decreases k
  {
    if k > 0 {
      assert p[i + 1..i + k] == p[i..i + k][1..];
      NumberOfDigits(p, i + 1, n / 256, k - 1);
      assert p[i] == p[i..i + k][0];
    }
  }

  lemma {:induction false} DigitsPrefix(n: nat, j: nat, k: nat)
    requires j <= k
    ensures Digits(n, k)[..j] == Digits(n, j)
  {
    if j > 0 {
      DigitsPrefix(n / 256, j - 1, k - 1);
      assert Digits(n, k)[..j] == [n % 256] + Digits(n / 256, k - 1)[..j - 1];
    }
  }

  lemma LoadBytes(p: Bytes, i: nat)
    requires i + 8 <= |p|
    ensures BytesOf(Load64(p, i)) == p[i..i + 8]
  {
    hide Digits, LittleEndian;
    DigitsOfNumber(p, i, 8);
  }

  lemma BytesLoad(w: Word)
    ensures Load64(BytesOf(w), 0) == w
  {
    assert Pow256(8) == TWO_64;
    hide Digits, LittleEndian, Pow256;
    NumberOfDigits(BytesOf(w), 0, w, 8);
  }

  lemma Load32Bytes(p: Bytes, i: nat)
    requires i + 4 <= |p|
    ensures BytesOf(Load32(p, i))[..4] == p[i..i + 4]
  {
    hide Digits, LittleEndian;
    DigitsPrefix(Load32(p, i), 4, 8);
    DigitsOfNumber(p, i, 4);
  }
}
