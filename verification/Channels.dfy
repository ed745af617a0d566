// Where a difference could leave the lanes again, and which constants keep it from doing so.
module Channels {
  import opened Powers
  import opened Words
  import opened Rotations
  import opened Bijections
  import opened Reference
  import opened LaneWalks

  const TOP: Word := 0x8000_0000_0000_0000
  const NEXT: Word := 0x4000_0000_0000_0000

  // ---- The top of the word -----------------------------------------------------------

  /** The subgroup generated by bit 62. */
  predicate TopWindow(d: Word) { d == 0 || d == TOP || d == NEXT || d == TOP + NEXT }

  lemma TopBitFixed(c: Word)
    requires c % 2 == 1
    ensures Mul(TOP, c) == TOP
  {
    assert TOP * c == c / 2 * TWO_64 + TOP;
  }

  lemma NextBitFixed(c: Word)
    ensures Mul(NEXT, c) == NEXT <==> c % 4 == 1
  {
    assert NEXT * c == c / 4 * TWO_64 + NEXT * (c % 4);
  }

  /** A multiplier fixes every difference in the top window exactly when it is 1 modulo 4. */
  lemma WindowFixed(c: Word)
    ensures (forall d :: TopWindow(d) ==> Mul(d, c) == d) <==> c % 4 == 1
  {
    hide Mul;
    NextBitFixed(c);
    if c % 4 == 1 {
      TopBitFixed(c);
      MulComm(0, c);
      MulZero(c);
      MulAdd(TOP, NEXT, c);
      assert Add(TOP, NEXT) == TOP + NEXT;
    } else {
      assert TopWindow(NEXT);
    }
  }

  lemma MulZero(c: Word)
    ensures Mul(c, 0) == 0
  {
  }

  lemma AddTop(x: Word)
    ensures Add(x, TOP) == Xor(x, TOP)
  {
    hide BitXor, Wrap, Rotl1;
    var t, r := x / TOP, x % TOP;
    TopAndRest(x);
    WrapOnce(x + TOP);
    Pow2Values();
    BitXorParts(t, 1, r, 0, 63);
    XorZero(r);
    SmallXors();
  }

  lemma SmallXors()
    ensures BitXor(0, 1) == 1 && BitXor(1, 1) == 0
  {
  }

  lemma TopThroughMul(x: Word)
    ensures Mul(Xor(x, TOP), K) == Xor(Mul(x, K), TOP)
  {
    TopBitFixed(K);
    hide Mul, Xor, Add;
    AddTop(x);
    MulAdd(x, TOP, K);
    AddTop(Mul(x, K));
  }

  lemma TopThroughAdd(x: Word, y: Word)
    ensures Add(Xor(x, TOP), y) == Xor(Add(x, y), TOP)
  {
    hide Add, Xor;
    AddTop(x);
    AddTop(Add(x, y));
    AddAssoc(x, TOP, y);
    AddComm(TOP, y);
    AddAssoc(x, y, TOP);
  }

  lemma TopThroughAbsorb(h: Word, wp: Word, w: Word)
    ensures Absorb(Xor(h, TOP), wp, w) == Xor(Absorb(h, wp, w), TOP)
  {
    hide Mul, Xor, Add, Rotl;
    var t := Add(w, Rotl(wp, 27));
    XorAssoc(h, TOP, t);
    XorComm(TOP, t);
    XorAssoc(h, t, TOP);
    TopThroughMul(Xor(h, t));
  }

  /** A difference in the top bit of a lane survives any blocks unchanged: nothing in a lane alone disturbs it. */
  lemma {:induction false} TopBitTravels(j: nat, h: Word, p: Bytes, n: nat)
    requires j < 8 && n <= |p| && n % 64 == 0
    ensures LaneWalk(j, Xor(h, TOP), p, n) == Xor(LaneWalk(j, h, p, n), TOP)
    decreases n
  {
    hide Add, Absorb, Stripe, Checkpoint, Xor;
    if n > 0 {
      var o := n - 64;
      var u, w := Stripe(p, o + 8 * j - 8), Stripe(p, o + 8 * j);
      TopBitTravels(j, h, p, o);
      TopThroughAbsorb(LaneWalk(j, h, p, o), u, w);
      TopThroughAdd(Absorb(LaneWalk(j, h, p, o), u, w), Checkpoint(j, p, o));
    }
  }

  // ---- Rotations that undo each other ------------------------------------------------

  lemma {:induction false} RotlOne(k: nat)
    requires k < 64
    ensures Rotl(1, k) == Pow2(k)
  {
    if k > 0 {
      RotlOne(k - 1);
      Pow2Below(k, 64);
      Pow2Values();
    }
  }

  /** Turning by less than a full turn moves the word 1. */
  lemma OneMoves(k: nat)
    requires 0 < k < 64
    ensures Rotl(1, k) != 1
  {
    hide Rotl;
    RotlOne(k);
    Pow2Below(0, k);
  }

  /** One rotation undoes another on every word exactly when the amounts add up to full turns. */
  lemma RotationsResonate(r: nat, s: nat)
    ensures (forall w: Word :: Rotl(Rotl(w, r), s) == w) <==> (r + s) % 64 == 0
  {
    hide Rotl;
    forall w: Word ensures Rotl(Rotl(w, r), s) == Rotl(w, (r + s) % 64) {
      RotlAdd(w, r, s);
      RotlAdd(w, 64 * ((r + s) / 64), (r + s) % 64);
      RotlTurns(w, (r + s) / 64);
    }
    if (r + s) % 64 == 0 {
      forall w: Word ensures Rotl(w, 0) == w { RotlTurns(w, 0); }
    } else {
      OneMoves((r + s) % 64);
      var w: Word := 1;
      assert Rotl(Rotl(w, r), s) != w;
    }
  }

  /** None of the fold rotations undoes the 27 of the absorb. */
  lemma FoldsDoNotResonate(s: nat)
    requires s in {11, 13, 19, 29, 31, 33, 47}
    ensures exists w: Word :: Rotl(Rotl(w, 27), s) != w
  {
    RotationsResonate(27, s);
  }

  // ---- The ladder: how soon a rotated copy is back in the top window -------------------

  lemma {:induction false} PowersDiffer(i: nat, j: nat)
    requires i != j
    ensures Pow2(i) != Pow2(j)
  {
    if i < j { Pow2Below(i, j); } else { Pow2Below(j, i); }
  }

  /** Rotation moves a single bit round the word. */
  lemma BitWalks(q: nat, n: nat)
    requires q < 64
    ensures Pow2(q) < TWO_64 && Rotl(Pow2(q), n) == Pow2((q + n) % 64)
  {
    hide Rotl;
    Pow2Below(q, 64);
    Pow2Values();
    RotlOne(q);
    RotlAdd(1, q, n);
    RotlAdd(1, 64 * ((q + n) / 64), (q + n) % 64);
    RotlTurns(1, (q + n) / 64);
    RotlOne((q + n) % 64);
  }

  /** Displaced by n in all, a bit of the top window is in the top window again. */
  predicate BackInWindow(n: nat) {
    Rotl(TOP, n) == TOP || Rotl(TOP, n) == NEXT || Rotl(NEXT, n) == TOP || Rotl(NEXT, n) == NEXT
  }

  /** Displaced by r at each of d stripes, it is. */
  predicate Returns(r: nat, d: nat) { BackInWindow(r * d) }

  lemma TopPowers()
    ensures TOP == Pow2(63) && NEXT == Pow2(62)
  {
    Pow2Values();
  }

  lemma SamePower(i: nat, j: nat)
    ensures Pow2(i) == Pow2(j) <==> i == j
  {
    if i != j { PowersDiffer(i, j); }
  }

  lemma Position(q: nat, n: nat)
    requires q < 64
    ensures (q + n) % 64 == if q + n % 64 < 64 then q + n % 64 else q + n % 64 - 64
  {
    if q + n % 64 < 64 {
      DivUnique(q + n, 64, n / 64, q + n % 64);
    } else {
      DivUnique(q + n, 64, n / 64 + 1, q + n % 64 - 64);
    }
  }

  lemma WindowWalks(n: nat)
    ensures Rotl(TOP, n) == TOP <==> n % 64 == 0
    ensures Rotl(TOP, n) == NEXT <==> n % 64 == 63
    ensures Rotl(NEXT, n) == TOP <==> n % 64 == 1
    ensures Rotl(NEXT, n) == NEXT <==> n % 64 == 0
  {
    hide Rotl, Pow2;
    TopPowers();
    BitWalks(63, n);
    BitWalks(62, n);
    Position(63, n);
    Position(62, n);
    SamePower((63 + n) % 64, 63);
    SamePower((63 + n) % 64, 62);
    SamePower((62 + n) % 64, 63);
    SamePower((62 + n) % 64, 62);
  }

  lemma ReturnsWhen(r: nat, d: nat)
    ensures Returns(r, d) <==> r * d % 64 == 0 || r * d % 64 == 1 || r * d % 64 == 63
  {
    hide Rotl;
    WindowWalks(r * d);
  }

  /** With the absorb's rotation by 27 the way back takes 19 stripes; with 21 it would take 3. */
  lemma LadderReturn()
    ensures Returns(27, 19) && forall d :: 0 < d < 19 ==> !Returns(27, d)
    ensures Returns(21, 3) && !Returns(21, 1) && !Returns(21, 2)
  {
    hide Returns;
    forall d | 0 < d < 19 ensures !Returns(27, d) { ReturnsWhen(27, d); }
    ReturnsWhen(27, 19);
    ReturnsWhen(21, 1);
    ReturnsWhen(21, 2);
    ReturnsWhen(21, 3);
  }

  /** How far a bit has moved after d turns of a loop over lanes lanes. */
  function Displacement(lanes: nat, d: nat): nat { 27 * (lanes * d) % 64 }

  lemma RemainderIs(x: nat, e: nat)
    requires e < 64
    ensures (64 * x + e) % 64 == e
  {
    DivUnique(64 * x + e, 64, x, e);
  }

  lemma MultipleOfEight(x: nat)
    ensures 8 * x % 64 == 8 * (x % 8)
  {
    DivUnique(8 * x, 64, x / 8, 8 * (x % 8));
  }

  lemma MultipleOfFour(x: nat)
    ensures 4 * x % 64 == 4 * (x % 16)
  {
    DivUnique(4 * x, 64, x / 16, 4 * (x % 16));
  }

  lemma EightApart(d: nat)
    ensures Displacement(8, d) % 8 == 0
  {
    assert 27 * (8 * d) == 8 * (27 * d);
    MultipleOfEight(27 * d);
  }

  lemma FourApart(d: nat)
    ensures Displacement(4, d) % 4 == 0
  {
    assert 27 * (4 * d) == 4 * (27 * d);
    MultipleOfFour(27 * d);
  }

  /** Back in its own lane, a bit is displaced by exactly the multiples of 8 in the eight-lane loop. */
  lemma EightLaneDisplacements(e: nat)
    requires e < 64
    ensures (exists d: nat :: Displacement(8, d) == e) <==> e % 8 == 0
  {
    if e % 8 == 0 {
      var f := e / 8;
      assert 27 * (8 * (3 * f)) == 64 * (10 * f) + e;
      RemainderIs(10 * f, e);
      assert Displacement(8, 3 * f) == e;
    }
    forall d: nat ensures Displacement(8, d) % 8 == 0 { EightApart(d); }
  }

  /** And by exactly the multiples of 4 in the four-lane loop. */
  lemma FourLaneDisplacements(e: nat)
    requires e < 64
    ensures (exists d: nat :: Displacement(4, d) == e) <==> e % 4 == 0
  {
    if e % 4 == 0 {
      var f := e / 4;
      assert 27 * (4 * (3 * f)) == 64 * (5 * f) + e;
      RemainderIs(5 * f, e);
      assert Displacement(4, 3 * f) == e;
    }
    forall d: nat ensures Displacement(4, d) % 4 == 0 { FourApart(d); }
  }

  /** Stripe by stripe, a bit visits every position. */
  lemma EveryPositionVisited(e: nat)
    requires e < 64
    ensures exists d: nat :: Displacement(1, d) == e
  {
    assert 27 * (1 * (19 * e)) == 64 * (8 * e) + e;
    RemainderIs(8 * e, e);
    assert Displacement(1, 19 * e) == e;
  }
}
