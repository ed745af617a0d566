// The bulk loop seen one lane at a time. Lane j after n bytes is a fold over the stripes of
// its own column; nothing crosses lanes except through the raw input words. From that form
// every lane is a bijection of the seed, and a block can be read back from the lanes.
module LaneWalks {
  import opened Words
  import opened Bijections
  import opened Reference
  import opened Finalizers

  /** The stripe at byte offset i; the stripe before the first is zero. */
  function Stripe(p: Bytes, i: int): Word
    requires i + 8 <= |p|
  {
    if i < 0 then 0 else Load64(p, i)
  }

  /** What lane 0 is given on top of its absorb: the raw last stripe of the block at offset o. */
  function Checkpoint(j: nat, p: Bytes, o: nat): Word
    requires o + 64 <= |p|
  {
    if j == 0 then Load64(p, o + 56) else 0
  }

  /** Lane j, started from h, after the first n bytes. */
  function LaneWalk(j: nat, h: Word, p: Bytes, n: nat): Word
    requires j < 8 && n <= |p| && n % 64 == 0
    decreases n
  {
    if n == 0 then h
    else
      var o := n - 64;
      Add(Absorb(LaneWalk(j, h, p, o), Stripe(p, o + 8 * j - 8), Stripe(p, o + 8 * j)), Checkpoint(j, p, o))
  }

  /** The value lane j was started from. */
  function LaneRewind(j: nat, g: Word, p: Bytes, n: nat): Word
    requires j < 8 && n <= |p| && n % 64 == 0
    decreases n
  {
    if n == 0 then g
    else
      var o := n - 64;
      LaneRewind(j, BeforeAbsorb(Sub(g, Checkpoint(j, p, o)), Stripe(p, o + 8 * j - 8), Stripe(p, o + 8 * j)), p, o)
  }

  lemma LaneStep(h: Word, u: Word, w: Word, c: Word)
    ensures BeforeAbsorb(Sub(Add(Absorb(h, u, w), c), c), u, w) == h
    ensures Add(Absorb(BeforeAbsorb(Sub(h, c), u, w), u, w), c) == h
  {
    hide Add, Sub, Absorb, BeforeAbsorb;
    AddSub(Absorb(h, u, w), c);
    AbsorbInverse(h, u, w);
    AbsorbInverse(Sub(h, c), u, w);
    AddSub(h, c);
  }

  /** For fixed bytes, walking a lane and rewinding it are inverse to each other. */
  lemma {:induction false} LaneWalkInverse(j: nat, h: Word, p: Bytes, n: nat)
    requires j < 8 && n <= |p| && n % 64 == 0
    ensures LaneRewind(j, LaneWalk(j, h, p, n), p, n) == h
    ensures LaneWalk(j, LaneRewind(j, h, p, n), p, n) == h
    decreases n
  {
    hide Add, Sub, Absorb, BeforeAbsorb, Stripe, Checkpoint;
    if n > 0 {
      var o := n - 64;
      var u, w, c := Stripe(p, o + 8 * j - 8), Stripe(p, o + 8 * j), Checkpoint(j, p, o);
      LaneWalkInverse(j, h, p, o);
      LaneStep(LaneWalk(j, h, p, o), u, w, c);
      LaneWalkInverse(j, BeforeAbsorb(Sub(h, c), u, w), p, o);
      LaneStep(h, u, w, c);
    }
  }

  /** Lane j of a state. */
  function LaneOf(st: Lanes, j: nat): Word
    requires j < 8
  {
    match j
    case 0 => st.h0 case 1 => st.h1 case 2 => st.h2 case 3 => st.h3
    case 4 => st.h4 case 5 => st.h5 case 6 => st.h6 case _ => st.h7
  }

  lemma AddNothing(a: Word)
    ensures Add(a, 0) == a
  {
  }

  lemma BlockLane(st: Lanes, p: Bytes, o: nat, j: nat)
    requires o + 64 <= |p| && j < 8 && st.wp == Stripe(p, o - 8)
    ensures LaneOf(Block(st, p, o), j) ==
      Add(Absorb(LaneOf(st, j), Stripe(p, o + 8 * j - 8), Stripe(p, o + 8 * j)), Checkpoint(j, p, o))
    ensures Block(st, p, o).wp == Stripe(p, o + 56)
  {
    hide Add, Absorb, Load64;
    AddNothing(LaneOf(Block(st, p, o), j));
    match j
    case 0 => assert o + 8 * j == o;
    case 1 => assert o + 8 * j == o + 8;
    case 2 => assert o + 8 * j == o + 16;
    case 3 => assert o + 8 * j == o + 24;
    case 4 => assert o + 8 * j == o + 32;
    case 5 => assert o + 8 * j == o + 40;
    case 6 => assert o + 8 * j == o + 48;
    case _ => assert o + 8 * j == o + 56;
  }

  lemma LaneWalkNext(j: nat, h: Word, p: Bytes, o: nat)
    requires j < 8 && o + 64 <= |p| && o % 64 == 0
    ensures LaneWalk(j, h, p, o + 64) ==
      Add(Absorb(LaneWalk(j, h, p, o), Stripe(p, o + 8 * j - 8), Stripe(p, o + 8 * j)), Checkpoint(j, p, o))
  {
    hide Add, Absorb, Stripe, Checkpoint;
  }

  lemma WalkNothing(st: Lanes, p: Bytes, j: nat)
    requires j < 8
    ensures Blocks(st, p, 0) == st
    ensures LaneWalk(j, LaneOf(st, j), p, 0) == LaneOf(st, j)
  {
    hide LaneOf;
  }

  /** The loop that carries wp through eight lanes computes each lane's own column walk. */
  lemma {:induction false} BlocksAreLaneWalks(st: Lanes, p: Bytes, n: nat, j: nat)
    requires n <= |p| && n % 64 == 0 && j < 8 && st.wp == 0
    ensures LaneOf(Blocks(st, p, n), j) == LaneWalk(j, LaneOf(st, j), p, n)
    ensures Blocks(st, p, n).wp == Stripe(p, n - 8)
    decreases n
  {
    hide Add, Absorb, Load64, Block, Blocks, LaneOf, LaneWalk, Checkpoint;
    if n == 0 {
      WalkNothing(st, p, j);
    } else {
      var o := n - 64;
      BlocksAreLaneWalks(st, p, o, j);
      BlocksNext(st, p, o);
      LaneWalkNext(j, LaneOf(st, j), p, o);
      BlockLane(Blocks(st, p, o), p, o, j);
    }
  }

  // ---- The seed in every lane --------------------------------------------------------

  /** The premixed seed whose lane j starts as h. */
  function PremixOfStart(j: nat, h: Word): Word
    requires j < 8
  {
    match j
      case 0 => Xor(h, K)
      case 1 => Rotl(Sub(h, Shl(K, 21)), 47)
      case 2 => Rotl(Xor(h, Shr(K, 13)), 30)
      case 3 => Rotl(Sub(h, Shl(K, 42)), 13)
      case 4 => Sub(h, Shr(K, 27))
      case 5 => Rotl(Xor(h, Shl(K, 9)), 51)
      case 6 => Rotl(Sub(h, Shr(K, 40)), 38)
      case _ => Rotl(Xor(h, Shl(K, 30)), 25)
  }

  /** The seed whose lane j starts as h. */
  function SeedOfStart(j: nat, h: Word): Word
    requires j < 8
  {
    Xor(PremixOfStart(j, h), K)
  }

  lemma RotlXorStart(s: Word, c: Word, n: nat)
    requires n <= 64
    ensures Rotl(Xor(Xor(Rotl(s, n), c), c), 64 - n) == s
    ensures Xor(Rotl(Rotl(Xor(s, c), 64 - n), n), c) == s
  {
    hide Rotl, Xor;
    XorCancel(Rotl(s, n), c);
    RotlInverse(s, n);
    RotlInverse(Xor(s, c), n);
    XorCancel(s, c);
  }

  lemma RotlAddStart(s: Word, c: Word, n: nat)
    requires n <= 64
    ensures Rotl(Sub(Add(Rotl(s, n), c), c), 64 - n) == s
    ensures Add(Rotl(Rotl(Sub(s, c), 64 - n), n), c) == s
  {
    hide Rotl, Add, Sub;
    AddSub(Rotl(s, n), c);
    RotlInverse(s, n);
    RotlInverse(Sub(s, c), n);
    AddSub(s, c);
  }

  /** Every lane's initial value is a bijection of the seed. */
  lemma StartInverse(j: nat, x: Word)
    requires j < 8
    ensures SeedOfStart(j, LaneOf(InitLanes(x), j)) == x
    ensures LaneOf(InitLanes(SeedOfStart(j, x)), j) == x
  {
    hide Rotl, Xor, Add, Sub, LanesOfPremix, LaneOf, PremixOfStart;
    StartOfPremix(j, Premix(x));
    StartOfPremix(j, x);
    XorCancel(x, K);
    XorCancel(PremixOfStart(j, x), K);
  }

  lemma StartOfPremix(j: nat, s: Word)
    requires j < 8
    ensures PremixOfStart(j, LaneOf(LanesOfPremix(s), j)) == s
    ensures LaneOf(LanesOfPremix(PremixOfStart(j, s)), j) == s
  {
    hide Rotl, Xor, Add, Sub, Shl, Shr;
    match j
    case 0 => XorCancel(s, K);
    case 1 => RotlAddStart(s, Shl(K, 21), 17);
    case 2 => RotlXorStart(s, Shr(K, 13), 34);
    case 3 => RotlAddStart(s, Shl(K, 42), 51);
    case 4 => AddSub(s, Shr(K, 27));
    case 5 => RotlXorStart(s, Shl(K, 9), 13);
    case 6 => RotlAddStart(s, Shr(K, 40), 26);
    case _ => RotlXorStart(s, Shl(K, 30), 39);
  }

  /** The seed under which lane j ends as g after the blocks of the first n bytes of p. */
  function SeedOfLane(j: nat, g: Word, p: Bytes, n: nat): Word
    requires j < 8 && n <= |p| && n % 64 == 0
  {
    hide LaneRewind, SeedOfStart;
    SeedOfStart(j, LaneRewind(j, g, p, n))
  }

  /** After any whole blocks, each of the eight lanes is a bijection of the seed. */
  lemma LaneIsBijectionOfSeed(j: nat, x: Word, p: Bytes, n: nat)
    requires j < 8 && n <= |p| && n % 64 == 0
    ensures SeedOfLane(j, LaneOf(Blocks(InitLanes(x), p, n), j), p, n) == x
    ensures LaneOf(Blocks(InitLanes(SeedOfLane(j, x, p, n)), p, n), j) == x
  {
    var y := SeedOfLane(j, x, p, n);
    InitialStripe(x);
    InitialStripe(y);
    hide InitLanes, Block, LaneOf, LaneRewind, LaneWalk, SeedOfStart;
    BlocksAreLaneWalks(InitLanes(x), p, n, j);
    LaneWalkInverse(j, LaneOf(InitLanes(x), j), p, n);
    StartInverse(j, x);
    BlocksAreLaneWalks(InitLanes(y), p, n, j);
    StartInverse(j, LaneRewind(j, x, p, n));
    LaneWalkInverse(j, x, p, n);
  }

  lemma InitialStripe(x: Word)
    ensures InitLanes(x).wp == 0
  {
    hide Xor, Add, Rotl, Shl, Shr;
  }

  // ---- Reading a block back ----------------------------------------------------------

  /** The eight stripes that took state a to state b. */
  function StripesBetween(a: Lanes, b: Lanes): seq<Word> {
    var w0 := UnAbsorb(a.h0, a.wp, Sub(b.h0, b.wp));
    var w1 := UnAbsorb(a.h1, w0, b.h1);
    var w2 := UnAbsorb(a.h2, w1, b.h2);
    var w3 := UnAbsorb(a.h3, w2, b.h3);
    var w4 := UnAbsorb(a.h4, w3, b.h4);
    var w5 := UnAbsorb(a.h5, w4, b.h5);
    var w6 := UnAbsorb(a.h6, w5, b.h6);
    [w0, w1, w2, w3, w4, w5, w6, b.wp]
  }

  /** The bytes of words, in order. */
  function Unstripe(ws: seq<Word>): Bytes {
    if |ws| == 0 then [] else Unstripe(ws[..|ws| - 1]) + BytesOf(ws[|ws| - 1])
  }

  lemma StripesFromLanes(st: Lanes, p: Bytes, o: nat)
    requires o + 64 <= |p|
    ensures StripesBetween(st, Block(st, p, o)) ==
      [Load64(p, o), Load64(p, o + 8), Load64(p, o + 16), Load64(p, o + 24),
       Load64(p, o + 32), Load64(p, o + 40), Load64(p, o + 48), Load64(p, o + 56)]
  {
    hide Load64, Absorb, Add, Sub, UnAbsorb;
    AddSub(Absorb(st.h0, st.wp, Load64(p, o)), Load64(p, o + 56));
    AbsorbInverse(st.h0, st.wp, Load64(p, o));
    AbsorbInverse(st.h1, Load64(p, o), Load64(p, o + 8));
    AbsorbInverse(st.h2, Load64(p, o + 8), Load64(p, o + 16));
    AbsorbInverse(st.h3, Load64(p, o + 16), Load64(p, o + 24));
    AbsorbInverse(st.h4, Load64(p, o + 24), Load64(p, o + 32));
    AbsorbInverse(st.h5, Load64(p, o + 32), Load64(p, o + 40));
    AbsorbInverse(st.h6, Load64(p, o + 40), Load64(p, o + 48));
  }

  /** One block is injective in its bytes: from the lanes before and after, the bytes come back. */
  lemma BlockFromLanes(st: Lanes, p: Bytes, o: nat)
    requires o + 64 <= |p|
    ensures Unstripe(StripesBetween(st, Block(st, p, o))) == p[o..o + 64]
  {
    hide Load64, Block, StripesBetween, Unstripe;
    StripesFromLanes(st, p, o);
    assert StripesOf(p, o, 8) == StripesBetween(st, Block(st, p, o));
    UnstripeStripes(p, o, 8);
  }

  /** The m stripes from offset o on. */
  function StripesOf(p: Bytes, o: nat, m: nat): (r: seq<Word>)
    requires o + 8 * m <= |p|
    ensures |r| == m && forall k :: 0 <= k < m ==> r[k] == Load64(p, o + 8 * k)
  {
    if m == 0 then [] else StripesOf(p, o, m - 1) + [Load64(p, o + 8 * (m - 1))]
  }

  lemma UnstripeSnoc(ws: seq<Word>, w: Word)
    ensures Unstripe(ws + [w]) == Unstripe(ws) + BytesOf(w)
  {
    hide BytesOf;
    assert (ws + [w])[..|ws|] == ws;
  }

  lemma {:induction false} UnstripeStripes(p: Bytes, o: nat, m: nat)
    requires o + 8 * m <= |p|
    ensures Unstripe(StripesOf(p, o, m)) == p[o..o + 8 * m]
  {
    hide Load64, BytesOf, Unstripe;
    if m == 0 {
      UnstripeNothing();
    } else {
      var i := o + 8 * (m - 1);
      UnstripeStripes(p, o, m - 1);
      UnstripeSnoc(StripesOf(p, o, m - 1), Load64(p, i));
      LoadBytes(p, i);
      JoinSlices(p, o, i, i + 8);
    }
  }

  lemma UnstripeNothing()
    ensures Unstripe([]) == []
  {
  }

  lemma JoinSlices(p: Bytes, i: nat, j: nat, k: nat)
    requires i <= j <= k <= |p|
    ensures p[i..j] + p[j..k] == p[i..k]
  {
  }
}
