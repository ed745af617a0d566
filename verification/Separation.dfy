// What the finalizers cannot lose: a difference that reaches a single lane of the fold,
// and a difference in length, always shows in the digest.
module Separation {
  import opened Words
  import opened Powers
  import opened Bijections
  import opened Reference
  import opened Finalizers

  // ---- Injectivity, one operation at a time ------------------------------------------

  lemma MulInjective(x: Word, y: Word)
    requires Mul(x, K) == Mul(y, K)
    ensures x == y
  {
    InverseConstants();
    hide Mul, Inverse;
    MulInverse(x, K, KINV);
    MulInverse(y, K, KINV);
  }

  lemma XorInjective(a: Word, x: Word, y: Word)
    requires Xor(a, x) == Xor(a, y) || Xor(x, a) == Xor(y, a)
    ensures x == y
  {
    hide Xor;
    XorComm(a, x);
    XorComm(a, y);
    XorCancel(x, a);
    XorCancel(y, a);
  }

  lemma AddInjective(a: Word, x: Word, y: Word)
    requires Add(a, x) == Add(a, y) || Add(x, a) == Add(y, a)
    ensures x == y
  {
    hide Add, Sub;
    AddComm(a, x);
    AddComm(a, y);
    AddSub(x, a);
    AddSub(y, a);
  }

  lemma RotlInjective(x: Word, y: Word, n: nat)
    requires n <= 64 && Rotl(x, n) == Rotl(y, n)
    ensures x == y
  {
    hide Rotl;
    RotlInverse(x, n);
    RotlInverse(y, n);
  }

  // ---- From one fold word to both digest words ---------------------------------------

  /** Changing exactly one fold word changes both output words. */
  lemma FoldsSeparate(s: Word, f: Folds, g: Folds)
    requires (f.t0 == g.t0) != (f.t1 == g.t1)
    ensures LowWord(s, f) != LowWord(s, g) && HighWord(s, f) != HighWord(s, g)
  {
    if LowWord(s, f) == LowWord(s, g) { LowFoldsEqual(s, f, g); }
    if HighWord(s, f) == HighWord(s, g) { HighFoldsEqual(s, f, g); }
  }

  lemma LowFoldsEqual(s: Word, f: Folds, g: Folds)
    requires LowWord(s, f) == LowWord(s, g)
    ensures f.t0 == g.t0 <==> f.t1 == g.t1
  {
    hide Xor, Rotl, LongFmix, UnLongFmix;
    LongFmixInverse(Xor(Xor(s, f.t0), Rotl(f.t1, 29)));
    LongFmixInverse(Xor(Xor(s, g.t0), Rotl(g.t1, 29)));
    if f.t0 == g.t0 {
      XorInjective(Xor(s, f.t0), Rotl(f.t1, 29), Rotl(g.t1, 29));
      RotlInjective(f.t1, g.t1, 29);
    } else if f.t1 == g.t1 {
      XorInjective(Rotl(f.t1, 29), Xor(s, f.t0), Xor(s, g.t0));
      XorInjective(s, f.t0, g.t0);
    }
  }

  lemma HighFoldsEqual(s: Word, f: Folds, g: Folds)
    requires HighWord(s, f) == HighWord(s, g)
    ensures f.t0 == g.t0 <==> f.t1 == g.t1
  {
    hide Xor, Add, Rotl, Fmix128, UnFmix128;
    var a, b := Add(f.t1, Rotl(f.t0, 47)), Add(g.t1, Rotl(g.t0, 47));
    Fmix128Inverse(Xor(Rotl(s, 32), a));
    Fmix128Inverse(Xor(Rotl(s, 32), b));
    XorInjective(Rotl(s, 32), a, b);
    if f.t0 == g.t0 {
      AddInjective(Rotl(f.t0, 47), f.t1, g.t1);
    } else if f.t1 == g.t1 {
      AddInjective(f.t1, Rotl(f.t0, 47), Rotl(g.t0, 47));
      RotlInjective(f.t0, g.t0, 47);
    }
  }

  lemma FoldLowInjective(h: Word, h': Word, h1: Word, m: Word, m': Word)
    requires FoldLow(h, h1, m) == FoldLow(h', h1, m')
    ensures h == h' <==> m == m'
  {
    hide Mul, Xor, Rotl;
    var r := Rotl(h1, 13);
    MulInjective(Xor(Xor(h, r), m), Xor(Xor(h', r), m'));
    if h == h' {
      XorInjective(Xor(h, r), m, m');
    } else if m == m' {
      XorInjective(m, Xor(h, r), Xor(h', r));
      XorInjective(r, h, h');
    }
  }

  lemma FoldLowSecond(h0: Word, h1: Word, h1': Word, m: Word)
    requires FoldLow(h0, h1, m) == FoldLow(h0, h1', m)
    ensures h1 == h1'
  {
    hide Mul, Xor, Rotl;
    MulInjective(Xor(Xor(h0, Rotl(h1, 13)), m), Xor(Xor(h0, Rotl(h1', 13)), m));
    XorInjective(m, Xor(h0, Rotl(h1, 13)), Xor(h0, Rotl(h1', 13)));
    XorInjective(h0, Rotl(h1, 13), Rotl(h1', 13));
    RotlInjective(h1, h1', 13);
  }

  lemma FoldHighInjective(h2: Word, h2': Word, h3: Word, h3': Word)
    requires FoldHigh(h2, h3) == FoldHigh(h2', h3')
    ensures h2 == h2' <==> h3 == h3'
  {
    hide Mul, Xor, Rotl;
    var r, r' := Rotl(h3, 33), Rotl(h3', 33);
    MulInjective(Xor(h2, r), Xor(h2', r'));
    if h2 == h2' {
      XorInjective(h2, r, r');
      RotlInjective(h3, h3', 33);
    } else if h3 == h3' {
      XorInjective(r, h2, h2');
    }
  }

  // ---- The lanes before the fold -----------------------------------------------------

  /** The lanes after all whole stripes, and how many bytes those stripes are. */
  function AfterStripes(p: Bytes, seed: Word): (r: (Quad, nat))
    ensures r.1 <= |p|
  {
    hide LanesOfPremix, Block, Round, FoldUpper;
    var (q, b) := Entry(p, Premix(seed));
    var r := (|p| - b) / 32 * 32;
    (Rounds(q, p, b, r), b + r)
  }

  /** The lanes the fold sees. */
  function Settled(p: Bytes, seed: Word): Quad
    requires |p| > 16
  {
    hide AfterStripes, Wall;
    var (q, o) := AfterStripes(p, seed);
    Tail(Wall(q), p, o)
  }

  lemma WalkIsSettled(p: Bytes, seed: Word)
    requires |p| > 16
    ensures Walk(p, seed) == MixFolds(Settled(p, seed), LenMix(|p|))
  {
    hide Entry, Rounds, Wall, Tail, MixFolds, LenMix;
  }

  lemma RoundPrefix(q: Quad, a: Bytes, x: Bytes, o: nat)
    requires o + 32 <= |a|
    ensures Round(q, a + x, o) == Round(q, a, o)
  {
    hide Round, Load64;
    forall k | 0 <= k < 4 ensures Load64(a + x, o + 8 * k) == Load64(a, o + 8 * k) { LoadPrefix(a, x, o + 8 * k); }
    RoundLoads(q, a + x, o, a, o);
  }

  lemma {:induction false} RoundsPrefix(q: Quad, a: Bytes, x: Bytes, b: nat, n: nat)
    requires b + n <= |a| && n % 32 == 0
    ensures Rounds(q, a + x, b, n) == Rounds(q, a, b, n)
  {
    hide Round, Rounds;
    if n == 0 {
      RoundsNone(q, a + x, b);
      RoundsNone(q, a, b);
    } else {
      var o := n - 32;
      RoundsNext(q, a + x, b, o);
      RoundsNext(q, a, b, o);
      RoundsPrefix(q, a, x, b, o);
      RoundPrefix(Rounds(q, a, b, o), a, x, b + o);
    }
  }

  lemma BlocksEnd(c: nat, x: nat)
    requires c % 32 == 0 && x < 32
    ensures var b := (c + x) / 64 * 64; b <= c && b % 64 == 0 && b % 32 == 0
  {
    var k := (c + x) / 64;
    assert c == 32 * (c / 32);
    assert 64 * k < 32 * (c / 32 + 1);
  }

  /** The lanes that enter the four-lane path do not see the tail. */
  lemma EntryIgnoresTail(c: Bytes, x: Bytes, y: Bytes, s: Word)
    requires |c| % 32 == 0 && |x| == |y| < 32
    ensures Entry(c + x, s) == Entry(c + y, s)
    ensures var o := Entry(c + x, s).1; o <= |c| && o % 32 == 0
  {
    hide LanesOfPremix, Block, Blocks, FoldUpper;
    BlocksEnd(|c|, |x|);
    if |c + x| >= BULK_MIN {
      var st, b := LanesOfPremix(s), |c + x| / 64 * 64;
      BlocksPrefix(st, c, x, b);
      BlocksPrefix(st, c, y, b);
    }
  }

  /** The stripes are the same for every tail of the same length. */
  lemma StripesIgnoreTail(c: Bytes, x: Bytes, y: Bytes, seed: Word)
    requires |c| % 32 == 0 && |x| == |y| < 32
    ensures AfterStripes(c + x, seed) == AfterStripes(c + y, seed)
    ensures AfterStripes(c + x, seed).1 == |c|
  {
    hide Entry, Rounds, Premix;
    EntryIgnoresTail(c, x, y, Premix(seed));
    var (q, o) := Entry(c + x, Premix(seed));
    StripesEnd(|c|, |x|, o);
    RoundsPrefix(q, c, x, o, |c| - o);
    RoundsPrefix(q, c, y, o, |c| - o);
  }

  lemma StripesEnd(c: nat, x: nat, o: nat)
    requires c % 32 == 0 && x < 32 && o <= c && o % 32 == 0
    ensures (c - o) % 32 == 0 && (c + x - o) / 32 * 32 == c - o
  {
  }

  lemma LoadInjective(p: Bytes, q: Bytes, i: nat)
    requires i + 8 <= |p| == |q| && Load64(p, i) == Load64(q, i)
    ensures p[i..i + 8] == q[i..i + 8]
  {
    hide Load64, BytesOf;
    LoadBytes(p, i);
    LoadBytes(q, i);
  }

  lemma AbsorbTailInjective(h: Word, w: Word, w': Word)
    requires AbsorbTail(h, w) == AbsorbTail(h, w')
    ensures w == w'
  {
    hide AbsorbTail, UnAbsorbTail;
    AbsorbTailInverse(h, w);
    AbsorbTailInverse(h, w');
  }

  // ---- Tails -------------------------------------------------------------------------

  /** The two messages agree on every whole stripe, have equal length above 16, and differ. */
  ghost predicate DifferInTail(c: Bytes, x: Bytes, y: Bytes) {
    |c| % 32 == 0 && |x| == |y| < 32 && |c| + |x| > 16 && x != y
  }

  /** The offsets of the loads of a tail that starts at o, in a message of n bytes. */
  function TailOffsets(n: nat, o: nat): (r: seq<nat>)
    requires 16 <= n && o <= n
    ensures forall i :: 0 <= i < |r| ==> r[i] + 8 <= n
    ensures |r| == if n - o > 16 then 4 else if n - o > 0 then 2 else 0
  {
    (if n - o > 16 then [o, o + 8] else []) + (if n - o > 0 then [n - 16, n - 8] else [])
  }

  /** The words loaded at the given offsets. */
  function Loads(p: Bytes, os: seq<nat>): (r: seq<Word>)
    requires forall i :: 0 <= i < |os| ==> os[i] + 8 <= |p|
    ensures |r| == |os| && forall i :: 0 <= i < |os| ==> r[i] == Load64(p, os[i])
  {
    hide Load64;
    if |os| == 0 then [] else Loads(p, os[..|os| - 1]) + [Load64(p, os[|os| - 1])]
  }

  /** The words the tail absorbs: two at the front when more than 16 bytes are left, then the last 16 bytes. */
  function TailWords(p: Bytes, o: nat): seq<Word>
    requires 16 <= |p| && o <= |p|
  {
    Loads(p, TailOffsets(|p|, o))
  }

  /** Equal tail words mean equal tails: the words cover every byte. */
  lemma TailWordsCover(c: Bytes, x: Bytes, y: Bytes)
    requires |x| == |y| < 32 && |c| + |x| > 16
    requires TailWords(c + x, |c|) == TailWords(c + y, |c|)
    ensures x == y
  {
    hide Load64, Loads;
    var p, q, o, n := c + x, c + y, |c|, |c + x|;
    if n - o > 0 {
      var u, v := TailWords(p, o), TailWords(q, o);
      assert u[|u| - 2] == v[|v| - 2] && u[|u| - 1] == v[|v| - 1];
      LoadInjective(p, q, n - 16);
      LoadInjective(p, q, n - 8);
      if n - o > 16 {
        assert u[0] == v[0] && u[1] == v[1];
        LoadInjective(p, q, o);
        LoadInjective(p, q, o + 8);
      }
      forall k | 0 <= k < |x| ensures x[k] == y[k] { SameByte(p, q, o, k); }
    }
  }

  lemma SameByte(p: Bytes, q: Bytes, o: nat, k: nat)
    requires 16 < |p| == |q| && o + k < |p| < o + 32
    requires p[|p| - 16..|p| - 8] == q[|p| - 16..|p| - 8] && p[|p| - 8..|p|] == q[|p| - 8..|p|]
    requires |p| - o > 16 ==> p[o..o + 8] == q[o..o + 8] && p[o + 8..o + 16] == q[o + 8..o + 16]
    ensures p[o + k] == q[o + k]
  {
    var n := |p|;
    if o + k >= n - 8 {
      assert p[n - 8..n][o + k - (n - 8)] == q[n - 8..n][o + k - (n - 8)];
    } else if o + k >= n - 16 {
      assert p[n - 16..n - 8][o + k - (n - 16)] == q[n - 16..n - 8][o + k - (n - 16)];
    } else if k < 8 {
      assert p[o..o + 8][k] == q[o..o + 8][k];
    } else {
      assert p[o + 8..o + 16][k - 8] == q[o + 8..o + 16][k - 8];
    }
  }

  /** A lane that absorbs a different word becomes different: equal settled lanes mean equal tail words. */
  lemma TailWordsSettle(g: Quad, p: Bytes, q: Bytes, o: nat)
    requires 16 <= |p| == |q| && o <= |p|
    requires Tail(g, p, o) == Tail(g, q, o)
    ensures TailWords(p, o) == TailWords(q, o)
  {
    hide Load64, Loads, AbsorbTail;
    var n := |p|;
    if n - o > 16 {
      AbsorbTailInjective(g.h0, Load64(p, o), Load64(q, o));
      AbsorbTailInjective(g.h1, Load64(p, o + 8), Load64(q, o + 8));
    }
    if n - o > 0 {
      AbsorbTailInjective(g.h2, Load64(p, n - 16), Load64(q, n - 16));
      AbsorbTailInjective(g.h3, Load64(p, n - 8), Load64(q, n - 8));
    }
  }

  /** Messages that differ only past the last whole stripe leave different lanes before the fold. */
  lemma TailReachesTheFold(c: Bytes, x: Bytes, y: Bytes, seed: Word)
    requires DifferInTail(c, x, y)
    ensures Settled(c + x, seed) != Settled(c + y, seed)
  {
    hide AfterStripes, Wall, Tail, TailWords;
    StripesIgnoreTail(c, x, y, seed);
    if Settled(c + x, seed) == Settled(c + y, seed) {
      TailWordsSettle(Wall(AfterStripes(c + x, seed).0), c + x, c + y, |c|);
      TailWordsCover(c, x, y);
    }
  }

  lemma SameLoad(p: Bytes, q: Bytes, i: nat)
    requires i + 8 <= |p| == |q| && forall k :: i <= k < i + 8 ==> p[k] == q[k]
    ensures Load64(p, i) == Load64(q, i)
  {
    hide Load64;
    LoadSame(p, q, i, i);
  }

  // ---- Differences that a single load sees -------------------------------------------

  /** Two quadruples that differ in exactly one lane. */
  predicate OneLaneApart(f: Quad, g: Quad) {
    f != g &&
    (f == g.(h0 := f.h0) || f == g.(h1 := f.h1) || f == g.(h2 := f.h2) || f == g.(h3 := f.h3))
  }

  lemma OneFoldApart(f: Quad, g: Quad, m: Word)
    requires OneLaneApart(f, g)
    ensures var s, t := MixFolds(f, m), MixFolds(g, m); (s.t0 == t.t0) != (s.t1 == t.t1)
  {
    hide FoldLow, FoldHigh;
    if FoldLow(f.h0, f.h1, m) == FoldLow(g.h0, g.h1, m) {
      if f.h1 == g.h1 { FoldLowInjective(f.h0, g.h0, f.h1, m, m); }
      if f.h0 == g.h0 { FoldLowSecond(f.h0, f.h1, g.h1, m); }
    }
    if FoldHigh(f.h2, f.h3) == FoldHigh(g.h2, g.h3) { FoldHighInjective(f.h2, g.h2, f.h3, g.h3); }
  }

  /** A difference in a single settled lane shows in every digest word. */
  lemma OneLaneSeparates(p: Bytes, q: Bytes, seed: Word)
    requires 16 < |p| == |q| && OneLaneApart(Settled(p, seed), Settled(q, seed))
    ensures Hash64(p, seed) != Hash64(q, seed)
    ensures Hash128(p, seed).lo != Hash128(q, seed).lo && Hash128(p, seed).hi != Hash128(q, seed).hi
  {
    hide OneLaneApart, Settled, MixFolds, LenMix, Walk, LowWord, HighWord, Premix;
    WalkIsSettled(p, seed);
    WalkIsSettled(q, seed);
    OneFoldApart(Settled(p, seed), Settled(q, seed), LenMix(|p|));
    FoldsSeparate(Premix(seed), Walk(p, seed), Walk(q, seed));
  }

  /** Byte k is read by the load at offsets[j] and by no other. */
  ghost predicate OnlyReader(offsets: seq<nat>, j: nat, k: nat)
    requires j < |offsets|
  {
    && offsets[j] <= k < offsets[j] + 8
    && forall i :: 0 <= i < |offsets| && i != j ==> !(offsets[i] <= k < offsets[i] + 8)
  }

  /** The two tails differ only in bytes that tail load j alone reads. */
  ghost predicate DifferUnderLoad(c: Bytes, x: Bytes, y: Bytes, j: nat) {
    && DifferInTail(c, x, y)
    && j < |TailOffsets(|c + x|, |c|)|
    && forall k :: 0 <= k < |x| && x[k] != y[k] ==> OnlyReader(TailOffsets(|c + x|, |c|), j, |c| + k)
  }

  lemma OtherLoadsAgree(c: Bytes, x: Bytes, y: Bytes, j: nat, i: nat)
    requires DifferUnderLoad(c, x, y, j) && i < |TailOffsets(|c + x|, |c|)| && i != j
    ensures Load64(c + x, TailOffsets(|c + x|, |c|)[i]) == Load64(c + y, TailOffsets(|c + x|, |c|)[i])
  {
    hide Load64, TailOffsets;
    var o := TailOffsets(|c + x|, |c|)[i];
    assert forall k :: 0 <= k < |x| && o <= |c| + k < o + 8 ==> x[k] == y[k];
    forall k | o <= k < o + 8 ensures (c + x)[k] == (c + y)[k] {
      if k >= |c| { assert x[k - |c|] == y[k - |c|]; }
    }
    SameLoad(c + x, c + y, o);
  }

  /** With all other loads equal, the tail moves one lane. */
  lemma OneLoadOneLane(g: Quad, p: Bytes, q: Bytes, o: nat, j: nat)
    requires 16 <= |p| == |q| && o <= |p| && j < |TailOffsets(|p|, o)|
    requires forall i :: 0 <= i < |TailOffsets(|p|, o)| && i != j ==>
      Load64(p, TailOffsets(|p|, o)[i]) == Load64(q, TailOffsets(|p|, o)[i])
    ensures Tail(g, p, o) == Tail(g, q, o) || OneLaneApart(Tail(g, p, o), Tail(g, q, o))
  {
    hide Load64, AbsorbTail;
    var os := TailOffsets(|p|, o);
    assert forall i :: 0 <= i < |os| && i != j ==> Load64(p, os[i]) == Load64(q, os[i]);
    assert |os| == 4 ==> os[0] == o && os[1] == o + 8 && os[2] == |p| - 16 && os[3] == |p| - 8;
    assert |os| == 2 ==> os[0] == |p| - 16 && os[1] == |p| - 8;
  }

  /**
   * Messages of equal length above 16 that differ only in tail bytes a single load reads always
   * have different 64-bit digests and differ in both 128-bit words, whichever load it is.
   */
  lemma SingleLoadSeparates(c: Bytes, x: Bytes, y: Bytes, j: nat, seed: Word)
    requires DifferUnderLoad(c, x, y, j)
    ensures Hash64(c + x, seed) != Hash64(c + y, seed)
    ensures Hash128(c + x, seed).lo != Hash128(c + y, seed).lo
    ensures Hash128(c + x, seed).hi != Hash128(c + y, seed).hi
  {
    hide AfterStripes, Wall, Tail, Load64, TailOffsets, OnlyReader, OneLaneApart, Hash64, Hash128;
    StripesIgnoreTail(c, x, y, seed);
    TailReachesTheFold(c, x, y, seed);
    forall i | 0 <= i < |TailOffsets(|c + x|, |c|)| && i != j
      ensures Load64(c + x, TailOffsets(|c + x|, |c|)[i]) == Load64(c + y, TailOffsets(|c + x|, |c|)[i])
    {
      OtherLoadsAgree(c, x, y, j, i);
    }
    OneLoadOneLane(Wall(AfterStripes(c + x, seed).0), c + x, c + y, |c|, j);
    OneLaneSeparates(c + x, c + y, seed);
  }

  /** How many bytes at either end of a tail of rho bytes only one load sees. */
  function Exposed(rho: nat): nat {
    if rho > 24 then 8 else if rho > 16 then rho - 16 else if rho > 8 then 8 else rho
  }

  /** Exactly the last Exposed(rho) bytes are read by the last load alone, and the first ones by the first forward load. */
  lemma ExposedExactly(n: nat, o: nat, k: nat)
    requires 16 < n && o <= k < n < o + 32
    ensures var os := TailOffsets(n, o);
      (OnlyReader(os, |os| - 1, k) <==> n - Exposed(n - o) <= k) &&
      (n - o > 16 ==> (OnlyReader(os, 0, k) <==> k < o + Exposed(n - o)))
  {
    var os := TailOffsets(n, o);
    if n - o > 16 {
      assert os == [o, o + 8, n - 16, n - 8];
      assert os[0] == o && os[1] == o + 8 && os[2] == n - 16 && os[3] == n - 8;
    } else {
      assert os == [n - 16, n - 8];
      assert os[0] == n - 16 && os[1] == n - 8;
    }
  }

  /** The case of the last load: differences confined to the exposed last bytes. */
  lemma LastBytesSeparate(c: Bytes, x: Bytes, y: Bytes, seed: Word)
    requires DifferInTail(c, x, y)
    requires x[..|x| - Exposed(|x|)] == y[..|x| - Exposed(|x|)]
    ensures Hash64(c + x, seed) != Hash64(c + y, seed)
    ensures Hash128(c + x, seed).lo != Hash128(c + y, seed).lo
    ensures Hash128(c + x, seed).hi != Hash128(c + y, seed).hi
  {
    hide Hash64, Hash128;
    var e := |x| - Exposed(|x|);
    var os := TailOffsets(|c + x|, |c|);
    forall k | 0 <= k < e ensures x[k] == y[k] { assert x[..e][k] == y[..e][k]; }
    SingleLoadSeparates(c, x, y, |os| - 1, seed);
  }

  /** The case of the first forward load: differences confined to the exposed first tail bytes. */
  lemma FirstTailBytesSeparate(c: Bytes, x: Bytes, y: Bytes, seed: Word)
    requires DifferInTail(c, x, y) && |x| > 16
    requires x[Exposed(|x|)..] == y[Exposed(|x|)..]
    ensures Hash64(c + x, seed) != Hash64(c + y, seed)
    ensures Hash128(c + x, seed).lo != Hash128(c + y, seed).lo
    ensures Hash128(c + x, seed).hi != Hash128(c + y, seed).hi
  {
    hide Hash64, Hash128;
    var e := Exposed(|x|);
    var os := TailOffsets(|c + x|, |c|);
    forall k | e <= k < |x| ensures x[k] == y[k] { assert x[e..][k - e] == y[e..][k - e]; }
    SingleLoadSeparates(c, x, y, 0, seed);
  }

  /**
   * With at most 16 bytes left over, t0 does not see the tail: two messages with the same stripes
   * agree in the 64-bit digest exactly when they agree in the high word, and exactly when
   * h2 ^ rotl(h3, 33) agrees before the fold.
   */
  lemma ShortTailsCollide(c: Bytes, x: Bytes, y: Bytes, seed: Word)
    requires |c| % 32 == 0 && |x| == |y| <= 16 && |c| + |x| > 16
    ensures var f, g := Settled(c + x, seed), Settled(c + y, seed);
      var meet := Xor(f.h2, Rotl(f.h3, 33)) == Xor(g.h2, Rotl(g.h3, 33));
      (Hash64(c + x, seed) == Hash64(c + y, seed) <==> meet) &&
      (Hash128(c + x, seed).hi == Hash128(c + y, seed).hi <==> meet)
  {
    hide AfterStripes, Wall, AbsorbTail, Load64, LenMix, FoldLow, Walk, LowWord, HighWord, Premix, Xor, Rotl, Mul;
    var p, q := c + x, c + y;
    StripesIgnoreTail(c, x, y, seed);
    var f, g := Settled(p, seed), Settled(q, seed);
    assert f.h0 == g.h0 && f.h1 == g.h1;
    WalkIsSettled(p, seed);
    WalkIsSettled(q, seed);
    if Walk(p, seed).t1 == Walk(q, seed).t1 {
      MulInjective(Xor(f.h2, Rotl(f.h3, 33)), Xor(g.h2, Rotl(g.h3, 33)));
    } else {
      FoldsSeparate(Premix(seed), Walk(p, seed), Walk(q, seed));
    }
  }

  // ---- Lengths -----------------------------------------------------------------------

  lemma LenMixInjective(n: nat, m: nat)
    requires n < TWO_64 && m < TWO_64 && n != m
    ensures LenMix(n) != LenMix(m)
  {
    hide Mul;
    if LenMix(n) == LenMix(m) {
      MulInjective(Wrap(n), Wrap(m));
    }
  }

  /** Long messages of different lengths that bring equal lanes to the fold never collide. */
  lemma LongLengthsSeparate(p: Bytes, q: Bytes, seed: Word)
    requires 16 < |p| < TWO_64 && 16 < |q| < TWO_64 && |p| != |q|
    requires Settled(p, seed) == Settled(q, seed)
    ensures Hash64(p, seed) != Hash64(q, seed)
    ensures Hash128(p, seed).lo != Hash128(q, seed).lo && Hash128(p, seed).hi != Hash128(q, seed).hi
  {
    hide Settled, FoldLow, FoldHigh, LenMix, Walk, LowWord, HighWord, Premix;
    var f := Settled(p, seed);
    WalkIsSettled(p, seed);
    WalkIsSettled(q, seed);
    LenMixInjective(|p|, |q|);
    if FoldLow(f.h0, f.h1, LenMix(|p|)) == FoldLow(f.h0, f.h1, LenMix(|q|)) {
      FoldLowInjective(f.h0, f.h0, f.h1, LenMix(|p|), LenMix(|q|));
    }
    FoldsSeparate(Premix(seed), Walk(p, seed), Walk(q, seed));
  }

  /** Short messages of different lengths whose overlapping loads coincide never collide, in any word. */
  lemma ShortLengthsSeparate(p: Bytes, q: Bytes, seed: Word)
    requires |p| <= 16 && |q| <= 16 && |p| != |q|
    requires ShortA(p) == ShortA(q) && ShortB(p) == ShortB(q)
    ensures Hash64(p, seed) != Hash64(q, seed)
    ensures Hash128(p, seed).lo != Hash128(q, seed).lo && Hash128(p, seed).hi != Hash128(q, seed).hi
  {
    hide ShortA, ShortB, ShortX, ShortY, ShortU, ShortHigh, LenMix, Fmix, UnFmix, Premix;
    var x, y := ShortX(ShortA(p), Premix(seed)), ShortY(ShortB(p), Premix(seed));
    var u, v := ShortU(x, y, LenMix(|p|)), ShortU(x, y, LenMix(|q|));
    LenMixInjective(|p|, |q|);
    ShortUInjective(x, y, LenMix(|p|), LenMix(|q|));
    FmixInverse(u);
    FmixInverse(v);
    if ShortHigh(x, u) == ShortHigh(x, v) { ShortHighInjective(x, u, v); }
  }

  lemma ShortUInjective(x: Word, y: Word, m: Word, m': Word)
    requires m != m'
    ensures ShortU(x, y, m) != ShortU(x, y, m')
  {
    hide Xor, Rotl;
    if ShortU(x, y, m) == ShortU(x, y, m') { XorInjective(Xor(Rotl(x, 27), y), m, m'); }
  }

  lemma ShortHighInjective(x: Word, u: Word, v: Word)
    requires ShortHigh(x, u) == ShortHigh(x, v)
    ensures u == v
  {
    hide Add, Rotl, Fmix128, UnFmix128;
    Fmix128Inverse(Add(x, Rotl(u, 32)));
    Fmix128Inverse(Add(x, Rotl(v, 32)));
    AddInjective(x, Rotl(u, 32), Rotl(v, 32));
    RotlInjective(u, v, 32);
  }

  // ---- The all-zero messages -----------------------------------------------------------

  function Zeros(n: nat): (p: Bytes)
    ensures |p| == n && forall k :: 0 <= k < n ==> p[k] == 0
  {
    seq(n, _ => 0)
  }

  lemma ZeroLoad(p: Bytes, i: nat)
    requires i + 8 <= |p| && forall k :: i <= k < i + 8 ==> p[k] == 0
    ensures Load64(p, i) == 0
  {
    ZeroNumber(p, i, 8);
  }

  lemma {:induction false} ZeroNumber(p: Bytes, i: nat, n: nat)
    requires i + n <= |p| && forall k :: i <= k < i + n ==> p[k] == 0
    ensures LittleEndian(p, i, n) == 0
    decreases n
  {
    if n > 0 { ZeroNumber(p, i + 1, n - 1); }
  }

  lemma ZeroLoads(n: nat)
    requires n <= 16
    ensures ShortA(Zeros(n)) == 0 && ShortB(Zeros(n)) == 0
  {
    if n >= 8 {
      hide Load64;
      ZeroLoad(Zeros(n), 0);
      ZeroLoad(Zeros(n), n - 8);
    }
  }

  /** Below 32 bytes there is no stripe, and the lanes are still the initial ones. */
  lemma NoStripes(p: Bytes, seed: Word)
    requires |p| < 32
    ensures AfterStripes(p, seed) == (FirstFour(LanesOfPremix(Premix(seed))), 0)
  {
    hide LanesOfPremix, Premix, Blocks, FoldUpper, Rounds;
    RoundsNone(FirstFour(LanesOfPremix(Premix(seed))), p, 0);
  }

  function FirstFour(st: Lanes): Quad { Quad(st.h0, st.h1, st.h2, st.h3, 0) }

  /** The lanes an all-zero tail leaves behind. */
  function ZeroTail(q: Quad): Quad {
    Quad(AbsorbTail(q.h0, 0), AbsorbTail(q.h1, 0), AbsorbTail(q.h2, 0), AbsorbTail(q.h3, 0), q.wp)
  }

  /** The tail of an all-zero message absorbs the same four words whatever its length. */
  lemma ZerosSettle(n: nat, seed: Word)
    requires 16 < n < 32
    ensures Settled(Zeros(n), seed) == ZeroTail(Wall(FirstFour(LanesOfPremix(Premix(seed)))))
  {
    hide Load64, LanesOfPremix, Wall, AbsorbTail, Premix, AfterStripes;
    var p := Zeros(n);
    NoStripes(p, seed);
    ZeroLoad(p, 0);
    ZeroLoad(p, 8);
    ZeroLoad(p, n - 16);
    ZeroLoad(p, n - 8);
  }

  /** All-zero messages load equal words at every length of a family, and never collide inside it. */
  lemma ZerosSeparate(n: nat, m: nat, seed: Word)
    requires n != m && ((n <= 16 && m <= 16) || (16 < n < 32 && 16 < m < 32))
    ensures Hash64(Zeros(n), seed) != Hash64(Zeros(m), seed)
    ensures Hash128(Zeros(n), seed).hi != Hash128(Zeros(m), seed).hi
  {
    hide Hash64, Hash128, Settled, ShortA, ShortB, Entry, Tail, Wall;
    if n <= 16 {
      ZeroLoads(n);
      ZeroLoads(m);
      ShortLengthsSeparate(Zeros(n), Zeros(m), seed);
    } else {
      ZerosSettle(n, seed);
      ZerosSettle(m, seed);
      LongLengthsSeparate(Zeros(n), Zeros(m), seed);
    }
  }
}
