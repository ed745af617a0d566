// Which words the long paths load, and the walk as a function of those words alone: every
// load is used once, by one lane.
module WordWalk {
  import opened Words
  import opened Reference
  import opened Separation

  /** How many blocks the eight-lane loop absorbs of n bytes. */
  function BlockCount(n: nat): nat { if n >= BULK_MIN then n / 64 else 0 }

  /** How many rounds the four-lane loop absorbs after them. */
  function RoundCount(n: nat): nat { (n - 64 * BlockCount(n)) / 32 }

  /** The whole stripes: eight a block, then four a round. */
  function StripeCount(n: nat): (m: nat)
    ensures 8 * m <= n < 8 * m + 32
  {
    8 * BlockCount(n) + 4 * RoundCount(n)
  }

  /** The four-lane loop chains at most 36 stripes, those for 288 to 319 bytes, and at most one round after the blocks. */
  lemma ChainedStripesBounded(n: nat)
    ensures 4 * RoundCount(n) <= 36 && (4 * RoundCount(n) == 36 <==> 288 <= n < 320)
    ensures BlockCount(n) > 0 <==> n >= 320
    ensures BlockCount(n) > 0 ==> RoundCount(n) <= 1
  {
  }

  // ---- The loads ---------------------------------------------------------------------

  /** The offsets of the m stripe loads. */
  function StripeOffsets(m: nat): (r: seq<nat>)
    ensures |r| == m && forall i :: 0 <= i < m ==> r[i] == 8 * i
  {
    if m == 0 then [] else StripeOffsets(m - 1) + [8 * (m - 1)]
  }

  /** The offsets of every load of a message of n bytes: the stripes in order, then the tail. */
  function Offsets(n: nat): (r: seq<nat>)
    requires n > 16
    ensures forall i :: 0 <= i < |r| ==> r[i] + 8 <= n
    ensures var m := StripeCount(n);
      |r| == m + (if n - 8 * m > 16 then 4 else if n - 8 * m > 0 then 2 else 0)
  {
    StripeOffsets(StripeCount(n)) + TailOffsets(n, 8 * StripeCount(n))
  }

  /** How many of the 8-byte loads read byte k. */
  function Readers(offsets: seq<nat>, k: nat): nat {
    if |offsets| == 0 then 0
    else
      var o := offsets[|offsets| - 1];
      Readers(offsets[..|offsets| - 1], k) + (if o <= k < o + 8 then 1 else 0)
  }

  lemma {:induction false} StripesReadOnce(m: nat, k: nat)
    ensures Readers(StripeOffsets(m), k) == if k < 8 * m then 1 else 0
  {
    if m > 0 {
      StripesReadOnce(m - 1, k);
      assert StripeOffsets(m)[..m - 1] == StripeOffsets(m - 1);
    }
  }

  lemma {:induction false} ReadersConcat(a: seq<nat>, b: seq<nat>, k: nat)
    ensures Readers(a + b, k) == Readers(a, k) + Readers(b, k)
  {
    if |b| == 0 {
      assert a + b == a;
    } else {
      ReadersConcat(a, b[..|b| - 1], k);
      assert (a + b)[..|a + b| - 1] == a + b[..|b| - 1];
    }
  }

  lemma ReadersOfPair(x: nat, y: nat, k: nat)
    ensures Readers([x, y], k) == (if x <= k < x + 8 then 1 else 0) + (if y <= k < y + 8 then 1 else 0)
    ensures Readers([], k) == 0
  {
    assert [x, y][..1] == [x];
    assert [x][..0] == [];
    assert Readers([x], k) == if x <= k < x + 8 then 1 else 0;
  }

  /**
   * Every byte of a message above 16 bytes is read by one load, except that the reach-back
   * reads again exactly what lies between the last 16 bytes' start and the end of the forward reads.
   */
  lemma EveryByteOnceOrTwice(n: nat, k: nat)
    requires 16 < n && k < n
    ensures var o := 8 * StripeCount(n);
      var forward := if n - o > 16 then o + 16 else o;
      Readers(Offsets(n), k) == if n - 16 <= k < forward && o < n then 2 else 1
  {
    hide Readers, StripeOffsets, StripeCount;
    var m := StripeCount(n);
    var o := 8 * m;
    StripesReadOnce(m, k);
    ReadersConcat(StripeOffsets(m), TailOffsets(n, o), k);
    var front: seq<nat> := if n - o > 16 then [o, o + 8] else [];
    var back: seq<nat> := if n - o > 0 then [n - 16, n - 8] else [];
    ReadersConcat(front, back, k);
    ReadersOfPair(o, o + 8, k);
    ReadersOfPair(n - 16, n - 8, k);
  }

  // ---- The walk on words -------------------------------------------------------------

  /** Eight words, one a lane, and the checkpoint. */
  function WordBlock(st: Lanes, ws: seq<Word>, i: nat): Lanes
    requires i + 8 <= |ws|
  {
    Lanes(Add(Absorb(st.h0, st.wp, ws[i]), ws[i + 7]),
          Absorb(st.h1, ws[i], ws[i + 1]), Absorb(st.h2, ws[i + 1], ws[i + 2]), Absorb(st.h3, ws[i + 2], ws[i + 3]),
          Absorb(st.h4, ws[i + 3], ws[i + 4]), Absorb(st.h5, ws[i + 4], ws[i + 5]),
          Absorb(st.h6, ws[i + 5], ws[i + 6]), Absorb(st.h7, ws[i + 6], ws[i + 7]), ws[i + 7])
  }

  function WordBlocks(st: Lanes, ws: seq<Word>, b: nat): Lanes
    requires 8 * b <= |ws|
  {
    if b == 0 then st else WordBlock(WordBlocks(st, ws, b - 1), ws, 8 * (b - 1))
  }

  /** Four words, one a lane. */
  function WordRound(q: Quad, ws: seq<Word>, i: nat): Quad
    requires i + 4 <= |ws|
  {
    Quad(Absorb(q.h0, q.wp, ws[i]), Absorb(q.h1, ws[i], ws[i + 1]), Absorb(q.h2, ws[i + 1], ws[i + 2]),
         Absorb(q.h3, ws[i + 2], ws[i + 3]), ws[i + 3])
  }

  function WordRounds(q: Quad, ws: seq<Word>, i: nat, r: nat): Quad
    requires i + 4 * r <= |ws|
  {
    if r == 0 then q else WordRound(WordRounds(q, ws, i, r - 1), ws, i + 4 * (r - 1))
  }

  /** Two or four tail words, one a lane. */
  function WordTail(q: Quad, ts: seq<Word>): Quad
    requires |ts| == 0 || |ts| == 2 || |ts| == 4
  {
    if |ts| == 4 then
      Quad(AbsorbTail(q.h0, ts[0]), AbsorbTail(q.h1, ts[1]), AbsorbTail(q.h2, ts[2]), AbsorbTail(q.h3, ts[3]), q.wp)
    else if |ts| == 2 then
      q.(h2 := AbsorbTail(q.h2, ts[0]), h3 := AbsorbTail(q.h3, ts[1]))
    else q
  }

  function FirstLanes(st: Lanes): Quad { Quad(st.h0, st.h1, st.h2, st.h3, 0) }

  /** The lanes before the fold, from the length, the loaded words in order, and the seed. */
  function SettleWords(n: nat, ws: seq<Word>, seed: Word): Quad
    requires n > 16 && |ws| == |Offsets(n)|
  {
    hide LanesOfPremix, WordBlock, WordRound, Wall, AbsorbTail, FoldUpper;
    var st, b, m := LanesOfPremix(Premix(seed)), BlockCount(n), StripeCount(n);
    var q := if b > 0 then FoldUpper(WordBlocks(st, ws, b)) else FirstLanes(st);
    WordTail(Wall(WordRounds(q, ws, 8 * b, RoundCount(n))), ws[m..])
  }

  lemma {:induction false} BlocksReadWords(st: Lanes, p: Bytes, n: nat, ws: seq<Word>, b: nat)
    requires n % 64 == 0 && n == 64 * b <= |p| && 8 * b <= |ws|
    requires forall k :: 0 <= k < 8 * b ==> ws[k] == Load64(p, 8 * k)
    ensures Blocks(st, p, n) == WordBlocks(st, ws, b)
    decreases b
  {
    hide Block, Blocks, WordBlock, Load64;
    if b == 0 {
      BlocksNone(st, p);
    } else {
      BlocksReadWords(st, p, n - 64, ws, b - 1);
      BlocksNext(st, p, n - 64);
      BlockReadsWords(WordBlocks(st, ws, b - 1), p, ws, b - 1);
    }
  }

  lemma BlockReadsWords(st: Lanes, p: Bytes, ws: seq<Word>, b: nat)
    requires 64 * b + 64 <= |p| && 8 * b + 8 <= |ws|
    requires forall k :: 0 <= k < 8 * b + 8 ==> ws[k] == Load64(p, 8 * k)
    ensures Block(st, p, 64 * b) == WordBlock(st, ws, 8 * b)
  {
    hide Load64, Absorb, Add;
    var i := 8 * b;
    assert ws[i] == Load64(p, 64 * b) && ws[i + 1] == Load64(p, 64 * b + 8);
    assert ws[i + 2] == Load64(p, 64 * b + 16) && ws[i + 3] == Load64(p, 64 * b + 24);
    assert ws[i + 4] == Load64(p, 64 * b + 32) && ws[i + 5] == Load64(p, 64 * b + 40);
    assert ws[i + 6] == Load64(p, 64 * b + 48) && ws[i + 7] == Load64(p, 64 * b + 56);
  }

  lemma {:induction false} RoundsReadWords(q: Quad, p: Bytes, n: nat, ws: seq<Word>, i: nat, r: nat)
    requires n % 32 == 0 && n == 32 * r && 8 * i + n <= |p| && i + 4 * r <= |ws|
    requires forall k :: i <= k < i + 4 * r ==> ws[k] == Load64(p, 8 * k)
    ensures Rounds(q, p, 8 * i, n) == WordRounds(q, ws, i, r)
    decreases r
  {
    hide Round, Rounds, WordRound, Load64;
    if r == 0 {
      RoundsNone(q, p, 8 * i);
    } else {
      RoundsReadWords(q, p, n - 32, ws, i, r - 1);
      RoundsNext(q, p, 8 * i, n - 32);
      RoundReadsWords(WordRounds(q, ws, i, r - 1), p, ws, i + 4 * (r - 1));
    }
  }

  lemma RoundReadsWords(q: Quad, p: Bytes, ws: seq<Word>, i: nat)
    requires 8 * i + 32 <= |p| && i + 4 <= |ws|
    requires forall k :: i <= k < i + 4 ==> ws[k] == Load64(p, 8 * k)
    ensures Round(q, p, 8 * i) == WordRound(q, ws, i)
  {
    hide Load64, Absorb;
    assert ws[i] == Load64(p, 8 * i) && ws[i + 1] == Load64(p, 8 * i + 8);
    assert ws[i + 2] == Load64(p, 8 * i + 16) && ws[i + 3] == Load64(p, 8 * i + 24);
  }

  lemma TailReadsWords(q: Quad, p: Bytes, o: nat)
    requires 16 <= |p| && o <= |p|
    ensures Tail(q, p, o) == WordTail(q, TailWords(p, o))
  {
    hide Load64, Loads, AbsorbTail;
  }

  lemma LoadsConcat(p: Bytes, os: seq<nat>, rs: seq<nat>)
    requires forall i :: 0 <= i < |os| ==> os[i] + 8 <= |p|
    requires forall i :: 0 <= i < |rs| ==> rs[i] + 8 <= |p|
    ensures Loads(p, os + rs) == Loads(p, os) + Loads(p, rs)
  {
    hide Load64, Loads;
  }

  lemma EntryReadsWords(p: Bytes, ws: seq<Word>, s: Word)
    requires 8 * BlockCount(|p|) <= |ws|
    requires forall k :: 0 <= k < 8 * BlockCount(|p|) ==> ws[k] == Load64(p, 8 * k)
    ensures var st, b := LanesOfPremix(s), BlockCount(|p|);
      Entry(p, s) == (if b > 0 then FoldUpper(WordBlocks(st, ws, b)) else FirstLanes(st), 64 * b)
  {
    hide LanesOfPremix, Blocks, WordBlocks, FoldUpper, Load64;
    if |p| >= BULK_MIN { BlocksReadWords(LanesOfPremix(s), p, 64 * BlockCount(|p|), ws, BlockCount(|p|)); }
  }

  lemma CountedBytes(n: nat)
    ensures var o, r := 64 * BlockCount(n), RoundCount(n);
      o <= n && (n - o) / 32 * 32 == 32 * r && o + 32 * r == 8 * StripeCount(n)
  {
  }

  /** The words of the stripes and of the tail, in one list. */
  lemma LoadsInOrder(p: Bytes)
    requires |p| > 16
    ensures var ws, m := Loads(p, Offsets(|p|)), StripeCount(|p|);
      ws[m..] == TailWords(p, 8 * m) && forall k :: 0 <= k < m ==> ws[k] == Load64(p, 8 * k)
  {
    hide Load64, Loads, StripeCount, TailOffsets, StripeOffsets;
    var m := StripeCount(|p|);
    LoadsConcat(p, StripeOffsets(m), TailOffsets(|p|, 8 * m));
  }

  /** The lanes of every message above 16 bytes before the fold are the words-only walk over its loads. */
  lemma SettledReadsWords(p: Bytes, seed: Word)
    requires |p| > 16
    ensures Settled(p, seed) == SettleWords(|p|, Loads(p, Offsets(|p|)), seed)
  {
    hide LanesOfPremix, Premix, Entry, FoldUpper, BlockCount, RoundCount, StripeCount, WordBlocks, Rounds, WordRounds;
    hide Wall, Tail, WordTail, FirstLanes, Loads, Load64, Offsets, TailWords;
    var m, b, r := StripeCount(|p|), BlockCount(|p|), RoundCount(|p|);
    var ws := Loads(p, Offsets(|p|));
    LoadsInOrder(p);
    CountedBytes(|p|);
    EntryReadsWords(p, ws, Premix(seed));
    var q := Entry(p, Premix(seed)).0;
    RoundsReadWords(q, p, 32 * r, ws, 8 * b, r);
    TailReadsWords(Wall(WordRounds(q, ws, 8 * b, r)), p, 8 * m);
  }
}
