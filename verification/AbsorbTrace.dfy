// What the long paths absorb: the chained stripes and the injected tail words. The lanes are a
// fold over these values, the values decode back to the message, and the chain is a bijection.
module AbsorbTrace {
  import opened Words
  import opened Reference
  import opened Finalizers
  import opened LaneWalks
  import opened Separation
  import opened WordWalk

  // ---- The chain on words ------------------------------------------------------------

  /** The word before index i, or prev before the first. */
  function Before(prev: Word, ws: seq<Word>, i: nat): Word
    requires i <= |ws|
  {
    if i == 0 then prev else ws[i - 1]
  }

  /** t_i = w_i + rotl(w_{i-1}, 27) with w_{-1} = prev. */
  function Chain(prev: Word, ws: seq<Word>): (ts: seq<Word>)
    ensures |ts| == |ws|
  {
    if |ws| == 0 then []
    else
      var n := |ws| - 1;
      Chain(prev, ws[..n]) + [Add(ws[n], Rotl(Before(prev, ws, n), 27))]
  }

  /** w_i = t_i - rotl(w_{i-1}, 27), in order. */
  function Unchain(prev: Word, ts: seq<Word>): (ws: seq<Word>)
    ensures |ws| == |ts|
  {
    if |ts| == 0 then []
    else
      var n := |ts| - 1;
      var ws := Unchain(prev, ts[..n]);
      ws + [Sub(ts[n], Rotl(Before(prev, ws, n), 27))]
  }

  lemma {:induction false} ChainAt(prev: Word, ws: seq<Word>, i: nat)
    requires i < |ws|
    ensures Chain(prev, ws)[i] == Add(ws[i], Rotl(Before(prev, ws, i), 27))
    decreases |ws|
  {
    hide Add, Rotl;
    var n := |ws| - 1;
    if i < n {
      ChainAt(prev, ws[..n], i);
      assert Before(prev, ws[..n], i) == Before(prev, ws, i);
    }
  }

  lemma ChainSnoc(prev: Word, ws: seq<Word>, w: Word)
    ensures Chain(prev, ws + [w]) == Chain(prev, ws) + [Add(w, Rotl(Before(prev, ws, |ws|), 27))]
  {
    hide Add, Rotl;
    assert (ws + [w])[..|ws|] == ws;
    assert Before(prev, ws + [w], |ws|) == Before(prev, ws, |ws|);
  }

  lemma UnchainSnoc(prev: Word, ts: seq<Word>, t: Word)
    ensures var ws := Unchain(prev, ts);
      Unchain(prev, ts + [t]) == ws + [Sub(t, Rotl(Before(prev, ws, |ws|), 27))]
  {
    hide Sub, Rotl;
    assert (ts + [t])[..|ts|] == ts;
  }

  lemma ChainNothing(prev: Word)
    ensures Chain(prev, []) == [] && Unchain(prev, []) == []
  {
  }

  /** Stripes come back from the absorbed values, whatever precedes them. */
  lemma {:induction false} UnchainChain(prev: Word, ws: seq<Word>)
    ensures Unchain(prev, Chain(prev, ws)) == ws
    decreases |ws|
  {
    hide Chain, Unchain, Before, Add, Sub, Rotl;
    ChainNothing(prev);
    if |ws| > 0 {
      var init, w := ws[..|ws| - 1], ws[|ws| - 1];
      assert ws == init + [w];
      UnchainChain(prev, init);
      ChainSnoc(prev, init, w);
      var u := Rotl(Before(prev, init, |init|), 27);
      UnchainSnoc(prev, Chain(prev, init), Add(w, u));
      AddSub(w, u);
    }
  }

  /** And every sequence of values is absorbed from some stripes: the chain is a bijection. */
  lemma {:induction false} ChainUnchain(prev: Word, ts: seq<Word>)
    ensures Chain(prev, Unchain(prev, ts)) == ts
    decreases |ts|
  {
    hide Chain, Unchain, Before, Add, Sub, Rotl;
    ChainNothing(prev);
    if |ts| > 0 {
      var init, t := ts[..|ts| - 1], ts[|ts| - 1];
      assert ts == init + [t];
      ChainUnchain(prev, init);
      UnchainSnoc(prev, init, t);
      var ws := Unchain(prev, init);
      var u := Rotl(Before(prev, ws, |ws|), 27);
      ChainSnoc(prev, ws, Sub(t, u));
      AddSub(t, u);
    }
  }

  /** If two stripe sequences first differ at j, the absorbed values agree before j and differ at j. */
  lemma FirstDifferenceAbsorbed(prev: Word, ws: seq<Word>, vs: seq<Word>, j: nat)
    requires j < |ws| && j < |vs|
    requires ws[..j] == vs[..j] && ws[j] != vs[j]
    ensures Chain(prev, ws)[..j] == Chain(prev, vs)[..j]
    ensures Chain(prev, ws)[j] != Chain(prev, vs)[j]
  {
    hide Chain, Add, Rotl;
    forall i | 0 <= i < j ensures Chain(prev, ws)[i] == Chain(prev, vs)[i] {
      ChainAt(prev, ws, i);
      ChainAt(prev, vs, i);
      SameBefore(prev, ws, vs, i, j);
    }
    ChainAt(prev, ws, j);
    ChainAt(prev, vs, j);
    SameBefore(prev, ws, vs, j, j);
    var u := Rotl(Before(prev, ws, j), 27);
    if Add(ws[j], u) == Add(vs[j], u) { AddInjective(u, ws[j], vs[j]); }
  }

  lemma SameBefore(prev: Word, ws: seq<Word>, vs: seq<Word>, i: nat, j: nat)
    requires i <= j <= |ws| && j <= |vs| && ws[..j] == vs[..j]
    ensures Before(prev, ws, i) == Before(prev, vs, i)
    ensures i < j ==> ws[i] == vs[i]
  {
    if i > 0 { assert ws[..j][i - 1] == vs[..j][i - 1]; }
    if i < j { assert ws[..j][i] == vs[..j][i]; }
  }

  // ---- The trace ---------------------------------------------------------------------

  function Injected(ts: seq<Word>): (r: seq<Word>)
    ensures |r| == |ts| && forall i :: 0 <= i < |ts| ==> r[i] == Inj(ts[i])
  {
    hide Inj;
    if |ts| == 0 then [] else Injected(ts[..|ts| - 1]) + [Inj(ts[|ts| - 1])]
  }

  /** Everything absorbed of a message of n bytes with loads ws: the chained stripes, then the injected tail words. */
  function Absorbed(n: nat, ws: seq<Word>): (ts: seq<Word>)
    requires n > 16 && |ws| == |Offsets(n)|
    ensures |ts| == |ws|
  {
    Chain(0, ws[..StripeCount(n)]) + Injected(ws[StripeCount(n)..])
  }

  function Trace(p: Bytes): (ts: seq<Word>)
    requires |p| > 16
    ensures |ts| == |Offsets(|p|)|
  {
    Absorbed(|p|, Loads(p, Offsets(|p|)))
  }

  /** One absorb: (h ^ t) * K. */
  function Step(h: Word, t: Word): Word { Mul(Xor(h, t), K) }

  /** One tail absorb: (h + t) * K. */
  function TailStep(h: Word, t: Word): Word { Mul(Add(h, t), K) }

  /** Eight absorbed values, value i + j to lane j, and the raw stripe c as the checkpoint. */
  function TraceBlock(st: Lanes, ts: seq<Word>, i: nat, c: Word): Lanes
    requires i + 8 <= |ts|
  {
    Lanes(Add(Step(st.h0, ts[i]), c), Step(st.h1, ts[i + 1]), Step(st.h2, ts[i + 2]), Step(st.h3, ts[i + 3]),
          Step(st.h4, ts[i + 4]), Step(st.h5, ts[i + 5]), Step(st.h6, ts[i + 6]), Step(st.h7, ts[i + 7]), c)
  }

  /** The blocks; the checkpoints are the raw stripes behind the values. */
  function TraceBlocks(st: Lanes, ts: seq<Word>, ws: seq<Word>, b: nat): Lanes
    requires 8 * b <= |ts| == |ws|
  {
    if b == 0 then st else TraceBlock(TraceBlocks(st, ts, ws, b - 1), ts, 8 * (b - 1), ws[8 * b - 1])
  }

  /** Four absorbed values, value i + j to lane j; last is the raw stripe the wall would take. */
  function TraceRound(q: Quad, ts: seq<Word>, i: nat, last: Word): Quad
    requires i + 4 <= |ts|
  {
    Quad(Step(q.h0, ts[i]), Step(q.h1, ts[i + 1]), Step(q.h2, ts[i + 2]), Step(q.h3, ts[i + 3]), last)
  }

  function TraceRounds(q: Quad, ts: seq<Word>, ws: seq<Word>, i: nat, r: nat): Quad
    requires i + 4 * r <= |ts| == |ws|
  {
    if r == 0 then q
    else TraceRound(TraceRounds(q, ts, ws, i, r - 1), ts, i + 4 * (r - 1), ws[i + 4 * r - 1])
  }

  function TraceTail(q: Quad, ts: seq<Word>): Quad
    requires |ts| == 0 || |ts| == 2 || |ts| == 4
  {
    if |ts| == 4 then
      Quad(TailStep(q.h0, ts[0]), TailStep(q.h1, ts[1]), TailStep(q.h2, ts[2]), TailStep(q.h3, ts[3]), q.wp)
    else if |ts| == 2 then
      q.(h2 := TailStep(q.h2, ts[0]), h3 := TailStep(q.h3, ts[1]))
    else q
  }

  /**
   * The lanes before the fold, from the length, the trace and the seed: every lane step takes one
   * value of the trace, and only the checkpoints and the wall take stripes, decoded from it.
   */
  function SettleTrace(n: nat, ts: seq<Word>, seed: Word): Quad
    requires n > 16 && |ts| == |Offsets(n)|
  {
    hide LanesOfPremix, TraceBlock, TraceRound, Wall, TailStep, FoldUpper, Unchain;
    var st, b, m := LanesOfPremix(Premix(seed)), BlockCount(n), StripeCount(n);
    var stripes := ts[..m];
    var ws := Unchain(0, stripes);
    var q := if b > 0 then FoldUpper(TraceBlocks(st, stripes, ws, b)) else FirstLanes(st);
    TraceTail(Wall(TraceRounds(q, stripes, ws, 8 * b, RoundCount(n))), ts[m..])
  }

  // ---- The lanes are a fold over the trace -------------------------------------------

  lemma AbsorbIsStep(h: Word, prev: Word, ws: seq<Word>, i: nat)
    requires i < |ws|
    ensures Absorb(h, Before(prev, ws, i), ws[i]) == Step(h, Chain(prev, ws)[i])
  {
    hide Mul, Xor, Add, Rotl, Chain;
    ChainAt(prev, ws, i);
  }

  lemma BlockTakesTrace(st: Lanes, ws: seq<Word>, i: nat)
    requires i + 8 <= |ws| && st.wp == Before(0, ws, i)
    ensures WordBlock(st, ws, i) == TraceBlock(st, Chain(0, ws), i, ws[i + 7])
  {
    hide Absorb, Step, Add, Chain;
    AbsorbIsStep(st.h0, 0, ws, i);
    AbsorbIsStep(st.h1, 0, ws, i + 1);
    AbsorbIsStep(st.h2, 0, ws, i + 2);
    AbsorbIsStep(st.h3, 0, ws, i + 3);
    AbsorbIsStep(st.h4, 0, ws, i + 4);
    AbsorbIsStep(st.h5, 0, ws, i + 5);
    AbsorbIsStep(st.h6, 0, ws, i + 6);
    AbsorbIsStep(st.h7, 0, ws, i + 7);
  }

  lemma RoundTakesTrace(q: Quad, ws: seq<Word>, i: nat)
    requires i + 4 <= |ws| && q.wp == Before(0, ws, i)
    ensures WordRound(q, ws, i) == TraceRound(q, Chain(0, ws), i, ws[i + 3])
  {
    hide Absorb, Step, Chain;
    AbsorbIsStep(q.h0, 0, ws, i);
    AbsorbIsStep(q.h1, 0, ws, i + 1);
    AbsorbIsStep(q.h2, 0, ws, i + 2);
    AbsorbIsStep(q.h3, 0, ws, i + 3);
  }

  lemma {:induction false} BlocksTakeTrace(st: Lanes, ws: seq<Word>, b: nat)
    requires 8 * b <= |ws| && st.wp == 0
    ensures WordBlocks(st, ws, b) == TraceBlocks(st, Chain(0, ws), ws, b)
    ensures WordBlocks(st, ws, b).wp == Before(0, ws, 8 * b)
  {
    hide WordBlock, TraceBlock, Chain;
    if b > 0 {
      BlocksTakeTrace(st, ws, b - 1);
      BlockTakesTrace(WordBlocks(st, ws, b - 1), ws, 8 * (b - 1));
      LastOfBlock(WordBlocks(st, ws, b - 1), ws, 8 * (b - 1));
    }
  }

  lemma LastOfBlock(st: Lanes, ws: seq<Word>, i: nat)
    requires i + 8 <= |ws|
    ensures WordBlock(st, ws, i).wp == ws[i + 7]
  {
    hide Absorb, Add;
  }

  lemma {:induction false} RoundsTakeTrace(q: Quad, ws: seq<Word>, i: nat, r: nat)
    requires i + 4 * r <= |ws| && q.wp == Before(0, ws, i)
    ensures WordRounds(q, ws, i, r) == TraceRounds(q, Chain(0, ws), ws, i, r)
    ensures WordRounds(q, ws, i, r).wp == Before(0, ws, i + 4 * r)
  {
    hide WordRound, TraceRound, Chain;
    if r > 0 {
      RoundsTakeTrace(q, ws, i, r - 1);
      RoundTakesTrace(WordRounds(q, ws, i, r - 1), ws, i + 4 * (r - 1));
      LastOfRound(WordRounds(q, ws, i, r - 1), ws, i + 4 * (r - 1));
    }
  }

  lemma LastOfRound(q: Quad, ws: seq<Word>, i: nat)
    requires i + 4 <= |ws|
    ensures WordRound(q, ws, i).wp == ws[i + 3]
  {
    hide Absorb;
  }

  lemma TailTakesTrace(q: Quad, ts: seq<Word>)
    requires |ts| == 0 || |ts| == 2 || |ts| == 4
    ensures WordTail(q, ts) == TraceTail(q, Injected(ts))
  {
    hide Inj, Add, Mul, Injected;
  }

  /** Only the stripes before position k are read by the first blocks and rounds. */
  lemma {:induction false} BlocksReadPrefix(st: Lanes, ws: seq<Word>, m: nat, b: nat)
    requires 8 * b <= m <= |ws|
    ensures WordBlocks(st, ws, b) == WordBlocks(st, ws[..m], b)
  {
    hide Absorb, Add;
    if b > 0 { BlocksReadPrefix(st, ws, m, b - 1); }
  }

  lemma {:induction false} RoundsReadPrefix(q: Quad, ws: seq<Word>, m: nat, i: nat, r: nat)
    requires i + 4 * r <= m <= |ws|
    ensures WordRounds(q, ws, i, r) == WordRounds(q, ws[..m], i, r)
  {
    hide Absorb;
    if r > 0 { RoundsReadPrefix(q, ws, m, i, r - 1); }
  }

  lemma StartsClear(s: Word)
    ensures LanesOfPremix(s).wp == 0
  {
    hide Xor, Add, Rotl, Shl, Shr;
  }

  lemma FoldKeepsStripe(st: Lanes)
    ensures FoldUpper(st).wp == st.wp
  {
    hide Mul, Xor, Rotl;
  }

  lemma AbsorbedParts(n: nat, ws: seq<Word>)
    requires n > 16 && |ws| == |Offsets(n)|
    ensures var m := StripeCount(n);
      Absorbed(n, ws)[..m] == Chain(0, ws[..m]) && Absorbed(n, ws)[m..] == Injected(ws[m..])
  {
    hide Chain, Injected, StripeCount;
  }

  /** The words-only walk is the fold over what is absorbed. */
  lemma WordsSettleAsTrace(n: nat, ws: seq<Word>, seed: Word)
    requires n > 16 && |ws| == |Offsets(n)|
    ensures SettleWords(n, ws, seed) == SettleTrace(n, Absorbed(n, ws), seed)
  {
    hide LanesOfPremix, Premix, FoldUpper, WordBlocks, WordRounds, TraceBlocks, TraceRounds, Wall, WordTail, TraceTail;
    hide Chain, Unchain, Absorbed, Injected, BlockCount, RoundCount, StripeCount, Offsets;
    var st, b, m, r := LanesOfPremix(Premix(seed)), BlockCount(n), StripeCount(n), RoundCount(n);
    var stripes := ws[..m];
    CountedBytes(n);
    AbsorbedParts(n, ws);
    UnchainChain(0, stripes);
    BlocksReadPrefix(st, ws, m, b);
    StartsClear(Premix(seed));
    BlocksTakeTrace(st, stripes, b);
    FoldKeepsStripe(WordBlocks(st, stripes, b));
    var q := if b > 0 then FoldUpper(WordBlocks(st, stripes, b)) else FirstLanes(st);
    RoundsReadPrefix(q, ws, m, 8 * b, r);
    RoundsTakeTrace(q, stripes, 8 * b, r);
    TailTakesTrace(Wall(WordRounds(q, stripes, 8 * b, r)), ws[m..]);
  }

  /** The lanes of every message above 16 bytes before the fold are the fold over its trace. */
  lemma SettledTakesTrace(p: Bytes, seed: Word)
    requires |p| > 16
    ensures Settled(p, seed) == SettleTrace(|p|, Trace(p), seed)
  {
    hide Settled, SettleWords, SettleTrace, Absorbed, Loads, Offsets;
    SettledReadsWords(p, seed);
    WordsSettleAsTrace(|p|, Loads(p, Offsets(|p|)), seed);
  }

  // ---- Nothing is lost ---------------------------------------------------------------

  function Uninjected(ts: seq<Word>): (r: seq<Word>)
    ensures |r| == |ts| && forall i :: 0 <= i < |ts| ==> r[i] == UnInj(ts[i])
  {
    hide UnInj;
    if |ts| == 0 then [] else Uninjected(ts[..|ts| - 1]) + [UnInj(ts[|ts| - 1])]
  }

  /** The loads behind a trace. */
  function Unabsorbed(n: nat, ts: seq<Word>): (ws: seq<Word>)
    requires n > 16 && |ts| == |Offsets(n)|
    ensures |ws| == |ts|
  {
    Unchain(0, ts[..StripeCount(n)]) + Uninjected(ts[StripeCount(n)..])
  }

  lemma UninjectInjected(ts: seq<Word>)
    ensures Uninjected(Injected(ts)) == ts
  {
    hide Inj, UnInj, Injected, Uninjected;
    forall i | 0 <= i < |ts| ensures Uninjected(Injected(ts))[i] == ts[i] { InjInverse(ts[i]); }
  }

  lemma UnabsorbAbsorbed(n: nat, ws: seq<Word>)
    requires n > 16 && |ws| == |Offsets(n)|
    ensures Unabsorbed(n, Absorbed(n, ws)) == ws
  {
    hide Chain, Unchain, Injected, Uninjected, Absorbed, StripeCount;
    var m := StripeCount(n);
    AbsorbedParts(n, ws);
    UnchainChain(0, ws[..m]);
    UninjectInjected(ws[m..]);
    assert ws == ws[..m] + ws[m..];
  }

  /** The rho tail bytes behind the tail words. */
  function Untail(rho: nat, ws: seq<Word>): Bytes
    requires rho < 32 && |ws| == (if rho > 16 then 4 else if rho > 0 then 2 else 0)
  {
    hide BytesOf;
    if rho > 16 then BytesOf(ws[0]) + BytesOf(ws[1]) + (BytesOf(ws[2]) + BytesOf(ws[3]))[32 - rho..]
    else if rho > 0 then (BytesOf(ws[0]) + BytesOf(ws[1]))[16 - rho..]
    else []
  }

  lemma UntailWords(p: Bytes, o: nat)
    requires 16 < |p| && o <= |p| < o + 32
    ensures Untail(|p| - o, TailWords(p, o)) == p[o..]
  {
    hide Load64, Loads, BytesOf;
    if |p| - o > 16 {
      LongUntail(p, o);
    } else if |p| - o > 0 {
      LoadPair(p, |p| - 16);
      SliceOfSlice(p, |p| - 16, o);
    }
  }

  lemma LongUntail(p: Bytes, o: nat)
    requires 16 < |p| && o + 16 < |p| < o + 32
    ensures Untail(|p| - o, TailWords(p, o)) == p[o..]
  {
    hide Load64, Loads, BytesOf;
    LoadPair(p, o);
    LoadPair(p, |p| - 16);
    SliceOfSlice(p, |p| - 16, o + 16);
    assert p[o..] == p[o..o + 16] + p[o + 16..];
  }

  lemma LoadPair(p: Bytes, i: nat)
    requires i + 16 <= |p|
    ensures BytesOf(Load64(p, i)) + BytesOf(Load64(p, i + 8)) == p[i..i + 16]
  {
    hide Load64, BytesOf;
    LoadBytes(p, i);
    LoadBytes(p, i + 8);
  }

  lemma SliceOfSlice(p: Bytes, i: nat, j: nat)
    requires i <= j <= |p|
    ensures p[i..|p|][j - i..] == p[j..]
  {
  }

  /** The message behind its loads. */
  function Unloaded(n: nat, ws: seq<Word>): Bytes
    requires n > 16 && |ws| == |Offsets(n)|
  {
    hide Unstripe, Untail;
    var m := StripeCount(n);
    Unstripe(ws[..m]) + Untail(n - 8 * m, ws[m..])
  }

  /** The loads together hold every byte. */
  lemma UnloadLoads(p: Bytes)
    requires |p| > 16
    ensures Unloaded(|p|, Loads(p, Offsets(|p|))) == p
  {
    hide Load64, Loads, Offsets, Unstripe, Untail, TailWords, StripeCount;
    var m, ws := StripeCount(|p|), Loads(p, Offsets(|p|));
    LoadsInOrder(p);
    assert ws[..m] == StripesOf(p, 0, m);
    UnstripeStripes(p, 0, m);
    UntailWords(p, 8 * m);
    assert p == p[0..8 * m] + p[8 * m..];
  }

  /** The message behind its length and trace. */
  function Untrace(n: nat, ts: seq<Word>): Bytes
    requires n > 16 && |ts| == |Offsets(n)|
  {
    Unloaded(n, Unabsorbed(n, ts))
  }

  /** Nothing is lost on the way into the lanes: length and trace give the message back. */
  lemma TraceLosesNothing(p: Bytes)
    requires |p| > 16
    ensures Untrace(|p|, Trace(p)) == p
  {
    hide Loads, Offsets, Absorbed, Unabsorbed, Unloaded;
    UnabsorbAbsorbed(|p|, Loads(p, Offsets(|p|)));
    UnloadLoads(p);
  }
}
