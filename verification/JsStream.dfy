// The pure BigInt streaming state: the same machine over masked BigInts and JavaScript numbers.
module JsStream {
  import opened Words
  import opened Reference
  import opened BigInts
  import opened PureEngine
  import opened Streaming

  /** `wholeBlocks`: plain remainder arithmetic, where n & ~63 would go negative from 2^31 on. */
  function Whole(n: nat): (r: nat)
    ensures r == WholeBlocks(n)
  {
    n - n % 64
  }

  /** The optional argument of reset. */
  datatype SeedChoice = KeepSeed | NewSeed(seed: int)

  class PureHasher {
    const h: array<Word>
    const buf: array<Byte>
    var wp: Word
    var seed: Word
    var total: Word
    var nbuf: nat
    var bulk: bool
    ghost var history: Bytes

    ghost function LaneState(): Lanes
      reads `wp, h
      requires h.Length == 8
    {
      Lanes(h[0], h[1], h[2], h[3], h[4], h[5], h[6], h[7], wp)
    }

    ghost predicate Shaped()
      reads `nbuf
    {
      h.Length == 8 && buf.Length == BUF_CAP && nbuf <= BUF_CAP
    }

    ghost predicate Tracking()
      reads `wp, `seed, `nbuf, `history, h, buf
      requires Shaped()
    {
      Tracks(seed, history, LaneState(), buf[..nbuf])
    }

    ghost predicate Valid()
      reads this, h, buf
    {
      && Shaped() && nbuf < BUF_CAP && Tracking()
      && total == Wrap(|history|)
      && (if bulk then KEEP <= nbuf && BULK_MIN <= |history| - nbuf else nbuf == |history|)
    }

    constructor (seed: int)
      ensures Valid() && fresh(h) && fresh(buf)
      ensures this.seed == SeedMask(seed) && history == [] && !bulk
    {
      h := new Word[8];
      buf := new Byte[BUF_CAP];
      this.seed := SeedMask(seed);
      total, nbuf, bulk, wp := 0, 0, false, 0;
      history := [];
      new;
      Init(SeedMask(seed));
    }

    /** Writes the lanes back. */
    method Store(n: Lanes)
      requires h.Length == 8
      modifies h, `wp
      ensures LaneState() == n
    {
      h[0], h[1], h[2], h[3] := n.h0, n.h1, n.h2, n.h3;
      h[4], h[5], h[6], h[7] := n.h4, n.h5, n.h6, n.h7;
      wp := n.wp;
    }

    method Init(seed: Word)
      requires h.Length == 8 && buf.Length == BUF_CAP
      modifies this, h
      ensures Valid()
      ensures this.seed == seed && history == [] && !bulk
    {
      hide Tracks, LanesOfPremix, Xor, LaneState;
      var n := InitialLanes(Xor(seed, K));
      Store(n);
      this.seed, total, nbuf, bulk, history := seed, 0, 0, false, [];
      TracksEmpty(seed);
      assert buf[..nbuf] == [];
    }

    method Reset(choice: SeedChoice)
      requires h.Length == 8 && buf.Length == BUF_CAP
      modifies this, h
      ensures Valid()
      ensures seed == if choice.NewSeed? then SeedMask(choice.seed) else old(seed)
      ensures history == [] && !bulk
    {
      if choice.NewSeed? { seed := SeedMask(choice.seed); }
      Init(seed);
    }

    /** Absorbs p, whole blocks. */
    method Blocks(p: Bytes)
      requires h.Length == 8 && |p| % 64 == 0
      modifies h, `wp
      ensures LaneState() == Reference.Blocks(old(LaneState()), p, |p|)
    {
      hide Reference.Blocks;
      var r := BlockLoop(p, Lanes(h[0], h[1], h[2], h[3], h[4], h[5], h[6], h[7], wp));
      Store(r);
    }

    /** Appends x to the buffered bytes. */
    method CopyIn(x: Bytes)
      requires Shaped() && Tracking() && nbuf + |x| <= BUF_CAP
      modifies buf, `nbuf, `history
      ensures Shaped() && Tracking()
      ensures nbuf == old(nbuf) + |x| && history == old(history) + x
    {
      hide Tracks, LaneState;
      TracksAppend(seed, history, LaneState(), buf[..nbuf], x);
      ghost var before := buf[..nbuf];
      forall i | 0 <= i < |x| { buf[nbuf + i] := x[i]; }
      nbuf := nbuf + |x|;
      history := history + x;
      assert buf[..nbuf] == before + x;
    }

    /** Drains the floor, then absorbs x straight from the caller's array. */
    method Bypass(x: Bytes)
      requires Shaped() && Tracking() && nbuf == KEEP && |x| % 64 == 0
      modifies h, `wp, `nbuf, `history
      ensures Shaped() && Tracking()
      ensures nbuf == 0 && history == old(history) + x
    {
      hide Tracks, Reference.Blocks, LaneState;
      ghost var floor := buf[..KEEP];
      TracksAppend(seed, history, LaneState(), floor, x);
      history := history + x;
      TracksConsume(seed, history, LaneState(), floor, x);
      Blocks(buf[..KEEP]);
      AppendNothing(x);
      TracksConsume(seed, history, LaneState(), x, []);
      Blocks(x);
      nbuf := 0;
      assert buf[..nbuf] == [];
    }

    /** Absorbs the first consume buffered bytes and moves the rest to the front. */
    method ConsumeFront(consume: nat)
      requires Shaped() && Tracking() && consume <= nbuf && consume % 64 == 0
      modifies h, buf, `wp, `nbuf
      ensures Shaped() && Tracking() && nbuf == old(nbuf) - consume
    {
      hide Tracks, Reference.Blocks, LaneState;
      ghost var front, rest := buf[..consume], buf[consume..nbuf];
      assert buf[..nbuf] == front + rest;
      TracksConsume(seed, history, LaneState(), front, rest);
      Blocks(buf[..consume]);
      nbuf := nbuf - consume;
      forall i | 0 <= i < nbuf { buf[i] := buf[consume + i]; }
      assert buf[..nbuf] == rest;
    }

    method Update(data: Bytes)
      requires Valid()
      modifies this, h, buf
      ensures Valid()
      ensures seed == old(seed) && history == old(history) + data
      ensures bulk == (old(bulk) || |history| >= 448) && (bulk ==> 128 <= nbuf < 448)
      ensures nbuf == Buffered(old(nbuf), |data|)
    {
      hide Tracking, Wrap;
      if |data| == 0 {
        AppendNothing(history);
        return;
      }
      WrapTerm(|history|, |data|);
      total := Wrap(total + |data|);
      if !bulk {
        if nbuf + |data| < BUF_CAP {
          CopyIn(data);
          return;
        }
        bulk := true;
      }
      Refill(data);
    }

    /** The loop of update. */
    method Refill(data: Bytes)
      requires Shaped() && Tracking() && nbuf < BUF_CAP
      requires (nbuf == |history| && nbuf + |data| >= BUF_CAP) || (KEEP <= nbuf && BULK_MIN <= |history| - nbuf)
      modifies h, buf, `wp, `nbuf, `history
      ensures Shaped() && Tracking() && 128 <= nbuf < 448 && 320 <= |history| - nbuf
      ensures history == old(history) + data
      ensures nbuf == Buffered(old(nbuf), |data|)
    {
      hide Tracking, Whole, WholeBlocks, Buffered;
      var p := data;
      ghost var goal, target := history + data, Buffered(nbuf, |data|);
      while true
        invariant Shaped() && Tracking() && nbuf < BUF_CAP
        invariant Buffered(nbuf, |p|) == target
        invariant history + p == goal
        invariant (nbuf == |history| && nbuf + |p| >= BUF_CAP) || (KEEP <= nbuf && BULK_MIN <= |history| - nbuf)
        decreases |p|
      {
        if nbuf == KEEP && |p| > BUF_CAP {
          var direct := Whole(|p| - KEEP);
          DirectLeaves(|p|, direct);
          TakeNext(history, p, direct);
          Bypass(p[..direct]);
          p := p[direct..];
        }
        CopyLeaves(nbuf, |p|);
        var take := if BUF_CAP - nbuf < |p| then BUF_CAP - nbuf else |p|;
        TakeNext(history, p, take);
        CopyIn(p[..take]);
        p := p[take..];
        if nbuf < BUF_CAP {
          AppendNothing(history);
          break;
        }
        ConsumeFront(Whole(nbuf - KEEP));
      }
    }

    /** The two fold words, continuing from a copy of the lanes. */
    method Tail() returns (t0: Word, t1: Word, s: Word)
      requires Valid() && bulk
      ensures |history| > 16 && Folds(t0, t1) == Walk(history, seed)
      ensures s == Premix(seed)
    {
      hide Tracks, Walk, Continue, Wrap, Xor, Mul, JsMul;
      assert |history| > 16;
      Masked(total);
      s := Xor(seed, K);
      t0, t1 := ContinueMasked(buf[..nbuf], Lanes(h[0], h[1], h[2], h[3], h[4], h[5], h[6], h[7], wp),
                               JsMul(total, K), |history|);
      TracksWalk(seed, history, LaneState(), buf[..nbuf]);
    }

    /** The 64-bit digest of everything absorbed; the state is not changed. */
    method Digest64() returns (d: Word)
      requires Valid()
      ensures d == Hash64(history, seed)
    {
      hide Tracks, Walk, LowWord, Hash64, Hash128;
      if !bulk {
        TracksAll(seed, history, LaneState(), buf[..nbuf]);
        var hi;
        d, hi := Engine(buf[..total], seed, false);
        return;
      }
      var t0, t1, s := Tail();
      d := LowDigest(s, t0, t1);
      LongHash(history, seed);
    }

    /** Both words; the low one is the 64-bit digest. */
    method Digest128() returns (lo: Word, hi: Word)
      requires Valid()
      ensures Digest(lo, hi) == Hash128(history, seed) && lo == Hash64(history, seed)
    {
      hide Tracks, Walk, LowWord, HighWord, Hash64, Hash128;
      if !bulk {
        TracksAll(seed, history, LaneState(), buf[..nbuf]);
        lo, hi := Engine(buf[..total], seed, true);
        return;
      }
      var t0, t1, s := Tail();
      lo := LowDigest(s, t0, t1);
      hi := HighDigest(s, t0, t1);
      LongHash(history, seed);
    }
  }

  /** The block loop over masked integers. */
  method BlockLoop(p: Bytes, st: Lanes) returns (r: Lanes)
    requires |p| % 64 == 0
    ensures r == Reference.Blocks(st, p, |p|)
  {
    hide Reference.Blocks, Block;
    var i := 0;
    r := st;
    BlocksNone(st, p);
    while i < |p|
      invariant 0 <= i <= |p| && i % 64 == 0
      invariant r == Reference.Blocks(st, p, i)
    {
      BlocksNext(st, p, i);
      r := BlockStep(p, i, r);
      i := i + 64;
    }
  }

  /** The leftover whole blocks, the fold, at most one round, the wall and the tail. */
  method ContinueMasked(p: Bytes, st: Lanes, lenmix: Word, ghost n: nat) returns (t0: Word, t1: Word)
    requires |p| > 16 && lenmix == LenMix(n)
    ensures Folds(t0, t1) == Continue(st, p, n)
  {
    hide Reference.Blocks, Round, Rounds, Drain, LenMix, FoldUpper;
    var b := Whole(|p|);
    var r := BlockLoop(p[..b], st);
    PrefixBlocks(st, p, b);
    var q := FoldLanes(r);
    ghost var q0 := q;
    var i := b;
    RoundsNone(q0, p, b);
    if |p| - b >= 32 {
      RoundsNext(q0, p, b, 0);
      q := RoundStep(p, i, q);
      i := i + 32;
    }
    t0, t1 := PureEngine.TailFolds(p, i, q, lenmix, n);
  }

  /** Whatever the split, the stream and the one-shot engine return the same integers. */
  method AgreesWithEngine(seed: int, chunks: seq<Bytes>) returns (lo: Word, hi: Word, lo': Word, hi': Word)
    ensures lo == lo' && hi == hi'
    ensures Digest(lo, hi) == Hash128(Concat(chunks), SeedMask(seed))
  {
    hide Hash64, Hash128, SeedMask, PureHasher.Tracking;
    var st := new PureHasher(seed);
    var data: Bytes := [];
    for i := 0 to |chunks|
      invariant st.Valid() && fresh(st) && fresh(st.h) && fresh(st.buf) && st.seed == SeedMask(seed)
      invariant st.history == data == Concat(chunks[..i])
    {
      assert chunks[..i + 1][..i] == chunks[..i];
      st.Update(chunks[i]);
      data := data + chunks[i];
    }
    assert chunks[..|chunks|] == chunks;
    lo, hi := st.Digest128();
    lo', hi' := Engine(data, SeedMask(seed), true);
  }
}
