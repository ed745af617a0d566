// The incremental state: bytes are buffered until the input is known to be long, then
// consumed in whole 64-byte blocks while at least KEEP bytes stay behind for the tail.
module Streaming {
  import opened Words
  import opened Reference
  import OneShot

  const BUF_CAP := 448
  const KEEP := 128

  /** The lanes have absorbed a block-aligned prefix of done; rest is all that follows it. */
  ghost predicate Tracks(seed: Word, done: Bytes, st: Lanes, rest: Bytes) {
    hide InitLanes, Block;
    && |rest| <= |done|
    && (|done| - |rest|) % 64 == 0
    && rest == done[|done| - |rest|..]
    && st == Blocks(InitLanes(seed), done, |done| - |rest|)
  }

  lemma TracksEmpty(seed: Word)
    ensures Tracks(seed, [], InitLanes(seed), [])
  {
    hide InitLanes, Block;
  }

  lemma TracksAppend(seed: Word, done: Bytes, st: Lanes, rest: Bytes, x: Bytes)
    requires Tracks(seed, done, st, rest)
    ensures Tracks(seed, done + x, st, rest + x)
  {
    hide Blocks, InitLanes;
    BlocksPrefix(InitLanes(seed), done, x, |done| - |rest|);
  }

  lemma TracksConsume(seed: Word, done: Bytes, st: Lanes, c: Bytes, rest: Bytes)
    requires Tracks(seed, done, st, c + rest) && |c| % 64 == 0
    ensures Tracks(seed, done, Blocks(st, c, |c|), rest)
  {
    hide Blocks, InitLanes;
    var a := done[..|done| - |c + rest|];
    assert done == a + (c + rest);
    BlocksPrefix(InitLanes(seed), a, c + rest, |a|);
    BlocksSplit(InitLanes(seed), a, c + rest, |c|);
    BlocksPrefix(st, c, rest, |c|);
  }

  /** The continuation over what is left agrees with the one-shot walk over everything. */
  lemma TracksWalk(seed: Word, done: Bytes, st: Lanes, rest: Bytes)
    requires Tracks(seed, done, st, rest)
    requires |done| >= BULK_MIN && |rest| >= 16
    ensures Continue(st, rest, |done|) == Walk(done, seed)
  {
    hide Blocks, Block, LanesOfPremix, Finish, FoldUpper;
    var a := done[..|done| - |rest|];
    assert done == a + rest;
    BlocksPrefix(InitLanes(seed), a, rest, |a|);
    ContinueSplit(InitLanes(seed), a, rest, |done|);
  }

  /** How many bytes an update of n bytes leaves buffered. */
  function Buffered(nbuf: nat, n: nat): (r: nat)
    requires nbuf < BUF_CAP
    ensures r < BUF_CAP
    decreases n
  {
    if nbuf == KEEP && n > BUF_CAP then KEEP + n % 64
    else if nbuf + n < BUF_CAP then nbuf + n
    else Buffered(KEEP, n - (BUF_CAP - nbuf))
  }

  /**
   * What is left behind, in bytes: everything while it fits in 448, else 128 and the partial block
   * when the rest goes past the buffer, else one or two fills of it.
   */
  lemma BufferedIs(nbuf: nat, n: nat)
    requires nbuf < 448
    ensures Buffered(nbuf, n) ==
      var over := nbuf + n - 448;
      if nbuf == 128 && n > 448 then 128 + n % 64
      else if over < 0 then nbuf + n
      else if over > 448 then 128 + over % 64
      else if over < 320 then 128 + over
      else over - 192
  {
    var over := nbuf + n - 448;
    if !(nbuf == KEEP && n > BUF_CAP) && over >= 0 {
      assert Buffered(nbuf, n) == Buffered(KEEP, over);
      if 320 <= over <= 448 { assert Buffered(KEEP, over) == Buffered(KEEP, over - 320); }
    }
  }

  class State {
    const h: array<Word>
    const buf: array<Byte>
    var wp: Word
    var seed: Word
    var total: Word
    var nbuf: nat
    var bulk: bool
    ghost var history: Bytes

    ghost function LaneState(): Lanes
      reads `wp, h
      requires h.Length == 8
    {
      Lanes(h[0], h[1], h[2], h[3], h[4], h[5], h[6], h[7], wp)
    }

    /** What every reachable state satisfies. */
    ghost predicate Valid()
      reads this, h, buf
    {
      && h.Length == 8 && buf.Length == BUF_CAP && nbuf < BUF_CAP
      && total == Wrap(|history|)
      && Tracks(seed, history, LaneState(), buf[..nbuf])
      && (if bulk then KEEP <= nbuf && BULK_MIN <= |history| - nbuf else nbuf == |history|)
    }

    constructor (seed: Word)
      ensures Valid() && fresh(h) && fresh(buf)
      ensures this.seed == seed && history == [] && !bulk
    {
      h := new Word[8];
      buf := new Byte[BUF_CAP];
      this.seed := seed;
      total, nbuf, bulk, wp := 0, 0, false, 0;
      history := [];
      new;
      Reset(seed);
    }

    method Reset(seed: Word)
      requires h.Length == 8 && buf.Length == BUF_CAP
      modifies this, h
      ensures Valid()
      ensures this.seed == seed && history == [] && !bulk
    {
      hide Tracks, LanesOfPremix;
      wp := 0;
      SeedLanes(Premix(seed));
      this.seed := seed;
      total := 0;
      nbuf := 0;
      bulk := false;
      history := [];
      TracksEmpty(seed);
      assert buf[..nbuf] == [];
      assert LaneState() == InitLanes(seed);
    }

    method SeedLanes(s: Word)
      requires h.Length == 8 && wp == 0
      modifies h
      ensures LaneState() == LanesOfPremix(s)
    {
      hide Rotl, Xor, Add, Shl, Shr;
      h[0] := Xor(s, K);
      h[1] := Add(Rotl(s, 17), Shl(K, 21));
      h[2] := Xor(Rotl(s, 34), Shr(K, 13));
      h[3] := Add(Rotl(s, 51), Shl(K, 42));
      h[4] := Add(s, Shr(K, 27));
      h[5] := Xor(Rotl(s, 13), Shl(K, 9));
      h[6] := Add(Rotl(s, 26), Shr(K, 40));
      h[7] := Xor(Rotl(s, 39), Shl(K, 30));
    }

    /** Consumes p, whole blocks, through the eight lanes. */
    method AbsorbBlocks(p: Bytes)
      requires h.Length == 8 && |p| % 64 == 0
      modifies h, `wp
      ensures LaneState() == Blocks(old(LaneState()), p, |p|)
    {
      hide Blocks;
      var r := OneShot.AbsorbBlocks(p, Lanes(h[0], h[1], h[2], h[3], h[4], h[5], h[6], h[7], wp));
      h[0], h[1], h[2], h[3] := r.h0, r.h1, r.h2, r.h3;
      h[4], h[5], h[6], h[7] := r.h4, r.h5, r.h6, r.h7;
      wp := r.wp;
    }

    /** Appends x to the buffered bytes. */
    method CopyIn(x: Bytes)
      requires h.Length == 8 && buf.Length == BUF_CAP && nbuf + |x| <= BUF_CAP
      requires Tracks(seed, history, LaneState(), buf[..nbuf])
      modifies buf, `nbuf, `history
      ensures nbuf == old(nbuf) + |x| && history == old(history) + x
      ensures Tracks(seed, history, LaneState(), buf[..nbuf])
    {
      hide Tracks;
      TracksAppend(seed, history, LaneState(), buf[..nbuf], x);
      ghost var before := buf[..nbuf];
      forall i | 0 <= i < |x| { buf[nbuf + i] := x[i]; }
      nbuf := nbuf + |x|;
      history := history + x;
      assert buf[..nbuf] == before + x;
    }

    /** The fast path: drains the buffered floor, then streams x past the buffer. */
    method Bypass(x: Bytes)
      requires h.Length == 8 && buf.Length == BUF_CAP && nbuf == KEEP && |x| % 64 == 0
      requires Tracks(seed, history, LaneState(), buf[..nbuf])
      modifies h, `wp, `nbuf, `history
      ensures nbuf == 0 && history == old(history) + x
      ensures Tracks(seed, history, LaneState(), buf[..nbuf])
    {
      hide Tracks, Blocks;
      ghost var floor := buf[..KEEP];
      TracksAppend(seed, history, LaneState(), floor, x);
      history := history + x;
      TracksConsume(seed, history, LaneState(), floor, x);
      AbsorbBlocks(buf[..KEEP]);
      assert Tracks(seed, history, LaneState(), x);
      AppendNothing(x);
      TracksConsume(seed, history, LaneState(), x, []);
      AbsorbBlocks(x);
      nbuf := 0;
      assert buf[..nbuf] == [];
    }

    /** Absorbs the first count buffered bytes and moves the rest to the front. */
    method ConsumeFront(count: nat)
      requires h.Length == 8 && buf.Length == BUF_CAP && count <= nbuf <= BUF_CAP && count % 64 == 0
      requires Tracks(seed, history, LaneState(), buf[..nbuf])
      modifies h, buf, `wp, `nbuf
      ensures nbuf == old(nbuf) - count
      ensures buf[..nbuf] == old(buf[count..nbuf])
      ensures Tracks(seed, history, LaneState(), buf[..nbuf])
    {
      hide Tracks, Blocks;
      ghost var front, rest := buf[..count], buf[count..nbuf];
      assert buf[..nbuf] == front + rest;
      TracksConsume(seed, history, LaneState(), front, rest);
      AbsorbBlocks(buf[..count]);
      nbuf := nbuf - count;
      forall i | 0 <= i < nbuf { buf[i] := buf[count + i]; }
      assert buf[..nbuf] == rest;
    }

    /** Absorbs data. The refill loop runs at most three times and copies at most 896 bytes. */
    method Update(data: Bytes) returns (ghost passes: nat, ghost copied: nat)
      requires Valid()
      modifies this, h, buf
      ensures Valid()
      ensures seed == old(seed) && history == old(history) + data
      ensures bulk == (old(bulk) || |history| >= 448) && (bulk ==> 128 <= nbuf < 448)
      ensures nbuf == Buffered(old(nbuf), |data|)
      ensures passes <= 3 && copied <= 896
    {
      hide Tracks, LaneState, Wrap, WholeBlocks;
      if |data| == 0 {
        AppendNothing(history);
        return 0, 0;
      }
      total := Wrap(total + |data|);
      WrapTerm(|history|, |data|);
      if !bulk {
        if nbuf + |data| < BUF_CAP {
          CopyIn(data);
          return 0, |data|;
        }
        bulk := true;
      }
      passes, copied := Refill(data);
    }

    /** The loop of update: fill, and when full consume down to the floor. */
    method Refill(data: Bytes) returns (ghost passes: nat, ghost copied: nat)
      requires h.Length == 8 && buf.Length == BUF_CAP && nbuf < BUF_CAP
      requires Tracks(seed, history, LaneState(), buf[..nbuf])
      requires (nbuf == |history| && nbuf + |data| >= BUF_CAP) || (KEEP <= nbuf && BULK_MIN <= |history| - nbuf)
      modifies h, buf, `wp, `nbuf, `history
      ensures 128 <= nbuf < 448 && 320 <= |history| - nbuf
      ensures Tracks(seed, history, LaneState(), buf[..nbuf])
      ensures history == old(history) + data
      ensures nbuf == Buffered(old(nbuf), |data|)
      ensures passes <= 3 && copied <= 896
    {
      hide Tracks, LaneState, WholeBlocks, Buffered;
      passes, copied := 0, 0;
      var p := data;
      ghost var goal, target := history + data, Buffered(nbuf, |data|);
      while true
        invariant nbuf < BUF_CAP && Buffered(nbuf, |p|) == target
        invariant history + p == goal
        invariant Tracks(seed, history, LaneState(), buf[..nbuf])
        invariant (nbuf == |history| && nbuf + |p| >= BUF_CAP) || (KEEP <= nbuf && BULK_MIN <= |history| - nbuf)
        invariant passes > 0 ==> nbuf == KEEP && BULK_MIN <= |history| - nbuf
        invariant passes == 0 ==> copied == 0
        invariant passes == 1 ==> copied <= BUF_CAP
        invariant passes == 2 ==> copied <= 2 * BUF_CAP - KEEP && |p| <= KEEP
        invariant passes <= 2
        decreases |p|
      {
        passes := passes + 1;
        if nbuf == KEEP && |p| > BUF_CAP {
          var direct := WholeBlocks(|p| - KEEP);
          DirectLeaves(|p|, direct);
          TakeNext(history, p, direct);
          Bypass(p[..direct]);
          p := p[direct..];
        }
        CopyLeaves(nbuf, |p|);
        var take := if BUF_CAP - nbuf > |p| then |p| else BUF_CAP - nbuf;
        TakeNext(history, p, take);
        CopyIn(p[..take]);
        copied := copied + take;
        p := p[take..];
        if nbuf < BUF_CAP {
          AppendNothing(history);
          break;
        }
        ConsumeFront(WholeBlocks(nbuf - KEEP));
      }
    }

    /** The folds of everything absorbed so far, continuing from a copy of the lanes. */
    method Finish() returns (t0: Word, t1: Word)
      requires Valid() && bulk
      ensures |history| > 16 && Folds(t0, t1) == Walk(history, seed)
    {
      hide Mul, Tracks, Continue, Walk, Wrap;
      assert |history| > 16;
      t0, t1 := ContinueFolds(buf[..nbuf], Lanes(h[0], h[1], h[2], h[3], h[4], h[5], h[6], h[7], wp),
                              Mul(total, K), |history|);
      TracksWalk(seed, history, LaneState(), buf[..nbuf]);
    }

    /** The 64-bit digest of everything absorbed so far; the state is not changed. */
    method Digest64() returns (d: Word)
      requires Valid()
      ensures d == Hash64(history, seed)
    {
      hide Add, Xor, Rotl, LongFmix, Fmix128, Tracks, Walk, Hash64, Hash128;
      if !bulk {
        TracksAll(seed, history, LaneState(), buf[..nbuf]);
        var r := OneShot.Hash(buf[..total], seed, false);
        d := r.lo;
        return;
      }
      var t0, t1 := Finish();
      LongHash(history, seed);
      d := LongFmix(Xor(Xor(Xor(seed, K), t0), Rotl(t1, 29)));
    }

    /** Both words for everything absorbed so far; the state is not changed. */
    method Digest128() returns (d: Digest)
      requires Valid()
      ensures d == Hash128(history, seed)
    {
      hide Add, Xor, Rotl, LongFmix, Fmix128, Tracks, Walk, Hash64, Hash128;
      if !bulk {
        TracksAll(seed, history, LaneState(), buf[..nbuf]);
        d := OneShot.Hash(buf[..total], seed, true);
        return;
      }
      var t0, t1 := Finish();
      LongHash(history, seed);
      var s := Xor(seed, K);
      d := Digest(LongFmix(Xor(Xor(s, t0), Rotl(t1, 29))),
                  Fmix128(Xor(Rotl(s, 32), Add(t1, Rotl(t0, 47)))));
    }
  }

  /** The leftover whole blocks, the fold, at most one round, the wall and the tail. */
  method ContinueFolds(p: Bytes, st: Lanes, lenmix: Word, ghost n: nat) returns (t0: Word, t1: Word)
    requires |p| > 16 && lenmix == LenMix(n)
    ensures Folds(t0, t1) == Continue(st, p, n)
  {
    hide Xor, Rotl, Mul, Blocks, LenMix, Finish;
    var whole := WholeBlocks(|p|);
    var r := OneShot.AbsorbBlocks(p[..whole], st);
    PrefixBlocks(st, p, whole);
    var h0 := Mul(Xor(r.h0, Rotl(r.h4, 11)), K);
    var h1 := Mul(Xor(r.h1, Rotl(r.h5, 19)), K);
    var h2 := Mul(Xor(r.h2, Rotl(r.h6, 31)), K);
    var h3 := Mul(Xor(r.h3, Rotl(r.h7, 47)), K);
    t0, t1 := OneShot.FinishOnce(p, whole, h0, h1, h2, h3, r.wp, lenmix, n);
  }

  function Concat(chunks: seq<Bytes>): Bytes {
    if |chunks| == 0 then [] else Concat(chunks[..|chunks| - 1]) + chunks[|chunks| - 1]
  }

  /** Any split, digests of both widths taken after every chunk: each is the one-shot hash of the prefix. */
  method DigestEveryPrefix(seed: Word, chunks: seq<Bytes>) returns (digests: seq<(Word, Digest)>)
    ensures |digests| == |chunks| + 1
    ensures forall i :: 0 <= i <= |chunks| ==>
      digests[i] == (Hash64(Concat(chunks[..i]), seed), Hash128(Concat(chunks[..i]), seed))
  {
    hide Hash64, Hash128, Tracks, State.LaneState;
    var st := new State(seed);
    var lo := st.Digest64();
    var both := st.Digest128();
    digests := [(lo, both)];
    for i := 0 to |chunks|
      invariant st.Valid() && fresh(st) && fresh(st.h) && fresh(st.buf) && st.seed == seed
      invariant st.history == Concat(chunks[..i])
      invariant |digests| == i + 1
      invariant forall j :: 0 <= j <= i ==>
        digests[j] == (Hash64(Concat(chunks[..j]), seed), Hash128(Concat(chunks[..j]), seed))
    {
      assert chunks[..i + 1][..i] == chunks[..i];
      ghost var passes, copied := st.Update(chunks[i]);
      lo := st.Digest64();
      both := st.Digest128();
      digests := digests + [(lo, both)];
    }
  }

  lemma TracksAll(seed: Word, done: Bytes, st: Lanes, rest: Bytes)
    requires Tracks(seed, done, st, rest) && |rest| == |done|
    ensures rest == done
  {
    hide Blocks;
  }

  /** What the fast path leaves for the buffer. */
  lemma DirectLeaves(n: nat, direct: nat)
    requires n > BUF_CAP && direct <= n - KEEP < direct + 64 && direct % 64 == 0
    ensures n - direct < BUF_CAP && Buffered(0, n - direct) == Buffered(KEEP, n)
  {
    assert n - direct == KEEP + n % 64;
  }

  /** What one copy leaves for the buffer. */
  lemma CopyLeaves(nbuf: nat, n: nat)
    requires nbuf < BUF_CAP && (nbuf == KEEP ==> n <= BUF_CAP)
    ensures nbuf + n < BUF_CAP ==> Buffered(nbuf, n) == nbuf + n
    ensures nbuf + n >= BUF_CAP ==> Buffered(nbuf, n) == Buffered(KEEP, n - (BUF_CAP - nbuf))
  {
  }

  /** n rounded down to whole blocks: n & ~63. */
  function WholeBlocks(n: nat): (r: nat)
    ensures r <= n < r + 64 && r % 64 == 0
  {
    n / 64 * 64
  }

  lemma TakeNext(a: Bytes, p: Bytes, k: nat)
    requires k <= |p|
    ensures (a + p[..k]) + p[k..] == a + p
  {
    assert p == p[..k] + p[k..];
  }

  lemma AppendNothing(x: Bytes)
    ensures x + [] == x
  {
  }

  lemma PrefixBlocks(st: Lanes, p: Bytes, n: nat)
    requires n <= |p| && n % 64 == 0
    ensures Blocks(st, p[..n], n) == Blocks(st, p, n)
  {
    assert p == p[..n] + p[n..];
    BlocksPrefix(st, p[..n], p[n..], n);
  }
}
