// The Java streaming state: the same machine driven by 32-bit signed indices into a caller's
// array. Every index is an int32, so verification includes that none of them overflows.
module JavaHasher {
  import opened Words
  import opened Reference
  import OneShot
  import opened Streaming

  newtype int32 = x: int | -0x8000_0000 <= x < 0x8000_0000

  datatype Outcome = Absorbed | IndexOutOfBounds

  /** n & ~63 for non-negative n. */
  function WholeBlocks32(n: int32): (r: int32)
    requires 0 <= n
    ensures 0 <= r <= n && n - r < 64 && r % 64 == 0
  {
    n - n % 64
  }

  class Hasher {
    const h: array<Word>
    const buf: array<Byte>
    var wp: Word
    var seed: Word
    var total: Word
    var nbuf: int32
    var bulk: bool
    ghost var history: Bytes

    ghost function LaneState(): Lanes
      reads `wp, h
      requires h.Length == 8
    {
      Lanes(h[0], h[1], h[2], h[3], h[4], h[5], h[6], h[7], wp)
    }

    ghost predicate Shaped()
      reads `nbuf
    {
      h.Length == 8 && buf.Length == BUF_CAP && 0 <= nbuf <= 448
    }

    ghost predicate Tracking()
      reads this, h, buf
      requires Shaped()
    {
      Tracks(seed, history, LaneState(), buf[..nbuf])
    }

    ghost predicate Valid()
      reads this, h, buf
    {
      && Shaped() && nbuf < 448 && Tracking()
      && total == Wrap(|history|)
      && (if bulk then 128 <= nbuf && BULK_MIN <= |history| - nbuf as int else nbuf as int == |history|)
    }

    constructor (seed: Word)
      ensures Valid() && fresh(h) && fresh(buf)
      ensures this.seed == seed && history == [] && !bulk
    {
      h := new Word[8];
      buf := new Byte[BUF_CAP];
      this.seed := seed;
      total, nbuf, bulk, wp := 0, 0, false, 0;
      history := [];
      new;
      Reset(seed);
    }

    method Reset(seed: Word)
      requires h.Length == 8 && buf.Length == BUF_CAP
      modifies this, h
      ensures Valid()
      ensures this.seed == seed && history == [] && !bulk
    {
      hide Tracks, LanesOfPremix;
      wp := 0;
      SeedLanes(Premix(seed));
      this.seed, total, nbuf, bulk, history := seed, 0, 0, false, [];
      TracksEmpty(seed);
      assert buf[..nbuf] == [];
      assert LaneState() == InitLanes(seed);
    }

    method SeedLanes(s: Word)
      requires h.Length == 8 && wp == 0
      modifies h
      ensures LaneState() == LanesOfPremix(s)
    {
      hide Rotl, Xor, Add, Shl, Shr;
      h[0] := Xor(s, K);
      h[1] := Add(Rotl(s, 17), Shl(K, 21));
      h[2] := Xor(Rotl(s, 34), Shr(K, 13));
      h[3] := Add(Rotl(s, 51), Shl(K, 42));
      h[4] := Add(s, Shr(K, 27));
      h[5] := Xor(Rotl(s, 13), Shl(K, 9));
      h[6] := Add(Rotl(s, 26), Shr(K, 40));
      h[7] := Xor(Rotl(s, 39), Shl(K, 30));
    }

    /** Absorbs len bytes of p from off on. */
    method Blocks(p: Bytes, off: int32, len: int32)
      requires h.Length == 8 && 0 <= off && 0 <= len && len % 64 == 0
      requires off as int + len as int <= |p| < 0x8000_0000
      modifies h, `wp
      ensures LaneState() == Reference.Blocks(old(LaneState()), p[off..], len as int)
    {
      hide Reference.Blocks;
      var g := BlockLoop(p, off, len, Lanes(h[0], h[1], h[2], h[3], h[4], h[5], h[6], h[7], wp));
      h[0], h[1], h[2], h[3] := g.h0, g.h1, g.h2, g.h3;
      h[4], h[5], h[6], h[7] := g.h4, g.h5, g.h6, g.h7;
      wp := g.wp;
    }

    /** System.arraycopy into the buffer's free end. */
    method CopyIn(data: Bytes, p: int32, take: int32)
      requires Shaped() && Tracking() && 0 <= take <= 448 - nbuf && 0 <= p
      requires p as int + take as int <= |data|
      modifies buf, `nbuf, `history
      ensures Shaped() && Tracking()
      ensures nbuf == old(nbuf) + take && history == old(history) + data[p..p as int + take as int]
    {
      hide Tracks;
      ghost var x, before := data[p..p as int + take as int], buf[..nbuf];
      TracksAppend(seed, history, LaneState(), before, x);
      forall i | 0 <= i < take as int { buf[nbuf as int + i] := data[p as int + i]; }
      nbuf := nbuf + take;
      history := history + x;
      assert buf[..nbuf] == before + x;
    }

    /** The fast path: the floor, then direct bytes of data. */
    method Bypass(data: Bytes, p: int32, direct: int32)
      requires Shaped() && Tracking() && nbuf == 128 && 0 <= p && 0 <= direct && direct % 64 == 0
      requires p as int + direct as int <= |data| < 0x8000_0000
      modifies h, `wp, `nbuf, `history
      ensures Shaped() && Tracking()
      ensures nbuf == 0 && history == old(history) + data[p..p as int + direct as int]
    {
      hide Tracks, Reference.Blocks;
      ghost var x, floor := data[p..p as int + direct as int], buf[..KEEP];
      TracksAppend(seed, history, LaneState(), floor, x);
      history := history + x;
      TracksConsume(seed, history, LaneState(), floor, x);
      PrefixBlocks(LaneState(), buf[..], KEEP);
      assert buf[..][..KEEP] == floor;
      assert buf[..][0..] == buf[..];
      Blocks(buf[..], 0, 128);
      assert Tracks(seed, history, LaneState(), x);
      AppendNothing(x);
      TracksConsume(seed, history, LaneState(), x, []);
      PrefixBlocks(LaneState(), data[p..], direct as int);
      assert data[p..][..direct] == x;
      Blocks(data, p, direct);
      nbuf := 0;
      assert buf[..nbuf] == [];
    }

    method ConsumeFront(consume: int32)
      requires Shaped() && Tracking() && 0 <= consume <= nbuf && consume % 64 == 0
      modifies h, buf, `wp, `nbuf
      ensures Shaped() && Tracking() && nbuf == old(nbuf) - consume
    {
      hide Tracks, Reference.Blocks;
      ghost var front, rest := buf[..consume], buf[consume..nbuf];
      assert buf[..nbuf] == front + rest;
      TracksConsume(seed, history, LaneState(), front, rest);
      PrefixBlocks(LaneState(), buf[..], consume as int);
      assert buf[..][..consume] == front && buf[..][0..] == buf[..];
      Blocks(buf[..], 0, consume);
      nbuf := nbuf - consume;
      forall i | 0 <= i < nbuf as int { buf[i] := buf[consume as int + i]; }
      assert buf[..nbuf] == rest;
    }

    /** Absorbs length bytes of data from offset on, or nothing when the range is outside data. */
    method Update(data: Bytes, offset: int32, length: int32) returns (r: Outcome)
      requires Valid() && |data| < 0x8000_0000
      modifies this, h, buf
      ensures Valid() && seed == old(seed)
      ensures r == Absorbed <==> 0 <= offset && 0 <= length && offset as int + length as int <= |data|
      ensures r == Absorbed ==> history == old(history) + data[offset..offset as int + length as int]
      ensures r == Absorbed ==> bulk == (old(bulk) || |history| >= 448)
      ensures r == Absorbed ==> nbuf as int == Buffered(old(nbuf) as int, length as int)
      ensures r == IndexOutOfBounds ==> unchanged(this) && unchanged(h) && unchanged(buf)
    {
      hide Tracks, LaneState, Wrap;
      if offset < 0 || length < 0 || offset > |data| as int32 - length {
        return IndexOutOfBounds;
      }
      r := Absorbed;
      ghost var x := data[offset..offset as int + length as int];
      if length == 0 {
        AppendNothing(history);
        return;
      }
      WrapTerm(|history|, length as int);
      total := Wrap(total + length as int);
      if !bulk {
        if length < 448 - nbuf {
          CopyIn(data, offset, length);
          return;
        }
        bulk := true;
      }
      Refill(data, offset, length);
    }

    method Refill(data: Bytes, offset: int32, length: int32)
      requires Shaped() && Tracking() && nbuf < 448 && |data| < 0x8000_0000
      requires 0 <= offset && 0 < length && offset as int + length as int <= |data|
      requires (nbuf as int == |history| && 448 - nbuf <= length) || (128 <= nbuf && BULK_MIN <= |history| - nbuf as int)
      modifies h, buf, `wp, `nbuf, `history
      ensures Shaped() && Tracking() && 128 <= nbuf < 448 && 320 <= |history| - nbuf as int
      ensures history == old(history) + data[offset..offset as int + length as int]
      ensures nbuf as int == Buffered(old(nbuf) as int, length as int)
    {
      hide Tracking, WholeBlocks32, Buffered, Pending;
      var p, n := offset, length;
      ghost var end := offset as int + length as int;
      ghost var goal, target := Pending(history, data, p as int, end), Buffered(nbuf as int, length as int);
      PendingAll(history, data, offset as int, end);
      while true
        invariant Shaped() && nbuf < 448 && offset <= p && 0 <= n && p as int + n as int == end
        invariant Pending(history, data, p as int, end) == goal
        invariant Tracking()
        invariant Buffered(nbuf as int, n as int) == target
        invariant (nbuf as int == |history| && 448 - nbuf <= n) || (128 <= nbuf && BULK_MIN <= |history| - nbuf as int)
        decreases n
      {
        if nbuf == 128 && n > 448 {
          var direct := WholeBlocks32(n - 128);
          DirectLeaves(n as int, direct as int);
          TakeSlice(history, data, p as int, direct as int, end);
          Bypass(data, p, direct);
          p, n := p + direct, n - direct;
        }
        CopyLeaves(nbuf as int, n as int);
        var take := if 448 - nbuf < n then 448 - nbuf else n;
        TakeSlice(history, data, p as int, take as int, end);
        CopyIn(data, p, take);
        p, n := p + take, n - take;
        if nbuf < 448 {
          PendingNone(history, data, end);
          break;
        }
        ConsumeFront(WholeBlocks32(nbuf - 128));
      }
    }

    /** The folds over the buffered remainder, on 32-bit indices. */
    method Tail() returns (t0: Word, t1: Word)
      requires Valid() && bulk
      ensures |history| > 16 && Folds(t0, t1) == Walk(history, seed)
    {
      hide Mul, Tracks, Drain, Walk, Wrap, FoldUpper, Reference.Blocks, Rounds;
      assert |history| > 16;
      ghost var rest := buf[..nbuf];
      var g, p, l := DrainBlocks(buf[..nbuf], nbuf, Lanes(h[0], h[1], h[2], h[3], h[4], h[5], h[6], h[7], wp));
      var q := FoldLanes(g);
      q, p, l := DrainRound(buf[..nbuf], p, l, q);
      t0, t1 := DrainTail(buf[..nbuf], nbuf, p, l, q, Mul(total, K), |history|);
      TracksWalk(seed, history, LaneState(), rest);
    }

    /** The 64-bit digest of everything absorbed so far; the state is not changed. */
    method Digest64() returns (d: Word)
      requires Valid()
      ensures d == Hash64(history, seed)
    {
      hide Xor, Rotl, LongFmix, Tracks, Walk, Hash64, Hash128;
      if !bulk {
        TracksAll(seed, history, LaneState(), buf[..nbuf]);
        var r := OneShot.Hash(buf[..Narrow(total)], seed, false);
        d := r.lo;
        return;
      }
      var t0, t1 := Tail();
      LongHash(history, seed);
      d := LongFmix(Xor(Xor(Xor(seed, K), t0), Rotl(t1, 29)));
    }

    /** Both words for everything absorbed so far; the state is not changed. */
    method Digest128() returns (d: Digest)
      requires Valid()
      ensures d == Hash128(history, seed)
    {
      hide Add, Xor, Rotl, LongFmix, Fmix128, Tracks, Walk, Hash64, Hash128;
      if !bulk {
        TracksAll(seed, history, LaneState(), buf[..nbuf]);
        d := OneShot.Hash(buf[..Narrow(total)], seed, true);
        return;
      }
      var t0, t1 := Tail();
      LongHash(history, seed);
      var s := Xor(seed, K);
      d := Digest(LongFmix(Xor(Xor(s, t0), Rotl(t1, 29))),
                  Fmix128(Xor(Rotl(s, 32), Add(t1, Rotl(t0, 47)))));
    }
  }

  /** A signed 32-bit index from a byte count that fits one. */
  function Narrow(total: nat): int32
    requires total < 0x8000_0000
  {
    total as int32
  }

  /** The block loop, with the lanes in locals. */
  method BlockLoop(p: Bytes, off: int32, len: int32, st: Lanes) returns (g: Lanes)
    requires 0 <= off && 0 <= len && len % 64 == 0
    requires off as int + len as int <= |p| < 0x8000_0000
    ensures g == Reference.Blocks(st, p[off..], len as int)
  {
    hide Reference.Blocks, Block;
    g := st;
    var i, end := off, off + len;
    ghost var data, left: nat := p[off..], len as int / 64;
    BlocksNone(st, data);
    while i != end
      invariant off <= i <= end && (i - off) % 64 == 0 && (end - i) as int == 64 * left
      invariant g == Reference.Blocks(st, data, (i - off) as int)
      decreases left
    {
      BlocksNext(st, data, (i - off) as int);
      BlockInSlice(g, p, off as int, (i - off) as int);
      g := BlockFrom(p, i, g);
      i, left := i + 64, left - 1;
    }
  }

  /** while (l >= 64) */
  method DrainBlocks(buf: Bytes, nbuf: int32, st: Lanes) returns (g: Lanes, p: int32, l: int32)
    requires 0 <= nbuf && nbuf as int == |buf|
    ensures 0 <= p <= nbuf && 0 <= l < 64 && p == nbuf - l && p as int == |buf| / 64 * 64
    ensures g == Reference.Blocks(st, buf, p as int)
  {
    hide Reference.Blocks, Block;
    g, p, l := st, 0, nbuf;
    BlocksNone(st, buf);
    while l >= 64
      invariant 0 <= p <= nbuf && 0 <= l && p == nbuf - l && p % 64 == 0
      invariant g == Reference.Blocks(st, buf, p as int)
    {
      BlocksNext(st, buf, p as int);
      g := BlockFrom(buf, p, g);
      p, l := p + 64, l - 64;
    }
  }

  /** The four merges of the upper lanes. */
  method FoldLanes(g: Lanes) returns (q: Quad)
    ensures q == FoldUpper(g)
  {
    hide Mul, Xor, Rotl;
    q := Quad(Mul(Xor(g.h0, Rotl(g.h4, 11)), K), Mul(Xor(g.h1, Rotl(g.h5, 19)), K),
              Mul(Xor(g.h2, Rotl(g.h6, 31)), K), Mul(Xor(g.h3, Rotl(g.h7, 47)), K), g.wp);
  }

  /** if (l >= 32) */
  method DrainRound(buf: Bytes, start: int32, len: int32, st: Quad) returns (q: Quad, p: int32, l: int32)
    requires 0 <= start && 0 <= len < 64 && start as int + len as int == |buf| < 0x8000_0000
    ensures 0 <= l < 32 && 0 <= p && p as int + l as int == |buf|
    ensures p as int == start as int + len as int / 32 * 32
    ensures q == Rounds(st, buf, start as int, p as int - start as int)
  {
    hide Load64, Absorb, Rounds;
    q, p, l := st, start, len;
    RoundsNone(st, buf, start as int);
    if l >= 32 {
      RoundsNext(st, buf, start as int, 0);
      var h0, h1, h2, h3, w := q.h0, q.h1, q.h2, q.h3, q.wp;
      var v := Load64(buf, p as int);
      h0, w := Absorb(h0, w, v), v;
      v := Load64(buf, (p + 8) as int);
      h1, w := Absorb(h1, w, v), v;
      v := Load64(buf, (p + 16) as int);
      h2, w := Absorb(h2, w, v), v;
      v := Load64(buf, (p + 24) as int);
      h3, w := Absorb(h3, w, v), v;
      q := Quad(h0, h1, h2, h3, w);
      p, l := p + 32, l - 32;
    }
  }

  /** The wall, the tail and the two folds. */
  method DrainTail(buf: Bytes, nbuf: int32, p: int32, l: int32, q: Quad, lenmix: Word, ghost n: nat)
    returns (t0: Word, t1: Word)
    requires 128 <= nbuf && nbuf as int == |buf| && 0 <= p && 0 <= l < 32 && p as int + l as int == |buf|
    requires lenmix == LenMix(n)
    ensures Folds(t0, t1) == Drain(q, buf, p as int, n)
  {
    hide Load64, Add, Xor, Rotl, Mul, LenMix, AbsorbTail;
    var h0, h1, h2, h3 := q.h0, q.h1, q.h2, q.h3;
    h0 := Add(h0, Rotl(q.wp, 27));
    if l > 16 {
      h0 := AbsorbTail(h0, Load64(buf, p as int));
      h1 := AbsorbTail(h1, Load64(buf, (p + 8) as int));
    }
    if l > 0 {
      h2 := AbsorbTail(h2, Load64(buf, (nbuf - 16) as int));
      h3 := AbsorbTail(h3, Load64(buf, (nbuf - 8) as int));
    }
    t0 := Mul(Xor(Xor(h0, Rotl(h1, 13)), lenmix), K);
    t1 := Mul(Xor(h2, Rotl(h3, 33)), K);
  }

  /** The body of the block loop at index i. */
  method BlockFrom(p: Bytes, i: int32, g: Lanes) returns (r: Lanes)
    requires 0 <= i && i as int + 64 <= |p| < 0x8000_0000
    ensures r == Block(g, p, i as int)
  {
    hide Load64, Absorb, Add;
    var h0, h1, h2, h3 := g.h0, g.h1, g.h2, g.h3;
    var h4, h5, h6, h7, w := g.h4, g.h5, g.h6, g.h7, g.wp;
    var v := Load64(p, i as int);
    h0, w := Absorb(h0, w, v), v;
    v := Load64(p, (i + 8) as int);
    h1, w := Absorb(h1, w, v), v;
    v := Load64(p, (i + 16) as int);
    h2, w := Absorb(h2, w, v), v;
    v := Load64(p, (i + 24) as int);
    h3, w := Absorb(h3, w, v), v;
    v := Load64(p, (i + 32) as int);
    h4, w := Absorb(h4, w, v), v;
    v := Load64(p, (i + 40) as int);
    h5, w := Absorb(h5, w, v), v;
    v := Load64(p, (i + 48) as int);
    h6, w := Absorb(h6, w, v), v;
    v := Load64(p, (i + 56) as int);
    h7, w := Absorb(h7, w, v), v;
    h0 := Add(h0, w);
    r := Lanes(h0, h1, h2, h3, h4, h5, h6, h7, w);
  }

  /** What has been absorbed and what is still to come of data[..end]. */
  ghost function Pending(a: Bytes, data: Bytes, p: nat, end: nat): Bytes
    requires p <= end <= |data|
  {
    a + data[p..end]
  }

  lemma PendingAll(a: Bytes, data: Bytes, p: nat, end: nat)
    requires p <= end <= |data|
    ensures Pending(a, data, p, end) == a + data[p..end]
  {
  }

  lemma PendingNone(a: Bytes, data: Bytes, end: nat)
    requires end <= |data|
    ensures Pending(a, data, end, end) == a
  {
  }

  lemma TakeSlice(a: Bytes, data: Bytes, p: nat, k: nat, end: nat)
    requires p + k <= end <= |data|
    ensures Pending(a + data[p..p + k], data, p + k, end) == Pending(a, data, p, end)
  {
    assert data[p..end] == data[p..p + k] + data[p + k..end];
  }

  /** A block of what starts at off is a block of the whole array. */
  lemma BlockInSlice(g: Lanes, p: Bytes, off: nat, d: nat)
    requires off + d + 64 <= |p|
    ensures Block(g, p[off..], d) == Block(g, p, off + d)
  {
    hide Block;
    assert p == p[..off] + p[off..];
    BlockSuffix(g, p[..off], p[off..], d);
  }
}
