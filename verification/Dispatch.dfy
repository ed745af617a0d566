// The shapes hayahash.h compiles to. Each is a different spelling of the same walk, and
// each is proved to end in the folds the reference ends in.
module Dispatch {
  import opened Powers
  import opened Words
  import opened Reference
  import opened OneShot

  // ---- Bulk shapes: two blocks a pass, plain or with the middle lanes in an array -----

  /** One block, spelled stripe by stripe. */
  method PlainBlock(p: Bytes, o: nat, st: Lanes) returns (r: Lanes)
    requires o + 64 <= |p|
    ensures r == Block(st, p, o)
  {
    hide Load64, Absorb, Add;
    var h0, h1, h2, h3 := st.h0, st.h1, st.h2, st.h3;
    var h4, h5, h6, h7, wp := st.h4, st.h5, st.h6, st.h7, st.wp;
    var w := Load64(p, o);
    h0, wp := Absorb(h0, wp, w), w;
    w := Load64(p, o + 8);
    h1, wp := Absorb(h1, wp, w), w;
    w := Load64(p, o + 16);
    h2, wp := Absorb(h2, wp, w), w;
    w := Load64(p, o + 24);
    h3, wp := Absorb(h3, wp, w), w;
    w := Load64(p, o + 32);
    h4, wp := Absorb(h4, wp, w), w;
    w := Load64(p, o + 40);
    h5, wp := Absorb(h5, wp, w), w;
    w := Load64(p, o + 48);
    h6, wp := Absorb(h6, wp, w), w;
    w := Load64(p, o + 56);
    h7, wp := Absorb(h7, wp, w), w;
    h0 := Add(h0, wp);
    r := Lanes(h0, h1, h2, h3, h4, h5, h6, h7, wp);
  }

  /** The lanes of the vector shape: h2..h5 live in hv, the others in e. */
  ghost function Joined(e: Lanes, hv: array<Word>): Lanes
    reads hv
    requires hv.Length == 4
  {
    e.(h2 := hv[0], h3 := hv[1], h4 := hv[2], h5 := hv[3])
  }

  /** One block with the middle lanes updated in place by a four-pass loop that reloads its words. */
  method ArrayLaneBlock(p: Bytes, o: nat, hv: array<Word>, e: Lanes) returns (r: Lanes)
    requires o + 64 <= |p| && hv.Length == 4
    modifies hv
    ensures Joined(r, hv) == Block(old(Joined(e, hv)), p, o)
  {
    hide Load64, Absorb, Add;
    ghost var v := hv[..];
    var w := Load64(p, o);
    var h0 := Absorb(e.h0, e.wp, w);
    var h1 := Absorb(e.h1, w, Load64(p, o + 8));
    for i := 0 to 4
      invariant forall k :: 0 <= k < i ==> hv[k] == Absorb(v[k], Load64(p, o + 8 + 8 * k), Load64(p, o + 16 + 8 * k))
      invariant forall k :: i <= k < 4 ==> hv[k] == v[k]
    {
      hv[i] := Absorb(hv[i], Load64(p, o + 8 + 8 * i), Load64(p, o + 16 + 8 * i));
    }
    var h6 := Absorb(e.h6, Load64(p, o + 40), Load64(p, o + 48));
    var h7 := Absorb(e.h7, Load64(p, o + 48), Load64(p, o + 56));
    var wp := Load64(p, o + 56);
    h0 := Add(h0, wp);
    r := e.(h0 := h0, h1 := h1, h6 := h6, h7 := h7, wp := wp);
  }

  lemma Aligned(k: nat)
    ensures 128 * k % 64 == 0 && (128 * k + 64) % 64 == 0
  {
    DivUnique(128 * k, 64, 2 * k, 0);
    DivUnique(128 * k + 64, 64, 2 * k + 1, 0);
  }

  lemma WholeBlocks(n: nat, m: nat, l: nat)
    requires n == 128 * m + l && l < 128
    ensures n / 64 * 64 == if l >= 64 then 128 * m + 64 else 128 * m
  {
    if l >= 64 { DivUnique(n, 64, 2 * m + 1, l - 64); } else { DivUnique(n, 64, 2 * m, l); }
  }

  /** Two blocks a pass up to a precomputed end, then at most one block more. */
  method TwoBlockLoop(p: Bytes, st: Lanes) returns (r: Lanes, off: nat)
    requires |p| >= BULK_MIN
    ensures off == |p| / 64 * 64 && r == Blocks(st, p, off)
  {
    hide Block, Blocks;
    off, r := 0, st;
    var l := |p|;
    var end := l - l % 128;
    l := l % 128;
    ghost var k, m := 0, |p| / 128;
    BlocksNext(st, p, 0);
    while true
      invariant k < m && off == 128 * k && end == 128 * m && end + l == |p| && 0 <= l < 128
      invariant off % 64 == 0 && (off + 64) % 64 == 0
      invariant r == Blocks(st, p, off)
      decreases m - k
    {
      Aligned(k + 1);
      BlocksNext(st, p, off);
      r := PlainBlock(p, off, r);
      BlocksNext(st, p, off + 64);
      r := PlainBlock(p, off + 64, r);
      off, k := off + 128, k + 1;
      if off == end { break; }
    }
    WholeBlocks(|p|, m, l);
    if l >= 64 {
      BlocksNext(st, p, off);
      r := PlainBlock(p, off, r);
      off, l := off + 64, l - 64;
    }
  }

  /** The same loop over the array-lane block; the middle lanes are folded back at the end. */
  method TwoBlockArrayLoop(p: Bytes, st: Lanes) returns (r: Lanes, off: nat)
    requires |p| >= BULK_MIN
    ensures off == |p| / 64 * 64 && r == Blocks(st, p, off)
  {
    hide Block, Blocks;
    var hv := new Word[4];
    hv[0], hv[1], hv[2], hv[3] := st.h2, st.h3, st.h4, st.h5;
    var l := |p| % 128;
    ghost var m := |p| / 128;
    r, off := ArrayPairs(p, st, hv, |p| - l, m);
    WholeBlocks(|p|, m, l);
    if l >= 64 {
      BlocksNext(st, p, off);
      r := ArrayLaneBlock(p, off, hv, r);
      off, l := off + 64, l - 64;
    }
    r := r.(h2 := hv[0], h3 := hv[1], h4 := hv[2], h5 := hv[3]);
  }

  method ArrayPairs(p: Bytes, st: Lanes, hv: array<Word>, end: nat, ghost m: nat) returns (r: Lanes, off: nat)
    requires hv.Length == 4 && Joined(st, hv) == st
    requires 0 < m && end == 128 * m <= |p| && end % 64 == 0
    modifies hv
    ensures off == end && Joined(r, hv) == Blocks(st, p, off)
  {
    hide Block, Blocks, Joined;
    off, r := 0, st;
    ghost var k := 0;
    BlocksNext(st, p, 0);
    while true
      invariant k < m && off == 128 * k
      invariant off % 64 == 0 && (off + 64) % 64 == 0
      invariant Joined(r, hv) == Blocks(st, p, off)
      decreases m - k
    {
      Aligned(k + 1);
      BlocksNext(st, p, off);
      r := ArrayLaneBlock(p, off, hv, r);
      BlocksNext(st, p, off + 64);
      r := ArrayLaneBlock(p, off + 64, hv, r);
      off, k := off + 128, k + 1;
      if off == end { break; }
    }
  }

  // ---- 17 to 319 bytes: straight-line tiers and the two-round loop --------------------

  /** The first absorb folds in a previous stripe of zero. */
  lemma FirstAbsorb(h: Word, w: Word)
    ensures Absorb(h, 0, w) == Mul(Xor(h, w), K)
  {
    hide Mul, Xor;
    RotlZero(27);
    assert Add(w, 0) == w;
  }

  /** 17 to 31 bytes: no stripe, tail only. */
  method Tier32(p: Bytes, s: Lanes, lenmix: Word) returns (t0: Word, t1: Word)
    requires 16 < |p| < 32 && s.wp == 0 && lenmix == LenMix(|p|)
    ensures Folds(t0, t1) == Finish(Quad(s.h0, s.h1, s.h2, s.h3, 0), p, 0, |p|)
  {
    hide Load64, Absorb, Add, Xor, Rotl, Mul, LenMix, AbsorbTail, Rounds;
    NoWall(s.h0);
    RoundsNone(Quad(s.h0, s.h1, s.h2, s.h3, 0), p, 0);
    var h0 := AbsorbTail(s.h0, Load64(p, 0));
    var h1 := AbsorbTail(s.h1, Load64(p, 8));
    var h2 := AbsorbTail(s.h2, Load64(p, |p| - 16));
    var h3 := AbsorbTail(s.h3, Load64(p, |p| - 8));
    t0 := Mul(Xor(Xor(h0, Rotl(h1, 13)), lenmix), K);
    t1 := Mul(Xor(h2, Rotl(h3, 33)), K);
  }

  lemma NoWall(h: Word)
    ensures Add(h, Rotl(0, 27)) == h
  {
    RotlZero(27);
    hide Rotl;
  }

  /** 32 to 63 bytes: one round. */
  method Tier64(p: Bytes, s: Lanes, lenmix: Word) returns (t0: Word, t1: Word)
    requires 32 <= |p| < 64 && s.wp == 0 && lenmix == LenMix(|p|)
    ensures Folds(t0, t1) == Finish(Quad(s.h0, s.h1, s.h2, s.h3, 0), p, 0, |p|)
  {
    hide Load64, Absorb, Xor, Mul, Rounds, LenMix, Drain, Finish;
    ghost var q := Quad(s.h0, s.h1, s.h2, s.h3, 0);
    RoundsNone(q, p, 0);
    var h0, h1, h2, h3 := s.h0, s.h1, s.h2, s.h3;
    var w0, w1, w2, w3 := Load64(p, 0), Load64(p, 8), Load64(p, 16), Load64(p, 24);
    FirstAbsorb(h0, w0);
    h0, h1, h2, h3 := Mul(Xor(h0, w0), K), Absorb(h1, w0, w1), Absorb(h2, w1, w2), Absorb(h3, w2, w3);
    RoundsNext(q, p, 0, 0);
    FinishAt(q, p, 0, 32, |p|);
    t0, t1 := TailFolds(p, 32, h0, h1, h2, h3, w3, lenmix, |p|);
  }

  /** 64 to 127 bytes: two shared rounds, then one more from 96 bytes on. */
  method Tier128(p: Bytes, s: Lanes, lenmix: Word) returns (t0: Word, t1: Word)
    requires 64 <= |p| < 128 && s.wp == 0 && lenmix == LenMix(|p|)
    ensures Folds(t0, t1) == Finish(Quad(s.h0, s.h1, s.h2, s.h3, 0), p, 0, |p|)
  {
    hide Load64, Absorb, Xor, Mul, Rounds, LenMix, Drain, Finish;
    ghost var q := Quad(s.h0, s.h1, s.h2, s.h3, 0);
    RoundsNone(q, p, 0);
    var h0, h1, h2, h3 := s.h0, s.h1, s.h2, s.h3;
    var w0, w1, w2, w3 := Load64(p, 0), Load64(p, 8), Load64(p, 16), Load64(p, 24);
    FirstAbsorb(h0, w0);
    h0, h1, h2, h3 := Mul(Xor(h0, w0), K), Absorb(h1, w0, w1), Absorb(h2, w1, w2), Absorb(h3, w2, w3);
    RoundsNext(q, p, 0, 0);
    var w4, w5, w6, w7 := Load64(p, 32), Load64(p, 40), Load64(p, 48), Load64(p, 56);
    h0, h1, h2, h3 := Absorb(h0, w3, w4), Absorb(h1, w4, w5), Absorb(h2, w5, w6), Absorb(h3, w6, w7);
    RoundsNext(q, p, 0, 32);
    if |p| >= 96 {
      var w8, w9, w10, w11 := Load64(p, 64), Load64(p, 72), Load64(p, 80), Load64(p, 88);
      h0, h1, h2, h3 := Absorb(h0, w7, w8), Absorb(h1, w8, w9), Absorb(h2, w9, w10), Absorb(h3, w10, w11);
      RoundsNext(q, p, 0, 64);
      FinishAt(q, p, 0, 96, |p|);
      t0, t1 := TailFolds(p, 96, h0, h1, h2, h3, w11, lenmix, |p|);
    } else {
      FinishAt(q, p, 0, 64, |p|);
      t0, t1 := TailFolds(p, 64, h0, h1, h2, h3, w7, lenmix, |p|);
    }
  }

  /** 128 to 191 bytes: four shared rounds, then one more from 160 bytes on. */
  method Tier192(p: Bytes, s: Lanes, lenmix: Word) returns (t0: Word, t1: Word)
    requires 128 <= |p| < 192 && s.wp == 0 && lenmix == LenMix(|p|)
    ensures Folds(t0, t1) == Finish(Quad(s.h0, s.h1, s.h2, s.h3, 0), p, 0, |p|)
  {
    hide Load64, Absorb, Xor, Mul, Rounds, LenMix, Drain, Finish;
    ghost var q := Quad(s.h0, s.h1, s.h2, s.h3, 0);
    RoundsNone(q, p, 0);
    var h0, h1, h2, h3 := s.h0, s.h1, s.h2, s.h3;
    var w0, w1, w2, w3 := Load64(p, 0), Load64(p, 8), Load64(p, 16), Load64(p, 24);
    FirstAbsorb(h0, w0);
    h0, h1, h2, h3 := Mul(Xor(h0, w0), K), Absorb(h1, w0, w1), Absorb(h2, w1, w2), Absorb(h3, w2, w3);
    RoundsNext(q, p, 0, 0);
    var w4, w5, w6, w7 := Load64(p, 32), Load64(p, 40), Load64(p, 48), Load64(p, 56);
    h0, h1, h2, h3 := Absorb(h0, w3, w4), Absorb(h1, w4, w5), Absorb(h2, w5, w6), Absorb(h3, w6, w7);
    RoundsNext(q, p, 0, 32);
    var w8, w9, w10, w11 := Load64(p, 64), Load64(p, 72), Load64(p, 80), Load64(p, 88);
    h0, h1, h2, h3 := Absorb(h0, w7, w8), Absorb(h1, w8, w9), Absorb(h2, w9, w10), Absorb(h3, w10, w11);
    RoundsNext(q, p, 0, 64);
    var w12, w13, w14, w15 := Load64(p, 96), Load64(p, 104), Load64(p, 112), Load64(p, 120);
    h0, h1, h2, h3 := Absorb(h0, w11, w12), Absorb(h1, w12, w13), Absorb(h2, w13, w14), Absorb(h3, w14, w15);
    RoundsNext(q, p, 0, 96);
    if |p| >= 160 {
      var w16, w17, w18, w19 := Load64(p, 128), Load64(p, 136), Load64(p, 144), Load64(p, 152);
      h0, h1, h2, h3 := Absorb(h0, w15, w16), Absorb(h1, w16, w17), Absorb(h2, w17, w18), Absorb(h3, w18, w19);
      RoundsNext(q, p, 0, 128);
      FinishAt(q, p, 0, 160, |p|);
      t0, t1 := TailFolds(p, 160, h0, h1, h2, h3, w19, lenmix, |p|);
    } else {
      FinishAt(q, p, 0, 128, |p|);
      t0, t1 := TailFolds(p, 128, h0, h1, h2, h3, w15, lenmix, |p|);
    }
  }

  /** 192 to 255 bytes: six shared rounds, then one more from 224 bytes on. */
  method Tier256(p: Bytes, s: Lanes, lenmix: Word) returns (t0: Word, t1: Word)
    requires 192 <= |p| < 256 && s.wp == 0 && lenmix == LenMix(|p|)
    ensures Folds(t0, t1) == Finish(Quad(s.h0, s.h1, s.h2, s.h3, 0), p, 0, |p|)
  {
    hide Load64, Absorb, Xor, Mul, Rounds, LenMix, Drain, Finish;
    ghost var q := Quad(s.h0, s.h1, s.h2, s.h3, 0);
    RoundsNone(q, p, 0);
    var h0, h1, h2, h3 := s.h0, s.h1, s.h2, s.h3;
    var w0, w1, w2, w3 := Load64(p, 0), Load64(p, 8), Load64(p, 16), Load64(p, 24);
    FirstAbsorb(h0, w0);
    h0, h1, h2, h3 := Mul(Xor(h0, w0), K), Absorb(h1, w0, w1), Absorb(h2, w1, w2), Absorb(h3, w2, w3);
    RoundsNext(q, p, 0, 0);
    var w4, w5, w6, w7 := Load64(p, 32), Load64(p, 40), Load64(p, 48), Load64(p, 56);
    h0, h1, h2, h3 := Absorb(h0, w3, w4), Absorb(h1, w4, w5), Absorb(h2, w5, w6), Absorb(h3, w6, w7);
    RoundsNext(q, p, 0, 32);
    var w8, w9, w10, w11 := Load64(p, 64), Load64(p, 72), Load64(p, 80), Load64(p, 88);
    h0, h1, h2, h3 := Absorb(h0, w7, w8), Absorb(h1, w8, w9), Absorb(h2, w9, w10), Absorb(h3, w10, w11);
    RoundsNext(q, p, 0, 64);
    var w12, w13, w14, w15 := Load64(p, 96), Load64(p, 104), Load64(p, 112), Load64(p, 120);
    h0, h1, h2, h3 := Absorb(h0, w11, w12), Absorb(h1, w12, w13), Absorb(h2, w13, w14), Absorb(h3, w14, w15);
    RoundsNext(q, p, 0, 96);
    var w16, w17, w18, w19 := Load64(p, 128), Load64(p, 136), Load64(p, 144), Load64(p, 152);
    h0, h1, h2, h3 := Absorb(h0, w15, w16), Absorb(h1, w16, w17), Absorb(h2, w17, w18), Absorb(h3, w18, w19);
    RoundsNext(q, p, 0, 128);
    var w20, w21, w22, w23 := Load64(p, 160), Load64(p, 168), Load64(p, 176), Load64(p, 184);
    h0, h1, h2, h3 := Absorb(h0, w19, w20), Absorb(h1, w20, w21), Absorb(h2, w21, w22), Absorb(h3, w22, w23);
    RoundsNext(q, p, 0, 160);
    if |p| >= 224 {
      var w24, w25, w26, w27 := Load64(p, 192), Load64(p, 200), Load64(p, 208), Load64(p, 216);
      h0, h1, h2, h3 := Absorb(h0, w23, w24), Absorb(h1, w24, w25), Absorb(h2, w25, w26), Absorb(h3, w26, w27);
      RoundsNext(q, p, 0, 192);
      FinishAt(q, p, 0, 224, |p|);
      t0, t1 := TailFolds(p, 224, h0, h1, h2, h3, w27, lenmix, |p|);
    } else {
      FinishAt(q, p, 0, 192, |p|);
      t0, t1 := TailFolds(p, 192, h0, h1, h2, h3, w23, lenmix, |p|);
    }
  }

  /** One round, spelled stripe by stripe. */
  method PlainRound(p: Bytes, o: nat, q: Quad) returns (r: Quad)
    requires o + 32 <= |p|
    ensures r == Round(q, p, o)
  {
    hide Load64, Absorb;
    var h0, h1, h2, h3, wp := q.h0, q.h1, q.h2, q.h3, q.wp;
    var w := Load64(p, o);
    h0, wp := Absorb(h0, wp, w), w;
    w := Load64(p, o + 8);
    h1, wp := Absorb(h1, wp, w), w;
    w := Load64(p, o + 16);
    h2, wp := Absorb(h2, wp, w), w;
    w := Load64(p, o + 24);
    h3, wp := Absorb(h3, wp, w), w;
    r := Quad(h0, h1, h2, h3, wp);
  }

  /** 256 to 319 bytes: two rounds a pass, then at most one. */
  method TwoRoundLoop(p: Bytes, s: Lanes, lenmix: Word) returns (t0: Word, t1: Word)
    requires 16 < |p| && s.wp == 0 && lenmix == LenMix(|p|)
    ensures Folds(t0, t1) == Finish(Quad(s.h0, s.h1, s.h2, s.h3, 0), p, 0, |p|)
  {
    hide Round, Rounds, LenMix, Drain, Finish;
    ghost var q := Quad(s.h0, s.h1, s.h2, s.h3, 0);
    var r := Quad(s.h0, s.h1, s.h2, s.h3, s.wp);
    var off, l := 0, |p|;
    RoundsNone(q, p, 0);
    while l >= 64
      invariant 0 <= off <= |p| && off + l == |p| && off % 32 == 0
      invariant r == Rounds(q, p, 0, off)
      decreases l
    {
      RoundsNext(q, p, 0, off);
      r := PlainRound(p, off, r);
      RoundsNext(q, p, 0, off + 32);
      r := PlainRound(p, off + 32, r);
      off, l := off + 64, l - 64;
    }
    if l >= 32 {
      RoundsNext(q, p, 0, off);
      r := PlainRound(p, off, r);
      off, l := off + 32, l - 32;
    }
    FinishAt(q, p, 0, off, |p|);
    t0, t1 := TailFolds(p, off, r.h0, r.h1, r.h2, r.h3, r.wp, lenmix, |p|);
  }

  // ---- The dispatch itself -----------------------------------------------------------

  /** A build: straight-line tiers or not, and which bulk loop. */
  datatype Shape = Shape(tiers: bool, bulk: BulkShape)
  datatype BulkShape = OneBlock | TwoBlocks | ArrayLanes

  /** 17 to 319 bytes. */
  method MidFolds(key: Bytes, iv: Lanes, lenmix: Word, tiers: bool) returns (t0: Word, t1: Word)
    requires 16 < |key| < BULK_MIN && iv.wp == 0 && lenmix == LenMix(|key|)
    ensures Folds(t0, t1) == Finish(Quad(iv.h0, iv.h1, iv.h2, iv.h3, 0), key, 0, |key|)
  {
    hide LenMix, Finish;
    if !tiers {
      t0, t1 := FinishLoop(key, 0, iv.h0, iv.h1, iv.h2, iv.h3, 0, lenmix, |key|);
    } else if |key| < 32 {
      t0, t1 := Tier32(key, iv, lenmix);
    } else if |key| < 64 {
      t0, t1 := Tier64(key, iv, lenmix);
    } else if |key| < 128 {
      t0, t1 := Tier128(key, iv, lenmix);
    } else if |key| < 192 {
      t0, t1 := Tier192(key, iv, lenmix);
    } else if |key| < 256 {
      t0, t1 := Tier256(key, iv, lenmix);
    } else {
      t0, t1 := TwoRoundLoop(key, iv, lenmix);
    }
  }

  /** 320 bytes and more. */
  method LongFolds(key: Bytes, iv: Lanes, lenmix: Word, bulk: BulkShape) returns (t0: Word, t1: Word)
    requires |key| >= BULK_MIN && lenmix == LenMix(|key|)
    ensures Folds(t0, t1) == Continue(iv, key, |key|)
  {
    hide Xor, Rotl, Mul, LenMix, Finish, Blocks;
    var r, off;
    match bulk {
      case OneBlock => r, off := BulkLoop(key, iv);
      case TwoBlocks => r, off := TwoBlockLoop(key, iv);
      case ArrayLanes => r, off := TwoBlockArrayLoop(key, iv);
    }
    var h0 := Mul(Xor(r.h0, Rotl(r.h4, 11)), K);
    var h1 := Mul(Xor(r.h1, Rotl(r.h5, 19)), K);
    var h2 := Mul(Xor(r.h2, Rotl(r.h6, 31)), K);
    var h3 := Mul(Xor(r.h3, Rotl(r.h7, 47)), K);
    t0, t1 := FinishOnce(key, off, h0, h1, h2, h3, r.wp, lenmix, |key|);
  }

  /** The two folds of a message above 16 bytes. */
  method LaneFolds(key: Bytes, s: Word, lenmix: Word, shape: Shape, ghost seed: Word) returns (t0: Word, t1: Word)
    requires |key| > 16 && s == Premix(seed) && lenmix == LenMix(|key|)
    ensures Folds(t0, t1) == Walk(key, seed)
  {
    hide Add, Xor, Rotl, Shl, Shr, LenMix, Finish, Blocks, FoldUpper, Premix;
    var iv := Lanes(Xor(s, K), Add(Rotl(s, 17), Shl(K, 21)), Xor(Rotl(s, 34), Shr(K, 13)), Add(Rotl(s, 51), Shl(K, 42)),
                    Add(s, Shr(K, 27)), Xor(Rotl(s, 13), Shl(K, 9)), Add(Rotl(s, 26), Shr(K, 40)), Xor(Rotl(s, 39), Shl(K, 30)), 0);
    if |key| >= BULK_MIN {
      t0, t1 := LongFolds(key, iv, lenmix, shape.bulk);
    } else {
      t0, t1 := MidFolds(key, iv, lenmix, shape.tiers);
    }
  }

  /** Every build of hayahash64 returns the reference word. */
  method HashNarrow(key: Bytes, seed: Word, shape: Shape) returns (h: Word)
    ensures h == Hash64(key, seed)
  {
    hide Xor, Rotl, LenMix, Walk, LongFmix, ShortA, ShortB, ShortX, ShortY, ShortU;
    if |key| <= 16 {
      var short := HashShort(key, seed, false);
      return short.lo;
    }
    var s := Xor(seed, K);
    var t0, t1 := LaneFolds(key, s, LenMix(|key|), shape, seed);
    h := LongFmix(Xor(Xor(s, t0), Rotl(t1, 29)));
  }
}
