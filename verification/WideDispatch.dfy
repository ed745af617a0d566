// The 128-bit entry point of hayahash.h, which repeats every loop and tier of the 64-bit one and
// ends each of them in the two-word extraction.
module WideDispatch {
  import opened Words
  import opened Reference
  import opened OneShot
  import opened Dispatch

  /** Both words of a pair of folds. */
  function Mixed(s: Word, f: Folds): Digest { Digest(LowWord(s, f), HighWord(s, f)) }

  /** The two-word extraction of the long paths. */
  method LongMix(s: Word, t0: Word, t1: Word) returns (d: Digest)
    ensures d == Mixed(s, Folds(t0, t1))
  {
    hide Xor, Add, Rotl, LongFmix, Fmix128;
    d := Digest(LongFmix(Xor(Xor(s, t0), Rotl(t1, 29))), Fmix128(Xor(Rotl(s, 32), Add(t1, Rotl(t0, 47)))));
  }

  // ---- 17 to 319 bytes ---------------------------------------------------------------

  /** 17 to 31 bytes: no stripe, tail only. */
  method WideTier32(p: Bytes, s: Word, iv: Lanes, lenmix: Word) returns (d: Digest)
    requires 16 < |p| < 32 && iv.wp == 0 && lenmix == LenMix(|p|)
    ensures d == Mixed(s, Finish(Quad(iv.h0, iv.h1, iv.h2, iv.h3, 0), p, 0, |p|))
  {
    hide Mixed, Load64, Absorb, Add, Xor, Rotl, Mul, LenMix, AbsorbTail, Rounds;
    NoWall(iv.h0);
    RoundsNone(Quad(iv.h0, iv.h1, iv.h2, iv.h3, 0), p, 0);
    var h0 := AbsorbTail(iv.h0, Load64(p, 0));
    var h1 := AbsorbTail(iv.h1, Load64(p, 8));
    var h2 := AbsorbTail(iv.h2, Load64(p, |p| - 16));
    var h3 := AbsorbTail(iv.h3, Load64(p, |p| - 8));
    var t0 := Mul(Xor(Xor(h0, Rotl(h1, 13)), lenmix), K);
    var t1 := Mul(Xor(h2, Rotl(h3, 33)), K);
    d := LongMix(s, t0, t1);
  }

  /** 32 to 63 bytes: one round. */
  method WideTier64(p: Bytes, s: Word, iv: Lanes, lenmix: Word) returns (d: Digest)
    requires 32 <= |p| < 64 && iv.wp == 0 && lenmix == LenMix(|p|)
    ensures d == Mixed(s, Finish(Quad(iv.h0, iv.h1, iv.h2, iv.h3, 0), p, 0, |p|))
  {
    hide Mixed, Load64, Absorb, Xor, Mul, Rounds, LenMix, Drain, Finish;
    ghost var q := Quad(iv.h0, iv.h1, iv.h2, iv.h3, 0);
    RoundsNone(q, p, 0);
    var h0, h1, h2, h3 := iv.h0, iv.h1, iv.h2, iv.h3;
    var w0, w1, w2, w3 := Load64(p, 0), Load64(p, 8), Load64(p, 16), Load64(p, 24);
    FirstAbsorb(h0, w0);
    h0, h1, h2, h3 := Mul(Xor(h0, w0), K), Absorb(h1, w0, w1), Absorb(h2, w1, w2), Absorb(h3, w2, w3);
    RoundsNext(q, p, 0, 0);
    FinishAt(q, p, 0, 32, |p|);
    var t0, t1 := TailFolds(p, 32, h0, h1, h2, h3, w3, lenmix, |p|);
    d := LongMix(s, t0, t1);
  }

  /** 64 to 127 bytes: two shared rounds, then one more from 96 bytes on. */
  method WideTier128(p: Bytes, s: Word, iv: Lanes, lenmix: Word) returns (d: Digest)
    requires 64 <= |p| < 128 && iv.wp == 0 && lenmix == LenMix(|p|)
    ensures d == Mixed(s, Finish(Quad(iv.h0, iv.h1, iv.h2, iv.h3, 0), p, 0, |p|))
  {
    hide Mixed, Load64, Absorb, Xor, Mul, Rounds, LenMix, Drain, Finish;
    ghost var q := Quad(iv.h0, iv.h1, iv.h2, iv.h3, 0);
    RoundsNone(q, p, 0);
    var h0, h1, h2, h3 := iv.h0, iv.h1, iv.h2, iv.h3;
    var w0, w1, w2, w3 := Load64(p, 0), Load64(p, 8), Load64(p, 16), Load64(p, 24);
    FirstAbsorb(h0, w0);
    h0, h1, h2, h3 := Mul(Xor(h0, w0), K), Absorb(h1, w0, w1), Absorb(h2, w1, w2), Absorb(h3, w2, w3);
    RoundsNext(q, p, 0, 0);
    var w4, w5, w6, w7 := Load64(p, 32), Load64(p, 40), Load64(p, 48), Load64(p, 56);
    h0, h1, h2, h3 := Absorb(h0, w3, w4), Absorb(h1, w4, w5), Absorb(h2, w5, w6), Absorb(h3, w6, w7);
    RoundsNext(q, p, 0, 32);
    if |p| >= 96 {
      var w8, w9, w10, w11 := Load64(p, 64), Load64(p, 72), Load64(p, 80), Load64(p, 88);
      h0, h1, h2, h3 := Absorb(h0, w7, w8), Absorb(h1, w8, w9), Absorb(h2, w9, w10), Absorb(h3, w10, w11);
      RoundsNext(q, p, 0, 64);
      FinishAt(q, p, 0, 96, |p|);
      var t0, t1 := TailFolds(p, 96, h0, h1, h2, h3, w11, lenmix, |p|);
      d := LongMix(s, t0, t1);
    } else {
      FinishAt(q, p, 0, 64, |p|);
      var t0, t1 := TailFolds(p, 64, h0, h1, h2, h3, w7, lenmix, |p|);
      d := LongMix(s, t0, t1);
    }
  }

  /** 128 to 191 bytes: four shared rounds, then one more from 160 bytes on. */
  method WideTier192(p: Bytes, s: Word, iv: Lanes, lenmix: Word) returns (d: Digest)
    requires 128 <= |p| < 192 && iv.wp == 0 && lenmix == LenMix(|p|)
    ensures d == Mixed(s, Finish(Quad(iv.h0, iv.h1, iv.h2, iv.h3, 0), p, 0, |p|))
  {
    hide Mixed, Load64, Absorb, Xor, Mul, Rounds, LenMix, Drain, Finish;
    ghost var q := Quad(iv.h0, iv.h1, iv.h2, iv.h3, 0);
    RoundsNone(q, p, 0);
    var h0, h1, h2, h3 := iv.h0, iv.h1, iv.h2, iv.h3;
    var w0, w1, w2, w3 := Load64(p, 0), Load64(p, 8), Load64(p, 16), Load64(p, 24);
    FirstAbsorb(h0, w0);
    h0, h1, h2, h3 := Mul(Xor(h0, w0), K), Absorb(h1, w0, w1), Absorb(h2, w1, w2), Absorb(h3, w2, w3);
    RoundsNext(q, p, 0, 0);
    var w4, w5, w6, w7 := Load64(p, 32), Load64(p, 40), Load64(p, 48), Load64(p, 56);
    h0, h1, h2, h3 := Absorb(h0, w3, w4), Absorb(h1, w4, w5), Absorb(h2, w5, w6), Absorb(h3, w6, w7);
    RoundsNext(q, p, 0, 32);
    var w8, w9, w10, w11 := Load64(p, 64), Load64(p, 72), Load64(p, 80), Load64(p, 88);
    h0, h1, h2, h3 := Absorb(h0, w7, w8), Absorb(h1, w8, w9), Absorb(h2, w9, w10), Absorb(h3, w10, w11);
    RoundsNext(q, p, 0, 64);
    var w12, w13, w14, w15 := Load64(p, 96), Load64(p, 104), Load64(p, 112), Load64(p, 120);
    h0, h1, h2, h3 := Absorb(h0, w11, w12), Absorb(h1, w12, w13), Absorb(h2, w13, w14), Absorb(h3, w14, w15);
    RoundsNext(q, p, 0, 96);
    if |p| >= 160 {
      var w16, w17, w18, w19 := Load64(p, 128), Load64(p, 136), Load64(p, 144), Load64(p, 152);
      h0, h1, h2, h3 := Absorb(h0, w15, w16), Absorb(h1, w16, w17), Absorb(h2, w17, w18), Absorb(h3, w18, w19);
      RoundsNext(q, p, 0, 128);
      FinishAt(q, p, 0, 160, |p|);
      var t0, t1 := TailFolds(p, 160, h0, h1, h2, h3, w19, lenmix, |p|);
      d := LongMix(s, t0, t1);
    } else {
      FinishAt(q, p, 0, 128, |p|);
      var t0, t1 := TailFolds(p, 128, h0, h1, h2, h3, w15, lenmix, |p|);
      d := LongMix(s, t0, t1);
    }
  }

  /** 192 to 255 bytes: six shared rounds, then one more from 224 bytes on. */
  method WideTier256(p: Bytes, s: Word, iv: Lanes, lenmix: Word) returns (d: Digest)
    requires 192 <= |p| < 256 && iv.wp == 0 && lenmix == LenMix(|p|)
    ensures d == Mixed(s, Finish(Quad(iv.h0, iv.h1, iv.h2, iv.h3, 0), p, 0, |p|))
  {
    hide Mixed, Load64, Absorb, Xor, Mul, Rounds, LenMix, Drain, Finish;
    ghost var q := Quad(iv.h0, iv.h1, iv.h2, iv.h3, 0);
    RoundsNone(q, p, 0);
    var h0, h1, h2, h3 := iv.h0, iv.h1, iv.h2, iv.h3;
    var w0, w1, w2, w3 := Load64(p, 0), Load64(p, 8), Load64(p, 16), Load64(p, 24);
    FirstAbsorb(h0, w0);
    h0, h1, h2, h3 := Mul(Xor(h0, w0), K), Absorb(h1, w0, w1), Absorb(h2, w1, w2), Absorb(h3, w2, w3);
    RoundsNext(q, p, 0, 0);
    var w4, w5, w6, w7 := Load64(p, 32), Load64(p, 40), Load64(p, 48), Load64(p, 56);
    h0, h1, h2, h3 := Absorb(h0, w3, w4), Absorb(h1, w4, w5), Absorb(h2, w5, w6), Absorb(h3, w6, w7);
    RoundsNext(q, p, 0, 32);
    var w8, w9, w10, w11 := Load64(p, 64), Load64(p, 72), Load64(p, 80), Load64(p, 88);
    h0, h1, h2, h3 := Absorb(h0, w7, w8), Absorb(h1, w8, w9), Absorb(h2, w9, w10), Absorb(h3, w10, w11);
    RoundsNext(q, p, 0, 64);
    var w12, w13, w14, w15 := Load64(p, 96), Load64(p, 104), Load64(p, 112), Load64(p, 120);
    h0, h1, h2, h3 := Absorb(h0, w11, w12), Absorb(h1, w12, w13), Absorb(h2, w13, w14), Absorb(h3, w14, w15);
    RoundsNext(q, p, 0, 96);
    var w16, w17, w18, w19 := Load64(p, 128), Load64(p, 136), Load64(p, 144), Load64(p, 152);
    h0, h1, h2, h3 := Absorb(h0, w15, w16), Absorb(h1, w16, w17), Absorb(h2, w17, w18), Absorb(h3, w18, w19);
    RoundsNext(q, p, 0, 128);
    var w20, w21, w22, w23 := Load64(p, 160), Load64(p, 168), Load64(p, 176), Load64(p, 184);
    h0, h1, h2, h3 := Absorb(h0, w19, w20), Absorb(h1, w20, w21), Absorb(h2, w21, w22), Absorb(h3, w22, w23);
    RoundsNext(q, p, 0, 160);
    if |p| >= 224 {
      var w24, w25, w26, w27 := Load64(p, 192), Load64(p, 200), Load64(p, 208), Load64(p, 216);
      h0, h1, h2, h3 := Absorb(h0, w23, w24), Absorb(h1, w24, w25), Absorb(h2, w25, w26), Absorb(h3, w26, w27);
      RoundsNext(q, p, 0, 192);
      FinishAt(q, p, 0, 224, |p|);
      var t0, t1 := TailFolds(p, 224, h0, h1, h2, h3, w27, lenmix, |p|);
      d := LongMix(s, t0, t1);
    } else {
      FinishAt(q, p, 0, 192, |p|);
      var t0, t1 := TailFolds(p, 192, h0, h1, h2, h3, w23, lenmix, |p|);
      d := LongMix(s, t0, t1);
    }
  }

  /** 256 to 319 bytes: two rounds a pass, then at most one. */
  method WideTwoRoundLoop(p: Bytes, s: Word, iv: Lanes, lenmix: Word) returns (d: Digest)
    requires 16 < |p| && iv.wp == 0 && lenmix == LenMix(|p|)
    ensures d == Mixed(s, Finish(Quad(iv.h0, iv.h1, iv.h2, iv.h3, 0), p, 0, |p|))
  {
    hide Mixed, Round, Rounds, LenMix, Drain, Finish;
    ghost var q := Quad(iv.h0, iv.h1, iv.h2, iv.h3, 0);
    var r := Quad(iv.h0, iv.h1, iv.h2, iv.h3, iv.wp);
    var off, l := 0, |p|;
    RoundsNone(q, p, 0);
    while l >= 64
      invariant 0 <= off <= |p| && off + l == |p| && off % 32 == 0
      invariant r == Rounds(q, p, 0, off)
      decreases l
    {
      RoundsNext(q, p, 0, off);
      r := PlainRound(p, off, r);
      RoundsNext(q, p, 0, off + 32);
      r := PlainRound(p, off + 32, r);
      off, l := off + 64, l - 64;
    }
    if l >= 32 {
      RoundsNext(q, p, 0, off);
      r := PlainRound(p, off, r);
      off, l := off + 32, l - 32;
    }
    FinishAt(q, p, 0, off, |p|);
    var t0, t1 := TailFolds(p, off, r.h0, r.h1, r.h2, r.h3, r.wp, lenmix, |p|);
    d := LongMix(s, t0, t1);
  }

  /** The compact loop of the builds without tiers. */
  method WideCompactLoop(p: Bytes, s: Word, iv: Lanes, lenmix: Word) returns (d: Digest)
    requires 16 < |p| && iv.wp == 0 && lenmix == LenMix(|p|)
    ensures d == Mixed(s, Finish(Quad(iv.h0, iv.h1, iv.h2, iv.h3, 0), p, 0, |p|))
  {
    hide Mixed, Round, Rounds, LenMix, Drain, Finish;
    ghost var q := Quad(iv.h0, iv.h1, iv.h2, iv.h3, 0);
    var r := Quad(iv.h0, iv.h1, iv.h2, iv.h3, iv.wp);
    var off, l := 0, |p|;
    RoundsNone(q, p, 0);
    while l >= 32
      invariant 0 <= off <= |p| && off + l == |p| && off % 32 == 0
      invariant r == Rounds(q, p, 0, off)
      decreases l
    {
      RoundsNext(q, p, 0, off);
      r := PlainRound(p, off, r);
      off, l := off + 32, l - 32;
    }
    FinishAt(q, p, 0, off, |p|);
    var t0, t1 := TailFolds(p, off, r.h0, r.h1, r.h2, r.h3, r.wp, lenmix, |p|);
    d := LongMix(s, t0, t1);
  }

  method WideMid(key: Bytes, s: Word, iv: Lanes, lenmix: Word, tiers: bool) returns (d: Digest)
    requires 16 < |key| < BULK_MIN && iv.wp == 0 && lenmix == LenMix(|key|)
    ensures d == Mixed(s, Finish(Quad(iv.h0, iv.h1, iv.h2, iv.h3, 0), key, 0, |key|))
  {
    hide Mixed, LenMix, Finish;
    if !tiers {
      d := WideCompactLoop(key, s, iv, lenmix);
    } else if |key| < 32 {
      d := WideTier32(key, s, iv, lenmix);
    } else if |key| < 64 {
      d := WideTier64(key, s, iv, lenmix);
    } else if |key| < 128 {
      d := WideTier128(key, s, iv, lenmix);
    } else if |key| < 192 {
      d := WideTier192(key, s, iv, lenmix);
    } else if |key| < 256 {
      d := WideTier256(key, s, iv, lenmix);
    } else {
      d := WideTwoRoundLoop(key, s, iv, lenmix);
    }
  }

  // ---- 320 bytes and more ------------------------------------------------------------

  /** The long body: bulk loop, fold, at most one round, wall, tail, both words. */
  method WideLong(key: Bytes, s: Word, iv: Lanes, lenmix: Word, bulk: BulkShape) returns (d: Digest)
    requires |key| >= BULK_MIN && lenmix == LenMix(|key|)
    ensures d == Mixed(s, Continue(iv, key, |key|))
  {
    hide Mixed, Xor, Rotl, Mul, Round, Rounds, LenMix, Drain, Blocks;
    var st, off;
    match bulk {
      case OneBlock => st, off := BulkLoop(key, iv);
      case TwoBlocks => st, off := TwoBlockLoop(key, iv);
      case ArrayLanes => st, off := TwoBlockArrayLoop(key, iv);
    }
    ghost var b := off;
    var q := Quad(Mul(Xor(st.h0, Rotl(st.h4, 11)), K), Mul(Xor(st.h1, Rotl(st.h5, 19)), K),
                  Mul(Xor(st.h2, Rotl(st.h6, 31)), K), Mul(Xor(st.h3, Rotl(st.h7, 47)), K), st.wp);
    var r, l := q, |key| - off;
    RoundsNone(q, key, b);
    if l >= 32 {
      RoundsNext(q, key, b, 0);
      r := PlainRound(key, off, r);
      off, l := off + 32, l - 32;
    }
    var t0, t1 := TailFolds(key, off, r.h0, r.h1, r.h2, r.h3, r.wp, lenmix, |key|);
    d := LongMix(s, t0, t1);
  }

  // ---- The entry point ---------------------------------------------------------------

  lemma WalkFromLanes(p: Bytes, seed: Word)
    requires |p| > 16
    ensures var iv := LanesOfPremix(Premix(seed));
      Walk(p, seed) == if |p| >= BULK_MIN then Continue(iv, p, |p|) else Finish(Quad(iv.h0, iv.h1, iv.h2, iv.h3, 0), p, 0, |p|)
  {
    hide LanesOfPremix, Premix, Blocks, FoldUpper, Finish;
  }

  /**
   * Every build of hayahash128 returns the reference pair, and its low word is the 64-bit hash: with
   * tiers or the compact loop below 320 bytes, and any bulk loop from there, outlined or inline.
   */
  method HashWide(key: Bytes, seed: Word, shape: Shape) returns (d: Digest)
    ensures d == Hash128(key, seed) && d.lo == Hash64(key, seed)
  {
    hide LowWord, HighWord, Xor, Add, Rotl, Shl, Shr, LenMix, Walk, Continue, Finish, Hash64, Hash128, Premix;
    if |key| <= 16 {
      d := HashShort(key, seed, true);
      return;
    }
    LongHash(key, seed);
    WalkFromLanes(key, seed);
    var lenmix := LenMix(|key|);
    var s := Premix(seed);
    var iv := Lanes(Xor(s, K), Add(Rotl(s, 17), Shl(K, 21)), Xor(Rotl(s, 34), Shr(K, 13)), Add(Rotl(s, 51), Shl(K, 42)),
                    Add(s, Shr(K, 27)), Xor(Rotl(s, 13), Shl(K, 9)), Add(Rotl(s, 26), Shr(K, 40)), Xor(Rotl(s, 39), Shl(K, 30)), 0);
    if |key| >= BULK_MIN {
      d := WideLong(key, s, iv, lenmix, shape.bulk);
    } else {
      d := WideMid(key, s, iv, lenmix, shape.tiers);
    }
  }

  /** The two entry points agree whatever builds they come from. */
  method WidthsAgree(key: Bytes, seed: Word, narrow: Shape, wide: Shape) returns (h: Word, d: Digest)
    ensures h == d.lo == Hash64(key, seed)
  {
    hide Hash64, Hash128;
    h := HashNarrow(key, seed, narrow);
    d := HashWide(key, seed, wide);
  }
}
