// The one-shot hash as the ports write it: one body for both widths, an inline eight-lane
// loop from 320 bytes on, and a four-lane loop for what is left.
module OneShot {
  import opened Powers
  import opened Words
  import opened Reference

  /** The eight-lane loop: one block a pass, at least one pass. */
  method BulkLoop(p: Bytes, st: Lanes) returns (r: Lanes, off: nat)
    requires |p| >= BULK_MIN
    ensures off == |p| / 64 * 64 && r == Blocks(st, p, off)
  {
    hide Load64, Absorb, Add, Blocks;
    var h0, h1, h2, h3 := st.h0, st.h1, st.h2, st.h3;
    var h4, h5, h6, h7, wp := st.h4, st.h5, st.h6, st.h7, st.wp;
    var l := |p|;
    off := 0;
    BlocksNext(st, p, 0);
    while true
      invariant l >= 64 && off + l == |p| && off % 64 == 0
      invariant Lanes(h0, h1, h2, h3, h4, h5, h6, h7, wp) == Blocks(st, p, off)
      decreases l
    {
      BlocksNext(st, p, off);
      var w := Load64(p, off);
      h0, wp := Absorb(h0, wp, w), w;
      w := Load64(p, off + 8);
      h1, wp := Absorb(h1, wp, w), w;
      w := Load64(p, off + 16);
      h2, wp := Absorb(h2, wp, w), w;
      w := Load64(p, off + 24);
      h3, wp := Absorb(h3, wp, w), w;
      w := Load64(p, off + 32);
      h4, wp := Absorb(h4, wp, w), w;
      w := Load64(p, off + 40);
      h5, wp := Absorb(h5, wp, w), w;
      w := Load64(p, off + 48);
      h6, wp := Absorb(h6, wp, w), w;
      w := Load64(p, off + 56);
      h7, wp := Absorb(h7, wp, w), w;
      h0 := Add(h0, wp);
      off, l := off + 64, l - 64;
      if l < 64 { break; }
    }
    r := Lanes(h0, h1, h2, h3, h4, h5, h6, h7, wp);
  }

  /** The blocks of p with the lanes passed and returned by value; |p| is a multiple of 64. */
  method AbsorbBlocks(p: Bytes, st: Lanes) returns (r: Lanes)
    requires |p| % 64 == 0
    ensures r == Blocks(st, p, |p|)
  {
    hide Load64, Absorb, Add, Blocks;
    var h0, h1, h2, h3 := st.h0, st.h1, st.h2, st.h3;
    var h4, h5, h6, h7, wp := st.h4, st.h5, st.h6, st.h7, st.wp;
    var off := 0;
    BlocksNone(st, p);
    while off < |p|
      invariant 0 <= off <= |p| && off % 64 == 0
      invariant Lanes(h0, h1, h2, h3, h4, h5, h6, h7, wp) == Blocks(st, p, off)
    {
      BlocksNext(st, p, off);
      var w := Load64(p, off);
      h0, wp := Absorb(h0, wp, w), w;
      w := Load64(p, off + 8);
      h1, wp := Absorb(h1, wp, w), w;
      w := Load64(p, off + 16);
      h2, wp := Absorb(h2, wp, w), w;
      w := Load64(p, off + 24);
      h3, wp := Absorb(h3, wp, w), w;
      w := Load64(p, off + 32);
      h4, wp := Absorb(h4, wp, w), w;
      w := Load64(p, off + 40);
      h5, wp := Absorb(h5, wp, w), w;
      w := Load64(p, off + 48);
      h6, wp := Absorb(h6, wp, w), w;
      w := Load64(p, off + 56);
      h7, wp := Absorb(h7, wp, w), w;
      h0 := Add(h0, wp);
      off := off + 64;
    }
    r := Lanes(h0, h1, h2, h3, h4, h5, h6, h7, wp);
  }

  /** Wall, tail and folds: up to 31 bytes from offset off on, and the last 16 bytes read again. */
  method TailFolds(p: Bytes, off: nat, g0: Word, g1: Word, g2: Word, g3: Word, wp: Word, lenmix: Word, ghost n: nat)
    returns (t0: Word, t1: Word)
    requires off <= |p| && 16 < |p| && lenmix == LenMix(n)
    ensures Folds(t0, t1) == Drain(Quad(g0, g1, g2, g3, wp), p, off, n)
  {
    hide Load64, Add, Xor, Rotl, Mul, LenMix, AbsorbTail;
    var h0, h1, h2, h3 := g0, g1, g2, g3;
    var l := |p| - off;
    h0 := Add(h0, Rotl(wp, 27));
    if l > 16 {
      h0 := AbsorbTail(h0, Load64(p, off));
      h1 := AbsorbTail(h1, Load64(p, off + 8));
    }
    if l > 0 {
      h2 := AbsorbTail(h2, Load64(p, off + l - 16));
      h3 := AbsorbTail(h3, Load64(p, off + l - 8));
    }
    t0 := Mul(Xor(Xor(h0, Rotl(h1, 13)), lenmix), K);
    t1 := Mul(Xor(h2, Rotl(h3, 33)), K);
  }

  /** The walk from b on ends after r bytes of rounds when fewer than 32 are left. */
  lemma FinishAt(q: Quad, p: Bytes, b: nat, r: nat, n: nat)
    requires 16 <= |p| && r % 32 == 0 && b + r <= |p| < b + r + 32
    ensures Finish(q, p, b, n) == Drain(Rounds(q, p, b, r), p, b + r, n)
  {
    hide Rounds, Drain;
    DivUnique(|p| - b, 32, r / 32, |p| - b - r);
  }

  /** The four-lane loop, wall, tail and folds from offset start on. */
  method FinishLoop(p: Bytes, start: nat, g0: Word, g1: Word, g2: Word, g3: Word, gp: Word, lenmix: Word, ghost n: nat)
    returns (t0: Word, t1: Word)
    requires start <= |p| && 16 < |p| && lenmix == LenMix(n)
    ensures Folds(t0, t1) == Finish(Quad(g0, g1, g2, g3, gp), p, start, n)
  {
    hide Load64, Absorb, Rounds, LenMix, Drain, Finish;
    ghost var q := Quad(g0, g1, g2, g3, gp);
    var h0, h1, h2, h3, wp := g0, g1, g2, g3, gp;
    var off, l := start, |p| - start;
    RoundsNone(q, p, start);
    while l >= 32
      invariant start <= off <= |p| && off + l == |p| && (off - start) % 32 == 0
      invariant Quad(h0, h1, h2, h3, wp) == Rounds(q, p, start, off - start)
      decreases l
    {
      RoundsNext(q, p, start, off - start);
      var w := Load64(p, off);
      h0, wp := Absorb(h0, wp, w), w;
      w := Load64(p, off + 8);
      h1, wp := Absorb(h1, wp, w), w;
      w := Load64(p, off + 16);
      h2, wp := Absorb(h2, wp, w), w;
      w := Load64(p, off + 24);
      h3, wp := Absorb(h3, wp, w), w;
      off, l := off + 32, l - 32;
    }
    FinishAt(q, p, start, off - start, n);
    t0, t1 := TailFolds(p, off, h0, h1, h2, h3, wp, lenmix, n);
  }

  /** The same with under 64 bytes left, where the loop is spelled as one conditional round. */
  method FinishOnce(p: Bytes, start: nat, g0: Word, g1: Word, g2: Word, g3: Word, gp: Word, lenmix: Word, ghost n: nat)
    returns (t0: Word, t1: Word)
    requires start <= |p| < start + 64 && 16 < |p| && lenmix == LenMix(n)
    ensures Folds(t0, t1) == Finish(Quad(g0, g1, g2, g3, gp), p, start, n)
  {
    hide Load64, Absorb, Rounds, LenMix, Drain;
    ghost var q := Quad(g0, g1, g2, g3, gp);
    var h0, h1, h2, h3, wp := g0, g1, g2, g3, gp;
    var off, l := start, |p| - start;
    RoundsNone(q, p, start);
    if l >= 32 {
      RoundsNext(q, p, start, 0);
      var w := Load64(p, off);
      h0, wp := Absorb(h0, wp, w), w;
      w := Load64(p, off + 8);
      h1, wp := Absorb(h1, wp, w), w;
      w := Load64(p, off + 16);
      h2, wp := Absorb(h2, wp, w), w;
      w := Load64(p, off + 24);
      h3, wp := Absorb(h3, wp, w), w;
      off, l := off + 32, l - 32;
    }
    t0, t1 := TailFolds(p, off, h0, h1, h2, h3, wp, lenmix, n);
  }

  /** At most 16 bytes: two words, two multiplies, two finalizers. */
  method HashShort(key: Bytes, seed: Word, wide: bool) returns (d: Digest)
    requires |key| <= 16
    ensures d == if wide then Hash128(key, seed) else Digest(Hash64(key, seed), 0)
  {
    hide Load64, Load32, Add, Xor, Rotl, Mul, LenMix, Inj, Inj2, Fmix, Fmix128;
    var lenmix := LenMix(|key|);
    var s := Xor(seed, K);
    var a, b: Word;
    if |key| >= 8 {
      a, b := Load64(key, 0), Load64(key, |key| - 8);
    } else if |key| >= 4 {
      a, b := Load32(key, 0), Load32(key, |key| - 4);
    } else if |key| > 0 {
      a := key[0];
      b := Pair(key[|key| / 2], key[|key| - 1]);
    } else {
      a, b := 0, 0;
    }
    assert a == ShortA(key) && b == ShortB(key);
    hide ShortA, ShortB;
    var x := Mul(Xor(Xor(Inj(a), s), K), K);
    var y := Mul(Xor(Xor(Inj2(b), Rotl(s, 23)), Shr(K, 19)), M1);
    var u := Xor(Xor(Rotl(x, 27), y), lenmix);
    d := Digest(Fmix(u), if wide then Fmix128(Add(x, Rotl(u, 32))) else 0);
  }

  /** Both widths from one body; the high word is zero unless asked for. */
  method Hash(key: Bytes, seed: Word, wide: bool) returns (d: Digest)
    ensures d == if wide then Hash128(key, seed) else Digest(Hash64(key, seed), 0)
  {
    hide Load64, Load32, Add, Xor, Rotl, Mul, LenMix, Finish, Blocks, Fmix128, LongFmix, ShortA, ShortB;
    var lenmix := LenMix(|key|);
    var s := Xor(seed, K);
    if |key| <= 16 {
      d := HashShort(key, seed, wide);
      return;
    }
    var h0 := Xor(s, K);
    var h1 := Add(Rotl(s, 17), Shl(K, 21));
    var h2 := Xor(Rotl(s, 34), Shr(K, 13));
    var h3 := Add(Rotl(s, 51), Shl(K, 42));
    var wp, off := 0, 0;
    if |key| >= BULK_MIN {
      var h4 := Add(s, Shr(K, 27));
      var h5 := Xor(Rotl(s, 13), Shl(K, 9));
      var h6 := Add(Rotl(s, 26), Shr(K, 40));
      var h7 := Xor(Rotl(s, 39), Shl(K, 30));
      var r;
      r, off := BulkLoop(key, Lanes(h0, h1, h2, h3, h4, h5, h6, h7, 0));
      h0 := Mul(Xor(r.h0, Rotl(r.h4, 11)), K);
      h1 := Mul(Xor(r.h1, Rotl(r.h5, 19)), K);
      h2 := Mul(Xor(r.h2, Rotl(r.h6, 31)), K);
      h3 := Mul(Xor(r.h3, Rotl(r.h7, 47)), K);
      wp := r.wp;
    }
    var t0, t1 := FinishLoop(key, off, h0, h1, h2, h3, wp, lenmix, |key|);
    d := Digest(LongFmix(Xor(Xor(s, t0), Rotl(t1, 29))),
                if wide then Fmix128(Xor(Rotl(s, 32), Add(t1, Rotl(t0, 47)))) else 0);
  }
}
