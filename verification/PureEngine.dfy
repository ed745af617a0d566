// The BigInt engine: sums stay unmasked where a mask follows later, and only masked values
// meet an xor or a rotation. Its digests are the reference words, as integers.
module PureEngine {
  import opened Words
  import opened Reference
  import opened BigInts

  /** The lane initial values, each sum masked and each xor over masked values. */
  method InitialLanes(s: Word) returns (n: Lanes)
    ensures n == LanesOfPremix(s)
  {
    hide Xor, Add, Rotl, Shl, Shr, Wrap;
    forall x: Word ensures Wrap(x) == x { Masked(x); }
    n := Lanes(Xor(s, K),
               JsSum(JsRotl(s, 17), Shl(K, 21)),
               Xor(JsRotl(s, 34), Shr(K, 13)),
               JsSum(JsRotl(s, 51), Shl(K, 42)),
               JsSum(s, Shr(K, 27)),
               Xor(JsRotl(s, 13), Shl(K, 9)),
               JsSum(JsRotl(s, 26), Shr(K, 40)),
               Xor(JsRotl(s, 39), Shl(K, 30)),
               0);
  }

  /** One block, stripe by stripe. */
  method BlockStep(data: Bytes, p: nat, st: Lanes) returns (r: Lanes)
    requires p + 64 <= |data|
    ensures r == Block(st, data, p)
  {
    hide Load64, Absorb, JsAbsorb, Add, Wrap;
    var h0, h1, h2, h3 := st.h0, st.h1, st.h2, st.h3;
    var h4, h5, h6, h7, wp := st.h4, st.h5, st.h6, st.h7, st.wp;
    var w := Load64(data, p);
    h0, wp := JsAbsorb(h0, wp, w), w;
    w := Load64(data, p + 8);
    h1, wp := JsAbsorb(h1, wp, w), w;
    w := Load64(data, p + 16);
    h2, wp := JsAbsorb(h2, wp, w), w;
    w := Load64(data, p + 24);
    h3, wp := JsAbsorb(h3, wp, w), w;
    w := Load64(data, p + 32);
    h4, wp := JsAbsorb(h4, wp, w), w;
    w := Load64(data, p + 40);
    h5, wp := JsAbsorb(h5, wp, w), w;
    w := Load64(data, p + 48);
    h6, wp := JsAbsorb(h6, wp, w), w;
    w := Load64(data, p + 56);
    h7, wp := JsAbsorb(h7, wp, w), w;
    Masked(h0);
    Masked(wp);
    h0 := JsSum(h0, wp);
    r := Lanes(h0, h1, h2, h3, h4, h5, h6, h7, wp);
  }

  /** The do-while bulk loop. */
  method BulkLoop(data: Bytes, st: Lanes) returns (r: Lanes, p: nat)
    requires |data| >= BULK_MIN
    ensures p == |data| / 64 * 64 && r == Blocks(st, data, p)
  {
    hide Blocks, Block;
    var l := |data|;
    r, p := st, 0;
    BlocksNone(st, data);
    while true
      invariant l >= 64 && p + l == |data| && p % 64 == 0
      invariant r == Blocks(st, data, p)
      decreases l
    {
      BlocksNext(st, data, p);
      r := BlockStep(data, p, r);
      p, l := p + 64, l - 64;
      if l < 64 { break; }
    }
  }

  /** One round, stripe by stripe. */
  method RoundStep(data: Bytes, p: nat, q: Quad) returns (r: Quad)
    requires p + 32 <= |data|
    ensures r == Round(q, data, p)
  {
    hide Load64, Absorb, JsAbsorb;
    var h0, h1, h2, h3, wp := q.h0, q.h1, q.h2, q.h3, q.wp;
    var w := Load64(data, p);
    h0, wp := JsAbsorb(h0, wp, w), w;
    w := Load64(data, p + 8);
    h1, wp := JsAbsorb(h1, wp, w), w;
    w := Load64(data, p + 16);
    h2, wp := JsAbsorb(h2, wp, w), w;
    w := Load64(data, p + 24);
    h3, wp := JsAbsorb(h3, wp, w), w;
    r := Quad(h0, h1, h2, h3, wp);
  }

  /** The mid loop from offset start on. */
  method MidLoop(data: Bytes, start: nat, q: Quad) returns (r: Quad, p: nat)
    requires start <= |data|
    ensures p == start + (|data| - start) / 32 * 32
    ensures r == Rounds(q, data, start, p - start)
  {
    hide Rounds, Round;
    var l := |data| - start;
    r, p := q, start;
    RoundsNone(q, data, start);
    while l >= 32
      invariant start <= p <= |data| && p + l == |data| && (p - start) % 32 == 0
      invariant r == Rounds(q, data, start, p - start)
      decreases l
    {
      RoundsNext(q, data, start, p - start);
      r := RoundStep(data, p, r);
      p, l := p + 32, l - 32;
    }
  }

  /** Wall, tail and the two fold words from offset start on. */
  method TailFolds(data: Bytes, start: nat, q: Quad, lenmix: Word, ghost n: nat) returns (t0: Word, t1: Word)
    requires start <= |data| && 16 < |data| && lenmix == LenMix(n)
    ensures Folds(t0, t1) == Drain(q, data, start, n)
  {
    hide Load64, Mul, Xor, Add, Rotl, Wrap, AbsorbTail, JsAbsorbTail, JsMul, JsSum, LenMix;
    var h0, h1, h2, h3, l, p := q.h0, q.h1, q.h2, q.h3, |data| - start, start;
    Masked(h0);
    Masked(Rotl(q.wp, 27));
    h0 := JsSum(h0, JsRotl(q.wp, 27));
    if l > 16 {
      h0 := JsAbsorbTail(h0, Load64(data, p));
      h1 := JsAbsorbTail(h1, Load64(data, p + 8));
      p, l := p + 16, l - 16;
    }
    if l > 0 {
      h2 := JsAbsorbTail(h2, Load64(data, p + l - 16));
      h3 := JsAbsorbTail(h3, Load64(data, p + l - 8));
    }
    Masked(Xor(Xor(h0, Rotl(h1, 13)), lenmix));
    t0 := JsMul(Xor(Xor(h0, JsRotl(h1, 13)), lenmix), K);
    t1 := JsMerge(h2, h3, 33);
  }

  /** At most 16 bytes: the words x and u of the short path. */
  method ShortWords(data: Bytes, s: Word, lenmix: Word) returns (x: Word, u: Word)
    requires |data| <= 16
    ensures x == ShortX(ShortA(data), s)
    ensures u == ShortU(x, ShortY(ShortB(data), s), lenmix)
  {
    hide Load64, Load32, Pair, Mul, Xor, Rotl, Shr, Wrap, Inj, Inj2, JsInj, JsInj2, JsMul;
    var a, b: Word;
    if |data| >= 8 {
      a, b := Load64(data, 0), Load64(data, |data| - 8);
    } else if |data| >= 4 {
      a, b := Load32(data, 0), Load32(data, |data| - 4);
    } else if |data| > 0 {
      a, b := data[0], Pair(data[|data| / 2], data[|data| - 1]);
    } else {
      a, b := 0, 0;
    }
    assert a == ShortA(data) && b == ShortB(data);
    Masked(Xor(Xor(Inj(a), s), K));
    x := JsMul(Xor(Xor(JsInj(a), s), K), K);
    Masked(Xor(Xor(Inj2(b), Rotl(s, 23)), Shr(K, 19)));
    var y := JsMul(Xor(Xor(JsInj2(b), JsRotl(s, 23)), Shr(K, 19)), M1);
    u := Xor(Xor(JsRotl(x, 27), y), lenmix);
  }

  /** The lanes that enter the mid loop. */
  method EntryLanes(data: Bytes, s: Word) returns (q: Quad, p: nat)
    ensures p <= |data| && (q, p) == Entry(data, s)
  {
    hide LanesOfPremix, Blocks, Mul, Xor, Rotl;
    var n := InitialLanes(s);
    q, p := Quad(n.h0, n.h1, n.h2, n.h3, 0), 0;
    if |data| >= BULK_MIN {
      var r;
      r, p := BulkLoop(data, n);
      q := FoldLanes(r);
    }
  }

  method FoldLanes(st: Lanes) returns (q: Quad)
    ensures q == FoldUpper(st)
  {
    hide Mul, Xor, Rotl;
    q := Quad(JsMerge(st.h0, st.h4, 11), JsMerge(st.h1, st.h5, 19), JsMerge(st.h2, st.h6, 31), JsMerge(st.h3, st.h7, 47), st.wp);
  }

  method LowDigest(s: Word, t0: Word, t1: Word) returns (lo: Word)
    ensures lo == LowWord(s, Folds(t0, t1))
  {
    hide Xor, Rotl, LongFmix, JsFmixLong;
    lo := JsFmixLong(Xor(Xor(s, t0), JsRotl(t1, 29)));
  }

  method HighDigest(s: Word, t0: Word, t1: Word) returns (hi: Word)
    ensures hi == HighWord(s, Folds(t0, t1))
  {
    hide Xor, Add, Rotl, Wrap, Fmix128, JsFmix128, JsSum;
    Masked(t1);
    Masked(Rotl(t0, 47));
    hi := JsFmix128(Xor(JsRotl(s, 32), JsSum(t1, JsRotl(t0, 47))));
  }

  /** The engine: lo is the 64-bit digest, and with wide the pair is the 128-bit one. */
  method Engine(data: Bytes, seed: Word, wide: bool) returns (lo: Word, hi: Word)
    ensures lo == Hash64(data, seed)
    ensures if wide then Digest(lo, hi) == Hash128(data, seed) else hi == 0
  {
    hide Mul, Xor, Add, Rotl, Wrap, Fmix, Fmix128, JsFmix, JsFmix128, JsMul, JsSum,
      Entry, Rounds, Drain, LowWord, HighWord, ShortA, ShortB, ShortX, ShortY, ShortU;
    var lenmix := JsMul(|data|, K);
    var s := Xor(seed, K);
    hi := 0;
    if |data| <= 16 {
      var x, u := ShortWords(data, s, lenmix);
      lo := JsFmix(u);
      if wide {
        Masked(x);
        Masked(Rotl(u, 32));
        hi := JsFmix128(JsSum(x, JsRotl(u, 32)));
      }
      return;
    }
    var q, b := EntryLanes(data, s);
    var m, p := MidLoop(data, b, q);
    var t0, t1 := TailFolds(data, p, m, lenmix, |data|);
    lo := LowDigest(s, t0, t1);
    if wide { hi := HighDigest(s, t0, t1); }
  }
}
