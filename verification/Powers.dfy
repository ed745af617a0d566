// Powers of two and the few facts about division the word operations need.
module Powers {
  const TWO_64: nat := 0x1_0000_0000_0000_0000

  function Pow2(k: nat): (r: nat)
    ensures r > 0
  {
    if k == 0 then 1 else 2 * Pow2(k - 1)
  }

  lemma Pow2Values()
    ensures Pow2(62) == 0x4000_0000_0000_0000 && Pow2(63) == 0x8000_0000_0000_0000 && Pow2(64) == TWO_64
  {
    assert Pow2(8) == 0x100;
    assert Pow2(16) == 0x10000;
    assert Pow2(24) == 0x1000000;
    assert Pow2(32) == 0x100000000;
    assert Pow2(40) == 0x10000000000;
    assert Pow2(48) == 0x1000000000000;
    assert Pow2(56) == 0x100000000000000;
  }

  lemma {:induction false} Pow2Add(m: nat, n: nat)
    ensures Pow2(m) * Pow2(n) == Pow2(m + n)
  {
    if n > 0 {
      Pow2Add(m, n - 1);
      assert Pow2(m) * Pow2(n) == 2 * (Pow2(m) * Pow2(n - 1));
    }
  }

  lemma Pow2Half(h: nat, n: nat)
    requires n > 0
    ensures Pow2(n) == 2 * Pow2(n - 1) && h * Pow2(n) == 2 * (h * Pow2(n - 1))
  {
  }

  lemma {:induction false} Pow2Below(k: nat, m: nat)
    requires k < m
    ensures Pow2(k) < Pow2(m)
    decreases m
  {
    if k < m - 1 { Pow2Below(k, m - 1); }
  }

  lemma DivUnique(x: nat, d: nat, q: nat, r: nat)
    requires d > 0 && x == q * d + r && r < d
    ensures x / d == q && x % d == r
  {
    assert x == x / d * d + x % d;
    SmallMultiple(x / d - q, d, r - x % d);
  }

  lemma SmallMultiple(e: int, d: nat, m: int)
    requires e * d == m && 0 < m + d && m < d
    ensures e == 0
  {
  }

  lemma DivTwice(x: nat, d: nat)
    requires d > 0
    ensures x / (2 * d) == x / d / 2
  {
    var q, b := x / d / 2, x / d % 2;
    assert x == x / d * d + x % d;
    assert x / d == 2 * q + b;
    var r := b * d + x % d;
    assert x == q * (2 * d) + r;
    assert b == 0 || b == 1;
    DivUnique(x, 2 * d, q, r);
  }
}
