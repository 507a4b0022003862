// Products, and quotients and remainders by a positive divisor.
module Division {
  lemma ProductBelow(x: nat, y: nat, m: nat, n: nat)
    requires x <= m && y <= n
    ensures x * y <= m * n
  {
    assert x * y <= m * y <= m * n;
  }

  lemma MultipleBelow(d: int, k: int)
    requires d > 0 && d * k < d
    ensures k <= 0
  {
  }

  lemma DivMonotone(x: int, y: int, d: int)
    requires x <= y && d > 0
    ensures x / d <= y / d
  {
    assert d * (x / d - y / d) == (x - x % d) - (y - y % d);
    MultipleBelow(d, x / d - y / d);
  }

  lemma DivUnique(x: int, d: int, q: int, r: int)
    requires d > 0 && x == d * q + r && 0 <= r < d
    ensures x / d == q
  {
    assert d * (q - x / d) == x % d - r;
    assert d * (x / d - q) == r - x % d;
    MultipleBelow(d, q - x / d);
    MultipleBelow(d, x / d - q);
  }

  lemma DivAddMultiple(x: int, k: int, d: int)
    requires d > 0
    ensures (x + k * d) / d == x / d + k
  {
    assert d * (x / d + k) == d * (x / d) + k * d;
    DivUnique(x + k * d, d, x / d + k, x % d);
  }

  lemma ModAddMultiple(x: int, q: int, d: int)
    requires d > 0
    ensures (x + q * d) % d == x % d
  {
    var k := (x + q * d) / d - x / d - q;
    assert d * k == x % d - (x + q * d) % d;
    assert d * -k == -(d * k);
    MultipleBelow(d, k);
    MultipleBelow(d, -k);
  }

  lemma QuotientBelow(m: nat, s: nat, bound: nat)
    requires 0 < s
    ensures m / s <= bound <==> m < (bound + 1) * s
  {
    if m < (bound + 1) * s {
      if m / s >= bound + 1 { ProductBelow(bound + 1, s, m / s, s); }
    } else {
      DivMonotone((bound + 1) * s, m, s);
      DivUnique((bound + 1) * s, s, bound + 1, 0);
    }
  }
}
