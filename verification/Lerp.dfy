// Integer interpolation between two setpoints, as the executors compute it:
// a 64-bit product, a truncating quotient, a narrowing cast and a 32-bit sum.
module Lerp {
  import opened Words
  import opened Division

  /** The expression the firmware evaluates, with every wrap written out. */
  function Interpolate(a: i32, b: i32, elapsed: u32, span: u32): i32
    requires span > 0
  {
    ToI32(a + ToI32(TruncDiv(ToI64((b - a) * elapsed), span)))
  }

  /** The same value over the integers. */
  function Exact(a: int, b: int, elapsed: int, span: int): int
    requires span > 0
  {
    a + TruncDiv((b - a) * elapsed, span)
  }

  /** 0 <= n*e/s <= n for 0 <= e <= s. */
  lemma QuotientWithin(n: nat, e: nat, s: nat)
    requires e <= s && s > 0
    ensures 0 <= n * e
    ensures 0 <= (n * e) / s <= n
  {
    assert 0 <= n * e <= n * s;
    DivMonotone(0, n * e, s);
    DivMonotone(n * e, n * s, s);
    DivUnique(n * s, s, n, 0);
    DivUnique(0, s, 0, 0);
  }

  /** The exact value lies between its end points and meets them at the ends. */
  lemma ExactBetween(a: int, b: int, e: nat, s: nat)
    requires e <= s && s > 0
    ensures a <= b ==> a <= Exact(a, b, e, s) <= b
    ensures b <= a ==> b <= Exact(a, b, e, s) <= a
    ensures e == 0 ==> Exact(a, b, e, s) == a
    ensures e == s ==> Exact(a, b, e, s) == b
  {
    if b >= a {
      QuotientWithin(b - a, e, s);
      if e == s { DivUnique((b - a) * e, s, b - a, 0); }
    } else {
      QuotientWithin(a - b, e, s);
      assert (b - a) * e == -((a - b) * e);
      if e == s { DivUnique((a - b) * e, s, a - b, 0); }
    }
    if e == 0 { assert (b - a) * e == 0; DivUnique(0, s, 0, 0); }
  }

  lemma ToI32Identity(x: int, y: int)
    requires -HALF <= x + y < HALF
    ensures ToI32(x + ToI32(y)) == x + y
  {
  }

  lemma ProductFits(d: int, e: nat)
    requires -WORD < d < WORD && e < WORD
    requires Abs(d) <= HALF || e <= HALF
    ensures ToI64(d * e) == d * e
  {
    if Abs(d) <= HALF {
      ProductBelow(Abs(d), e, 0x8000_0000, 0xFFFF_FFFF);
    } else {
      ProductBelow(Abs(d), e, 0xFFFF_FFFF, 0x8000_0000);
    }
    SignedProduct(d, e);
    ToI64Identity(d * e);
  }

  lemma SignedProduct(d: int, e: nat)
    ensures d * e == (if d < 0 then -(Abs(d) * e) else Abs(d) * e)
  {
  }

  lemma ToI64Identity(x: int)
    requires -0x8000_0000_0000_0000 <= x < 0x8000_0000_0000_0000
    ensures ToI64(x) == x
  {
  }

  /** No wrap is visible inside the segment when the distance is at most 2^31,
      or the elapsed time is: the firmware's value is the exact one. */
  lemma InterpolateExact(a: i32, b: i32, e: u32, s: u32)
    requires e <= s && s > 0
    requires Abs(b - a) <= HALF || e <= HALF
    ensures Interpolate(a, b, e, s) == Exact(a, b, e, s)
  {
    ProductFits(b - a, e);
    ExactBetween(a, b, e, s);
    ToI32Identity(a, TruncDiv((b - a) * e, s));
  }

  /** Quotients of two numerators h*x and h*(x+c) differ by at most k when c/s of h is at most k. */
  lemma QuotientStep(h: nat, x: nat, c: nat, s: nat, k: nat)
    requires s > 0 && h * c <= k * s
    ensures h * x >= 0 && h * (x + c) >= 0
    ensures 0 <= (h * (x + c)) / s - (h * x) / s <= k
  {
    assert h * (x + c) == h * x + h * c;
    assert h * x >= 0 && h * c >= 0;
    DivMonotone(h * x, h * (x + c), s);
    DivMonotone(h * (x + c), h * x + k * s, s);
    DivAddMultiple(h * x, k, s);
  }

  /** Moving the elapsed time by c changes the exact value by at most k. */
  lemma ExactStep(a: int, b: int, x: nat, c: nat, s: nat, k: nat)
    requires s > 0 && Abs(b - a) * c <= k * s
    ensures Abs(Exact(a, b, x + c, s) - Exact(a, b, x, s)) <= k
  {
    if b >= a {
      QuotientStep(b - a, x, c, s, k);
    } else {
      QuotientStep(a - b, x, c, s, k);
      assert (b - a) * x == -((a - b) * x);
      assert (b - a) * (x + c) == -((a - b) * (x + c));
    }
  }

  // ---- what can still be reached --------------------------------------------

  /** The quotient grows by at least k when c/s of h is at least k. */
  lemma QuotientGrows(h: nat, x: nat, c: nat, s: nat, k: nat)
    requires s > 0 && h * c >= k * s
    ensures h * x >= 0 && h * (x + c) >= 0
    ensures (h * (x + c)) / s - (h * x) / s >= k
  {
    assert h * (x + c) == h * x + h * c;
    assert h * x >= 0 && h * c >= 0;
    DivMonotone(h * x + k * s, h * (x + c), s);
    DivAddMultiple(h * x, k, s);
  }

  /** Travelled distance of h after m of n control ticks of five milliseconds. */
  function Travelled(h: nat, m: nat, n: nat): nat
    requires m <= n && n > 0
  {
    QuotientWithin(h, 5 * m, 5 * n);
    (h * (5 * m)) / (5 * n)
  }

  lemma FiveTimes(h: nat, step: nat, c: nat, n: nat)
    ensures h <= step * n ==> h * (5 * c) <= (step * c) * (5 * n)
    ensures h >= step * n ==> h * (5 * c) >= (step * c) * (5 * n)
  {
    assert h * (5 * c) == (5 * c) * h && (step * c) * (5 * n) == (5 * c) * (step * n);
    if h <= step * n { ProductBelow(5 * c, h, 5 * c, step * n); } else { ProductBelow(5 * c, step * n, 5 * c, h); }
  }

  /** If the rest of the way is within `step` a tick, so is the next tick, and what is left
      after it: when the whole way is too long for that, every tick so far and to come
      moves exactly `step`. */
  lemma QuotientReach(h: nat, step: nat, m: nat, n: nat)
    requires m < n && h - Travelled(h, m, n) <= step * (n - m)
    ensures 0 <= Travelled(h, m + 1, n) - Travelled(h, m, n) <= step
    ensures h - Travelled(h, m + 1, n) <= step * (n - m - 1)
  {
    var c := n - m - 1;
    assert 5 * m + 5 == 5 * (m + 1) && 5 * (m + 1) + 5 * c == 5 * n;
    FiveTimes(h, step, 1, n);
    FiveTimes(h, step, c, n);
    DivUnique(h * (5 * n), 5 * n, h, 0);
    assert step * (n - m) == step * c + step;
    QuotientGrows(h, 5 * m, 5, 5 * n, 0);
    if h <= step * n {
      QuotientStep(h, 5 * m, 5, 5 * n, step);
      QuotientStep(h, 5 * (m + 1), 5 * c, 5 * n, step * c);
    } else {
      QuotientGrows(h, 5 * m, 5, 5 * n, step);
      QuotientGrows(h, 5 * (m + 1), 5 * c, 5 * n, step * c);
    }
  }

  /** An interpolated value is the travelled distance away from the start, on the way. */
  lemma ExactTravels(a: int, b: int, m: nat, n: nat)
    requires m <= n && n > 0
    ensures var x := Exact(a, b, 5 * m, 5 * n);
            && Travelled(Distance(b, a), m, n) <= Distance(b, a)
            && x == (if b >= a then a + Travelled(b - a, m, n) else a - Travelled(a - b, m, n))
            && Distance(b, x) == Distance(b, a) - Travelled(Distance(b, a), m, n)
  {
    QuotientWithin(Distance(b, a), 5 * m, 5 * n);
    if b < a { assert (b - a) * (5 * m) == -((a - b) * (5 * m)); }
  }

  /** The same for an interpolated value: while the end is within reach of it, the next
      control tick moves by at most the step and the end stays within reach. */
  lemma ExactReach(a: int, b: int, step: nat, m: nat, n: nat)
    requires m < n && Distance(b, Exact(a, b, 5 * m, 5 * n)) <= step * (n - m)
    ensures Distance(Exact(a, b, 5 * (m + 1), 5 * n), Exact(a, b, 5 * m, 5 * n)) <= step
    ensures Distance(b, Exact(a, b, 5 * (m + 1), 5 * n)) <= step * (n - m - 1)
  {
    hide Travelled, Exact;
    ExactTravels(a, b, m, n);
    ExactTravels(a, b, m + 1, n);
    QuotientReach(Distance(b, a), step, m, n);
  }
}
