/** Go's 64-bit integers: values in range, two's-complement wrap-around, truncated division. */
module Int64 {

  const TWO63 := 0x8000_0000_0000_0000
  const TWO64 := 0x1_0000_0000_0000_0000
  const MAX64 := TWO63 - 1

  type int64 = x: int | -0x8000_0000_0000_0000 <= x < 0x8000_0000_0000_0000
  type uint64 = x: int | 0 <= x < 0x1_0000_0000_0000_0000

  /** The int64 that a Go operation leaves when its mathematical result is x. */
  function Wrap(x: int): (w: int64)
    ensures -TWO63 <= x < TWO63 ==> w == x
    ensures (x - w) % TWO64 == 0
  {
    (x + TWO63) % TWO64 - TWO63
  }

  /** Go's `/`: truncation toward zero (for a positive divisor). */
  function Quo(a: int, b: int): (q: int)
    requires 0 < b
    ensures 0 <= a ==> q == a / b
    ensures a < 0 ==> a <= q <= 0
  {
    if 0 <= a then a / b else QuotientShrinks(-a, b); -((-a) / b)
  }

  lemma QuotientShrinks(a: nat, b: int)
    requires 0 < b
    ensures 0 <= a / b <= a
  {
    var q := a / b;
    MulAtLeast(q, 1, b);
  }

  lemma MulAtLeast(c: int, a: int, b: int)
    requires 0 <= c && a <= b
    ensures c * a <= c * b
  {
  }

  lemma MulDistributes(m: int, x: int, y: int)
    ensures m * (x + y) == m * x + m * y
    ensures m * (x - y) == m * x - m * y
  {
  }

  /** A quotient and a remainder that fit are the quotient and the remainder. */
  lemma DivModUnique(n: int, m: int, q: int, r: int)
    requires 0 <= r < m && n == m * q + r
    ensures n / m == q && n % m == r
  {
    var q' := n / m;
    MulDistributes(m, q, q');
    if q < q' {
      MulAtLeast(m, q + 1, q');
      MulDistributes(m, q, 1);
    } else if q' < q {
      MulAtLeast(m, q' + 1, q);
      MulDistributes(m, q', 1);
    }
  }

  function Max(a: int, b: int): int { if a > b then a else b }

  function Min(a: int, b: int): int { if a < b then a else b }

  /** Wrapping moves a value down exactly when the value did not fall below the int64 range. */
  lemma WrapAtMost(x: int)
    ensures Wrap(x) <= x <==> -TWO63 <= x
  {
  }

  /** Wrapping early changes nothing: additions and products agree modulo 2^64. */
  lemma WrapTwice(x: int, y: int)
    ensures Wrap(Wrap(x) + y) == Wrap(x + y)
    ensures Wrap(Wrap(x) * y) == Wrap(x * y)
  {
    var k := (x - Wrap(x)) / TWO64;
    assert x == Wrap(x) + k * TWO64;
    assert x * y == Wrap(x) * y + (k * y) * TWO64;
    WrapPeriod(Wrap(x) + y, k);
    WrapPeriod(Wrap(x) * y, k * y);
  }

  lemma WrapPeriod(x: int, k: int)
    ensures Wrap(x + k * TWO64) == Wrap(x)
  {
  }
}
