/** Division with remainder by numbers that are not constants. */
module Arithmetic {

  lemma MulAtLeast(d: int, n: int)
    requires d >= 1 && n >= 1
    ensures d * n >= d
  {
    assert d * n == d + d * (n - 1);
    assert d * (n - 1) >= 0;
  }

  lemma DivModUnique(x: int, d: int, q: int, r: int)
    requires d >= 1 && x == d * q + r && 0 <= r < d
    ensures x / d == q && x % d == r
  {
    var p := x / d;
    assert x == d * p + x % d;
    assert d * (q - p) == x % d - r;
    if q > p {
      MulAtLeast(d, q - p);
    } else if p > q {
      assert d * (p - q) == r - x % d;
      MulAtLeast(d, p - q);
    }
  }

  lemma Distribute(d: int, e: int, k: int, m: int)
    ensures d * (e * k + m) == (d * e) * k + d * m
  {
    assert d * (e * k) == (d * e) * k;
  }

  lemma BelowProduct(d: int, e: int, m: int, r: int)
    requires d >= 1 && 0 <= m < e && 0 <= r < d
    ensures 0 <= d * m + r < d * e
  {
    MulAtLeast(d, e - m);
    assert d * (e - m) == d * e - d * m;
    assert d * m >= 0;
  }

  /** Reducing by a multiple of `d` first does not change the remainder by `d`. */
  lemma ModOfMod(x: int, d: int, e: int)
    requires d >= 1 && e >= 1
    ensures d * e >= 1 && (x % (d * e)) % d == x % d
    ensures (x % (d * e)) / d == (x / d) % e
  {
    MulAtLeast(d, e);
    var q, r := x / d, x % d;
    ModParts(x, d, e, q, r, q / e, q % e);
  }

  lemma ModParts(x: int, d: int, e: int, q: int, r: int, k: int, m: int)
    requires d >= 1 && e >= 1 && d * e >= 1
    requires x == d * q + r && 0 <= r < d && q == e * k + m && 0 <= m < e
    ensures (x % (d * e)) % d == r && (x % (d * e)) / d == m
  {
    Distribute(d, e, k, m);
    BelowProduct(d, e, m, r);
    DivModUnique(x, d * e, k, d * m + r);
    DivModUnique(d * m + r, d, m, r);
  }
}
