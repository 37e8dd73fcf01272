/** The few facts about products and quotients the other modules lean on. */
module Arithmetic {

  lemma Scale(k: int, x: int, y: int)
    requires 0 <= k && x <= y
    ensures k * x <= k * y
  {
    assert k * y - k * x == k * (y - x);
  }

  lemma QuotientBounds(gap: int, d: int)
    requires d > 0
    ensures d * (gap / d) <= gap < d * (gap / d) + d
  {
  }

  lemma QuotientIs(a: int, d: int, q: int, r: int)
    requires 0 <= r < d && a == d * q + r
    ensures a / d == q && a % d == r
  {
    var p := a / d;
    QuotientBounds(a, d);
    if p < q {
      Scale(d, p + 1, q);
    } else if p > q {
      Scale(d, q + 1, p);
    }
  }
}
