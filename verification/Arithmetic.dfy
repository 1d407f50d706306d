/** The few facts about products and quotients the other modules need. */
module Arithmetic {
  lemma MulAssoc(a: int, b: int, c: int)
    ensures a * (b * c) == (a * b) * c
  {
  }

  lemma MulDist(a: int, b: int, c: int)
    ensures (a + b) * c == a * c + b * c
  {
  }

  lemma MulAtLeast(d: int, m: int)
    requires d >= 1 && m >= 0
    ensures d * m >= m
  {
    MulDist(d - 1, 1, m);
    assert (d - 1) * m >= 0;
  }

  lemma DivModUnique(x: int, q: int, m: int, r: int)
    requires x == q * m + r && 0 <= r < m
    ensures x % m == r && x / m == q
  {
    var q', r' := x / m, x % m;
    assert x == m * q' + r';
    assert m * q' == q' * m;
    if q > q' {
      MulDist(q', q - q', m);
      MulAtLeast(q - q', m);
      assert false;
    } else if q' > q {
      MulDist(q, q' - q, m);
      MulAtLeast(q' - q, m);
      assert false;
    }
  }
}
