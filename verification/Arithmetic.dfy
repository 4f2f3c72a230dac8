/** Facts about the remainder that the solver does not find on its own. */
module Arithmetic {
  lemma MulAtLeast(x: int, m: int)
    requires x >= 1 && m > 0
    ensures x * m >= m
  {
  }

  lemma DivisionIsUnique(q: int, r: int, q': int, r': int, m: int)
    requires 0 <= r < m && 0 <= r' < m
    requires q * m + r == q' * m + r'
    ensures q == q' && r == r'
  {
    assert (q - q') * m == q * m - q' * m == r' - r;
    if q > q' {
      MulAtLeast(q - q', m);
    } else if q < q' {
      // (q' - q) * m == r - r'
      MulAtLeast(q' - q, m);
    }
  }

  lemma DivMod(i: nat, p: nat)
    requires 0 < p
    ensures i == (i / p) * p + i % p && 0 <= i % p < p
  {
  }

  lemma ModSmall(i: nat, p: nat)
    requires i < p
    ensures i % p == i
  {
  }

  lemma OnePeriodLess(i: nat, p: nat, q: int, r: int, q': int, r': int)
    requires 0 < p <= i
    requires i == q * p + r && 0 <= r < p
    requires i - p == q' * p + r' && 0 <= r' < p
    ensures r' == r
  {
    assert (q' + 1) * p == q' * p + p;
    DivisionIsUnique(q, r, q' + 1, r', p);
  }

  lemma ModShift(i: nat, p: nat)
    requires 0 < p <= i
    ensures (i - p) % p == i % p
  {
    DivMod(i, p);
    DivMod(i - p, p);
    OnePeriodLess(i, p, i / p, i % p, (i - p) / p, (i - p) % p);
  }
}
