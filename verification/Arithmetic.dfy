/** Division facts that the solver does not find by itself. */
module Arithmetic {

  lemma MulMonotone(p: int, a: int, b: int)
    requires p > 0 && a <= b
    ensures p * a <= p * b
  {
  }

  lemma Quotient(p: int, q: int, n: int)
    requires p > 0
    ensures q > n ==> p * q >= p * n + p
    ensures q < n ==> p * q <= p * n - p
  {
    if q > n {
      MulMonotone(p, n + 1, q);
    } else if q < n {
      MulMonotone(p, q, n - 1);
    }
  }

  /** The remainder is determined by its range. */
  lemma Remainder(x: int, m: int, q: int, r: int)
    requires m > 0 && 0 <= r < m && x == m * q + r
    ensures x % m == r
  {
    var q', r' := x / m, x % m;
    assert x == m * q' + r';
    Quotient(m, q', q);
  }

  lemma AddModulo(a: int, m: int)
    requires m > 0
    ensures (a + m) % m == a % m
  {
    var q, r := a / m, a % m;
    assert a == m * q + r;
    assert m * (q + 1) == m * q + m;
    Remainder(a + m, m, q + 1, r);
  }

  lemma NextModulo(i: int, m: int)
    requires m > 0
    ensures (i + 1) % m == if i % m + 1 == m then 0 else i % m + 1
  {
    var q, r := i / m, i % m;
    assert i == m * q + r;
    if r + 1 == m {
      assert m * (q + 1) == m * q + m;
      Remainder(i + 1, m, q + 1, 0);
    } else {
      Remainder(i + 1, m, q, r + 1);
    }
  }

  lemma SmallModulo(r: int, m: int)
    requires 0 <= r < m
    ensures r % m == r
  {
    Remainder(r, m, 0, r);
  }
}
