/** Repeated addition, for counting how often an amount fits into another. */
module Arithmetic {

  /** n times d, added up. */
  function Times(n: nat, d: int): int { if n == 0 then 0 else Times(n - 1, d) + d }

  lemma {:induction false} TimesIsProduct(n: nat, d: int)
    ensures Times(n, d) == n * d
  {
    if n > 0 { TimesIsProduct(n - 1, d); }
  }

  lemma AtMostQuotient(n: nat, d: int, m: int)
    requires d > 0 && Times(n, d) <= m
    ensures n <= m / d
  {
    TimesIsProduct(n, d);
    var q := m / d;
    assert m < d * (q + 1);
    assert n >= q + 1 ==> n * d >= (q + 1) * d;
  }
}
