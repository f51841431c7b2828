/** Facts about products, quotients and remainders. */
module Arith {
  lemma MulAtLeast(k: int, m: int)
    requires k >= 1 && m > 0
    ensures k * m >= m
  {
    assert (k - 1) * m >= 0;
  }

  lemma Spread(a: int, b: int, m: int)
    ensures (a - b) * m == a * m - b * m
  {
  }

  /** Quotient and remainder are unique. */
  lemma UniqueSplit(a: int, r: int, b: int, t: int, m: int)
    requires m > 0 && 0 <= r < m && 0 <= t < m && a * m + r == b * m + t
    ensures a == b && r == t
  {
    Spread(a, b, m);
    if a > b {
      MulAtLeast(a - b, m);
    } else if a < b {
      MulAtLeast(b - a, m);
      Spread(b, a, m);
    }
  }

  lemma ModIs(x: int, q: int, r: int, m: int)
    requires m > 0 && 0 <= r < m && x == q * m + r
    ensures x % m == r && x / m == q
  {
    UniqueSplit(x / m, x % m, q, r, m);
  }

  /** One group of `d` less: the quotient drops by one, the remainder stays. */
  lemma OneGroupLess(n: int, d: int)
    requires d >= 1
    ensures (n - d) / d == n / d - 1 && (n - d) % d == n % d
  {
    Spread(n / d, 1, d);
    ModIs(n - d, n / d - 1, n % d, d);
  }

  /** The number of full groups of `d` in `n`. */
  function Groups(n: nat, d: nat): (r: nat)
    requires d >= 1
    ensures r == 0 <==> n < d
    decreases n
  {
    if n < d then 0 else 1 + Groups(n - d, d)
  }

  lemma {:induction false} GroupsIsQuotient(n: nat, d: nat)
    requires d >= 1
    ensures Groups(n, d) == n / d
    decreases n
  {
    if n < d {
      ModIs(n, 0, n, d);
    } else {
      OneGroupLess(n, d);
      GroupsIsQuotient(n - d, d);
    }
  }
}
