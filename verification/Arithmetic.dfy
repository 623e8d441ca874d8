/** Facts about products and remainders of integers. */
module Arithmetic {

  lemma {:induction false} Scale(k: int, a: int, b: int)
    requires k >= 0 && a <= b
    ensures k * a <= k * b
  {
    assert k * (b - a) == k * b - k * a;
  }

  lemma {:induction false} ProductZero(k: int, m: int)
    requires k >= 1 && k * m == 0
    ensures m == 0
  {
  }

  /** A multiple of k that is above -k is not negative. */
  lemma {:induction false} MultipleAbove(k: int, m: int)
    requires k >= 1 && k * m > -k
    ensures m >= 0
  {
    if m <= -1 {
      Scale(k, m, -1);
    }
  }

  lemma {:induction false} QuotientCovers(k: int, x: int, m: nat, quotient: int)
    requires k > 0 && quotient == x / k && k * m <= x
    ensures m <= quotient
  {
    assert x < k * (quotient + 1);
    if quotient + 1 <= m {
      Scale(k, quotient + 1, m);
    }
  }

  /** Quotient and remainder are unique. */
  lemma {:induction false} SameQuotient(n: nat, q: nat, r: nat, q': nat, r': nat)
    requires r < n && r' < n && q * n + r == q' * n + r'
    ensures q == q' && r == r'
  {
    if q >= q' + 1 {
      Scale(n, q' + 1, q);
    } else if q' >= q + 1 {
      Scale(n, q + 1, q');
    }
  }

  lemma {:induction false} ModUnique(x: nat, n: nat, q: nat, r: nat)
    requires n > 0 && r < n && x == q * n + r
    ensures x % n == r && x / n == q
  {
    SameQuotient(n, q, r, x / n, x % n);
  }

  lemma {:induction false} NextMultiple(q: nat, n: nat)
    ensures (q + 1) * n == q * n + n
  {
  }
}
