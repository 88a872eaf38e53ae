/** Facts about products and quotients that the solver does not find by itself. */
module Arithmetic {

  lemma CancelLess(x: int, y: int, k: nat)
    requires x * k < y * k
    ensures x < y
  {
    assert (y - x) * k == y * k - x * k;
  }

  lemma NotDivisible(n: nat, k: nat)
    requires n / 2 < k < n
    ensures n % k != 0
  {
    var q := n / k;
    assert n == q * k + n % k;
    CancelLess(q, 2, k);
  }

  lemma SmallMultiple(d: int, n: nat)
    requires n > 0 && 0 <= d * n < n
    ensures d == 0
  {
  }

  lemma QuotientOf(k: nat, n: nat)
    requires n > 0
    ensures (k * n) / n == k && (k * n) % n == 0
  {
    var q, r := (k * n) / n, (k * n) % n;
    assert (k - q) * n == r;
    SmallMultiple(k - q, n);
  }

  lemma OnlyOnce(j: nat, n: nat)
    requires j > 0 && n > 0 && j * n <= n
    ensures j == 1
  {
  }

  lemma Positive(j: nat, k: nat)
    requires j > 0 && k > 0
    ensures j * k > 0
  {
  }

  lemma OneMore(c: int, gap: int)
    ensures c * gap == (c - 1) * gap + gap
  {
  }

  lemma QuotientBound(c: int, gap: int, width: nat)
    requires gap > 0 && (c - 1) * gap <= width
    ensures c <= width / gap + 1
  {
    var q := width / gap;
    assert width == q * gap + width % gap;
    OneMore(q + 1, gap);
    CancelLess(c - 1, q + 1, gap);
  }

  lemma MulStep(i: nat, n: nat)
    requires i > 0
    ensures i * n == (i - 1) * n + n && (i - 1) * n >= 0
  {
  }
}
