/** Facts about products and quotients. */
module Arithmetic {

  lemma IndexBound(i: int, n: int, k: int)
    requires 0 <= i < n && 0 < k
    ensures 0 <= i * k <= n * k - k && n * k == k * n
  {
    MultiplesApart(n - i, k);
  }

  lemma QuotientIs(q: int, n: int, r: int)
    requires 0 <= r < n && 0 <= q
    ensures q * n >= 0 && (q * n + r) / n == q
  {
    var d := (q * n + r) / n - q;
    MultiplesApart(d, n);
    assert q * n + r == ((q * n + r) / n) * n + (q * n + r) % n;
    assert d * n == r - (q * n + r) % n;
  }

  lemma MultiplesApart(d: int, n: int)
    requires n > 0
    ensures d >= 1 ==> d * n >= n
    ensures d <= -1 ==> d * n <= -n
  {
  }

  lemma QuotientUnique(a: nat, n: nat, q: nat, r: nat)
    requires 0 <= r < n && a == n * q + r
    ensures a / n == q && a % n == r
  {
    var d := a / n - q;
    assert n * d == r - a % n by {
      assert n * d == n * (a / n) - n * q;
    }
    MultiplesApart(d, n);
  }

  lemma DividesInto(a: nat, n: nat) returns (q: nat, r: nat)
    requires n > 0
    ensures a == n * q + r && r < n && q == a / n && r == a % n
  {
    q, r := a / n, a % n;
  }

  lemma Distributes(a: int, b: int, c: int)
    ensures a * (b + c) == a * b + a * c
  {
  }

  lemma Associates(a: int, b: int, c: int)
    ensures (a * b) * c == a * (b * c)
  {
  }
}
