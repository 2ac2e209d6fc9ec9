/** Bounds, and the few facts about quotients and remainders that the day allocation and the place rotation
    rest on. */
module Numbers {

  function Max(a: int, b: int): int {
    if a >= b then a else b
  }

  function Min(a: int, b: int): int {
    if a <= b then a else b
  }

  lemma ProductAtLeast(a: nat, n: nat)
    requires a >= 1
    ensures a * n >= n
  {
    assert a * n == (a - 1) * n + n;
    assert (a - 1) * n >= 0;
  }

  lemma ProductNegates(a: int, n: int)
    ensures (-a) * n == -(a * n)
  {
  }

  /** A quotient and a remainder are fixed by what they multiply back to. */
  lemma DivModUnique(t: int, n: nat, q: int, r: nat)
    requires n > 0 && t == q * n + r && r < n
    ensures t / n == q && t % n == r
  {
    var q', r' := t / n, t % n;
    assert t == q' * n + r';
    assert (q - q') * n == r' - r;
    if q > q' {
      ProductAtLeast(q - q', n);
    } else if q < q' {
      ProductNegates(q - q', n);
      ProductAtLeast(q' - q, n);
    }
  }

  lemma ModStep(t: nat, n: nat)
    requires n > 0
    ensures t % n + 1 == n ==> (t + 1) / n == t / n + 1 && (t + 1) % n == 0
    ensures t % n + 1 < n ==> (t + 1) / n == t / n && (t + 1) % n == t % n + 1
  {
    var q, r := t / n, t % n;
    assert t == q * n + r;
    if r + 1 == n {
      assert t + 1 == (q + 1) * n;
      DivModUnique(t + 1, n, q + 1, 0);
    } else {
      DivModUnique(t + 1, n, q, r + 1);
    }
  }

  /** A gap smaller than the modulus moves a remainder on, around the end at most once. */
  lemma {:induction false} NoWrapWithin(t: nat, n: nat, gap: nat)
    requires 0 < gap < n
    ensures (t + gap) % n == if t % n + gap < n then t % n + gap else t % n + gap - n
  {
    if gap == 1 {
      ModStep(t, n);
    } else {
      NoWrapWithin(t, n, gap - 1);
      ModStep(t + gap - 1, n);
      assert t + (gap - 1) == t + gap - 1;
    }
  }

  /** A share of `n` in `d >= 2` parts is at least one and leaves one for each other part. */
  lemma QuotientFits(n: int, d: nat)
    requires 1 < d <= n
    ensures 1 <= n / d && n - n / d >= d - 1
    ensures n == d ==> n / d == 1
  {
    var q := n / d;
    assert n == d * q + n % d;
    if q < 1 {
      ProductSign(d, q);
    }
    ShareFits(n, d, q, n % d);
  }

  lemma ProductSign(d: nat, q: int)
    requires q <= 0
    ensures d * q <= 0
  {
  }

  lemma ShareFits(n: int, d: nat, q: int, r: int)
    requires 1 < d && q >= 1 && n == d * q + r && 0 <= r < d
    ensures q <= n - d + 1
    ensures n == d ==> q == 1
  {
    var p: nat := q - 1;
    assert d * q == d * p + d;
    assert d * p == (d - 1) * p + p;
    ProductIsNat(d - 1, p);
    if p >= 1 {
      ProductAtLeast(p, d);
    }
  }

  lemma ProductIsNat(a: nat, b: nat)
    ensures a * b >= 0
  {
  }
}
