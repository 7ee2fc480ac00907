/** Prime numbers and divisibility. */
module Primes {
  predicate Prime(p: nat)
  {
    p >= 2 && forall d {:trigger p % d} :: 2 <= d < p ==> p % d != 0
  }

  lemma TimesMonotone(a: int, b: int, p: nat)
    requires a <= b
    ensures a * p <= b * p
  {
  }

  lemma SmallMultiple(m: int, p: nat)
    requires -(p as int) < m * p < p
    ensures m == 0
  {
    if m >= 1 { TimesMonotone(1, m, p); }
    if m <= -1 { TimesMonotone(m, -1, p); }
  }

  lemma ModUnique(p: nat, q: int, r: nat, x: int)
    requires r < p && x == q * p + r
    ensures x % p == r
  {
    var q', r' := x / p, x % p;
    assert x == q' * p + r';
    assert (q - q') * p == r' - r;
    SmallMultiple(q - q', p);
  }

  lemma MultipleOf(p: nat, k: int)
    requires p > 0
    ensures (k * p) % p == 0
  {
    ModUnique(p, k, 0, k * p);
  }

  lemma DivisibleDifference(p: nat, x: nat, y: nat)
    requires p > 0 && x % p == 0 && y % p == 0 && y <= x
    ensures (x - y) % p == 0
  {
    var a, b := x / p, y / p;
    assert x - y == a * p - b * p == (a - b) * p;
    MultipleOf(p, a - b);
  }

  lemma TimesDivisible(p: nat, q: nat, x: nat)
    requires p > 0 && x % p == 0
    ensures (q * x) % p == 0
  {
    var a := x / p;
    assert x == a * p;
    assert q * x == (q * a) * p;
    MultipleOf(p, q * a);
  }

  /** A prime divides no product of two smaller numbers. */
  lemma {:induction false} NoMultiple(p: nat, s: nat, a: nat)
    requires Prime(p) && 0 < s < p && 0 < a < p
    ensures (a * s) % p != 0
    decreases a
  {
    if a > 1 {
      var q, r := p / a, p % a;
      assert p == q * a + r;
      if (a * s) % p == 0 {
        TimesDivisible(p, q, a * s);
        TimesDivisible(p, s, p);
        assert r * s == s * p - q * (a * s);
        DivisibleDifference(p, s * p, q * (a * s));
        NoMultiple(p, s, r);
      }
    }
  }

  // ---- Trial division ----

  predicate NoDivisor(n: nat, d: nat)
  {
    d < 2 || (n % d != 0 && NoDivisor(n, d - 1))
  }

  lemma {:induction false} NotDivisible(n: nat, d: nat, k: nat)
    requires NoDivisor(n, d) && 2 <= k <= d
    ensures n % k != 0
    decreases d
  {
    if k < d { NotDivisible(n, d - 1, k); }
  }

  lemma PrimeBelowSquare(n: nat, d: nat)
    requires n >= 2 && NoDivisor(n, d) && n < (d + 1) * (d + 1)
    ensures Prime(n)
  {
    hide NoDivisor;
    var square := (d + 1) * (d + 1);
    forall k {:trigger n % k} | 2 <= k < n ensures n % k != 0 {
      NoDivisorAt(n, d, k, square);
    }
  }

  lemma NoDivisorAt(n: nat, d: nat, k: nat, square: nat)
    requires NoDivisor(n, d) && square == (d + 1) * (d + 1) && n < square && 2 <= k < n
    ensures n % k != 0
  {
    hide NoDivisor;
    if k <= d {
      NotDivisible(n, d, k);
    } else {
      LargeDivisor(n, k, n / k, d);
    }
  }

  /** A divisor above the square root has a cofactor below it. */
  lemma LargeDivisor(n: nat, k: nat, q: nat, d: nat)
    requires NoDivisor(n, d) && n < (d + 1) * (d + 1) && d < k < n
    ensures n != k * q
  {
    if n == k * q {
      Cofactor(n, k, q, d);
      NotDivisible(n, d, q);
      MultipleOf(q, k);
    }
  }

  lemma Cofactor(n: nat, k: nat, q: nat, d: nat)
    requires n == k * q && d < k < n && n < (d + 1) * (d + 1)
    ensures 2 <= q <= d
  {
    if q > d {
      TimesMonotone(d + 1, k, q);
      TimesMonotone(d + 1, q, d + 1);
    }
    if q <= 1 { TimesMonotone(q, 1, k); }
  }
}
