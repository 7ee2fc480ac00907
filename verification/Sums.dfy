/** Sums over a finite set of indices below a bound. */
module Sums {

  function Sum(n: nat, s: set<nat>, f: nat -> int): (r: int)
  {
    if n == 0 then 0 else Sum(n - 1, s, f) + if n - 1 in s then f(n - 1) else 0
  }

  lemma {:induction false} SumCongruent(n: nat, s: set<nat>, t: set<nat>, f: nat -> int, g: nat -> int)
    requires forall x :: 0 <= x < n ==> (x in s <==> x in t)
    requires forall x :: x in s && x < n ==> f(x) == g(x)
    ensures Sum(n, s, f) == Sum(n, t, g)
  {
    if n > 0 { SumCongruent(n - 1, s, t, f, g); }
  }

  lemma {:induction false} SumAdd(n: nat, s: set<nat>, x: nat, f: nat -> int)
    requires x !in s && x < n
    ensures Sum(n, s + {x}, f) == Sum(n, s, f) + f(x)
  {
    if x == n - 1 {
      SumCongruent(n - 1, s, s + {x}, f, f);
    } else {
      SumAdd(n - 1, s, x, f);
    }
  }

  lemma SumRemove(n: nat, s: set<nat>, x: nat, f: nat -> int)
    requires x in s && x < n
    ensures Sum(n, s - {x}, f) == Sum(n, s, f) - f(x)
  {
    SumAdd(n, s - {x}, x, f);
    assert s - {x} + {x} == s;
  }

  /** Changing the summand at one member changes the sum by the difference. */
  lemma SumUpdate(n: nat, s: set<nat>, x: nat, f: nat -> int, g: nat -> int)
    requires x in s && x < n
    requires forall y :: y in s && y < n && y != x ==> f(y) == g(y)
    ensures Sum(n, s, g) == Sum(n, s, f) + g(x) - f(x)
  {
    SumRemove(n, s, x, f);
    SumRemove(n, s, x, g);
    SumCongruent(n, s - {x}, s - {x}, f, g);
  }

  lemma {:induction false} SumBeyond(n: nat, m: nat, s: set<nat>, f: nat -> int)
    requires n <= m && forall x :: x in s ==> x < n
    ensures Sum(m, s, f) == Sum(n, s, f)
  {
    if n < m { SumBeyond(n, m - 1, s, f); }
  }

  lemma {:induction false} SumPlus(n: nat, s: set<nat>, f: nat -> int, g: nat -> int, h: nat -> int)
    requires forall x :: x in s && x < n ==> h(x) == f(x) + g(x)
    ensures Sum(n, s, h) == Sum(n, s, f) + Sum(n, s, g)
  {
    if n > 0 { SumPlus(n - 1, s, f, g, h); }
  }

  lemma {:induction false} SumUnion(n: nat, s: set<nat>, t: set<nat>, f: nat -> int)
    requires s !! t
    ensures Sum(n, s + t, f) == Sum(n, s, f) + Sum(n, t, f)
  {
    if n > 0 { SumUnion(n - 1, s, t, f); }
  }

  lemma {:induction false} SumNonNegative(n: nat, s: set<nat>, f: nat -> int)
    requires forall x :: x in s && x < n ==> f(x) >= 0
    ensures Sum(n, s, f) >= 0
  {
    if n > 0 { SumNonNegative(n - 1, s, f); }
  }

  lemma SumAtLeast(n: nat, s: set<nat>, x: nat, f: nat -> int)
    requires x in s && x < n && forall y :: y in s && y < n ==> f(y) >= 0
    ensures Sum(n, s, f) >= f(x)
  {
    SumRemove(n, s, x, f);
    SumNonNegative(n, s - {x}, f);
  }

  /** Replacing two members by a third. */
  lemma SumMerge(n: nat, s: set<nat>, a: nat, b: nat, c: nat, f: nat -> int)
    requires a in s && b in s && a != b && c !in s && a < n && b < n && c < n
    ensures Sum(n, s - {a, b} + {c}, f) == Sum(n, s, f) - f(a) - f(b) + f(c)
  {
    SumRemove(n, s, a, f);
    SumRemove(n, s - {a}, b, f);
    SumAdd(n, s - {a} - {b}, c, f);
    assert s - {a} - {b} + {c} == s - {a, b} + {c};
  }
}
