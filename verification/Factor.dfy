/** factorize of factor.c: trial division with a wheel whose three counters share one
    word. */
module Factor {
  import opened Bits
  import opened Primes

  const WIDE: nat := 0x1_0000_0000_0000_0000
  const HALF: nat := 0x1_0000_0000

  // ---- isqrt ----

  /** x is the square root of n, rounded down. */
  predicate IsRoot(x: nat, n: nat)
  {
    x * x <= n < (x + 1) * (x + 1)
  }

  lemma RootStep(x: nat, q: nat, q': nat)
    requires IsRoot(x, q) && 4 * q <= q' < 4 * q + 4
    ensures IsRoot(if (2 * x + 1) * (2 * x + 1) > q' then 2 * x else 2 * x + 1, q')
  {
    Square(2 * x, x);
    assert (2 * x + 2) * (2 * x + 2) == 4 * ((x + 1) * (x + 1));
    assert (2 * x) * (2 * x) == 4 * (x * x);
  }

  lemma Square(a: nat, x: nat)
    ensures (a + 1) * (a + 1) == a * a + 2 * a + 1
  {
  }

  lemma ShiftTwo(n: nat, shift: nat)
    requires shift >= 2
    ensures 4 * (n / Pow2(shift)) <= n / Pow2(shift - 2) < 4 * (n / Pow2(shift)) + 4
  {
    var p := Pow2(shift - 2);
    assert Pow2(shift) == 4 * p;
    Quarter(n, p);
  }

  lemma Quarter(n: nat, p: nat)
    requires p > 0
    ensures 4 * (n / (4 * p)) <= n / p < 4 * (n / (4 * p)) + 4
  {
    var q, r := n / (4 * p), n % (4 * p);
    assert n == q * (4 * p) + r;
    var q', r' := n / p, n % p;
    assert n == q' * p + r';
    assert (q' - 4 * q) * p == r - r';
    if q' < 4 * q { TimesMonotone(q' - 4 * q, -1, p); }
    if q' >= 4 * q + 4 { TimesMonotone(4, q' - 4 * q, p); }
  }

  /** isqrt: two bits of n for each bit of the root. */
  method ISqrt(n: nat) returns (x: nat)
    requires n < WIDE
    ensures IsRoot(x, n) && x < HALF
  {
    hide Pow2;
    var shift := 62;
    x := 0;
    Pow62(shift);
    TopBits(n, Pow2(shift));
    x := RootBit(x, n, shift, n / Pow2(shift));
    while shift > 0
      invariant 0 <= shift <= 62 && shift % 2 == 0 && IsRoot(x, n / Pow2(shift))
    {
      shift := shift - 2;
      ShiftTwo(n, shift + 2);
      RootStep(x, n / Pow2(shift + 2), n / Pow2(shift));
      x := RootBit(x, n, shift, n / Pow2(shift));
    }
    NoShift(n);
    if x >= HALF { TimesAtLeast(x, HALF); }
  }

  /** x = (x << 1) + 1, and one less if that was too much. */
  method RootBit(x: nat, n: nat, shift: nat, ghost q: nat) returns (y: nat)
    requires q == n / Pow2(shift)
    ensures y == if (2 * x + 1) * (2 * x + 1) > q then 2 * x else 2 * x + 1
  {
    y := 2 * x + 1;
    if y * y > n / Pow2(shift) {
      y := y - 1;
    }
  }

  /** The first bit of the root, from the top two bits of n. */
  lemma TopBits(n: nat, p: nat)
    requires n < WIDE && p == 0x4000_0000_0000_0000
    ensures IsRoot(if 1 > n / p then 0 else 1, n / p)
  {
    assert n / p < 4;
  }

  lemma Pow62(shift: nat)
    requires shift == 62
    ensures Pow2(shift) == 0x4000_0000_0000_0000
  {
    Pow2Values();
    Pow2Sum(16, 16);
    Pow2Sum(32, 16);
    Pow2Sum(48, 13);
    Pow2Sum(61, 1);
  }

  lemma {:induction false} Pow2Sum(a: nat, b: nat)
    ensures Pow2(a + b) == Pow2(a) * Pow2(b)
    decreases b
  {
    if b > 0 {
      Pow2Sum(a, b - 1);
      assert Pow2(a) * (2 * Pow2(b - 1)) == 2 * (Pow2(a) * Pow2(b - 1));
    }
  }

  lemma NoShift(n: nat)
    ensures n / Pow2(0) == n
  {
  }

  lemma TimesAtLeast(x: nat, y: nat)
    requires x >= y
    ensures x * x >= y * y
  {
    TimesMonotone(y, x, y);
    TimesMonotone(y, x, x);
  }

  /** No odd number above m is a divisor up to the root. */
  predicate RootBelow(n: nat, m: nat)
  {
    n < (m + 2) * (m + 2)
  }

  /** isqrt_odd: the largest odd number up to the root. */
  method ISqrtOdd(n: nat) returns (s: nat)
    requires 1 <= n < WIDE
    ensures s % 2 == 1 && s < HALF && s * s <= n && RootBelow(n, s)
  {
    s := ISqrt(n);
    ghost var r := s;
    s := if (s - 1) % 2 == 0 then s - 1 + 1 else s - 1;
    TimesAtLeast(s + 2, r + 1);
    TimesAtLeast(r, s);
  }

  // ---- The sieve word ----

  const INCREMENT_EACH: nat := 1 + 8 + 128

  /** Bits 2, 6 and 11 of the word. */
  predicate Third(w: nat) { w / 4 % 2 == 1 }
  predicate Fifth(w: nat) { w / 64 % 2 == 1 }
  predicate Seventh(w: nat) { w / 2048 % 2 == 1 }

  /** Three counters in one word: no field reaches into the next. */
  predicate Fields(w: nat, f3: nat, f5: nat, f7: nat)
  {
    f3 < 8 && f5 < 16 && f7 < 32 && w == f3 + 8 * f5 + 128 * f7
  }

  lemma FieldBits(w: nat, f3: nat, f5: nat, f7: nat)
    requires Fields(w, f3, f5, f7)
    ensures (Third(w) <==> f3 >= 4) && (Fifth(w) <==> f5 >= 8) && (Seventh(w) <==> f7 >= 16)
  {
    assert w / 4 == f3 / 4 + 2 * f5 + 32 * f7;
    assert w / 64 == f5 / 8 + 2 * f7;
    assert w / 2048 == f7 / 16;
  }

  /** How many steps of 2 are left until the next odd multiple of 3, 5 and 7. */
  datatype Left = Left(r3: nat, r5: nat, r7: nat)

  /** The word counts towards the multiples that come after factor.  The first ones it
      waits for are 9, 15 and 21, so that 5 and 7 themselves are tried. */
  predicate Counts(w: nat, factor: nat, l: Left)
  {
    && 1 <= l.r3 <= 3 && 1 <= l.r5 <= 6 && 1 <= l.r7 <= 9 && Fields(w, 4 - l.r3, 8 - l.r5, 16 - l.r7)
    && (factor + 2 * l.r3) % 6 == 3 && (factor + 2 * l.r5) % 10 == 5 && (factor + 2 * l.r7) % 14 == 7
    && (l.r5 == 6 <==> factor == 3) && (l.r7 > 7 <==> factor < 7)
  }

  /** A multiple of 3, 5 or 7 other than these. */
  predicate Sieved(factor: nat)
  {
    (factor % 3 == 0 && factor > 3) || (factor % 5 == 0 && factor > 5) || (factor % 7 == 0 && factor > 7)
  }

  /** factor + 2 is a multiple of m exactly when the steps left are 1 more than one. */
  lemma Residue(factor: nat, r: nat, m: nat)
    requires 1 <= r <= m + 2 && (m == 3 || m == 5 || m == 7) && (factor + 2 * r) % (2 * m) == m
    ensures (factor + 2) % m == 0 <==> r == 1 || r == m + 1
  {
    var q := (factor + 2 * r) / (2 * m);
    assert factor + 2 * r == (2 * m) * q + m;
    assert factor + 2 == (2 * q + 1) * m - 2 * (r - 1);
    OddMultiple(m, 2 * q + 1, r - 1, factor + 2);
  }

  lemma OddMultiple(m: nat, q: int, k: nat, x: nat)
    requires (m == 3 || m == 5 || m == 7) && k <= m + 1 && x == q * m - 2 * k
    ensures x % m == 0 <==> k == 0 || k == m
  {
    if m == 3 {
      ModUnique(m, if k == 0 then q else if k <= 1 then q - 1 else if k == 2 then q - 2 else if k == 3 then q - 2
                else q - 3, [0, 1, 2, 0, 1][k], x);
    } else if m == 5 {
      ModUnique(m, if k == 0 then q else if k <= 2 then q - 1 else if k <= 5 then q - 2 else q - 3,
                [0, 3, 1, 4, 2, 0, 3][k], x);
    } else {
      ModUnique(m, if k == 0 then q else if k <= 3 then q - 1 else if k <= 7 then q - 2 else q - 3,
                [0, 5, 3, 1, 6, 4, 2, 0, 5][k], x);
    }
  }

  lemma Threes(factor: nat, r: nat)
    requires factor >= 3 && 1 <= r <= 3 && (factor + 2 * r) % 6 == 3
    ensures r == 1 <==> (factor + 2) % 3 == 0 && factor + 2 > 3
  {
    Residue(factor, r, 3);
  }

  lemma Fives(factor: nat, r: nat)
    requires factor >= 3 && 1 <= r <= 6 && (factor + 2 * r) % 10 == 5 && (r == 6 <==> factor == 3)
    ensures r == 1 <==> (factor + 2) % 5 == 0 && factor + 2 > 5
  {
    Residue(factor, r, 5);
  }

  lemma Sevens(factor: nat, r: nat)
    requires factor >= 3 && 1 <= r <= 9 && (factor + 2 * r) % 14 == 7 && (r > 7 <==> factor < 7)
    ensures r == 1 <==> (factor + 2) % 7 == 0 && factor + 2 > 7
  {
    Residue(factor, r, 7);
  }

  /** What is left after one step; counters that ran out start again. */
  function Next(l: Left): (r: Left)
    requires l.r3 > 0 && l.r5 > 0 && l.r7 > 0
  {
    Left(if l.r3 == 1 then 3 else l.r3 - 1, if l.r5 == 1 then 5 else l.r5 - 1, if l.r7 == 1 then 7 else l.r7 - 1)
  }

  lemma NextCounts(w: nat, factor: nat, l: Left)
    requires factor % 2 == 1 && factor >= 3 && Counts(w, factor, l)
    ensures var n := Next(l);
            && (factor + 2 + 2 * n.r3) % 6 == 3 && (factor + 2 + 2 * n.r5) % 10 == 5
               && (factor + 2 + 2 * n.r7) % 14 == 7
            && n.r5 <= 5 && (n.r7 > 7 <==> factor + 2 < 7)
  {
    hide Fields;
    var n := Next(l);
    Again(factor, l.r3, n.r3, 3);
    Again(factor, l.r5, n.r5, 5);
    Again(factor, l.r7, n.r7, 7);
    if l.r7 == 9 { NotFive(factor); }
  }

  /** A step brings the next multiple of m nearer; from there m steps lead to another. */
  lemma Again(factor: nat, r: nat, n: nat, m: nat)
    requires 1 <= r && (m == 3 || m == 5 || m == 7) && (factor + 2 * r) % (2 * m) == m
             && n == if r == 1 then m else r - 1
    ensures (factor + 2 + 2 * n) % (2 * m) == m
  {
    if r > 1 {
      assert factor + 2 + 2 * n == factor + 2 * r;
    } else {
      assert factor + 2 + 2 * n == factor + 2 * r + 2 * m;
    }
  }

  lemma NotFive(factor: nat)
    requires (factor + 18) % 14 == 7 && factor < 7
    ensures factor == 3
  {
  }

  /** Advance the word to the next odd number; flagged says that it is sieved out. */
  method Turn(w0: nat, ghost factor: nat, ghost l: Left) returns (w: nat, flagged: bool)
    requires factor % 2 == 1 && factor >= 3 && Counts(w0, factor, l)
    ensures Counts(w, factor + 2, Next(l)) && (flagged <==> Sieved(factor + 2))
  {
    Threes(factor, l.r3);
    Fives(factor, l.r5);
    Sevens(factor, l.r7);
    NextCounts(w0, factor, l);
    w := w0 + INCREMENT_EACH;
    ghost var f3, f5, f7 := 4 - l.r3 + 1, 8 - l.r5 + 1, 16 - l.r7 + 1;
    FieldBits(w, f3, f5, f7);
    flagged := Third(w) || Fifth(w) || Seventh(w);
    if !flagged {
      return;
    }
    w := Reset(w, f3, f5, f7);
  }

  method Reset(w0: nat, ghost f3: nat, ghost f5: nat, ghost f7: nat) returns (w: nat)
    requires Fields(w0, f3, f5, f7)
    ensures Fields(w, if f3 >= 4 then f3 - 3 else f3, if f5 >= 8 then f5 - 5 else f5, if f7 >= 16 then f7 - 7 else f7)
  {
    w := w0;
    FieldBits(w, f3, f5, f7);
    if Third(w) {
      w := w - 3;
    }
    ghost var g3 := if f3 >= 4 then f3 - 3 else f3;
    FieldBits(w, g3, f5, f7);
    if Fifth(w) {
      w := w - 8 * 5;
    }
    ghost var g5 := if f5 >= 8 then f5 - 5 else f5;
    FieldBits(w, g3, g5, f7);
    if Seventh(w) {
      w := w - 128 * 7;
    }
  }

  // ---- Divisors ----

  lemma DivisorOfDivisor(n: nat, f: nat, k: nat)
    requires f > 0 && k > 0 && n % f == 0 && f % k == 0
    ensures n % k == 0
  {
    TimesDivisible(k, n / f, f);
    assert n == n / f * f;
  }

  /** A number with no divisor below f that f divides: f is prime. */
  lemma SmallestIsPrime(n: nat, f: nat)
    requires f >= 2 && NoDivisor(n, f - 1) && n % f == 0
    ensures Prime(f)
  {
    forall k {:trigger f % k} | 2 <= k < f ensures f % k != 0 {
      NotDivisible(n, f - 1, k);
      if f % k == 0 { DivisorOfDivisor(n, f, k); }
    }
  }

  lemma {:induction false} QuotientKeeps(n: nat, f: nat, d: nat)
    requires f > 0 && n % f == 0 && NoDivisor(n, d)
    ensures NoDivisor(n / f, d)
    decreases d
  {
    if d >= 2 {
      QuotientKeeps(n, f, d - 1);
      assert n == f * (n / f);
      if n / f % d == 0 { TimesDivisible(d, f, n / f); }
    }
  }

  /** What is sieved out does not divide. */
  lemma SievedOut(n: nat, f: nat)
    requires f >= 3 && NoDivisor(n, f - 1) && Sieved(f)
    ensures n % f != 0
  {
    var k := if f % 3 == 0 && f > 3 then 3 else if f % 5 == 0 && f > 5 then 5 else 7;
    NotDivisible(n, f - 1, k);
    if n % f == 0 { DivisorOfDivisor(n, f, k); }
  }

  lemma OddNoEven(n: nat, f: nat)
    requires n % 2 == 1 && f % 2 == 0 && f > 0
    ensures n % f != 0
  {
    if n % f == 0 { DivisorOfDivisor(n, f, 2); }
  }

  // ---- factorize ----

  function Product(s: seq<nat>): (p: nat)
    decreases |s|
  {
    if s == [] then 1 else Product(s[..|s| - 1]) * s[|s| - 1]
  }

  /** The factors found so far are primes in order, none above last. */
  ghost predicate Ordered(out: seq<nat>, last: nat)
  {
    && (forall i :: 0 <= i < |out| ==> Prime(out[i]) && out[i] <= last)
    && forall i, j :: 0 <= i < j < |out| ==> out[i] <= out[j]
  }

  lemma OrderedMore(out: seq<nat>, last: nat, p: nat)
    requires Ordered(out, last) && last <= p && Prime(p)
    ensures Ordered(out + [p], p)
  {
  }

  lemma ProductMore(out: seq<nat>, f: nat, n: nat, m: nat)
    requires n == f * m
    ensures Product(out + [f]) * m == Product(out) * n
  {
    assert (out + [f])[..|out|] == out;
    assert Product(out) * f * m == Product(out) * (f * m);
  }

  lemma TwoIsPrime()
    ensures Prime(2) && Prime(3)
  {
  }

  /** Divide out all twos. */
  method Halve(n0: nat) returns (n: nat, out: seq<nat>)
    requires 1 <= n0
    ensures 1 <= n <= n0 && n % 2 == 1 && Ordered(out, 2) && Product(out) * n == n0
  {
    n, out := n0, [];
    TwoIsPrime();
    while n % 2 == 0
      invariant 1 <= n <= n0 && Ordered(out, 2) && Product(out) * n == n0
      decreases n
    {
      ProductMore(out, 2, n, n / 2);
      OrderedMore(out, 2, 2);
      out := out + [2];
      n := n / 2;
    }
  }

  /** Divide out one factor as often as it goes. */
  method DivideOut(n0: nat, out0: seq<nat>, factor: nat, max0: nat) returns (n: nat, out: seq<nat>, max: nat)
    requires 1 <= n0 < WIDE && n0 % 2 == 1 && factor >= 3 && NoDivisor(n0, factor - 1) && Ordered(out0, factor)
    requires max0 % 2 == 1 && max0 < HALF && RootBelow(n0, max0)
    ensures 1 <= n <= n0 && n % 2 == 1 && NoDivisor(n, factor) && Ordered(out, factor)
            && Product(out) * n == Product(out0) * n0
    ensures max % 2 == 1 && max < HALF && RootBelow(n, max) && (n == n0 ==> max == max0)
  {
    n, out, max := n0, out0, max0;
    while n % factor == 0
      invariant 1 <= n <= n0 && n % 2 == 1 && NoDivisor(n, factor - 1) && Ordered(out, factor)
                && Product(out) * n == Product(out0) * n0
      invariant max % 2 == 1 && max < HALF && RootBelow(n, max) && (n == n0 ==> max == max0)
      decreases n
    {
      SmallestIsPrime(n, factor);
      QuotientKeeps(n, factor, factor - 1);
      ProductMore(out, factor, n, n / factor);
      OrderedMore(out, factor, factor);
      Quotient(n, factor);
      n := n / factor;
      out := out + [factor];
      max := ISqrtOdd(n);
    }
  }

  lemma Quotient(n: nat, f: nat)
    requires f >= 2 && n >= 1 && n % f == 0 && n % 2 == 1
    ensures 1 <= n / f < n && n / f % 2 == 1 && n == f * (n / f)
  {
    var q := n / f;
    assert n == f * q;
    TimesMonotone(2, f, q);
    if q % 2 == 0 { EvenTimes(f, q); }
  }

  lemma EvenTimes(f: nat, q: nat)
    requires q % 2 == 0
    ensures f * q % 2 == 0
  {
    TimesDivisible(2, f, q);
  }

  lemma StartFactor(n: nat, out: seq<nat>)
    requires n % 2 == 1 && Ordered(out, 2)
    ensures NoDivisor(n, 2) && Ordered(out, 3) && Counts(4 - 3 + (64 - 6 * 8) + (2048 - 9 * 128), 3, Left(3, 6, 9))
  {
  }

  lemma NextFactor(n: nat, out: seq<nat>, factor: nat)
    requires n % 2 == 1 && factor % 2 == 1 && NoDivisor(n, factor) && Ordered(out, factor)
    ensures NoDivisor(n, factor + 1) && Ordered(out, factor + 2)
  {
    OddNoEven(n, factor + 1);
  }

  lemma NotThis(n: nat, factor: nat)
    requires factor >= 2 && NoDivisor(n, factor - 1) && n % factor != 0
    ensures NoDivisor(n, factor)
  {
  }

  /** The trial division proper, over odd numbers that are not sieved out. */
  method TryOdd(n0: nat, out0: seq<nat>) returns (n: nat, out: seq<nat>, factor: nat)
    requires 1 <= n0 < WIDE && n0 % 2 == 1 && Ordered(out0, 2)
    ensures 1 <= n && n % 2 == 1 && Ordered(out, factor) && Product(out) * n == Product(out0) * n0
    ensures 3 <= factor < HALF && factor % 2 == 1 && NoDivisor(n, factor) && RootBelow(n, factor)
  {
    hide NoDivisor, Ordered, Product, Counts, RootBelow, Sieved;
    StartFactor(n0, out0);
    n, out, factor := n0, out0, 3;
    var max: nat := ISqrtOdd(n);
    var w := 4 - 3 + (64 - 6 * 8) + (2048 - 9 * 128);
    ghost var left := Left(3, 6, 9);
    var test := true;
    while true
      invariant 1 <= n < WIDE && n % 2 == 1 && 3 <= factor < HALF && factor % 2 == 1 && NoDivisor(n, factor - 1)
                && (!test ==> n % factor != 0)
      invariant max % 2 == 1 && max < HALF && RootBelow(n, max)
      invariant Ordered(out, factor) && Product(out) * n == Product(out0) * n0 && Counts(w, factor, left)
      decreases n, if max > factor then max - factor else 0
    {
      if test {
        n, out, max := DivideOut(n, out, factor, max);
      } else {
        NotThis(n, factor);
      }
      if factor >= max {
        RootStill(n, max, factor);
        return;
      }
      NextFactor(n, out, factor);
      var flagged;
      w, flagged := Turn(w, factor, left);
      left := Next(left);
      factor := factor + 2;
      if flagged { SievedOut(n, factor); }
      test := !flagged;
    }
  }

  lemma RootStill(n: nat, m: nat, f: nat)
    requires RootBelow(n, m) && m <= f
    ensures RootBelow(n, f)
  {
    TimesAtLeast(f + 2, m + 2);
  }

  /** What is left is 1 or a prime above all factors found. */
  lemma LastIsPrime(n: nat, factor: nat)
    requires n > 1 && n % 2 == 1 && factor >= 3 && factor % 2 == 1 && NoDivisor(n, factor) && RootBelow(n, factor)
    ensures Prime(n) && n > factor
  {
    OddNoEven(n, factor + 1);
    PrimeBelowSquare(n, factor + 1);
    if n <= factor { NotDivisible(n, factor, n); }
  }

  /** factorize: the prime factors of N in order; none for 0 and 1. */
  method Factorize(N: nat) returns (out: seq<nat>)
    requires N < WIDE
    ensures forall i :: 0 <= i < |out| ==> Prime(out[i])
    ensures forall i, j :: 0 <= i < j < |out| ==> out[i] <= out[j]
    ensures N == 0 ==> out == []
    ensures N > 0 ==> Product(out) == N
  {
    if N < 4 {
      TwoIsPrime();
      out := if N > 1 then [N] else [];
      assert [N][..0] == [];
      return;
    }
    var n, factor;
    n, out := Halve(N);
    n, out, factor := TryOdd(n, out);
    if n > 1 {
      LastIsPrime(n, factor);
      ProductMore(out, n, n, 1);
      OrderedMore(out, factor, n);
      out := out + [n];
    }
  }
}
