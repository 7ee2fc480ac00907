/** Depths from merging the two lightest nodes each time minimise the total
    weighted length over all prefix codes. */
module HuffmanOptimal {
  import opened Bits
  import opened Sums
  import opened Merges

  ghost function CostOf(w: seq<nat>, l: seq<nat>): nat -> int
  {
    (x: nat) => if x < |w| && x < |l| then w[x] * l[x] else 0
  }

  /** Total weighted length of the members of s. */
  ghost function Cost(s: set<nat>, w: seq<nat>, l: seq<nat>): int
  {
    Sum(|w|, s, CostOf(w, l))
  }

  /** Lengths l for s that satisfy the Kraft inequality, none above max. */
  ghost predicate Kraft(s: set<nat>, l: seq<nat>, max: nat)
  {
    && (forall x :: x in s ==> x < |l| && l[x] <= max)
    && Sum(|l|, s, Weight(l, max)) <= Pow2(max)
  }

  // ---- Reshaping a code without raising its cost ----

  lemma {:induction false} HalveWeights(n: nat, s: set<nat>, l: seq<nat>, max: nat)
    requires 0 < max && n <= |l| && forall x :: x in s && x < n ==> l[x] < max
    ensures Sum(n, s, Weight(l, max)) == 2 * Sum(n, s, Weight(l, max - 1))
  {
    if n > 0 {
      HalveWeights(n - 1, s, l, max);
    }
  }

  lemma UnusedLevel(s: set<nat>, l: seq<nat>, max: nat)
    requires 0 < max && Kraft(s, l, max) && forall x :: x in s ==> l[x] < max
    ensures Kraft(s, l, max - 1)
  {
    HalveWeights(|l|, s, l, max);
  }

  lemma TwoMembers(s: set<nat>, l: seq<nat>, a: nat, b: nat)
    requires a in s && b in s && a != b
    ensures !Kraft(s, l, 0)
  {
    if forall x :: x in s ==> x < |l| && l[x] == 0 {
      SumRemove(|l|, s, a, Weight(l, 0));
      SumAtLeast(|l|, s - {a}, b, Weight(l, 0));
    }
  }

  /** A single longest code can lose a bit: the code space has an odd unit free. */
  lemma ShortenLone(s: set<nat>, l: seq<nat>, max: nat, x: nat)
    requires 0 < max && Kraft(s, l, max) && x in s && l[x] == max
    requires forall y :: y in s && y != x ==> l[y] < max
    ensures Kraft(s, l[x := max - 1], max)
  {
    var l' := l[x := max - 1];
    SumRemove(|l|, s, x, Weight(l, max));
    HalveWeights(|l|, s - {x}, l, max);
    SumUpdate(|l|, s, x, Weight(l, max), Weight(l', max));
  }

  lemma ShorterIsCheaper(s: set<nat>, w: seq<nat>, l: seq<nat>, x: nat)
    requires x in s && x < |w| <= |l| && 0 < l[x]
    ensures Cost(s, w, l[x := l[x] - 1]) <= Cost(s, w, l)
  {
    var l' := l[x := l[x] - 1];
    SumUpdate(|w|, s, x, CostOf(w, l), CostOf(w, l'));
    MulMono(w[x], l[x] - 1, l[x]);
  }

  lemma MulMono(w: nat, a: nat, b: nat)
    requires a <= b
    ensures w * a <= w * b
  {
  }

  ghost function Swap(l: seq<nat>, x: nat, y: nat): (r: seq<nat>)
    requires x < |l| && y < |l|
    ensures |r| == |l|
  {
    l[x := l[y]][y := l[x]]
  }

  lemma SumSwap(n: nat, s: set<nat>, x: nat, y: nat, f: nat -> int, g: nat -> int)
    requires x in s && y in s && x != y && x < n && y < n
    requires forall z :: z in s && z < n && z != x && z != y ==> f(z) == g(z)
    ensures Sum(n, s, g) == Sum(n, s, f) - f(x) - f(y) + g(x) + g(y)
  {
    SumRemove(n, s, x, f);
    SumRemove(n, s, x, g);
    SumUpdate(n, s - {x}, y, f, g);
  }

  lemma SwapKeepsKraft(s: set<nat>, l: seq<nat>, max: nat, x: nat, y: nat)
    requires Kraft(s, l, max) && x in s && y in s && x != y
    ensures Kraft(s, Swap(l, x, y), max)
  {
    SumSwap(|l|, s, x, y, Weight(l, max), Weight(Swap(l, x, y), max));
  }

  /** Giving the lighter symbol the longer code does not raise the cost. */
  lemma SwapIsCheaper(s: set<nat>, w: seq<nat>, l: seq<nat>, x: nat, y: nat)
    requires x in s && y in s && x != y && x < |w| <= |l| && y < |w|
    requires w[x] <= w[y] && l[x] <= l[y]
    ensures Cost(s, w, Swap(l, x, y)) <= Cost(s, w, l)
  {
    SumSwap(|w|, s, x, y, CostOf(w, l), CostOf(w, Swap(l, x, y)));
    Exchange(w[x], w[y], l[x], l[y]);
  }

  lemma Exchange(wx: nat, wy: nat, lx: nat, ly: nat)
    requires wx <= wy && lx <= ly
    ensures wx * ly + wy * lx <= wx * lx + wy * ly
  {
    MulMono(wy - wx, lx, ly);
    assert (wy - wx) * ly == wy * ly - wx * ly && (wy - wx) * lx == wy * lx - wx * lx;
  }

  /** a and b are the two lightest members of s. */
  ghost predicate Lightest(s: set<nat>, w: seq<nat>, a: nat, b: nat)
  {
    && a in s && b in s && a != b
    && (forall x :: x in s ==> x < |w|)
    && (forall x :: x in s ==> w[a] <= w[x])
    && (forall x :: x in s && x != a ==> w[b] <= w[x])
  }

  /** Two codes of length max exist: move them to the two lightest symbols. */
  lemma PairUp(s: set<nat>, w: seq<nat>, a: nat, b: nat, l: seq<nat>, max: nat, x: nat, y: nat)
    returns (r: seq<nat>)
    requires Lightest(s, w, a, b) && Kraft(s, l, max) && |l| == |w|
    requires x in s && y in s && x != y && l[x] == l[y] == max
    ensures |r| == |l| && Kraft(s, r, max) && r[a] == r[b] == max
    ensures Cost(s, w, r) <= Cost(s, w, l)
  {
    var p, q := if y == a then y else x, if y == a then x else y;
    r := l;
    if p != a {
      r := Swap(l, a, p);
      SwapKeepsKraft(s, l, max, a, p);
      SwapIsCheaper(s, w, l, a, p);
    }
    if q != b {
      var l' := r;
      if r[b] != max {
        r := Swap(l', b, q);
        SwapKeepsKraft(s, l', max, b, q);
        SwapIsCheaper(s, w, l', b, q);
      }
    }
  }

  /** Any code can be turned, at no extra cost, into one where the two lightest
      symbols have equal, non-zero length. */
  lemma {:induction false} Normalize(s: set<nat>, w: seq<nat>, a: nat, b: nat, l: seq<nat>, max: nat)
    returns (r: seq<nat>, rmax: nat)
    requires Lightest(s, w, a, b) && Kraft(s, l, max) && |l| == |w|
    ensures |r| == |l| && Kraft(s, r, rmax) && r[a] == r[b] == rmax > 0
    ensures Cost(s, w, r) <= Cost(s, w, l)
    decreases max
  {
    if max == 0 {
      TwoMembers(s, l, a, b);
      assert false;
    } else if x :| x in s && l[x] == max {
      if y :| y in s && y != x && l[y] == max {
        r := PairUp(s, w, a, b, l, max, x, y);
        rmax := max;
      } else {
        ShortenLone(s, l, max, x);
        ShorterIsCheaper(s, w, l, x);
        UnusedLevel(s, l[x := max - 1], max);
        r, rmax := Normalize(s, w, a, b, l[x := max - 1], max - 1);
      }
    } else {
      UnusedLevel(s, l, max);
      r, rmax := Normalize(s, w, a, b, l, max - 1);
    }
  }

  // ---- The induction over merges ----

  /** Merge i joins the two lightest nodes of the pool, and their father weighs
      the sum. */
  ghost predicate GreedyAt(leaves: set<nat>, elems: nat, ms: seq<Pair>, w: seq<nat>, i: nat)
    requires i < |ms|
  {
    && Lightest(Pool(leaves, elems, ms, i), w, ms[i].0, ms[i].1)
    && elems + i < |w| && w[elems + i] == w[ms[i].0] + w[ms[i].1]
  }

  ghost predicate Greedy(leaves: set<nat>, elems: nat, ms: seq<Pair>, w: seq<nat>)
  {
    forall i {:trigger GreedyAt(leaves, elems, ms, w, i)} :: 0 <= i < |ms| ==> GreedyAt(leaves, elems, ms, w, i)
  }

  /** Father i's sons need no cutting off. */
  ghost predicate Shallow(elems: nat, len: seq<nat>, max: nat, i: nat)
  {
    elems + i < |len| && len[elems + i] < max
  }

  /** Depths that were never cut off. */
  ghost predicate Unclipped(elems: nat, ms: seq<Pair>, len: seq<nat>, max: nat)
  {
    && Levels(elems, ms, len, max)
    && (forall i {:trigger Shallow(elems, len, max, i)} :: 0 <= i < |ms| ==> Shallow(elems, len, max, i))
  }

  /** Moving from the pool before merge i to the pool after it drops the father's
      weight from the cost, for the Huffman depths and for any paired code. */
  lemma MergeCost(pool: set<nat>, w: seq<nat>, l: seq<nat>, a: nat, b: nat, c: nat, d: nat)
    requires a in pool && b in pool && a != b && c !in pool && a < |w| && b < |w| && c < |w| == |l|
    requires w[c] == w[a] + w[b] && l[a] == l[b] == d + 1 && l[c] == d
    ensures Cost(pool, w, l) == Cost(pool - {a, b} + {c}, w, l) + w[c]
  {
    SumMerge(|w|, pool, a, b, c, CostOf(w, l));
    assert w[a] * (d + 1) + w[b] * (d + 1) == (w[a] + w[b]) * d + w[a] + w[b];
  }

  lemma MergeKraft(pool: set<nat>, l: seq<nat>, max: nat, a: nat, b: nat, c: nat)
    requires Kraft(pool, l, max) && a in pool && b in pool && a != b && c !in pool && c < |l|
    requires l[a] == l[b] == max > 0
    ensures Kraft(pool - {a, b} + {c}, l[c := max - 1], max)
  {
    var l' := l[c := max - 1];
    SumCongruent(|l|, pool, pool, Weight(l, max), Weight(l', max));
    SumMerge(|l|, pool, a, b, c, Weight(l', max));
  }

  lemma {:induction false} OptimalFrom(leaves: set<nat>, elems: nat, ms: seq<Pair>, w: seq<nat>, len: seq<nat>,
                                       clip: nat, i: nat, l: seq<nat>, max: nat)
    requires ValidMerges(leaves, elems, ms) && i <= |ms| == |leaves| - 1
    requires Greedy(leaves, elems, ms, w) && Unclipped(elems, ms, len, clip)
    requires |w| == |len| == |l| && Kraft(Pool(leaves, elems, ms, i), l, max)
    ensures Cost(Pool(leaves, elems, ms, i), w, len) <= Cost(Pool(leaves, elems, ms, i), w, l)
    decreases |ms| - i
  {
    hide Greedy, Kraft, Pool, Cost;
    var pool := Pool(leaves, elems, ms, i);
    if i == |ms| {
      RootPool(leaves, elems, ms);
      RootCost(elems + i - 1, w, len, l);
    } else {
      OptimalStep(leaves, elems, ms, w, len, clip, i);
      var c := elems + i;
      var r := NextCode(pool, w, ms[i].0, ms[i].1, c, l, max);
      OptimalFrom(leaves, elems, ms, w, len, clip, i + 1, r.0, r.1);
    }
  }

  lemma RootCost(root: nat, w: seq<nat>, len: seq<nat>, l: seq<nat>)
    requires root < |w| == |len| == |l| && len[root] == 0
    ensures Cost({root}, w, len) <= Cost({root}, w, l)
  {
    SumOne(|w|, root, CostOf(w, len));
    SumOne(|w|, root, CostOf(w, l));
  }

  /** A code for the pool gives one for the next pool that is cheaper by the
      weight of the new node. */
  lemma NextCode(pool: set<nat>, w: seq<nat>, a: nat, b: nat, c: nat, l: seq<nat>, max: nat)
    returns (r: (seq<nat>, nat))
    requires Lightest(pool, w, a, b) && c !in pool && c < |w| == |l| && w[c] == w[a] + w[b]
    requires Kraft(pool, l, max)
    ensures |r.0| == |l| && Kraft(pool - {a, b} + {c}, r.0, r.1)
    ensures Cost(pool - {a, b} + {c}, w, r.0) + w[c] <= Cost(pool, w, l)
  {
    var n, nmax := Normalize(pool, w, a, b, l, max);
    var n' := n[c := nmax - 1];
    MergeKraft(pool, n, nmax, a, b, c);
    MergeCost(pool, w, n', a, b, c, nmax - 1);
    SumCongruent(|w|, pool, pool, CostOf(w, n), CostOf(w, n'));
    r := (n', nmax);
  }

  /** What merge i says about the pool, and the cost it takes off the Huffman depths. */
  lemma OptimalStep(leaves: set<nat>, elems: nat, ms: seq<Pair>, w: seq<nat>, len: seq<nat>, clip: nat, i: nat)
    requires ValidMerges(leaves, elems, ms) && i < |ms|
    requires Greedy(leaves, elems, ms, w) && Unclipped(elems, ms, len, clip) && |w| == |len|
    ensures var (pool, next, a, b, c) :=
              (Pool(leaves, elems, ms, i), Pool(leaves, elems, ms, i + 1), ms[i].0, ms[i].1, elems + i);
            && Lightest(pool, w, a, b) && c !in pool && c < |w| && w[c] == w[a] + w[b]
            && next == pool - {a, b} + {c}
            && Cost(pool, w, len) == Cost(next, w, len) + w[c]
  {
    PoolBound(leaves, elems, ms, i);
    assert ValidAt(leaves, elems, ms, i) && LevelAt(elems, ms, len, clip, i);
    assert GreedyAt(leaves, elems, ms, w, i) && Shallow(elems, len, clip, i);
    MergeCost(Pool(leaves, elems, ms, i), w, len, ms[i].0, ms[i].1, elems + i, len[elems + i]);
  }

  // ---- Prefix codes ----

  /** code gives the members of s bit strings none of which starts another. */
  ghost predicate IsPrefixCode(s: set<nat>, code: seq<Bits>)
  {
    && (forall x :: x in s ==> x < |code|)
    && (forall x, y :: x in s && y in s && x != y ==> !(code[x] <= code[y]))
  }

  ghost function LengthsOf(code: seq<Bits>): (l: seq<nat>)
    ensures |l| == |code| && forall x :: 0 <= x < |l| ==> l[x] == |code[x]|
  {
    seq(|code|, i requires 0 <= i < |code| => |code[i]|)
  }

  /** The members whose code starts with bit b, and all codes without their first bit. */
  ghost function Branch(s: set<nat>, code: seq<Bits>, b: bool): set<nat>
    requires forall x :: x in s ==> x < |code| && code[x] != []
  {
    set x | x in s && code[x][0] == b
  }

  ghost function Tails(code: seq<Bits>): (t: seq<Bits>)
    ensures |t| == |code| && forall x :: 0 <= x < |t| && code[x] != [] ==> t[x] == code[x][1..]
  {
    seq(|code|, i requires 0 <= i < |code| => if code[i] == [] then [] else code[i][1..])
  }

  lemma BranchIsPrefixCode(s: set<nat>, code: seq<Bits>, b: bool)
    requires IsPrefixCode(s, code) && forall x :: x in s ==> code[x] != []
    ensures IsPrefixCode(Branch(s, code, b), Tails(code))
  {
    forall x, y | x in Branch(s, code, b) && y in Branch(s, code, b) && x != y
      ensures !(Tails(code)[x] <= Tails(code)[y])
    {
      assert code[x] == [b] + Tails(code)[x] && code[y] == [b] + Tails(code)[y];
    }
  }

  lemma {:induction false} SplitByFirstBit(n: nat, s: set<nat>, code: seq<Bits>, max: nat)
    requires n <= |code| && 0 < max
    requires forall x :: x in s ==> x < |code| && code[x] != [] && |code[x]| <= max
    ensures Sum(n, s, Weight(LengthsOf(code), max))
         == Sum(n, Branch(s, code, false), Weight(LengthsOf(Tails(code)), max - 1))
          + Sum(n, Branch(s, code, true), Weight(LengthsOf(Tails(code)), max - 1))
  {
    if n > 0 { SplitByFirstBit(n - 1, s, code, max); }
  }

  /** The Kraft inequality: a prefix code does not oversubscribe the code space. */
  lemma {:induction false} PrefixCodeKraft(s: set<nat>, code: seq<Bits>, max: nat)
    requires IsPrefixCode(s, code) && forall x :: x in s ==> |code[x]| <= max
    ensures Kraft(s, LengthsOf(code), max)
    decreases max
  {
    var l := LengthsOf(code);
    if x :| x in s && code[x] == [] {
      forall y | y in s ensures y == x {
        assert code[x] <= code[y];
      }
      assert s == {x};
      SumOne(|l|, x, Weight(l, max));
    } else if s == {} {
      SumEmpty(|l|, Weight(l, max));
    } else {
      var x :| x in s;
      assert 1 <= |code[x]| <= max;
      forall b: bool ensures Kraft(Branch(s, code, b), LengthsOf(Tails(code)), max - 1) {
        BranchIsPrefixCode(s, code, b);
        PrefixCodeKraft(Branch(s, code, b), Tails(code), max - 1);
      }
      SplitByFirstBit(|l|, s, code, max);
    }
  }

  ghost function LongestCode(s: set<nat>, code: seq<Bits>, n: nat): (max: nat)
    requires n <= |code|
    ensures forall x :: x in s && x < n ==> |code[x]| <= max
  {
    if n == 0 then 0
    else
      var m := LongestCode(s, code, n - 1);
      if |code[n - 1]| > m then |code[n - 1]| else m
  }

  /** Huffman depths that were not cut off cost no more than any prefix code for
      the same symbols. */
  lemma HuffmanIsOptimal(leaves: set<nat>, elems: nat, ms: seq<Pair>, w: seq<nat>, len: seq<nat>, clip: nat,
                         code: seq<Bits>)
    requires ValidMerges(leaves, elems, ms) && |ms| == |leaves| - 1
    requires Greedy(leaves, elems, ms, w) && Unclipped(elems, ms, len, clip)
    requires |w| == |len| == |code| && IsPrefixCode(leaves, code)
    ensures Cost(leaves, w, len) <= Cost(leaves, w, LengthsOf(code))
  {
    var max := LongestCode(leaves, code, |code|);
    PrefixCodeKraft(leaves, code, max);
    OptimalFrom(leaves, elems, ms, w, len, clip, 0, LengthsOf(code), max);
  }
}
