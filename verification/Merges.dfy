/** The Huffman forest as a list of merges.  Merge i takes two nodes out of the
    pool and puts node elems+i into it; the pool starts as the leaves and ends as
    the root alone.  The Kraft sum of clipped depths and the optimality of
    unclipped depths are both proved by walking the merges backwards. */
module Merges {
  import opened Bits
  import opened Sums

  type Pair = (nat, nat)

  function Pool(leaves: set<nat>, elems: nat, ms: seq<Pair>, i: nat): (p: set<nat>)
    requires i <= |ms|
  {
    if i == 0 then leaves
    else Pool(leaves, elems, ms, i - 1) - {ms[i - 1].0, ms[i - 1].1} + {elems + i - 1}
  }

  /** Merge i takes two different nodes that are in the pool at that time. */
  ghost predicate ValidAt(leaves: set<nat>, elems: nat, ms: seq<Pair>, i: nat)
    requires i < |ms|
  {
    var pool := Pool(leaves, elems, ms, i);
    ms[i].0 != ms[i].1 && ms[i].0 in pool && ms[i].1 in pool
  }

  ghost predicate ValidMerges(leaves: set<nat>, elems: nat, ms: seq<Pair>)
  {
    && (forall x :: x in leaves ==> x < elems)
    && (forall i {:trigger ValidAt(leaves, elems, ms, i)} :: 0 <= i < |ms| ==> ValidAt(leaves, elems, ms, i))
  }

  lemma SizeOfMerge(s: set<nat>, a: nat, b: nat, c: nat)
    requires a in s && b in s && a != b && c !in s
    ensures |s - {a, b} + {c}| == |s| - 1
  {
    assert s - {a, b} + {c} == s - {a} - {b} + {c};
  }

  lemma {:induction false} PoolBound(leaves: set<nat>, elems: nat, ms: seq<Pair>, i: nat)
    requires ValidMerges(leaves, elems, ms) && i <= |ms|
    ensures forall x :: x in Pool(leaves, elems, ms, i) ==> x < elems + i
    ensures |Pool(leaves, elems, ms, i)| == |leaves| - i
  {
    if i > 0 {
      PoolBound(leaves, elems, ms, i - 1);
      assert ValidAt(leaves, elems, ms, i - 1);
      SizeOfMerge(Pool(leaves, elems, ms, i - 1), ms[i - 1].0, ms[i - 1].1, elems + i - 1);
    }
  }

  /** The pool is only affected by the merges made so far. */
  lemma {:induction false} PoolPrefix(leaves: set<nat>, elems: nat, ms: seq<Pair>, more: seq<Pair>, i: nat)
    requires i <= |ms|
    ensures Pool(leaves, elems, ms + more, i) == Pool(leaves, elems, ms, i)
  {
    if i > 0 { PoolPrefix(leaves, elems, ms, more, i - 1); }
  }

  lemma ExtendMerges(leaves: set<nat>, elems: nat, ms: seq<Pair>, a: nat, b: nat)
    requires ValidMerges(leaves, elems, ms)
    requires a != b && a in Pool(leaves, elems, ms, |ms|) && b in Pool(leaves, elems, ms, |ms|)
    ensures ValidMerges(leaves, elems, ms + [(a, b)])
    ensures Pool(leaves, elems, ms + [(a, b)], |ms| + 1) == Pool(leaves, elems, ms, |ms|) - {a, b} + {elems + |ms|}
  {
    var ms' := ms + [(a, b)];
    PoolPrefix(leaves, elems, ms, [(a, b)], |ms|);
    forall i | 0 <= i < |ms'|
      ensures ValidAt(leaves, elems, ms', i)
    {
      if i < |ms| {
        assert ValidAt(leaves, elems, ms, i);
        PoolPrefix(leaves, elems, ms, [(a, b)], i);
      }
    }
  }

  // ---- Depths ----

  /** Merge i's two nodes are one deeper than their father, cut off at max. */
  ghost predicate LevelAt(elems: nat, ms: seq<Pair>, len: seq<nat>, max: nat, i: nat)
    requires i < |ms|
  {
    && elems + i < |len| && ms[i].0 < |len| && ms[i].1 < |len|
    && len[ms[i].0] == len[ms[i].1] == if len[elems + i] + 1 > max then max else len[elems + i] + 1
  }

  /** The root has depth 0 and every father's sons are one deeper. */
  ghost predicate Levels(elems: nat, ms: seq<Pair>, len: seq<nat>, max: nat)
  {
    && elems + |ms| <= |len| && 0 < |ms|
    && len[elems + |ms| - 1] == 0
    && (forall i {:trigger LevelAt(elems, ms, len, max, i)} :: 0 <= i < |ms| ==> LevelAt(elems, ms, len, max, i))
  }

  /** A node of depth d stands for 2^(max-d) codes of max bits. */
  ghost function Weight(len: seq<nat>, max: nat): nat -> int
  {
    (x: nat) => if x < |len| && len[x] <= max then Pow2(max - len[x]) else 0
  }

  ghost function AtDepth(len: seq<nat>, d: nat): nat -> int
  {
    (x: nat) => if x < |len| && len[x] == d then 1 else 0
  }

  /** Fathers i and later that already sit at depth max. */
  function Clipped(elems: nat, len: seq<nat>, max: nat, i: nat, k: nat): (n: nat)
    requires i <= k && elems + k <= |len|
    decreases k - i
  {
    if i == k then 0 else (if len[elems + i] == max then 1 else 0) + Clipped(elems, len, max, i + 1, k)
  }

  lemma RootPool(leaves: set<nat>, elems: nat, ms: seq<Pair>)
    requires ValidMerges(leaves, elems, ms) && 0 < |ms| == |leaves| - 1
    ensures Pool(leaves, elems, ms, |ms|) == {elems + |ms| - 1}
  {
    PoolBound(leaves, elems, ms, |ms|);
    OneElement(Pool(leaves, elems, ms, |ms|), elems + |ms| - 1);
  }

  lemma OneElement(s: set<nat>, x: nat)
    requires x in s && |s| == 1
    ensures s == {x}
  {
    assert |s - {x}| == 0;
  }

  lemma SumOne(n: nat, x: nat, f: nat -> int)
    requires x < n
    ensures Sum(n, {x}, f) == f(x)
  {
    SumAdd(n, {}, x, f);
    SumEmpty(n, f);
    assert {} + {x} == {x};
  }

  lemma {:induction false} SumEmpty(n: nat, f: nat -> int)
    ensures Sum(n, {}, f) == 0
  {
    if n > 0 { SumEmpty(n - 1, f); }
  }

  /** No pool member is deeper than max. */
  lemma {:induction false} PoolLevels(leaves: set<nat>, elems: nat, ms: seq<Pair>, len: seq<nat>, max: nat, i: nat)
    requires ValidMerges(leaves, elems, ms) && i <= |ms| == |leaves| - 1
    requires Levels(elems, ms, len, max)
    ensures forall x :: x in Pool(leaves, elems, ms, i) ==> x < |len| && len[x] <= max
    decreases |ms| - i
  {
    if i == |ms| {
      RootPool(leaves, elems, ms);
    } else {
      PoolLevels(leaves, elems, ms, len, max, i + 1);
      assert LevelAt(elems, ms, len, max, i);
      forall x | x in Pool(leaves, elems, ms, i)
        ensures x < |len| && len[x] <= max
      {
        assert x == ms[i].0 || x == ms[i].1 || x in Pool(leaves, elems, ms, i + 1);
      }
    }
  }

  lemma SplitWeight(len: seq<nat>, max: nat, a: nat, b: nat, c: nat)
    requires a < |len| && b < |len| && c < |len| && len[c] <= max && 0 < max
    requires len[a] == len[b] == if len[c] + 1 > max then max else len[c] + 1
    ensures Weight(len, max)(a) + Weight(len, max)(b) == Weight(len, max)(c) + AtDepth(len, max)(c)
    ensures AtDepth(len, max)(a) + AtDepth(len, max)(b) >= 2 * AtDepth(len, max)(c)
  {
  }

  /** Undoing merge i adds one unit exactly when the father sits at depth max. */
  lemma KraftStep(leaves: set<nat>, elems: nat, ms: seq<Pair>, len: seq<nat>, max: nat, i: nat)
    requires ValidMerges(leaves, elems, ms) && i < |ms| == |leaves| - 1
    requires Levels(elems, ms, len, max) && 0 < max
    ensures Sum(|len|, Pool(leaves, elems, ms, i), Weight(len, max))
         == Sum(|len|, Pool(leaves, elems, ms, i + 1), Weight(len, max)) + AtDepth(len, max)(elems + i)
    ensures Sum(|len|, Pool(leaves, elems, ms, i), AtDepth(len, max))
         >= Sum(|len|, Pool(leaves, elems, ms, i + 1), AtDepth(len, max)) + AtDepth(len, max)(elems + i)
  {
    PoolBound(leaves, elems, ms, i);
    PoolLevels(leaves, elems, ms, len, max, i + 1);
    assert ValidAt(leaves, elems, ms, i) && LevelAt(elems, ms, len, max, i);
    var pool, a, b, c := Pool(leaves, elems, ms, i), ms[i].0, ms[i].1, elems + i;
    assert Pool(leaves, elems, ms, i + 1) == pool - {a, b} + {c};
    SumMerge(|len|, pool, a, b, c, Weight(len, max));
    SumMerge(|len|, pool, a, b, c, AtDepth(len, max));
    SplitWeight(len, max, a, b, c);
  }

  /** Clipping at max adds one unit for each father at depth max, and leaves at
      least that many pool members at depth max, and one more if there is any. */
  lemma {:induction false} ClippedKraft(leaves: set<nat>, elems: nat, ms: seq<Pair>, len: seq<nat>, max: nat, i: nat)
    requires ValidMerges(leaves, elems, ms) && i <= |ms| == |leaves| - 1
    requires Levels(elems, ms, len, max) && 0 < max
    ensures Sum(|len|, Pool(leaves, elems, ms, i), Weight(len, max)) == Pow2(max) + Clipped(elems, len, max, i, |ms|)
    ensures Sum(|len|, Pool(leaves, elems, ms, i), AtDepth(len, max)) >= Clipped(elems, len, max, i, |ms|)
    ensures Clipped(elems, len, max, i, |ms|) > 0 ==>
              Sum(|len|, Pool(leaves, elems, ms, i), AtDepth(len, max)) > Clipped(elems, len, max, i, |ms|)
    decreases |ms| - i
  {
    if i == |ms| {
      RootPool(leaves, elems, ms);
      SumOne(|len|, elems + i - 1, Weight(len, max));
      SumOne(|len|, elems + i - 1, AtDepth(len, max));
    } else {
      ClippedKraft(leaves, elems, ms, len, max, i + 1);
      KraftStep(leaves, elems, ms, len, max, i);
      SumAtLeast(|len|, Pool(leaves, elems, ms, i + 1), elems + i, AtDepth(len, max));
    }
  }
}
