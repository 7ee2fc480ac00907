/** The weight of a Huffman tree: no node is heavier than all leaves together. */
module Weights {
  import opened Sums
  import opened Merges
  import opened HuffmanOptimal
  import opened MergeLoop

  ghost function Of(w: seq<nat>): nat -> int
  {
    (x: nat) => if x < |w| then w[x] else 0
  }

  /** Joining two nodes keeps the weight of the pool. */
  lemma JoinKeeps(leaves: set<nat>, elems: nat, ms: seq<Pair>, w: seq<nat>, i: nat)
    requires ValidMerges(leaves, elems, ms) && Greedy(leaves, elems, ms, w) && i < |ms| == |leaves| - 1
    ensures Sum(|w|, Pool(leaves, elems, ms, i + 1), Of(w)) == Sum(|w|, Pool(leaves, elems, ms, i), Of(w))
  {
    assert ValidAt(leaves, elems, ms, i) && GreedyAt(leaves, elems, ms, w, i);
    PoolBound(leaves, elems, ms, i);
    var pool, a, b, c := Pool(leaves, elems, ms, i), ms[i].0, ms[i].1, elems + i;
    assert Pool(leaves, elems, ms, i + 1) == pool - {a, b} + {c};
    SumMerge(|w|, pool, a, b, c, Of(w));
  }

  lemma {:induction false} WeightConserved(leaves: set<nat>, elems: nat, ms: seq<Pair>, w: seq<nat>, i: nat)
    requires ValidMerges(leaves, elems, ms) && Greedy(leaves, elems, ms, w) && i <= |ms| == |leaves| - 1
    ensures Sum(|w|, Pool(leaves, elems, ms, i), Of(w)) == Sum(|w|, leaves, Of(w))
  {
    if i > 0 {
      WeightConserved(leaves, elems, ms, w, i - 1);
      JoinKeeps(leaves, elems, ms, w, i - 1);
    }
  }

  /** No node weighs more than all leaves together. */
  lemma NodeBelowTotal(leaves: set<nat>, elems: nat, ms: seq<Pair>, w: seq<nat>, i: nat)
    requires Forest(leaves, elems, ms, w) && i < |ms| == |leaves| - 1
    ensures elems + i < |w| && w[elems + i] <= Sum(|w|, leaves, Of(w))
  {
    assert GreedyAt(leaves, elems, ms, w, i);
    WeightConserved(leaves, elems, ms, w, i + 1);
    assert elems + i in Pool(leaves, elems, ms, i + 1);
    SumAtLeast(|w|, Pool(leaves, elems, ms, i + 1), elems + i, Of(w));
  }

  function TotalOf(f: seq<nat>): (n: nat)
    decreases |f|
  {
    if f == [] then 0 else TotalOf(f[..|f| - 1]) + f[|f| - 1]
  }

  lemma {:induction false} PartOfTotal(f: seq<nat>, x: nat)
    requires x < |f|
    ensures f[x] <= TotalOf(f)
    decreases |f|
  {
    if x < |f| - 1 { PartOfTotal(f[..|f| - 1], x); }
  }
}
