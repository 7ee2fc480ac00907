/** The priority queue of build_tree: heap[1..n] with the smallest node first,
    ordered by frequency and then by subtree depth. */
module PqHeap {
  import opened Bits

  /** SMALLER: the tie breaker is the depth of the subtree. */
  predicate Smaller(freq: array<nat>, depth: array<byte>, n: nat, m: nat)
    requires n < freq.Length && m < freq.Length && n < depth.Length && m < depth.Length
    reads freq, depth
  {
    freq[n] < freq[m] || (freq[n] == freq[m] && depth[n] <= depth[m])
  }

  /** Frequency and depth as one number, so that Smaller is <=. */
  ghost function Keys(freq: seq<nat>, depth: seq<byte>): (k: seq<nat>)
    requires |freq| <= |depth|
    ensures |k| == |freq| && forall x :: 0 <= x < |k| ==> k[x] == 256 * freq[x] + depth[x]
  {
    seq(|freq|, x requires 0 <= x < |freq| <= |depth| => 256 * freq[x] + depth[x])
  }

  /** Heap entries 1..n are valid nodes. */
  ghost predicate InRange(h: seq<nat>, n: nat, k: seq<nat>)
  {
    n < |h| && forall j :: 1 <= j <= n ==> h[j] < |k|
  }

  /** Every node from position lo down is no larger than its sons. */
  ghost predicate HeapFrom(h: seq<nat>, n: nat, k: seq<nat>, lo: nat)
    requires InRange(h, n, k)
  {
    forall j :: 2 <= j <= n && lo <= j / 2 ==> k[h[j / 2]] <= k[h[j]]
  }

  /** As HeapFrom, except that the node at position p may be too large. */
  ghost predicate Sifting(h: seq<nat>, n: nat, k: seq<nat>, lo: nat, p: nat)
    requires InRange(h, n, k)
  {
    && 1 <= lo <= p <= n
    && (forall j :: 2 <= j <= n && lo <= j / 2 && j / 2 != p ==> k[h[j / 2]] <= k[h[j]])
    && (forall j :: 2 <= j <= n && j / 2 == p && lo <= p / 2 ==> k[h[p / 2]] <= k[h[j]])
  }

  /** The nodes in the heap. */
  function Bag(h: seq<nat>, n: nat): (b: multiset<nat>)
    requires n < |h|
  {
    multiset(h[1..n + 1])
  }

  lemma BagUpdate(h: seq<nat>, n: nat, i: nat, v: nat)
    requires 1 <= i <= n < |h|
    ensures Bag(h[i := v], n) == Bag(h, n) - multiset{h[i]} + multiset{v}
  {
    assert h[i := v][1..n + 1] == h[1..n + 1][i - 1 := v];
  }

  lemma BagHas(h: seq<nat>, n: nat, i: nat)
    requires 1 <= i <= n < |h|
    ensures h[i] in Bag(h, n)
  {
    assert h[i] == h[1..n + 1][i - 1];
  }

  lemma BagMember(h: seq<nat>, n: nat, x: nat) returns (i: nat)
    requires n < |h| && x in Bag(h, n)
    ensures 1 <= i <= n && h[i] == x
  {
    var j :| 0 <= j < |h[1..n + 1]| && h[1..n + 1][j] == x;
    i := j + 1;
  }

  lemma BagShrink(h: seq<nat>, n: nat)
    requires 1 <= n < |h|
    ensures Bag(h, n) == Bag(h, n - 1) + multiset{h[n]}
  {
    assert h[1..n + 1] == h[1..n] + [h[n]];
  }

  lemma BagSwap(h: seq<nat>, n: nat, i: nat, j: nat)
    requires 1 <= i <= n < |h| && 1 <= j <= n && i != j
    ensures Bag(h[i := h[j]][j := h[i]], n) == Bag(h, n)
  {
    BagUpdate(h, n, i, h[j]);
    BagUpdate(h[i := h[j]], n, j, h[i]);
    BagHas(h, n, i);
    BagHas(h, n, j);
    BagHas(h[i := h[j]], n, j);
  }

  /** One step down: the smaller son moves up. */
  lemma SiftStep(h: seq<nat>, n: nat, k: seq<nat>, lo: nat, p: nat, j: nat)
    requires InRange(h, n, k) && Sifting(h, n, k, lo, p)
    requires 2 * p <= n && (j == 2 * p || (j == 2 * p + 1 && j <= n))
    requires k[h[j]] <= k[h[2 * p]] && (2 * p + 1 <= n ==> k[h[j]] <= k[h[2 * p + 1]])
    requires k[h[j]] <= k[h[p]]
    ensures var h' := h[p := h[j]][j := h[p]];
            InRange(h', n, k) && Sifting(h', n, k, lo, j)
  {
    var h' := h[p := h[j]][j := h[p]];
    forall i | 2 <= i <= n && lo <= i / 2 && i / 2 != j
      ensures k[h'[i / 2]] <= k[h'[i]]
    {
      if i / 2 == p {
        assert i == 2 * p || i == 2 * p + 1;
      } else if i == p {
        assert j / 2 == p;
      }
    }
    forall i | 2 <= i <= n && i / 2 == j && lo <= j / 2
      ensures k[h'[j / 2]] <= k[h'[i]]
    {
      assert j / 2 == p && i != p && i != j;
      assert k[h[i / 2]] <= k[h[i]];
    }
  }

  lemma SiftDone(h: seq<nat>, n: nat, k: seq<nat>, lo: nat, p: nat)
    requires InRange(h, n, k) && Sifting(h, n, k, lo, p)
    requires 2 * p <= n ==> k[h[p]] <= k[h[2 * p]]
    requires 2 * p + 1 <= n ==> k[h[p]] <= k[h[2 * p + 1]]
    ensures HeapFrom(h, n, k, lo)
  {
    forall j | 2 <= j <= n && lo <= j / 2
      ensures k[h[j / 2]] <= k[h[j]]
    {
      if j / 2 == p { assert j == 2 * p || j == 2 * p + 1; }
    }
  }

  lemma SiftStart(h: seq<nat>, n: nat, k: seq<nat>, lo: nat)
    requires InRange(h, n, k) && 1 <= lo <= n && HeapFrom(h, n, k, lo + 1)
    ensures Sifting(h, n, k, lo, lo)
  {
  }

  /** The node at the top is a smallest one. */
  lemma {:induction false} TopIsSmallest(h: seq<nat>, n: nat, k: seq<nat>, j: nat)
    requires InRange(h, n, k) && HeapFrom(h, n, k, 1) && 1 <= j <= n
    ensures k[h[1]] <= k[h[j]]
  {
    if j > 1 {
      TopIsSmallest(h, n, k, j / 2);
      assert k[h[j / 2]] <= k[h[j]];
    }
  }

  /** The index of the smaller son of p. */
  method SmallerSon(heap: array<nat>, n: nat, freq: array<nat>, depth: array<byte>, p: nat, ghost k: seq<nat>)
    returns (j: nat)
    requires n < heap.Length && freq.Length <= depth.Length && k == Keys(freq[..], depth[..])
    requires InRange(heap[..], n, k) && 1 <= p && 2 * p <= n
    ensures j == 2 * p || (j == 2 * p + 1 && j <= n)
    ensures k[heap[j]] <= k[heap[2 * p]] && (2 * p + 1 <= n ==> k[heap[j]] <= k[heap[2 * p + 1]])
  {
    j := 2 * p;
    assert heap[..][j] < |k|;
    if j < n {
      assert heap[..][j + 1] < |k|;
      if Smaller(freq, depth, heap[j + 1], heap[j]) {
        j := j + 1;
      }
    }
  }

  /** The heap while v is on its way down: position p is free and v belongs there
      or below. */
  ghost predicate Hole(h: seq<nat>, n: nat, k: seq<nat>, lo: nat, p: nat, v: nat, bag: multiset<nat>)
  {
    && n < |h| && 1 <= p <= n && v < |k| && InRange(h, n, k)
    && InRange(h[p := v], n, k) && Sifting(h[p := v], n, k, lo, p) && Bag(h[p := v], n) == bag
  }

  lemma HoleStep(h: seq<nat>, n: nat, k: seq<nat>, lo: nat, p: nat, v: nat, bag: multiset<nat>, j: nat)
    requires Hole(h, n, k, lo, p, v, bag)
    requires 2 * p <= n && (j == 2 * p || (j == 2 * p + 1 && j <= n))
    requires k[h[j]] <= k[h[2 * p]] && (2 * p + 1 <= n ==> k[h[j]] <= k[h[2 * p + 1]])
    requires k[h[j]] <= k[v]
    ensures Hole(h[p := h[j]], n, k, lo, j, v, bag)
  {
    var g := h[p := v];
    SiftStep(g, n, k, lo, p, j);
    BagSwap(g, n, p, j);
    UpdateSwap(h, p, j, v);
  }

  lemma UpdateSwap(h: seq<nat>, p: nat, j: nat, v: nat)
    requires p < |h| && j < |h| && p != j
    ensures var g := h[p := v];
            g[p := g[j]][j := g[p]] == h[p := h[j]][j := v]
  {
  }

  lemma HoleDone(h: seq<nat>, n: nat, k: seq<nat>, lo: nat, p: nat, v: nat, bag: multiset<nat>)
    requires Hole(h, n, k, lo, p, v, bag)
    requires 2 * p <= n ==> k[v] <= k[h[2 * p]]
    requires 2 * p + 1 <= n ==> k[v] <= k[h[2 * p + 1]]
    ensures HeapFrom(h[p := v], n, k, lo)
  {
    SiftDone(h[p := v], n, k, lo, p);
  }

  /** pqdownheap: move the node at position start down until the heap property
      holds again from there. */
  method PqDownHeap(heap: array<nat>, n: nat, freq: array<nat>, depth: array<byte>, start: nat, ghost k: seq<nat>)
    requires heap != freq && n < heap.Length && freq.Length <= depth.Length && k == Keys(freq[..], depth[..])
    requires InRange(heap[..], n, k) && 1 <= start <= n && HeapFrom(heap[..], n, k, start + 1)
    modifies heap
    ensures InRange(heap[..], n, k) && HeapFrom(heap[..], n, k, start)
    ensures Bag(heap[..], n) == old(Bag(heap[..], n))
    ensures forall i :: n < i < heap.Length ==> heap[i] == old(heap[i])
  {
    var p, v := start, heap[start];
    ghost var bag := Bag(heap[..], n);
    HoleStart(heap[..], n, k, start);
    while 2 * p <= n
      invariant Hole(heap[..], n, k, start, p, v, bag)
      invariant forall i :: n < i < heap.Length ==> heap[i] == old(heap[i])
      decreases n - p
    {
      var done;
      done, p := SiftOnce(heap, n, freq, depth, start, p, v, k, bag);
      if done { break; }
    }
    if 2 * p > n { HoleDone(heap[..], n, k, start, p, v, bag); }
    heap[p] := v;
  }

  lemma HoleStart(h: seq<nat>, n: nat, k: seq<nat>, start: nat)
    requires InRange(h, n, k) && 1 <= start <= n && HeapFrom(h, n, k, start + 1)
    ensures Hole(h, n, k, start, start, h[start], Bag(h, n))
  {
    assert h[start := h[start]] == h;
    SiftStart(h, n, k, start);
  }

  /** One round of the loop in pqdownheap: stop, or move the smaller son up. */
  method SiftOnce(heap: array<nat>, n: nat, freq: array<nat>, depth: array<byte>, ghost start: nat, p: nat, v: nat,
                  ghost k: seq<nat>, ghost bag: multiset<nat>)
    returns (done: bool, p': nat)
    requires heap != freq && freq.Length <= depth.Length && k == Keys(freq[..], depth[..])
    requires 2 * p <= n && Hole(heap[..], n, k, start, p, v, bag)
    modifies heap
    ensures Hole(heap[..], n, k, start, p', v, bag)
    ensures done ==> HeapFrom(heap[..][p' := v], n, k, start)
    ensures !done ==> p < p' <= n
    ensures forall i :: n < i < heap.Length ==> heap[i] == old(heap[i])
  {
    var j := SmallerSon(heap, n, freq, depth, p, k);
    assert heap[..][j] < |k|;
    done, p' := Smaller(freq, depth, v, heap[j]), p;
    if done {
      HoleDone(heap[..], n, k, start, p, v, bag);
      return;
    }
    HoleStep(heap[..], n, k, start, p, v, bag, j);
    heap[p] := heap[j];
    p' := j;
  }
}
