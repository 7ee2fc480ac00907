/** The merge loop of build_tree: repeatedly join the two least frequent nodes. */
module MergeLoop {
  import opened Bits
  import opened Merges
  import opened HuffmanOptimal
  import opened PqHeap
  import opened TreeOrder
  import opened GenBitlen

  // ---- Queue operations ----

  /** PQREMOVE: take the smallest node off the queue. */
  method PqRemove(heap: array<nat>, n: nat, freq: array<nat>, depth: array<byte>, ghost k: seq<nat>) returns (top: nat)
    requires heap != freq && 2 <= n < heap.Length && freq.Length <= depth.Length && k == Keys(freq[..], depth[..])
    requires InRange(heap[..], n, k) && HeapFrom(heap[..], n, k, 1)
    modifies heap
    ensures top == old(heap[1]) && InRange(heap[..], n - 1, k) && HeapFrom(heap[..], n - 1, k, 1)
    ensures Bag(heap[..], n - 1) == old(Bag(heap[..], n)) - multiset{top}
    ensures forall i :: n < i < heap.Length ==> heap[i] == old(heap[i])
  {
    top := heap[1];
    LastToTop(heap[..], n, k);
    heap[1] := heap[n];
    PqDownHeap(heap, n - 1, freq, depth, 1, k);
  }

  lemma LastToTop(h: seq<nat>, n: nat, k: seq<nat>)
    requires 2 <= n && InRange(h, n, k) && HeapFrom(h, n, k, 1)
    ensures var h' := h[1 := h[n]];
            && InRange(h', n - 1, k) && HeapFrom(h', n - 1, k, 2)
            && Bag(h', n - 1) == Bag(h, n) - multiset{h[1]}
  {
    BagShrink(h, n);
    BagUpdate(h, n - 1, 1, h[n]);
    BagHas(h, n - 1, 1);
  }

  /** Put node v in place of the smallest one. */
  method ReplaceTop(heap: array<nat>, n: nat, freq: array<nat>, depth: array<byte>, v: nat, ghost k: seq<nat>)
    requires heap != freq && 1 <= n < heap.Length && freq.Length <= depth.Length && k == Keys(freq[..], depth[..])
    requires InRange(heap[..], n, k) && HeapFrom(heap[..], n, k, 1) && v < |k|
    modifies heap
    ensures InRange(heap[..], n, k) && HeapFrom(heap[..], n, k, 1)
    ensures Bag(heap[..], n) == old(Bag(heap[..], n)) - multiset{old(heap[1])} + multiset{v}
    ensures forall i :: n < i < heap.Length ==> heap[i] == old(heap[i])
  {
    BagUpdate(heap[..], n, 1, v);
    heap[1] := v;
    PqDownHeap(heap, n, freq, depth, 1, k);
  }

  // ---- What the loop keeps ----

  /** The queue holds exactly the pool, in heap order. */
  ghost predicate Queue(heap: seq<nat>, n: nat, k: seq<nat>, pool: set<nat>)
  {
    InRange(heap, n, k) && HeapFrom(heap, n, k, 1) && Bag(heap, n) == multiset(pool)
  }

  /** Merged nodes are kept at the end of the heap array, fathers in dad. */
  ghost predicate Recorded(heap: seq<nat>, dad: seq<nat>, elems: nat, ms: seq<Pair>)
  {
    && |heap| == HEAP_SIZE && 2 * |ms| <= HEAP_SIZE
    && forall e {:trigger NodeAt(ms, e)} :: 0 <= e < 2 * |ms| ==>
         heap[HEAP_SIZE - 1 - e] == NodeAt(ms, e) < |dad| && dad[NodeAt(ms, e)] == elems + e / 2
  }

  ghost predicate Forest(leaves: set<nat>, elems: nat, ms: seq<Pair>, freq: seq<nat>)
  {
    ValidMerges(leaves, elems, ms) && Greedy(leaves, elems, ms, freq)
  }

  /** The depth of a father, in a byte. */
  ghost function Above(a: byte, b: byte): (d: byte)
  {
    var higher: int := if a >= b then a else b;
    (higher + 1) % 256
  }

  /** Merge i took the two smallest nodes, of equal frequencies those with the lower subtrees,
      and the father is one higher than the higher of them. */
  ghost predicate TieAt(leaves: set<nat>, elems: nat, ms: seq<Pair>, freq: seq<nat>, depth: seq<byte>, i: nat)
    requires i < |ms| && |freq| <= |depth|
  {
    var a, b := ms[i].0, ms[i].1;
    && Lightest(Pool(leaves, elems, ms, i), Keys(freq, depth), a, b) && elems + i < |freq|
    && depth[elems + i] == Above(depth[a], depth[b])
  }

  ghost predicate TiesBroken(leaves: set<nat>, elems: nat, ms: seq<Pair>, freq: seq<nat>, depth: seq<byte>)
    requires |freq| <= |depth|
  {
    && (forall x :: x in leaves ==> x < |depth| && depth[x] == 0)
    && forall i {:trigger TieAt(leaves, elems, ms, freq, depth, i)} :: 0 <= i < |ms| ==>
         TieAt(leaves, elems, ms, freq, depth, i)
  }

  lemma TieFrame(leaves: set<nat>, elems: nat, ms: seq<Pair>, freq: seq<nat>, depth: seq<byte>, a: nat, b: nat,
                 freq2: seq<nat>, depth2: seq<byte>, i: nat)
    requires ValidMerges(leaves, elems, ms) && i < |ms| && |freq| == |freq2| <= |depth| == |depth2|
    requires TieAt(leaves, elems, ms, freq, depth, i)
    requires forall x :: 0 <= x < |freq| && x != elems + |ms| ==> freq2[x] == freq[x] && depth2[x] == depth[x]
    ensures TieAt(leaves, elems, ms + [(a, b)], freq2, depth2, i)
  {
    hide Pool;
    PoolBound(leaves, elems, ms, i);
    PoolPrefix(leaves, elems, ms, [(a, b)], i);
    var ms2 := ms + [(a, b)];
    assert ms2[i] == ms[i];
    assert forall x :: x in Pool(leaves, elems, ms, i) ==> Keys(freq2, depth2)[x] == Keys(freq, depth)[x];
  }

  /** One merge more. */
  lemma TieStep(leaves: set<nat>, elems: nat, ms: seq<Pair>, freq: seq<nat>, depth: seq<byte>, a: nat, b: nat,
                freq2: seq<nat>, depth2: seq<byte>, c: nat)
    requires ValidMerges(leaves, elems, ms) && c == elems + |ms| < |freq| == |freq2| <= |depth| == |depth2|
    requires TiesBroken(leaves, elems, ms, freq, depth)
    requires Lightest(Pool(leaves, elems, ms, |ms|), Keys(freq, depth), a, b)
    requires forall x :: 0 <= x < |freq| && x != c ==> freq2[x] == freq[x] && depth2[x] == depth[x]
    requires depth2[c] == Above(depth[a], depth[b])
    ensures TiesBroken(leaves, elems, ms + [(a, b)], freq2, depth2)
  {
    hide Pool, ValidMerges, TieAt;
    var ms2 := ms + [(a, b)];
    MembersBelow(leaves, elems, ms, c);
    forall i | 0 <= i < |ms2| ensures TieAt(leaves, elems, ms2, freq2, depth2, i) {
      if i < |ms| {
        assert TieAt(leaves, elems, ms, freq, depth, i);
        TieFrame(leaves, elems, ms, freq, depth, a, b, freq2, depth2, i);
      } else {
        TieLast(leaves, elems, ms, freq, depth, a, b, freq2, depth2, c);
      }
    }
  }

  lemma MembersBelow(leaves: set<nat>, elems: nat, ms: seq<Pair>, c: nat)
    requires ValidMerges(leaves, elems, ms) && c == elems + |ms|
    ensures forall x :: x in leaves ==> x < c
  {
  }

  lemma TieLast(leaves: set<nat>, elems: nat, ms: seq<Pair>, freq: seq<nat>, depth: seq<byte>, a: nat, b: nat,
                freq2: seq<nat>, depth2: seq<byte>, c: nat)
    requires ValidMerges(leaves, elems, ms) && c == elems + |ms| < |freq| == |freq2| <= |depth| == |depth2|
    requires Lightest(Pool(leaves, elems, ms, |ms|), Keys(freq, depth), a, b)
    requires forall x :: 0 <= x < |freq| && x != c ==> freq2[x] == freq[x] && depth2[x] == depth[x]
    requires depth2[c] == Above(depth[a], depth[b])
    ensures TieAt(leaves, elems, ms + [(a, b)], freq2, depth2, |ms|)
  {
    hide Pool, ValidMerges;
    PoolBound(leaves, elems, ms, |ms|);
    PoolPrefix(leaves, elems, ms, [(a, b)], |ms|);
    assert forall x :: x in Pool(leaves, elems, ms, |ms|) ==> Keys(freq2, depth2)[x] == Keys(freq, depth)[x];
  }

  /** The first two nodes taken off the queue are the two lightest of the pool. */
  lemma TakenAreLightest(heap: seq<nat>, heap': seq<nat>, n: nat, freq: seq<nat>, depth: seq<byte>, pool: set<nat>)
    requires |freq| <= |depth| && 2 <= n && Queue(heap, n, Keys(freq, depth), pool)
    requires InRange(heap', n - 1, Keys(freq, depth)) && HeapFrom(heap', n - 1, Keys(freq, depth), 1)
    requires Bag(heap', n - 1) == Bag(heap, n) - multiset{heap[1]}
    ensures Lightest(pool, freq, heap[1], heap'[1]) && Lightest(pool, Keys(freq, depth), heap[1], heap'[1])
    ensures Queue(heap', n - 1, Keys(freq, depth), pool - {heap[1]})
  {
    var k, a, b := Keys(freq, depth), heap[1], heap'[1];
    BagHas(heap, n, 1);
    BagHas(heap', n - 1, 1);
    assert multiset(pool) - multiset{a} == multiset(pool - {a});
    assert b in pool - {a};
    forall x | x in pool
      ensures x < |freq| && freq[a] <= freq[x] && k[a] <= k[x]
    {
      var i := BagMember(heap, n, x);
      TopIsSmallest(heap, n, k, i);
    }
    forall x | x in pool && x != a
      ensures freq[b] <= freq[x] && k[b] <= k[x]
    {
      assert x in multiset(pool - {a});
      var i := BagMember(heap', n - 1, x);
      TopIsSmallest(heap', n - 1, k, i);
    }
  }

  /** A change at a node outside the queue does not disturb it. */
  lemma QueueFrame(heap: seq<nat>, heap': seq<nat>, n: nat, k: seq<nat>, k': seq<nat>, pool: set<nat>, node: nat)
    requires Queue(heap, n, k, pool) && |k'| == |k| && node !in pool
    requires forall x :: 0 <= x < |k| && x != node ==> k'[x] == k[x]
    requires n < |heap'| && forall i :: 1 <= i <= n ==> heap'[i] == heap[i]
    ensures Queue(heap', n, k', pool)
  {
    assert heap'[1..n + 1] == heap[1..n + 1];
    forall j | 1 <= j <= n
      ensures heap[j] != node
    {
      BagHas(heap, n, j);
    }
  }

  lemma PoolAsBag(pool: set<nat>, a: nat, b: nat, c: nat)
    requires a in pool && b in pool && a != b && c !in pool
    ensures multiset(pool - {a}) - multiset{b} + multiset{c} == multiset(pool - {a, b} + {c})
  {
    assert multiset(pool - {a}) - multiset{b} == multiset(pool - {a, b});
  }

  lemma GreedyFrame(leaves: set<nat>, elems: nat, ms: seq<Pair>, freq: seq<nat>, a: nat, b: nat, v: nat, i: nat)
    requires Forest(leaves, elems, ms, freq) && i < |ms| && elems + |ms| < |freq|
    ensures GreedyAt(leaves, elems, ms + [(a, b)], freq[elems + |ms| := v], i)
  {
    PoolPrefix(leaves, elems, ms, [(a, b)], i);
    PoolBound(leaves, elems, ms, i);
    assert GreedyAt(leaves, elems, ms, freq, i) && ValidAt(leaves, elems, ms, i);
  }

  /** Recording one more merge of the two lightest nodes. */
  lemma ForestStep(leaves: set<nat>, elems: nat, ms: seq<Pair>, freq: seq<nat>, a: nat, b: nat)
    requires Forest(leaves, elems, ms, freq) && elems + |ms| < |freq|
    requires Lightest(Pool(leaves, elems, ms, |ms|), freq, a, b)
    ensures Forest(leaves, elems, ms + [(a, b)], freq[elems + |ms| := freq[a] + freq[b]])
    ensures Pool(leaves, elems, ms + [(a, b)], |ms| + 1) == Pool(leaves, elems, ms, |ms|) - {a, b} + {elems + |ms|}
    ensures elems + |ms| !in Pool(leaves, elems, ms, |ms|)
  {
    hide Pool;
    ExtendMerges(leaves, elems, ms, a, b);
    PoolBound(leaves, elems, ms, |ms|);
    var ms', freq' := ms + [(a, b)], freq[elems + |ms| := freq[a] + freq[b]];
    forall i | 0 <= i < |ms'|
      ensures GreedyAt(leaves, elems, ms', freq', i)
    {
      if i < |ms| {
        GreedyFrame(leaves, elems, ms, freq, a, b, freq[a] + freq[b], i);
      } else {
        PoolPrefix(leaves, elems, ms, [(a, b)], i);
      }
    }
  }

  lemma RecordedStep(heap: seq<nat>, heap': seq<nat>, dad: seq<nat>, leaves: set<nat>, elems: nat, ms: seq<Pair>,
                     a: nat, b: nat)
    requires Recorded(heap, dad, elems, ms) && 2 * |ms| + 2 <= HEAP_SIZE && |heap'| == HEAP_SIZE
    requires ValidMerges(leaves, elems, ms + [(a, b)]) && a < |dad| && b < |dad|
    requires heap'[HEAP_SIZE - 1 - 2 * |ms|] == a && heap'[HEAP_SIZE - 2 - 2 * |ms|] == b
    requires forall i :: HEAP_SIZE - 2 * |ms| <= i < HEAP_SIZE ==> heap'[i] == heap[i]
    ensures Recorded(heap', dad[a := elems + |ms|][b := elems + |ms|], elems, ms + [(a, b)])
  {
    var ms' := ms + [(a, b)];
    var dad' := dad[a := elems + |ms|][b := elems + |ms|];
    assert NodeAt(ms', 2 * |ms|) == a && NodeAt(ms', 2 * |ms| + 1) == b;
    forall e | 0 <= e < 2 * |ms'|
      ensures heap'[HEAP_SIZE - 1 - e] == NodeAt(ms', e) < |dad'| && dad'[NodeAt(ms', e)] == elems + e / 2
    {
      if e < 2 * |ms| {
        assert NodeAt(ms', e) == NodeAt(ms, e);
        NodesDistinct(leaves, elems, ms', e, 2 * |ms|);
        NodesDistinct(leaves, elems, ms', e, 2 * |ms| + 1);
      }
    }
  }

  /** Create the father of n and m. */
  method JoinNodes(t: CtTree, depth: array<byte>, n: nat, m: nat, node: nat)
    requires t.Shape() && depth.Length == HEAP_SIZE
    requires n < t.freq.Length && m < t.freq.Length && node < t.freq.Length
    modifies t.freq, t.dad, depth
    ensures t.freq[..] == old(t.freq[..])[node := old(t.freq[n] + t.freq[m])]
    ensures t.dad[..] == old(t.dad[..])[n := node][m := node]
    ensures forall x :: 0 <= x < depth.Length && x != node ==> depth[x] == old(depth[x])
    ensures depth[node] == old(Above(depth[n], depth[m]))
  {
    t.freq[node] := t.freq[n] + t.freq[m];
    var deeper: int := if depth[n] >= depth[m] then depth[n] else depth[m];
    depth[node] := (deeper + 1) % 256;
    t.dad[n] := node;
    t.dad[m] := node;
  }

  /** State between two merges, over values. */
  ghost predicate Merging(elems: nat, leaves: set<nat>, ms: seq<Pair>, heap: seq<nat>, freq: seq<nat>, depth: seq<byte>,
                          dad: seq<nat>)
  {
    && |freq| == |dad| == 2 * elems + 1 <= HEAP_SIZE == |depth| && 2 <= |leaves| <= elems && |ms| < |leaves|
    && Forest(leaves, elems, ms, freq) && Recorded(heap, dad, elems, ms)
    && Queue(heap, |leaves| - |ms|, Keys(freq, depth), Pool(leaves, elems, ms, |ms|))
    && TiesBroken(leaves, elems, ms, freq, depth)
  }

  /** heap1 is the heap array after the smallest node is taken off. */
  ghost predicate Taken(heap: seq<nat>, heap1: seq<nat>, n: nat, k: seq<nat>)
    requires 2 <= n < |heap|
  {
    && |heap1| == |heap| && InRange(heap1, n - 1, k) && HeapFrom(heap1, n - 1, k, 1)
    && Bag(heap1, n - 1) == Bag(heap, n) - multiset{heap[1]}
    && forall i :: n < i < |heap| ==> heap1[i] == heap[i]
  }

  /** Taking and joining the two smallest nodes extends the forest. */
  lemma JoinedForest(elems: nat, leaves: set<nat>, ms: seq<Pair>, heap: seq<nat>, freq: seq<nat>, depth: seq<byte>,
                     dad: seq<nat>,
                     heap1: seq<nat>, a: nat, b: nat)
    requires Merging(elems, leaves, ms, heap, freq, depth, dad) && |ms| + 1 < |leaves|
    requires Taken(heap, heap1, |leaves| - |ms|, Keys(freq, depth)) && a == heap[1] && b == heap1[1]
    ensures var c, pool, ms2 := elems + |ms|, Pool(leaves, elems, ms, |ms|), ms + [(a, b)];
            && a < |freq| && b < |freq| && c < |freq| && a in pool && b in pool && a != b && c !in pool
            && Queue(heap1, |leaves| - |ms| - 1, Keys(freq, depth), pool - {a})
            && Forest(leaves, elems, ms2, freq[c := freq[a] + freq[b]])
            && Pool(leaves, elems, ms2, |ms| + 1) == pool - {a, b} + {c}
    ensures Lightest(Pool(leaves, elems, ms, |ms|), Keys(freq, depth), a, b)
  {
    TakenAreLightest(heap, heap1, |leaves| - |ms|, freq, depth, Pool(leaves, elems, ms, |ms|));
    ForestStep(leaves, elems, ms, freq, a, b);
  }

  lemma JoinedQueue(heap1: seq<nat>, heap2: seq<nat>, n: nat, freq: seq<nat>, freq2: seq<nat>, depth: seq<byte>,
                    depth2: seq<byte>,
                    pool: set<nat>, c: nat, k: nat)
    requires |freq| == |freq2| <= |depth| == |depth2| && c !in pool && |heap1| == |heap2| == HEAP_SIZE
    requires Queue(heap1, n, Keys(freq, depth), pool) && n + 2 * k + 2 < HEAP_SIZE
    requires forall x :: 0 <= x < |freq| && x != c ==> freq[x] == freq2[x] && depth[x] == depth2[x]
    requires forall i :: 0 <= i < HEAP_SIZE - 2 - 2 * k ==> heap2[i] == heap1[i]
    ensures Queue(heap2, n, Keys(freq2, depth2), pool)
  {
    QueueFrame(heap1, heap2, n, Keys(freq, depth), Keys(freq2, depth2), pool, c);
  }

  /** Take the two smallest nodes and record them in front of heapMax; the second
      one stays on the queue until its father replaces it. */
  method TakeTwo(heap: array<nat>, freq: array<nat>, depth: array<byte>, heapLen: nat, heapMax: nat)
    returns (n: nat, m: nat, ghost heap1: seq<nat>)
    requires heap != freq && freq.Length <= depth.Length && 2 <= heapLen < heapMax - 2 <= heap.Length - 2
    requires InRange(heap[..], heapLen, Keys(freq[..], depth[..]))
             && HeapFrom(heap[..], heapLen, Keys(freq[..], depth[..]), 1)
    modifies heap
    ensures Taken(old(heap[..]), heap1, heapLen, Keys(freq[..], depth[..])) && n == old(heap[1]) && m == heap1[1]
    ensures heap[..] == heap1[heapMax - 1 := n][heapMax - 2 := m]
  {
    n := PqRemove(heap, heapLen, freq, depth, Keys(freq[..], depth[..]));
    m := heap[1];
    heap1 := heap[..];
    heap[heapMax - 1] := n;
    heap[heapMax - 2] := m;
  }

  /** Between the two halves of a round: the father exists but is not queued yet. */
  ghost predicate Joined(elems: nat, leaves: set<nat>, ms: seq<Pair>, a: nat, b: nat, heap: seq<nat>, freq: seq<nat>,
                         depth: seq<byte>, dad: seq<nat>)
  {
    var pool, ms2, c := Pool(leaves, elems, ms, |ms|), ms + [(a, b)], elems + |ms|;
    && |freq| == |dad| == 2 * elems + 1 <= HEAP_SIZE == |depth| && 2 <= |leaves| <= elems && |ms| + 1 < |leaves|
    && a in pool && b in pool && a != b && c !in pool && Pool(leaves, elems, ms2, |ms| + 1) == pool - {a, b} + {c}
    && Forest(leaves, elems, ms2, freq) && Recorded(heap, dad, elems, ms2)
    && Queue(heap, |leaves| - |ms| - 1, Keys(freq, depth), pool - {a}) && heap[1] == b
    && TiesBroken(leaves, elems, ms2, freq, depth)
  }

  lemma JoinedAll(elems: nat, leaves: set<nat>, ms: seq<Pair>, heap: seq<nat>, freq: seq<nat>, depth: seq<byte>,
                  dad: seq<nat>,
                  heap1: seq<nat>, a: nat, b: nat, heap2: seq<nat>, freq2: seq<nat>, depth2: seq<byte>, dad2: seq<nat>)
    requires Merging(elems, leaves, ms, heap, freq, depth, dad) && |ms| + 1 < |leaves|
    requires Taken(heap, heap1, |leaves| - |ms|, Keys(freq, depth)) && a == heap[1] && b == heap1[1]
    requires a < |freq| && b < |freq| && |depth2| == |depth|
    requires heap2 == heap1[HEAP_SIZE - 2 * |ms| - 1 := a][HEAP_SIZE - 2 * |ms| - 2 := b]
    requires freq2 == freq[elems + |ms| := freq[a] + freq[b]] && dad2 == dad[a := elems + |ms|][b := elems + |ms|]
    requires forall x :: 0 <= x < |depth| && x != elems + |ms| ==> depth2[x] == depth[x]
    requires depth2[elems + |ms|] == Above(depth[a], depth[b])
    ensures Joined(elems, leaves, ms, a, b, heap2, freq2, depth2, dad2)
  {
    hide TieAt, Lightest;
    JoinedForest(elems, leaves, ms, heap, freq, depth, dad, heap1, a, b);
    TieStep(leaves, elems, ms, freq, depth, a, b, freq2, depth2, elems + |ms|);
    var c, pool := elems + |ms|, Pool(leaves, elems, ms, |ms|);
    JoinedQueue(heap1, heap2, |leaves| - |ms| - 1, freq, freq2, depth, depth2, pool - {a}, c, |ms|);
    RecordedStep(heap, heap2, dad, leaves, elems, ms, a, b);
  }

  /** First half of a round: take the two smallest nodes, record and join them. */
  method TakeAndJoin(t: CtTree, heap: array<nat>, depth: array<byte>, heapLen: nat, heapMax: nat, node: nat,
                     ghost leaves: set<nat>, ghost ms: seq<Pair>) returns (ghost n: nat, ghost m: nat)
    requires t.Shape() && heap.Length == depth.Length == HEAP_SIZE && heap != t.freq && heap != t.dad
    requires Merging(t.elems, leaves, ms, heap[..], t.freq[..], depth[..], t.dad[..]) && |ms| + 1 < |leaves|
    requires heapLen == |leaves| - |ms| && heapMax == HEAP_SIZE - 2 * |ms| && node == t.elems + |ms|
    modifies heap, t.freq, t.dad, depth
    ensures Joined(t.elems, leaves, ms, n, m, heap[..], t.freq[..], depth[..], t.dad[..])
    ensures forall x :: 0 <= x < t.elems ==> t.freq[x] == old(t.freq[x])
  {
    ghost var heap0, freq0, depth0, dad0 := heap[..], t.freq[..], depth[..], t.dad[..];
    ghost var heap1;
    n, m, heap1 := TakeJoin(t, heap, depth, heapLen, heapMax, node);
    JoinedAll(t.elems, leaves, ms, heap0, freq0, depth0, dad0, heap1, n, m, heap[..], t.freq[..], depth[..], t.dad[..]);
  }

  method TakeJoin(t: CtTree, heap: array<nat>, depth: array<byte>, heapLen: nat, heapMax: nat, node: nat)
    returns (ghost a: nat, ghost b: nat, ghost heap1: seq<nat>)
    requires t.Shape() && heap.Length == depth.Length == HEAP_SIZE && heap != t.freq && heap != t.dad
    requires 2 <= heapLen < heapMax - 2 <= HEAP_SIZE - 2 && t.elems <= node < t.freq.Length
    requires InRange(heap[..], heapLen, Keys(t.freq[..], depth[..]))
    requires HeapFrom(heap[..], heapLen, Keys(t.freq[..], depth[..]), 1)
    modifies heap, t.freq, t.dad, depth
    ensures Taken(old(heap[..]), heap1, heapLen, Keys(old(t.freq[..]), old(depth[..]))) && a == old(heap[1])
            && b == heap1[1]
    ensures heap[..] == heap1[heapMax - 1 := a][heapMax - 2 := b]
    ensures a < t.freq.Length && b < t.freq.Length
    ensures t.freq[..] == old(t.freq[..])[node := old(t.freq[..])[a] + old(t.freq[..])[b]]
    ensures t.dad[..] == old(t.dad[..])[a := node][b := node]
    ensures forall x :: 0 <= x < depth.Length && x != node ==> depth[x] == old(depth[x])
    ensures depth[node] == Above(old(depth[..])[a], old(depth[..])[b])
  {
    var n, m;
    n, m, heap1 := TakeTwo(heap, t.freq, depth, heapLen, heapMax);
    JoinNodes(t, depth, n, m, node);
    a, b := n, m;
  }

  /** Second half: the father goes on the queue. */
  method QueueFather(t: CtTree, heap: array<nat>, depth: array<byte>, heapLen: nat, node: nat,
                     ghost leaves: set<nat>, ghost ms: seq<Pair>, ghost n: nat, ghost m: nat)
    requires t.Shape() && heap.Length == depth.Length == HEAP_SIZE && heap != t.freq && heap != t.dad
    requires Joined(t.elems, leaves, ms, n, m, heap[..], t.freq[..], depth[..], t.dad[..])
    requires heapLen == |leaves| - |ms| - 1 && node == t.elems + |ms|
    modifies heap
    ensures Merging(t.elems, leaves, ms + [(n, m)], heap[..], t.freq[..], depth[..], t.dad[..])
  {
    ghost var heap2 := heap[..];
    ReplaceTop(heap, heapLen, t.freq, depth, node, Keys(t.freq[..], depth[..]));
    PoolAsBag(Pool(leaves, t.elems, ms, |ms|), n, m, node);
    RecordedFrame(heap2, heap[..], t.dad[..], t.elems, ms + [(n, m)], heapLen);
  }

  /** The loop: merge until one node is left. */
  method MergeAll(t: CtTree, heap: array<nat>, depth: array<byte>, count: nat, ghost leaves: set<nat>)
    returns (heapMax: nat, ghost ms: seq<Pair>)
    requires t.Shape() && heap.Length == depth.Length == HEAP_SIZE && heap != t.freq && heap != t.dad
    requires Merging(t.elems, leaves, [], heap[..], t.freq[..], depth[..], t.dad[..]) && count == |leaves|
    modifies heap, t.freq, t.dad, depth
    ensures |ms| == |leaves| - 1 && heapMax == HEAP_SIZE - 2 * |ms|
    ensures Merging(t.elems, leaves, ms, heap[..], t.freq[..], depth[..], t.dad[..])
    ensures forall x :: 0 <= x < t.elems ==> t.freq[x] == old(t.freq[x])
  {
    var heapLen, node := count, t.elems;
    heapMax := HEAP_SIZE;
    ms := [];
    while heapLen >= 2
      invariant 1 <= heapLen == |leaves| - |ms| && heapMax == HEAP_SIZE - 2 * |ms| && node == t.elems + |ms|
      invariant Merging(t.elems, leaves, ms, heap[..], t.freq[..], depth[..], t.dad[..])
      invariant forall x :: 0 <= x < t.elems ==> t.freq[x] == old(t.freq[x])
    {
      ghost var n, m := TakeAndJoin(t, heap, depth, heapLen, heapMax, node, leaves, ms);
      QueueFather(t, heap, depth, heapLen - 1, node, leaves, ms, n, m);
      ms := ms + [(n, m)];
      heapLen, heapMax, node := heapLen - 1, heapMax - 2, node + 1;
    }
  }

  lemma RecordedFrame(heap: seq<nat>, heap': seq<nat>, dad: seq<nat>, elems: nat, ms: seq<Pair>, n: nat)
    requires Recorded(heap, dad, elems, ms) && |heap'| == |heap| && n + 2 * |ms| < HEAP_SIZE
    requires forall i :: n < i < HEAP_SIZE ==> heap'[i] == heap[i]
    ensures Recorded(heap', dad, elems, ms)
  {
  }
}
