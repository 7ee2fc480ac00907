/** build_tree of gzip.c: one Huffman tree, from symbol frequencies to lengths and
    codes. */
module BuildTree {
  import opened Bits
  import opened Sums
  import opened Merges
  import opened HuffmanOptimal
  import opened PqHeap
  import opened MergeLoop
  import opened Weights
  import opened Canonical
  import opened GenCodes
  import opened LengthRepair
  import opened GenBitlen
  import opened Reassign
  import opened BitLengths

  /** Symbols below n that occur. */
  ghost function Used(freq: seq<nat>, n: nat): (s: set<nat>)
    requires n <= |freq|
  {
    set x: nat | x < n && freq[x] != 0
  }

  /** max is the largest member of s, or -1. */
  ghost predicate Largest(max: int, s: set<nat>)
  {
    -1 <= max && (max >= 0 ==> max in s) && forall x :: x in s ==> x <= max
  }

  // ---- The initial heap ----

  lemma BagPush(heap: seq<nat>, n: nat, v: nat, s: set<nat>)
    requires n + 1 < |heap| && Bag(heap, n) == multiset(s) && v !in s
    ensures Bag(heap[n + 1 := v], n + 1) == multiset(s + {v})
  {
    var heap' := heap[n + 1 := v];
    assert heap'[1..n + 1] == heap[1..n + 1];
    BagShrink(heap', n + 1);
    assert multiset(s + {v}) == multiset(s) + multiset{v};
  }

  /** The queue holds the symbols below n that occur, and maxCode is the last of them. */
  ghost predicate Collected(freq: seq<nat>, heap: seq<nat>, heapLen: nat, maxCode: int, n: nat)
  {
    && n <= |freq| && heapLen <= n && heapLen < |heap|
    && Bag(heap, heapLen) == multiset(Used(freq, n)) && |Used(freq, n)| == heapLen
    && Largest(maxCode, Used(freq, n))
  }

  lemma CollectedStep(freq: seq<nat>, heap: seq<nat>, heapLen: nat, maxCode: int, n: nat)
    requires Collected(freq, heap, heapLen, maxCode, n) && n < |freq| && heapLen + 1 < |heap|
    ensures freq[n] == 0 ==> Collected(freq, heap, heapLen, maxCode, n + 1)
    ensures freq[n] != 0 ==> Collected(freq, heap[heapLen + 1 := n], heapLen + 1, n, n + 1)
  {
    if freq[n] != 0 {
      assert Used(freq, n + 1) == Used(freq, n) + {n};
      BagPush(heap, heapLen, n, Used(freq, n));
    } else {
      assert Used(freq, n + 1) == Used(freq, n);
    }
  }

  lemma CollectedNone(freq: seq<nat>, heap: seq<nat>)
    requires 0 < |heap|
    ensures Collected(freq, heap, 0, -1, 0)
  {
    assert heap[1..1] == [];
  }

  /** The symbols below n that occur are subtrees of depth 0. */
  ghost predicate Flat(depth: seq<byte>, freq: seq<nat>, n: nat)
  {
    n <= |freq| && n <= |depth| && forall x :: 0 <= x < n && freq[x] != 0 ==> depth[x] == 0
  }

  /** Put the symbols that occur on the heap; clear the lengths of the others. */
  method CollectSymbols(t: CtTree, heap: array<nat>, depth: array<byte>) returns (heapLen: nat, maxCode: int)
    requires t.Shape() && heap.Length == depth.Length == HEAP_SIZE && heap != t.freq && heap != t.len
    modifies heap, depth, t.len
    ensures Collected(t.freq[..], heap[..], heapLen, maxCode, t.elems)
    ensures forall x :: 0 <= x < t.elems && t.freq[x] == 0 ==> t.len[x] == 0
    ensures Flat(depth[..], t.freq[..], t.elems)
  {
    hide Used, Largest, Bag;
    heapLen, maxCode := 0, -1;
    CollectedNone(t.freq[..], heap[..]);
    var n := 0;
    while n < t.elems
      invariant 0 <= n <= t.elems
      invariant Collected(t.freq[..], heap[..], heapLen, maxCode, n)
      invariant forall x :: 0 <= x < n && t.freq[x] == 0 ==> t.len[x] == 0
      invariant Flat(depth[..], t.freq[..], n)
    {
      CollectedStep(t.freq[..], heap[..], heapLen, maxCode, n);
      heapLen, maxCode := CollectOne(t, heap, depth, n, heapLen, maxCode);
      n := n + 1;
    }
  }

  method CollectOne(t: CtTree, heap: array<nat>, depth: array<byte>, n: nat, heapLen: nat, maxCode: int)
    returns (heapLen': nat, maxCode': int)
    requires t.Shape() && heap.Length == depth.Length == HEAP_SIZE && heap != t.freq && heap != t.len
    requires heapLen <= n < t.elems
    modifies heap, depth, t.len
    ensures t.freq[n] != 0 ==> heap[..] == old(heap[..])[heapLen + 1 := n] && heapLen' == heapLen + 1 && maxCode' == n
    ensures t.freq[n] == 0 ==> heap[..] == old(heap[..]) && heapLen' == heapLen && maxCode' == maxCode && t.len[n] == 0
    ensures forall x :: 0 <= x < t.len.Length && x != n ==> t.len[x] == old(t.len[x])
    ensures t.freq[n] != 0 ==> depth[n] == 0
    ensures forall x :: 0 <= x < depth.Length && x != n ==> depth[x] == old(depth[x])
  {
    heapLen', maxCode' := heapLen, maxCode;
    if t.freq[n] != 0 {
      heapLen' := heapLen + 1;
      heap[heapLen'] := n;
      maxCode' := n;
      depth[n] := 0;
    } else {
      t.len[n] := 0;
    }
  }

  /** freq is freq0 with frequency 1 for the symbols of `forced`, which did not occur. */
  ghost predicate Forced(elems: nat, freq0: seq<nat>, freq: seq<nat>, forced: set<nat>)
  {
    && |freq| == |freq0| && elems <= |freq|
    && Used(freq, elems) == Used(freq0, elems) + forced && Used(freq0, elems) !! forced
    && (forall x :: x in forced ==> x < 3 && x < |freq| && freq[x] == 1)
    && (forall x :: 0 <= x < elems && x !in forced ==> freq[x] == freq0[x])
  }

  /** The symbols that are forced when only those of s occur: the one behind a single 0 or
      1, else 0, and both of them for a tree without symbols. */
  ghost function ForcedFor(s: set<nat>): (f: set<nat>)
  {
    if |s| >= 2 then {} else if s == {} then {0, 1} else if s == {0} then {1} else if s == {1} then {2} else {0}
  }

  /** One more symbol is forced; max is the largest that occurs. */
  lemma ForcedNext(s: set<nat>, forced: set<nat>, max: int, new_: nat)
    requires Largest(max, s + forced) && |s + forced| < 2 && new_ == (if max < 2 then max + 1 else 0)
    requires forced == {} || (s == {} && forced == {0})
    ensures if s == {} && forced == {} then new_ == 0 else forced + {new_} == ForcedFor(s)
  {
    if s + forced == {} {
    } else {
      OnlyMember(s + forced, max);
      if forced == {} { assert s + forced == s; }
    }
  }

  /** The symbols forced so far, when fewer than two codes are there. */
  ghost predicate ForcedSoFar(s: set<nat>, forced: set<nat>)
  {
    forced == {} || (s == {} && forced == {0})
  }

  lemma ForceDecides(elems: nat, freq0: seq<nat>, freq: seq<nat>, forced: set<nat>, heap: seq<nat>, heapLen: nat,
                     maxCode: int, new_: nat)
    requires Collected(freq, heap, heapLen, maxCode, elems) && Forced(elems, freq0, freq, forced) && heapLen < 2
    requires new_ == (if maxCode < 2 then maxCode + 1 else 0) && ForcedSoFar(Used(freq0, elems), forced)
    ensures if heapLen == 1 then forced + {new_} == ForcedFor(Used(freq0, elems))
            else ForcedSoFar(Used(freq0, elems), forced + {new_})
  {
    hide Used, Bag, Largest;
    ForcedNext(Used(freq0, elems), forced, maxCode, new_);
    assert heapLen == 0 ==> Used(freq0, elems) + forced == {};
  }

  lemma NoneForced(freq: seq<nat>, heap: seq<nat>, heapLen: nat, maxCode: int, elems: nat)
    requires Collected(freq, heap, heapLen, maxCode, elems)
    ensures -1 <= maxCode && ForcedSoFar(Used(freq, elems), {}) && Forced(elems, freq, freq, {})
            && (heapLen >= 2 ==> ForcedFor(Used(freq, elems)) == {})
  {
  }

  lemma OnlyMember(s: set<nat>, max: int)
    requires Largest(max, s) && s != {} && |s| < 2
    ensures 0 <= max && s == {max as nat}
  {
    assert |s - {max}| == |s| - 1;
    assert s - {max} == {};
  }

  /** The symbol forced next does not occur yet. */
  lemma ForcedIsNew(freq: seq<nat>, heap: seq<nat>, heapLen: nat, maxCode: int, elems: nat, new_: nat)
    requires 3 <= elems && Collected(freq, heap, heapLen, maxCode, elems) && heapLen < 2
    requires new_ == if maxCode < 2 then maxCode + 1 else 0
    ensures new_ < 3 && new_ !in Used(freq, elems)
    ensures Largest(if maxCode < 2 then maxCode + 1 else maxCode, Used(freq, elems) + {new_})
  {
    if maxCode >= 2 {
      OneElement(Used(freq, elems), maxCode);
    }
  }

  lemma UsedUpdate(freq: seq<nat>, n: nat, x: nat, v: nat)
    requires x < n <= |freq| && v != 0
    ensures Used(freq[x := v], n) == Used(freq, n) + {x}
  {
  }

  lemma ForcedStep(elems: nat, freq0: seq<nat>, freq: seq<nat>, forced: set<nat>, new_: nat)
    requires Forced(elems, freq0, freq, forced) && new_ < 3 <= elems && new_ !in Used(freq, elems)
    ensures new_ !in forced && Forced(elems, freq0, freq[new_ := 1], forced + {new_})
  {
    UsedUpdate(freq, elems, new_, 1);
    assert freq[new_] == 0;
  }

  lemma CollectedForce(freq: seq<nat>, heap: seq<nat>, heapLen: nat, maxCode: int, elems: nat, new_: nat)
    requires 3 <= elems < |heap| && Collected(freq, heap, heapLen, maxCode, elems) && heapLen < 2
    requires new_ == if maxCode < 2 then maxCode + 1 else 0
    ensures new_ < 3 && new_ !in Used(freq, elems)
    ensures Collected(freq[new_ := 1], heap[heapLen + 1 := new_], heapLen + 1,
                      if maxCode < 2 then maxCode + 1 else maxCode, elems)
  {
    ForcedIsNew(freq, heap, heapLen, maxCode, elems, new_);
    UsedUpdate(freq, elems, new_, 1);
    BagPush(heap, heapLen, new_, Used(freq, elems));
  }

  /** What the forced symbols would add to the static cost. */
  ghost function StaticOf(stree: seq<nat>): nat -> int
  {
    (x: nat) => if x < |stree| then stree[x] else 0
  }

  /** Force one more code, of the smallest symbol that is not there. */
  method ForceOne(t: CtTree, heap: array<nat>, depth: array<byte>, heapLen: nat, maxCode: int, new_: nat)
    returns (stat: int)
    requires t.Shape() && heap.Length == depth.Length == HEAP_SIZE && heap != t.freq && heapLen < 2 && new_ < 3
    modifies heap, depth, t.freq
    ensures heap[..] == old(heap[..])[heapLen + 1 := new_] && t.freq[..] == old(t.freq[..])[new_ := 1]
    ensures stat == -StaticOf(t.staticLen)(new_) && depth[..] == old(depth[..])[new_ := 0]
  {
    heap[heapLen + 1] := new_;
    t.freq[new_] := 1;
    depth[new_] := 0;
    stat := 0;
    if t.staticLen != [] {
      var l: int := t.staticLen[new_];
      stat := -l;
    }
  }

  /** Force at least two codes of non-zero frequency. */
  method ForceCodes(t: CtTree, heap: array<nat>, depth: array<byte>, heapLen0: nat, maxCode0: int)
    returns (heapLen: nat, maxCode: int, opt: int, stat: int, ghost forced: set<nat>)
    requires t.Shape() && heap.Length == depth.Length == HEAP_SIZE && heap != t.freq
    requires Collected(t.freq[..], heap[..], heapLen0, maxCode0, t.elems)
    modifies heap, depth, t.freq
    ensures 2 <= heapLen && Collected(t.freq[..], heap[..], heapLen, maxCode, t.elems)
    ensures Forced(t.elems, old(t.freq[..]), t.freq[..], forced) && (forced != {} ==> heapLen == 2)
    ensures opt == -|forced| && stat == -Sum(t.elems, forced, StaticOf(t.staticLen))
    ensures forced == ForcedFor(Used(old(t.freq[..]), t.elems))
    ensures old(Flat(depth[..], t.freq[..], t.elems)) ==> Flat(depth[..], t.freq[..], t.elems)
  {
    hide Collected, Used, ForcedFor, ForcedSoFar, Forced, StaticOf, Sum;
    ghost var s0 := Used(t.freq[..], t.elems);
    NoneForced(t.freq[..], heap[..], heapLen0, maxCode0, t.elems);
    heapLen, maxCode, opt, stat, forced := heapLen0, maxCode0, 0, 0, {};
    SumEmpty(t.elems, StaticOf(t.staticLen));
    while heapLen < 2
      invariant Collected(t.freq[..], heap[..], heapLen, maxCode, t.elems)
      invariant Forced(t.elems, old(t.freq[..]), t.freq[..], forced) && (forced != {} ==> heapLen <= 2)
      invariant opt == -|forced| && stat == -Sum(t.elems, forced, StaticOf(t.staticLen))
      invariant old(Flat(depth[..], t.freq[..], t.elems)) ==> Flat(depth[..], t.freq[..], t.elems)
      invariant -1 <= maxCode && if heapLen >= 2 then forced == ForcedFor(s0) else ForcedSoFar(s0, forced)
    {
      var new_ := if maxCode < 2 then maxCode + 1 else 0;
      CollectedForce(t.freq[..], heap[..], heapLen, maxCode, t.elems, new_);
      ForceDecides(t.elems, old(t.freq[..]), t.freq[..], forced, heap[..], heapLen, maxCode, new_);
      ForcedStep(t.elems, old(t.freq[..]), t.freq[..], forced, new_);
      SumAdd(t.elems, forced, new_, StaticOf(t.staticLen));
      var s := ForceOne(t, heap, depth, heapLen, maxCode, new_);
      if maxCode < 2 { maxCode := new_; }
      heapLen, opt, stat, forced := heapLen + 1, opt - 1, stat + s, forced + {new_};
    }
  }

  /** Establish sub-heaps of increasing size. */
  method Heapify(heap: array<nat>, n: nat, freq: array<nat>, depth: array<byte>, ghost k: seq<nat>)
    requires heap != freq && n < heap.Length && freq.Length <= depth.Length && k == Keys(freq[..], depth[..])
    requires InRange(heap[..], n, k)
    modifies heap
    ensures InRange(heap[..], n, k) && HeapFrom(heap[..], n, k, 1) && Bag(heap[..], n) == old(Bag(heap[..], n))
  {
    var i := n / 2;
    while i >= 1
      invariant 0 <= i <= n / 2 && InRange(heap[..], n, k) && HeapFrom(heap[..], n, k, i + 1)
      invariant Bag(heap[..], n) == old(Bag(heap[..], n))
    {
      PqDownHeap(heap, n, freq, depth, i, k);
      i := i - 1;
    }
  }

  // ---- Costs of forced symbols ----

  /** When codes were forced there are two leaves, each with a one-bit code. */
  lemma TwoLeaves(leaves: set<nat>, len: seq<nat>, bl: seq<nat>, max: nat, x: nat)
    requires Complete(leaves, len, bl, max) && 1 <= max && |leaves| == 2 && x in leaves
    ensures len[x] == 1
  {
    hide Pow2, Units;
    var y :| y in leaves - {x};
    OneElement(leaves - {x}, y);
    UnitsOfSet(|len|, leaves, len, bl, max);
    SumRemove(|len|, leaves, x, Weight(len, max));
    SumOne(|len|, y, Weight(len, max));
    TwoHalves(max, len[x], len[y]);
  }

  /** Two powers of two below 2^max that add up to it are its halves. */
  lemma TwoHalves(max: nat, a: nat, b: nat)
    requires 1 <= a <= max && 1 <= b <= max && Pow2(max - a) + Pow2(max - b) == Pow2(max)
    ensures a == 1
  {
    Pow2Monotone(max - a, max - 1);
    Pow2Monotone(max - b, max - 1);
    if a > 1 { Pow2Monotone(max - a, max - 2); }
  }

  lemma ForcedAddOne(leaves: set<nat>, freq: seq<nat>, len: seq<nat>, bl: seq<nat>, xs: seq<nat>, max: nat,
                     forced: set<nat>, n: nat)
    requires Complete(leaves, len, bl, max) && 1 <= max && forced <= leaves && (forced != {} ==> |leaves| == 2)
    requires n <= |freq| && n <= |len| && n <= |xs| && forall x :: x in forced ==> x < n && freq[x] == 1 && xs[x] == 0
    ensures Sum(n, forced, BitCost(freq, len, xs)) == |forced|
  {
    forall x | x in forced ensures BitCost(freq, len, xs)(x) == 1 {
      TwoLeaves(leaves, len, bl, max, x);
    }
    SumCongruent(n, forced, forced, BitCost(freq, len, xs), One());
    SizeIsSum(n, forced);
  }

  lemma CostWithoutForced(elems: nat, freq0: seq<nat>, freq: seq<nat>, len: seq<nat>, xs: seq<nat>, forced: set<nat>)
    requires Forced(elems, freq0, freq, forced) && |len| == |freq|
    ensures Sum(|len|, Used(freq, elems), BitCost(freq, len, xs))
         == Sum(elems, Used(freq0, elems), BitCost(freq0, len, xs)) + Sum(elems, forced, BitCost(freq, len, xs))
  {
    SumBeyond(elems, |len|, Used(freq, elems), BitCost(freq, len, xs));
    SumUnion(elems, Used(freq0, elems), forced, BitCost(freq, len, xs));
    SumCongruent(elems, Used(freq0, elems), Used(freq0, elems), BitCost(freq, len, xs), BitCost(freq0, len, xs));
  }

  /** Bits the block really spends on the symbols of freq0. */
  ghost function BlockCost(freq0: seq<nat>, len: seq<nat>, xs: seq<nat>, elems: nat): (c: int)
    requires elems <= |freq0|
  {
    Sum(elems, Used(freq0, elems), BitCost(freq0, len, xs))
  }

  /** The corrections made when codes are forced cancel exactly what the forced
      symbols are counted for. */
  lemma OptCostExact(t: CtTree, freq0: seq<nat>, freq: seq<nat>, len: seq<nat>, bl: seq<nat>, forced: set<nat>,
                     opt: int, stat: int)
    requires t.Shape() && |freq0| == t.freq.Length && Forced(t.elems, freq0, freq, forced) && |len| == |freq|
    requires Complete(Used(freq, t.elems), len, bl, t.maxLength) && (forced != {} ==> |Used(freq, t.elems)| == 2)
    requires Costed(freq, len, t.Extras(), t.staticLen, Used(freq, t.elems), opt, stat)
    ensures opt - |forced| == BlockCost(freq0, len, t.Extras(), t.elems)
  {
    hide Complete;
    ForcedAddOne(Used(freq, t.elems), freq, len, bl, t.Extras(), t.maxLength, forced, t.elems);
    CostWithoutForced(t.elems, freq0, freq, len, t.Extras(), forced);
  }

  lemma StatCostExact(t: CtTree, freq0: seq<nat>, freq: seq<nat>, len: seq<nat>, forced: set<nat>, opt: int, stat: int)
    requires t.Shape() && |freq0| == t.freq.Length && Forced(t.elems, freq0, freq, forced) && |len| == |freq|
    requires Costed(freq, len, t.Extras(), t.staticLen, Used(freq, t.elems), opt, stat)
    ensures stat - Sum(t.elems, forced, StaticOf(t.staticLen)) == BlockCost(freq0, t.staticLen, t.Extras(), t.elems)
  {
    var xs, sl := t.Extras(), t.staticLen;
    if sl == [] {
      SumZero(t.elems, forced, StaticOf(sl));
      SumZero(t.elems, Used(freq0, t.elems), BitCost(freq0, sl, xs));
    } else {
      SumBeyond(t.elems, |len|, Used(freq, t.elems), BitCost(freq, sl, xs));
      SumUnion(t.elems, Used(freq0, t.elems), forced, BitCost(freq, sl, xs));
      SumCongruent(t.elems, Used(freq0, t.elems), Used(freq0, t.elems), BitCost(freq, sl, xs), BitCost(freq0, sl, xs));
      SumCongruent(t.elems, forced, forced, BitCost(freq, sl, xs), StaticOf(sl));
    }
  }

  // ---- The weight of the nodes ----

  /** Forcing codes adds at most one for each. */
  lemma ForcedTotal(elems: nat, freq0: seq<nat>, freq: seq<nat>, forced: set<nat>)
    requires Forced(elems, freq0, freq, forced) && 3 <= elems
    ensures Sum(|freq|, Used(freq, elems), Of(freq)) == Sum(elems, Used(freq0, elems), Of(freq0)) + |forced|
  {
    var used0 := Used(freq0, elems);
    SumBeyond(elems, |freq|, Used(freq, elems), Of(freq));
    SumUnion(elems, used0, forced, Of(freq));
    SumCongruent(elems, used0, used0, Of(freq), Of(freq0));
    SumCongruent(elems, forced, forced, Of(freq), One());
    SizeIsSum(elems, forced);
  }

  lemma {:induction false} TotalIsSum(freq: seq<nat>, elems: nat, n: nat)
    requires n <= elems <= |freq|
    ensures Sum(n, Used(freq, elems), Of(freq)) == TotalOf(freq[..n])
    decreases n
  {
    if n > 0 {
      TotalIsSum(freq, elems, n - 1);
      assert freq[..n][..n - 1] == freq[..n - 1];
    }
  }

  /** The node frequencies of a tree stay below the number of symbols counted, plus two for
      forced codes. */
  lemma NodesFit(elems: nat, freq0: seq<nat>, freq: seq<nat>, forced: set<nat>, ms: seq<Pair>, i: nat)
    requires Forced(elems, freq0, freq, forced) && 3 <= elems && (forced != {} ==> |Used(freq, elems)| == 2)
    requires Forest(Used(freq, elems), elems, ms, freq) && i < |ms| == |Used(freq, elems)| - 1
    ensures elems + i < |freq| && freq[elems + i] <= TotalOf(freq0[..elems]) + 2
  {
    hide Forest, TotalOf;
    NodeBelowTotal(Used(freq, elems), elems, ms, freq, i);
    ForcedTotal(elems, freq0, freq, forced);
    TotalIsSum(freq0, elems, elems);
    if forced != {} { Subsets(Used(freq0, elems), forced); }
  }

  lemma Subsets(a: set<nat>, b: set<nat>)
    requires a !! b
    ensures |a + b| == |a| + |b|
  {
  }

  /** All frequencies of the tree, those of its nodes included, are at most `bound`. */
  ghost predicate Within(freq: seq<nat>, elems: nat, bound: nat)
    requires elems <= |freq|
  {
    var n := elems + |Used(freq, elems)| - 1;
    n <= |freq| && forall x {:trigger freq[x]} :: 0 <= x < n ==> freq[x] <= bound
  }

  /** The symbols counted, and two for forced codes, bound them. */
  lemma AllWithin(elems: nat, freq0: seq<nat>, freq: seq<nat>, forced: set<nat>, ms: seq<Pair>)
    requires Forced(elems, freq0, freq, forced) && 3 <= elems && (forced != {} ==> |Used(freq, elems)| == 2)
    requires Forest(Used(freq, elems), elems, ms, freq) && |ms| == |Used(freq, elems)| - 1
    ensures Within(freq, elems, TotalOf(freq0[..elems]) + 2)
  {
    hide Forest, TotalOf, Used;
    var total := TotalOf(freq0[..elems]);
    if |ms| > 0 { NodesFit(elems, freq0, freq, forced, ms, |ms| - 1); }
    forall x {:trigger freq[x]} | 0 <= x < elems + |ms| ensures freq[x] <= total + 2 {
      if x < elems {
        PartOfTotal(freq0[..elems], x);
        assert freq0[..elems][x] == freq0[x];
      } else {
        NodesFit(elems, freq0, freq, forced, ms, x - elems);
      }
    }
  }

  // ---- The tree ----

  lemma CollectedInRange(freq: seq<nat>, heap: seq<nat>, heapLen: nat, maxCode: int, elems: nat, k: seq<nat>)
    requires Collected(freq, heap, heapLen, maxCode, elems) && |k| == |freq|
    ensures InRange(heap, heapLen, k)
  {
    forall j | 1 <= j <= heapLen ensures heap[j] < |k| {
      BagHas(heap, heapLen, j);
    }
  }

  lemma StartMerging(elems: nat, freq: seq<nat>, heap: seq<nat>, depth: seq<byte>, dad: seq<nat>, heapLen: nat)
    requires |freq| == |dad| == 2 * elems + 1 <= HEAP_SIZE == |depth| == |heap|
    requires InRange(heap, heapLen, Keys(freq, depth)) && HeapFrom(heap, heapLen, Keys(freq, depth), 1)
    requires Bag(heap, heapLen) == multiset(Used(freq, elems)) && 2 <= |Used(freq, elems)| == heapLen <= elems
    requires Flat(depth, freq, elems)
    ensures Merging(elems, Used(freq, elems), [], heap, freq, depth, dad)
  {
  }

  lemma FinishMerging(elems: nat, leaves: set<nat>, ms: seq<Pair>, heap: seq<nat>, freq: seq<nat>, depth: seq<byte>,
                      dad: seq<nat>)
    requires Merging(elems, leaves, ms, heap, freq, depth, dad) && |ms| == |leaves| - 1
    ensures heap[1] == elems + |ms| - 1
    ensures Ordered(heap[HEAP_SIZE - 2 * |ms| - 1 := heap[1]], dad, HEAP_SIZE - 2 * |ms| - 1, elems, ms)
  {
    RootPool(leaves, elems, ms);
    BagHas(heap, 1, 1);
  }

  /** From frequencies to a finished tree. */
  method MakeForest(t: CtTree, heap: array<nat>, depth: array<byte>)
    returns (heapMax: nat, opt: int, stat: int, ghost ms: seq<Pair>, ghost forced: set<nat>)
    requires t.Shape() && heap.Length == depth.Length == HEAP_SIZE
    requires heap != t.freq && heap != t.len && heap != t.dad
    modifies heap, depth, t, t.freq, t.dad, t.len
    ensures Ready(t, heap[..], heapMax, Used(t.freq[..], t.elems), ms) && t.maxCode in Used(t.freq[..], t.elems)
    ensures Forest(Used(t.freq[..], t.elems), t.elems, ms, t.freq[..])
    ensures Forced(t.elems, old(t.freq[..]), t.freq[..], forced) && (forced != {} ==> |Used(t.freq[..], t.elems)| == 2)
    ensures opt == -|forced| && stat == -Sum(t.elems, forced, StaticOf(t.staticLen))
    ensures forall x :: 0 <= x < t.elems && old(t.freq[x]) == 0 ==> t.len[x] == 0
  {
    hide Ready, Forest, Forced, Collected, Used, ForcedFor, Largest, StaticOf;
    ghost var freq0 := t.freq[..];
    var heapLen, maxCode := CollectSymbols(t, heap, depth);
    heapLen, maxCode, opt, stat, forced := ForceCodes(t, heap, depth, heapLen, maxCode);
    ghost var freq1, leaves := t.freq[..], Used(t.freq[..], t.elems);
    LargestExists(freq1, heap[..], heapLen, maxCode, t.elems);
    t.maxCode := maxCode;
    ms, heapMax := MergeQueue(t, heap, depth, heapLen, maxCode);
    UsedFrame(freq1, t.freq[..], t.elems);
    ForcedFrame(t.elems, freq0, freq1, t.freq[..], forced);
  }

  lemma ForcedFrame(elems: nat, freq0: seq<nat>, freq: seq<nat>, freq': seq<nat>, forced: set<nat>)
    requires Forced(elems, freq0, freq, forced) && |freq'| == |freq|
             && forall x :: 0 <= x < elems ==> freq[x] == freq'[x]
    requires 3 <= elems
    ensures Forced(elems, freq0, freq', forced)
  {
    UsedFrame(freq, freq', elems);
  }

  lemma LargestExists(freq: seq<nat>, heap: seq<nat>, heapLen: nat, max: int, elems: nat)
    requires Collected(freq, heap, heapLen, max, elems) && heapLen > 0
    ensures 0 <= max < elems && max in Used(freq, elems) && |Used(freq, elems)| == heapLen
  {
    var x :| x in Used(freq, elems);
  }

  lemma UsedFrame(freq: seq<nat>, freq': seq<nat>, elems: nat)
    requires elems <= |freq| == |freq'| && forall x :: 0 <= x < elems ==> freq[x] == freq'[x]
    ensures Used(freq, elems) == Used(freq', elems)
  {
  }

  /** Order the queue and merge it down to the root, which goes in front. */
  method MergeQueue(t: CtTree, heap: array<nat>, depth: array<byte>, heapLen: nat, ghost maxCode: int)
    returns (ghost ms: seq<Pair>, heapMax: nat)
    requires t.Shape() && heap.Length == depth.Length == HEAP_SIZE && heap != t.freq && heap != t.dad
    requires 2 <= heapLen && Collected(t.freq[..], heap[..], heapLen, maxCode, t.elems) && t.maxCode == maxCode
    requires Flat(depth[..], t.freq[..], t.elems)
    modifies heap, depth, t.freq, t.dad
    ensures Ready(t, heap[..], heapMax, old(Used(t.freq[..], t.elems)), ms)
    ensures Forest(old(Used(t.freq[..], t.elems)), t.elems, ms, t.freq[..])
    ensures forall x :: 0 <= x < t.elems ==> t.freq[x] == old(t.freq[x])
  {
    ghost var leaves, k := Used(t.freq[..], t.elems), Keys(t.freq[..], depth[..]);
    CollectedInRange(t.freq[..], heap[..], heapLen, maxCode, t.elems, k);
    Heapify(heap, heapLen, t.freq, depth, k);
    StartMerging(t.elems, t.freq[..], heap[..], depth[..], t.dad[..], heapLen);
    heapMax, ms := MergeAll(t, heap, depth, heapLen, leaves);
    FinishMerging(t.elems, leaves, ms, heap[..], t.freq[..], depth[..], t.dad[..]);
    heapMax := heapMax - 1;
    heap[heapMax] := heap[1];
  }

  /** The lengths form a complete code of at most max bits that covers every symbol
      of freq, and the last length is in use. */
  ghost predicate Covers(freq: seq<nat>, lens: seq<nat>, max: nat)
  {
    && 0 < |lens| <= |freq| && Fits(lens, MAX_BITS) && CodeEnd(lens, MAX_BITS) == Pow2(MAX_BITS)
    && (forall s :: 0 <= s < |lens| ==> lens[s] <= max) && lens[|lens| - 1] > 0
    && (forall s :: 0 <= s < |lens| && freq[s] > 0 ==> lens[s] > 0)
  }

  /** No prefix code for the leaves costs less. */
  ghost predicate Cheapest(leaves: set<nat>, freq: seq<nat>, len: seq<nat>)
  {
    forall code: seq<Bits> {:trigger IsPrefixCode(leaves, code)} :: |code| == |freq| && IsPrefixCode(leaves, code) ==>
      Cost(leaves, freq, len) <= Cost(leaves, freq, LengthsOf(code))
  }

  lemma UnclippedIsCheapest(leaves: set<nat>, elems: nat, ms: seq<Pair>, freq: seq<nat>, len: seq<nat>, max: nat)
    requires Forest(leaves, elems, ms, freq) && |ms| == |leaves| - 1 && Unclipped(elems, ms, len, max)
             && |freq| == |len|
    ensures Cheapest(leaves, freq, len)
  {
    forall code: seq<Bits> | |code| == |freq| && IsPrefixCode(leaves, code)
      ensures Cost(leaves, freq, len) <= Cost(leaves, freq, LengthsOf(code))
    {
      HuffmanIsOptimal(leaves, elems, ms, freq, len, max, code);
    }
  }

  lemma CoversAll(elems: nat, freq0: seq<nat>, freq: seq<nat>, forced: set<nat>, len: seq<nat>, bl: seq<nat>, max: nat,
                  maxCode: nat)
    requires Forced(elems, freq0, freq, forced) && |len| == |freq| && 1 <= max
    requires Complete(Used(freq, elems), len, bl, max) && Largest(maxCode, Used(freq, elems)) && maxCode < elems
    requires forall x :: 0 <= x < elems && x !in Used(freq, elems) ==> len[x] == 0
    ensures IsHistogram(bl, len[..maxCode + 1]) && Covers(freq0, len[..maxCode + 1], max)
    ensures forall x :: maxCode < x < elems ==> freq0[x] == 0
  {
    var leaves := Used(freq, elems);
    CompleteGivesCode(leaves, len, bl, max, maxCode + 1);
    forall s | 0 <= s < maxCode + 1
      ensures len[s] <= max && (freq0[s] > 0 ==> len[s] > 0)
    {
      assert s in leaves || len[s] == 0;
      assert freq0[s] > 0 ==> s in Used(freq0, elems);
    }
    assert forall x :: maxCode < x < elems ==> x !in Used(freq0, elems);
  }

  /** Everything known when gen_bitlen has run: a Huffman forest over the symbols in
      use, complete lengths for them, and costs corrected for the forced symbols. */
  ghost predicate Raw(t: CtTree, freq0: seq<nat>, freq: seq<nat>, len: seq<nat>, bl: seq<nat>, maxCode: nat,
                      leaves: set<nat>,
                      ms: seq<Pair>, forced: set<nat>, o: int, s: int, opt: int, stat: int, d: seq<nat>)
    requires t.Shape()
  {
    && |freq0| == |len| == |freq| == t.freq.Length && maxCode < t.elems
    && leaves == Used(freq, t.elems) && maxCode in leaves && (forall x :: x in leaves ==> x <= maxCode)
    && Forest(leaves, t.elems, ms, freq) && |ms| == |leaves| - 1
    && Forced(t.elems, freq0, freq, forced) && (forced != {} ==> |leaves| == 2)
    && Complete(leaves, len, bl, t.maxLength) && Costed(freq, len, t.Extras(), t.staticLen, leaves, o, s)
    && FromDepths(leaves, t.elems, ms, d, len, t.maxLength)
    && (forall x :: 0 <= x < t.elems && x !in leaves ==> len[x] == 0)
    && opt == o - |forced| && stat == s - Sum(t.elems, forced, StaticOf(t.staticLen))
  }

  /** Unless a code has all max bits, no prefix code for the symbols that occur, two or
      more, is cheaper. */
  ghost predicate BestCode(freq0: seq<nat>, len: seq<nat>, elems: nat, max: nat)
    requires elems <= |freq0|
  {
    var s := Used(freq0, elems);
    |s| >= 2 && !AllBitsUsed(s, len, max) ==> Cheapest(s, freq0, len)
  }

  /** len was read off a Huffman tree ms for freq; if its depths d were not cut off, no
      prefix code for the leaves is cheaper. */
  ghost predicate HuffmanCode(leaves: set<nat>, elems: nat, ms: seq<Pair>, d: seq<nat>, freq: seq<nat>, len: seq<nat>,
                              max: nat)
  {
    && Forest(leaves, elems, ms, freq) && |ms| == |leaves| - 1 && FromDepths(leaves, elems, ms, d, len, max)
    && (Unclipped(elems, ms, d, max) ==> Cheapest(leaves, freq, len))
  }

  /** build_tree: a complete canonical code for every symbol that occurs, its exact
      cost, and, when no length had to be cut off, a cheapest prefix code. */
  method Build(t: CtTree, heap: array<nat>, depth: array<byte>, blCount: array<nat>)
    returns (opt: int, stat: int, ghost ms: seq<Pair>, ghost d: seq<nat>)
    requires t.Shape() && heap.Length == depth.Length == HEAP_SIZE && blCount.Length == MAX_BITS + 1
    requires heap != t.freq && heap != t.len && heap != t.dad && heap != blCount
    requires blCount != t.freq && blCount != t.len && blCount != t.dad && blCount != t.code
    modifies heap, depth, blCount, t, t.freq, t.dad, t.len, t.code
    ensures t.maxCode < t.elems && Covers(old(t.freq[..]), t.len[..t.maxCode + 1], t.maxLength)
    ensures HasCodes(t.len[..t.maxCode + 1], t.code[..])
    ensures forall x :: t.maxCode < x < t.elems ==> old(t.freq[x]) == 0 && t.len[x] == 0
    ensures opt == BlockCost(old(t.freq[..]), t.len[..], t.Extras(), t.elems)
    ensures stat == BlockCost(old(t.freq[..]), t.staticLen, t.Extras(), t.elems)
    ensures HuffmanCode(Used(t.freq[..], t.elems), t.elems, ms, d, t.freq[..], t.len[..], t.maxLength)
    ensures BestCode(old(t.freq[..]), t.len[..], t.elems, t.maxLength)
    ensures Within(t.freq[..], t.elems, TotalOf(old(t.freq[..])[..t.elems]) + 2)
  {
    hide BlockCost, HuffmanCode, BestCode, Used, Within;
    opt, stat, ms, d := BuildLengths(t, heap, depth, blCount);
    Generate(t.len, t.code, blCount, t.maxCode);
  }

  method BuildLengths(t: CtTree, heap: array<nat>, depth: array<byte>, blCount: array<nat>)
    returns (opt: int, stat: int, ghost ms: seq<Pair>, ghost d: seq<nat>)
    requires t.Shape() && heap.Length == depth.Length == HEAP_SIZE && blCount.Length == MAX_BITS + 1
    requires heap != t.freq && heap != t.len && heap != t.dad && heap != blCount
    requires blCount != t.freq && blCount != t.len && blCount != t.dad
    modifies heap, depth, blCount, t, t.freq, t.dad, t.len
    ensures t.maxCode < t.elems && IsHistogram(blCount[..], t.len[..t.maxCode + 1])
    ensures Covers(old(t.freq[..]), t.len[..t.maxCode + 1], t.maxLength)
    ensures forall x :: t.maxCode < x < t.elems ==> old(t.freq[..])[x] == 0 && t.len[..][x] == 0
    ensures opt == BlockCost(old(t.freq[..]), t.len[..], t.Extras(), t.elems)
    ensures stat == BlockCost(old(t.freq[..]), t.staticLen, t.Extras(), t.elems)
    ensures HuffmanCode(Used(t.freq[..], t.elems), t.elems, ms, d, t.freq[..], t.len[..], t.maxLength)
    ensures BestCode(old(t.freq[..]), t.len[..], t.elems, t.maxLength)
    ensures Within(t.freq[..], t.elems, TotalOf(old(t.freq[..])[..t.elems]) + 2)
  {
    hide Raw, Covers, BlockCost, HuffmanCode, BestCode, IsHistogram, Within;
    ghost var freq0 := t.freq[..];
    ghost var leaves, forced, o, s;
    opt, stat, d, leaves, ms, forced, o, s := RawLengths(t, heap, depth, blCount);
    BuiltFacts(t, freq0, t.freq[..], t.len[..], blCount[..], t.maxCode, leaves, ms, forced, o, s, opt, stat, d,
               t.len[..t.maxCode + 1]);
  }

  method RawLengths(t: CtTree, heap: array<nat>, depth: array<byte>, blCount: array<nat>)
    returns (opt: int, stat: int, ghost d: seq<nat>, ghost leaves: set<nat>, ghost ms: seq<Pair>,
             ghost forced: set<nat>,
             ghost o: int, ghost s: int)
    requires t.Shape() && heap.Length == depth.Length == HEAP_SIZE && blCount.Length == MAX_BITS + 1
    requires heap != t.freq && heap != t.len && heap != t.dad && heap != blCount
    requires blCount != t.freq && blCount != t.len && blCount != t.dad
    modifies heap, depth, blCount, t, t.freq, t.dad, t.len
    ensures t.maxCode < t.elems && leaves == Used(t.freq[..], t.elems)
    ensures Raw(t, old(t.freq[..]), t.freq[..], t.len[..], blCount[..], t.maxCode, leaves, ms, forced, o, s, opt, stat,
                d)
  {
    hide Raw, Forest, FromDepths, Complete, Costed, Forced, Ready, Used;
    ghost var freq0 := t.freq[..];
    var heapMax, opt0, stat0, opt1, stat1;
    heapMax, opt0, stat0, ms, forced := MakeForest(t, heap, depth);
    leaves := Used(t.freq[..], t.elems);
    ReadyFacts(t, heap, heapMax, leaves, ms);
    NotUsed(t.elems, freq0, t.freq[..], forced, t.len[..]);
    ghost var len0 := t.len[..];
    opt1, stat1, d := GenerateLengths(t, heap, heapMax, blCount, leaves, ms);
    o, s := opt1, stat1;
    opt, stat := opt0 + opt1, stat0 + stat1;
    IsRaw(t, freq0, t.freq[..], len0, t.len[..], blCount[..], t.maxCode, leaves, ms, forced, o, s, opt, stat, d);
  }

  lemma IsRaw(t: CtTree, freq0: seq<nat>, freq: seq<nat>, len0: seq<nat>, len: seq<nat>, bl: seq<nat>, maxCode: nat,
              leaves: set<nat>,
              ms: seq<Pair>, forced: set<nat>, o: int, s: int, opt: int, stat: int, d: seq<nat>)
    requires t.Shape() && |freq0| == |len0| == |len| == |freq| == t.freq.Length && maxCode < t.elems
    requires leaves == Used(freq, t.elems) && maxCode in leaves && (forall x :: x in leaves ==> x <= maxCode)
    requires Forest(leaves, t.elems, ms, freq) && |ms| == |leaves| - 1
    requires Forced(t.elems, freq0, freq, forced) && (forced != {} ==> |leaves| == 2)
    requires Complete(leaves, len, bl, t.maxLength) && Costed(freq, len, t.Extras(), t.staticLen, leaves, o, s)
    requires FromDepths(leaves, t.elems, ms, d, len, t.maxLength)
    requires forall x :: 0 <= x < t.elems && x !in leaves ==> len0[x] == 0 && len[x] == len0[x]
    requires opt == o - |forced| && stat == s - Sum(t.elems, forced, StaticOf(t.staticLen))
    ensures Raw(t, freq0, freq, len, bl, maxCode, leaves, ms, forced, o, s, opt, stat, d)
  {
  }

  lemma ReadyFacts(t: CtTree, heap: array<nat>, heapMax: nat, leaves: set<nat>, ms: seq<Pair>)
    requires Ready(t, heap[..], heapMax, leaves, ms)
    ensures t.maxCode < t.elems && |ms| == |leaves| - 1 && forall x :: x in leaves ==> x <= t.maxCode
  {
  }

  /** What gen_bitlen's result means for the caller of build_tree. */
  lemma BuiltFacts(t: CtTree, freq0: seq<nat>, freq: seq<nat>, len: seq<nat>, bl: seq<nat>, maxCode: nat,
                   leaves: set<nat>,
                   ms: seq<Pair>, forced: set<nat>, o: int, s: int, opt: int, stat: int, d: seq<nat>, lens: seq<nat>)
    requires t.Shape() && Raw(t, freq0, freq, len, bl, maxCode, leaves, ms, forced, o, s, opt, stat, d)
    requires lens == len[..maxCode + 1]
    ensures IsHistogram(bl, lens) && Covers(freq0, lens, t.maxLength)
    ensures forall x :: maxCode < x < t.elems ==> freq0[x] == 0 && len[x] == 0
    ensures opt == BlockCost(freq0, len, t.Extras(), t.elems)
    ensures stat == BlockCost(freq0, t.staticLen, t.Extras(), t.elems)
    ensures HuffmanCode(leaves, t.elems, ms, d, freq, len, t.maxLength) && BestCode(freq0, len, t.elems, t.maxLength)
    ensures Within(freq, t.elems, TotalOf(freq0[..t.elems]) + 2)
  {
    hide Covers, HuffmanCode, BestCode, BlockCost, Within, Forced, Forest, Complete, Costed, FromDepths, TotalOf, Used;
    AllWithin(t.elems, freq0, freq, forced, ms);
    BuiltCode(t, freq0, freq, len, bl, maxCode, leaves, forced);
    BuiltCosts(t, freq0, freq, len, bl, leaves, forced, o, s, opt, stat);
    IsHuffmanCode(leaves, t.elems, ms, freq, len, t.maxLength, d);
    OriginalBest(t.elems, freq0, freq, forced, ms, d, len, t.maxLength);
  }

  lemma NotUsed(elems: nat, freq0: seq<nat>, freq: seq<nat>, forced: set<nat>, len: seq<nat>)
    requires Forced(elems, freq0, freq, forced) && |len| == |freq|
    requires forall x :: 0 <= x < elems && freq0[x] == 0 ==> len[x] == 0
    ensures forall x :: 0 <= x < elems && x !in Used(freq, elems) ==> len[x] == 0
  {
    forall x | 0 <= x < elems && x !in Used(freq, elems) ensures len[x] == 0 {
      assert x !in Used(freq0, elems);
    }
  }

  lemma IsHuffmanCode(leaves: set<nat>, elems: nat, ms: seq<Pair>, freq: seq<nat>, len: seq<nat>, max: nat, d: seq<nat>)
    requires Forest(leaves, elems, ms, freq) && |ms| == |leaves| - 1 && |freq| == |len|
    requires FromDepths(leaves, elems, ms, d, len, max)
    ensures HuffmanCode(leaves, elems, ms, d, freq, len, max)
  {
    if Unclipped(elems, ms, d, max) { UnclippedIsCheapest(leaves, elems, ms, freq, len, max); }
  }

  /** With two symbols in use none is forced, and the code is best for the frequencies
      build_tree was given. */
  lemma OriginalBest(elems: nat, freq0: seq<nat>, freq: seq<nat>, forced: set<nat>, ms: seq<Pair>, d: seq<nat>,
                     len: seq<nat>, max: nat)
    requires Forced(elems, freq0, freq, forced) && (forced != {} ==> |Used(freq, elems)| == 2)
    requires HuffmanCode(Used(freq, elems), elems, ms, d, freq, len, max)
    ensures BestCode(freq0, len, elems, max)
  {
    hide Forest, Unclipped, Cheapest;
    var s := Used(freq0, elems);
    if |s| >= 2 && !AllBitsUsed(s, len, max) {
      assert |s + forced| == |s| + |forced|;
      assert forced == {};
      CheapestFrame(s, freq, freq0, len);
    }
  }

  lemma CheapestFrame(s: set<nat>, freq: seq<nat>, freq0: seq<nat>, len: seq<nat>)
    requires |freq| == |freq0| && Cheapest(s, freq, len) && forall x :: x in s ==> x < |freq| && freq[x] == freq0[x]
    ensures Cheapest(s, freq0, len)
  {
    WeightFrame(s, freq, freq0, len);
    forall code: seq<Bits> | |code| == |freq0| && IsPrefixCode(s, code)
      ensures Cost(s, freq0, len) <= Cost(s, freq0, LengthsOf(code))
    {
      WeightFrame(s, freq, freq0, LengthsOf(code));
    }
  }

  lemma WeightFrame(s: set<nat>, freq: seq<nat>, freq0: seq<nat>, len: seq<nat>)
    requires |freq| == |freq0| && forall x :: x in s ==> x < |freq| && freq[x] == freq0[x]
    ensures Cost(s, freq, len) == Cost(s, freq0, len)
  {
    SumCongruent(|freq|, s, s, CostOf(freq, len), CostOf(freq0, len));
  }

  lemma BuiltCosts(t: CtTree, freq0: seq<nat>, freq: seq<nat>, len: seq<nat>, bl: seq<nat>, leaves: set<nat>,
                   forced: set<nat>,
                   o: int, s: int, opt: int, stat: int)
    requires t.Shape() && |freq0| == |len| == |freq| == t.freq.Length && leaves == Used(freq, t.elems)
    requires Forced(t.elems, freq0, freq, forced) && (forced != {} ==> |leaves| == 2)
    requires Complete(leaves, len, bl, t.maxLength) && Costed(freq, len, t.Extras(), t.staticLen, leaves, o, s)
    requires opt == o - |forced| && stat == s - Sum(t.elems, forced, StaticOf(t.staticLen))
    ensures opt == BlockCost(freq0, len, t.Extras(), t.elems)
    ensures stat == BlockCost(freq0, t.staticLen, t.Extras(), t.elems)
  {
    OptCostExact(t, freq0, freq, len, bl, forced, o, s);
    StatCostExact(t, freq0, freq, len, forced, o, s);
  }

  lemma BuiltCode(t: CtTree, freq0: seq<nat>, freq: seq<nat>, len: seq<nat>, bl: seq<nat>, maxCode: nat,
                  leaves: set<nat>,
                  forced: set<nat>)
    requires t.Shape() && |freq0| == |len| == |freq| == t.freq.Length && maxCode < t.elems
    requires leaves == Used(freq, t.elems) && maxCode in leaves && forall x :: x in leaves ==> x <= maxCode
    requires Forced(t.elems, freq0, freq, forced) && Complete(leaves, len, bl, t.maxLength)
    requires forall x :: 0 <= x < t.elems && x !in leaves ==> len[x] == 0
    ensures IsHistogram(bl, len[..maxCode + 1]) && Covers(freq0, len[..maxCode + 1], t.maxLength)
    ensures forall x :: maxCode < x < t.elems ==> freq0[x] == 0
  {
    CoversAll(t.elems, freq0, freq, forced, len, bl, t.maxLength, maxCode);
  }
}
