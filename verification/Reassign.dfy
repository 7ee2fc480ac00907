/** The last part of gen_bitlen: after the overflow repair, lengths are dealt out
    again to the leaves in order of increasing frequency. */
module Reassign {
  import opened Bits
  import opened Sums
  import opened Merges
  import opened GenCodes
  import opened LengthRepair
  import opened TreeOrder
  import opened GenBitlen

  // ---- Sizes of sets as sums ----

  ghost function One(): nat -> int
  {
    (x: nat) => 1
  }

  ghost function UpTo(len: seq<nat>, b: nat): nat -> int
  {
    (x: nat) => if x < |len| && 1 <= len[x] <= b then 1 else 0
  }

  lemma {:induction false} SizeIsSum(n: nat, s: set<nat>)
    requires forall x :: x in s ==> x < n
    ensures Sum(n, s, One()) == |s| <= n
  {
    if n > 0 {
      var t := s - {n - 1};
      SizeIsSum(n - 1, t);
      SumCongruent(n - 1, s, t, One(), One());
    }
  }

  lemma {:induction false} TotalOfSet(n: nat, s: set<nat>, len: seq<nat>, bl: seq<nat>, b: nat)
    requires b < |bl| && forall c :: 1 <= c <= b ==> bl[c] == Sum(n, s, AtDepth(len, c))
    ensures Total(bl, b) == Sum(n, s, UpTo(len, b))
  {
    if b == 0 {
      SumZero(n, s, UpTo(len, 0));
    } else {
      TotalOfSet(n, s, len, bl, b - 1);
      SumPlus(n, s, UpTo(len, b - 1), AtDepth(len, b), UpTo(len, b));
    }
  }

  /** Lengths for the leaves, counted by bl, that use up the code space exactly. */
  ghost predicate Complete(leaves: set<nat>, len: seq<nat>, bl: seq<nat>, max: nat)
  {
    && Counts(bl, leaves, len) && max <= MAX_BITS
    && (forall x :: x in leaves ==> x < |len| && 1 <= len[x] <= max)
    && Units(bl, max) == Pow2(max)
  }

  lemma CountsTotal(leaves: set<nat>, len: seq<nat>, bl: seq<nat>, max: nat)
    requires Counts(bl, leaves, len) && max <= MAX_BITS
    requires forall x :: x in leaves ==> x < |len| && 1 <= len[x] <= max
    ensures Total(bl, max) == |leaves|
  {
    TotalOfSet(|len|, leaves, len, bl, max);
    SumCongruent(|len|, leaves, leaves, UpTo(len, max), One());
    SizeIsSum(|len|, leaves);
  }

  /** The excess of the clipped depths is exactly half the overflow. */
  lemma ClippedIsOversubscribed(leaves: set<nat>, elems: nat, ms: seq<Pair>, len: seq<nat>, bl: seq<nat>, max: nat,
                                overflow: nat)
    requires ValidMerges(leaves, elems, ms) && 0 < |ms| == |leaves| - 1 && 1 <= max <= MAX_BITS && elems <= Pow2(max)
    requires Passed(leaves, elems, ms, len, bl, max, 0, overflow)
    ensures overflow % 2 == 0 && Oversubscribed(bl, max, overflow / 2, |leaves|)
    ensures overflow > 0 ==> bl[max] > overflow / 2
    ensures overflow == 0 ==> Complete(leaves, len, bl, max)
  {
    hide Pow2;
    AllLeaves(leaves, elems, ms);
    EntriesGiveLevels(elems, ms, len, max);
    HalfOverflow(leaves, elems, ms, len, max);
    ClippedKraft(leaves, elems, ms, len, max, 0);
    UnitsOfSet(|len|, leaves, len, bl, max);
    CountsTotal(leaves, len, bl, max);
    SizeIsSum(elems, leaves);
  }

  lemma HalfOverflow(leaves: set<nat>, elems: nat, ms: seq<Pair>, len: seq<nat>, max: nat)
    requires ValidMerges(leaves, elems, ms) && 0 < |ms| == |leaves| - 1 && Levels(elems, ms, len, max)
    ensures Overflow(elems, |ms|, len, max, 0) == 2 * Clipped(elems, len, max, 0, |ms|)
  {
    forall j | elems <= j < elems + |ms|
      ensures len[j] <= max
    {
      FathersLevel(leaves, elems, ms, len, max, j - elems);
    }
    OverflowIsTwiceClipped(elems, |ms|, len, max, 0);
  }

  // ---- Dealing the lengths out ----

  /** What bl still wants of length b when n of length `bits` are left to deal out. */
  function Dealt(bl: seq<nat>, bits: nat, n: int, b: nat): (d: int)
    requires b < |bl|
  {
    if b > bits then bl[b] else if b == bits then bl[b] - n else 0
  }

  ghost predicate AtLeast(leaves: set<nat>, ms: seq<Pair>, len: seq<nat>, i: nat, bits: nat)
  {
    i < 2 * |ms| && (NodeAt(ms, i) in leaves ==> NodeAt(ms, i) < |len| && len[NodeAt(ms, i)] >= bits)
  }

  ghost predicate Falls(leaves: set<nat>, ms: seq<Pair>, len: seq<nat>, i: nat, j: nat)
  {
    && i < 2 * |ms| && j < 2 * |ms|
    && (NodeAt(ms, i) in leaves && NodeAt(ms, j) in leaves ==>
          NodeAt(ms, i) < |len| && NodeAt(ms, j) < |len| && len[NodeAt(ms, i)] >= len[NodeAt(ms, j)])
  }

  /** The leaves among the first e entries have codes of at least `bits` bits, and the sooner
      one was taken for a merge, being lighter, the longer its code. */
  ghost predicate InOrder(leaves: set<nat>, ms: seq<Pair>, len: seq<nat>, e: nat, bits: nat)
  {
    && (forall i: nat {:trigger AtLeast(leaves, ms, len, i, bits)} :: i < e ==> AtLeast(leaves, ms, len, i, bits))
    && (forall i: nat, j: nat {:trigger Falls(leaves, ms, len, i, j)} :: i < j < e ==> Falls(leaves, ms, len, i, j))
  }

  lemma OrderLeaf(leaves: set<nat>, elems: nat, ms: seq<Pair>, len: seq<nat>, e: nat, bits: nat, len': seq<nat>, f: nat)
    requires ValidMerges(leaves, elems, ms) && e < 2 * |ms| && f == e + 1 && InOrder(leaves, ms, len, e, bits)
    requires NodeAt(ms, e) < |len| && len' == len[NodeAt(ms, e) := bits]
    ensures InOrder(leaves, ms, len', f, bits)
  {
    hide ValidMerges, NodeAt;
    forall i: nat | i < f ensures AtLeast(leaves, ms, len', i, bits) {
      if i < e {
        NodesDistinct(leaves, elems, ms, i, e);
        assert AtLeast(leaves, ms, len, i, bits);
      }
    }
    forall i: nat, j: nat | i < j < f ensures Falls(leaves, ms, len', i, j) {
      NodesDistinct(leaves, elems, ms, i, e);
      assert AtLeast(leaves, ms, len, i, bits);
      if j < e {
        NodesDistinct(leaves, elems, ms, j, e);
        assert Falls(leaves, ms, len, i, j);
      }
    }
  }

  lemma OrderFather(leaves: set<nat>, ms: seq<Pair>, len: seq<nat>, e: nat, bits: nat, f: nat)
    requires e < 2 * |ms| && NodeAt(ms, e) !in leaves && f == e + 1 && InOrder(leaves, ms, len, e, bits)
    ensures InOrder(leaves, ms, len, f, bits)
  {
    hide NodeAt;
    forall i: nat | i < f ensures AtLeast(leaves, ms, len, i, bits) {
    }
    forall i: nat, j: nat | i < j < f ensures Falls(leaves, ms, len, i, j) {
      if j < e { assert Falls(leaves, ms, len, i, j); }
    }
  }

  lemma OrderNext(leaves: set<nat>, ms: seq<Pair>, len: seq<nat>, e: nat, bits: nat, less: nat)
    requires InOrder(leaves, ms, len, e, bits) && less <= bits
    ensures InOrder(leaves, ms, len, e, less)
  {
    hide NodeAt;
    forall i: nat | i < e ensures AtLeast(leaves, ms, len, i, less) {
      assert AtLeast(leaves, ms, len, i, bits);
    }
  }

  /** Where no leaf is left the order holds to the end. */
  lemma {:induction false} OrderEnd(leaves: set<nat>, ms: seq<Pair>, len: seq<nat>, e: nat, end: nat)
    requires e <= end == 2 * |ms| && InOrder(leaves, ms, len, e, 0) && LeavesFrom(leaves, ms, e) == {}
    ensures InOrder(leaves, ms, len, end, 0)
    decreases end - e
  {
    hide NodeAt, InOrder;
    if e < end {
      OrderFather(leaves, ms, len, e, 0, e + 1);
      OrderEnd(leaves, ms, len, e + 1, end);
    }
  }

  /** The leaves among the first e entries have their final lengths. */
  ghost predicate Dealing(leaves: set<nat>, ms: seq<Pair>, bl: seq<nat>, max: nat, len: seq<nat>, e: nat, bits: nat,
                          n: nat)
  {
    && e <= 2 * |ms| && InOrder(leaves, ms, len, e, bits) && |bl| == MAX_BITS + 1 && bits <= max <= MAX_BITS
       && bl[0] == 0
    && (forall x :: x in leaves ==> x < |len| && 1 <= len[x] <= max)
    && (bits == 0 ==> n == 0)
    && |LeavesFrom(leaves, ms, e)| == n + (if bits == 0 then 0 else Total(bl, bits - 1))
    && (forall b :: 1 <= b <= max ==> Sum(|len|, leaves - LeavesFrom(leaves, ms, e),
                                          AtDepth(len, b)) == Dealt(bl, bits, n, b))
  }

  lemma EntryLeft(leaves: set<nat>, ms: seq<Pair>, bl: seq<nat>, max: nat, len: seq<nat>, e: nat, bits: nat, n: nat)
    requires Dealing(leaves, ms, bl, max, len, e, bits, n) && n > 0
    ensures e < 2 * |ms|
  {
  }

  lemma DealFather(leaves: set<nat>, ms: seq<Pair>, bl: seq<nat>, max: nat, len: seq<nat>, e: nat, bits: nat, n: nat)
    requires Dealing(leaves, ms, bl, max, len, e, bits, n) && e < 2 * |ms| && NodeAt(ms, e) !in leaves
    ensures Dealing(leaves, ms, bl, max, len, e + 1, bits, n)
  {
    hide InOrder;
    OrderFather(leaves, ms, len, e, bits, e + 1);
    assert LeavesFrom(leaves, ms, e + 1) == LeavesFrom(leaves, ms, e);
  }

  lemma AtDepthAdd(s: set<nat>, len: seq<nat>, x: nat, v: nat, b: nat)
    requires x !in s && x < |len|
    ensures Sum(|len|, s + {x}, AtDepth(len[x := v], b)) == Sum(|len|, s, AtDepth(len, b)) + if b == v then 1 else 0
  {
    SumAdd(|len|, s, x, AtDepth(len[x := v], b));
    SumCongruent(|len|, s, s, AtDepth(len, b), AtDepth(len[x := v], b));
  }

  lemma TakeLeaf(leaves: set<nat>, elems: nat, ms: seq<Pair>, e: nat)
    requires ValidMerges(leaves, elems, ms) && e < 2 * |ms| && NodeAt(ms, e) in leaves
    ensures var rest, was, x := LeavesFrom(leaves, ms, e + 1), LeavesFrom(leaves, ms, e), NodeAt(ms, e);
            && |was| == |rest| + 1 && x !in leaves - was
            && leaves - rest == (leaves - was) + {x}
  {
    NotAmongLater(leaves, elems, ms, e, e + 1);
    LeavesFromIn(leaves, ms, e);
  }

  lemma DealLeaf(leaves: set<nat>, elems: nat, ms: seq<Pair>, bl: seq<nat>, max: nat, len: seq<nat>, e: nat, bits: nat,
                 n: nat)
    requires ValidMerges(leaves, elems, ms)
    requires Dealing(leaves, ms, bl, max, len, e, bits, n) && e < 2 * |ms| && NodeAt(ms, e) in leaves && n > 0
    ensures Dealing(leaves, ms, bl, max, len[NodeAt(ms, e) := bits], e + 1, bits, n - 1)
  {
    hide ValidMerges, NodeAt, LeavesFrom, Sum, AtDepth, InOrder;
    var x := NodeAt(ms, e);
    var len' := len[x := bits];
    var rest, was := LeavesFrom(leaves, ms, e + 1), LeavesFrom(leaves, ms, e);
    TakeLeaf(leaves, elems, ms, e);
    OrderLeaf(leaves, elems, ms, len, e, bits, len', e + 1);
    forall b | 1 <= b <= max
      ensures Sum(|len'|, leaves - rest, AtDepth(len', b)) == Dealt(bl, bits, n - 1, b)
    {
      AtDepthAdd(leaves - was, len, x, bits, b);
    }
  }

  lemma DealNextLength(leaves: set<nat>, ms: seq<Pair>, bl: seq<nat>, max: nat, len: seq<nat>, e: nat, bits: nat)
    requires Dealing(leaves, ms, bl, max, len, e, bits, 0) && 0 < bits
    ensures Dealing(leaves, ms, bl, max, len, e, bits - 1, bl[bits - 1])
  {
    hide InOrder;
    OrderNext(leaves, ms, len, e, bits, bits - 1);
  }

  lemma DealStart(leaves: set<nat>, elems: nat, ms: seq<Pair>, bl: seq<nat>, max: nat, len: seq<nat>)
    requires ValidMerges(leaves, elems, ms) && 0 < |ms| == |leaves| - 1
    requires |bl| == MAX_BITS + 1 && 1 <= max <= MAX_BITS && bl[0] == 0 && Total(bl, max) == |leaves|
    requires forall x :: x in leaves ==> x < |len| && 1 <= len[x] <= max
    ensures Dealing(leaves, ms, bl, max, len, 0, max, bl[max])
  {
    AllLeaves(leaves, elems, ms);
    assert leaves - leaves == {};
    forall b | 1 <= b <= max
      ensures Sum(|len|, {}, AtDepth(len, b)) == 0
    {
      SumEmpty(|len|, AtDepth(len, b));
    }
  }

  lemma DealEnd(leaves: set<nat>, ms: seq<Pair>, bl: seq<nat>, max: nat, len: seq<nat>, e: nat)
    requires Dealing(leaves, ms, bl, max, len, e, 0, 0) && forall b :: max < b <= MAX_BITS ==> bl[b] == 0
    ensures Counts(bl, leaves, len) && InOrder(leaves, ms, len, 2 * |ms|, 0)
  {
    hide InOrder;
    assert LeavesFrom(leaves, ms, e) == {};
    OrderEnd(leaves, ms, len, e, 2 * |ms|);
    assert leaves - {} == leaves;
    forall b | 1 <= b <= MAX_BITS
      ensures bl[b] == Sum(|len|, leaves, AtDepth(len, b))
    {
      if b > max {
        SumZero(|len|, leaves, AtDepth(len, b));
      } else {
        assert Dealt(bl, 0, 0, b) == bl[b];
      }
    }
  }

  lemma NothingAboveMax(leaves: set<nat>, len: seq<nat>, bl: seq<nat>, max: nat, b: nat)
    requires Counts(bl, leaves, len) && 1 <= max < b <= MAX_BITS
             && forall x :: x in leaves ==> x < |len| && len[x] <= max
    ensures bl[b] == 0
  {
    SumZero(|len|, leaves, AtDepth(len, b));
  }

  /** Deal one length to the entry's node if it is a leaf whose length differs. */
  method GiveLength(t: CtTree, m: nat, bits: nat, opt: int) returns (opt': int)
    requires t.Shape() && m < t.elems
    modifies t.len
    ensures t.len[..] == old(t.len[..])[m := bits]
    ensures opt' == opt + (bits - old(t.len[m])) * t.freq[m]
  {
    opt' := opt;
    if t.len[m] != bits {
      opt' := opt + (bits - t.len[m]) * t.freq[m];
      t.len[m] := bits;
    }
  }

  /** The cost of the leaves under the current lengths. */
  ghost predicate CostIs(t: CtTree, leaves: set<nat>, freq: seq<nat>, len: seq<nat>, opt: int)
    requires t.Shape()
  {
    opt == Sum(|len|, leaves, BitCost(freq, len, t.Extras()))
  }

  /** Deal out the n lengths of `bits` bits, from heap entry h down. */
  method DealLength(t: CtTree, heap: array<nat>, ghost heapMax: nat, ghost bl: seq<nat>,
                    ghost leaves: set<nat>, ghost ms: seq<Pair>, h0: nat, bits: nat, n0: nat, opt0: int)
    returns (h: nat, opt: int)
    requires Ready(t, heap[..], heapMax, leaves, ms) && heap != t.len && heapMax < h0 <= HEAP_SIZE && 0 < bits
    requires Dealing(leaves, ms, bl, t.maxLength, t.len[..], HEAP_SIZE - h0, bits, n0)
    requires CostIs(t, leaves, t.freq[..], t.len[..], opt0)
    modifies t.len
    ensures heapMax < h <= HEAP_SIZE
    ensures Dealing(leaves, ms, bl, t.maxLength, t.len[..], HEAP_SIZE - h, bits, 0)
    ensures CostIs(t, leaves, t.freq[..], t.len[..], opt)
    ensures forall x :: 0 <= x < t.elems && x !in leaves ==> t.len[x] == old(t.len[x])
  {
    hide Dealing, CostIs;
    h, opt := h0, opt0;
    var n := n0;
    while n != 0
      invariant heapMax < h <= HEAP_SIZE
      invariant Dealing(leaves, ms, bl, t.maxLength, t.len[..], HEAP_SIZE - h, bits, n)
      invariant CostIs(t, leaves, t.freq[..], t.len[..], opt)
      invariant forall x :: 0 <= x < t.elems && x !in leaves ==> t.len[x] == old(t.len[x])
      decreases h
    {
      EntryLeft(leaves, ms, bl, t.maxLength, t.len[..], HEAP_SIZE - h, bits, n);
      OrderedAt(heap[..], t.dad[..], heapMax, t.elems, ms, HEAP_SIZE - h);
      h := h - 1;
      n, opt := DealEntry(t, heap[h], bl, leaves, ms, HEAP_SIZE - 1 - h, bits, n, opt);
    }
  }

  method DealEntry(t: CtTree, m: nat, ghost bl: seq<nat>, ghost leaves: set<nat>, ghost ms: seq<Pair>, ghost e: nat,
                   bits: nat, n: nat, opt: int)
    returns (n': nat, opt': int)
    requires t.Shape() && ValidMerges(leaves, t.elems, ms) && e < 2 * |ms| && m == NodeAt(ms, e)
    requires t.maxCode < t.elems && forall x :: x in leaves ==> x <= t.maxCode
    requires n > 0 && Dealing(leaves, ms, bl, t.maxLength, t.len[..], e, bits, n)
    requires CostIs(t, leaves, t.freq[..], t.len[..], opt)
    modifies t.len
    ensures Dealing(leaves, ms, bl, t.maxLength, t.len[..], e + 1, bits, n')
    ensures CostIs(t, leaves, t.freq[..], t.len[..], opt')
    ensures forall x :: 0 <= x < t.elems && x !in leaves ==> t.len[x] == old(t.len[x])
  {
    LeafOrFather(leaves, t.elems, ms, e);
    n', opt' := n, opt;
    if m > t.maxCode {
      DealFather(leaves, ms, bl, t.maxLength, t.len[..], e, bits, n);
    } else {
      DealLeaf(leaves, t.elems, ms, bl, t.maxLength, t.len[..], e, bits, n);
      CostChange(t.freq[..], t.len[..], t.Extras(), leaves, m, bits);
      opt' := GiveLength(t, m, bits, opt);
      n' := n - 1;
    }
  }
}
