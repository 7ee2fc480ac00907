/** gen_bitlen as a whole. */
module BitLengths {
  import opened Bits
  import opened Sums
  import opened Merges
  import opened HuffmanOptimal
  import opened Rfc1951
  import opened Canonical
  import opened GenCodes
  import opened LengthRepair
  import opened TreeOrder
  import opened GenBitlen
  import opened Reassign

  lemma {:induction false} NoOverflow(elems: nat, k: nat, len: seq<nat>, max: nat, e: nat, i: nat)
    requires e <= 2 * k && elems + k <= |len| && Overflow(elems, k, len, max, e) == 0
    requires e <= 2 * i < 2 * k
    ensures len[elems + i] < max
    decreases 2 * k - e
  {
    if e < 2 * i { NoOverflow(elems, k, len, max, e + 1, i); } else { assert e / 2 == i; }
  }

  lemma NoOverflowIsUnclipped(elems: nat, ms: seq<Pair>, len: seq<nat>, max: nat)
    requires EntriesOk(elems, ms, len, max, 0) && Overflow(elems, |ms|, len, max, 0) == 0
    ensures Unclipped(elems, ms, len, max)
  {
    EntriesGiveLevels(elems, ms, len, max);
    forall i | 0 <= i < |ms|
      ensures Shallow(elems, len, max, i)
    {
      NoOverflow(elems, |ms|, len, max, 0, i);
    }
  }

  /** A leaf keeps length 0 only by not being in the tree: the lengths of symbols
      0..maxCode form a complete code and bl is their histogram. */
  lemma CompleteGivesCode(leaves: set<nat>, len: seq<nat>, bl: seq<nat>, max: nat, count: nat)
    requires Complete(leaves, len, bl, max) && 1 <= max && count <= |len|
    requires forall x :: x in leaves ==> x < count
    requires forall x :: 0 <= x < count && x !in leaves ==> len[x] == 0
    ensures IsHistogram(bl, len[..count]) && Fits(len[..count], MAX_BITS)
    ensures CodeEnd(len[..count], MAX_BITS) == Pow2(MAX_BITS)
  {
    forall b | 1 <= b <= MAX_BITS
      ensures bl[b] == Count(len[..count], b)
    {
      SumBeyond(count, |len|, leaves, AtDepth(len, b));
      CountIsSum(leaves, len, b, count);
    }
    UnitsOfHistogram(bl, len[..count], MAX_BITS);
    forall b | max < b <= MAX_BITS ensures bl[b] == 0 {
      NothingAboveMax(leaves, len, bl, max, b);
    }
    ScaleUnits(bl, max, MAX_BITS);
  }

  lemma {:induction false} CountIsSum(leaves: set<nat>, len: seq<nat>, b: nat, n: nat)
    requires n <= |len| && 1 <= b
    requires forall x :: 0 <= x < n && x !in leaves ==> len[x] == 0
    ensures Count(len[..n], b) == Sum(n, leaves, AtDepth(len, b))
  {
    if n > 0 {
      CountIsSum(leaves, len, b, n - 1);
      assert len[..n][..n - 1] == len[..n - 1];
    }
  }

  lemma {:induction false} ScaleUnits(bl: seq<nat>, max: nat, b: nat)
    requires max <= b < |bl| && Units(bl, max) == Pow2(max) && forall c :: max < c <= b ==> bl[c] == 0
    ensures Units(bl, b) == Pow2(b)
  {
    if max < b { ScaleUnits(bl, max, b - 1); }
  }

  /** With every father above depth max nothing is cut off. */
  lemma {:induction false} UnclippedIsNoOverflow(elems: nat, ms: seq<Pair>, len: seq<nat>, max: nat, e: nat)
    requires Unclipped(elems, ms, len, max) && e <= 2 * |ms|
    ensures Overflow(elems, |ms|, len, max, e) == 0
    decreases 2 * |ms| - e
  {
    if e < 2 * |ms| {
      assert Shallow(elems, len, max, e / 2);
      UnclippedIsNoOverflow(elems, ms, len, max, e + 1);
    }
  }

  /** Some leaf has a code of all max bits. */
  ghost predicate AllBitsUsed(leaves: set<nat>, len: seq<nat>, max: nat)
  {
    exists x :: x in leaves && x < |len| && len[x] == max
  }

  lemma CountedIsUsed(leaves: set<nat>, len: seq<nat>, bl: seq<nat>, max: nat)
    requires Counts(bl, leaves, len) && 1 <= max <= MAX_BITS && bl[max] > 0
    ensures AllBitsUsed(leaves, len, max)
  {
    if !AllBitsUsed(leaves, len, max) {
      SumZero(|len|, leaves, AtDepth(len, max));
    }
  }

  /** d holds the depths of the tree, cut off at max.  If none was cut off, that is if
      every father is above depth max, they are the lengths; otherwise some code has
      all max bits, and the sooner a leaf was taken the longer its code. */
  ghost predicate FromDepths(leaves: set<nat>, elems: nat, ms: seq<Pair>, d: seq<nat>, len: seq<nat>, max: nat)
  {
    && Levels(elems, ms, d, max)
    && if Unclipped(elems, ms, d, max) then len == d
       else AllBitsUsed(leaves, len, max) && InOrder(leaves, ms, len, 2 * |ms|, 0)
  }

  /** gen_bitlen: the leaves get lengths of at most maxLength bits that use up the
      code space exactly, blCount counts them, and opt and stat are the bits the
      leaves cost with them and with the static tree.  The lengths are the depths d of
      the tree unless those had to be cut off. */
  method GenerateLengths(t: CtTree, heap: array<nat>, heapMax: nat, blCount: array<nat>,
                         ghost leaves: set<nat>, ghost ms: seq<Pair>)
    returns (opt: int, stat: int, ghost d: seq<nat>)
    requires Ready(t, heap[..], heapMax, leaves, ms)
    requires blCount != t.len && blCount != t.freq && blCount != t.dad && blCount.Length == MAX_BITS + 1
    requires heap != t.len && heap != blCount
    modifies t.len, blCount
    ensures Complete(leaves, t.len[..], blCount[..], t.maxLength)
    ensures Costed(t.freq[..], t.len[..], t.Extras(), t.staticLen, leaves, opt, stat)
    ensures FromDepths(leaves, t.elems, ms, d, t.len[..], t.maxLength)
    ensures forall x :: 0 <= x < t.elems && x !in leaves ==> t.len[x] == old(t.len[x])
  {
    var over;
    over, opt, stat := FirstPass(t, heap, heapMax, blCount, leaves, ms);
    d := t.len[..];
    FirstPassResult(t, t.freq[..], Pass(t.len[..], blCount[..], over, opt, stat), leaves, ms);
    if over == 0 {
      return;
    }
    Repair(blCount, t.maxLength, over, |leaves|);
    opt := DealOut(t, heap, heapMax, blCount, leaves, ms, opt);
    CountedIsUsed(leaves, t.len[..], blCount[..], t.maxLength);
  }

  lemma FirstPassResult(t: CtTree, freq: seq<nat>, p: Pass, leaves: set<nat>, ms: seq<Pair>)
    requires t.Shape() && ValidMerges(leaves, t.elems, ms) && 0 < |ms| == |leaves| - 1
    requires TreeProgress(t, freq, p, leaves, ms, 0)
    ensures Costed(freq, p.len, t.Extras(), t.staticLen, leaves, p.opt, p.stat)
    ensures p.overflow % 2 == 0 && Oversubscribed(p.bl, t.maxLength, p.overflow / 2, |leaves|)
    ensures p.overflow > 0 ==> p.bl[t.maxLength] > p.overflow / 2
    ensures p.overflow == 0 ==> Complete(leaves, p.len, p.bl, t.maxLength)
    ensures Levels(t.elems, ms, p.len, t.maxLength) && (p.overflow == 0 <==> Unclipped(t.elems, ms, p.len, t.maxLength))
    ensures forall x :: x in leaves ==> x < |p.len| && 1 <= p.len[x] <= t.maxLength
    ensures forall b :: t.maxLength < b <= MAX_BITS ==> p.bl[b] == 0
  {
    AllLeaves(leaves, t.elems, ms);
    ClippedIsOversubscribed(leaves, t.elems, ms, p.len, p.bl, t.maxLength, p.overflow);
    EntriesGiveLevels(t.elems, ms, p.len, t.maxLength);
    if p.overflow == 0 {
      NoOverflowIsUnclipped(t.elems, ms, p.len, t.maxLength);
    } else if Unclipped(t.elems, ms, p.len, t.maxLength) {
      UnclippedIsNoOverflow(t.elems, ms, p.len, t.maxLength, 0);
    }
    forall b | t.maxLength < b <= MAX_BITS ensures p.bl[b] == 0 {
      NothingAboveMax(leaves, p.len, p.bl, t.maxLength, b);
    }
  }

  /** Recompute all lengths from the repaired counts. */
  method DealOut(t: CtTree, heap: array<nat>, heapMax: nat, blCount: array<nat>,
                 ghost leaves: set<nat>, ghost ms: seq<Pair>, opt0: int)
    returns (opt: int)
    requires Ready(t, heap[..], heapMax, leaves, ms) && heap != t.len
    requires blCount != t.len && blCount.Length == MAX_BITS + 1
    requires Oversubscribed(blCount[..], t.maxLength, 0, |leaves|)
    requires forall b :: t.maxLength < b <= MAX_BITS ==> blCount[b] == 0
    requires forall x :: x in leaves ==> x < t.len.Length && 1 <= t.len[x] <= t.maxLength
    requires CostIs(t, leaves, t.freq[..], t.len[..], opt0)
    modifies t.len
    ensures Complete(leaves, t.len[..], blCount[..], t.maxLength)
    ensures CostIs(t, leaves, t.freq[..], t.len[..], opt) && InOrder(leaves, ms, t.len[..], 2 * |ms|, 0)
    ensures forall x :: 0 <= x < t.elems && x !in leaves ==> t.len[x] == old(t.len[x])
  {
    hide CostIs;
    opt := opt0;
    ghost var bl := blCount[..];
    var h := HEAP_SIZE;
    DealStart(leaves, t.elems, ms, bl, t.maxLength, t.len[..]);
    var bits := t.maxLength;
    while bits != 0
      invariant 0 <= bits <= t.maxLength && heapMax < h <= HEAP_SIZE && blCount[..] == bl
      invariant Dealing(leaves, ms, bl, t.maxLength, t.len[..], HEAP_SIZE - h, bits, bl[bits])
      invariant CostIs(t, leaves, t.freq[..], t.len[..], opt)
      invariant forall x :: 0 <= x < t.elems && x !in leaves ==> t.len[x] == old(t.len[x])
    {
      var n := blCount[bits];
      assert n == bl[bits];
      h, opt := DealLength(t, heap, heapMax, bl, leaves, ms, h, bits, n, opt);
      DealNextLength(leaves, ms, bl, t.maxLength, t.len[..], HEAP_SIZE - h, bits);
      bits := bits - 1;
    }
    DealEnd(leaves, ms, bl, t.maxLength, t.len[..], HEAP_SIZE - h);
  }
}
