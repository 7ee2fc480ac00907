/** gen_bitlen of gzip.c: bit lengths for a Huffman tree, cut off at a maximum and
    repaired, together with the bit costs of the block. */
module GenBitlen {
  import opened Bits
  import opened Sums
  import opened Merges
  import opened Rfc1951
  import opened GenCodes
  import opened TreeOrder

  const HEAP_SIZE: nat := 573

  /** The struct tree_desc with the ct_data array it points to.  The C unions are
      separate arrays here: freq/code and dad/len. */
  class CtTree {
    const freq: array<nat>
    const code: array<nat>
    const dad: array<nat>
    const len: array<nat>
    const staticLen: seq<nat>   // lengths of the static tree, or [] when there is none
    const extraBits: seq<nat>
    const extraBase: nat
    const elems: nat
    const maxLength: nat
    var maxCode: nat
    ghost const objects: set<object>   // this tree and its arrays

    ghost predicate Shape()
    {
      && this in objects && freq in objects && code in objects && dad in objects && len in objects
      && freq.Length == code.Length == dad.Length == len.Length == 2 * elems + 1 <= HEAP_SIZE
      && freq != code && freq != dad && freq != len && code != dad && code != len && dad != len
      && (staticLen == [] || |staticLen| == elems)
      && extraBase + |extraBits| >= elems
      && 3 <= elems <= Pow2(maxLength) && 1 <= maxLength <= MAX_BITS
      && (forall n :: 0 <= n < 3 ==> Extra(n) == 0)
    }

    constructor (elems: nat, maxLength: nat, extraBits: seq<nat>, extraBase: nat, staticLen: seq<nat>)
      requires 3 <= elems <= Pow2(maxLength) && 1 <= maxLength <= MAX_BITS && 2 * elems + 1 <= HEAP_SIZE
      requires extraBase + |extraBits| >= elems && (staticLen == [] || |staticLen| == elems)
      requires forall j :: 0 <= j < |extraBits| && extraBase + j < 3 ==> extraBits[j] == 0
      ensures Shape() && fresh(objects)
      ensures this.elems == elems && this.maxLength == maxLength && this.extraBits == extraBits
      ensures this.extraBase == extraBase && this.staticLen == staticLen
      ensures freq[..] == Repeat(0, 2 * elems + 1)
    {
      this.elems, this.maxLength, this.maxCode := elems, maxLength, 0;
      this.extraBits, this.extraBase, this.staticLen := extraBits, extraBase, staticLen;
      freq := new nat[2 * elems + 1](_ => 0);
      code := new nat[2 * elems + 1](_ => 0);
      dad := new nat[2 * elems + 1](_ => 0);
      len := new nat[2 * elems + 1](_ => 0);
      objects := {this, freq, code, dad, len};
    }

    /** Extra bits sent after symbol n. */
    function Extra(n: nat): (x: nat)
      requires extraBase + |extraBits| >= elems && n < elems
    {
      if n >= extraBase then extraBits[n - extraBase] else 0
    }

    function Extras(): (xs: seq<nat>)
      requires extraBase + |extraBits| >= elems
      ensures |xs| == elems && forall n :: 0 <= n < elems ==> xs[n] == Extra(n)
    {
      seq(elems, n requires 0 <= n < elems && extraBase + |extraBits| >= elems => Extra(n))
    }
  }

  // ---- Counts and costs over a set of leaves ----

  /** bl counts the members of s by their length. */
  ghost predicate Counts(bl: seq<nat>, s: set<nat>, len: seq<nat>)
  {
    && |bl| == MAX_BITS + 1 && bl[0] == 0
    && forall b :: 1 <= b <= MAX_BITS ==> bl[b] == Sum(|len|, s, AtDepth(len, b))
  }

  /** Bits spent on x: its frequency times code length plus extra bits. */
  ghost function BitCost(freq: seq<nat>, len: seq<nat>, xs: seq<nat>): nat -> int
  {
    (x: nat) => if x < |freq| && x < |len| && x < |xs| then freq[x] * (len[x] + xs[x]) else 0
  }

  lemma CountsOne(bl: seq<nat>, s: set<nat>, len: seq<nat>, x: nat, b: nat, c: nat)
    requires Counts(bl, s, len) && x !in s && x < |len| && 1 <= b <= MAX_BITS && 1 <= c <= MAX_BITS
    ensures Sum(|len|, s + {x}, AtDepth(len[x := b], c)) == bl[c] + if b == c then 1 else 0
  {
    var len' := len[x := b];
    SumAdd(|len|, s, x, AtDepth(len', c));
    SumCongruent(|len|, s, s, AtDepth(len, c), AtDepth(len', c));
  }

  lemma CountsAdd(bl: seq<nat>, s: set<nat>, len: seq<nat>, x: nat, b: nat)
    requires Counts(bl, s, len) && x !in s && x < |len| && 1 <= b <= MAX_BITS
    ensures Counts(bl[b := bl[b] + 1], s + {x}, len[x := b])
  {
    var bl' := bl[b := bl[b] + 1];
    forall c | 1 <= c <= MAX_BITS
      ensures bl'[c] == Sum(|len|, s + {x}, AtDepth(len[x := b], c))
    {
      CountsOne(bl, s, len, x, b, c);
    }
  }

  lemma CountsSkip(bl: seq<nat>, s: set<nat>, len: seq<nat>, x: nat, b: nat)
    requires Counts(bl, s, len) && x !in s && x < |len|
    ensures Counts(bl, s, len[x := b])
  {
    forall c | 1 <= c <= MAX_BITS
      ensures bl[c] == Sum(|len|, s, AtDepth(len[x := b], c))
    {
      SumCongruent(|len|, s, s, AtDepth(len, c), AtDepth(len[x := b], c));
    }
  }

  lemma CountsNone(bl: seq<nat>, len: seq<nat>)
    requires |bl| == MAX_BITS + 1 && forall b :: 0 <= b <= MAX_BITS ==> bl[b] == 0
    ensures Counts(bl, {}, len)
  {
    forall c | 1 <= c <= MAX_BITS
      ensures Sum(|len|, {}, AtDepth(len, c)) == 0
    {
      SumEmpty(|len|, AtDepth(len, c));
    }
  }

  lemma CostAdd(freq: seq<nat>, len: seq<nat>, xs: seq<nat>, s: set<nat>, x: nat, b: nat)
    requires x !in s && x < |len| == |freq| && x < |xs|
    ensures Sum(|len|, s + {x}, BitCost(freq, len[x := b],
                                        xs)) == Sum(|len|, s, BitCost(freq, len, xs)) + freq[x] * (b + xs[x])
  {
    SumAdd(|len|, s, x, BitCost(freq, len[x := b], xs));
    SumCongruent(|len|, s, s, BitCost(freq, len, xs), BitCost(freq, len[x := b], xs));
  }

  lemma CostSkip(freq: seq<nat>, len: seq<nat>, xs: seq<nat>, s: set<nat>, x: nat, b: nat)
    requires x !in s && x < |len|
    ensures Sum(|len|, s, BitCost(freq, len[x := b], xs)) == Sum(|len|, s, BitCost(freq, len, xs))
  {
    SumCongruent(|len|, s, s, BitCost(freq, len, xs), BitCost(freq, len[x := b], xs));
  }

  lemma CostChange(freq: seq<nat>, len: seq<nat>, xs: seq<nat>, s: set<nat>, x: nat, b: nat)
    requires x in s && x < |len| == |freq| && x < |xs|
    ensures Sum(|len|, s, BitCost(freq, len[x := b], xs))
         == Sum(|len|, s, BitCost(freq, len, xs)) + (b - len[x]) * freq[x]
  {
    SumUpdate(|len|, s, x, BitCost(freq, len, xs), BitCost(freq, len[x := b], xs));
    assert freq[x] * (b + xs[x]) - freq[x] * (len[x] + xs[x]) == (b - len[x]) * freq[x];
  }

  // ---- The first pass ----

  /** The heap array above heapMax holds the merged nodes, and dad their fathers. */
  ghost predicate Ordered(heap: seq<nat>, dad: seq<nat>, heapMax: nat, elems: nat, ms: seq<Pair>)
  {
    && |heap| == HEAP_SIZE && 0 < |ms| < elems && 2 * elems + 1 <= HEAP_SIZE && |dad| == 2 * elems + 1
    && heapMax == HEAP_SIZE - 1 - 2 * |ms| && heap[heapMax] == elems + |ms| - 1
    && forall e {:trigger NodeAt(ms, e)} :: 0 <= e < 2 * |ms| ==>
         heap[HEAP_SIZE - 1 - e] == NodeAt(ms, e) < |dad| && dad[NodeAt(ms, e)] == elems + e / 2
  }

  /** A finished tree: merges of the leaves, all of them at most maxCode. */
  ghost predicate Ready(t: CtTree, heap: seq<nat>, heapMax: nat, leaves: set<nat>, ms: seq<Pair>)
    reads t, t.dad
  {
    && t.Shape() && t.maxCode < t.elems
    && ValidMerges(leaves, t.elems, ms) && |ms| == |leaves| - 1
    && Ordered(heap, t.dad[..], heapMax, t.elems, ms)
    && forall x :: x in leaves ==> x <= t.maxCode
  }

  /** State of the first pass when the entries from e on are done. */
  ghost predicate Passed(leaves: set<nat>, elems: nat, ms: seq<Pair>, len: seq<nat>, bl: seq<nat>, max: nat,
                         e: nat, overflow: nat)
    requires e <= 2 * |ms|
  {
    && EntriesOk(elems, ms, len, max, e)
    && overflow == Overflow(elems, |ms|, len, max, e)
    && Counts(bl, LeavesFrom(leaves, ms, e), len)
    && forall x :: x in LeavesFrom(leaves, ms, e) ==> x < |len| && 1 <= len[x] <= max
  }

  lemma PassedStep(leaves: set<nat>, elems: nat, ms: seq<Pair>, len: seq<nat>, bl: seq<nat>, max: nat,
                   e: nat, overflow: nat)
    requires ValidMerges(leaves, elems, ms) && e < 2 * |ms| && 1 <= max <= MAX_BITS
    requires Passed(leaves, elems, ms, len, bl, max, e + 1, overflow)
    ensures NodeAt(ms, e) < elems + e / 2 < |len|
    ensures var x, d := NodeAt(ms, e), len[elems + e / 2] + 1;
            var b := Clip(d, max);
            Passed(leaves, elems, ms, len[x := b], if x in leaves then bl[b := bl[b] + 1] else bl, max, e,
                   overflow + if d > max then 1 else 0)
  {
    EntryStep(leaves, elems, ms, len, max, e);
    NotAmongLater(leaves, elems, ms, e, e + 1);
    var x, b := NodeAt(ms, e), Clip(len[elems + e / 2] + 1, max);
    var s := LeavesFrom(leaves, ms, e + 1);
    if x in leaves {
      CountsAdd(bl, s, len, x, b);
    } else {
      CountsSkip(bl, s, len, x, b);
    }
  }

  /** Block costs after the entries from e on are counted. */
  ghost predicate Costed(freq: seq<nat>, len: seq<nat>, xs: seq<nat>, stree: seq<nat>, s: set<nat>, opt: int, stat: int)
  {
    && opt == Sum(|len|, s, BitCost(freq, len, xs))
    && stat == if stree == [] then 0 else Sum(|len|, s, BitCost(freq, stree, xs))
  }

  lemma CostedAdd(freq: seq<nat>, len: seq<nat>, xs: seq<nat>, stree: seq<nat>, s: set<nat>, opt: int, stat: int,
                  x: nat, b: nat)
    requires Costed(freq, len, xs, stree, s, opt, stat)
    requires x !in s && x < |len| == |freq| && x < |xs| && (stree == [] || x < |stree|)
    ensures Costed(freq, len[x := b], xs, stree, s + {x}, opt + freq[x] * (b + xs[x]),
                   stat + if stree == [] then 0 else freq[x] * (stree[x] + xs[x]))
  {
    CostAdd(freq, len, xs, s, x, b);
    if stree != [] {
      SumAdd(|len|, s, x, BitCost(freq, stree, xs));
    }
  }

  lemma CostedSkip(freq: seq<nat>, len: seq<nat>, xs: seq<nat>, stree: seq<nat>, s: set<nat>, opt: int, stat: int,
                   x: nat, b: nat)
    requires Costed(freq, len, xs, stree, s, opt, stat) && x !in s && x < |len|
    ensures Costed(freq, len[x := b], xs, stree, s, opt, stat)
  {
    CostSkip(freq, len, xs, s, x, b);
  }

  method ClearCounts(blCount: array<nat>)
    requires blCount.Length == MAX_BITS + 1
    modifies blCount
    ensures forall b :: 0 <= b <= MAX_BITS ==> blCount[b] == 0
  {
    var bits := 0;
    while bits < blCount.Length
      invariant 0 <= bits <= blCount.Length && forall b :: 0 <= b < bits ==> blCount[b] == 0
    {
      blCount[bits] := 0;
      bits := bits + 1;
    }
  }

  /** What the first pass works on. */
  datatype Pass = Pass(len: seq<nat>, bl: seq<nat>, overflow: nat, opt: int, stat: int)

  /** The effect of entry n whose father is at depth d - 1. */
  ghost predicate EntryDone(t: CtTree, freq: seq<nat>, maxCode: nat, n: nat, d: nat, p: Pass, q: Pass)
    requires t.Shape() && n < |p.len| == |freq| && maxCode < t.elems <= |freq| && |p.bl| == MAX_BITS + 1
  {
    var b := Clip(d, t.maxLength);
    && q.len == p.len[n := b]
    && q.overflow == p.overflow + (if d > t.maxLength then 1 else 0)
    && if n > maxCode then q.bl == p.bl && q.opt == p.opt && q.stat == p.stat
       else
         && q.bl == p.bl[b := p.bl[b] + 1]
         && q.opt == p.opt + freq[n] * (b + t.Extra(n))
         && q.stat == p.stat + if t.staticLen == [] then 0 else freq[n] * (t.staticLen[n] + t.Extra(n))
  }

  /** One entry: depth one more than the father's, cut off at the maximum, counted
      if it is a leaf. */
  method PassEntry(t: CtTree, blCount: array<nat>, n: nat, overflow: nat, opt: int, stat: int)
    returns (overflow': nat, opt': int, stat': int)
    requires t.Shape() && n < t.len.Length && t.dad[n] < t.len.Length && t.maxCode < t.elems
    requires blCount != t.len && blCount != t.freq && blCount != t.dad && blCount.Length == MAX_BITS + 1
    modifies t.len, blCount
    ensures EntryDone(t, t.freq[..], t.maxCode, n, old(t.len[t.dad[n]]) + 1,
                      Pass(old(t.len[..]), old(blCount[..]), overflow, opt, stat),
                      Pass(t.len[..], blCount[..], overflow', opt', stat'))
  {
    overflow', opt', stat' := overflow, opt, stat;
    var bits: nat := t.len[t.dad[n]] + 1;
    if bits > t.maxLength {
      bits := t.maxLength;
      overflow' := overflow' + 1;
    }
    t.len[n] := bits;
    if n > t.maxCode {
      return;
    }
    blCount[bits] := blCount[bits] + 1;
    opt', stat' := LeafCost(t, n, t.freq[n], bits, opt, stat);
  }

  /** Adds the bits a leaf costs with its own code and with the static code. */
  method LeafCost(t: CtTree, n: nat, f: nat, bits: nat, opt: int, stat: int) returns (opt': int, stat': int)
    requires t.Shape() && n < t.elems
    ensures opt' == opt + f * (bits + t.Extra(n))
    ensures stat' == stat + if t.staticLen == [] then 0 else f * (t.staticLen[n] + t.Extra(n))
  {
    var xbits := 0;
    if n >= t.extraBase {
      xbits := t.extraBits[n - t.extraBase];
    }
    opt', stat' := opt + f * (bits + xbits), stat;
    if t.staticLen != [] {
      stat' := stat + f * (t.staticLen[n] + xbits);
    }
  }

  /** Everything the first pass keeps: Passed and Costed together. */
  ghost predicate Progress(leaves: set<nat>, elems: nat, ms: seq<Pair>, freq: seq<nat>, xs: seq<nat>, stree: seq<nat>,
                           max: nat, len: seq<nat>, bl: seq<nat>, e: nat, overflow: nat, opt: int, stat: int)
    requires e <= 2 * |ms|
  {
    && Passed(leaves, elems, ms, len, bl, max, e, overflow)
    && Costed(freq, len, xs, stree, LeavesFrom(leaves, ms, e), opt, stat)
  }

  lemma ProgressFather(leaves: set<nat>, elems: nat, ms: seq<Pair>, freq: seq<nat>, xs: seq<nat>, stree: seq<nat>,
                       max: nat, len: seq<nat>, bl: seq<nat>, e: nat, overflow: nat, opt: int, stat: int, x: nat,
                       d: nat)
    requires ValidMerges(leaves, elems, ms) && e < 2 * |ms| && 1 <= max <= MAX_BITS
    requires Progress(leaves, elems, ms, freq, xs, stree, max, len, bl, e + 1, overflow, opt, stat)
    requires x == NodeAt(ms, e) && x !in leaves && elems + e / 2 < |len| && d == len[elems + e / 2] + 1
    ensures x < |len|
    ensures Progress(leaves, elems, ms, freq, xs, stree, max, len[x := Clip(d, max)], bl, e,
                     overflow + (if d > max then 1 else 0), opt, stat)
  {
    PassedStep(leaves, elems, ms, len, bl, max, e, overflow);
    NotAmongLater(leaves, elems, ms, e, e + 1);
    CostedSkip(freq, len, xs, stree, LeavesFrom(leaves, ms, e + 1), opt, stat, x, Clip(d, max));
  }

  lemma ProgressLeaf(leaves: set<nat>, elems: nat, ms: seq<Pair>, freq: seq<nat>, xs: seq<nat>, stree: seq<nat>,
                     max: nat, len: seq<nat>, bl: seq<nat>, e: nat, overflow: nat, opt: int, stat: int, x: nat, d: nat)
    requires ValidMerges(leaves, elems, ms) && e < 2 * |ms| && 1 <= max <= MAX_BITS
    requires |len| == |freq| && |xs| == elems && (stree == [] || |stree| == elems)
    requires Progress(leaves, elems, ms, freq, xs, stree, max, len, bl, e + 1, overflow, opt, stat)
    requires x == NodeAt(ms, e) && x in leaves && elems + e / 2 < |len| && d == len[elems + e / 2] + 1
    ensures x < |len| && x < elems && Clip(d, max) < |bl|
    ensures Progress(leaves, elems, ms, freq, xs, stree, max, len[x := Clip(d, max)],
                     bl[Clip(d, max) := bl[Clip(d, max)] + 1], e, overflow + (if d > max then 1 else 0),
                     opt + freq[x] * (Clip(d, max) + xs[x]),
                     stat + if stree == [] then 0 else freq[x] * (stree[x] + xs[x]))
  {
    hide NodeAt;
    PassedStep(leaves, elems, ms, len, bl, max, e, overflow);
    NotAmongLater(leaves, elems, ms, e, e + 1);
    CostedAdd(freq, len, xs, stree, LeavesFrom(leaves, ms, e + 1), opt, stat, x, Clip(d, max));
  }

  ghost predicate TreeProgress(t: CtTree, freq: seq<nat>, p: Pass, leaves: set<nat>, ms: seq<Pair>, e: nat)
    requires t.Shape() && e <= 2 * |ms|
  {
    && |p.len| == |freq| == t.len.Length && |p.bl| == MAX_BITS + 1
    && Progress(leaves, t.elems, ms, freq, t.Extras(), t.staticLen, t.maxLength, p.len, p.bl, e, p.overflow, p.opt,
                p.stat)
  }

  lemma TreeProgressStep(t: CtTree, freq: seq<nat>, maxCode: nat, p: Pass, q: Pass, leaves: set<nat>, ms: seq<Pair>,
                         e: nat)
    requires t.Shape() && ValidMerges(leaves, t.elems, ms) && e < 2 * |ms| && |ms| < t.elems
    requires maxCode < t.elems && forall x :: x in leaves ==> x <= maxCode
    requires TreeProgress(t, freq, p, leaves, ms, e + 1)
    requires NodeAt(ms, e) < |p.len|
    requires EntryDone(t, freq, maxCode, NodeAt(ms, e), p.len[t.elems + e / 2] + 1, p, q)
    ensures TreeProgress(t, freq, q, leaves, ms, e)
    ensures forall x :: 0 <= x < t.elems && x !in leaves ==> q.len[x] == p.len[x]
  {
    hide Progress, Counts, Pool;
    var n, d := NodeAt(ms, e), p.len[t.elems + e / 2] + 1;
    LeafOrFather(leaves, t.elems, ms, e);
    if n in leaves {
      ProgressLeaf(leaves, t.elems, ms, freq, t.Extras(), t.staticLen, t.maxLength, p.len, p.bl, e, p.overflow, p.opt,
                   p.stat, n, d);
    } else {
      ProgressFather(leaves, t.elems, ms, freq, t.Extras(), t.staticLen, t.maxLength, p.len, p.bl, e, p.overflow, p.opt,
                     p.stat, n, d);
    }
  }

  lemma OrderedAt(heap: seq<nat>, dad: seq<nat>, heapMax: nat, elems: nat, ms: seq<Pair>, e: nat)
    requires Ordered(heap, dad, heapMax, elems, ms) && e < 2 * |ms|
    ensures heap[HEAP_SIZE - 1 - e] == NodeAt(ms, e) < |dad| && dad[NodeAt(ms, e)] == elems + e / 2 < |dad|
  {
  }

  /** The first pass: depths, counts, costs, and how many entries were cut off. */
  method FirstPass(t: CtTree, heap: array<nat>, heapMax: nat, blCount: array<nat>, ghost leaves: set<nat>,
                   ghost ms: seq<Pair>)
    returns (overflow: nat, opt: int, stat: int)
    requires Ready(t, heap[..], heapMax, leaves, ms)
    requires blCount != t.len && blCount != t.freq && blCount != t.dad && blCount.Length == MAX_BITS + 1
    requires heap != t.len && heap != blCount
    modifies t.len, blCount
    ensures TreeProgress(t, t.freq[..], Pass(t.len[..], blCount[..], overflow, opt, stat), leaves, ms, 0)
    ensures forall x :: 0 <= x < t.elems && x !in leaves ==> t.len[x] == old(t.len[x])
  {
    ClearCounts(blCount);
    t.len[heap[heapMax]] := 0;
    FirstPassStart(t, t.freq[..], Pass(t.len[..], blCount[..], 0, 0, 0), leaves, ms);
    overflow, opt, stat := PassLoop(t, heap, heapMax, blCount, leaves, ms);
  }

  method PassLoop(t: CtTree, heap: array<nat>, heapMax: nat, blCount: array<nat>, ghost leaves: set<nat>,
                  ghost ms: seq<Pair>)
    returns (overflow: nat, opt: int, stat: int)
    requires Ready(t, heap[..], heapMax, leaves, ms)
    requires blCount != t.len && blCount != t.freq && blCount != t.dad && blCount.Length == MAX_BITS + 1
    requires heap != t.len && heap != blCount
    requires TreeProgress(t, t.freq[..], Pass(t.len[..], blCount[..], 0, 0, 0), leaves, ms, 2 * |ms|)
    modifies t.len, blCount
    ensures TreeProgress(t, t.freq[..], Pass(t.len[..], blCount[..], overflow, opt, stat), leaves, ms, 0)
    ensures forall x :: 0 <= x < t.elems && x !in leaves ==> t.len[x] == old(t.len[x])
  {
    hide TreeProgress;
    overflow, opt, stat := 0, 0, 0;
    ghost var p := Pass(t.len[..], blCount[..], overflow, opt, stat);
    var h := heapMax + 1;
    while h < HEAP_SIZE
      invariant heapMax + 1 <= h <= HEAP_SIZE
      invariant p == Pass(t.len[..], blCount[..], overflow, opt, stat)
      invariant TreeProgress(t, t.freq[..], p, leaves, ms, HEAP_SIZE - h)
      invariant forall x :: 0 <= x < t.elems && x !in leaves ==> p.len[x] == old(t.len[x])
    {
      OrderedAt(heap[..], t.dad[..], heapMax, t.elems, ms, HEAP_SIZE - 1 - h);
      overflow, opt, stat, p := PassStep(t, heap[h], HEAP_SIZE - 1 - h, blCount, leaves, ms, overflow, opt, stat, p);
      h := h + 1;
    }
  }

  method PassStep(t: CtTree, n: nat, ghost e: nat, blCount: array<nat>,
                  ghost leaves: set<nat>, ghost ms: seq<Pair>, overflow0: nat, opt0: int, stat0: int, ghost p: Pass)
    returns (overflow: nat, opt: int, stat: int, ghost q: Pass)
    requires t.Shape() && ValidMerges(leaves, t.elems, ms) && e < 2 * |ms| && |ms| < t.elems
    requires t.maxCode < t.elems && forall x :: x in leaves ==> x <= t.maxCode
    requires n == NodeAt(ms, e) < t.dad.Length && t.dad[n] == t.elems + e / 2
    requires blCount != t.len && blCount != t.freq && blCount != t.dad && blCount.Length == MAX_BITS + 1
    requires p == Pass(t.len[..], blCount[..], overflow0, opt0, stat0)
    requires TreeProgress(t, t.freq[..], p, leaves, ms, e + 1)
    modifies t.len, blCount
    ensures q == Pass(t.len[..], blCount[..], overflow, opt, stat)
    ensures TreeProgress(t, t.freq[..], q, leaves, ms, e)
    ensures forall x :: 0 <= x < t.elems && x !in leaves ==> q.len[x] == p.len[x]
  {
    overflow, opt, stat := PassEntry(t, blCount, n, overflow0, opt0, stat0);
    q := Pass(t.len[..], blCount[..], overflow, opt, stat);
    TreeProgressStep(t, t.freq[..], t.maxCode, p, q, leaves, ms, e);
  }

  lemma FirstPassStart(t: CtTree, freq: seq<nat>, p: Pass, leaves: set<nat>, ms: seq<Pair>)
    requires t.Shape() && |p.bl| == MAX_BITS + 1 && forall b :: 0 <= b <= MAX_BITS ==> p.bl[b] == 0
    requires p.overflow == p.opt == p.stat == 0 && |p.len| == |freq| == t.len.Length
    requires 0 < |ms| < t.elems && p.len[t.elems + |ms| - 1] == 0
    ensures TreeProgress(t, freq, p, leaves, ms, 2 * |ms|)
  {
    CountsNone(p.bl, p.len);
    SumEmpty(|p.len|, BitCost(freq, p.len, t.Extras()));
    SumEmpty(|p.len|, BitCost(freq, t.staticLen, t.Extras()));
  }
}
