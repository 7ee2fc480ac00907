/** The overflow repair of gen_bitlen: working on bl_count alone, it turns clipped
    depths into a complete code. */
module LengthRepair {
  import opened Bits
  import opened Sums
  import opened Merges
  import opened Canonical
  import opened GenCodes

  /** Codes counted by bl, in units of one b-bit code. */
  function Units(bl: seq<nat>, b: nat): (u: nat)
    requires b < |bl|
  {
    if b == 0 then 0 else 2 * Units(bl, b - 1) + bl[b]
  }

  /** Number of codes of length 1..b. */
  function Total(bl: seq<nat>, b: nat): (t: nat)
    requires b < |bl|
  {
    if b == 0 then 0 else Total(bl, b - 1) + bl[b]
  }

  lemma {:induction false} UnitsOfHistogram(bl: seq<nat>, lens: seq<nat>, b: nat)
    requires IsHistogram(bl, lens) && b <= MAX_BITS
    ensures Units(bl, b) == CodeEnd(lens, b)
  {
    if b > 0 { UnitsOfHistogram(bl, lens, b - 1); }
  }

  /** Counting b-bit units level by level is the Kraft sum over the members of s. */
  lemma {:induction false} UnitsOfSet(n: nat, s: set<nat>, len: seq<nat>, bl: seq<nat>, b: nat)
    requires b < |bl| && forall x :: x in s && x < n ==> x < |len| && len[x] >= 1
    requires forall c :: 1 <= c <= b ==> bl[c] == Sum(n, s, AtDepth(len, c))
    ensures Units(bl, b) == Sum(n, s, Weight(len, b))
  {
    if b == 0 {
      SumZero(n, s, Weight(len, 0));
    } else {
      UnitsOfSet(n, s, len, bl, b - 1);
      SumDouble(n, s, Weight(len, b - 1), AtDepth(len, b), Weight(len, b));
    }
  }

  lemma {:induction false} SumZero(n: nat, s: set<nat>, f: nat -> int)
    requires forall x :: x in s && x < n ==> f(x) == 0
    ensures Sum(n, s, f) == 0
  {
    if n > 0 { SumZero(n - 1, s, f); }
  }

  lemma {:induction false} SumDouble(n: nat, s: set<nat>, f: nat -> int, g: nat -> int, h: nat -> int)
    requires forall x :: x in s && x < n ==> h(x) == 2 * f(x) + g(x)
    ensures Sum(n, s, h) == 2 * Sum(n, s, f) + Sum(n, s, g)
  {
    if n > 0 { SumDouble(n - 1, s, f, g, h); }
  }

  /** One more code of length k is 2^(b-k) more b-bit units. */
  lemma {:induction false} UnitsBump(bl: seq<nat>, k: nat, b: nat)
    requires 1 <= k < |bl| && b < |bl|
    ensures Units(bl[k := bl[k] + 1], b) == Units(bl, b) + if k <= b then Pow2(b - k) else 0
    ensures Total(bl[k := bl[k] + 1], b) == Total(bl, b) + if k <= b then 1 else 0
  {
    if b > 0 { UnitsBump(bl, k, b - 1); }
  }

  lemma {:induction false} NoShortCodes(bl: seq<nat>, b: nat)
    requires b < |bl| && forall c :: 1 <= c <= b ==> bl[c] == 0
    ensures Units(bl, b) == 0
  {
    if b > 0 { NoShortCodes(bl, b - 1); }
  }

  lemma {:induction false} TotalAtLeast(bl: seq<nat>, k: nat, b: nat)
    requires 1 <= k <= b < |bl|
    ensures Total(bl, b) >= bl[k]
  {
    if k < b { TotalAtLeast(bl, k, b - 1); }
  }

  /** An oversubscribed code for at most 2^max symbols has a code shorter than max. */
  lemma SomeShortCode(bl: seq<nat>, max: nat)
    requires 1 <= max < |bl| && Pow2(max) < Units(bl, max) && Total(bl, max) <= Pow2(max)
    ensures exists b :: 1 <= b < max && bl[b] > 0
  {
    if forall b :: 1 <= b < max ==> bl[b] == 0 {
      NoShortCodes(bl, max - 1);
      TotalAtLeast(bl, max, max);
      assert false;
    }
  }

  /** The counts of a code oversubscribed by `over` units that still has enough codes
      of length max to give up. */
  ghost predicate Oversubscribed(bl: seq<nat>, max: nat, over: nat, count: nat)
  {
    && 1 <= max < |bl| && bl[0] == 0
    && Units(bl, max) == Pow2(max) + over
    && over <= bl[max]
    && Total(bl, max) == count <= Pow2(max)
  }

  /** Move one leaf of length `bits` down, give it an overflow item as brother. */
  function MoveLeaf(bl: seq<nat>, max: nat, bits: nat): (r: seq<nat>)
    requires 1 <= bits < max < |bl| && bl[bits] > 0 && bl[max] > 0
    ensures |r| == |bl|
  {
    var b1 := bl[bits := bl[bits] - 1];
    var b2 := b1[bits + 1 := b1[bits + 1] + 2];
    b2[max := b2[max] - 1]
  }

  lemma UnitsDrop(bl: seq<nat>, k: nat, b: nat)
    requires 1 <= k <= b < |bl| && bl[k] > 0
    ensures Units(bl[k := bl[k] - 1], b) == Units(bl, b) - Pow2(b - k)
    ensures Total(bl[k := bl[k] - 1], b) == Total(bl, b) - 1
  {
    var less := bl[k := bl[k] - 1];
    assert less[k := less[k] + 1] == bl;
    UnitsBump(less, k, b);
  }

  lemma UnitsAddTwo(bl: seq<nat>, k: nat, b: nat)
    requires 1 <= k <= b < |bl|
    ensures Units(bl[k := bl[k] + 2], b) == Units(bl, b) + 2 * Pow2(b - k)
    ensures Total(bl[k := bl[k] + 2], b) == Total(bl, b) + 2
  {
    var one := bl[k := bl[k] + 1];
    assert one[k := one[k] + 1] == bl[k := bl[k] + 2];
    UnitsBump(bl, k, b);
    UnitsBump(one, k, b);
  }

  lemma MoveLeafUnits(bl: seq<nat>, max: nat, bits: nat)
    requires 1 <= bits < max < |bl| && bl[bits] > 0 && bl[max] > 0
    ensures Units(MoveLeaf(bl, max, bits), max) == Units(bl, max) - 1
    ensures Total(MoveLeaf(bl, max, bits), max) == Total(bl, max)
  {
    var b1 := bl[bits := bl[bits] - 1];
    var b2 := b1[bits + 1 := b1[bits + 1] + 2];
    UnitsDrop(bl, bits, max);
    UnitsAddTwo(b1, bits + 1, max);
    UnitsDrop(b2, max, max);
  }

  /** Each round removes one unit and keeps the number of codes. */
  lemma RoundRemovesOneUnit(bl: seq<nat>, max: nat, over: nat, count: nat, bits: nat)
    requires Oversubscribed(bl, max, over, count) && over > 0
    requires 1 <= bits < max && bl[bits] > 0
    ensures Oversubscribed(MoveLeaf(bl, max, bits), max, over - 1, count)
    ensures MoveLeaf(bl, max, bits)[max] >= bl[max] - 1
  {
    MoveLeafUnits(bl, max, bits);
  }

  /** The longest codes shorter than max have that many bits. */
  ghost predicate Deepest(bl: seq<nat>, max: nat, bits: nat)
  {
    1 <= bits < max < |bl| && bl[bits] > 0 && bl[max] > 0 && forall b :: bits < b < max ==> bl[b] == 0
  }

  /** n times a leaf as deep as can be was moved down. */
  ghost predicate Moved(bl: seq<nat>, max: nat, n: nat, bl': seq<nat>)
    decreases n, 1
  {
    if n == 0 then bl' == bl else exists mid, bits :: MovedLast(bl, max, n, mid, bits, bl')
  }

  ghost predicate MovedLast(bl: seq<nat>, max: nat, n: nat, mid: seq<nat>, bits: nat, bl': seq<nat>)
    requires n > 0
    decreases n, 0
  {
    Moved(bl, max, n - 1, mid) && Deepest(mid, max, bits) && bl' == MoveLeaf(mid, max, bits)
  }

  lemma MovedMore(bl: seq<nat>, max: nat, n: nat, mid: seq<nat>, bits: nat, bl': seq<nat>, m: nat)
    requires Moved(bl, max, n, mid) && Deepest(mid, max, bits) && bl' == MoveLeaf(mid, max, bits) && m == n + 1
    ensures Moved(bl, max, m, bl')
  {
    assert MovedLast(bl, max, m, mid, bits, bl');
  }

  /** The first bit length below max which could increase. */
  method FindLevel(blCount: array<nat>, max: nat) returns (bits: nat)
    requires blCount.Length == MAX_BITS + 1 && 1 <= max <= MAX_BITS
    requires exists b :: 1 <= b < max && blCount[b] > 0
    ensures 1 <= bits < max && blCount[bits] > 0
    ensures forall b :: bits < b < max ==> blCount[b] == 0
  {
    bits := max - 1;
    while blCount[bits] == 0
      invariant 0 <= bits < max
      invariant forall b :: bits < b < max ==> blCount[b] == 0
      decreases bits
    {
      bits := bits - 1;
    }
  }

  /** The repair loop; `overflow` is twice the number of units too many.  For each of them
      a leaf as deep as can be is moved down.  Some codes of length max remain. */
  method Repair(blCount: array<nat>, max: nat, overflow: nat, ghost count: nat)
    requires blCount.Length == MAX_BITS + 1 && max <= MAX_BITS
    requires overflow > 0 && overflow % 2 == 0
    requires Oversubscribed(blCount[..], max, overflow / 2, count) && blCount[max] > overflow / 2
    modifies blCount
    ensures Oversubscribed(blCount[..], max, 0, count) && blCount[max] > 0
    ensures Moved(old(blCount[..]), max, overflow / 2, blCount[..])
    ensures forall b :: max < b <= MAX_BITS ==> blCount[b] == old(blCount[b])
  {
    hide Oversubscribed, Moved;
    var left := overflow;
    ghost var bl, done := blCount[..], 0;
    MovedNone(bl, max);
    while left > 0
      invariant left % 2 == 0 && done == (overflow - left) / 2 && Moved(bl, max, done, blCount[..])
      invariant Oversubscribed(blCount[..], max, left / 2, count) && blCount[max] > left / 2
      invariant forall b :: max < b <= MAX_BITS ==> blCount[b] == old(blCount[b])
    {
      ghost var mid := blCount[..];
      var bits := Round(blCount, max, left / 2, count);
      MovedMore(bl, max, done, mid, bits, blCount[..], done + 1);
      done := done + 1;
      left := left - 2;
    }
  }

  lemma MovedNone(bl: seq<nat>, max: nat)
    ensures Moved(bl, max, 0, bl)
  {
  }

  method Round(blCount: array<nat>, max: nat, ghost over: nat, ghost count: nat) returns (bits: nat)
    requires blCount.Length == MAX_BITS + 1 && max <= MAX_BITS
    requires over > 0 && Oversubscribed(blCount[..], max, over, count)
    modifies blCount
    ensures Oversubscribed(blCount[..], max, over - 1, count) && blCount[max] >= old(blCount[max]) - 1
    ensures Deepest(old(blCount[..]), max, bits) && blCount[..] == MoveLeaf(old(blCount[..]), max, bits)
    ensures forall b :: max < b <= MAX_BITS ==> blCount[b] == old(blCount[b])
  {
    SomeShortCode(blCount[..], max);
    bits := FindLevel(blCount, max);
    ghost var bl := blCount[..];
    RoundRemovesOneUnit(bl, max, over, count, bits);
    blCount[bits] := blCount[bits] - 1;
    blCount[bits + 1] := blCount[bits + 1] + 2;
    blCount[max] := blCount[max] - 1;
    assert blCount[..] == MoveLeaf(bl, max, bits);
  }
}
