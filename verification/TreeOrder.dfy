/** The order in which build_tree leaves the nodes in the heap array: counted from
    the end, merge i's two nodes are entries 2i and 2i+1.  gen_bitlen walks the
    entries from the root's sons down to entry 0, and on overflow back up. */
module TreeOrder {
  import opened Merges

  function NodeAt(ms: seq<Pair>, e: nat): (x: nat)
    requires e < 2 * |ms|
  {
    if e % 2 == 0 then ms[e / 2].0 else ms[e / 2].1
  }

  lemma NodeInPool(leaves: set<nat>, elems: nat, ms: seq<Pair>, e: nat)
    requires ValidMerges(leaves, elems, ms) && e < 2 * |ms|
    ensures NodeAt(ms, e) in Pool(leaves, elems, ms, e / 2)
    ensures NodeAt(ms, e) !in Pool(leaves, elems, ms, e / 2 + 1)
    ensures NodeAt(ms, e) < elems + e / 2
  {
    assert ValidAt(leaves, elems, ms, e / 2);
    PoolBound(leaves, elems, ms, e / 2);
  }

  lemma {:induction false} PoolMembers(leaves: set<nat>, elems: nat, ms: seq<Pair>, i: nat)
    requires i <= |ms|
    ensures forall x :: x in Pool(leaves, elems, ms, i) ==> x in leaves || elems <= x < elems + i
  {
    if i > 0 { PoolMembers(leaves, elems, ms, i - 1); }
  }

  /** A tree node is a leaf or a father. */
  lemma LeafOrFather(leaves: set<nat>, elems: nat, ms: seq<Pair>, e: nat)
    requires ValidMerges(leaves, elems, ms) && e < 2 * |ms|
    ensures NodeAt(ms, e) in leaves || NodeAt(ms, e) >= elems
  {
    NodeInPool(leaves, elems, ms, e);
    PoolMembers(leaves, elems, ms, e / 2);
  }

  /** A merged node never comes back. */
  lemma {:induction false} Gone(leaves: set<nat>, elems: nat, ms: seq<Pair>, x: nat, i: nat, j: nat)
    requires i <= j <= |ms| && x < elems + i && x !in Pool(leaves, elems, ms, i)
    ensures x !in Pool(leaves, elems, ms, j)
    decreases j
  {
    if i < j { Gone(leaves, elems, ms, x, i, j - 1); }
  }

  lemma NodesDistinct(leaves: set<nat>, elems: nat, ms: seq<Pair>, e: nat, f: nat)
    requires ValidMerges(leaves, elems, ms) && e < f < 2 * |ms|
    ensures NodeAt(ms, e) != NodeAt(ms, f)
  {
    NodeInPool(leaves, elems, ms, e);
    NodeInPool(leaves, elems, ms, f);
    if e / 2 < f / 2 {
      Gone(leaves, elems, ms, NodeAt(ms, e), e / 2 + 1, f / 2);
    } else {
      assert ValidAt(leaves, elems, ms, e / 2);
    }
  }

  /** Leaves among the entries from e on. */
  function LeavesFrom(leaves: set<nat>, ms: seq<Pair>, e: nat): (s: set<nat>)
    requires e <= 2 * |ms|
    decreases 2 * |ms| - e
  {
    if e == 2 * |ms| then {}
    else if NodeAt(ms, e) in leaves then LeavesFrom(leaves, ms, e + 1) + {NodeAt(ms, e)}
    else LeavesFrom(leaves, ms, e + 1)
  }

  lemma {:induction false} LeavesFromIn(leaves: set<nat>, ms: seq<Pair>, e: nat)
    requires e <= 2 * |ms|
    ensures LeavesFrom(leaves, ms, e) <= leaves
    decreases 2 * |ms| - e
  {
    if e < 2 * |ms| { LeavesFromIn(leaves, ms, e + 1); }
  }

  lemma {:induction false} NotAmongLater(leaves: set<nat>, elems: nat, ms: seq<Pair>, e: nat, f: nat)
    requires ValidMerges(leaves, elems, ms) && e < f <= 2 * |ms|
    ensures NodeAt(ms, e) !in LeavesFrom(leaves, ms, f)
    decreases 2 * |ms| - f
  {
    if f < 2 * |ms| {
      NodesDistinct(leaves, elems, ms, e, f);
      NotAmongLater(leaves, elems, ms, e, f + 1);
    }
  }

  lemma {:induction false} LeavesOfPool(leaves: set<nat>, elems: nat, ms: seq<Pair>, i: nat)
    requires ValidMerges(leaves, elems, ms) && i <= |ms| && 0 < |ms| == |leaves| - 1
    ensures LeavesFrom(leaves, ms, 2 * i) == Pool(leaves, elems, ms, i) * leaves
    decreases |ms| - i
  {
    if i == |ms| {
      RootPool(leaves, elems, ms);
    } else {
      LeavesOfPool(leaves, elems, ms, i + 1);
      assert ValidAt(leaves, elems, ms, i);
      var rest := LeavesFrom(leaves, ms, 2 * (i + 1));
      assert NodeAt(ms, 2 * i) == ms[i].0 && NodeAt(ms, 2 * i + 1) == ms[i].1;
      LeavesFromTwo(leaves, ms, i);
      assert elems + i !in leaves;
      assert Pool(leaves, elems, ms, i + 1) == Pool(leaves, elems, ms, i) - {ms[i].0, ms[i].1} + {elems + i};
    }
  }

  lemma LeavesFromTwo(leaves: set<nat>, ms: seq<Pair>, i: nat)
    requires i < |ms|
    ensures LeavesFrom(leaves, ms, 2 * i) == LeavesFrom(leaves, ms, 2 * (i + 1)) + {ms[i].0, ms[i].1} * leaves
  {
    assert NodeAt(ms, 2 * i) == ms[i].0 && NodeAt(ms, 2 * i + 1) == ms[i].1;
    assert LeavesFrom(leaves, ms, 2 * i + 2) == LeavesFrom(leaves, ms, 2 * (i + 1));
  }

  /** All leaves are entries. */
  lemma AllLeaves(leaves: set<nat>, elems: nat, ms: seq<Pair>)
    requires ValidMerges(leaves, elems, ms) && 0 < |ms| == |leaves| - 1
    ensures LeavesFrom(leaves, ms, 0) == leaves
  {
    LeavesOfPool(leaves, elems, ms, 0);
  }

  // ---- The first pass of gen_bitlen, entry by entry ----

  function Clip(d: nat, max: nat): (r: nat)
    ensures d > 0 && max > 0 ==> r > 0
  {
    if d > max then max else d
  }

  ghost predicate EntryOk(elems: nat, ms: seq<Pair>, len: seq<nat>, max: nat, f: nat)
    requires f < 2 * |ms|
  {
    && NodeAt(ms, f) < |len| && elems + f / 2 < |len|
    && len[NodeAt(ms, f)] == Clip(len[elems + f / 2] + 1, max)
  }

  /** Entries from e on have their depth. */
  ghost predicate EntriesOk(elems: nat, ms: seq<Pair>, len: seq<nat>, max: nat, e: nat)
    requires e <= 2 * |ms|
  {
    && 0 < |ms| && elems + |ms| <= |len| && len[elems + |ms| - 1] == 0
    && forall f {:trigger EntryOk(elems, ms, len, max, f)} :: e <= f < 2 * |ms| ==> EntryOk(elems, ms, len, max, f)
  }

  /** Entries from e on that were cut off at max. */
  function Overflow(elems: nat, k: nat, len: seq<nat>, max: nat, e: nat): (n: nat)
    requires e <= 2 * k && elems + k <= |len|
    decreases 2 * k - e
  {
    if e == 2 * k then 0
    else (if len[elems + e / 2] + 1 > max then 1 else 0) + Overflow(elems, k, len, max, e + 1)
  }

  lemma {:induction false} OverflowFrame(elems: nat, k: nat, len: seq<nat>, max: nat, e: nat, x: nat, v: nat)
    requires e <= 2 * k && elems + k <= |len| && x < |len|
    requires x < elems + e / 2
    ensures Overflow(elems, k, len[x := v], max, e) == Overflow(elems, k, len, max, e)
    decreases 2 * k - e
  {
    if e < 2 * k { OverflowFrame(elems, k, len, max, e + 1, x, v); }
  }

  lemma EntryFrame(leaves: set<nat>, elems: nat, ms: seq<Pair>, len: seq<nat>, max: nat, e: nat, f: nat, v: nat)
    requires ValidMerges(leaves, elems, ms) && e < f < 2 * |ms| && EntryOk(elems, ms, len, max, f)
    requires NodeAt(ms, e) < |len|
    ensures EntryOk(elems, ms, len[NodeAt(ms, e) := v], max, f)
  {
    NodesDistinct(leaves, elems, ms, e, f);
    NodeInPool(leaves, elems, ms, e);
  }

  /** Giving entry e its depth keeps the later entries right. */
  lemma EntryStep(leaves: set<nat>, elems: nat, ms: seq<Pair>, len: seq<nat>, max: nat, e: nat)
    requires ValidMerges(leaves, elems, ms) && e < 2 * |ms| && EntriesOk(elems, ms, len, max, e + 1)
    ensures var x := NodeAt(ms, e);
            x < elems + e / 2 < |len|
    ensures var x, d := NodeAt(ms, e), len[elems + e / 2] + 1;
            var len' := len[x := Clip(d, max)];
            && EntriesOk(elems, ms, len', max, e)
            && Overflow(elems, |ms|, len', max, e)
               == Overflow(elems, |ms|, len, max, e + 1) + if d > max then 1 else 0
  {
    NodeInPool(leaves, elems, ms, e);
    var x, d := NodeAt(ms, e), len[elems + e / 2] + 1;
    var len' := len[x := Clip(d, max)];
    forall f | e <= f < 2 * |ms|
      ensures EntryOk(elems, ms, len', max, f)
    {
      if e < f {
        assert EntryOk(elems, ms, len, max, f);
        EntryFrame(leaves, elems, ms, len, max, e, f, Clip(d, max));
      }
    }
    OverflowFrame(elems, |ms|, len, max, e + 1, x, Clip(d, max));
  }

  lemma EntriesGiveLevels(elems: nat, ms: seq<Pair>, len: seq<nat>, max: nat)
    requires EntriesOk(elems, ms, len, max, 0)
    ensures Levels(elems, ms, len, max)
  {
    forall i | 0 <= i < |ms|
      ensures LevelAt(elems, ms, len, max, i)
    {
      assert EntryOk(elems, ms, len, max, 2 * i) && EntryOk(elems, ms, len, max, 2 * i + 1);
      assert NodeAt(ms, 2 * i) == ms[i].0 && NodeAt(ms, 2 * i + 1) == ms[i].1;
      assert (2 * i) / 2 == i && (2 * i + 1) / 2 == i;
    }
  }

  /** Entries are cut off in pairs, one pair for each father at depth max. */
  lemma {:induction false} OverflowIsTwiceClipped(elems: nat, k: nat, len: seq<nat>, max: nat, i: nat)
    requires i <= k && elems + k <= |len|
    requires forall j :: elems <= j < elems + k ==> len[j] <= max
    ensures Overflow(elems, k, len, max, 2 * i) == 2 * Clipped(elems, len, max, i, k)
    decreases k - i
  {
    if i < k {
      OverflowIsTwiceClipped(elems, k, len, max, i + 1);
      assert (2 * i) / 2 == i && (2 * i + 1) / 2 == i;
      assert Overflow(elems, k, len, max, 2 * i + 2) == Overflow(elems, k, len, max, 2 * (i + 1));
    }
  }

  /** Every father is no deeper than max. */
  lemma FathersLevel(leaves: set<nat>, elems: nat, ms: seq<Pair>, len: seq<nat>, max: nat, j: nat)
    requires ValidMerges(leaves, elems, ms) && j < |ms| == |leaves| - 1 && Levels(elems, ms, len, max)
    ensures len[elems + j] <= max
  {
    PoolLevels(leaves, elems, ms, len, max, j + 1);
    assert elems + j in Pool(leaves, elems, ms, j + 1);
  }
}
