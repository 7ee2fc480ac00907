/** scan_tree and send_tree of gzip.c: two passes over a tree's lengths that choose
    the same items, one counting them and one sending them. */
module TreeHeader {
  import opened Bits
  import opened RunLengths

  const GUARD: nat := 0xffff

  // ---- The scanning state both loops share ----

  /** Before looking at lens[n]: a run of `count` equal lengths has been seen, after
      length prev. */
  ghost predicate Scanning(lens: seq<nat>, n: nat, count: nat, prev: int, maxCount: nat, minCount: nat)
  {
    && count <= n <= |lens|
    && (n < |lens| ==> count < maxCount == MaxCount(lens[n], prev) && minCount == MinCount(lens[n], prev))
    && (n == |lens| ==> count == 0)
    && (forall j :: n - count <= j < n ==> n < |lens| && lens[j] == lens[n])
    && prev == if n - count == 0 then -1 else lens[n - count - 1]
  }

  /** The length after lens[n], or the guard behind the last one. */
  function Next(lens: seq<nat>, n: nat): (l: nat)
    requires n < |lens|
  {
    if n + 1 < |lens| then lens[n + 1] else GUARD
  }

  lemma RunGoesOn(lens: seq<nat>, n: nat, count: nat, prev: int, maxCount: nat, minCount: nat)
    requires n < |lens| && Scanning(lens, n, count, prev, maxCount, minCount) && lens[n] < GUARD
    requires count + 1 < maxCount && lens[n] == Next(lens, n)
    ensures Scanning(lens, n + 1, count + 1, prev, maxCount, minCount)
  {
  }

  /** The limits for the run after a run of cur, as the code sets them. */
  function NextMax(cur: nat, next: nat): (m: nat)
  {
    if next == 0 then 138 else if cur == next then 6 else 7
  }

  function NextMin(cur: nat, next: nat): (m: nat)
  {
    if next == 0 || cur == next then 3 else 4
  }

  /** A run that ends is what Rle takes next. */
  lemma RunEnds(lens: seq<nat>, n: nat, count: nat, prev: int, maxCount: nat, minCount: nat)
    requires n < |lens| && Scanning(lens, n, count, prev, maxCount, minCount)
    requires count + 1 >= maxCount || lens[n] != Next(lens, n)
    ensures count + 1 <= MaxCount(lens[n], prev)
    ensures Rle(lens, n - count, prev) == Emit(lens[n], count + 1, prev) + Rle(lens, n + 1, lens[n])
    ensures Scanning(lens, n + 1, 0, lens[n], NextMax(lens[n], Next(lens, n)), NextMin(lens[n], Next(lens, n)))
  {
    var start := n - count;
    assert lens[start] == lens[n];
    RunLenIs(lens, start, maxCount, count + 1);
  }

  /** The loop variables of both passes. */
  datatype Run = Run(count: nat, prev: int, maxCount: nat, minCount: nat)

  /** The items of the runs before the current one, followed by Rle from there, are
      all the items of the tree. */
  ghost predicate Pass(lens: seq<nat>, n: nat, r: Run, done: seq<Item>, all: seq<Item>)
  {
    && Scanning(lens, n, r.count, r.prev, r.maxCount, r.minCount)
    && done + Rle(lens, n - r.count, r.prev) == all
  }

  lemma PassStart(lens: seq<nat>)
    requires 0 < |lens|
    ensures Pass(lens, 0, if lens[0] == 0 then Run(0, -1, 138, 3) else Run(0, -1, 7, 4), [], Rle(lens, 0, -1))
  {
    assert [] + Rle(lens, 0, -1) == Rle(lens, 0, -1);
  }

  lemma PassGoesOn(lens: seq<nat>, n: nat, r: Run, done: seq<Item>, all: seq<Item>)
    requires n < |lens| && Pass(lens, n, r, done, all) && lens[n] < GUARD
    requires r.count + 1 < r.maxCount && lens[n] == Next(lens, n)
    ensures Pass(lens, n + 1, r.(count := r.count + 1), done, all)
  {
    RunGoesOn(lens, n, r.count, r.prev, r.maxCount, r.minCount);
  }

  lemma PassEnds(lens: seq<nat>, n: nat, r: Run, done: seq<Item>, all: seq<Item>)
    requires n < |lens| && Pass(lens, n, r, done, all)
    requires r.count + 1 >= r.maxCount || lens[n] != Next(lens, n)
    ensures r.count + 1 <= MaxCount(lens[n], r.prev) && r.minCount == MinCount(lens[n], r.prev)
    ensures Pass(lens, n + 1, Run(0, lens[n], NextMax(lens[n], Next(lens, n)), NextMin(lens[n], Next(lens, n))),
                 done + Emit(lens[n], r.count + 1, r.prev), all)
  {
    RunEnds(lens, n, r.count, r.prev, r.maxCount, r.minCount);
    Assoc(done, Emit(lens[n], r.count + 1, r.prev), Rle(lens, n + 1, lens[n]));
  }

  lemma PassDone(lens: seq<nat>, r: Run, done: seq<Item>, all: seq<Item>)
    requires Pass(lens, |lens|, r, done, all)
    ensures done == all
  {
    assert done + [] == done;
  }

  /** The limits for the next run. */
  method Limits(cur: nat, next: nat) returns (maxCount: nat, minCount: nat)
    ensures maxCount == NextMax(cur, next) && minCount == NextMin(cur, next)
  {
    maxCount, minCount := 7, 4;
    if next == 0 {
      maxCount, minCount := 138, 3;
    } else if cur == next {
      maxCount, minCount := 6, 3;
    }
  }

  // ---- Counting ----

  function SymCount(items: seq<Item>, s: nat): (n: nat)
    decreases |items|
  {
    if items == [] then 0 else (if items[0].sym == s then 1 else 0) + SymCount(items[1..], s)
  }

  lemma {:induction false} SymCountConcat(a: seq<Item>, b: seq<Item>, s: nat)
    ensures SymCount(a + b, s) == SymCount(a, s) + SymCount(b, s)
    decreases |a|
  {
    if a == [] {
      assert a + b == b;
    } else {
      assert (a + b)[0] == a[0] && (a + b)[1..] == a[1..] + b;
      SymCountConcat(a[1..], b, s);
    }
  }

  lemma {:induction false} SymCountSame(x: nat, n: nat, s: nat)
    ensures SymCount(seq(n, i => Item(x, 0)), s) == if s == x then n else 0
    decreases n
  {
    if n > 0 {
      assert seq(n, i => Item(x, 0))[1..] == seq(n - 1, i => Item(x, 0));
      SymCountSame(x, n - 1, s);
    }
  }

  /** freq is freq0 plus the symbols of the items. */
  ghost predicate Counted(freq0: seq<nat>, freq: seq<nat>, items: seq<Item>)
  {
    |freq| == |freq0| && forall s :: 0 <= s < |freq| ==> freq[s] == freq0[s] + SymCount(items, s)
  }

  lemma CountedConcat(f0: seq<nat>, f1: seq<nat>, f2: seq<nat>, a: seq<Item>, b: seq<Item>)
    requires Counted(f0, f1, a) && Counted(f1, f2, b)
    ensures Counted(f0, f2, a + b)
  {
    forall s | 0 <= s < |f2| ensures f2[s] == f0[s] + SymCount(a + b, s) {
      SymCountConcat(a, b, s);
    }
  }

  lemma CountedSame(freq: seq<nat>, x: nat, n: nat)
    requires x < |freq|
    ensures Counted(freq, freq[x := freq[x] + n], seq(n, i => Item(x, 0)))
  {
    forall s | 0 <= s < |freq| ensures freq[x := freq[x] + n][s] == freq[s] + SymCount(seq(n, i => Item(x, 0)), s) {
      SymCountSame(x, n, s);
    }
  }

  lemma CountedOne(freq: seq<nat>, it: Item)
    requires it.sym < |freq|
    ensures Counted(freq, freq[it.sym := freq[it.sym] + 1], [it])
  {
    forall s | 0 <= s < |freq|
      ensures freq[it.sym := freq[it.sym] + 1][s] == freq[s] + SymCount([it], s)
    {
      assert [it][1..] == [] && SymCount([it], s) == if it.sym == s then 1 else 0;
    }
  }

  /** Count the items of one run. */
  method ScanRun(freq: array<nat>, cur: nat, count: nat, prev: int, minCount: nat)
    requires cur <= 15 && 19 <= freq.Length && 1 <= count <= MaxCount(cur, prev) && minCount == MinCount(cur, prev)
    modifies freq
    ensures Counted(old(freq[..]), freq[..], Emit(cur, count, prev))
  {
    ghost var f := freq[..];
    if count < minCount {
      CountedSame(f, cur, count);
      freq[cur] := freq[cur] + count;
    } else if cur != 0 {
      if cur != prev {
        CountedOne(f, Item(cur, 0));
        freq[cur] := freq[cur] + 1;
        ghost var f1 := freq[..];
        CountedOne(f1, Item(16, count - 4));
        CountedConcat(f, f1, f1[16 := f1[16] + 1], [Item(cur, 0)], [Item(16, count - 4)]);
        assert [Item(cur, 0)] + [Item(16, count - 4)] == [Item(cur, 0), Item(16, count - 4)];
      } else {
        CountedOne(f, Item(16, count - 3));
      }
      freq[16] := freq[16] + 1;
    } else if count <= 10 {
      CountedOne(f, Item(17, count - 3));
      freq[17] := freq[17] + 1;
    } else {
      CountedOne(f, Item(18, count - 11));
      freq[18] := freq[18] + 1;
    }
  }

  /** One round of scan_tree, at lens[n] with lens[n+1] or the guard to come. */
  method ScanOne(freq: array<nat>, ghost lens: seq<nat>, ghost n: nat, cur: nat, next: nat, r: Run,
                 ghost done: seq<Item>, ghost all: seq<Item>)
    returns (r': Run, ghost out: seq<Item>)
    requires n < |lens| && cur == lens[n] <= 15 && next == Next(lens, n) && 19 <= freq.Length
    requires Pass(lens, n, r, done, all)
    modifies freq
    ensures Pass(lens, n + 1, r', done + out, all)
    ensures Counted(old(freq[..]), freq[..], out)
  {
    var count := r.count + 1;
    if count < r.maxCount && cur == next {
      PassGoesOn(lens, n, r, done, all);
      r', out := r.(count := count), [];
      assert done + [] == done;
    } else {
      PassEnds(lens, n, r, done, all);
      ScanRun(freq, cur, count, r.prev, r.minCount);
      var maxCount, minCount := Limits(cur, next);
      r', out := Run(0, cur, maxCount, minCount), Emit(cur, count, r.prev);
    }
  }

  /** The array holds the lengths and the guard behind them. */
  ghost predicate Guarded(len: seq<nat>, lens: seq<nat>)
  {
    && 0 < |lens| < |len| && (forall j :: 0 <= j < |lens| ==> len[j] == lens[j] <= 15) && len[|lens|] == GUARD
  }

  method ScanLoop(len: array<nat>, freq: array<nat>, ghost lens: seq<nat>, maxCode: nat, first: Run,
                  ghost all: seq<Item>)
    requires Guarded(len[..], lens) && maxCode + 1 == |lens| && 19 <= freq.Length && freq != len
    requires Pass(lens, 0, first, [], all)
    modifies freq
    ensures Counted(old(freq[..]), freq[..], all)
  {
    var nextLen, r, n := len[0], first, 0;
    ghost var done: seq<Item> := [];
    while n <= maxCode
      invariant 0 <= n <= maxCode + 1 && nextLen == len[n]
      invariant Pass(lens, n, r, done, all)
      invariant Counted(old(freq[..]), freq[..], done)
    {
      var curLen := nextLen;
      nextLen := len[n + 1];
      ghost var f1, out := freq[..], [];
      r, out := ScanOne(freq, lens, n, curLen, nextLen, r, done, all);
      CountedConcat(old(freq[..]), f1, freq[..], done, out);
      done := done + out;
      n := n + 1;
    }
    PassDone(lens, r, done, all);
  }

  /** scan_tree: set the guard and add the items of the tree to the frequencies of
      the code length alphabet. */
  method ScanTree(len: array<nat>, maxCode: nat, freq: array<nat>)
    requires maxCode + 1 < len.Length && 19 <= freq.Length && freq != len
    requires forall j :: 0 <= j <= maxCode ==> len[j] <= 15
    modifies len, freq
    ensures len[..] == old(len[..])[maxCode + 1 := GUARD]
    ensures Counted(old(freq[..]), freq[..], Rle(old(len[..maxCode + 1]), 0, -1))
  {
    ghost var lens := len[..maxCode + 1];
    var first := if len[0] == 0 then Run(0, -1, 138, 3) else Run(0, -1, 7, 4);
    len[maxCode + 1] := GUARD;
    PassStart(lens);
    ScanLoop(len, freq, lens, maxCode, first, Rle(lens, 0, -1));
  }
}
