/** How many symbols are counted: the frequencies of gzip.c are 16-bit numbers, and none
    of them, nor of the nodes build_tree makes from them, needs more. */
module Frequencies {
  import opened Rfc1951
  import opened Weights
  import opened CodeTables
  import opened BlockCode
  import opened Costs
  import TH = TreeHeader

  lemma {:induction false} TotalBump(f: seq<nat>, s: nat)
    requires s < |f|
    ensures TotalOf(Bump(f, s)) == TotalOf(f) + 1
    decreases |f|
  {
    var g, last := Bump(f, s), |f| - 1;
    if s < last {
      assert g[..last] == Bump(f[..last], s);
      TotalBump(f[..last], s);
    } else {
      assert g[..last] == f[..last];
    }
  }

  lemma {:induction false} TotalZero(n: nat)
    ensures TotalOf(Repeat(0, n)) == 0
  {
    if n > 0 {
      assert Repeat(0, n)[..n - 1] == Repeat(0, n - 1);
      TotalZero(n - 1);
    }
  }

  /** Every token is counted once as a literal or length, at most once as a distance. */
  lemma {:induction false} TokensTotal(tab: Tab, ts: seq<Token>)
    requires tab.Valid() && forall i :: 0 <= i < |ts| ==> TokenOk(ts[i])
    ensures TotalOf(LitFreqs(tab, ts)) == |ts| + 1 && TotalOf(DistFreqs(tab, ts)) <= |ts|
    decreases |ts|
  {
    hide TotalOf;
    if ts == [] {
      NoTokens();
    } else {
      var init, t := ts[..|ts| - 1], ts[|ts| - 1];
      TokensTotal(tab, init);
      TotalBump(LitFreqs(tab, init), LitSym(tab, t));
      if t.Match? { TotalBump(DistFreqs(tab, init), DistSym(tab, t)); }
    }
  }

  lemma NoTokens()
    ensures TotalOf(Repeat(0, L_CODES)[END_BLOCK := 1]) == 1 && TotalOf(Repeat(0, D_CODES)) == 0
  {
    TotalZero(L_CODES);
    TotalZero(D_CODES);
    TotalBump(Repeat(0, L_CODES), END_BLOCK);
  }

  // ---- The code length alphabet ----

  lemma {:induction false} TotalCount(f0: seq<nat>, f1: seq<nat>, items: seq<RL.Item>, n: nat, k: nat)
    requires k <= n <= |f0| == |f1| && TH.Counted(f0, f1, items)
    ensures TotalOf(f1[..k]) == TotalOf(f0[..k]) + SymsBelow(items, k)
    decreases k
  {
    if k == 0 {
      NoSyms(items);
    } else {
      TotalCount(f0, f1, items, n, k - 1);
      assert f1[..k][..k - 1] == f1[..k - 1] && f0[..k][..k - 1] == f0[..k - 1];
      SymsOne(items, k - 1);
    }
  }

  /** Items with a symbol below k. */
  function SymsBelow(items: seq<RL.Item>, k: nat): (n: nat)
    ensures n <= |items|
    decreases |items|
  {
    if items == [] then 0 else (if items[0].sym < k then 1 else 0) + SymsBelow(items[1..], k)
  }

  lemma {:induction false} NoSyms(items: seq<RL.Item>)
    ensures SymsBelow(items, 0) == 0
    decreases |items|
  {
    if items != [] { NoSyms(items[1..]); }
  }

  lemma {:induction false} SymsOne(items: seq<RL.Item>, s: nat)
    ensures SymsBelow(items, s + 1) == SymsBelow(items, s) + TH.SymCount(items, s)
    decreases |items|
  {
    if items != [] { SymsOne(items[1..], s); }
  }

  /** There are no more items than lengths. */
  lemma FewItems(lens: seq<nat>)
    requires forall j :: 0 <= j < |lens| ==> lens[j] <= 15
    ensures |RL.Rle(lens, 0, -1)| <= |lens|
  {
    hide RL.Rle, RL.ExpandAll;
    RL.RleExpands([], lens, 0, -1);
    RL.ExpandAllGrows([], RL.Rle(lens, 0, -1));
    assert [] + lens[..0] == [] && [] + lens == lens;
  }

  /** The frequencies of the code length alphabet count no more than the lengths. */
  lemma ClTotal(freq0: seq<nat>, mid: seq<nat>, freq: seq<nat>, llens: seq<nat>, dlens: seq<nat>, n: nat)
    requires n <= |freq0| && TH.Counted(freq0, mid, RL.Rle(llens, 0, -1)) && TH.Counted(mid, freq, RL.Rle(dlens, 0, -1))
    requires (forall j :: 0 <= j < |llens| ==> llens[j] <= 15) && forall j :: 0 <= j < |dlens| ==> dlens[j] <= 15
    requires freq0[..n] == Repeat(0, n)
    ensures n <= |freq| && TotalOf(freq[..n]) <= |llens| + |dlens|
  {
    hide RL.Rle, TotalOf;
    Lengths(freq0, mid, freq, RL.Rle(llens, 0, -1), RL.Rle(dlens, 0, -1));
    hide TH.Counted;
    TotalCount(freq0, mid, RL.Rle(llens, 0, -1), n, n);
    TotalCount(mid, freq, RL.Rle(dlens, 0, -1), n, n);
    FewItems(llens);
    FewItems(dlens);
    TotalZero(n);
  }

  lemma Lengths(a: seq<nat>, b: seq<nat>, c: seq<nat>, x: seq<RL.Item>, y: seq<RL.Item>)
    requires TH.Counted(a, b, x) && TH.Counted(b, c, y)
    ensures |a| == |b| == |c|
  {
  }
}
