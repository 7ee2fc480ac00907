/** Symbol frequencies of a block's tokens, and the exact number of bits they cost. */
module Costs {
  import opened Sums
  import opened Rfc1951
  import opened CodeTables
  import opened BlockCode
  import opened GenBitlen
  import opened BuildTree
  import opened TreeHeader
  import RL = RunLengths

  const L_CODES: nat := 286

  /** One more occurrence of s costs its length and extra bits. */
  lemma CostBump(freq: seq<nat>, len: seq<nat>, xs: seq<nat>, elems: nat, s: nat)
    requires s < elems <= |freq| && elems <= |len| && elems <= |xs|
    ensures BlockCost(freq[s := freq[s] + 1], len, xs, elems) == BlockCost(freq, len, xs, elems) + len[s] + xs[s]
  {
    var freq' := freq[s := freq[s] + 1];
    var f, f' := BitCost(freq, len, xs), BitCost(freq', len, xs);
    assert f'(s) == f(s) + len[s] + xs[s] by { Distribute(freq[s], len[s] + xs[s]); }
    UsedUpdate(freq, elems, s, freq[s] + 1);
    if s in Used(freq, elems) {
      assert Used(freq, elems) + {s} == Used(freq, elems);
      SumUpdate(elems, Used(freq, elems), s, f, f');
    } else {
      SumAdd(elems, Used(freq, elems), s, f');
      SumCongruent(elems, Used(freq, elems), Used(freq, elems), f, f');
      assert freq[s] == 0;
    }
  }

  lemma Distribute(n: nat, c: nat)
    ensures (n + 1) * c == n * c + c
  {
  }

  lemma CostNone(freq: seq<nat>, len: seq<nat>, xs: seq<nat>, elems: nat)
    requires elems <= |freq| && forall x :: 0 <= x < elems ==> freq[x] == 0
    ensures BlockCost(freq, len, xs, elems) == 0
  {
    assert Used(freq, elems) == {};
    Merges.SumEmpty(elems, BitCost(freq, len, xs));
  }

  /** Frequencies beyond elems do not matter. */
  lemma CostFrame(freq: seq<nat>, freq': seq<nat>, len: seq<nat>, len': seq<nat>, xs: seq<nat>, elems: nat)
    requires elems <= |freq| && elems <= |freq'| && elems <= |len| && elems <= |len'| && elems <= |xs|
    requires forall x :: 0 <= x < elems ==> freq[x] == freq'[x] && (freq[x] > 0 ==> len[x] == len'[x])
    ensures BlockCost(freq, len, xs, elems) == BlockCost(freq', len', xs, elems)
  {
    assert Used(freq, elems) == Used(freq', elems);
    SumCongruent(elems, Used(freq, elems), Used(freq, elems), BitCost(freq, len, xs), BitCost(freq', len', xs));
  }

  // ---- Frequencies ----

  function Bump(freq: seq<nat>, s: nat): (r: seq<nat>)
    requires s < |freq|
    ensures |r| == |freq|
  {
    freq[s := freq[s] + 1]
  }

  /** Literal/length frequencies: the end-of-block symbol occurs once. */
  ghost function LitFreqs(tab: Tab, ts: seq<Token>): (f: seq<nat>)
    requires tab.Valid() && forall i :: 0 <= i < |ts| ==> TokenOk(ts[i])
    ensures |f| == L_CODES
    decreases |ts|
  {
    if ts == [] then Repeat(0, L_CODES)[END_BLOCK := 1] else Bump(LitFreqs(tab, ts[..|ts| - 1]),
                                                                  LitSym(tab, ts[|ts| - 1]))
  }

  ghost function DistFreqs(tab: Tab, ts: seq<Token>): (f: seq<nat>)
    requires tab.Valid() && forall i :: 0 <= i < |ts| ==> TokenOk(ts[i])
    ensures |f| == D_CODES
    decreases |ts|
  {
    if ts == [] then Repeat(0, D_CODES)
    else if ts[|ts| - 1].Match? then Bump(DistFreqs(tab, ts[..|ts| - 1]), DistSym(tab, ts[|ts| - 1]))
    else DistFreqs(tab, ts[..|ts| - 1])
  }

  lemma {:induction false} TokensHaveFreq(tab: Tab, ts: seq<Token>, i: nat)
    requires tab.Valid() && i < |ts| && forall j :: 0 <= j < |ts| ==> TokenOk(ts[j])
    ensures LitFreqs(tab, ts)[LitSym(tab, ts[i])] > 0 && LitFreqs(tab, ts)[END_BLOCK] > 0
    ensures ts[i].Match? ==> DistFreqs(tab, ts)[DistSym(tab, ts[i])] > 0
    decreases |ts|
  {
    if i < |ts| - 1 {
      TokensHaveFreq(tab, ts[..|ts| - 1], i);
    } else {
      EndHasFreq(tab, ts);
    }
  }

  lemma {:induction false} EndHasFreq(tab: Tab, ts: seq<Token>)
    requires tab.Valid() && forall j :: 0 <= j < |ts| ==> TokenOk(ts[j])
    ensures LitFreqs(tab, ts)[END_BLOCK] > 0
    decreases |ts|
  {
    if ts != [] { EndHasFreq(tab, ts[..|ts| - 1]); }
  }

  // ---- Bits of the tokens ----

  /** Extra bits by literal/length symbol. */
  function LitExtra(s: nat): (n: nat)
  {
    if s < 257 then 0 else LengthExtra(s - 257)
  }

  ghost predicate IsLitExtras(xs: seq<nat>)
  {
    |xs| == L_CODES && forall s :: 0 <= s < L_CODES ==> xs[s] == LitExtra(s)
  }

  ghost predicate IsDistExtras(xs: seq<nat>)
  {
    |xs| == D_CODES && forall s :: 0 <= s < D_CODES ==> xs[s] == DistExtra(s)
  }

  /** Lengths extended with zeros where a tree is shorter than its alphabet. */
  ghost predicate Extends(len: seq<nat>, lens: seq<nat>, n: nat)
  {
    n <= |len| && |lens| <= |len| && forall s :: 0 <= s < |lens| ==> len[s] == lens[s]
  }

  lemma TokenCost(tab: Tab, llens: seq<nat>, dlens: seq<nat>, t: Token)
    requires tab.Valid() && Sendable(tab, llens, dlens, t)
    ensures |TokenBits(tab, llens, dlens, t)| == llens[LitSym(tab, t)] + LitExtra(LitSym(tab, t))
      + if t.Match? then dlens[DistSym(tab, t)] + DistExtra(DistSym(tab, t)) else 0
  {
  }

  lemma LitCostStep(tab: Tab, ts: seq<Token>, ll: seq<nat>, lxs: seq<nat>)
    requires tab.Valid() && ts != [] && forall j :: 0 <= j < |ts| ==> TokenOk(ts[j])
    requires L_CODES <= |ll| && IsLitExtras(lxs)
    ensures var s := LitSym(tab, ts[|ts| - 1]);
            BlockCost(LitFreqs(tab, ts), ll, lxs, L_CODES)
            == BlockCost(LitFreqs(tab, ts[..|ts| - 1]), ll, lxs, L_CODES) + ll[s] + LitExtra(s)
  {
    LitCostOf(LitFreqs(tab, ts[..|ts| - 1]), LitFreqs(tab, ts), LitSym(tab, ts[|ts| - 1]), ll, lxs);
  }

  lemma LitCostOf(f: seq<nat>, f': seq<nat>, s: nat, ll: seq<nat>, lxs: seq<nat>)
    requires |f| == L_CODES && s < L_CODES && f' == Bump(f, s) && L_CODES <= |ll| && IsLitExtras(lxs)
    ensures BlockCost(f', ll, lxs, L_CODES) == BlockCost(f, ll, lxs, L_CODES) + ll[s] + LitExtra(s)
  {
    CostBump(f, ll, lxs, L_CODES, s);
  }

  lemma DistCostStep(tab: Tab, ts: seq<Token>, dl: seq<nat>, dxs: seq<nat>)
    requires tab.Valid() && ts != [] && forall j :: 0 <= j < |ts| ==> TokenOk(ts[j])
    requires D_CODES <= |dl| && IsDistExtras(dxs)
    ensures BlockCost(DistFreqs(tab, ts), dl, dxs, D_CODES)
         == BlockCost(DistFreqs(tab, ts[..|ts| - 1]), dl, dxs, D_CODES)
            + if ts[|ts| - 1].Match? then dl[DistSym(tab, ts[|ts| - 1])] + DistExtra(DistSym(tab, ts[|ts| - 1])) else 0
  {
    if ts[|ts| - 1].Match? {
      DistCostOf(DistFreqs(tab, ts[..|ts| - 1]), DistFreqs(tab, ts), DistSym(tab, ts[|ts| - 1]), dl, dxs);
    }
  }

  lemma DistCostOf(f: seq<nat>, f': seq<nat>, s: nat, dl: seq<nat>, dxs: seq<nat>)
    requires |f| == D_CODES && s < D_CODES && f' == Bump(f, s) && D_CODES <= |dl| && IsDistExtras(dxs)
    ensures BlockCost(f', dl, dxs, D_CODES) == BlockCost(f, dl, dxs, D_CODES) + dl[s] + DistExtra(s)
  {
    CostBump(f, dl, dxs, D_CODES, s);
  }

  lemma EndCost(tab: Tab, ll: seq<nat>, lxs: seq<nat>)
    requires tab.Valid() && L_CODES <= |ll| && IsLitExtras(lxs)
    ensures BlockCost(LitFreqs(tab, []), ll, lxs, L_CODES) == ll[END_BLOCK]
  {
    var zero := Repeat(0, L_CODES);
    CostNone(zero, ll, lxs, L_CODES);
    CostBump(zero, ll, lxs, L_CODES, END_BLOCK);
    assert zero[END_BLOCK := 1] == zero[END_BLOCK := zero[END_BLOCK] + 1];
  }

  /** The token bits and the end-of-block code are exactly the cost of the
      frequencies: nothing else is sent and nothing is counted twice. */
  lemma {:induction false} TokensCost(tab: Tab, ll: seq<nat>, dl: seq<nat>, llens: seq<nat>, dlens: seq<nat>,
                                      lxs: seq<nat>, dxs: seq<nat>, ts: seq<Token>)
    requires AllSendable(tab, llens, dlens, ts) && Extends(ll, llens, L_CODES) && Extends(dl, dlens, D_CODES)
    requires IsLitExtras(lxs) && IsDistExtras(dxs)
    ensures |TokensBits(tab, llens, dlens, ts)| + llens[END_BLOCK]
         == BlockCost(LitFreqs(tab, ts), ll, lxs, L_CODES) + BlockCost(DistFreqs(tab, ts), dl, dxs, D_CODES)
    decreases |ts|
  {
    if ts == [] {
      EndCost(tab, ll, lxs);
      CostNone(DistFreqs(tab, []), dl, dxs, D_CODES);
    } else {
      assert Sendable(tab, llens, dlens, ts[|ts| - 1]);
      TokensCost(tab, ll, dl, llens, dlens, lxs, dxs, ts[..|ts| - 1]);
      TokenCost(tab, llens, dlens, ts[|ts| - 1]);
      LitCostStep(tab, ts, ll, lxs);
      DistCostStep(tab, ts, dl, dxs);
    }
  }

  // ---- Bits of a tree's items ----

  /** Extra bits by code length symbol. */
  ghost predicate IsClExtras(xs: seq<nat>)
  {
    |xs| == 19 && forall s :: 0 <= s < 19 ==> xs[s] == RL.ExtraBits(s)
  }

  lemma {:induction false} ItemsCost(cl: seq<nat>, clx: seq<nat>, items: seq<RL.Item>, freq0: seq<nat>, freq: seq<nat>,
                                     len: seq<nat>)
    requires RL.ItemsCoded(cl, items) && IsClExtras(clx) && 19 <= |len| && forall s :: 0 <= s < 19 ==> len[s] == cl[s]
    requires 19 <= |freq0| && Counted(freq0, freq, items)
    ensures |RL.ItemsBits(cl, items)| + BlockCost(freq0, len, clx, 19) == BlockCost(freq, len, clx, 19)
    decreases |items|
  {
    if items == [] {
      CostFrame(freq0, freq, len, len, clx, 19);
    } else {
      var s := items[0].sym;
      assert RL.ValidItem(items[0]);
      var mid := Bump(freq0, s);
      CostBump(freq0, len, clx, 19, s);
      CountedTail(freq0, freq, items);
      ItemsCost(cl, clx, items[1..], mid, freq, len);
    }
  }

  lemma CountedTail(freq0: seq<nat>, freq: seq<nat>, items: seq<RL.Item>)
    requires items != [] && items[0].sym < |freq0| && Counted(freq0, freq, items)
    ensures Counted(Bump(freq0, items[0].sym), freq, items[1..])
  {
  }
}
