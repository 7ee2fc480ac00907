/** What flush_block knows once the trees are built: both ways of coding the block
    are possible, and opt_len and static_len are their exact sizes in bits. */
module BlockPlan {
  import opened Rfc1951
  import opened Canonical
  import opened GenBitlen
  import opened BuildTree
  import opened CodeTables
  import opened BlockCode
  import opened Costs
  import opened ThreeTrees
  import opened TreeSets
  import HD = Header
  import BF = BlockFormat
  import SB = StoredBound

  /** The frequencies in a tree's array are those of the tokens. */
  ghost predicate Tallies(lf: seq<nat>, df: seq<nat>, tab: Tab, ts: seq<Token>)
  {
    && tab.Valid() && (forall i :: 0 <= i < |ts| ==> TokenOk(ts[i]))
    && L_CODES <= |lf| && D_CODES <= |df|
    && lf[..L_CODES] == LitFreqs(tab, ts) && df[..D_CODES] == DistFreqs(tab, ts)
  }

  /** Symbol s, which occurs, has a code. */
  ghost predicate AllCoded(freq: seq<nat>, lens: seq<nat>, elems: nat)
  {
    && elems <= |freq| && |lens| <= elems
    && forall s :: 0 <= s < elems && freq[s] > 0 ==> s < |lens| && lens[s] > 0
  }

  lemma BuiltCoded(t: CtTree, freq: seq<nat>, len: seq<nat>, code: seq<nat>, maxCode: nat, opt: int, stat: int)
    requires t.Shape() && Built(t, freq, len, code, maxCode, opt, stat)
    ensures AllCoded(freq, len[..maxCode + 1], t.elems)
  {
  }

  lemma LitCoded(lf: seq<nat>, df: seq<nat>, tab: Tab, ts: seq<Token>, llens: seq<nat>, dlens: seq<nat>, i: nat)
    requires Tallies(lf, df, tab, ts) && AllCoded(lf, llens, L_CODES) && AllCoded(df, dlens, D_CODES) && i < |ts|
    ensures Sendable(tab, llens, dlens, ts[i])
  {
    TokensHaveFreq(tab, ts, i);
    assert lf[LitSym(tab, ts[i])] == lf[..L_CODES][LitSym(tab, ts[i])];
    if ts[i].Match? {
      assert df[DistSym(tab, ts[i])] == df[..D_CODES][DistSym(tab, ts[i])];
    }
  }

  lemma TreesSendable(lf: seq<nat>, df: seq<nat>, tab: Tab, ts: seq<Token>, llens: seq<nat>, dlens: seq<nat>)
    requires Tallies(lf, df, tab, ts) && AllCoded(lf, llens, L_CODES) && AllCoded(df, dlens, D_CODES)
    ensures AllSendable(tab, llens, dlens, ts) && 257 <= |llens|
  {
    EndHasFreq(tab, ts);
    assert lf[END_BLOCK] == lf[..L_CODES][END_BLOCK];
    forall i | 0 <= i < |ts| ensures Sendable(tab, llens, dlens, ts[i]) {
      LitCoded(lf, df, tab, ts, llens, dlens, i);
    }
  }

  lemma CostOfTallies(lf: seq<nat>, df: seq<nat>, tab: Tab, ts: seq<Token>, ll: seq<nat>, dl: seq<nat>, lxs: seq<nat>,
                      dxs: seq<nat>)
    requires Tallies(lf, df, tab, ts) && L_CODES <= |ll| && D_CODES <= |dl| && IsLitExtras(lxs) && IsDistExtras(dxs)
    ensures BlockCost(lf, ll, lxs, L_CODES) == BlockCost(LitFreqs(tab, ts), ll, lxs, L_CODES)
    ensures BlockCost(df, dl, dxs, D_CODES) == BlockCost(DistFreqs(tab, ts), dl, dxs, D_CODES)
  {
    CostFrame(lf, lf[..L_CODES], ll, ll, lxs, L_CODES);
    CostFrame(df, df[..D_CODES], dl, dl, dxs, D_CODES);
  }

  /** The two trees cost exactly the bits of the tokens. */
  lemma BodyCost(lf: seq<nat>, df: seq<nat>, tab: Tab, ts: seq<Token>, ll: seq<nat>, dl: seq<nat>, llens: seq<nat>,
                 dlens: seq<nat>,
                 lxs: seq<nat>, dxs: seq<nat>)
    requires Tallies(lf, df, tab, ts) && AllSendable(tab, llens, dlens, ts)
    requires Extends(ll, llens, L_CODES) && Extends(dl, dlens, D_CODES) && IsLitExtras(lxs) && IsDistExtras(dxs)
    ensures |BlockBits(tab, llens, dlens, ts)| == BlockCost(lf, ll, lxs, L_CODES) + BlockCost(df, dl, dxs, D_CODES)
  {
    CostOfTallies(lf, df, tab, ts, ll, dl, lxs, dxs);
    TokensCost(tab, ll, dl, llens, dlens, lxs, dxs, ts);
  }

  /** static_len counts exactly the bits of the tokens in the fixed codes. */
  lemma FixedCost(lf: seq<nat>, df: seq<nat>, tab: Tab, ts: seq<Token>, sl: seq<nat>, sd: seq<nat>, lxs: seq<nat>,
                  dxs: seq<nat>)
    requires Tallies(lf, df, tab, ts) && IsLitExtras(lxs) && IsDistExtras(dxs)
    requires sl == FixedLitLens()[..L_CODES] && sd == FixedDistLens()[..D_CODES]
    ensures AllSendable(tab, FixedLitLens(), FixedDistLens(), ts)
    ensures |BlockBits(tab, FixedLitLens(), FixedDistLens(),
                       ts)| == BlockCost(lf, sl, lxs, L_CODES) + BlockCost(df, sd, dxs, D_CODES)
  {
    SB.FixedSendable(tab, ts);
    BodyCost(lf, df, tab, ts, FixedLitLens(), FixedDistLens(), FixedLitLens(), FixedDistLens(), lxs, dxs);
    CostFrame(lf, lf, FixedLitLens(), sl, lxs, L_CODES);
    CostFrame(df, df, FixedDistLens(), sd, dxs, D_CODES);
  }

  /** lens, with nothing behind them, are the lengths of a code for the symbols counted in
      freq that no prefix code beats, unless some symbol has all of max bits. */
  ghost predicate BestFor(freq: seq<nat>, lens: seq<nat>, elems: nat, max: nat)
  {
    exists f: seq<nat>, len: seq<nat> :: elems <= |f| == |len| && BestIs(freq, lens, elems, max, f, len)
  }

  ghost predicate BestIs(freq: seq<nat>, lens: seq<nat>, elems: nat, max: nat, f: seq<nat>, len: seq<nat>)
    requires elems <= |f| == |len|
  {
    f[..elems] == freq && |lens| <= |len| && len[..|lens|] == lens && BestCode(f, len, elems, max)
  }

  /** Both codes are best for the symbols of the tokens. */
  ghost predicate BestCodes(tab: Tab, ts: seq<Token>, llens: seq<nat>, dlens: seq<nat>)
  {
    && tab.Valid() && (forall i :: 0 <= i < |ts| ==> TokenOk(ts[i]))
    && BestFor(LitFreqs(tab, ts), llens, L_CODES, 15) && BestFor(DistFreqs(tab, ts), dlens, D_CODES, 15)
  }

  lemma BothBest(s: TreeSet, tab: Tab, ts: seq<Token>, lf: seq<nat>, df: seq<nat>, la: seq<nat>, lc: seq<nat>, lm: nat,
                 o1: int, s1: int, da: seq<nat>, dc: seq<nat>, dm: nat, o2: int, s2: int)
    requires s.Shape() && Tallies(lf, df, tab, ts)
    requires Built(s.l, lf, la, lc, lm, o1, s1) && Built(s.d, df, da, dc, dm, o2, s2)
    ensures BestCodes(tab, ts, la[..lm + 1], da[..dm + 1])
  {
    hide BestCode, Covers, BlockCost;
    assert BestIs(LitFreqs(tab, ts), la[..lm + 1], L_CODES, 15, lf, la);
    assert BestIs(DistFreqs(tab, ts), da[..dm + 1], D_CODES, 15, df, da);
  }

  /** Of the n code length code lengths in the header the last is not 0. */
  ghost predicate NoneToSpare(cl: seq<nat>, n: nat)
  {
    n > 0 && LastNonZero(cl, n - 1)
  }

  /** The block can be sent with the dynamic and with the static trees, for opt and
      stat bits. */
  ghost predicate Planned(tab: Tab, ts: seq<Token>, llens: seq<nat>, dlens: seq<nat>, cl: seq<nat>, n: nat, opt: int,
                          stat: int)
  {
    && BF.HeaderOk(llens, dlens, cl, n) && AllSendable(tab, llens, dlens, ts)
       && AllSendable(tab, FixedLitLens(), FixedDistLens(), ts)
    && BestCodes(tab, ts, llens, dlens) && NoneToSpare(cl, n)
    && opt == |HD.HeaderBits(llens, dlens, cl, n)| + |BlockBits(tab, llens, dlens, ts)|
    && stat == |BlockBits(tab, FixedLitLens(), FixedDistLens(), ts)|
  }

  lemma HeaderCost(llens: seq<nat>, dlens: seq<nat>, len: seq<nat>, code: seq<nat>, cl: seq<nat>, index: nat, opt: int)
    requires ClDone(len, code, cl, llens, dlens, index, opt) && 257 <= |llens| && 1 <= |dlens|
    ensures |HD.HeaderBits(llens, dlens, cl, index + 1)| == opt
  {
  }

  lemma HeaderSendable(llens: seq<nat>, dlens: seq<nat>, len: seq<nat>, code: seq<nat>, cl: seq<nat>, index: nat,
                       opt: int)
    requires ClDone(len, code, cl, llens, dlens, index, opt)
    requires 257 <= |llens| <= 286 && 1 <= |dlens| <= 30 && Fits(llens, 15) && Fits(dlens, 15)
    ensures BF.HeaderOk(llens, dlens, cl, index + 1)
  {
  }

  /** Everything flush_block needs to know before it chooses. */
  lemma PlanHolds(s: TreeSet, tab: Tab, ts: seq<Token>, lf: seq<nat>, df: seq<nat>,
                  la: seq<nat>, lc: seq<nat>, lm: nat, o1: int, s1: int, da: seq<nat>, dc: seq<nat>, dm: nat, o2: int,
                  s2: int,
                  bl: seq<nat>, bc: seq<nat>, cl: seq<nat>, index: nat, o3: int)
    requires s.Shape() && Tallies(lf, df, tab, ts)
    requires Built(s.l, lf, la, lc, lm, o1, s1) && Built(s.d, df, da, dc, dm, o2, s2)
    requires ClDone(bl, bc, cl, la[..lm + 1], da[..dm + 1], index, o3)
    ensures Planned(tab, ts, la[..lm + 1], da[..dm + 1], cl, index + 1, o1 + o2 + o3, s1 + s2)
  {
    hide BestCodes;
    var llens, dlens := la[..lm + 1], da[..dm + 1];
    BothBest(s, tab, ts, lf, df, la, lc, lm, o1, s1, da, dc, dm, o2, s2);
    BuiltCoded(s.l, lf, la, lc, lm, o1, s1);
    BuiltCoded(s.d, df, da, dc, dm, o2, s2);
    TreesSendable(lf, df, tab, ts, llens, dlens);
    HeaderSendable(llens, dlens, bl, bc, cl, index, o3);
    HeaderCost(llens, dlens, bl, bc, cl, index, o3);
    BodyCost(lf, df, tab, ts, la, da, llens, dlens, s.l.Extras(), s.d.Extras());
    FixedCost(lf, df, tab, ts, s.l.staticLen, s.d.staticLen, s.l.Extras(), s.d.Extras());
  }
}
