/** The block being collected: ct_tally adds tokens, flush_block sends them. */
module BlockCoders {
  import opened Bits
  import opened Rfc1951
  import opened CodeTables
  import opened BlockCode
  import opened ThreeTrees
  import opened TreeSets
  import opened BuildTree
  import opened Weights
  import opened Frequencies
  import opened Costs
  import opened BlockPlan
  import opened BitWriters
  import opened TokenBuffers
  import opened CompressBlock
  import opened FixedDatas
  import opened EmitBlock
  import opened StoredBound
  import opened Blocks

  /** Tokens deflate tallies. */
  ghost predicate AllTallied(ts: seq<Token>)
  {
    forall i {:trigger Tallied(ts[i])} :: 0 <= i < |ts| ==> Tallied(ts[i])
  }

  /** The trees are built, and the plan for the block is made. */
  ghost predicate BuiltFor(t: TreeSet, tab: Tab, ts: seq<Token>, llens: seq<nat>, dlens: seq<nat>, cl: seq<nat>, n: nat,
                           opt: int, stat: int)
    reads t.l, t.l.len, t.l.code, t.d, t.d.len, t.d.code, t.bl.len, t.bl.code
  {
    && Planned(tab, ts, llens, dlens, cl, n, opt, stat)
    && DynReady(Tree(t.l.len, t.l.code, llens), Tree(t.d.len, t.d.code, dlens), t.bl.len, t.bl.code, cl)
    && |llens| == t.l.maxCode + 1 && |dlens| == t.d.maxCode + 1
  }

  lemma DynIsReady(t: TreeSet, lf: seq<nat>, df: seq<nat>, llens: seq<nat>, dlens: seq<nat>, cl: seq<nat>, index: nat,
                   opt: int)
    requires t.Shape() && TreeReady(t.l.len[..], t.l.code[..], llens, lf, 15)
             && TreeReady(t.d.len[..], t.d.code[..], dlens, df, 15)
    requires ClDone(t.bl.len[..], t.bl.code[..], cl, llens, dlens, index, opt)
    requires 257 <= |llens| <= 286 && 1 <= |dlens| <= 30
    ensures DynReady(Tree(t.l.len, t.l.code, llens), Tree(t.d.len, t.d.code, dlens), t.bl.len, t.bl.code, cl)
  {
  }

  /** A literal/length or distance tree as it was right after build_tree. */
  datatype Snapshot = Snapshot(len: seq<nat>, code: seq<nat>, maxCode: nat, opt: int, stat: int)
  {
    function Lens(): seq<nat>
      requires maxCode < |len|
    {
      len[..maxCode + 1]
    }
  }

  ghost predicate BothBuilt(t: TreeSet, lf: seq<nat>, df: seq<nat>, l: Snapshot, d: Snapshot)
    requires t.Shape()
  {
    Built(t.l, lf, l.len, l.code, l.maxCode, l.opt, l.stat) && Built(t.d, df, d.len, d.code, d.maxCode, d.opt, d.stat)
  }

  method BuildBoth(t: TreeSet) returns (opt: int, stat: int, ghost l: Snapshot, ghost d: Snapshot)
    requires t.Shape()
    modifies t.l.objects, t.d.objects, t.heap, t.depth, t.blCount
    ensures BothBuilt(t, old(t.l.freq[..]), old(t.d.freq[..]), l, d) && opt == l.opt + d.opt && stat == l.stat + d.stat
    ensures l.len == t.l.len[..] && l.code == t.l.code[..] && l.maxCode == t.l.maxCode
    ensures d.len == t.d.len[..] && d.code == t.d.code[..] && d.maxCode == t.d.maxCode
    ensures Within(t.l.freq[..], t.l.elems, TotalOf(old(t.l.freq[..])[..t.l.elems]) + 2)
    ensures Within(t.d.freq[..], t.d.elems, TotalOf(old(t.d.freq[..])[..t.d.elems]) + 2)
  {
    hide Within, TotalOf;
    var o1, s1, o2, s2 := t.BuildPair();
    opt, stat := o1 + o2, s1 + s2;
    l, d := Snapshot(t.l.len[..], t.l.code[..], t.l.maxCode, o1, s1), Snapshot(t.d.len[..], t.d.code[..], t.d.maxCode,
                                                                               o2, s2);
  }

  lemma BothSizes(t: TreeSet, lf: seq<nat>, df: seq<nat>, l: Snapshot, d: Snapshot)
    requires t.Shape() && BothBuilt(t, lf, df, l, d)
    ensures l.maxCode < |l.len| && d.maxCode < |d.len| && l.maxCode < L_CODES && d.maxCode < D_CODES
  {
  }

  method BuildThird(t: TreeSet, ghost lf: seq<nat>, ghost df: seq<nat>, ghost l: Snapshot, ghost d: Snapshot)
    returns (index: nat, opt: int, ghost cl: seq<nat>)
    requires t.Shape() && BothBuilt(t, lf, df, l, d) && t.bl.freq[..BL_CODES] == Repeat(0, BL_CODES)
    requires l.len == t.l.len[..] && l.code == t.l.code[..] && l.maxCode == t.l.maxCode
    requires d.len == t.d.len[..] && d.code == t.d.code[..] && d.maxCode == t.d.maxCode
    modifies t.l.len, t.d.len, t.bl.objects, t.heap, t.depth, t.blCount
    ensures TreeReady(t.l.len[..], t.l.code[..], l.Lens(), lf, 15)
            && TreeReady(t.d.len[..], t.d.code[..], d.Lens(), df, 15)
    ensures ClDone(t.bl.len[..], t.bl.code[..], cl, l.Lens(), d.Lens(), index, opt)
    ensures t.l.maxCode == l.maxCode && t.d.maxCode == d.maxCode
    ensures Within(t.bl.freq[..], BL_CODES, |l.Lens()| + |d.Lens()| + 2)
  {
    hide Within, Built, TreeReady, ClDone, Repeat;
    BothSizes(t, lf, df, l, d);
    ghost var llens, dlens;
    index, opt, llens, dlens, cl := t.BuildCl(lf, df, l.opt, l.stat, d.opt, d.stat);
    assert llens == l.Lens() && dlens == d.Lens();
  }

  lemma PlanOf(t: TreeSet, tab: Tab, ts: seq<Token>, lf: seq<nat>, df: seq<nat>, l: Snapshot, d: Snapshot,
               bl: seq<nat>, bc: seq<nat>, cl: seq<nat>, index: nat, opt: int)
    requires t.Shape() && Tallies(lf, df, tab, ts) && BothBuilt(t, lf, df, l, d)
    requires ClDone(bl, bc, cl, l.Lens(), d.Lens(), index, opt)
    ensures Planned(tab, ts, l.Lens(), d.Lens(), cl, index + 1, l.opt + d.opt + opt, l.stat + d.stat)
    ensures 257 <= |l.Lens()| <= 286 && 1 <= |d.Lens()| <= 30
  {
    PlanHolds(t, tab, ts, lf, df, l.len, l.code, l.maxCode, l.opt, l.stat, d.len, d.code, d.maxCode, d.opt, d.stat, bl,
              bc, cl, index, opt);
  }

  lemma AllBuilt(t: TreeSet, tab: Tab, ts: seq<Token>, lf: seq<nat>, df: seq<nat>, l: Snapshot, d: Snapshot,
                 cl: seq<nat>, index: nat, more: int, llens: seq<nat>, dlens: seq<nat>,
                 n: nat, opt: int, stat: int)
    requires n == index + 1 && opt == l.opt + d.opt + more && stat == l.stat + d.stat
    requires t.Shape() && Whole(Tallies(lf, df, tab, ts)) && Whole(BothBuilt(t, lf, df, l, d)) && llens == l.Lens()
             && dlens == d.Lens()
    requires Whole(TreeReady(t.l.len[..], t.l.code[..], llens, lf, 15))
             && Whole(TreeReady(t.d.len[..], t.d.code[..], dlens, df, 15))
    requires Whole(ClDone(t.bl.len[..], t.bl.code[..], cl, llens, dlens, index, more))
    requires t.l.maxCode == l.maxCode && t.d.maxCode == d.maxCode
    ensures Whole(BuiltFor(t, tab, ts, llens, dlens, cl, n, opt, stat))
  {
    PlanOf(t, tab, ts, lf, df, l, d, t.bl.len[..], t.bl.code[..], cl, index, more);
    DynIsReady(t, lf, df, llens, dlens, cl, index, more);
  }

  /** Build the three trees. */
  method BuildAll(t: TreeSet, ghost tab: Tab, ghost ts: seq<Token>)
    returns (n: nat, opt: int, stat: int, ghost llens: seq<nat>, ghost dlens: seq<nat>, ghost cl: seq<nat>)
    requires t.Shape() && Tallies(t.l.freq[..], t.d.freq[..], tab, ts) && t.bl.freq[..BL_CODES] == Repeat(0, BL_CODES)
    modifies t.objects
    ensures Whole(BuiltFor(t, tab, ts, llens, dlens, cl, n, opt, stat))
    ensures |ts| <= 8191 ==> FrequenciesFit(t.l.freq[..], t.d.freq[..], t.bl.freq[..])
  {
    hide Within, TotalOf, FrequenciesFit, BothBuilt, TreeReady, ClDone, Tallies, BuiltFor, Repeat;
    ghost var lf, df := t.l.freq[..], t.d.freq[..];
    ghost var l, d;
    opt, stat, l, d := BuildBoth(t);
    BothSizes(t, lf, df, l, d);
    var index, more;
    index, more, cl := BuildThird(t, lf, df, l, d);
    n, opt, llens, dlens := index + 1, opt + more, l.Lens(), d.Lens();
    AllBuilt(t, tab, ts, lf, df, l, d, cl, index, more, llens, dlens, n, opt, stat);
    if |ts| <= 8191 {
      BlockFits(lf, df, tab, ts, |llens| + |dlens|, t.l.freq[..], t.d.freq[..], t.bl.freq[..]);
    }
  }

  /** No frequency of the three trees, those of their nodes included, leaves 16 bits. */
  ghost predicate FrequenciesFit(lf: seq<nat>, df: seq<nat>, bf: seq<nat>)
    requires L_CODES <= |lf| && D_CODES <= |df| && BL_CODES <= |bf|
  {
    Within(lf, L_CODES, 0xffff) && Within(df, D_CODES, 0xffff) && Within(bf, BL_CODES, 0xffff)
  }

  /** A block has at most 8191 tokens, and its two trees at most 316 lengths. */
  lemma BlockFits(lf: seq<nat>, df: seq<nat>, tab: Tab, ts: seq<Token>, lengths: nat, la: seq<nat>, da: seq<nat>,
                  ba: seq<nat>)
    requires Tallies(lf, df, tab, ts) && |ts| <= 8191 && lengths <= 316
    requires L_CODES <= |la| && Within(la, L_CODES, TotalOf(lf[..L_CODES]) + 2)
    requires D_CODES <= |da| && Within(da, D_CODES, TotalOf(df[..D_CODES]) + 2)
    requires BL_CODES <= |ba| && Within(ba, BL_CODES, lengths + 2)
    ensures FrequenciesFit(la, da, ba)
  {
    hide Within, TotalOf;
    TokensTotal(tab, ts);
    WithinMore(la, L_CODES, TotalOf(lf[..L_CODES]) + 2, 0xffff);
    WithinMore(da, D_CODES, TotalOf(df[..D_CODES]) + 2, 0xffff);
    WithinMore(ba, BL_CODES, lengths + 2, 0xffff);
  }

  lemma StoredAllowed(t: TreeSet, tab: Tab, ts: seq<Token>, llens: seq<nat>, dlens: seq<nat>, cl: seq<nat>, n: nat,
                      opt: int, stat: int,
                      storedLen: nat)
    requires Whole(BuiltFor(t, tab, ts, llens, dlens, cl, n, opt, stat)) && AllTallied(ts) && |ts| <= 8191
    requires storedLen == TokensLength(ts) && storedLen + 4 <= InBytes(stat)
    ensures storedLen <= STORED_MAX
  {
    forall i | 0 <= i < |ts| ensures TokenOk(ts[i]) && Tallied(ts[i]) {
      assert Tallied(ts[i]);
    }
    StoredFits(tab, ts, storedLen, stat);
  }

  /** What each of the two coded forms needs, and how many bits it takes. */
  lemma ReadyFor(t: TreeSet, tab: Tab, ts: seq<Token>, llens: seq<nat>, dlens: seq<nat>, cl: seq<nat>, n: nat, opt: int,
                 stat: int)
    requires Whole(BuiltFor(t, tab, ts, llens, dlens, cl, n, opt, stat))
    ensures Whole(AllSendable(tab, FixedLitLens(), FixedDistLens(), ts))
            && stat == |BlockBits(tab, FixedLitLens(), FixedDistLens(), ts)|
    ensures Whole(DynReady(Tree(t.l.len, t.l.code, llens), Tree(t.d.len, t.d.code, dlens), t.bl.len, t.bl.code, cl))
    ensures t.l.maxCode + 1 == |llens| && t.d.maxCode + 1 == |dlens|
    ensures Whole(BF.HeaderOk(llens, dlens, cl, n)) && Whole(AllSendable(tab, llens, dlens, ts))
            && opt == |HD.HeaderBits(llens, dlens, cl, n)| + |BlockBits(tab, llens, dlens, ts)|
  {
  }

  /** The tokens of the block stand for `data`, which the window may still hold. */
  ghost predicate Stands(window: array<byte>, start: int, storedLen: nat, ts: seq<Token>, before: seq<byte>,
                         data: seq<byte>)
    reads window
  {
    && |data| == storedLen == TokensLength(ts) && Expand(before, ts) == Some(before + data)
    && (if 0 <= start then start + storedLen <= window.Length
                           && window[start..start + storedLen] == data else storedLen > STORED_MAX)
  }

  /** Send the block in the way that takes the fewest bytes.  The test for data that has
      left the window never decides: a block worth storing is short enough to be there. */
  method Emit(t: TreeSet, f: FixedData, buf: TokenBuffer, w: BitWriter, window: array<byte>, start: int, storedLen: nat,
              eof: bool,
              n: nat, opt: int, stat: int, ghost llens: seq<nat>, ghost dlens: seq<nat>, ghost cl: seq<nat>,
              ghost ts: seq<Token>,
              ghost before: seq<byte>, ghost data: seq<byte>) returns (kind: nat, ghost bits: Bits)
    requires w.Valid() && Whole(f.Correct()) && Whole(f.Kept()) && Whole(Buffered(buf, ts)) && w.outbuf != buf.lBuf
             && w.outbuf != window
    requires Whole(BuiltFor(t, f.tab, ts, llens, dlens, cl, n, opt, stat))
    requires Whole(AllTallied(ts)) && |ts| <= 8191 && Whole(Stands(window, start, storedLen, ts, before, data))
    modifies w, w.outbuf
    ensures w.Valid() && w.Stream() == old(w.Stream()) + bits
            && BF.Encodes(|old(w.Stream())|, bits, eof, before, before + data)
    ensures Smallest(kind, opt, stat, storedLen)
    ensures kind == 0 ==> |bits| == 3 + Padding(|old(w.Stream())| + 3) + 32 + 8 * storedLen
    ensures (kind == 1 ==> |bits| == 3 + stat) && (kind == 2 ==> |bits| == 3 + opt)
  {
    hide Smallest, InBytes, BuiltFor, AllTallied, DynReady, HD.HeaderBits, BlockBits, BF.Encodes, BF.HeaderOk,
         AllSendable, Buffered, BitWriter.Valid, BitWriter.Stream, FixedData.Correct, FixedData.Kept;
    if storedLen + 4 <= InBytes(stat) {
      StoredAllowed(t, f.tab, ts, llens, dlens, cl, n, opt, stat, storedLen);
    }
    kind := ChooseForm(opt, stat, storedLen, 0 <= start);
    ReadyFor(t, f.tab, ts, llens, dlens, cl, n, opt, stat);
    if kind == 0 {
      bits := EmitStored(w, window, start, storedLen, eof, before, data);
    } else if kind == 1 {
      bits := EmitFixed(w, f, buf, eof, ts, before, before + data);
    } else {
      bits := EmitDynamic(w, f, Tree(t.l.len, t.l.code, llens), Tree(t.d.len, t.d.code, dlens), t.bl.len, t.bl.code,
                          t.l.maxCode + 1, t.d.maxCode + 1, n, buf, eof, cl, ts, before, before + data);
    }
  }

  /** Determine the best encoding; haveData says that the data is still in the window. */
  method ChooseForm(opt: int, stat: int, storedLen: nat, haveData: bool) returns (kind: nat)
    requires storedLen + 4 <= InBytes(stat) ==> haveData
    ensures Smallest(kind, opt, stat, storedLen) && (kind == 0 ==> storedLen + 4 <= InBytes(stat))
  {
    var optBytes, statBytes := (opt + 3 + 7) / 8, (stat + 3 + 7) / 8;
    if statBytes <= optBytes {
      optBytes := statBytes;
    }
    kind := if storedLen + 4 <= optBytes && haveData then 0 else if statBytes == optBytes then 1 else 2;
  }
}
