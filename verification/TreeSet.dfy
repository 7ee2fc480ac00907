/** Building the three trees of a block, in the order flush_block does. */
module TreeSets {
  import opened Bits
  import opened Rfc1951
  import opened Canonical
  import opened GenCodes
  import opened GenBitlen
  import opened BuildTree
  import opened Weights
  import opened Frequencies
  import opened CodeTables
  import opened Costs
  import opened ThreeTrees

  /** What is known about a built tree: a complete code for the symbols of freq0, all
      codes in place, and its exact costs. */
  ghost predicate Built(t: CtTree, freq0: seq<nat>, len: seq<nat>, code: seq<nat>, maxCode: nat, opt: int, stat: int)
    requires t.Shape()
  {
    && |freq0| == |len| == |code| == t.freq.Length && maxCode < t.elems
    && Covers(freq0, len[..maxCode + 1], t.maxLength) && HasCodes(len[..maxCode + 1], code)
    && (forall x :: maxCode < x < t.elems ==> freq0[x] == 0 && len[x] == 0)
    && opt == BlockCost(freq0, len, t.Extras(), t.elems)
    && stat == BlockCost(freq0, t.staticLen, t.Extras(), t.elems)
    && BestCode(freq0, len, t.elems, t.maxLength)
  }

  method BuildOne(t: CtTree, heap: array<nat>, depth: array<byte>, blCount: array<nat>) returns (opt: int, stat: int)
    requires t.Shape() && heap.Length == depth.Length == HEAP_SIZE && blCount.Length == MAX_BITS + 1
    requires heap != blCount && heap !in t.objects && blCount !in t.objects
    modifies t.objects, heap, depth, blCount
    ensures Built(t, old(t.freq[..]), t.len[..], t.code[..], t.maxCode, opt, stat)
    ensures Within(t.freq[..], t.elems, TotalOf(old(t.freq[..])[..t.elems]) + 2)
  {
    hide BestCode, HuffmanCode, Covers, BlockCost, Within;
    ghost var ms, d;
    opt, stat, ms, d := Build(t, heap, depth, blCount);
  }

  ghost predicate LitTree(t: CtTree)
  {
    && t.Shape() && t.elems == L_CODES && t.maxLength == MAX_BITS
    && IsLitExtras(t.Extras()) && t.staticLen == FixedLitLens()[..L_CODES]
  }

  ghost predicate DistTree(t: CtTree)
  {
    && t.Shape() && t.elems == D_CODES && t.maxLength == MAX_BITS
    && IsDistExtras(t.Extras()) && t.staticLen == FixedDistLens()[..D_CODES]
  }

  ghost predicate ClTree(t: CtTree)
  {
    && t.Shape() && t.elems == BL_CODES && t.maxLength == MAX_BL_BITS && IsClExtras(t.Extras()) && t.staticLen == []
  }

  ghost predicate NoFreq(t: CtTree)
    reads t.freq
  {
    forall x :: 0 <= x < t.freq.Length ==> t.freq[x] == 0
  }

  ghost predicate Apart(a: set<object>, b: set<object>, c: set<object>, s: set<object>)
  {
    a !! b && a !! c && a !! s && b !! c && b !! s && c !! s
  }

  method NewLitTree() returns (t: CtTree)
    ensures LitTree(t) && fresh(t.objects) && NoFreq(t)
  {
    Pow2Values();
    t := new CtTree(L_CODES, MAX_BITS, seq(29, c requires 0 <= c => LengthExtra(c)), 257, FixedLitLens()[..L_CODES]);
  }

  method NewDistTree() returns (t: CtTree)
    ensures DistTree(t) && fresh(t.objects) && NoFreq(t)
  {
    Pow2Values();
    t := new CtTree(D_CODES, MAX_BITS, seq(30, c requires 0 <= c => DistExtra(c)), 0, FixedDistLens()[..D_CODES]);
  }

  method NewClTree() returns (t: CtTree)
    ensures ClTree(t) && fresh(t.objects) && NoFreq(t)
  {
    Pow2Values();
    t := new CtTree(BL_CODES, MAX_BL_BITS, seq(19, c requires 0 <= c => RL.ExtraBits(c)), 0, []);
  }

  /** A built tree with the guard behind it, ready for send_tree and compress_block. */
  ghost predicate TreeReady(len: seq<nat>, code: seq<nat>, lens: seq<nat>, freq0: seq<nat>, max: nat)
  {
    && TH.Guarded(len, lens) && ST.Coded(len, code, lens) && Covers(freq0, lens, max)
  }

  lemma ReadyTree(t: CtTree, freq0: seq<nat>, len: seq<nat>, code: seq<nat>, maxCode: nat, opt: int, stat: int,
                  len': seq<nat>)
    requires t.Shape() && Built(t, freq0, len, code, maxCode, opt, stat) && t.maxLength <= 15
    requires len' == len[maxCode + 1 := TH.GUARD]
    ensures TreeReady(len', code, len[..maxCode + 1], freq0, t.maxLength)
  {
    var lens := len[..maxCode + 1];
    assert len'[..maxCode + 1] == lens;
    CodedPrefix(len', code, maxCode + 1);
  }

  /** The code length code covers both trees' items. */
  lemma ClLength(freq: seq<nat>, len: seq<nat>, maxCode: nat, s: nat)
    requires maxCode < BL_CODES <= |freq| && BL_CODES <= |len| && Covers(freq, len[..maxCode + 1], MAX_BL_BITS)
    requires forall x :: maxCode < x < BL_CODES ==> freq[x] == 0 && len[x] == 0
    requires s < BL_CODES
    ensures len[s] <= 7 && (freq[s] > 0 ==> len[s] > 0)
  {
    if s <= maxCode { assert len[..maxCode + 1][s] == len[s]; }
  }

  /** The code length code is a code for all that was counted. */
  ghost predicate ClReady(len: seq<nat>, code: seq<nat>, freq: seq<nat>, cl: seq<nat>)
  {
    && |cl| == BL_CODES <= |len| && BL_CODES <= |freq| && cl == len[..BL_CODES] && ST.Coded(len, code, cl)
       && Fits(cl, 15)
    && forall s :: 0 <= s < BL_CODES ==> cl[s] <= 7 && (freq[s] > 0 ==> cl[s] > 0)
  }

  lemma ReadyCl(t: CtTree, freq: seq<nat>, len: seq<nat>, code: seq<nat>, maxCode: nat, opt: int, stat: int)
    requires t.Shape() && t.elems == BL_CODES && t.maxLength == MAX_BL_BITS
             && Built(t, freq, len, code, maxCode, opt, stat)
    ensures BL_CODES <= |len| && ClReady(len, code, freq, len[..BL_CODES])
  {
    ClCoded(len, code, maxCode);
    forall s | 0 <= s < BL_CODES
      ensures len[s] <= 7 && (freq[s] > 0 ==> len[s] > 0)
    {
      ClLength(freq, len, maxCode, s);
    }
  }

  /** The code length code covers both trees' items. */
  lemma BothSendable(freq0: seq<nat>, mid: seq<nat>, freq: seq<nat>, len: seq<nat>, code: seq<nat>,
                     llens: seq<nat>, dlens: seq<nat>, cl: seq<nat>)
    requires ClReady(len, code, freq, cl)
    requires BL_CODES <= |freq0| && TH.Counted(freq0, mid, RL.Rle(llens, 0, -1))
             && TH.Counted(mid, freq, RL.Rle(dlens, 0, -1))
    requires (forall j :: 0 <= j < |llens| ==> llens[j] <= 15) && (forall j :: 0 <= j < |dlens| ==> dlens[j] <= 15)
    ensures RL.ItemsCoded(cl, RL.Rle(llens, 0, -1)) && RL.ItemsCoded(cl, RL.Rle(dlens, 0, -1))
  {
    RL.RleValid(llens, 0, -1);
    RL.RleValid(dlens, 0, -1);
    ItemsSendable(freq0, mid, freq, RL.Rle(llens, 0, -1), RL.Rle(dlens, 0, -1), cl);
  }

  /** What the code length tree adds to opt_len is exactly the bits of the items. */
  lemma ClCost(t: CtTree, freq0: seq<nat>, mid: seq<nat>, freq: seq<nat>, len: seq<nat>, a: seq<RL.Item>,
               b: seq<RL.Item>, cl: seq<nat>)
    requires t.Shape() && t.elems == BL_CODES && IsClExtras(t.Extras()) && BL_CODES <= |len| && cl == len[..BL_CODES]
    requires BL_CODES <= |freq0| && TH.Counted(freq0, mid, a) && TH.Counted(mid, freq, b)
    requires freq0[..BL_CODES] == Repeat(0, BL_CODES)
    requires RL.ItemsCoded(cl, a) && RL.ItemsCoded(cl, b)
    ensures BlockCost(freq, len, t.Extras(), BL_CODES) == |RL.ItemsBits(cl, a)| + |RL.ItemsBits(cl, b)|
  {
    forall x | 0 <= x < BL_CODES ensures freq0[x] == 0 { assert freq0[x] == freq0[..BL_CODES][x]; }
    CostNone(freq0, len, t.Extras(), BL_CODES);
    ItemsCost(cl, t.Extras(), a, freq0, mid, len);
    ItemsCost(cl, t.Extras(), b, mid, freq, len);
  }

  /** The code length code is in place, index is the last one to be sent, and opt is
      the exact number of header bits. */
  ghost predicate ClDone(len: seq<nat>, code: seq<nat>, cl: seq<nat>, llens: seq<nat>, dlens: seq<nat>, index: nat,
                         opt: int)
  {
    && ST.Coded(len, code, cl) && Fits(cl, 15) && |cl| == 19 && (forall s :: 0 <= s < 19 ==> cl[s] <= 7)
    && RL.ItemsCoded(cl, RL.Rle(llens, 0, -1)) && RL.ItemsCoded(cl, RL.Rle(dlens, 0, -1))
    && LastNonZero(cl, index)
    && opt == |RL.ItemsBits(cl, RL.Rle(llens, 0, -1))| + |RL.ItemsBits(cl, RL.Rle(dlens, 0, -1))|
              + 3 * (index + 1) + 5 + 5 + 4
  }

  method ClearFreqs(freq: array<nat>, n: nat)
    requires n <= freq.Length
    modifies freq
    ensures freq[..n] == Repeat(0, n)
  {
    var i := 0;
    while i < n
      invariant 0 <= i <= n && forall j :: 0 <= j < i ==> freq[j] == 0
    {
      freq[i] := 0;
      i := i + 1;
    }
  }

  class TreeSet {
    const l: CtTree
    const d: CtTree
    const bl: CtTree
    const heap: array<nat>
    const depth: array<byte>
    const blCount: array<nat>

    ghost const scratch: set<object>
    ghost const objects: set<object>   // everything the three trees and the scratch use

    /** Sizes, limits, extra bits and static trees of the three alphabets, and no
        array used twice. */
    ghost predicate Shape()
    {
      && LitTree(l) && DistTree(d) && ClTree(bl)
      && heap.Length == depth.Length == HEAP_SIZE && blCount.Length == MAX_BITS + 1 && heap != blCount
      && heap in scratch && depth in scratch && blCount in scratch
      && Apart(l.objects, d.objects, bl.objects, scratch)
      && l.objects <= objects && d.objects <= objects && bl.objects <= objects && scratch <= objects
    }

    constructor ()
      ensures Shape() && fresh(objects)
      ensures NoFreq(l) && NoFreq(d) && NoFreq(bl)
    {
      var lit := NewLitTree();
      var dist := NewDistTree();
      var cls := NewClTree();
      l, d, bl := lit, dist, cls;
      var h := new nat[HEAP_SIZE](_ => 0);
      var dp := new byte[HEAP_SIZE](_ => 0);
      var c := new nat[MAX_BITS + 1](_ => 0);
      heap, depth, blCount := h, dp, c;
      scratch := {h, c, dp as object};
      objects := lit.objects + dist.objects + cls.objects + {h, c, dp as object};
    }

    /** init_block: only the end-of-block symbol is counted so far. */
    method InitFreqs()
      requires Shape()
      modifies l.freq, d.freq, bl.freq
      ensures l.freq[..L_CODES] == Repeat(0, L_CODES)[256 := 1] && d.freq[..D_CODES] == Repeat(0, D_CODES)
      ensures bl.freq[..BL_CODES] == Repeat(0, BL_CODES)
    {
      ClearFreqs(l.freq, L_CODES);
      ClearFreqs(d.freq, D_CODES);
      ClearFreqs(bl.freq, BL_CODES);
      l.freq[256] := 1;
    }

    /** The literal and distance trees. */
    method BuildPair() returns (o1: int, s1: int, o2: int, s2: int)
      requires Shape()
      modifies l.objects, d.objects, heap, depth, blCount
      ensures Built(l, old(l.freq[..]), l.len[..], l.code[..], l.maxCode, o1, s1)
      ensures Built(d, old(d.freq[..]), d.len[..], d.code[..], d.maxCode, o2, s2)
      ensures Within(l.freq[..], l.elems, TotalOf(old(l.freq[..])[..l.elems]) + 2)
      ensures Within(d.freq[..], d.elems, TotalOf(old(d.freq[..])[..d.elems]) + 2)
    {
      hide Within, TotalOf, Built;
      o1, s1 := BuildOne(l, heap, depth, blCount);
      o2, s2 := BuildOne(d, heap, depth, blCount);
    }

    /** Count the code lengths of both trees, as build_bl_tree starts. */
    method ScanBoth() returns (ghost mid: seq<nat>)
      requires Shape() && l.maxCode < L_CODES && d.maxCode < D_CODES
      requires forall j :: 0 <= j <= l.maxCode ==> l.len[j] <= 15
      requires forall j :: 0 <= j <= d.maxCode ==> d.len[j] <= 15
      modifies l.len, d.len, bl.freq
      ensures l.len[..] == old(l.len[..])[l.maxCode + 1 := TH.GUARD]
      ensures d.len[..] == old(d.len[..])[d.maxCode + 1 := TH.GUARD]
      ensures TH.Counted(old(bl.freq[..]), mid, RL.Rle(old(l.len[..l.maxCode + 1]), 0, -1))
      ensures TH.Counted(mid, bl.freq[..], RL.Rle(old(d.len[..d.maxCode + 1]), 0, -1))
    {
      TH.ScanTree(l.len, l.maxCode, bl.freq);
      mid := bl.freq[..];
      TH.ScanTree(d.len, d.maxCode, bl.freq);
    }

    /** The two trees with their guards, ready for sending. */
    method Guard(ghost lf: seq<nat>, ghost df: seq<nat>, ghost o1: int, ghost s1: int, ghost o2: int, ghost s2: int)
      returns (ghost mid: seq<nat>, ghost llens: seq<nat>, ghost dlens: seq<nat>)
      requires Shape()
      requires Built(l, lf, l.len[..], l.code[..], l.maxCode, o1, s1)
      requires Built(d, df, d.len[..], d.code[..], d.maxCode, o2, s2)
      modifies l.len, d.len, bl.freq
      ensures llens == old(l.len[..l.maxCode + 1]) && dlens == old(d.len[..d.maxCode + 1])
      ensures TreeReady(l.len[..], l.code[..], llens, lf, 15) && TreeReady(d.len[..], d.code[..], dlens, df, 15)
      ensures TH.Counted(old(bl.freq[..]), mid, RL.Rle(llens, 0, -1))
              && TH.Counted(mid, bl.freq[..], RL.Rle(dlens, 0, -1))
    {
      hide TreeReady, RL.Rle, TH.Counted, BestCode, BlockCost, Covers;
      ghost var la, da, lc, dc := l.len[..], d.len[..], l.code[..], d.code[..];
      llens, dlens := la[..l.maxCode + 1], da[..d.maxCode + 1];
      LensBound(l, lf, la, lc, l.maxCode, o1, s1);
      LensBound(d, df, da, dc, d.maxCode, o2, s2);
      mid := ScanBoth();
      ReadyTree(l, lf, la, lc, l.maxCode, o1, s1, l.len[..]);
      ReadyTree(d, df, da, dc, d.maxCode, o2, s2, d.len[..]);
    }

    /** build_bl_tree: the code length tree for the two trees just built. */
    method BuildCl(ghost lf: seq<nat>, ghost df: seq<nat>, ghost o1: int, ghost s1: int, ghost o2: int, ghost s2: int)
      returns (index: nat, opt: int, ghost llens: seq<nat>, ghost dlens: seq<nat>, ghost cl: seq<nat>)
      requires Shape() && bl.freq[..BL_CODES] == Repeat(0, BL_CODES)
      requires Built(l, lf, l.len[..], l.code[..], l.maxCode, o1, s1)
      requires Built(d, df, d.len[..], d.code[..], d.maxCode, o2, s2)
      modifies l.len, d.len, bl.objects, heap, depth, blCount
      ensures llens == old(l.len[..l.maxCode + 1]) && dlens == old(d.len[..d.maxCode + 1])
      ensures TreeReady(l.len[..], l.code[..], llens, lf, 15) && TreeReady(d.len[..], d.code[..], dlens, df, 15)
      ensures cl == bl.len[..BL_CODES] && ClDone(bl.len[..], bl.code[..], cl, llens, dlens, index, opt)
      ensures Within(bl.freq[..], BL_CODES, |llens| + |dlens| + 2)
    {
      hide Tables.Shape, Repeat, Built, TreeReady, ClDone, Within;
      ghost var freq0, mid := bl.freq[..], [];
      mid, llens, dlens := Guard(lf, df, o1, s1, o2, s2);
      ghost var lb, db, lc, dc := l.len[..], d.len[..], l.code[..], d.code[..];
      index, opt, cl := FinishCl(freq0, mid, llens, dlens, lf, df, lb, db, lc, dc);
      assert l.len[..] == lb && d.len[..] == db && l.code[..] == lc && d.code[..] == dc;
    }

    method FinishCl(ghost freq0: seq<nat>, ghost mid: seq<nat>, ghost llens: seq<nat>, ghost dlens: seq<nat>,
                    ghost lf: seq<nat>, ghost df: seq<nat>, ghost lb: seq<nat>, ghost db: seq<nat>, ghost lc: seq<nat>,
                    ghost dc: seq<nat>)
      returns (index: nat, opt: int, ghost cl: seq<nat>)
      requires Shape() && |freq0| == bl.freq.Length && freq0[..BL_CODES] == Repeat(0, BL_CODES)
      requires TH.Counted(freq0, mid, RL.Rle(llens, 0, -1)) && TH.Counted(mid, bl.freq[..], RL.Rle(dlens, 0, -1))
      requires TreeReady(lb, lc, llens, lf, 15) && TreeReady(db, dc, dlens, df, 15)
      modifies bl.objects, heap, depth, blCount
      ensures cl == bl.len[..BL_CODES] && ClDone(bl.len[..], bl.code[..], cl, llens, dlens, index, opt)
      ensures Within(bl.freq[..], BL_CODES, |llens| + |dlens| + 2)
    {
      hide TH.Counted, RL.Rle, Within, TotalOf, TreeReady, ClDone, Repeat, Built;
      ghost var freq := bl.freq[..];
      var stat;
      opt, stat := BuildOne(bl, heap, depth, blCount);
      ClWithin(freq0, mid, freq, lb, lc, llens, lf, db, dc, dlens, df, bl.freq[..]);
      index, opt, cl := CountCl(freq0, mid, freq, llens, dlens, lf, df, lb, db, lc, dc, opt, stat);
    }

    /** The number of code length code lengths to send, and what the header costs. */
    method CountCl(ghost freq0: seq<nat>, ghost mid: seq<nat>, ghost freq: seq<nat>, ghost llens: seq<nat>,
                   ghost dlens: seq<nat>, ghost lf: seq<nat>, ghost df: seq<nat>, ghost lb: seq<nat>,
                   ghost db: seq<nat>,
                   ghost lc: seq<nat>, ghost dc: seq<nat>, opt0: int, ghost stat: int)
      returns (index: nat, opt: int, ghost cl: seq<nat>)
      requires Shape() && |freq0| == bl.freq.Length && freq0[..BL_CODES] == Repeat(0, BL_CODES)
      requires TH.Counted(freq0, mid, RL.Rle(llens, 0, -1)) && TH.Counted(mid, freq, RL.Rle(dlens, 0, -1))
      requires TreeReady(lb, lc, llens, lf, 15) && TreeReady(db, dc, dlens, df, 15)
      requires Built(bl, freq, bl.len[..], bl.code[..], bl.maxCode, opt0, stat)
      ensures cl == bl.len[..BL_CODES] && ClDone(bl.len[..], bl.code[..], cl, llens, dlens, index, opt)
    {
      hide Tables.Shape, TH.Counted, RL.Rle, LastNonZero;
      cl := bl.len[..BL_CODES];
      ReadyCl(bl, freq, bl.len[..], bl.code[..], bl.maxCode, opt0, stat);
      BothSendable(freq0, mid, freq, bl.len[..], bl.code[..], llens, dlens, cl);
      ClCost(bl, freq0, mid, freq, bl.len[..], RL.Rle(llens, 0, -1), RL.Rle(dlens, 0, -1), cl);
      ghost var k := SendsSomeLength(llens, 0, -1, |llens| - 1);
      index := LastClIndex(bl.len, cl, RL.Rle(llens, 0, -1)[k].sym);
      opt := opt0 + 3 * (index + 1) + 5 + 5 + 4;
    }
  }

  lemma ClWithin(freq0: seq<nat>, mid: seq<nat>, freq: seq<nat>, lb: seq<nat>, lc: seq<nat>, llens: seq<nat>,
                 lf: seq<nat>,
                 db: seq<nat>, dc: seq<nat>, dlens: seq<nat>, df: seq<nat>, after: seq<nat>)
    requires TH.Counted(freq0, mid, RL.Rle(llens, 0, -1)) && TH.Counted(mid, freq, RL.Rle(dlens, 0, -1))
    requires TreeReady(lb, lc, llens, lf, 15) && TreeReady(db, dc, dlens, df, 15)
    requires BL_CODES <= |freq0| && freq0[..BL_CODES] == Repeat(0, BL_CODES) && BL_CODES <= |freq|
             && BL_CODES <= |after|
    requires Within(after, BL_CODES, TotalOf(freq[..BL_CODES]) + 2)
    ensures Within(after, BL_CODES, |llens| + |dlens| + 2)
  {
    hide TH.Counted, RL.Rle, TotalOf;
    ClTotal(freq0, mid, freq, llens, dlens, BL_CODES);
    WithinMore(after, BL_CODES, TotalOf(freq[..BL_CODES]) + 2, |llens| + |dlens| + 2);
  }

  lemma WithinMore(freq: seq<nat>, elems: nat, a: nat, b: nat)
    requires elems <= |freq| && Within(freq, elems, a) && a <= b
    ensures Within(freq, elems, b)
  {
  }

  lemma LensBound(t: CtTree, freq0: seq<nat>, len: seq<nat>, code: seq<nat>, maxCode: nat, opt: int, stat: int)
    requires t.Shape() && Built(t, freq0, len, code, maxCode, opt, stat)
    ensures forall j :: 0 <= j <= maxCode ==> len[j] <= 15
  {
    forall j | 0 <= j <= maxCode ensures len[j] <= 15 {
      assert len[..maxCode + 1][j] <= t.maxLength;
    }
  }
}
