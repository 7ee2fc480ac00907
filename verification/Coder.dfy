/** The state of the block being collected, with ct_tally and flush_block on it. */
module Coders {
  import opened Bits
  import opened Rfc1951
  import opened CodeTables
  import opened BlockCode
  import opened Costs
  import opened ThreeTrees
  import opened TreeSets
  import opened BlockPlan
  import opened BitWriters
  import opened TokenBuffers
  import opened CompressBlock
  import opened FixedDatas
  import opened StoredBound
  import opened Blocks
  import opened BlockCoders

  lemma InitDropped<T>(s: seq<T>, t: T)
    ensures (s + [t])[..|s + [t]| - 1] == s
  {
  }

  /** One more token is one more of its symbols. */
  lemma TalliesStep(lf: seq<nat>, df: seq<nat>, tab: Tab, ts: seq<Token>, t: Token)
    requires Tallies(lf, df, tab, ts) && TokenOk(t)
    ensures Tallies(Bump(lf, LitSym(tab, t)), if t.Match? then Bump(df, DistSym(tab, t)) else df, tab, ts + [t])
  {
    InitDropped(ts, t);
    var s := LitSym(tab, t);
    assert Bump(lf, s)[..L_CODES] == Bump(lf[..L_CODES], s);
    if t.Match? {
      var d := DistSym(tab, t);
      assert Bump(df, d)[..D_CODES] == Bump(df[..D_CODES], d);
    }
  }

  lemma TallyNone(lf: seq<nat>, df: seq<nat>, tab: Tab)
    requires tab.Valid() && L_CODES <= |lf| && D_CODES <= |df|
    requires lf[..L_CODES] == Repeat(0, L_CODES)[256 := 1] && df[..D_CODES] == Repeat(0, D_CODES)
    ensures Tallies(lf, df, tab, [])
  {
  }

  /** Bits of the distances counted in freq[..n], at five bits per code. */
  function DistEstimate(freq: seq<nat>, n: nat): (c: nat)
    requires n <= |freq|
  {
    if n == 0 then 0 else DistEstimate(freq, n - 1) + freq[n - 1] * (5 + DistExtra(n - 1))
  }

  /** Whether ct_tally asks for the block to be flushed. */
  predicate WantsFlush(lastLit: nat, lastDist: nat, estimate: nat, inLength: nat)
  {
    || (lastLit % 0x1000 == 0 && lastDist < lastLit / 2 && (lastLit * 8 + estimate) / 8 < inLength / 2)
    || lastLit == LIT_BUFSIZE - 1 || lastDist == DIST_BUFSIZE
  }

  method EstimateDistances(freq: array<nat>) returns (c: nat)
    requires D_CODES <= freq.Length
    ensures c == DistEstimate(freq[..], D_CODES)
  {
    c := 0;
    var dcode := 0;
    while dcode < D_CODES
      invariant 0 <= dcode <= D_CODES && c == DistEstimate(freq[..], dcode)
    {
      c := c + freq[dcode] * (5 + DistExtra(dcode));
      dcode := dcode + 1;
    }
  }

  /** Trees whose frequencies init_block has set. */
  method MakeTrees() returns (t: TreeSet)
    ensures t.Shape() && fresh(t.objects)
    ensures t.l.freq[..L_CODES] == Repeat(0, L_CODES)[256 := 1] && t.d.freq[..D_CODES] == Repeat(0, D_CODES)
    ensures t.bl.freq[..BL_CODES] == Repeat(0, BL_CODES)
  {
    t := new TreeSet();
    t.InitFreqs();
  }

  ghost predicate Parts(t: TreeSet, f: FixedData, b: TokenBuffer, o: BitWriter, all: set<object>)
  {
    && t.Shape() && f.Correct() && b.Shape() && o in o.objects && o.outbuf in o.objects
    && Apart(t.objects, f.objects, b.objects, o.objects)
    && t.objects <= all && f.objects <= all && b.objects <= all && o.objects <= all
  }

  method MakeOutput() returns (b: TokenBuffer, o: BitWriter, ghost all: set<object>)
    ensures fresh(all) && b.Valid() && b.tokens == [] && o.Valid() && o.Stream() == [] && o.biValid == 0
    ensures all == b.objects + o.objects && b.objects !! o.objects
  {
    b := new TokenBuffer();
    o := new BitWriter();
    all := b.objects + o.objects;
  }

  method MakeTables() returns (t: TreeSet, f: FixedData, ghost all: set<object>)
    ensures fresh(all) && t.Shape() && f.Correct() && f.Kept() && all == t.objects + f.objects && t.objects !! f.objects
    ensures Tallies(t.l.freq[..], t.d.freq[..], f.tab, []) && t.bl.freq[..BL_CODES] == Repeat(0, BL_CODES)
  {
    t := MakeTrees();
    f := new FixedData();
    all := t.objects + f.objects;
    TallyNone(t.l.freq[..], t.d.freq[..], f.tab);
  }

  method MakeParts() returns (t: TreeSet, f: FixedData, b: TokenBuffer, o: BitWriter, ghost all: set<object>)
    ensures fresh(all) && Parts(t, f, b, o, all)
    ensures f.Kept() && Tallies(t.l.freq[..], t.d.freq[..], f.tab, []) && t.bl.freq[..BL_CODES] == Repeat(0, BL_CODES)
    ensures b.Valid() && b.tokens == [] && o.Valid() && o.Stream() == [] && o.biValid == 0
  {
    ghost var x, y;
    t, f, x := MakeTables();
    ghost var lf, df := t.l.freq[..], t.d.freq[..];
    b, o, y := MakeOutput();
    assert t.l.freq[..] == lf && t.d.freq[..] == df;
    all := x + y;
  }

  lemma CodesOf(tab: Tab, tables: Tables, lc: byte, d: nat)
    requires tab.Valid() && tables.Holds(tab) && d < 32768
    ensures tables.lengthCode[lc] == tab.lengthCode[lc] && tables.DCode(d) == tab.DCode(d)
  {
  }

  /** Count the token's symbols. */
  method CountToken(tables: Tables, lf: array<nat>, df: array<nat>, dist: nat, lc: byte, ghost tab: Tab, ghost t: Token)
    requires tables.Holds(tab) && tab.Valid() && L_CODES <= lf.Length && D_CODES <= df.Length && lf != df
    requires lf !in tables.objects && df !in tables.objects
    requires TokenOk(t) && t == if dist == 0 then Literal(lc) else Match(lc + 3, dist)
    modifies lf, df
    ensures lf[..] == Bump(old(lf[..]), LitSym(tab, t))
    ensures df[..] == if t.Match? then Bump(old(df[..]), DistSym(tab, t)) else old(df[..])
  {
    if dist == 0 {
      lf[lc] := lf[lc] + 1;
    } else {
      CodesOf(tab, tables, lc, dist - 1);
      var s, d := tables.lengthCode[lc] + 257, tables.DCode(dist - 1);
      assert s == LitSym(tab, t) && d == DistSym(tab, t);
      lf[s] := lf[s] + 1;
      df[d] := df[d] + 1;
    }
  }

  /** The block takes `size` bits from position pos on, in the smallest of its three forms:
      as it is, in the fixed codes, or in the codes of the trees llens and dlens, which are
      sent in front of it. */
  ghost predicate SentSmallest(tab: Tab, ts: seq<Token>, llens: seq<nat>, dlens: seq<nat>, cl: seq<nat>, n: nat,
                               opt: int,
                               stat: int, kind: nat, storedLen: nat, pos: nat, size: nat)
  {
    && Planned(tab, ts, llens, dlens, cl, n, opt, stat) && Smallest(kind, opt, stat, storedLen)
    && (kind == 0 ==> size == 3 + Padding(pos + 3) + 32 + 8 * storedLen)
    && (kind == 1 ==> size == 3 + stat) && (kind == 2 ==> size == 3 + opt)
  }

  /** Some trees make the block the smallest of its three forms. */
  ghost predicate Economical(tab: Tab, ts: seq<Token>, pos: nat, size: nat)
  {
    exists llens, dlens, cl, n, opt, stat, kind ::
      SentSmallest(tab, ts, llens, dlens, cl, n, opt, stat, kind, TokensLength(ts), pos, size)
  }

  lemma LengthStands(window: array<byte>, start: int, storedLen: nat, ts: seq<Token>, before: seq<byte>,
                     data: seq<byte>)
    requires Whole(Stands(window, start, storedLen, ts, before, data))
    ensures storedLen == TokensLength(ts)
  {
  }

  lemma SentIs(tab: Tab, ts: seq<Token>, llens: seq<nat>, dlens: seq<nat>, cl: seq<nat>, n: nat, opt: int, stat: int,
               kind: nat, storedLen: nat, pos: nat, size: nat)
    requires Whole(Planned(tab, ts, llens, dlens, cl, n, opt, stat)) && Smallest(kind, opt, stat, storedLen)
    requires kind == 0 ==> size == 3 + Padding(pos + 3) + 32 + 8 * storedLen
    requires (kind == 1 ==> size == 3 + stat) && (kind == 2 ==> size == 3 + opt)
    ensures SentSmallest(tab, ts, llens, dlens, cl, n, opt, stat, kind, storedLen, pos, size)
  {
  }

  /** Where ct_tally asks for the end of a block that starts with the tokens ts: behind the
      last of them, which is tallied with one byte more seen than those before it cover. */
  ghost predicate Cut(tab: Tab, ts: seq<Token>)
  {
    && ts != [] && tab.Valid() && (forall i :: 0 <= i < |ts| ==> TokenOk(ts[i]))
    && WantsFlush(|ts|, |Dists(ts)|, DistEstimate(DistFreqs(tab, ts), D_CODES), TokensLength(ts[..|ts| - 1]) + 1)
  }

  /** No block ends within the tokens or behind them. */
  ghost predicate Uncut(tab: Tab, ts: seq<Token>)
  {
    forall i: nat {:trigger Cut(tab, ts[..i])} :: i <= |ts| ==> !Cut(tab, ts[..i])
  }

  /** A block ends behind the tokens, and not before. */
  ghost predicate FirstCut(tab: Tab, ts: seq<Token>)
  {
    Cut(tab, ts) && Uncut(tab, ts[..|ts| - 1])
  }

  /** The last block: none ends before the last of its tokens. */
  ghost predicate UncutBefore(tab: Tab, ts: seq<Token>)
  {
    ts != [] ==> Uncut(tab, ts[..|ts| - 1])
  }

  lemma UncutNone(tab: Tab)
    ensures Uncut(tab, [])
  {
    hide Cut;
    assert !Cut(tab, []) by { CutSome(tab); }
  }

  lemma CutSome(tab: Tab)
    ensures !Cut(tab, [])
  {
  }

  lemma UncutNext(tab: Tab, ts': seq<Token>)
    requires ts' != [] && Uncut(tab, ts'[..|ts'| - 1]) && !Cut(tab, ts')
    ensures Uncut(tab, ts')
  {
    hide Cut;
    forall i: nat | i <= |ts'| ensures !Cut(tab, ts'[..i]) {
      if i == |ts'| { assert ts'[..i] == ts'; } else { assert ts'[..|ts'| - 1][..i] == ts'[..i]; }
    }
  }

  lemma UncutLess(tab: Tab, ts: seq<Token>)
    requires Uncut(tab, ts)
    ensures UncutBefore(tab, ts)
  {
    hide Cut;
    if ts != [] {
      var n := |ts| - 1;
      var less := ts[..n];
      forall i: nat | i <= |less| ensures !Cut(tab, less[..i]) {
        assert less[..i] == ts[..i];
      }
    }
  }

  /** k blocks, each ended where ct_tally asked for it and in the smallest of its forms, send
      the tokens ts in `len` bits. */
  ghost predicate Sends(tab: Tab, k: nat, ts: seq<Token>, len: nat)
    decreases k, 1
  {
    if k == 0 then ts == [] && len == 0
    else exists rest, last, pos :: SendsLast(tab, k, rest, last, pos, ts, len)
  }

  ghost predicate SendsLast(tab: Tab, k: nat, rest: seq<Token>, last: seq<Token>, pos: nat, ts: seq<Token>, len: nat)
    requires k > 0
    decreases k, 0
  {
    && ts == rest + last && pos <= len && Sends(tab, k - 1, rest, pos) && Economical(tab, last, pos, len - pos)
    && FirstCut(tab, last)
  }

  lemma SendsMore(tab: Tab, k: nat, rest: seq<Token>, last: seq<Token>, pos: nat, size: nat, ts: seq<Token>, len: nat,
                  k1: nat)
    requires Sends(tab, k, rest, pos) && Economical(tab, last, pos, size) && ts == rest + last && len == pos + size
             && k1 == k + 1 && FirstCut(tab, last)
    ensures Sends(tab, k1, ts, len)
  {
    hide Economical, FirstCut;
    assert SendsLast(tab, k1, rest, last, pos, ts, len);
  }

  /** k blocks and a last one send all tokens of a file. */
  ghost predicate SendsAll(tab: Tab, k: nat, ts: seq<Token>, len: nat)
  {
    exists rest, last, pos :: SendsEnd(tab, k, rest, last, pos, ts, len)
  }

  ghost predicate SendsEnd(tab: Tab, k: nat, rest: seq<Token>, last: seq<Token>, pos: nat, ts: seq<Token>, len: nat)
  {
    && ts == rest + last && pos <= len && Sends(tab, k, rest, pos) && Economical(tab, last, pos, len - pos)
    && UncutBefore(tab, last)
  }

  lemma SendsDone(tab: Tab, k: nat, rest: seq<Token>, last: seq<Token>, pos: nat, size: nat, ts: seq<Token>, len: nat)
    requires Sends(tab, k, rest, pos) && Economical(tab, last, pos, size) && ts == rest + last && len == pos + size
             && UncutBefore(tab, last)
    ensures SendsAll(tab, k, ts, len)
  {
    hide Economical, UncutBefore, Sends;
    assert SendsEnd(tab, k, rest, last, pos, ts, len);
  }

  lemma PlannedHere(t: TreeSet, tab: Tab, ts: seq<Token>, llens: seq<nat>, dlens: seq<nat>, cl: seq<nat>, n: nat,
                    opt: int,
                    stat: int)
    requires Whole(BuiltFor(t, tab, ts, llens, dlens, cl, n, opt, stat))
    ensures Whole(Planned(tab, ts, llens, dlens, cl, n, opt, stat))
  {
  }

  class Coder {
    const trees: TreeSet
    const fixed: FixedData
    const buf: TokenBuffer
    const w: BitWriter
    ghost const objects: set<object>

    ghost predicate Shape()
    {
      Parts(trees, fixed, buf, w, objects)
    }

    /** The frequencies in the trees are those of ts. */
    ghost predicate CountedFor(ts: seq<Token>)
      reads trees.l.freq, trees.d.freq, trees.bl.freq
    {
      && BL_CODES <= trees.bl.freq.Length && Tallies(trees.l.freq[..], trees.d.freq[..], fixed.tab, ts)
      && trees.bl.freq[..BL_CODES] == Repeat(0, BL_CODES) && AllTallied(ts)
    }

    /** The frequencies in the trees are those of the tokens in the buffer. */
    ghost predicate Counted()
      reads trees.l.freq, trees.d.freq, trees.bl.freq, buf
    {
      CountedFor(buf.tokens)
    }

    ghost predicate Valid()
      reads objects
    {
      Shape() && fixed.Kept() && w.Valid() && buf.Valid() && Counted()
    }

    constructor ()
      ensures Valid() && fresh(objects) && buf.tokens == [] && w.Stream() == [] && w.biValid == 0
    {
      var t, f, b, o;
      ghost var all;
      t, f, b, o, all := MakeParts();
      trees, fixed, buf, w, objects := t, f, b, o, all;
    }

    method Enough(inLength: nat) returns (flush: bool)
      requires Whole(Valid())
      ensures flush == WantsFlush(|buf.tokens|, |Dists(buf.tokens)|,
                                  DistEstimate(DistFreqs(fixed.tab, buf.tokens), D_CODES), inLength)
    {
      EstimateFrame(trees.d.freq[..], D_CODES, D_CODES);
      if buf.lastLit % 0x1000 == 0 {
        var c := EstimateDistances(trees.d.freq);
        if buf.lastDist < buf.lastLit / 2 && (buf.lastLit * 8 + c) / 8 < inLength / 2 {
          return true;
        }
      }
      flush := buf.lastLit == LIT_BUFSIZE - 1 || buf.lastDist == DIST_BUFSIZE;
    }

    /** ct_tally: save the token and count its symbols. */
    method Tally(dist: nat, lc: byte, inLength: nat, ghost t: Token) returns (flush: bool)
      requires Whole(Valid()) && |buf.tokens| < LIT_BUFSIZE - 1
      requires Tallied(t) && t == if dist == 0 then Literal(lc) else Match(lc + 3, dist)
      modifies objects
      ensures Whole(Valid()) && buf.tokens == old(buf.tokens) + [t]
      ensures flush == WantsFlush(|buf.tokens|, |Dists(buf.tokens)|,
                                  DistEstimate(DistFreqs(fixed.tab, buf.tokens), D_CODES), inLength)
      ensures Whole(w.Valid()) && w.Stream() == old(w.Stream()) && (flush || |buf.tokens| < LIT_BUFSIZE - 1)
      ensures inLength == TokensLength(old(buf.tokens)) + 1 ==> (flush <==> Whole(Cut(fixed.tab, buf.tokens)))
    {
      hide Cut, DistEstimate, DistFreqs;
      ghost var ts := buf.tokens;
      TallyOne(dist, lc, t);
      flush := Enough(inLength);
      if inLength == TokensLength(ts) + 1 { CutIs(ts, t, inLength); }
    }

    lemma CutIs(ts: seq<Token>, t: Token, inLength: nat)
      requires Whole(Valid()) && buf.tokens == ts + [t] && inLength == TokensLength(ts) + 1
      ensures Cut(fixed.tab, buf.tokens) <==> WantsFlush(|buf.tokens|, |Dists(buf.tokens)|,
                                                         DistEstimate(DistFreqs(fixed.tab, buf.tokens), D_CODES),
                                                         inLength)
    {
      hide DistEstimate, DistFreqs, WantsFlush;
      InitDropped(ts, t);
    }

    method TallyOne(dist: nat, lc: byte, ghost t: Token)
      requires Whole(Valid()) && |buf.tokens| < LIT_BUFSIZE - 1
      requires Tallied(t) && t == if dist == 0 then Literal(lc) else Match(lc + 3, dist)
      modifies trees.l.freq, trees.d.freq, buf, buf.lBuf, buf.dBuf, buf.flagBuf
      ensures Whole(Valid()) && buf.tokens == old(buf.tokens) + [t]
      ensures Whole(w.Valid()) && w.Stream() == old(w.Stream())
    {
      hide BitWriter.Valid, BitWriter.Stream;
      ghost var ts := buf.tokens;
      Save(dist, lc, ts, t);
      CountNext(dist, lc, ts, t);
      Intact();
    }

    /** Save the flags of the last, incomplete group. */
    method SaveFlags()
      requires Whole(Valid())
      modifies buf.flagBuf
      ensures Whole(Buffered(buf, buf.tokens)) && Whole(fixed.Kept()) && Whole(Counted()) && Whole(w.Valid())
    {
      LastFlagsSaved(buf.tokens, buf.flagBuf[..], buf.lastFlags, buf.flags, buf.flagBit);
      buf.flagBuf[buf.lastFlags] := buf.flags;
    }

    method BuildBlock(ghost ts: seq<Token>)
      returns (n: nat, opt: int, stat: int, ghost llens: seq<nat>, ghost dlens: seq<nat>, ghost cl: seq<nat>)
      requires Whole(Shape()) && Whole(Buffered(buf, ts)) && Whole(fixed.Kept()) && Whole(Counted()) && Whole(w.Valid())
      modifies trees.objects
      ensures Whole(Buffered(buf, ts)) && Whole(fixed.Kept()) && Whole(w.Valid()) && w.Stream() == old(w.Stream())
      ensures Whole(BuiltFor(trees, fixed.tab, ts, llens, dlens, cl, n, opt, stat))
    {
      n, opt, stat, llens, dlens, cl := BuildAll(trees, fixed.tab, ts);
    }

    /** init_block: nothing tallied yet. */
    method Restart()
      requires Whole(Shape()) && Whole(fixed.Kept()) && Whole(w.Valid())
      modifies trees.l.freq, trees.d.freq, trees.bl.freq, buf
      ensures Whole(Valid()) && buf.tokens == [] && w.Stream() == old(w.Stream())
    {
      hide Tables.Shape, FixedData.Kept, BitWriter.Valid, TokenBuffer.Valid, Tab.Valid;
      ClearCounts();
      buf.Clear();
      Intact();
    }

    method ClearCounts()
      requires Whole(Shape()) && Whole(fixed.Kept()) && Whole(w.Valid())
      modifies trees.l.freq, trees.d.freq, trees.bl.freq
      ensures Whole(Tallies(trees.l.freq[..], trees.d.freq[..], fixed.tab, []))
              && trees.bl.freq[..BL_CODES] == Repeat(0, BL_CODES)
      ensures Whole(fixed.Kept()) && Whole(w.Valid()) && w.Stream() == old(w.Stream())
    {
      trees.InitFreqs();
      TallyNone(trees.l.freq[..], trees.d.freq[..], fixed.tab);
    }

    method PlanBlock(ghost ts: seq<Token>)
      returns (n: nat, opt: int, stat: int, ghost llens: seq<nat>, ghost dlens: seq<nat>, ghost cl: seq<nat>)
      requires Whole(Valid()) && ts == buf.tokens
      modifies trees.objects, buf.flagBuf
      ensures Whole(Buffered(buf, ts)) && Whole(fixed.Kept()) && Whole(w.Valid()) && w.Stream() == old(w.Stream())
      ensures Whole(BuiltFor(trees, fixed.tab, ts, llens, dlens, cl, n, opt, stat))
    {
      SaveFlags();
      n, opt, stat, llens, dlens, cl := BuildBlock(ts);
    }

    method SendPlanned(window: array<byte>, start: int, storedLen: nat, eof: bool, n: nat, opt: int, stat: int,
                       ghost llens: seq<nat>, ghost dlens: seq<nat>, ghost cl: seq<nat>, ghost ts: seq<Token>,
                       ghost before: seq<byte>, ghost data: seq<byte>) returns (kind: nat, ghost bits: Bits)
      requires Whole(Shape()) && Whole(Buffered(buf, ts)) && Whole(fixed.Kept()) && Whole(w.Valid())
               && w.outbuf != window
      requires Whole(BuiltFor(trees, fixed.tab, ts, llens, dlens, cl, n, opt, stat))
      requires Whole(AllTallied(ts)) && |ts| <= 8191 && Whole(Stands(window, start, storedLen, ts, before, data))
      modifies w, w.outbuf
      ensures Whole(fixed.Kept()) && Whole(w.Valid())
      ensures w.Stream() == old(w.Stream()) + bits && BF.Encodes(|old(w.Stream())|, bits, eof, before, before + data)
      ensures SentSmallest(fixed.tab, ts, llens, dlens, cl, n, opt, stat, kind, storedLen, |old(w.Stream())|, |bits|)
    {
      hide Buffered, Tab.Valid, BuiltFor, Stands, Planned, Smallest, BF.Encodes, BitWriter.Valid, BitWriter.Stream,
           AllTallied, SentSmallest;
      PlannedHere(trees, fixed.tab, ts, llens, dlens, cl, n, opt, stat);
      kind, bits := Emit(trees, fixed, buf, w, window, start, storedLen, eof, n, opt, stat, llens, dlens, cl, ts,
                         before, data);
      SentIs(fixed.tab, ts, llens, dlens, cl, n, opt, stat, kind, storedLen, |old(w.Stream())|, |bits|);
    }

    /** Build the trees and send the block. */
    method SendBlock(window: array<byte>, start: int, storedLen: nat, eof: bool, ghost before: seq<byte>,
                     ghost data: seq<byte>)
      returns (ghost bits: Bits)
      requires Whole(Valid()) && window !in objects && Whole(Stands(window, start, storedLen, buf.tokens, before, data))
      modifies trees.objects, buf.flagBuf, w, w.outbuf
      ensures Whole(fixed.Kept()) && Whole(w.Valid())
      ensures w.Stream() == old(w.Stream()) + bits && BF.Encodes(|old(w.Stream())|, bits, eof, before, before + data)
      ensures Economical(fixed.tab, old(buf.tokens), |old(w.Stream())|, |bits|)
    {
      hide SentSmallest;
      ghost var ts := buf.tokens;
      LengthStands(window, start, storedLen, ts, before, data);
      var n, opt, stat, kind;
      ghost var llens, dlens, cl;
      n, opt, stat, llens, dlens, cl := PlanBlock(ts);
      kind, bits := SendPlanned(window, start, storedLen, eof, n, opt, stat, llens, dlens, cl, ts, before, data);
    }

    /** Send the block and start a new one. */
    method NextBlock(window: array<byte>, start: int, storedLen: nat, eof: bool, ghost before: seq<byte>,
                     ghost data: seq<byte>)
      returns (ghost bits: Bits)
      requires Whole(Valid()) && window !in objects && Whole(Stands(window, start, storedLen, buf.tokens, before, data))
      modifies objects
      ensures Whole(Valid()) && buf.tokens == []
      ensures w.Stream() == old(w.Stream()) + bits && BF.Encodes(|old(w.Stream())|, bits, eof, before, before + data)
      ensures Economical(fixed.tab, old(buf.tokens), |old(w.Stream())|, |bits|)
    {
      hide Economical;
      bits := SendBlock(window, start, storedLen, eof, before, data);
      Restart();
    }

    /** bi_windup at the end of the file. */
    method Finish()
      requires Whole(Valid())
      modifies w, w.outbuf
      ensures Whole(Valid()) && w.biValid == 0 && w.Stream() == old(w.Stream()) + ToBits(0, Padding(|old(w.Stream())|))
    {
      w.Windup();
      Intact();
    }

    /** flush_block. */
    method Flush(window: array<byte>, start: int, storedLen: nat, eof: bool, ghost before: seq<byte>,
                 ghost data: seq<byte>)
      returns (ghost bits: Bits)
      requires Whole(Valid()) && window !in objects && Whole(Stands(window, start, storedLen, buf.tokens, before, data))
      modifies objects
      ensures Whole(Valid()) && buf.tokens == [] && (eof ==> w.biValid == 0)
      ensures BF.Encodes(|old(w.Stream())|, bits, eof, before, before + data)
      ensures !eof ==> w.Stream() == old(w.Stream()) + bits
      ensures eof ==> w.Stream() == old(w.Stream()) + bits + ToBits(0, Padding(|old(w.Stream()) + bits|))
      ensures Economical(fixed.tab, old(buf.tokens), |old(w.Stream())|, |bits|)
    {
      hide Economical;
      bits := NextBlock(window, start, storedLen, eof, before, data);
      if eof {
        Finish();
      }
    }

    lemma Intact()
      requires Whole(Shape()) && Whole(fixed.Kept()) && Whole(w.Valid()) && Whole(buf.Valid()) && Whole(Counted())
      ensures Whole(Valid())
    {
    }

    method Save(dist: nat, lc: byte, ghost ts: seq<Token>, ghost t: Token)
      requires Whole(Shape()) && Whole(fixed.Kept()) && Whole(buf.Valid()) && Whole(w.Valid())
               && buf.lastLit < LIT_BUFSIZE - 1
      requires Whole(CountedFor(ts)) && TokenOk(t) && t == if dist == 0 then Literal(lc) else Match(lc + 3, dist)
      modifies buf, buf.lBuf, buf.dBuf, buf.flagBuf
      ensures Whole(fixed.Kept()) && Whole(buf.Valid()) && buf.tokens == old(buf.tokens) + [t]
      ensures Whole(w.Valid()) && w.Stream() == old(w.Stream()) && Whole(CountedFor(ts))
    {
      buf.Push(dist, lc, t);
    }

    /** The frequencies catch up with the token just saved. */
    method CountNext(dist: nat, lc: byte, ghost ts: seq<Token>, ghost t: Token)
      requires Whole(Shape()) && Whole(fixed.Kept()) && Whole(buf.Valid()) && Whole(w.Valid()) && Whole(CountedFor(ts))
               && buf.tokens == ts + [t]
      requires Tallied(t) && t == if dist == 0 then Literal(lc) else Match(lc + 3, dist)
      modifies trees.l.freq, trees.d.freq
      ensures Whole(Counted()) && Whole(fixed.Kept()) && Whole(buf.Valid())
      ensures Whole(w.Valid()) && w.Stream() == old(w.Stream())
    {
      TalliesStep(trees.l.freq[..], trees.d.freq[..], fixed.tab, ts, t);
      TalliedStep(ts, t);
      CountToken(fixed.tables, trees.l.freq, trees.d.freq, dist, lc, fixed.tab, t);
    }
  }

  lemma TalliedStep(ts: seq<Token>, t: Token)
    requires AllTallied(ts) && Tallied(t)
    ensures AllTallied(ts + [t])
  {
    forall i | 0 <= i < |ts + [t]| ensures Tallied((ts + [t])[i]) {
      if i < |ts| { assert Tallied(ts[i]); }
    }
  }

  lemma {:induction false} EstimateFrame(freq: seq<nat>, n: nat, m: nat)
    requires n <= m <= |freq|
    ensures DistEstimate(freq, n) == DistEstimate(freq[..m], n)
  {
    if n > 0 { EstimateFrame(freq, n - 1, m); }
  }
}
