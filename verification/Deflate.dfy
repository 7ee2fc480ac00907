/** deflate of gzip.c: lazy matching over the sliding window. */
module Deflate {
  import opened Bits
  import opened Rfc1951
  import opened TokenBuffers
  import opened StoredBound
  import opened Chains
  import opened LongestMatches
  import opened Windows
  import opened Progress
  import opened LazyMatching
  import opened BlockCoders
  import opened Coders

  /** Search the chain from q; the result is cut to the lookahead, and a short match
      far away is not worth having. */
  method PickMatch(window: array<byte>, prev: array<nat>, s: nat, lookahead: nat, q: nat, prevLength: nat,
                   matchStart: int,
                   ghost head: seq<nat>, ghost input: seq<byte>, ghost base: nat, ghost pos: nat, ghost e: nat)
    returns (n: nat, start: int, ghost a: int)
    requires s < WINDOW_SIZE && Whole(Linked(window[..], prev[..], head, s + 1))
             && Whole(Holds(window[..], input, base, s + lookahead, pos))
    requires 1 <= q && LinkOk(window[..], s, q) && s - q <= MAX_DIST && 1 <= prevLength < MAX_LAZY && lookahead > 0
             && e == base + s
    requires prev.Length == WSIZE && prev[s % WSIZE] == q
    ensures 1 <= n <= lookahead && a == base + start && Better(input, e, a, n, prevLength)
    ensures Whole(Searched(window[..], s, lookahead, prevLength, n, start))
  {
    var r := FindLonger(window, prev, s, q, prevLength, matchStart, head);
    start := r.start;
    n := if r.length > lookahead then lookahead else r.length;
    if n == MIN_MATCH && s - start > TOO_FAR {
      n := n - 1;
    }
    a := base + start;
    Picked(window[..], input, base, pos, s, lookahead, Best(prevLength, matchStart), r, n, e, a, prevLength);
    LongEnough(window[..], s, lookahead, prevLength, r, n, start);
  }

  /** A result longer than the match in hand is a match for the string at e. */
  ghost predicate Better(input: seq<byte>, e: nat, a: int, n: nat, prevLength: nat)
  {
    n >= 3 && n > prevLength ==> Whole(MatchFound(input, e, a, n))
  }

  lemma Picked(win: seq<byte>, input: seq<byte>, base: nat, pos: nat, s: nat, lookahead: nat, best: Best, r: Best,
               n: nat,
               e: nat, a: int, prevLength: nat)
    requires Whole(Holds(win, input, base, s + lookahead, pos)) && Whole(RealMatch(win, s, best, r))
    requires e == base + s && a == base + r.start && prevLength == best.length
    requires n <= r.length && n <= lookahead && (n == MIN_MATCH ==> s - r.start <= TOO_FAR)
    ensures Better(input, e, a, n, prevLength)
  {
    if n >= 3 && n > best.length {
      RealIsFound(win, input, base, s + lookahead, pos, s, best, r, n, e, a);
    }
  }

  class Deflater {
    const win: Window
    const coder: Coder
    var prevLength: nat
    ghost var blocks: seq<BF.Block>
    ghost var done: seq<Token>   // tokens of the blocks that have been sent
    ghost var out: seq<Token>    // all tokens so far

    ghost predicate Shape()
    {
      && win.Shape()
      && this !in coder.objects && win !in coder.objects && win.src !in coder.objects
      && win.window !in coder.objects && win.prev !in coder.objects && win.head !in coder.objects
    }

    /** The blocks sent go up to position b of the input, the tokens tallied on to e. */
    ghost predicate InStep(b: nat, e: nat)
      reads this`blocks, this`done, this`out, coder.buf, coder.w, coder.w.outbuf
    {
      && coder.w.Valid() && Coding(win.src.input, b, e, coder.buf.tokens, coder.w.Stream(), blocks)
      && Logged()
    }

    /** The tokens so far are those of the blocks that have been sent and those that wait. */
    ghost predicate Logged()
      requires coder.w.Valid()
      reads this`blocks, this`done, this`out, coder.buf, coder.w, coder.w.outbuf
    {
      out == done + coder.buf.tokens && Whole(Sends(coder.fixed.tab, |blocks|, done, |coder.w.Stream()|))
    }

    /** The window holds input, and the strings before ins are in the chains. */
    ghost predicate Scan(ins: nat)
      reads win`base, win`strstart, win`lookahead, win`eofile, win`blockStart, win`insH, win.window, win.prev, win.head,
            win.src`pos
    {
      win.Data() && win.Chained(ins) && win.Ready(ins)
    }

    /** Blocks up to b and tokens from there to e. */
    ghost predicate Held(b: nat, e: nat)
      reads this`blocks, this`done, this`out, coder.objects
    {
      coder.Valid() && InStep(b, e)
    }

    /** And room for another token. */
    ghost predicate Sent(b: nat, e: nat)
      reads this`blocks, this`done, this`out, coder.objects
    {
      Held(b, e) && |coder.buf.tokens| < LIT_BUFSIZE - 1 && Whole(Uncut(coder.fixed.tab, coder.buf.tokens))
    }

    /** A token has been tallied, and the flag says whether the block ends behind it. */
    ghost predicate Pending(flush: bool)
      reads coder.buf
    {
      && (flush || |coder.buf.tokens| < LIT_BUFSIZE - 1)
      && Whole(UncutBefore(coder.fixed.tab, coder.buf.tokens))
      && (flush <==> Whole(Cut(coder.fixed.tab, coder.buf.tokens))) && coder.buf.tokens != []
    }

    constructor (win: Window, coder: Coder)
      ensures this.win == win && this.coder == coder && blocks == [] && done == [] && out == []
    {
      this.win, this.coder, prevLength, blocks, done, out := win, coder, 0, [], [], [];
    }

    /** Insert the current string and look for a match longer than the one in hand. */
    method FindMatch(matchLength: nat, ghost e: nat, ghost ins: nat) returns (n: nat, prevMatch: int, ghost a: int)
      requires Whole(Shape()) && Whole(Scan(win.strstart)) && e == win.At() && ins == win.strstart + 1
      requires win.lookahead > 0 && (win.eofile || win.lookahead >= MIN_LOOKAHEAD) && 1 <= matchLength
      modifies this`prevLength, win`insH, win`matchStart, win.prev, win.head
      ensures prevLength == matchLength && prevMatch == old(win.matchStart) && 1 <= n && a == win.base + win.matchStart
      ensures Whole(Scan(ins)) && Better(win.src.input, e, a, n, matchLength) && (n >= 3 ==> n <= win.lookahead)
      ensures Whole(Looked(win.window[..], win.strstart, win.lookahead, matchLength, n, win.matchStart))
    {
      hide Scan, MatchFound, Searched;
      var q := InsertCurrent(ins);
      prevLength := matchLength;
      prevMatch := win.matchStart;
      n := MIN_MATCH - 1;
      a := win.base + win.matchStart;
      if q != 0 && prevLength < MAX_LAZY && win.strstart - q <= MAX_DIST {
        n, a := Longest(q, e, ins);
      } else if prevLength < MAX_LAZY {
        Nothing(q, ins, n);
      }
    }

    lemma Nothing(q: nat, ins: nat, n: nat)
      requires Whole(Shape()) && Whole(Scan(ins)) && ins == win.strstart + 1 && win.prev.Length == WSIZE
      requires win.prev[win.strstart % WSIZE] == q && (q == 0 || win.strstart - q > MAX_DIST)
      ensures Whole(Searched(win.window[..], win.strstart, win.lookahead, prevLength, n, win.matchStart))
    {
      NothingThere(win.window[..], win.prev[..], win.head[..], win.strstart, win.lookahead, prevLength, n,
                   win.matchStart, ins);
    }

    method InsertCurrent(ghost ins: nat) returns (q: nat)
      requires Whole(Shape()) && Whole(Scan(win.strstart))
      requires win.lookahead > 0 && (win.eofile || win.lookahead >= MIN_LOOKAHEAD) && ins == win.strstart + 1
      modifies win`insH, win.prev, win.head
      ensures Whole(Scan(ins)) && win.strstart < WINDOW_SIZE
      ensures Whole(LinkOk(win.window[..], win.strstart, q))
      ensures win.prev.Length == WSIZE && win.prev[win.strstart % WSIZE] == q
    {
      q := win.Insert(win.strstart, ins);
    }

    method Longest(q: nat, ghost e: nat, ghost ins: nat) returns (n: nat, ghost a: int)
      requires Whole(Shape()) && Whole(Scan(ins)) && win.strstart < WINDOW_SIZE && e == win.At()
               && ins == win.strstart + 1
      requires 1 <= q && Whole(LinkOk(win.window[..], win.strstart, q)) && win.strstart - q <= MAX_DIST
      requires 1 <= prevLength < MAX_LAZY && win.lookahead > 0
      requires win.prev.Length == WSIZE && win.prev[win.strstart % WSIZE] == q
      modifies win`matchStart
      ensures 1 <= n <= win.lookahead && Whole(Scan(ins))
      ensures a == win.base + win.matchStart && Better(win.src.input, e, a, n, prevLength)
      ensures Whole(Searched(win.window[..], win.strstart, win.lookahead, prevLength, n, win.matchStart))
    {
      hide MatchFound, Window.Ready, Searched;
      var start;
      n, start, a := PickMatch(win.window, win.prev, win.strstart, win.lookahead, q, prevLength, win.matchStart,
                               win.head[..], win.src.input, win.base, win.src.pos, e);
      win.matchStart := start;
    }

    lemma BlockStands(b: nat, e: nat, storedLen: nat, before: seq<byte>, data: seq<byte>)
      requires Whole(Shape()) && Whole(win.Data()) && Whole(InStep(b, e)) && e == win.At()
               && b == win.base + win.blockStart
      requires storedLen == win.strstart - win.blockStart && before == win.src.input[..b] && data == win.src.input[b..e]
      ensures Whole(Stands(win.window, win.blockStart, storedLen, coder.buf.tokens, before, data))
    {
      CodingStands(win.src.input, b, e, coder.buf.tokens, coder.w.Stream(), blocks);
      if 0 <= win.blockStart {
        BlockInWindow(win.window[..], win.src.input, win.base, win.strstart + win.lookahead, win.src.pos,
                      win.blockStart, win.strstart);
      }
    }

    lemma WriterValid()
      requires Whole(coder.Valid())
      ensures coder.w.Valid()
    {
    }

    /** Send the tokens as a block. */
    method SendBlock(ghost b: nat, ghost e: nat, ghost ins: nat)
      requires Whole(Shape()) && Whole(Scan(ins)) && Whole(Held(b, e)) && e == win.At()
               && b == win.base + win.blockStart
      requires Whole(FirstCut(coder.fixed.tab, coder.buf.tokens))
      modifies coder.objects, this`blocks, this`done
      ensures Whole(Scan(ins)) && Whole(Sent(e, e))
    {
      hide Coding, Window.Ready, Window.Chained, Stands, BF.Encodes, Coder.Valid, Economical, Sends, FirstCut, Uncut,
           Padding, ToBits;
      ghost var input, ts, s0 := win.src.input, coder.buf.tokens, coder.w.Stream();
      var storedLen := win.strstart - win.blockStart;
      ghost var before, data := input[..b], input[b..e];
      BlockStands(b, e, storedLen, before, data);
      ghost var bits := coder.Flush(win.window, win.blockStart, storedLen, false, before, data);
      WriterValid();
      SendsMore(coder.fixed.tab, |blocks|, done, ts, |s0|, |bits|, out, |coder.w.Stream()|, |blocks| + 1);
      CodingBlock(input, b, e, ts, s0, blocks, bits, coder.w.Stream());
      blocks, done := blocks + [BF.Block(bits, input[..e])], out;
      UncutNone(coder.fixed.tab);
    }

    /** FLUSH_BLOCK(0), after which the next block starts. */
    method EndBlock(ghost b: nat, ghost e: nat, ghost ins: nat)
      requires Whole(Shape()) && Whole(Scan(ins)) && Whole(Held(b, e)) && e == win.At()
               && b == win.base + win.blockStart
      requires Whole(FirstCut(coder.fixed.tab, coder.buf.tokens))
      modifies coder.objects, this`blocks, this`done, win`blockStart
      ensures Whole(Scan(ins)) && Whole(Sent(e, e)) && win.blockStart == win.strstart
    {
      hide Held, Scan;
      SendBlock(b, e, ins);
      StartNext(e, ins);
    }

    method StartNext(ghost e: nat, ghost ins: nat)
      requires Whole(Shape()) && Whole(Scan(ins)) && Whole(Sent(e, e))
      modifies win`blockStart
      ensures Whole(Scan(ins)) && Whole(Sent(e, e)) && win.blockStart == win.strstart
    {
      hide Coder.Valid, InStep;
      win.StartBlock();
    }

    lemma Decided(flush: bool)
      requires Whole(Pending(flush))
      ensures if flush then Whole(FirstCut(coder.fixed.tab, coder.buf.tokens))
              else Whole(Uncut(coder.fixed.tab, coder.buf.tokens)) && |coder.buf.tokens| < LIT_BUFSIZE - 1
    {
      hide Cut, Uncut;
      if !flush { UncutNext(coder.fixed.tab, coder.buf.tokens); }
    }

    /** Flush the block if ct_tally said so. */
    method MaybeEnd(flush: bool, ghost b: nat, ghost e: nat, ghost ins: nat) returns (ghost b1: nat)
      requires Whole(Shape()) && Whole(Scan(ins)) && Whole(Held(b, e)) && e == win.At()
               && b == win.base + win.blockStart
      requires Whole(Pending(flush))
      modifies coder.objects, this`blocks, this`done, win`blockStart
      ensures Whole(Scan(ins)) && Whole(Sent(b1, e)) && b1 == win.base + win.blockStart
    {
      hide Held, Scan, FirstCut;
      b1 := b;
      Decided(flush);
      if flush {
        EndBlock(b, e, ins);
        b1 := e;
      }
    }

    /** Tally a token that takes the tokens from e to e1. */
    method TallyToken(dist: nat, lc: byte, ghost t: Token, ghost b: nat, ghost e1: nat, ghost ins: nat)
      returns (flush: bool)
      requires Whole(Shape()) && Whole(Scan(ins)) && Whole(coder.Valid()) && |coder.buf.tokens| < LIT_BUFSIZE - 1
      requires Tallied(t) && t == if dist == 0 then Literal(lc) else Match(lc + 3, dist)
      requires coder.w.Valid() && Coding(win.src.input, b, e1, coder.buf.tokens + [t], coder.w.Stream(), blocks)
      requires Logged() && Whole(Uncut(coder.fixed.tab, coder.buf.tokens))
      requires win.strstart - win.blockStart == TokensLength(coder.buf.tokens) + 1
      modifies coder.objects, this`out
      ensures Whole(Scan(ins)) && Whole(Held(b, e1)) && Whole(Pending(flush))
      ensures out == old(out) + [t]
    {
      hide Coder.Valid, Coding, Window.Chained, Window.Ready, Cut, Uncut;
      ghost var ts := coder.buf.tokens;
      InitDropped(ts, t);
      Assoc(done, coder.buf.tokens, [t]);
      out := out + [t];
      flush := coder.Tally(dist, lc, win.strstart - win.blockStart, t);
    }

    /** Tally the literal before the current string. */
    method TallyLiteral(ghost b: nat, ghost e: nat, ghost e1: nat, ghost ins: nat) returns (flush: bool)
      requires Whole(Shape()) && Whole(Scan(ins)) && Whole(Sent(b, e)) && b == win.base + win.blockStart
               && 1 <= win.strstart && e1 == win.At()
               && e == e1 - 1
      modifies coder.objects, this`out
      ensures Whole(Scan(ins)) && Whole(Held(b, e1)) && Whole(Pending(flush))
      ensures e < |win.src.input| && out == old(out) + [Literal(win.src.input[e])]
    {
      hide Coder.Valid, Window.Ready, Window.Chained;
      HoldsAt(win.window[..], win.src.input, win.base, win.strstart + win.lookahead, win.src.pos, win.strstart - 1);
      var c := win.window[win.strstart - 1];
      ghost var t := Literal(c);
      CodingStands(win.src.input, b, e, coder.buf.tokens, coder.w.Stream(), blocks);
      CodingLiteral(win.src.input, b, e, coder.buf.tokens, coder.w.Stream(), blocks, t, e1);
      flush := TallyToken(0, c, t, b, e1, ins);
    }

    /** Tally the match in hand for the string before the current one. */
    method TallyMatch(prevMatch: int, ghost a: int, ghost b: nat, ghost e: nat, ghost e1: nat, ghost ins: nat)
      returns (flush: bool)
      requires Whole(Shape()) && Whole(Scan(ins)) && Whole(Sent(b, e)) && b == win.base + win.blockStart
      requires e == win.At() - 1 && a == win.base + prevMatch && Whole(MatchFound(win.src.input, e, a, prevLength))
               && e1 == e + prevLength
      modifies coder.objects, this`out
      ensures Whole(Scan(ins)) && Whole(Held(b, e1)) && Whole(Pending(flush))
      ensures a < e && out == old(out) + [Match(prevLength, e - a)]
    {
      hide Coder.Valid, Window.Ready, Window.Chained;
      var d := win.strstart - 1 - prevMatch;
      ghost var t := Match(prevLength, d);
      CodingStands(win.src.input, b, e, coder.buf.tokens, coder.w.Stream(), blocks);
      CodingFound(win.src.input, b, e, coder.buf.tokens, coder.w.Stream(), blocks, prevLength, a, d, t, e1);
      flush := TallyToken(d, prevLength - MIN_MATCH, t, b, e1, ins);
    }

    /** Enter the strings of the match in hand and go on behind it. */
    method SkipMatch(ghost b: nat, ghost e1: nat, ghost ins: nat, ghost s1: nat)
      requires Whole(Shape()) && Whole(Scan(ins)) && ins == win.strstart + 1 && Whole(Held(b, e1))
      requires 3 <= prevLength <= MAX_MATCH && prevLength <= win.lookahead + 1
               && (win.eofile || win.lookahead >= MIN_LOOKAHEAD)
      requires s1 == win.strstart + prevLength - 1
      modifies this`prevLength, win`strstart, win`lookahead, win`insH, win.prev, win.head
      ensures Whole(Scan(s1)) && Whole(Held(b, e1)) && win.strstart == s1
    {
      hide Coder.Valid, InStep, Scan;
      SkipStrings(ins, s1);
    }

    method SkipStrings(ghost ins: nat, ghost s1: nat)
      requires Whole(Shape()) && Whole(Scan(ins)) && ins == win.strstart + 1
      requires 3 <= prevLength <= MAX_MATCH && prevLength <= win.lookahead + 1
               && (win.eofile || win.lookahead >= MIN_LOOKAHEAD)
      requires s1 == win.strstart + prevLength - 1
      modifies this`prevLength, win`strstart, win`lookahead, win`insH, win.prev, win.head
      ensures Whole(Scan(s1)) && win.strstart == s1
    {
      win.Skip(prevLength, ins);
      prevLength := 0;
    }

    /** The match in hand is the better one: tally it and go on behind it. */
    method TakeMatch(prevMatch: int, ghost a: int, ghost b: nat, ghost e: nat, ghost e1: nat, ghost ins: nat,
                     ghost s1: nat) returns (ghost b1: nat)
      requires Whole(Shape()) && Whole(Scan(ins)) && ins == win.strstart + 1 && Whole(Sent(b, e))
               && b == win.base + win.blockStart
      requires e == win.At() - 1 && a == win.base + prevMatch && Whole(MatchFound(win.src.input, e, a, prevLength))
               && e1 == e + prevLength
      requires prevLength <= win.lookahead + 1 && (win.eofile || win.lookahead >= MIN_LOOKAHEAD)
               && s1 == win.strstart + prevLength - 1
      modifies this`blocks, this`done, this`out, this`prevLength, win`strstart, win`lookahead, win`insH,
               win`blockStart, win.prev, win.head, coder.objects
      ensures Whole(Scan(s1)) && win.strstart == s1 && Whole(Sent(b1, e1)) && b1 == win.base + win.blockStart
      ensures win.base == old(win.base) && win.eofile == old(win.eofile)
      ensures a < e && out == old(out) + [Match(old(prevLength), e - a)]
    {
      hide Held, Scan;
      var flush := TallyAndSkip(prevMatch, a, b, e, e1, ins, s1);
      b1 := MaybeEnd(flush, b, e1, s1);
    }

    method TallyAndSkip(prevMatch: int, ghost a: int, ghost b: nat, ghost e: nat, ghost e1: nat, ghost ins: nat,
                        ghost s1: nat) returns (flush: bool)
      requires Whole(Shape()) && Whole(Scan(ins)) && ins == win.strstart + 1 && Whole(Sent(b, e))
               && b == win.base + win.blockStart
      requires e == win.At() - 1 && a == win.base + prevMatch && Whole(MatchFound(win.src.input, e, a, prevLength))
               && e1 == e + prevLength
      requires prevLength <= win.lookahead + 1 && (win.eofile || win.lookahead >= MIN_LOOKAHEAD)
               && s1 == win.strstart + prevLength - 1
      modifies this`out, this`prevLength, win`strstart, win`lookahead, win`insH, win.prev, win.head, coder.objects
      ensures a < e && out == old(out) + [Match(old(prevLength), e - a)]
      ensures Whole(Scan(s1)) && win.strstart == s1 && Whole(Held(b, e1)) && Whole(Pending(flush))
    {
      hide Held, Scan;
      flush := TallyMatch(prevMatch, a, b, e, e1, ins);
      SkipMatch(b, e1, ins, s1);
    }

    method Advance(ghost b: nat, ghost e: nat, ghost ins: nat)
      requires Whole(Shape()) && Whole(Scan(ins)) && ins == win.strstart + 1 && Whole(Sent(b, e)) && win.lookahead > 0
      modifies win`strstart, win`lookahead
      ensures Whole(Scan(win.strstart)) && Whole(Sent(b, e)) && win.strstart == ins
              && win.lookahead == old(win.lookahead) - 1
    {
      hide Coder.Valid, InStep;
      win.Advance(ins);
    }

    /** Tally the byte before the current string as a literal and go on by one. */
    method TakeLiteral(ghost b: nat, ghost e: nat, ghost e1: nat, ghost ins: nat) returns (ghost b1: nat)
      requires Whole(Shape()) && Whole(Scan(ins)) && ins == win.strstart + 1 && Whole(Sent(b, e))
               && b == win.base + win.blockStart
      requires 1 <= win.strstart && e1 == win.At() && e == e1 - 1 && win.lookahead > 0
      modifies this`blocks, this`done, this`out, win`blockStart, win`strstart, win`lookahead, coder.objects
      ensures e < |win.src.input| && out == old(out) + [Literal(win.src.input[e])]
      ensures Whole(Scan(win.strstart)) && win.strstart == ins && win.lookahead == old(win.lookahead) - 1
      ensures Whole(Sent(b1, e1)) && b1 == win.base + win.blockStart
      ensures win.base == old(win.base) && win.eofile == old(win.eofile) && win.matchStart == old(win.matchStart)
    {
      hide Held, Scan;
      var flush := TallyLiteral(b, e, e1, ins);
      b1 := MaybeEnd(flush, b, e1, ins);
      Advance(b1, e1, ins);
    }

    /** A match of n bytes at position e is in hand, found at a. */
    ghost predicate InHand(n: nat, avail: bool, a: int, e: nat)
      reads win`base, win`matchStart, win`lookahead
    {
      n >= 3 ==> avail && a == win.base + win.matchStart && Whole(MatchFound(win.src.input, e, a, n))
                 && n <= win.lookahead + 1
    }

    /** One round of the loop of deflate, up to filling the window. */
    method Step(matchLength: nat, avail: bool, ghost b: nat, ghost a: int, ghost e: nat, ghost ins: nat)
      returns (matchLength1: nat, avail1: bool, ghost b1: nat, ghost a1: int, ghost e1: nat, ghost n: nat)
      requires Whole(Shape()) && Whole(Scan(win.strstart)) && Whole(Sent(b, e)) && b == win.base + win.blockStart
      requires win.lookahead > 0 && (win.eofile || win.lookahead >= MIN_LOOKAHEAD) && ins == win.strstart + 1
      requires e == win.At() - BF.Bit(avail) && (avail ==> win.strstart >= 1) && 1 <= matchLength
               && Whole(InHand(matchLength, avail, a, e))
      modifies this, win, win.prev, win.head, coder.objects
      ensures Whole(Scan(win.strstart)) && Whole(Sent(b1, e1)) && b1 == win.base + win.blockStart
      ensures e1 == win.At() - BF.Bit(avail1) && win.strstart >= 1 && 1 <= matchLength1
              && Whole(InHand(matchLength1, avail1, a1, e1))
      ensures win.At() > old(win.At())
      ensures Goes(win.src.input, Hand(matchLength, avail, a, e), Find(n, a1), Hand(matchLength1, avail1, a1, e1),
                   old(out), out)
    {
      hide Held, Scan, Found;
      ghost var at := win.At();
      var length, prevMatch;
      length, prevMatch, a1 := Look(matchLength, at, ins, b, e);
      n := length;
      if prevLength >= MIN_MATCH && length <= prevLength {
        e1 := e + prevLength;
        b1 := TakeMatch(prevMatch, a, b, e, e1, ins, win.strstart + prevLength - 1);
        avail1, matchLength1 := false, MIN_MATCH - 1;
      } else {
        b1, e1 := Wait(avail, length, b, a1, e, at, ins, matchLength);
        avail1, matchLength1 := true, length;
      }
    }

    /** No match is emitted: the current string waits for the next one. */
    method Wait(avail: bool, n: nat, ghost b: nat, ghost a1: int, ghost e: nat, ghost at: nat, ghost ins: nat,
                ghost matchLength: nat)
      returns (ghost b1: nat, ghost e1: nat)
      requires Whole(Shape()) && Whole(Scan(ins)) && Whole(Sent(b, e)) && b == win.base + win.blockStart
               && ins == win.strstart + 1
      requires win.lookahead > 0 && at == win.At() && e == at - BF.Bit(avail) && (avail ==> win.strstart >= 1)
      requires a1 == win.base + win.matchStart && Better(win.src.input, at, a1, n, matchLength)
               && (n >= 3 ==> n <= win.lookahead && n > matchLength)
      modifies this`blocks, this`done, this`out, win`blockStart, win`strstart, win`lookahead, coder.objects
      ensures avail ==> e < |win.src.input|
      ensures out == old(out) + if avail then [Literal(win.src.input[e])] else []
      ensures Whole(Scan(win.strstart)) && Whole(Sent(b1, e1)) && b1 == win.base + win.blockStart && win.strstart == ins
      ensures e1 == at && win.base == old(win.base) && Whole(InHand(n, true, a1, e1))
    {
      hide Held, Scan;
      e1 := at;
      if avail {
        b1 := TakeLiteral(b, e, e1, ins);
      } else {
        b1 := b;
        Advance(b, e, ins);
      }
    }

    lemma FoundHere(at: nat, ins: nat, matchLength: nat, n: nat, a: int)
      requires Whole(Scan(ins)) && at == win.At() && a == win.base + win.matchStart
      requires win.eofile || win.lookahead >= MIN_LOOKAHEAD
      requires Whole(Looked(win.window[..], win.strstart, win.lookahead, matchLength, n, win.matchStart))
      ensures Whole(Found(win.src.input, at, matchLength, n, a))
    {
      hide Looked, Window.Chained, Window.Ready;
      assert FoundIn(win.window[..], win.src.input, win.base, win.strstart, win.lookahead, win.src.pos, at,
                     matchLength, n, a);
    }

    method Look(matchLength: nat, ghost at: nat, ghost ins: nat, ghost b: nat, ghost e: nat)
      returns (n: nat, prevMatch: int, ghost a1: int)
      requires Whole(Shape()) && Whole(Scan(win.strstart)) && Whole(Sent(b, e))
      requires win.lookahead > 0 && (win.eofile || win.lookahead >= MIN_LOOKAHEAD) && ins == win.strstart + 1
               && at == win.At() && 1 <= matchLength
      modifies this`prevLength, win`insH, win`matchStart, win.prev, win.head
      ensures Whole(Scan(ins)) && Whole(Sent(b, e)) && prevLength == matchLength && prevMatch == old(win.matchStart)
              && 1 <= n
      ensures a1 == win.base + win.matchStart && Better(win.src.input, at, a1, n, matchLength)
              && (n >= 3 ==> n <= win.lookahead)
      ensures Whole(Found(win.src.input, at, matchLength, n, a1))
    {
      hide Coder.Valid, InStep, Scan, Looked;
      n, prevMatch, a1 := FindMatch(matchLength, at, ins);
      FoundHere(at, ins, matchLength, n, a1);
    }

    /** fill_window_if_needed: positions in the input do not move. */
    method Refill(matchLength: nat, avail: bool, ghost b: nat, ghost a: int, ghost e: nat)
      requires Whole(Shape()) && Whole(Scan(win.strstart)) && Whole(Sent(b, e)) && b == win.base + win.blockStart
      requires e == win.At() - BF.Bit(avail) && win.strstart >= 1 && Whole(InHand(matchLength, avail, a, e))
      modifies win, win.window, win.prev, win.head, win.src
      ensures Whole(Sent(b, e)) && b == win.base + win.blockStart && e == win.At() - BF.Bit(avail) && win.strstart >= 1
      ensures Whole(Scan(win.strstart)) && Whole(InHand(matchLength, avail, a, e))
              && (win.eofile || win.lookahead >= MIN_LOOKAHEAD) && win.At() == old(win.At())
    {
      hide Coder.Valid, InStep, MatchFound;
      ghost var at := win.At();
      win.FillIfNeeded(true);
    }

    /** One round and the refill behind it. */
    method Round(matchLength: nat, avail: bool, ghost b: nat, ghost a: int, ghost e: nat)
      returns (matchLength1: nat, avail1: bool, ghost b1: nat, ghost a1: int, ghost e1: nat, ghost n: nat)
      requires Whole(Shape()) && Whole(Scan(win.strstart)) && Whole(Sent(b, e)) && b == win.base + win.blockStart
      requires win.lookahead > 0 && (win.eofile || win.lookahead >= MIN_LOOKAHEAD)
      requires e == win.At() - BF.Bit(avail) && (avail ==> win.strstart >= 1) && 1 <= matchLength
               && Whole(InHand(matchLength, avail, a, e))
      modifies this, win, win.window, win.prev, win.head, win.src, coder.objects
      ensures Whole(Scan(win.strstart)) && Whole(Sent(b1, e1)) && b1 == win.base + win.blockStart
      ensures e1 == win.At() - BF.Bit(avail1) && win.strstart >= 1 && 1 <= matchLength1
              && Whole(InHand(matchLength1, avail1, a1, e1))
      ensures (win.eofile || win.lookahead >= MIN_LOOKAHEAD) && win.At() > old(win.At())
      ensures Goes(win.src.input, Hand(matchLength, avail, a, e), Find(n, a1), Hand(matchLength1, avail1, a1, e1),
                   old(out), out)
    {
      hide Held, Scan, InHand, Goes;
      matchLength1, avail1, b1, a1, e1, n := Step(matchLength, avail, b, a, e, win.strstart + 1);
      Refill(matchLength1, avail1, b1, a1, e1);
    }

    /** The loop of deflate: all input is covered when it ends. */
    method Loop()
      returns (avail: bool, ghost b: nat, ghost e: nat, ghost fs: seq<Find>, ghost length: nat, ghost a: int)
      requires Whole(Shape()) && Whole(win.Data()) && (win.lookahead > 0 ==> Whole(Scan(0))) && win.strstart == 0
               && win.base == 0
      requires Whole(Sent(0, 0)) && win.blockStart == 0 && (win.eofile || win.lookahead >= MIN_LOOKAHEAD) && out == []
      modifies this, win, win.window, win.prev, win.head, win.src, coder.objects
      ensures Whole(win.Data()) && Whole(Sent(b, e)) && b == win.base + win.blockStart && e == win.At() - BF.Bit(avail)
              && (avail ==> win.strstart >= 1)
      ensures win.lookahead == 0 && win.eofile && win.At() == |win.src.input|
      ensures Lazy(win.src.input, fs, Hand(length, avail, a, e), out)
    {
      hide Held, Scan, InHand, Goes, Lazy;
      var matchLength := MIN_MATCH - 1;
      avail, b, e, a, fs := false, 0, 0, 0, [];
      LazyStart();
      Empty(matchLength, avail, a, e);
      while win.lookahead != 0
        invariant Whole(win.Data()) && (win.lookahead > 0 ==> Whole(Scan(win.strstart))) && Whole(Sent(b, e))
                  && b == win.base + win.blockStart
        invariant e == win.At() - BF.Bit(avail) && (avail ==> win.strstart >= 1) && 1 <= matchLength
                  && Whole(InHand(matchLength, avail, a, e))
        invariant win.eofile || win.lookahead >= MIN_LOOKAHEAD
        invariant Lazy(win.src.input, fs, Hand(matchLength, avail, a, e), out)
        decreases |win.src.input| - win.At()
      {
        ghost var h, ts := Hand(matchLength, avail, a, e), out;
        ghost var n;
        matchLength, avail, b, a, e, n := Round(matchLength, avail, b, a, e);
        LazyMore(win.src.input, fs, h, ts, Find(n, a), Hand(matchLength, avail, a, e), out);
        fs := fs + [Find(n, a)];
        DataOfScan();
      }
      length := matchLength;
      AtEnd();
    }

    lemma AtEnd()
      requires Whole(win.Data()) && win.lookahead == 0 && win.eofile
      ensures win.At() == |win.src.input|
    {
    }

    lemma LazyStart()
      ensures Lazy(win.src.input, [], Hand(MIN_MATCH - 1, false, 0, 0), [])
    {
    }

    lemma Empty(n: nat, avail: bool, a: int, e: nat)
      requires n < MIN_MATCH
      ensures Whole(InHand(n, avail, a, e))
    {
    }

    lemma DataOfScan()
      requires Whole(Scan(win.strstart))
      ensures Whole(win.Data()) && win.At() <= |win.src.input|
    {
    }

    /** The last literal, if one is waiting, and FLUSH_BLOCK(1). */
    method Finish(avail: bool, ghost b: nat, ghost e: nat) returns (ghost tail: Bits)
      requires Whole(Shape()) && Whole(win.Data()) && Whole(Sent(b, e)) && b == win.base + win.blockStart
      requires e == win.At() - BF.Bit(avail) && (avail ==> win.strstart >= 1) && win.lookahead == 0 && win.eofile
      modifies coder.objects, this`out
      ensures coder.w.Valid() && coder.w.biValid == 0
      ensures |tail| < 8 && tail == ToBits(0, |tail|) && |tail| <= |coder.w.Stream()|
      ensures Inflate(0, coder.w.Stream(), []) == Some((win.src.input, tail))
      ensures Whole(SendsAll(coder.fixed.tab, |blocks|, out, |coder.w.Stream()| - |tail|))
      ensures (avail ==> e < |win.src.input|) && out == old(out) + if avail then [Literal(win.src.input[e])] else []
    {
      hide Coder.Valid, Coding, Holds, Sends, SendsAll, Uncut, UncutBefore;
      ghost var at := win.At();
      UncutLess(coder.fixed.tab, coder.buf.tokens);
      if avail {
        LastLiteral(b, e, at);
      }
      tail := LastBlock(b, at);
    }

    method LastLiteral(ghost b: nat, ghost e: nat, ghost at: nat)
      requires Whole(Shape()) && Whole(win.Data()) && Whole(Sent(b, e)) && win.strstart >= 1 && at == win.At()
               && e == at - 1
      modifies coder.objects, this`out
      ensures Whole(win.Data()) && Whole(Held(b, at)) && Whole(UncutBefore(coder.fixed.tab, coder.buf.tokens))
      ensures e < |win.src.input| && out == old(out) + [Literal(win.src.input[e])]
    {
      hide Coder.Valid, Sends, Uncut, Cut;
      HoldsAt(win.window[..], win.src.input, win.base, win.strstart + win.lookahead, win.src.pos, win.strstart - 1);
      var c := win.window[win.strstart - 1];
      ghost var t := Literal(c);
      CodingLiteral(win.src.input, b, e, coder.buf.tokens, coder.w.Stream(), blocks, t, at);
      Assoc(done, coder.buf.tokens, [t]);
      out := out + [t];
      InitDropped(coder.buf.tokens, t);
      var flush := coder.Tally(0, c, win.strstart - win.blockStart, t);
    }

    method LastBlock(ghost b: nat, ghost e: nat) returns (ghost tail: Bits)
      requires Whole(Shape()) && Whole(win.Data()) && Whole(Held(b, e)) && b == win.base + win.blockStart
               && e == win.At()
      requires win.lookahead == 0 && win.eofile && Whole(UncutBefore(coder.fixed.tab, coder.buf.tokens))
      modifies coder.objects
      ensures coder.w.Valid() && coder.w.biValid == 0
      ensures |tail| < 8 && tail == ToBits(0, |tail|) && |tail| <= |coder.w.Stream()|
      ensures Inflate(0, coder.w.Stream(), []) == Some((win.src.input, tail))
      ensures Whole(SendsAll(coder.fixed.tab, |blocks|, out, |coder.w.Stream()| - |tail|))
    {
      hide Coding, Stands, BF.Encodes, Economical, Sends, SendsAll, UncutBefore, Coder.Valid, ToBits, Padding, Inflate;
      ghost var input, ts, s0 := win.src.input, coder.buf.tokens, coder.w.Stream();
      var storedLen := win.strstart - win.blockStart;
      ghost var before, data := input[..b], input[b..e];
      BlockStands(b, e, storedLen, before, data);
      ghost var bits := coder.Flush(win.window, win.blockStart, storedLen, true, before, data);
      WriterValid();
      tail := ToBits(0, Padding(|s0 + bits|));
      SendsDone(coder.fixed.tab, |blocks|, done, ts, |s0|, |bits|, out, |coder.w.Stream()| - |tail|);
      CodingEnd(input, b, ts, s0, blocks, bits, tail);
    }
  }
}
