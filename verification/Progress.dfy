/** How far the compressor has got: blocks sent, tokens tallied, a match in hand. */
module Progress {
  import opened Bits
  import opened Rfc1951
  import opened StoredBound
  import opened Chains
  import opened LongestMatches
  import opened Windows
  import opened Lz77
  import BF = BlockFormat

  /** The blocks sent stand for the input up to b, the tokens for the input from b to e. */
  ghost predicate Coding(input: seq<byte>, b: nat, e: nat, ts: seq<Token>, stream: Bits, blocks: seq<BF.Block>)
  {
    && TokensCover(input, b, e, ts) && BF.Chain(blocks) && stream == BF.BlocksBits(blocks)
       && BF.Output(blocks) == input[..b]
  }

  lemma CodingStart(input: seq<byte>)
    ensures Coding(input, 0, 0, [], [], [])
  {
    CoversNone(input, 0);
  }

  lemma CodingLiteral(input: seq<byte>, b: nat, e: nat, ts: seq<Token>, stream: Bits, blocks: seq<BF.Block>, t: Token,
                      e1: nat)
    requires Coding(input, b, e, ts, stream, blocks) && e < |input| && t == Literal(input[e]) && e1 == e + 1
    ensures Coding(input, b, e1, ts + [t], stream, blocks)
  {
    CoversLiteral(input, b, e, ts);
  }

  /** The block ends here and the next one starts. */
  lemma CodingBlock(input: seq<byte>, b: nat, e: nat, ts: seq<Token>, stream: Bits, blocks: seq<BF.Block>, bits: Bits,
                    stream': Bits)
    requires Coding(input, b, e, ts, stream, blocks)
             && BF.Encodes(|stream|, bits, false, input[..b], input[..b] + input[b..e])
    requires stream' == stream + bits
    ensures Coding(input, e, e, [], stream', blocks + [BF.Block(bits, input[..e])])
  {
    assert input[..b] + input[b..e] == input[..e];
    BF.ChainStep(blocks, BF.Block(bits, input[..e]));
    CoversNone(input, e);
  }

  /** The last block completes the stream for the whole input. */
  lemma CodingEnd(input: seq<byte>, b: nat, ts: seq<Token>, stream: Bits, blocks: seq<BF.Block>, bits: Bits, tail: Bits)
    requires Coding(input, b, |input|, ts, stream, blocks)
             && BF.Encodes(|stream|, bits, true, input[..b], input[..b] + input[b..|input|])
    ensures Inflate(0, stream + bits + tail, []) == Some((input, tail))
  {
    assert input[..b] + input[b..|input|] == input;
    BF.InflateAll(blocks, bits, input, tail);
    Assoc(stream, bits, tail);
  }

  /** The block's tokens stand for the bytes between b and e. */
  lemma CodingStands(input: seq<byte>, b: nat, e: nat, ts: seq<Token>, stream: Bits, blocks: seq<BF.Block>)
    requires Coding(input, b, e, ts, stream, blocks)
    ensures Expand(input[..b], ts) == Some(input[..b] + input[b..e]) && |input[b..e]| == e - b == TokensLength(ts)
  {
    assert input[..b] + input[b..e] == input[..e];
  }

  lemma BlockInWindow(win: seq<byte>, input: seq<byte>, base: nat, end: nat, pos: nat, start: nat, s: nat)
    requires Holds(win, input, base, end, pos) && start <= s <= end
    ensures win[start..s] == input[base + start..base + s]
  {
    forall i | 0 <= i < s - start ensures win[start..s][i] == input[base + start..base + s][i] {
      HoldsAt(win, input, base, end, pos, start + i);
    }
  }

  /** A match for the string at position e: `start` is where it begins in the input. */
  ghost predicate MatchFound(input: seq<byte>, e: nat, start: int, n: nat)
  {
    && 3 <= n <= MAX_MATCH && e + n <= |input| && 0 <= start < e && e - start <= MAX_DIST
    && Repeats(input, e, e - start, n) && (n == 3 ==> e - start <= TOO_FAR)
  }

  /** Equal strings in the window, as far as it holds input, are repeated input. */
  lemma SameIsRepeat(win: seq<byte>, input: seq<byte>, base: nat, end: nat, pos: nat, m: nat, s: nat, n: nat)
    requires Holds(win, input, base, end, pos) && m < s && s + n <= end && Same(win, m, s, n)
    ensures Repeats(input, base + s, s - m, n)
  {
    var e, d := base + s, s - m;
    forall k | 0 <= k < n ensures RepeatAt(input, e, d, k) {
      assert SameAt(win, m, s, k);
      HoldsAt(win, input, base, end, pos, m + k);
      HoldsAt(win, input, base, end, pos, s + k);
    }
  }

  lemma SameLess(win: seq<byte>, a: nat, b: nat, n: nat, m: nat)
    requires Same(win, a, b, n) && m <= n
    ensures Same(win, a, b, m)
  {
  }

  /** A match the search came back with, cut to the lookahead, is repeated input. */
  lemma RealIsFound(win: seq<byte>, input: seq<byte>, base: nat, end: nat, pos: nat, s: nat, best: Best, r: Best,
                    n: nat, e: nat, a: int)
    requires Holds(win, input, base, end, pos) && e == base + s && a == base + r.start && RealMatch(win, s, best, r)
    requires 3 <= n <= r.length && best.length < n && s + n <= end && (n == 3 ==> s - r.start <= TOO_FAR)
    ensures MatchFound(input, e, a, n)
  {
    SameLess(win, r.start, s, r.length, n);
    SameIsRepeat(win, input, base, end, pos, r.start, s, n);
  }

  /** A match that was found can be tallied. */
  lemma CodingFound(input: seq<byte>, b: nat, e: nat, ts: seq<Token>, stream: Bits, blocks: seq<BF.Block>, n: nat,
                    a: int, d: nat, t: Token, e1: nat)
    requires Coding(input, b, e, ts, stream, blocks) && MatchFound(input, e, a, n) && d == e - a && t == Match(n, d)
             && e1 == e + n
    ensures Tallied(t) && Coding(input, b, e1, ts + [t], stream, blocks)
  {
    CoversMatch(input, b, e, ts, n, d);
  }
}
