/** The bits of a block's tokens, and their decoding by sections 3.2.3 and 3.2.5 of
    RFC 1951. */
module BlockCode {
  import opened Bits
  import opened Rfc1951
  import opened Canonical
  import opened CodeTables
  import opened RunLengths

  const END_BLOCK: nat := 256

  /** A literal, or a match the format can express. */
  predicate TokenOk(t: Token)
  {
    t.Match? ==> 3 <= t.length <= 258 && 1 <= t.distance <= 32768
  }

  /** The literal/length symbol of a token. */
  function LitSym(tab: Tab, t: Token): (s: nat)
    requires tab.Valid() && TokenOk(t)
    ensures s <= 285 && s != END_BLOCK && (t.Match? <==> s > 256)
  {
    match t
    case Literal(b) => b
    case Match(length, _) =>
      assert LengthCodeOk(length - 3, tab.lengthCode[length - 3]);
      257 + tab.lengthCode[length - 3]
  }

  /** The distance symbol of a match. */
  function DistSym(tab: Tab, t: Token): (s: nat)
    requires tab.Valid() && TokenOk(t) && t.Match?
    ensures s <= 29 && DistCodeOk(t.distance - 1, s)
  {
    assert DistCodeOk(t.distance - 1, tab.DCode(t.distance - 1));
    tab.DCode(t.distance - 1)
  }

  function LengthBits(tab: Tab, t: Token): (b: Bits)
    requires tab.Valid() && TokenOk(t) && t.Match?
  {
    assert LengthCodeOk(t.length - 3, tab.lengthCode[t.length - 3]);
    var l := tab.lengthCode[t.length - 3];
    ToBits(t.length - LengthBase(l), LengthExtra(l))
  }

  function DistBits(tab: Tab, t: Token): (b: Bits)
    requires tab.Valid() && TokenOk(t) && t.Match?
  {
    var d := DistSym(tab, t);
    ToBits(t.distance - DistBase(d), DistExtra(d))
  }

  /** The codes the token needs are there. */
  predicate Sendable(tab: Tab, llens: seq<nat>, dlens: seq<nat>, t: Token)
    requires tab.Valid()
  {
    && TokenOk(t)
    && LitSym(tab, t) < |llens| && llens[LitSym(tab, t)] > 0
    && (t.Match? ==> DistSym(tab, t) < |dlens| && dlens[DistSym(tab, t)] > 0)
  }

  function TokenBits(tab: Tab, llens: seq<nat>, dlens: seq<nat>, t: Token): (b: Bits)
    requires tab.Valid() && Sendable(tab, llens, dlens, t)
  {
    match t
    case Literal(_) => Codeword(llens, LitSym(tab, t))
    case Match(_, _) =>
      Codeword(llens, LitSym(tab, t)) + (LengthBits(tab, t) + (Codeword(dlens, DistSym(tab, t)) + DistBits(tab, t)))
  }

  ghost predicate AllSendable(tab: Tab, llens: seq<nat>, dlens: seq<nat>, ts: seq<Token>)
  {
    && tab.Valid() && |llens| > END_BLOCK && llens[END_BLOCK] > 0
    && forall i :: 0 <= i < |ts| ==> Sendable(tab, llens, dlens, ts[i])
  }

  /** The bits of the tokens, without the end-of-block code. */
  ghost function TokensBits(tab: Tab, llens: seq<nat>, dlens: seq<nat>, ts: seq<Token>): (b: Bits)
    requires AllSendable(tab, llens, dlens, ts)
    decreases |ts|
  {
    if ts == [] then [] else TokensBits(tab, llens, dlens, ts[..|ts| - 1]) + TokenBits(tab, llens, dlens, ts[|ts| - 1])
  }

  /** Everything compress_block sends. */
  ghost function BlockBits(tab: Tab, llens: seq<nat>, dlens: seq<nat>, ts: seq<Token>): (b: Bits)
    requires AllSendable(tab, llens, dlens, ts)
  {
    TokensBits(tab, llens, dlens, ts) + Codeword(llens, END_BLOCK)
  }

  // ---- Decoding ----

  lemma DistanceParts(dlens: seq<nat>, d: nat, x: nat, rest: Bits, mid: Bits)
    requires d < 30 && d < |dlens| && dlens[d] > 0 && Fits(dlens, 15) && x < Pow2(DistExtra(d))
    requires mid == ToBits(x, DistExtra(d)) + rest
    ensures DecodeDistance(dlens, Codeword(dlens, d) + mid) == Some((DistBase(d) + x, rest))
  {
    hide Fits, Pow2, DistExtra, ToBits, Codeword, DistBase;
    DecodesSymbol(dlens, 15, d, mid);
    ReadBack(x, DistExtra(d), rest);
  }

  lemma MatchParts(dlens: seq<nat>, l: nat, x: nat, dist: nat, mid: Bits, rest: Bits)
    requires l < 29 && x < Pow2(LengthExtra(l)) && DecodeDistance(dlens, mid) == Some((dist, rest))
    ensures DecodeMatch(dlens, l, ToBits(x, LengthExtra(l)) + mid) == Some((Match(LengthBase(l) + x, dist), rest))
  {
    ReadBack(x, LengthExtra(l), mid);
  }

  lemma DecodesMatch(tab: Tab, dlens: seq<nat>, t: Token, rest: Bits)
    requires tab.Valid() && TokenOk(t) && t.Match? && Fits(dlens, 15)
    requires DistSym(tab, t) < |dlens| && dlens[DistSym(tab, t)] > 0
    ensures DecodeMatch(dlens, LitSym(tab, t) - 257,
                        LengthBits(tab, t) + (Codeword(dlens, DistSym(tab, t)) + (DistBits(tab, t) + rest)))
         == Some((t, rest))
  {
    var l, d := tab.lengthCode[t.length - 3], DistSym(tab, t);
    assert LengthCodeOk(t.length - 3, l);
    DistanceParts(dlens, d, t.distance - DistBase(d), rest, DistBits(tab, t) + rest);
    MatchParts(dlens, l, t.length - LengthBase(l), t.distance, Codeword(dlens, d) + (DistBits(tab, t) + rest), rest);
  }

  lemma MatchSplit(a: Bits, b: Bits, c: Bits, d: Bits, rest: Bits)
    ensures a + (b + (c + d)) + rest == a + (b + (c + (d + rest)))
  {
    Assoc(c, d, rest);
    Assoc(b, c + d, rest);
    Assoc(a, b + (c + d), rest);
  }

  /** One token's bits decode to the token, and decoding goes on behind them. */
  lemma DecodesToken(tab: Tab, llens: seq<nat>, dlens: seq<nat>, t: Token, rest: Bits, bits: Bits)
    requires tab.Valid() && Sendable(tab, llens, dlens, t) && Fits(llens, 15) && Fits(dlens, 15)
    requires bits == TokenBits(tab, llens, dlens, t) + rest
    ensures DecodeTokens(llens, dlens, bits) == Prepend(t, DecodeTokens(llens, dlens, rest))
  {
    var s := LitSym(tab, t);
    if t.Literal? {
      DecodesSymbol(llens, 15, s, rest);
    } else {
      var m := LengthBits(tab, t) + (Codeword(dlens, DistSym(tab, t)) + (DistBits(tab, t) + rest));
      MatchSplit(Codeword(llens, s), LengthBits(tab, t), Codeword(dlens, DistSym(tab, t)), DistBits(tab, t), rest);
      DecodesSymbol(llens, 15, s, m);
      DecodesMatch(tab, dlens, t, rest);
    }
  }

  lemma DecodesEnd(llens: seq<nat>, dlens: seq<nat>, rest: Bits)
    requires |llens| > END_BLOCK && llens[END_BLOCK] > 0 && Fits(llens, 15)
    ensures DecodeTokens(llens, dlens, Codeword(llens, END_BLOCK) + rest) == Some(([], rest))
  {
    DecodesSymbol(llens, 15, END_BLOCK, rest);
  }

  lemma SplitLast(tab: Tab, llens: seq<nat>, dlens: seq<nat>, ts: seq<Token>, tail: Bits, bits: Bits)
    requires AllSendable(tab, llens, dlens, ts) && ts != [] && bits == TokenBits(tab, llens, dlens, ts[|ts| - 1]) + tail
    ensures TokensBits(tab, llens, dlens, ts) + tail == TokensBits(tab, llens, dlens, ts[..|ts| - 1]) + bits
  {
    Assoc(TokensBits(tab, llens, dlens, ts[..|ts| - 1]), TokenBits(tab, llens, dlens, ts[|ts| - 1]), tail);
  }

  /** Sending further tokens before bits that decode to `after`. */
  lemma {:induction false} DecodesTokensBefore(tab: Tab, llens: seq<nat>, dlens: seq<nat>, ts: seq<Token>, tail: Bits,
                                               after: seq<Token>, rest: Bits, bits: Bits)
    requires AllSendable(tab, llens, dlens, ts) && Fits(llens, 15) && Fits(dlens, 15)
    requires DecodeTokens(llens, dlens, tail) == Some((after, rest))
    requires bits == TokensBits(tab, llens, dlens, ts) + tail
    ensures DecodeTokens(llens, dlens, bits) == Some((ts + after, rest))
    decreases |ts|
  {
    if ts == [] {
      assert bits == tail && ts + after == after;
    } else {
      var init, t := ts[..|ts| - 1], ts[|ts| - 1];
      var tail' := TokenBits(tab, llens, dlens, t) + tail;
      assert DecodeTokens(llens, dlens, tail') == Some(([t] + after, rest)) by {
        DecodesToken(tab, llens, dlens, t, tail, tail');
      }
      SplitLast(tab, llens, dlens, ts, tail, tail');
      DecodesTokensBefore(tab, llens, dlens, init, tail', [t] + after, rest, bits);
      InitAppend(ts, after);
    }
  }

  /** A block's bits decode to exactly its tokens. */
  lemma DecodesBlock(tab: Tab, llens: seq<nat>, dlens: seq<nat>, ts: seq<Token>, rest: Bits)
    requires AllSendable(tab, llens, dlens, ts) && Fits(llens, 15) && Fits(dlens, 15)
    ensures DecodeTokens(llens, dlens, BlockBits(tab, llens, dlens, ts) + rest) == Some((ts, rest))
  {
    DecodesEnd(llens, dlens, rest);
    Assoc(TokensBits(tab, llens, dlens, ts), Codeword(llens, END_BLOCK), rest);
    DecodesTokensBefore(tab, llens, dlens, ts, Codeword(llens, END_BLOCK) + rest, [], rest,
                        BlockBits(tab, llens, dlens, ts) + rest);
    assert ts + [] == ts;
  }
}
