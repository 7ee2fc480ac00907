/** When a stored block is chosen it is small: its length fits the 16-bit LEN field
    and its data is still in the window.  The bound comes from the token limit, the
    9-bit ceiling on static literal codes and the TOO_FAR rule for short matches. */
module StoredBound {
  import opened Rfc1951
  import opened CodeTables
  import opened BlockCode
  import opened Costs
  import Chains

  const TOO_FAR: nat := 4096

  /** The longest block that is worth storing. */
  const STORED_MAX: nat := 19452

  /** Number of bytes the tokens stand for. */
  function TokensLength(ts: seq<Token>): (n: nat)
    decreases |ts|
  {
    if ts == [] then 0 else TokensLength(ts[..|ts| - 1]) + if ts[|ts| - 1].Match? then ts[|ts| - 1].length else 1
  }

  function Literals(ts: seq<Token>): (n: nat)
    ensures n <= |ts|
    decreases |ts|
  {
    if ts == [] then 0 else Literals(ts[..|ts| - 1]) + if ts[|ts| - 1].Match? then 0 else 1
  }

  /** A token deflate tallies: no match reaches back more than MAX_DIST, and those of
      length 3 are not too far away. */
  predicate Tallied(t: Token)
  {
    TokenOk(t) && (t.Match? ==> t.distance <= Chains.MAX_DIST && (t.length == 3 ==> t.distance <= TOO_FAR))
  }

  lemma {:induction false} LengthBaseMonotone(c: nat, k: nat)
    requires k <= c < 28
    ensures LengthBase(k) + (c - k) <= LengthBase(c)
    decreases c
  {
    if k < c { LengthBaseMonotone(c - 1, k); }
  }

  lemma {:induction false} DistBaseMonotone(c: nat, k: nat)
    requires k <= c
    ensures DistBase(k) <= DistBase(c)
    decreases c
  {
    if k < c { DistBaseMonotone(c - 1, k); }
  }

  /** Code and extra bits of a match length: at most 13, and at most 7 for length 3. */
  lemma LengthCost(tab: Tab, t: Token)
    requires tab.Valid() && TokenOk(t) && t.Match?
    ensures var s := LitSym(tab, t);
            var c := FixedLength(s) + LitExtra(s);
            c <= 13 && (t.length == 3 ==> c <= 7) && (t.length < 8 ==> c <= 8)
  {
    var l := LitSym(tab, t) - 257;
    assert LengthCodeOk(t.length - 3, tab.lengthCode[t.length - 3]);
    if 2 <= l < 28 {
      LengthBaseMonotone(l, 2);
      LengthBaseMonotone(2, 0);
    }
  }

  /** Codes from 24 on are for distances above TOO_FAR. */
  lemma FarCode()
    ensures DistBase(24) == TOO_FAR + 1
  {
    hide DistBase;
    PrintedDistanceTable();
    assert DIST_BASE[24] == 4097;
  }

  /** Code and extra bits of a distance: at most 18, and at most 15 up to TOO_FAR. */
  lemma DistanceCost(tab: Tab, t: Token)
    requires tab.Valid() && TokenOk(t) && t.Match?
    ensures var c := 5 + DistExtra(DistSym(tab, t));
            c <= 18 && (t.distance <= TOO_FAR ==> c <= 15)
  {
    var d := DistSym(tab, t);
    if t.distance <= TOO_FAR && d >= 24 {
      FarCode();
      DistBaseMonotone(d, 24);
    }
  }

  /** A static match code has at most 31 bits, and at most 8*length-2. */
  lemma MatchCost(tab: Tab, t: Token)
    requires tab.Valid() && Tallied(t) && t.Match?
    ensures var s, d := LitSym(tab, t), DistSym(tab, t);
            var c := FixedLength(s) + LitExtra(s) + 5 + DistExtra(d);
            c <= 31 && c <= 8 * t.length - 2
  {
    hide tab.Valid, FixedLength, LitExtra, DistExtra;
    LengthCost(tab, t);
    DistanceCost(tab, t);
  }

  /** Static cost of the tokens, without the end-of-block code. */
  ghost function StaticCost(tab: Tab, ts: seq<Token>): (n: nat)
    requires tab.Valid() && forall i :: 0 <= i < |ts| ==> TokenOk(ts[i])
    decreases |ts|
  {
    if ts == [] then 0
    else
      var t := ts[|ts| - 1];
      StaticCost(tab, ts[..|ts| - 1]) + FixedLength(LitSym(tab, t)) + LitExtra(LitSym(tab, t))
      + if t.Match? then 5 + DistExtra(DistSym(tab, t)) else 0
  }

  /** Matches in ts. */
  function Matches(ts: seq<Token>): (n: int)
  {
    |ts| - Literals(ts)
  }

  lemma {:induction false} StaticCostBound(tab: Tab, ts: seq<Token>)
    requires tab.Valid() && (forall i :: 0 <= i < |ts| ==> TokenOk(ts[i]) && Tallied(ts[i]))
    ensures StaticCost(tab, ts) <= 9 * Literals(ts) + 31 * Matches(ts)
    ensures StaticCost(tab, ts) <= 8 * TokensLength(ts) + Literals(ts) - 2 * Matches(ts)
    decreases |ts|
  {
    if ts != [] {
      StaticCostBound(tab, ts[..|ts| - 1]);
      assert Tallied(ts[|ts| - 1]);
      if ts[|ts| - 1].Match? { MatchCost(tab, ts[|ts| - 1]); }
    }
  }

  /** flush_block's test for a stored block, given the cost in bits of the static trees. */
  lemma StoredIsSmall(tab: Tab, ts: seq<Token>, storedLen: nat, optBytes: nat)
    requires tab.Valid() && |ts| <= 8191 && (forall i :: 0 <= i < |ts| ==> TokenOk(ts[i]) && Tallied(ts[i]))
    requires storedLen == TokensLength(ts)
    requires optBytes <= (StaticCost(tab, ts) + 7 + 3 + 7) / 8 && storedLen + 4 <= optBytes
    ensures storedLen <= STORED_MAX
  {
    StaticCostBound(tab, ts);
  }

  lemma {:induction false} StaticBitsAre(tab: Tab, ts: seq<Token>)
    requires AllSendable(tab, FixedLitLens(), FixedDistLens(), ts)
    ensures |TokensBits(tab, FixedLitLens(), FixedDistLens(), ts)| == StaticCost(tab, ts)
    decreases |ts|
  {
    if ts != [] {
      StaticBitsAre(tab, ts[..|ts| - 1]);
      assert Sendable(tab, FixedLitLens(), FixedDistLens(), ts[|ts| - 1]);
      TokenCost(tab, FixedLitLens(), FixedDistLens(), ts[|ts| - 1]);
    }
  }

  /** Every token can be sent with the fixed codes. */
  lemma FixedSendable(tab: Tab, ts: seq<Token>)
    requires tab.Valid() && forall i :: 0 <= i < |ts| ==> TokenOk(ts[i])
    ensures AllSendable(tab, FixedLitLens(), FixedDistLens(), ts)
  {
  }
}
