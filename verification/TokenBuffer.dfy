/** l_buf, d_buf and flag_buf of gzip.c: the tokens of the current block, packed as
    bytes, distances and one flag bit per token. */
module TokenBuffers {
  import opened Bits
  import opened Rfc1951
  import opened BlockCode

  const LIT_BUFSIZE: nat := 0x2000
  const DIST_BUFSIZE: nat := 0x2000

  /** The byte kept for a token: the literal, or the match length minus 3. */
  function LcOf(t: Token): (b: int)
    ensures TokenOk(t) ==> 0 <= b < 256
  {
    if t.Literal? then t.value else t.length - 3
  }

  /** The distances, minus 1, of the matches. */
  function Dists(ts: seq<Token>): (ds: seq<int>)
    ensures |ds| <= |ts|
    decreases |ts|
  {
    if ts == [] then []
    else if ts[|ts| - 1].Match? then Dists(ts[..|ts| - 1]) + [ts[|ts| - 1].distance - 1]
    else Dists(ts[..|ts| - 1])
  }

  /** One flag per token, the first in the lowest bit. */
  function Flags(ts: seq<Token>): (f: nat)
    ensures f < Pow2(|ts|)
    decreases |ts|
  {
    if ts == [] then 0 else (if ts[0].Match? then 1 else 0) + 2 * Flags(ts[1..])
  }

  lemma {:induction false} FlagsAppend(ts: seq<Token>, t: Token)
    ensures Flags(ts + [t]) == Flags(ts) + if t.Match? then Pow2(|ts|) else 0
    decreases |ts|
  {
    if ts == [] {
      assert ([t])[1..] == [];
    } else {
      assert (ts + [t])[1..] == ts[1..] + [t];
      FlagsAppend(ts[1..], t);
    }
  }

  lemma {:induction false} ShlOne(k: nat)
    ensures Shl(1, k) == Pow2(k)
  {
    if k > 0 { ShlOne(k - 1); }
  }

  /** Tokens i.. up to the end of i's group of eight. */
  function GroupFrom(ts: seq<Token>, i: nat): (g: seq<Token>)
    requires i <= |ts|
  {
    var end := 8 * (i / 8) + 8;
    if end <= |ts| then ts[i..end] else ts[i..]
  }

  /** Full groups of eight are in flagBuf, the rest in flags. */
  ghost predicate FlagsPacked(ts: seq<Token>, flagBuf: seq<nat>, lastFlags: nat, flags: nat, flagBit: nat)
  {
    && lastFlags == |ts| / 8 <= |flagBuf|
    && (forall g :: 0 <= g < lastFlags ==> flagBuf[g] == Flags(ts[8 * g..8 * g + 8]))
    && flags == Flags(ts[8 * lastFlags..]) && flagBit == Pow2(|ts| % 8)
  }

  /** The three buffers hold ts. */
  ghost predicate Packed(ts: seq<Token>, lBuf: seq<byte>, dBuf: seq<nat>, lastDist: nat)
  {
    && (forall i :: 0 <= i < |ts| ==> TokenOk(ts[i]))
    && |ts| <= |lBuf| && (forall i :: 0 <= i < |ts| ==> lBuf[i] == LcOf(ts[i]))
    && lastDist == |Dists(ts)| <= |dBuf| && (forall i :: 0 <= i < lastDist ==> dBuf[i] == Dists(ts)[i])
  }

  /** One flag more in the open group. */
  lemma FlagAdded(ts: seq<Token>, flagBuf: seq<nat>, lastFlags: nat, flags: nat, flagBit: nat, t: Token)
    requires FlagsPacked(ts, flagBuf, lastFlags, flags, flagBit)
    ensures 8 * lastFlags <= |ts|
    ensures (if t.Match? then Or(flags, flagBit) else flags) == Flags((ts + [t])[8 * lastFlags..])
  {
    var k := |ts| % 8;
    var group := ts[8 * lastFlags..];
    assert |group| == k;
    ShlOne(k);
    OrDisjoint(flags, k, 1);
    FlagsAppend(group, t);
    assert (ts + [t])[8 * lastFlags..] == group + [t];
  }

  lemma GroupFull(ts: seq<Token>, flagBuf: seq<nat>, lastFlags: nat, flags: nat, flagBit: nat, t: Token, f: nat)
    requires FlagsPacked(ts, flagBuf, lastFlags, flags, flagBit) && |ts| < 8 * |flagBuf| && (|ts| + 1) % 8 == 0
    requires f == Flags((ts + [t])[8 * lastFlags..])
    ensures FlagsPacked(ts + [t], flagBuf[lastFlags := f], lastFlags + 1, 0, 1)
  {
    FullGroups(ts, flagBuf, lastFlags, t);
    assert (ts + [t])[8 * lastFlags..8 * lastFlags + 8] == (ts + [t])[8 * lastFlags..];
    assert (ts + [t])[8 * (lastFlags + 1)..] == [];
  }

  lemma GroupOpen(ts: seq<Token>, flagBuf: seq<nat>, lastFlags: nat, flags: nat, flagBit: nat, t: Token, f: nat)
    requires FlagsPacked(ts, flagBuf, lastFlags, flags, flagBit) && (|ts| + 1) % 8 != 0
    requires f == Flags((ts + [t])[8 * lastFlags..])
    ensures FlagsPacked(ts + [t], flagBuf, lastFlags, f, flagBit * 2 % 256)
  {
    FullGroups(ts, flagBuf, lastFlags, t);
    NextBit(|ts| % 8);
  }

  lemma FlagsPackedStep(ts: seq<Token>, flagBuf: seq<nat>, lastFlags: nat, flags: nat, flagBit: nat, t: Token)
    requires FlagsPacked(ts, flagBuf, lastFlags, flags, flagBit) && |ts| < 8 * |flagBuf|
    ensures var f := if t.Match? then Or(flags, flagBit) else flags;
            if (|ts| + 1) % 8 == 0
              then FlagsPacked(ts + [t], flagBuf[lastFlags := f], lastFlags + 1, 0, 1)
              else FlagsPacked(ts + [t], flagBuf, lastFlags, f, flagBit * 2 % 256)
  {
    var f := if t.Match? then Or(flags, flagBit) else flags;
    FlagAdded(ts, flagBuf, lastFlags, flags, flagBit, t);
    if (|ts| + 1) % 8 == 0 {
      GroupFull(ts, flagBuf, lastFlags, flags, flagBit, t, f);
    } else {
      GroupOpen(ts, flagBuf, lastFlags, flags, flagBit, t, f);
    }
  }

  lemma NextBit(k: nat)
    requires k < 8
    ensures k < 7 ==> Pow2(k) * 2 % 256 == Pow2(k + 1)
  {
    Pow2Values();
    if k < 7 { Pow2Monotone(k + 1, 7); }
  }

  lemma FullGroups(ts: seq<Token>, flagBuf: seq<nat>, lastFlags: nat, t: Token)
    requires 8 * lastFlags <= |ts| && lastFlags <= |flagBuf|
    requires forall g :: 0 <= g < lastFlags ==> flagBuf[g] == Flags(ts[8 * g..8 * g + 8])
    ensures forall g :: 0 <= g < lastFlags ==> flagBuf[g] == Flags((ts + [t])[8 * g..8 * g + 8])
  {
    forall g | 0 <= g < lastFlags
      ensures flagBuf[g] == Flags((ts + [t])[8 * g..8 * g + 8])
    {
      assert (ts + [t])[8 * g..8 * g + 8] == ts[8 * g..8 * g + 8];
    }
  }

  lemma DistsAppend(ts: seq<Token>, t: Token)
    ensures Dists(ts + [t]) == if t.Match? then Dists(ts) + [t.distance - 1] else Dists(ts)
  {
    assert (ts + [t])[..|ts|] == ts;
  }

  lemma PackedStep(ts: seq<Token>, lBuf: seq<byte>, dBuf: seq<nat>, lastDist: nat, t: Token)
    requires Packed(ts, lBuf, dBuf, lastDist) && TokenOk(t) && |ts| < |lBuf| && lastDist < |dBuf|
    ensures Packed(ts + [t], lBuf[|ts| := LcOf(t)], if t.Match? then dBuf[lastDist := t.distance - 1] else dBuf,
                   if t.Match? then lastDist + 1 else lastDist)
  {
    DistsAppend(ts, t);
  }

  lemma DataPushed(ts: seq<Token>, lb: seq<byte>, db: seq<nat>, ld: nat, t: Token, lc: byte, dist: nat,
                   lb': seq<byte>, db': seq<nat>, ld': nat)
    requires Packed(ts, lb, db, ld) && TokenOk(t) && |ts| < |lb| && ld < |db|
    requires t == if dist == 0 then Literal(lc) else Match(lc + 3, dist)
    requires lb' == lb[|ts| := lc] && db' == (if dist == 0 then db else db[ld := dist - 1])
    requires ld' == if dist == 0 then ld else ld + 1
    ensures Packed(ts + [t], lb', db', ld')
  {
    hide Packed;
    PackedStep(ts, lb, db, ld, t);
  }

  lemma FlagPushed(ts: seq<Token>, fb: seq<nat>, lf: nat, flags: nat, flagBit: nat, t: Token,
                   fb': seq<nat>, lf': nat, flags': nat, flagBit': nat)
    requires FlagsPacked(ts, fb, lf, flags, flagBit) && |ts| < 8 * |fb| && lf < |fb|
    requires var f := if t.Match? then Or(flags, flagBit) else flags;
             if (|ts| + 1) % 8 == 0
               then fb' == fb[lf := f] && lf' == lf + 1 && flags' == 0 && flagBit' == 1
               else fb' == fb && lf' == lf && flags' == f && flagBit' == flagBit * 2 % 256
    ensures FlagsPacked(ts + [t], fb', lf', flags', flagBit')
  {
    hide FlagsPacked, Or;
    FlagsPackedStep(ts, fb, lf, flags, flagBit, t);
  }

  /** There is room for one token more. */
  lemma RoomForDist(ts: seq<Token>, lb: seq<byte>, db: seq<nat>, ld: nat, fb: seq<nat>, lf: nat, flags: nat,
                    flagBit: nat)
    requires Packed(ts, lb, db, ld) && FlagsPacked(ts, fb, lf, flags, flagBit)
    requires |ts| < LIT_BUFSIZE - 1 && |db| == DIST_BUFSIZE && |fb| == LIT_BUFSIZE / 8
    ensures ld < |db| && lf < |fb|
  {
  }

  class TokenBuffer {
    const lBuf: array<byte>
    const dBuf: array<nat>
    const flagBuf: array<nat>
    var lastLit: nat
    var lastDist: nat
    var lastFlags: nat
    var flags: nat
    var flagBit: nat
    ghost var tokens: seq<Token>
    ghost const objects: set<object>   // this and its arrays

    ghost predicate Shape()
    {
      && this in objects && lBuf in objects && dBuf in objects && flagBuf in objects
      && lBuf.Length == LIT_BUFSIZE && dBuf.Length == DIST_BUFSIZE && flagBuf.Length == LIT_BUFSIZE / 8
         && dBuf != flagBuf
    }

    ghost predicate Valid()
      reads this, lBuf, dBuf, flagBuf
    {
      && Shape()
      && lastLit == |tokens| < LIT_BUFSIZE
      && Packed(tokens, lBuf[..], dBuf[..], lastDist)
      && FlagsPacked(tokens, flagBuf[..], lastFlags, flags, flagBit)
    }

    constructor ()
      ensures Valid() && tokens == [] && fresh(objects)
    {
      var l := new byte[LIT_BUFSIZE](_ => 0);
      var d := new nat[DIST_BUFSIZE](_ => 0);
      var f := new nat[LIT_BUFSIZE / 8](_ => 0);
      lBuf, dBuf, flagBuf, objects := l, d, f, {this, l as object, d, f};
      lastLit, lastDist, lastFlags, flags, flagBit, tokens := 0, 0, 0, 0, 1, [];
    }

    /** Forget the tokens, as init_block does. */
    method Clear()
      requires Shape()
      modifies this
      ensures Valid() && tokens == []
    {
      lastLit, lastDist, lastFlags, flags, flagBit, tokens := 0, 0, 0, 0, 1, [];
    }

    /** Save one token: dist is the match distance or 0, lc the literal or the match
        length minus 3. */
    method Push(dist: nat, lc: byte, ghost t: Token)
      requires Valid() && lastLit < LIT_BUFSIZE - 1
      requires TokenOk(t) && t == if dist == 0 then Literal(lc) else Match(lc + 3, dist)
      modifies this, lBuf, dBuf, flagBuf
      ensures Valid() && tokens == old(tokens) + [t]
    {
      hide Packed, FlagsPacked, TokenOk, Or;
      RoomForDist(tokens, lBuf[..], dBuf[..], lastDist, flagBuf[..], lastFlags, flags, flagBit);
      ghost var lb: seq<byte>, db: seq<nat>, fb, ld := lBuf[..], dBuf[..], flagBuf[..], lastDist;
      ghost var lf, f, fbit := lastFlags, flags, flagBit;
      StoreData(dist, lc);
      StoreFlag(dist != 0);
      DataPushed(tokens, lb, db, ld, t, lc, dist, lBuf[..], dBuf[..], lastDist);
      FlagPushed(tokens, fb, lf, f, fbit, t, flagBuf[..], lastFlags, flags, flagBit);
      tokens := tokens + [t];
    }

    method StoreData(dist: nat, lc: byte)
      requires lastLit < lBuf.Length && lastDist < dBuf.Length
      modifies this`lastLit, this`lastDist, lBuf, dBuf
      ensures lastLit == old(lastLit) + 1 && lBuf[..] == old(lBuf[..])[old(lastLit) := lc]
      ensures dist == 0 ==> lastDist == old(lastDist) && dBuf[..] == old(dBuf[..])
      ensures dist != 0 ==> lastDist == old(lastDist) + 1 && dBuf[..] == old(dBuf[..])[old(lastDist) := dist - 1]
    {
      lBuf[lastLit] := lc;
      lastLit := lastLit + 1;
      if dist != 0 {
        dBuf[lastDist] := dist - 1;
        lastDist := lastDist + 1;
      }
    }

    /** Set the token's flag bit; a full byte of flags goes to flagBuf. */
    method StoreFlag(isMatch: bool)
      requires lastLit % 8 == 0 ==> lastFlags < flagBuf.Length
      modifies this`flags, this`flagBit, this`lastFlags, flagBuf
      ensures var f := if isMatch then Or(old(flags), old(flagBit)) else old(flags);
              if lastLit % 8 == 0
                then flagBuf[..] == old(flagBuf[..])[old(lastFlags) := f] && lastFlags == old(lastFlags) + 1
                     && flags == 0 && flagBit == 1
                else flagBuf[..] == old(flagBuf[..]) && lastFlags == old(lastFlags) && flags == f
                     && flagBit == old(flagBit) * 2 % 256
    {
      if isMatch {
        flags := Or(flags, flagBit);
      }
      flagBit := flagBit * 2 % 256;
      if lastLit % 8 == 0 {
        flagBuf[lastFlags] := flags;
        lastFlags := lastFlags + 1;
        flags := 0;
        flagBit := 1;
      }
    }
  }
}
