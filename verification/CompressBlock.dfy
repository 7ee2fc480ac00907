/** compress_block of gzip.c: unpack the token buffers and send each token with the
    given trees. */
module CompressBlock {
  import opened Bits
  import opened Rfc1951
  import opened BitWriters
  import opened CodeTables
  import opened BlockCode
  import opened TokenBuffers
  import ST = SendTree

  /** The flags of every group of eight are in flagBuf. */
  ghost predicate AllFlags(ts: seq<Token>, flagBuf: seq<nat>)
  {
    forall g :: 0 <= g && 8 * g < |ts| ==> g < |flagBuf| && flagBuf[g] == Flags(GroupFrom(ts, 8 * g))
  }

  /** Saving the flags of the last, incomplete group makes them all available. */
  lemma LastFlagsSaved(ts: seq<Token>, flagBuf: seq<nat>, lastFlags: nat, flags: nat, flagBit: nat)
    requires FlagsPacked(ts, flagBuf, lastFlags, flags, flagBit) && lastFlags < |flagBuf|
    ensures AllFlags(ts, flagBuf[lastFlags := flags])
  {
    forall g | 0 <= g && 8 * g < |ts|
      ensures g < |flagBuf| && flagBuf[lastFlags := flags][g] == Flags(GroupFrom(ts, 8 * g))
    {
      assert (8 * g) / 8 == g;
      if g < lastFlags {
        assert GroupFrom(ts, 8 * g) == ts[8 * g..8 * g + 8];
      } else {
        assert g == lastFlags && GroupFrom(ts, 8 * g) == ts[8 * g..];
      }
    }
  }

  /** The block's tokens are in the buffers, flags included. */
  ghost predicate Buffered(buf: TokenBuffer, ts: seq<Token>)
    reads buf, buf.lBuf, buf.dBuf, buf.flagBuf
  {
    && ts == buf.tokens && buf.lastLit == |ts|
    && Packed(ts, buf.lBuf[..], buf.dBuf[..], buf.lastDist) && AllFlags(ts, buf.flagBuf[..])
  }

  lemma GroupStep(ts: seq<Token>, i: nat)
    requires i < |ts|
    ensures GroupFrom(ts, i) != [] && GroupFrom(ts, i)[0] == ts[i]
    ensures (i + 1) % 8 != 0 ==> GroupFrom(ts, i)[1..] == GroupFrom(ts, i + 1)
  {
    if (i + 1) % 8 != 0 {
      assert (i + 1) / 8 == i / 8;
    }
  }

  /** The low flag is the next token's, and shifting moves on to the one after. */
  lemma FlagStep(ts: seq<Token>, i: nat, flag: nat)
    requires i < |ts| && flag == Flags(GroupFrom(ts, i))
    ensures (flag % 2 == 1) == ts[i].Match?
    ensures (i + 1) % 8 != 0 ==> flag / 2 == Flags(GroupFrom(ts, i + 1))
  {
    GroupStep(ts, i);
  }

  lemma {:induction false} DistsPrefix(ts: seq<Token>, i: nat)
    requires i <= |ts|
    ensures Dists(ts[..i]) <= Dists(ts)
    decreases |ts|
  {
    if i < |ts| {
      DistsPrefix(ts[..|ts| - 1], i);
      assert ts[..|ts| - 1][..i] == ts[..i];
    } else {
      assert ts[..i] == ts;
    }
  }

  lemma DistsAt(ts: seq<Token>, i: nat)
    requires i < |ts| && ts[i].Match?
    ensures var dx := |Dists(ts[..i])|;
            dx < |Dists(ts)| && Dists(ts)[dx] == ts[i].distance - 1 && |Dists(ts[..i + 1])| == dx + 1
  {
    DistsPrefix(ts, i + 1);
    assert ts[..i + 1] == ts[..i] + [ts[i]];
    DistsAppend(ts[..i], ts[i]);
  }

  /** A tree: lengths and codes of the symbols, which are those of lens. */
  datatype Tree = Tree(len: array<nat>, code: array<nat>, ghost lens: seq<nat>)
  {
    ghost predicate Valid()
      reads len, code
    {
      ST.Coded(len[..], code[..], lens)
    }
  }

  /** What is needed to send token t. */
  ghost predicate CanSend(tab: Tab, lt: Tree, dt: Tree, t: Token)
    reads lt.len, lt.code, dt.len, dt.code
  {
    && tab.Valid() && lt.Valid() && dt.Valid() && Sendable(tab, lt.lens, dt.lens, t)
    && LitSym(tab, t) < lt.len.Length && (t.Match? ==> DistSym(tab, t) < dt.len.Length)
  }

  /** Send bits only if there are any. */
  method SendExtra(w: BitWriter, value: nat, base: nat, extra: nat)
    requires w.Valid() && extra <= 13 && (extra > 0 ==> base <= value < base + Pow2(extra))
    modifies w, w.outbuf
    ensures w.Valid()
    ensures w.Stream() == old(w.Stream()) + ToBits(if extra == 0 then 0 else value - base, extra)
  {
    if extra != 0 {
      w.SendBits(value - base, extra);
    } else {
      assert w.Stream() + [] == w.Stream();
    }
  }

  lemma MatchFacts(tab: Tab, t: Token)
    requires tab.Valid() && tab.Bases() && TokenOk(t) && t.Match?
    ensures var l, d := tab.lengthCode[t.length - 3], DistSym(tab, t);
            && l < 29 && LitSym(tab, t) == 257 + l && LengthExtra(l) <= 13 && DistExtra(d) <= 13
            && (LengthExtra(l) > 0 ==> l < 28 && tab.baseLength[l] + 3 == LengthBase(l)
                                       && LengthBase(l) - 3 <= t.length - 3 < LengthBase(l) - 3 + Pow2(LengthExtra(l)))
            && tab.baseDist[d] + 1 == DistBase(d)
            && (DistExtra(d) > 0 ==> DistBase(d) - 1 <= t.distance - 1 < DistBase(d) - 1 + Pow2(DistExtra(d)))
            && LengthBits(tab, t) == ToBits(if LengthExtra(l) == 0 then 0 else t.length - LengthBase(l), LengthExtra(l))
            && DistBits(tab, t) == ToBits(if DistExtra(d) == 0 then 0 else t.distance - DistBase(d), DistExtra(d))
  {
    assert LengthCodeOk(t.length - 3, tab.lengthCode[t.length - 3]);
  }

  /** A match: length code and extra bits, distance code and extra bits. */
  method SendMatch(w: BitWriter, tables: Tables, lt: Tree, dt: Tree, lc: byte, dist: nat, ghost tab: Tab,
                   ghost t: Token)
    requires w.Valid() && tables.Holds(tab) && tab.Bases() && t == Match(lc + 3, dist + 1) && CanSend(tab, lt, dt, t)
    modifies w, w.outbuf
    ensures w.Valid() && w.Stream() == old(w.Stream()) + TokenBits(tab, lt.lens, dt.lens, t)
  {
    MatchFacts(tab, t);
    SendLength(w, tables, lt, dt, lc, tab, t);
    SendDistance(w, tables, lt, dt, dist, tab, t);
    var a, b := Codeword(lt.lens, LitSym(tab, t)), LengthBits(tab, t);
    var c, d := Codeword(dt.lens, DistSym(tab, t)), DistBits(tab, t);
    FourParts(old(w.Stream()), a, b, c, d);
  }

  lemma FourParts(s: Bits, a: Bits, b: Bits, c: Bits, d: Bits)
    ensures s + (a + b) + (c + d) == s + (a + (b + (c + d)))
  {
    Assoc(s, a + b, c + d);
    Assoc(a, b, c + d);
  }

  method SendLength(w: BitWriter, tables: Tables, lt: Tree, ghost dt: Tree, lc: byte, ghost tab: Tab, ghost t: Token)
    requires w.Valid() && tables.Holds(tab) && tab.Bases() && t.Match? && t.length == lc + 3 && CanSend(tab, lt, dt, t)
    modifies w, w.outbuf
    ensures w.Valid() && w.Stream() == old(w.Stream()) + (Codeword(lt.lens, LitSym(tab, t)) + LengthBits(tab, t))
  {
    MatchFacts(tab, t);
    var code := tables.lengthCode[lc];
    assert code == tab.lengthCode[lc] && tables.baseLength[code] == tab.baseLength[code];
    ST.SendCode(w, lt.len, lt.code, code + 257, lt.lens);
    SendExtra(w, lc, tables.baseLength[code], LengthExtra(code));
    Assoc(old(w.Stream()), Codeword(lt.lens, LitSym(tab, t)), LengthBits(tab, t));
  }

  method SendDistance(w: BitWriter, tables: Tables, ghost lt: Tree, dt: Tree, dist: nat, ghost tab: Tab, ghost t: Token)
    requires w.Valid() && tables.Holds(tab) && tab.Bases() && t.Match? && t.distance == dist + 1
             && CanSend(tab, lt, dt, t)
    modifies w, w.outbuf
    ensures w.Valid() && w.Stream() == old(w.Stream()) + (Codeword(dt.lens, DistSym(tab, t)) + DistBits(tab, t))
  {
    hide TokenBuffer.Valid, BitWriter.Stream, DistExtra;
    MatchFacts(tab, t);
    var code := tables.DCode(dist);
    assert code == tab.DCode(dist) && tables.baseDist[code] == tab.baseDist[code];
    ST.SendCode(w, dt.len, dt.code, code, dt.lens);
    SendExtra(w, dist, tables.baseDist[code], DistExtra(code));
    Assoc(old(w.Stream()), Codeword(dt.lens, DistSym(tab, t)), DistBits(tab, t));
  }

  /** All the block's tokens can be sent, and its end too. */
  ghost predicate CanSendAll(tab: Tab, lt: Tree, dt: Tree, ts: seq<Token>)
    reads lt.len, lt.code, dt.len, dt.code
  {
    && AllSendable(tab, lt.lens, dt.lens, ts) && END_BLOCK < lt.len.Length && lt.Valid() && dt.Valid()
    && forall i :: 0 <= i < |ts| ==> CanSend(tab, lt, dt, ts[i])
  }

  /** The unpacking state before token lx. */
  ghost predicate Unpacking(ts: seq<Token>, lx: nat, dx: nat, fx: nat, flag: nat)
  {
    && lx <= |ts| && dx == |Dists(ts[..lx])| && fx == (lx + 7) / 8
    && (lx % 8 != 0 ==> flag == Flags(GroupFrom(ts, lx)))
  }

  /** The flags to use for token lx, fetching a new byte at the start of a group. */
  method NextFlags(flagBuf: array<nat>, ghost ts: seq<Token>, lx: nat, ghost dx: nat, fx: nat, flag: nat)
    returns (fx': nat, flag': nat)
    requires lx < |ts| && AllFlags(ts, flagBuf[..]) && Unpacking(ts, lx, dx, fx, flag)
    ensures flag' == Flags(GroupFrom(ts, lx)) && fx' == (lx + 1 + 7) / 8
  {
    fx', flag' := fx, flag;
    GroupIndex(lx);
    if lx % 8 == 0 {
      FlagsAt(ts, flagBuf[..], fx);
      flag' := flagBuf[fx];
      fx' := fx + 1;
    }
  }

  lemma GroupIndex(lx: nat)
    ensures lx % 8 == 0 ==> 8 * ((lx + 7) / 8) == lx && (lx + 1 + 7) / 8 == (lx + 7) / 8 + 1
    ensures lx % 8 != 0 ==> (lx + 1 + 7) / 8 == (lx + 7) / 8
  {
  }

  lemma FlagsAt(ts: seq<Token>, flagBuf: seq<nat>, g: nat)
    requires AllFlags(ts, flagBuf) && 8 * g < |ts|
    ensures g < |flagBuf| && flagBuf[g] == Flags(GroupFrom(ts, 8 * g))
  {
  }

  lemma UnpackStep(ts: seq<Token>, lx: nat, dx: nat, fx: nat, flag: nat)
    requires lx < |ts| && dx == |Dists(ts[..lx])| && flag == Flags(GroupFrom(ts, lx)) && fx == (lx + 1 + 7) / 8
    ensures (flag % 2 == 1) == ts[lx].Match?
    ensures ts[lx].Match? ==> dx < |Dists(ts)| && Dists(ts)[dx] == ts[lx].distance - 1
    ensures Unpacking(ts, lx + 1, if ts[lx].Match? then dx + 1 else dx, fx, flag / 2)
  {
    FlagStep(ts, lx, flag);
    if ts[lx].Match? {
      DistsAt(ts, lx);
    } else {
      assert ts[..lx + 1] == ts[..lx] + [ts[lx]];
      DistsAppend(ts[..lx], ts[lx]);
    }
  }

  /** Send token lx of the buffers. */
  method SendToken(w: BitWriter, tables: Tables, lt: Tree, dt: Tree, buf: TokenBuffer, lx: nat, dx: nat, isMatch: bool,
                   ghost tab: Tab, ghost ts: seq<Token>)
    requires w.Valid() && tables.Holds(tab) && tab.Bases()
    requires ts == buf.tokens && Packed(ts, buf.lBuf[..], buf.dBuf[..], buf.lastDist)
    requires lx < |ts| && CanSend(tab, lt, dt, ts[lx]) && isMatch == ts[lx].Match?
    requires isMatch ==> dx < |Dists(ts)| && Dists(ts)[dx] == ts[lx].distance - 1
    modifies w, w.outbuf
    ensures w.Valid() && w.Stream() == old(w.Stream()) + TokenBits(tab, lt.lens, dt.lens, ts[lx])
  {
    var lc := buf.lBuf[lx];
    assert lc == buf.lBuf[..][lx] == LcOf(ts[lx]) && TokenOk(ts[lx]);
    if !isMatch {
      ST.SendCode(w, lt.len, lt.code, lc, lt.lens);
    } else {
      var dist := buf.dBuf[dx];
      assert dist == buf.dBuf[..][dx] == Dists(ts)[dx];
      SendMatch(w, tables, lt, dt, lc, dist, tab, ts[lx]);
    }
  }

  /** The bits of the first lx tokens. */
  ghost function FirstBits(tab: Tab, llens: seq<nat>, dlens: seq<nat>, ts: seq<Token>, lx: nat): (b: Bits)
    requires AllSendable(tab, llens, dlens, ts) && lx <= |ts|
  {
    if lx == 0 then [] else FirstBits(tab, llens, dlens, ts, lx - 1) + TokenBits(tab, llens, dlens, ts[lx - 1])
  }

  lemma {:induction false} FirstBitsAre(tab: Tab, llens: seq<nat>, dlens: seq<nat>, ts: seq<Token>, lx: nat)
    requires AllSendable(tab, llens, dlens, ts) && lx <= |ts|
    ensures FirstBits(tab, llens, dlens, ts, lx) == TokensBits(tab, llens, dlens, ts[..lx])
  {
    if lx > 0 {
      FirstBitsAre(tab, llens, dlens, ts, lx - 1);
      assert ts[..lx][..lx - 1] == ts[..lx - 1];
    }
  }

  lemma AllBitsAre(tab: Tab, llens: seq<nat>, dlens: seq<nat>, ts: seq<Token>)
    requires AllSendable(tab, llens, dlens, ts)
    ensures FirstBits(tab, llens, dlens, ts, |ts|) == TokensBits(tab, llens, dlens, ts)
  {
    FirstBitsAre(tab, llens, dlens, ts, |ts|);
    assert ts[..|ts|] == ts;
  }

  /** compress_block: all tokens of the buffers and the end-of-block code. */
  method Compress(w: BitWriter, tables: Tables, lt: Tree, dt: Tree, buf: TokenBuffer, ghost tab: Tab,
                  ghost ts: seq<Token>)
    requires w.Valid() && tables.Holds(tab) && tab.Bases() && ts == buf.tokens && buf.lastLit == |ts|
    requires Packed(ts, buf.lBuf[..], buf.dBuf[..], buf.lastDist) && AllFlags(ts, buf.flagBuf[..])
    requires CanSendAll(tab, lt, dt, ts)
    requires w.outbuf != buf.lBuf
    modifies w, w.outbuf
    ensures w.Valid() && w.Stream() == old(w.Stream()) + BlockBits(tab, lt.lens, dt.lens, ts)
  {
    SendAllTokens(w, tables, lt, dt, buf, tab, ts);
    ST.SendCode(w, lt.len, lt.code, END_BLOCK, lt.lens);
    Assoc(old(w.Stream()), TokensBits(tab, lt.lens, dt.lens, ts), Codeword(lt.lens, END_BLOCK));
  }

  method SendAllTokens(w: BitWriter, tables: Tables, lt: Tree, dt: Tree, buf: TokenBuffer, ghost tab: Tab,
                       ghost ts: seq<Token>)
    requires w.Valid() && tables.Holds(tab) && tab.Bases() && ts == buf.tokens && buf.lastLit == |ts|
    requires Packed(ts, buf.lBuf[..], buf.dBuf[..], buf.lastDist) && AllFlags(ts, buf.flagBuf[..])
    requires CanSendAll(tab, lt, dt, ts)
    requires w.outbuf != buf.lBuf
    modifies w, w.outbuf
    ensures w.Valid() && w.Stream() == old(w.Stream()) + TokensBits(tab, lt.lens, dt.lens, ts)
  {
    var lx, dx, fx, flag := 0, 0, 0, 0;
    ghost var stream := w.Stream();
    assert ts[..0] == [] && stream + [] == stream;
    while lx < buf.lastLit
      invariant Unpacking(ts, lx, dx, fx, flag) && w.Valid()
      invariant w.Stream() == stream + FirstBits(tab, lt.lens, dt.lens, ts, lx)
    {
      dx, fx, flag := SendNext(w, tables, lt, dt, buf, tab, ts, lx, dx, fx, flag);
      Assoc(stream, FirstBits(tab, lt.lens, dt.lens, ts, lx), TokenBits(tab, lt.lens, dt.lens, ts[lx]));
      lx := lx + 1;
    }
    assert lx == |ts|;
    ghost var all := FirstBits(tab, lt.lens, dt.lens, ts, |ts|);
    AllBitsAre(tab, lt.lens, dt.lens, ts);
    assert w.Stream() == stream + all;
  }

  method SendNext(w: BitWriter, tables: Tables, lt: Tree, dt: Tree, buf: TokenBuffer, ghost tab: Tab,
                  ghost ts: seq<Token>,
                  lx: nat, dx: nat, fx: nat, flag: nat) returns (dx': nat, fx': nat, flag': nat)
    requires w.Valid() && tables.Holds(tab) && tab.Bases() && ts == buf.tokens && lx < |ts|
    requires Packed(ts, buf.lBuf[..], buf.dBuf[..], buf.lastDist) && AllFlags(ts, buf.flagBuf[..])
    requires CanSend(tab, lt, dt, ts[lx]) && Unpacking(ts, lx, dx, fx, flag)
    modifies w, w.outbuf
    ensures w.Valid() && w.Stream() == old(w.Stream()) + TokenBits(tab, lt.lens, dt.lens, ts[lx])
    ensures Unpacking(ts, lx + 1, dx', fx', flag')
  {
    fx', flag' := NextFlags(buf.flagBuf, ts, lx, dx, fx, flag);
    UnpackStep(ts, lx, dx, fx', flag');
    SendToken(w, tables, lt, dt, buf, lx, dx, flag' % 2 == 1, tab, ts);
    dx' := if flag' % 2 == 1 then dx + 1 else dx;
    flag' := flag' / 2;
  }
}
