/** flush_block, ct_tally and init_block of gzip.c: the state of the block being
    collected, and its way into the bit stream. */
module Blocks {
  import opened Bits
  import opened Rfc1951
  import opened CodeTables
  import opened BlockCode
  import opened BitWriters
  import opened TokenBuffers
  import opened CompressBlock
  import opened FixedDatas
  import opened EmitBlock
  import opened StoredBound

  /** Bytes that a block of n bits behind its type takes up, as flush_block counts them. */
  function InBytes(n: int): (b: int)
  {
    (n + 3 + 7) / 8
  }

  /** The form of the block is the one that takes the fewest bytes: stored (0), with the
      fixed codes (1), or with its own codes (2).  A stored block counts four bytes for
      its lengths, and wins when it is no longer; own codes must be shorter. */
  ghost predicate Smallest(kind: nat, opt: int, stat: int, storedLen: nat)
  {
    && kind < 3
    && (kind == 0 <==> storedLen + 4 <= InBytes(opt) && storedLen + 4 <= InBytes(stat))
    && (kind == 1 ==> InBytes(stat) <= InBytes(opt))
    && (kind == 2 ==> InBytes(opt) < InBytes(stat))
  }

  /** A block that is worth storing fits the format. */
  lemma StoredFits(tab: Tab, ts: seq<Token>, storedLen: nat, stat: int)
    requires AllSendable(tab, FixedLitLens(), FixedDistLens(), ts)
             && stat == |BlockBits(tab, FixedLitLens(), FixedDistLens(), ts)|
    requires |ts| <= 8191 && (forall i :: 0 <= i < |ts| ==> TokenOk(ts[i]) && Tallied(ts[i]))
             && storedLen == TokensLength(ts)
    requires storedLen + 4 <= InBytes(stat)
    ensures storedLen <= STORED_MAX
  {
    StaticBitsAre(tab, ts);
    StoredIsSmall(tab, ts, storedLen, InBytes(stat));
  }

  lemma EncodesFixed(pos: nat, eof: bool, tab: Tab, ts: seq<Token>, before: seq<byte>, after: seq<byte>, body: Bits)
    requires AllSendable(tab, FixedLitLens(), FixedDistLens(), ts)
             && body == BlockBits(tab, FixedLitLens(), FixedDistLens(), ts)
    requires Expand(before, ts) == Some(after)
    ensures BF.Encodes(pos, BF.TypeBits(1, eof) + body, eof, before, after)
  {
    StaticTrees.FixedFits();
    BF.FixedBlock(pos, eof, tab, ts, before, after);
  }

  /** STATIC_TREES. */
  method EmitFixed(w: BitWriter, f: FixedData, buf: TokenBuffer, eof: bool, ghost ts: seq<Token>,
                   ghost before: seq<byte>, ghost after: seq<byte>)
    returns (ghost bits: Bits)
    requires w.Valid() && Whole(f.Correct()) && Whole(f.Kept()) && Whole(Buffered(buf, ts)) && w.outbuf != buf.lBuf
    requires Whole(AllSendable(f.tab, FixedLitLens(), FixedDistLens(), ts)) && Expand(before, ts) == Some(after)
    modifies w, w.outbuf
    ensures w.Valid() && w.Stream() == old(w.Stream()) + bits && BF.Encodes(|old(w.Stream())|, bits, eof, before, after)
    ensures |bits| == 3 + |BlockBits(f.tab, FixedLitLens(), FixedDistLens(), ts)|
  {
    ghost var s0, body := w.Stream(), BlockBits(f.tab, FixedLitLens(), FixedDistLens(), ts);
    SendFixed(w, f, buf, eof, ts, body);
    bits := BF.TypeBits(1, eof) + body;
    Assoc(s0, BF.TypeBits(1, eof), body);
    EncodesFixed(|s0|, eof, f.tab, ts, before, after, body);
  }

  lemma StoredSize(pos: nat, eof: bool, bytes: seq<byte>)
    requires |bytes| <= 65535
    ensures |BF.TypeBits(0, eof)| == 3 && |BF.StoredBits(pos, bytes)| == Padding(pos) + 32 + 8 * |bytes|
  {
  }

  /** STORED_BLOCK. */
  method EmitStored(w: BitWriter, data: array<byte>, start: nat, len: nat, eof: bool, ghost before: seq<byte>,
                    ghost bytes: seq<byte>)
    returns (ghost bits: Bits)
    requires w.Valid() && data != w.outbuf && start + len <= data.Length && len <= 65535
             && bytes == data[start..start + len]
    modifies w, w.outbuf
    ensures w.Valid() && w.Stream() == old(w.Stream()) + bits
            && BF.Encodes(|old(w.Stream())|, bits, eof, before, before + bytes)
    ensures |bits| == 3 + Padding(|old(w.Stream())| + 3) + 32 + 8 * len
  {
    hide BitWriter.Valid, BitWriter.Stream, BF.Encodes, BF.TypeBits, BF.StoredBits;
    StoredSize(|w.Stream()| + 3, eof, bytes);
    ghost var s0 := w.Stream();
    SendStored(w, data, start, len, eof, bytes);
    bits := BF.TypeBits(0, eof) + BF.StoredBits(|s0| + 3, bytes);
    Assoc(s0, BF.TypeBits(0, eof), BF.StoredBits(|s0| + 3, bytes));
    BF.StoredBlock(|s0|, eof, bytes, before);
  }

  /** DYN_TREES. */
  method EmitDynamic(w: BitWriter, f: FixedData, lt: Tree, dt: Tree, clLen: array<nat>, clCode: array<nat>,
                     lcodes: nat, dcodes: nat, n: nat, buf: TokenBuffer, eof: bool, ghost cl: seq<nat>,
                     ghost ts: seq<Token>,
                     ghost before: seq<byte>, ghost after: seq<byte>) returns (ghost bits: Bits)
    requires w.Valid() && Whole(f.Correct()) && Whole(f.Kept()) && Whole(Buffered(buf, ts)) && w.outbuf != buf.lBuf
    requires Whole(DynReady(lt, dt, clLen, clCode, cl)) && lcodes == |lt.lens| && dcodes == |dt.lens|
    requires Whole(BF.HeaderOk(lt.lens, dt.lens, cl, n)) && Whole(AllSendable(f.tab, lt.lens, dt.lens, ts))
             && Expand(before, ts) == Some(after)
    modifies w, w.outbuf
    ensures w.Valid() && w.Stream() == old(w.Stream()) + bits && BF.Encodes(|old(w.Stream())|, bits, eof, before, after)
    ensures |bits| == 3 + |HD.HeaderBits(lt.lens, dt.lens, cl, n)| + |BlockBits(f.tab, lt.lens, dt.lens, ts)|
  {
    ghost var s0, head, body := w.Stream(), HD.HeaderBits(lt.lens, dt.lens, cl, n), BlockBits(f.tab, lt.lens, dt.lens,
                                                                                              ts);
    SendDynamic(w, f, lt, dt, clLen, clCode, lcodes, dcodes, n, buf, eof, cl, ts, head, body);
    bits := BF.TypeBits(2, eof) + (head + body);
    Regroup(s0, BF.TypeBits(2, eof), head, body);
    BF.DynamicBlock(|s0|, eof, f.tab, lt.lens, dt.lens, cl, n, ts, before, after);
  }

  lemma Regroup(s: Bits, a: Bits, b: Bits, c: Bits)
    ensures s + a + b + c == s + (a + (b + c))
  {
    Assoc(a, b, c);
    Assoc(s, a, b + c);
  }
}
