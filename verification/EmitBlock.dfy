/** The three ways flush_block of gzip.c sends a block. */
module EmitBlock {
  import opened Bits
  import opened Rfc1951
  import opened BitWriters
  import opened CodeTables
  import opened BlockCode
  import opened TokenBuffers
  import opened CompressBlock
  import opened FixedDatas
  import BF = BlockFormat
  import HD = Header
  import AT = AllTrees

  lemma CanSendThem(tab: Tab, lt: Tree, dt: Tree, ts: seq<Token>)
    requires AllSendable(tab, lt.lens, dt.lens, ts) && lt.Valid() && dt.Valid() && 286 <= lt.len.Length
             && 30 <= dt.len.Length
    ensures CanSendAll(tab, lt, dt, ts)
  {
    forall i | 0 <= i < |ts| ensures CanSend(tab, lt, dt, ts[i]) {
      assert Sendable(tab, lt.lens, dt.lens, ts[i]);
    }
  }

  method SendType(w: BitWriter, kind: nat, eof: bool)
    requires w.Valid() && kind < 3
    modifies w, w.outbuf
    ensures w.Valid() && w.Stream() == old(w.Stream()) + BF.TypeBits(kind, eof)
  {
    assert Pow2(3) == 8;
    w.SendBits(2 * kind + BF.Bit(eof), 3);
  }

  method SendBody(w: BitWriter, f: FixedData, lt: Tree, dt: Tree, buf: TokenBuffer, ghost ts: seq<Token>,
                  ghost body: Bits)
    requires w.Valid() && Whole(f.Correct()) && Whole(f.Kept()) && Whole(Buffered(buf, ts)) && w.outbuf != buf.lBuf
    requires Whole(lt.Valid()) && Whole(dt.Valid()) && 286 <= lt.len.Length && 30 <= dt.len.Length
    requires Whole(AllSendable(f.tab, lt.lens, dt.lens, ts)) && body == BlockBits(f.tab, lt.lens, dt.lens, ts)
    modifies w, w.outbuf
    ensures w.Valid() && w.Stream() == old(w.Stream()) + body
  {
    CanSendThem(f.tab, lt, dt, ts);
    Compress(w, f.tables, lt, dt, buf, f.tab, ts);
  }

  method SendFixedBody(w: BitWriter, f: FixedData, buf: TokenBuffer, ghost ts: seq<Token>, ghost body: Bits)
    requires w.Valid() && Whole(f.Correct()) && Whole(f.Kept()) && Whole(Buffered(buf, ts)) && w.outbuf != buf.lBuf
    requires Whole(AllSendable(f.tab, FixedLitLens(), FixedDistLens(), ts))
             && body == BlockBits(f.tab, FixedLitLens(), FixedDistLens(), ts)
    modifies w, w.outbuf
    ensures w.Valid() && w.Stream() == old(w.Stream()) + body
  {
    SendBody(w, f, Tree(f.llen, f.lcode, FixedLitLens()), Tree(f.dlen, f.dcode, FixedDistLens()), buf, ts, body);
  }

  /** STATIC_TREES: type and body in the fixed codes. */
  method SendFixed(w: BitWriter, f: FixedData, buf: TokenBuffer, eof: bool, ghost ts: seq<Token>, ghost body: Bits)
    requires w.Valid() && Whole(f.Correct()) && Whole(f.Kept()) && Whole(Buffered(buf, ts)) && w.outbuf != buf.lBuf
    requires Whole(AllSendable(f.tab, FixedLitLens(), FixedDistLens(), ts))
             && body == BlockBits(f.tab, FixedLitLens(), FixedDistLens(), ts)
    modifies w, w.outbuf
    ensures w.Valid() && w.Stream() == old(w.Stream()) + BF.TypeBits(1, eof) + body
  {
    SendType(w, 1, eof);
    SendFixedBody(w, f, buf, ts, body);
  }

  /** The dynamic trees and the code length code, ready for sending. */
  ghost predicate DynReady(lt: Tree, dt: Tree, clLen: array<nat>, clCode: array<nat>, cl: seq<nat>)
    reads lt.len, lt.code, dt.len, dt.code, clLen, clCode
  {
    && AT.TreesReady(lt.len[..], dt.len[..], clLen[..], clCode[..], lt.lens, dt.lens, cl)
    && lt.Valid() && dt.Valid() && 286 <= lt.len.Length && 30 <= dt.len.Length
    && 257 <= |lt.lens| <= 286 && 1 <= |dt.lens| <= 30
  }

  method SendTrees(w: BitWriter, lt: Tree, dt: Tree, clLen: array<nat>, clCode: array<nat>, lcodes: nat, dcodes: nat,
                   blcodes: nat,
                   eof: bool, ghost cl: seq<nat>, ghost head: Bits)
    requires w.Valid() && Whole(DynReady(lt, dt, clLen, clCode, cl)) && lcodes == |lt.lens| && dcodes == |dt.lens|
             && 4 <= blcodes <= 19
    requires head == HD.HeaderBits(lt.lens, dt.lens, cl, blcodes)
    modifies w, w.outbuf
    ensures w.Valid() && w.Stream() == old(w.Stream()) + BF.TypeBits(2, eof) + head
  {
    ghost var ll, dl, a, b := lt.len[..], dt.len[..], clLen[..], clCode[..];
    SendType(w, 2, eof);
    assert lt.len[..] == ll && dt.len[..] == dl && clLen[..] == a && clCode[..] == b;
    AT.SendAllTrees(w, lt.len, dt.len, clLen, clCode, lcodes, dcodes, blcodes, lt.lens, dt.lens, cl);
  }

  /** DYN_TREES: type, header and body in the dynamic codes. */
  method SendDynamic(w: BitWriter, f: FixedData, lt: Tree, dt: Tree, clLen: array<nat>, clCode: array<nat>,
                     lcodes: nat, dcodes: nat, blcodes: nat, buf: TokenBuffer, eof: bool, ghost cl: seq<nat>,
                     ghost ts: seq<Token>,
                     ghost head: Bits, ghost body: Bits)
    requires w.Valid() && Whole(f.Correct()) && Whole(f.Kept()) && Whole(Buffered(buf, ts)) && w.outbuf != buf.lBuf
    requires Whole(DynReady(lt, dt, clLen, clCode, cl)) && lcodes == |lt.lens| && dcodes == |dt.lens|
             && 4 <= blcodes <= 19
    requires head == HD.HeaderBits(lt.lens, dt.lens, cl, blcodes)
    requires Whole(AllSendable(f.tab, lt.lens, dt.lens, ts)) && body == BlockBits(f.tab, lt.lens, dt.lens, ts)
    modifies w, w.outbuf
    ensures w.Valid() && w.Stream() == old(w.Stream()) + BF.TypeBits(2, eof) + head + body
  {
    SendTrees(w, lt, dt, clLen, clCode, lcodes, dcodes, blcodes, eof, cl, head);
    SendBody(w, f, lt, dt, buf, ts, body);
  }

  // ---- Stored blocks ----

  /** len and its one's complement in one word of twice `half` bits. */
  function LenWord(len: nat, half: nat): (v: nat)
    requires len < Pow2(2 * half)
  {
    Or(Low(len, half), Low(Shl(Pow2(2 * half) - 1 - len, half), 2 * half))
  }

  lemma {:induction false} LowNot(len: nat, k: nat, n: nat)
    requires len < Pow2(k) && k <= n
    ensures len < Pow2(n) && Low(Pow2(n) - 1 - len, k) == Pow2(k) - 1 - len
    decreases k
  {
    if k > 0 {
      LowNot(len / 2, k - 1, n - 1);
      HalfNot(Pow2(n - 1), len);
    } else {
      assert Low(Pow2(n) - 1 - len, k) == 0;
    }
  }

  lemma HalfNot(p: nat, len: nat)
    requires len < 2 * p
    ensures (2 * p - 1 - len) / 2 == p - 1 - len / 2 && (2 * p - 1 - len) % 2 == 1 - len % 2
  {
  }

  lemma WordParts(len: nat, x: nat, k: nat, n: nat)
    requires len < Pow2(k)
    ensures var v := Or(len, Low(Shl(x, k), k + n));
            v < Pow2(k + n) && ToBits(v, k + n) == ToBits(len, k) + ToBits(Low(x, n), n)
  {
    hide Pow2, Or;
    LowShl(x, k, k + n);
    OrDisjoint(len, k, Low(x, n));
    ShlBound(Low(x, n), k, n);
    ToBitsConcat(len, k, Low(x, n), n);
  }

  lemma LenWordIs(len: nat, half: nat)
    requires len < Pow2(half)
    ensures len < Pow2(2 * half) && LenWord(len, half) < Pow2(2 * half)
    ensures ToBits(LenWord(len, half), 2 * half) == ToBits(len, half) + ToBits(Pow2(half) - 1 - len, half)
  {
    LowNot(len, half, 2 * half);
    LowOfSmall(len, half);
    WordParts(len, Pow2(2 * half) - 1 - len, half, half);
  }

  /** copy_block: the bytes themselves, behind their count. */
  method CopyBlock(w: BitWriter, data: array<byte>, start: nat, len: nat, ghost bytes: seq<byte>)
    requires w.Valid() && data != w.outbuf && start + len <= data.Length && len <= 65535
             && bytes == data[start..start + len]
    modifies w, w.outbuf
    ensures w.Valid() && w.Stream() == old(w.Stream()) + BF.StoredBits(|old(w.Stream())|, bytes)
  {
    ghost var s0 := w.Stream();
    w.Windup();
    ghost var before := w.Bytes();
    assert BytesToBits(before) + [] == BytesToBits(before);
    PutCounted(w, data, start, len, bytes);
    StoredParts(s0, ToBits(0, Padding(|s0|)), ToBits(len, 16), ToBits(65535 - len, 16), BytesToBits(bytes));
    assert BytesToBits(w.Bytes()) + [] == BytesToBits(w.Bytes());
  }

  method PutCounted(w: BitWriter, data: array<byte>, start: nat, len: nat, ghost bytes: seq<byte>)
    requires w.Valid() && data != w.outbuf && start + len <= data.Length && len <= 65535
             && bytes == data[start..start + len]
    modifies w`written, w`outcnt, w.outbuf
    ensures w.Valid()
    ensures BytesToBits(w.Bytes())
         == BytesToBits(old(w.Bytes())) + (ToBits(len, 16) + ToBits(65535 - len, 16)) + BytesToBits(bytes)
  {
    hide Tables.Valid, BitWriter.Valid, ToBits, LenWord;
    Pow2Values();
    var half := 16;
    LenWordIs(len, half);
    w.Put32(LenWord(len, half));
    BytesToBitsConcat(w.Bytes(), bytes);
    assert data[start..start + len] == bytes;
    w.PutBytes(data, start, len);
  }

  lemma StoredParts(s: Bits, a: Bits, b: Bits, c: Bits, d: Bits)
    ensures s + a + (b + c) + d == s + (a + (b + (c + d)))
  {
    Assoc(b, c, d);
    Assoc(a, b, c + d);
    Assoc(s, a, b + (c + d));
    Assoc(s + a, b + c, d);
  }

  /** STORED_BLOCK. */
  method SendStored(w: BitWriter, data: array<byte>, start: nat, len: nat, eof: bool, ghost bytes: seq<byte>)
    requires w.Valid() && data != w.outbuf && start + len <= data.Length && len <= 65535
             && bytes == data[start..start + len]
    modifies w, w.outbuf
    ensures w.Valid()
    ensures w.Stream() == old(w.Stream()) + BF.TypeBits(0, eof) + BF.StoredBits(|old(w.Stream())| + 3, bytes)
  {
    SendType(w, 0, eof);
    assert data[start..start + len] == bytes;
    CopyBlock(w, data, start, len, bytes);
  }
}
