/** The compressor as a whole: lm_init and deflate on a fresh state. */
module Gzip {
  import opened Bits
  import opened Rfc1951
  import opened CodeTables
  import opened Chains
  import opened Sources
  import opened Windows
  import opened Progress
  import opened LazyMatching
  import opened Coders
  import opened Deflate
  import BW = BitWriters

  /** Everything sent, once the bit buffer is empty: what has been written out, and what
      is in the output buffer. */
  method Collect(w: BW.BitWriter) returns (out: seq<byte>)
    requires w.Valid() && w.biValid == 0
    ensures BytesToBits(out) == w.Stream()
  {
    out := w.written + w.outbuf[..w.outcnt];
    assert ToBits(w.biBuf, 0) == [] && BytesToBits(out) + [] == BytesToBits(out);
  }

  lemma StartsEmpty(d: Deflater)
    requires d.coder.Valid() && d.coder.buf.tokens == [] && d.coder.w.Stream() == [] && d.blocks == []
             && d.done == [] && d.out == []
    requires d.win.Data() && d.win.strstart == 0 && (d.win.lookahead > 0 ==> d.win.Chained(0) && d.win.Ready(0))
    ensures Whole(d.Sent(0, 0)) && (d.win.lookahead > 0 ==> Whole(d.Scan(0)))
  {
    hide Coding;
    UncutNone(d.coder.fixed.tab);
    CodingStart(d.win.src.input);
  }

  method Start(input: seq<byte>, chunk: nat -> nat) returns (w: Window)
    ensures fresh(w) && fresh(w.window) && fresh(w.prev) && fresh(w.head) && fresh(w.src) && w.src.input == input
            && w.Shape()
    ensures w.Data() && w.At() == 0 && w.base + w.blockStart == 0 && (w.eofile || w.lookahead >= MIN_LOOKAHEAD)
    ensures w.lookahead > 0 ==> w.Chained(0) && w.Ready(0)
  {
    var src := new Source(input, chunk);
    w := new Window(src);
    assert w.window[..0] == input[0..0];
    w.Init();
  }

  /** The stream is that of lazy matching: the searches fs lead to the tokens ts, which k
      blocks and a last one send, each ended where ct_tally asks for it and in the smallest
      of its forms. */
  ghost predicate WellDeflated(input: seq<byte>, fs: seq<Find>, ts: seq<Token>, tab: Tab, k: nat, len: nat)
  {
    LazyAll(input, fs, ts) && tab.Valid() && SendsAll(tab, k, ts, len)
  }

  lemma Deflated(d: Deflater, fs: seq<Find>, h: Hand, ts: seq<Token>, k: nat, len: int)
    requires Lazy(d.win.src.input, fs, h, ts) && h.At() == |d.win.src.input| && (h.waiting ==> h.e < |d.win.src.input|)
    requires d.out == ts + if h.waiting then [Literal(d.win.src.input[h.e])] else []
    requires d.coder.fixed.tab.Valid() && 0 <= len && Whole(SendsAll(d.coder.fixed.tab, k, d.out, len))
    ensures WellDeflated(d.win.src.input, fs, d.out, d.coder.fixed.tab, k, len)
  {
    hide SendsAll, Lazy, Tab.Valid;
    assert LazyTo(d.win.src.input, fs, h, ts, d.out);
  }

  lemma CodesValid(c: Coder)
    requires c.Valid()
    ensures c.fixed.tab.Valid()
  {
    hide Tab.Valid;
  }

  lemma WithTail(out: seq<byte>, input: seq<byte>, fs: seq<Find>, ts: seq<Token>, tab: Tab, k: nat, tail: Bits,
                 len: int)
    requires |tail| < 8 && tail == ToBits(0, |tail|) && Inflate(0, BytesToBits(out), []) == Some((input, tail))
    requires 0 <= len == |BytesToBits(out)| - |tail| && WellDeflated(input, fs, ts, tab, k, len)
    ensures exists n: nat {:trigger ToBits(0, n)} ::
              && n < 8 && Inflate(0, BytesToBits(out), []) == Some((input, ToBits(0, n)))
              && n <= |BytesToBits(out)| && WellDeflated(input, fs, ts, tab, k, |BytesToBits(out)| - n)
  {
    hide ToBits, BytesToBits, Inflate, WellDeflated;
    assert tail == ToBits(0, |tail|);
  }

  /** The loop, and what is left when it ends. */
  method DeflateAll(d: Deflater) returns (ghost tail: Bits, ghost fs: seq<Find>, ghost k: nat)
    requires Whole(d.Shape()) && Whole(d.win.Data()) && (d.win.lookahead > 0 ==> Whole(d.Scan(0)))
             && d.win.strstart == 0 && d.win.base == 0 && d.win.blockStart == 0 && d.out == []
    requires Whole(d.Sent(0, 0)) && (d.win.eofile || d.win.lookahead >= MIN_LOOKAHEAD)
             && Whole(d.coder.fixed.tab.Valid())
    modifies d, d.win, d.win.window, d.win.prev, d.win.head, d.win.src, d.coder.objects
    ensures d.coder.w.Valid() && d.coder.w.biValid == 0
    ensures |tail| < 8 && tail == ToBits(0, |tail|) && |tail| <= |d.coder.w.Stream()|
    ensures Inflate(0, d.coder.w.Stream(), []) == Some((d.win.src.input, tail))
    ensures WellDeflated(d.win.src.input, fs, d.out, d.coder.fixed.tab, k, |d.coder.w.Stream()| - |tail|)
  {
    hide Deflater.Shape, Deflater.Scan, Deflater.Sent, Window.Data, Tab.Valid, ToBits, Lazy, SendsAll, WellDeflated,
         Inflate;
    var avail;
    ghost var b, e, length, a;
    avail, b, e, fs, length, a := d.Loop();
    ghost var h, ts0 := Hand(length, avail, a, e), d.out;
    tail := d.Finish(avail, b, e);
    k := |d.blocks|;
    Deflated(d, fs, h, ts0, k, |d.coder.w.Stream()| - |tail|);
  }

  /** Everything in its first state, with the start of the file in the window. */
  method NewDeflater(input: seq<byte>, chunk: nat -> nat) returns (d: Deflater)
    ensures fresh(d) && fresh(d.win) && fresh(d.win.window) && fresh(d.win.prev) && fresh(d.win.head)
            && fresh(d.win.src) && fresh(d.coder.objects) && d.win.src.input == input && d.out == []
    ensures Whole(d.Shape()) && Whole(d.win.Data()) && (d.win.lookahead > 0 ==> Whole(d.Scan(0)))
            && d.win.strstart == 0 && d.win.base == 0 && d.win.blockStart == 0
    ensures Whole(d.Sent(0, 0)) && (d.win.eofile || d.win.lookahead >= MIN_LOOKAHEAD)
            && Whole(d.coder.fixed.tab.Valid())
  {
    hide Coder.Valid, Tab.Valid, Window.Data, Window.Chained, Window.Ready, Deflater.Scan, Deflater.Sent;
    var win := Start(input, chunk);
    var coder := new Coder();
    d := new Deflater(win, coder);
    StartsEmpty(d);
    CodesValid(coder);
  }

  /** For every input and every way of reading it in pieces, the output is a complete
      deflate stream for exactly that input, followed by less than a byte of zero bits. */
  method Compress(input: seq<byte>, chunk: nat -> nat)
    returns (out: seq<byte>, ghost fs: seq<Find>, ghost ts: seq<Token>, ghost tab: Tab, ghost k: nat)
    ensures exists n: nat {:trigger ToBits(0, n)} ::
              n < 8 && Inflate(0, BytesToBits(out), []) == Some((input, ToBits(0, n)))
    ensures exists n: nat {:trigger ToBits(0, n)} ::
              && n < 8 && Inflate(0, BytesToBits(out), []) == Some((input, ToBits(0, n)))
              && n <= |BytesToBits(out)| && WellDeflated(input, fs, ts, tab, k, |BytesToBits(out)| - n)
  {
    hide Deflater.Shape, Deflater.Scan, Deflater.Sent, Window.Data, Tab.Valid, ToBits, WellDeflated, Inflate,
         BytesToBits;
    var d := NewDeflater(input, chunk);
    ghost var tail;
    tail, fs, k := DeflateAll(d);
    ts, tab := d.out, d.coder.fixed.tab;
    out := Collect(d.coder.w);
    WithTail(out, input, fs, ts, tab, k, tail, |BytesToBits(out)| - |tail|);
  }
}
