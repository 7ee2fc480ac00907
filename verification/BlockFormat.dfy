/** The three block types of section 3.2.3 of RFC 1951: what their bits decode to. */
module BlockFormat {
  import opened Bits
  import opened Rfc1951
  import opened Canonical
  import opened CodeTables
  import opened BlockCode
  import RL = RunLengths
  import HD = Header

  /** From bit position pos on, b is one block that takes the output from `before` to
      `after`, whatever follows. */
  ghost predicate Encodes(pos: nat, b: Bits, final: bool, before: seq<byte>, after: seq<byte>)
  {
    forall t: Bits {:trigger b + t} :: DecodeBlock(pos, b + t, before) == Some((final, t, after))
  }

  function Bit(b: bool): (n: nat) { if b then 1 else 0 }

  /** BFINAL and BTYPE. */
  function TypeBits(kind: nat, final: bool): (b: Bits)
    requires kind < 3
  {
    ToBits(2 * kind + Bit(final), 3)
  }

  lemma TypeBitsAre(kind: nat, final: bool)
    requires kind < 3
    ensures TypeBits(kind, final) == [final, kind == 1, kind == 2]
  {
    var v := 2 * kind + Bit(final);
    assert ToBits(v, 3) == [v % 2 == 1] + ToBits(v / 2, 2);
    assert ToBits(v / 2, 2) == [kind % 2 == 1] + ToBits(kind / 2, 1);
    assert ToBits(kind / 2, 1) == [kind / 2 % 2 == 1] + [];
  }

  lemma TypeSplit(kind: nat, final: bool, body: Bits, bits: Bits)
    requires kind < 3 && bits == TypeBits(kind, final) + body
    ensures |bits| >= 3 && bits[0] == final && FromBits(bits[1..3]) == kind && bits[3..] == body
  {
    TypeBitsAre(kind, final);
    var k := bits[1..3];
    assert k == [kind == 1, kind == 2] && k[1..] == [kind == 2] && k[1..][1..] == [];
    assert FromBits(k[1..]) == if kind == 2 then 1 else 0;
  }

  lemma FixedBlock(pos: nat, final: bool, tab: Tab, ts: seq<Token>, before: seq<byte>, after: seq<byte>)
    requires AllSendable(tab, FixedLitLens(), FixedDistLens(), ts) && Fits(FixedLitLens(), 15)
             && Fits(FixedDistLens(), 15)
    requires Expand(before, ts) == Some(after)
    ensures Encodes(pos, TypeBits(1, final) + BlockBits(tab, FixedLitLens(), FixedDistLens(), ts), final, before, after)
  {
    var body := BlockBits(tab, FixedLitLens(), FixedDistLens(), ts);
    forall t: Bits ensures DecodeBlock(pos, TypeBits(1, final) + body + t, before) == Some((final, t, after)) {
      FixedDecodes(pos, final, tab, ts, before, after, t, TypeBits(1, final) + body + t);
    }
  }

  lemma FixedDecodes(pos: nat, final: bool, tab: Tab, ts: seq<Token>, before: seq<byte>, after: seq<byte>, t: Bits,
                     bits: Bits)
    requires AllSendable(tab, FixedLitLens(), FixedDistLens(), ts) && Fits(FixedLitLens(), 15)
             && Fits(FixedDistLens(), 15)
    requires Expand(before, ts) == Some(after)
    requires bits == TypeBits(1, final) + BlockBits(tab, FixedLitLens(), FixedDistLens(), ts) + t
    ensures DecodeBlock(pos, bits, before) == Some((final, t, after))
  {
    var body := BlockBits(tab, FixedLitLens(), FixedDistLens(), ts);
    Assoc(TypeBits(1, final), body, t);
    TypeSplit(1, final, body + t, bits);
    DecodesBlock(tab, FixedLitLens(), FixedDistLens(), ts, t);
  }

  lemma DynamicDecodes(pos: nat, final: bool, tab: Tab, llens: seq<nat>, dlens: seq<nat>, header: Bits, ts: seq<Token>,
                       before: seq<byte>, after: seq<byte>, t: Bits, bits: Bits)
    requires AllSendable(tab, llens, dlens, ts) && Fits(llens, 15) && Fits(dlens, 15)
    requires Expand(before, ts) == Some(after)
    requires DecodeHeader(header + (BlockBits(tab, llens, dlens, ts) + t)) == Some((llens, dlens,
                                                                                    BlockBits(tab, llens, dlens,
                                                                                              ts) + t))
    requires bits == TypeBits(2, final) + (header + BlockBits(tab, llens, dlens, ts)) + t
    ensures DecodeBlock(pos, bits, before) == Some((final, t, after))
  {
    hide AllSendable, Fits, Expand, DecodeHeader, BlockBits;
    var body := BlockBits(tab, llens, dlens, ts);
    Assoc(TypeBits(2, final), header + body, t);
    Assoc(header, body, t);
    TypeSplit(2, final, header + (body + t), bits);
    DecodesBlock(tab, llens, dlens, ts, t);
  }

  /** Two trees and a code length code that a dynamic block can carry. */
  ghost predicate HeaderOk(llens: seq<nat>, dlens: seq<nat>, cl: seq<nat>, n: nat)
  {
    && 257 <= |llens| <= 288 && 1 <= |dlens| <= 32 && |cl| == 19 && 4 <= n <= 19
    && Fits(llens, 15) && Fits(dlens, 15) && Fits(cl, 15)
    && RL.ItemsCoded(cl, RL.Rle(llens, 0, -1)) && RL.ItemsCoded(cl, RL.Rle(dlens, 0, -1))
    && (forall s :: 0 <= s < 19 ==> cl[s] <= 7)
    && (forall i :: n <= i < 19 ==> CL_ORDER[i] < 19 && cl[CL_ORDER[i]] == 0)
  }

  lemma DynamicBlock(pos: nat, final: bool, tab: Tab, llens: seq<nat>, dlens: seq<nat>, cl: seq<nat>, n: nat,
                     ts: seq<Token>,
                     before: seq<byte>, after: seq<byte>)
    requires HeaderOk(llens, dlens, cl, n) && AllSendable(tab, llens, dlens, ts)
    requires Expand(before, ts) == Some(after)
    ensures Encodes(pos, TypeBits(2, final) + (HD.HeaderBits(llens, dlens, cl, n) + BlockBits(tab, llens, dlens, ts)),
                    final, before, after)
  {
    var header, body := HD.HeaderBits(llens, dlens, cl, n), BlockBits(tab, llens, dlens, ts);
    forall t: Bits ensures DecodeBlock(pos, TypeBits(2, final) + (header + body) + t,
                                       before) == Some((final, t, after)) {
      HD.DecodesHeader(llens, dlens, cl, n, body + t);
      DynamicDecodes(pos, final, tab, llens, dlens, header, ts, before, after, t,
                     TypeBits(2, final) + (header + body) + t);
    }
  }

  // ---- Stored blocks ----

  lemma {:induction false} ReadBytesBack(data: seq<byte>, t: Bits, bits: Bits)
    requires bits == BytesToBits(data) + t
    ensures ReadBytes(bits, |data|) == Some((data, t))
    decreases |data|
  {
    if data == [] {
      assert bits == t;
    } else {
      var rest := BytesToBits(data[1..]) + t;
      Assoc(ToBits(data[0], 8), BytesToBits(data[1..]), t);
      assert bits[..8] == ToBits(data[0], 8) && bits[8..] == rest;
      Pow2Values();
      FromToBits(data[0], 8);
      ReadBytesBack(data[1..], t, rest);
      assert [data[0]] + data[1..] == data;
    }
  }

  function StoredBits(pos: nat, data: seq<byte>): (b: Bits)
    requires |data| <= 65535
  {
    ToBits(0, Padding(pos)) + (ToBits(|data|, 16) + (ToBits(65535 - |data|, 16) + BytesToBits(data)))
  }

  lemma StoredDecodes(pos: nat, data: seq<byte>, t: Bits, bits: Bits)
    requires |data| <= 65535 && bits == StoredBits(pos, data) + t
    ensures DecodeStored(pos, bits) == Some((data, t))
  {
    var pad, len, nlen, body := ToBits(0, Padding(pos)), ToBits(|data|, 16), ToBits(65535 - |data|,
                                                                                    16), BytesToBits(data);
    var b2 := body + t;
    var b1 := nlen + b2;
    MatchSplit(pad, len, nlen, body, t);
    assert bits[Padding(pos)..] == len + b1;
    Pow2Values();
    RL.ReadBack(|data|, 16, b1);
    RL.ReadBack(65535 - |data|, 16, b2);
    ReadBytesBack(data, t, b2);
  }

  lemma StoredBlock(pos: nat, final: bool, data: seq<byte>, before: seq<byte>)
    requires |data| <= 65535
    ensures Encodes(pos, TypeBits(0, final) + StoredBits(pos + 3, data), final, before, before + data)
  {
    var body := StoredBits(pos + 3, data);
    forall t: Bits ensures DecodeBlock(pos, TypeBits(0, final) + body + t, before) == Some((final, t, before + data)) {
      Assoc(TypeBits(0, final), body, t);
      TypeSplit(0, final, body + t, TypeBits(0, final) + body + t);
      StoredDecodes(pos + 3, data, t, body + t);
    }
  }

  // ---- Runs of blocks ----

  datatype Block = Block(bits: Bits, after: seq<byte>)

  /** The bits of the blocks so far. */
  function BlocksBits(bs: seq<Block>): (b: Bits)
    decreases |bs|
  {
    if bs == [] then [] else BlocksBits(bs[..|bs| - 1]) + bs[|bs| - 1].bits
  }

  function Output(bs: seq<Block>): (o: seq<byte>)
  {
    if bs == [] then [] else bs[|bs| - 1].after
  }

  /** Non-final blocks, each starting where the previous one ends. */
  ghost predicate Chain(bs: seq<Block>)
    decreases |bs|
  {
    bs == [] || (
      var init := bs[..|bs| - 1];
      Chain(init) && Encodes(|BlocksBits(init)|, bs[|bs| - 1].bits, false, Output(init), bs[|bs| - 1].after))
  }

  lemma ChainStep(bs: seq<Block>, b: Block)
    requires Chain(bs) && Encodes(|BlocksBits(bs)|, b.bits, false, Output(bs), b.after)
    ensures Chain(bs + [b]) && BlocksBits(bs + [b]) == BlocksBits(bs) + b.bits && Output(bs + [b]) == b.after
  {
    assert (bs + [b])[..|bs|] == bs;
  }

  /** Decoding a chain arrives at its end with its output. */
  lemma {:induction false} InflateChain(bs: seq<Block>, tail: Bits, bits: Bits)
    requires Chain(bs) && bits == BlocksBits(bs) + tail
    ensures Inflate(0, bits, []) == Inflate(|BlocksBits(bs)|, tail, Output(bs))
    decreases |bs|
  {
    if bs == [] {
      assert bits == tail;
    } else {
      var init, b := bs[..|bs| - 1], bs[|bs| - 1];
      Assoc(BlocksBits(init), b.bits, tail);
      InflateChain(init, b.bits + tail, bits);
      InflateOne(|BlocksBits(init)|, b.bits, tail, Output(init), b.after, b.bits + tail);
    }
  }

  lemma InflateOne(pos: nat, b: Bits, tail: Bits, before: seq<byte>, after: seq<byte>, bits: Bits)
    requires Encodes(pos, b, false, before, after) && bits == b + tail
    ensures Inflate(pos, bits, before) == Inflate(pos + |b|, tail, after)
  {
    hide DecodeBlock;
    assert DecodeBlock(pos, b + tail, before) == Some((false, tail, after));
  }

  /** A chain and a final block are a complete stream for the final block's output. */
  lemma InflateAll(bs: seq<Block>, b: Bits, after: seq<byte>, tail: Bits)
    requires Chain(bs) && Encodes(|BlocksBits(bs)|, b, true, Output(bs), after)
    ensures Inflate(0, BlocksBits(bs) + (b + tail), []) == Some((after, tail))
  {
    InflateChain(bs, b + tail, BlocksBits(bs) + (b + tail));
    assert DecodeBlock(|BlocksBits(bs)|, b + tail, Output(bs)) == Some((true, tail, after));
  }
}
