/** The bit buffer and output buffer of gzip.c: every send appends its bits to
    one stream, whatever the buffer boundaries. */
module BitWriters {
  import opened Bits
  import opened Rfc1951

  const OUTBUFSIZ: nat := 8192
  const BUF_SIZE: nat := 32

  class BitWriter {
    var written: seq<byte>    // what flush_outbuf has handed to write(2)
    const outbuf: array<byte>
    var outcnt: nat
    var biBuf: nat
    var biValid: nat
    ghost const objects: set<object>   // this and its buffer

    ghost predicate Valid()
      reads this, outbuf
    {
      && this in objects && outbuf in objects && outbuf.Length == OUTBUFSIZ
      && outcnt < OUTBUFSIZ
      && biValid < BUF_SIZE
      && biBuf < Pow2(biValid)
    }

    /** Whole bytes produced so far, flushed or not. */
    ghost function Bytes(): (s: seq<byte>)
      reads this, outbuf
      requires Valid()
    {
      written + outbuf[..outcnt]
    }

    /** Everything sent so far: the output bytes, then the bits still in biBuf. */
    ghost function Stream(): (s: Bits)
      reads this, outbuf
      requires Valid()
    {
      BytesToBits(Bytes()) + ToBits(biBuf, biValid)
    }

    constructor ()
      ensures Valid() && fresh(objects) && Stream() == []
      ensures biValid == 0
    {
      written := [];
      var buf := new byte[OUTBUFSIZ](_ => 0);
      outbuf, objects := buf, {this, buf};
      outcnt := 0;
      biBuf := 0;
      biValid := 0;
    }

    method FlushOutbuf()
      requires outbuf.Length == OUTBUFSIZ && outcnt <= OUTBUFSIZ
      modifies this`written, this`outcnt
      ensures outcnt == 0 && written == old(written + outbuf[..outcnt])
    {
      if outcnt == 0 {
        assert outbuf[..outcnt] == [];
        return;
      }
      written := written + outbuf[..outcnt];
      outcnt := 0;
    }

    method Put8(c: byte)
      requires Valid()
      modifies this`written, this`outcnt, outbuf
      ensures Valid() && Bytes() == old(Bytes()) + [c]
    {
      outbuf[outcnt] := c;
      outcnt := outcnt + 1;
      assert outbuf[..outcnt] == old(outbuf[..outcnt]) + [c];
      if outcnt == OUTBUFSIZ {
        FlushOutbuf();
        assert outbuf[..outcnt] == [];
      }
    }

    method Put16(w: nat)
      requires Valid() && w < 65536
      modifies this`written, this`outcnt, outbuf
      ensures Valid() && Bytes() == old(Bytes()) + [w % 256, w / 256]
    {
      outbuf[outcnt] := w % 256;
      var hi := w / 256;
      assert hi < 256;
      assert outbuf[..outcnt + 1] == old(outbuf[..outcnt]) + [w % 256];
      if outcnt < OUTBUFSIZ - 2 {
        outbuf[outcnt + 1] := hi;
        assert outbuf[..outcnt + 2] == old(outbuf[..outcnt]) + [w % 256, hi];
        outcnt := outcnt + 2;
        return;
      }
      outcnt := outcnt + 1;
      if outcnt == OUTBUFSIZ {
        FlushOutbuf();
        assert outbuf[..outcnt] == [];
      }
      assert Bytes() == old(Bytes()) + [w % 256];
      Put8(hi);
    }

    method Put32(n: nat)
      requires Valid() && n < Pow2(32)
      modifies this`written, this`outcnt, outbuf
      ensures Valid()
      ensures BytesToBits(Bytes()) == BytesToBits(old(Bytes())) + ToBits(n, 32)
    {
      var lo, hi := Low(n, 16), Shr(n, 16);
      Halves(n);
      Put16(lo);
      Put16(hi);
      FourBytes(old(Bytes()), lo, hi);
    }

    /** Send the low `length` bits of value.  The sum of the two lengths can
        reach 32, and then the bits of value above the buffer are kept. */
    method SendBits(value: nat, length: nat)
      requires Valid() && length <= 16 && value < Pow2(length)
      modifies this, outbuf
      ensures Valid() && Stream() == old(Stream()) + ToBits(value, length)
    {
      hide Pow2, ToBits, Or, Low, Shl;
      var newBuf := Or(biBuf, Low(Shl(value, biValid), BUF_SIZE));
      var newLen := length + biValid;
      ghost var before := BytesToBits(Bytes());
      ghost var have, new_ := ToBits(biBuf, biValid), ToBits(value, length);
      Assoc(before, have, new_);
      if newLen >= BUF_SIZE {
        FullWord(biBuf, biValid, value, length, BUF_SIZE);
        var high := Shr(value, BUF_SIZE - biValid);
        Put32(newBuf);
        Assoc(before, ToBits(newBuf, BUF_SIZE), ToBits(high, newLen - BUF_SIZE));
        newBuf := high;
        newLen := newLen - BUF_SIZE;
      } else {
        PartWord(biBuf, biValid, value, length, BUF_SIZE);
      }
      biBuf := newBuf;
      biValid := newLen;
    }

    /** Pad with zero bits to the next byte boundary. */
    method Windup()
      requires Valid()
      modifies this, outbuf
      ensures Valid() && biValid == 0
      ensures Stream() == old(Stream()) + ToBits(0, Padding(|old(Stream())|))
    {
      ghost var pad := Padding(biValid);
      ghost var goal := BytesToBits(Bytes()) + ToBits(biBuf, biValid + pad);
      PadZero(biBuf, biValid);
      Assoc(BytesToBits(Bytes()), ToBits(biBuf, biValid), ToBits(0, pad));
      PaddingOfBytes(|Bytes()|, biValid);
      WindupBytes(pad, goal);
      biBuf := 0;
      biValid := 0;
      assert ToBits(biBuf, biValid) == [];
      assert Stream() == BytesToBits(Bytes());
    }

    /** Write the bits of biBuf byte by byte. */
    method WindupBytes(ghost pad: nat, ghost goal: Bits)
      requires Valid() && pad == Padding(biValid) && goal == BytesToBits(Bytes()) + ToBits(biBuf, biValid + pad)
      modifies this`written, this`outcnt, outbuf
      ensures Valid() && BytesToBits(Bytes()) == goal
    {
      var bits: nat, cnt: int := biBuf, biValid;
      while cnt > 0
        invariant Valid() && -8 < cnt <= 31
        invariant cnt > 0 ==> bits < Pow2(cnt) && Padding(cnt) == pad
        invariant Rest(BytesToBits(Bytes()), bits, cnt, pad, goal)
      {
        PaddingStep(cnt);
        if cnt > 8 { ShrBound(bits, 8, cnt); }
        WindupByte(bits, cnt, pad, goal);
        bits := Shr(bits, 8);
        cnt := cnt - 8;
      }
    }

    method WindupByte(bits: nat, cnt: nat, ghost pad: nat, ghost goal: Bits)
      requires Valid() && 0 < cnt && bits < Pow2(cnt) && cnt + pad >= 8 && (cnt <= 8 ==> cnt + pad == 8)
      requires Rest(BytesToBits(Bytes()), bits, cnt, pad, goal)
      modifies this`written, this`outcnt, outbuf
      ensures Valid() && Rest(BytesToBits(Bytes()), Shr(bits, 8), cnt - 8, pad, goal)
    {
      ghost var was := Bytes();
      WindupStep(BytesToBits(was), bits, cnt, pad, goal);
      LowByte(bits);
      var c: byte := Low(bits, 8);
      Put8(c);
      BytesToBitsConcat(was, [c]);
      BytesToBitsOne(c);
    }

    /** Write whole bytes; only used right after Windup. */
    method PutBytes(data: array<byte>, start: nat, len: nat)
      requires Valid() && data != outbuf && start + len <= data.Length
      modifies this`written, this`outcnt, outbuf
      ensures Valid()
      ensures Bytes() == old(Bytes()) + old(data[start..start + len])
    {
      var i := 0;
      while i < len
        invariant 0 <= i <= len && Valid()
        invariant data[..] == old(data[..])
        invariant Bytes() == old(Bytes()) + data[start..start + i]
      {
        Put8(data[start + i]);
        assert data[start..start + i + 1] == data[start..start + i] + [data[start + i]];
        i := i + 1;
      }
    }
  }


  /** What Windup has written, with the bits it still holds, is the goal. */
  ghost predicate Rest(written: Bits, bits: nat, cnt: int, pad: nat, goal: Bits)
  {
    if cnt > 0 then written + ToBits(bits, cnt + pad) == goal else written == goal
  }

  lemma FourBytes(before: seq<byte>, lo: nat, hi: nat)
    requires lo < 65536 && hi < 65536
    ensures BytesToBits(before + [lo % 256, lo / 256] + [hi % 256, hi / 256])
         == BytesToBits(before) + (ToBits(lo, 16) + ToBits(hi, 16))
  {
    TwoBytes(lo);
    TwoBytes(hi);
    var a: seq<byte>, b: seq<byte> := [lo % 256, lo / 256], [hi % 256, hi / 256];
    BytesToBitsConcat(before, a);
    BytesToBitsConcat(before + a, b);
    Assoc(BytesToBits(before), ToBits(lo, 16), ToBits(hi, 16));
  }

  lemma TwoBytes(w: nat)
    requires w < 65536
    ensures BytesToBits([w % 256, w / 256]) == ToBits(w, 16)
  {
    var a: byte, b: byte := w % 256, w / 256;
    Pow2Values();
    Shl8(b);
    ToBitsConcat(a, 8, b, 8);
    BytesToBitsConcat([a], [b]);
    assert [a] + [b] == [a, b];
    BytesToBitsOne(a);
    BytesToBitsOne(b);
  }

  lemma Halves(n: nat)
    requires n < Pow2(32)
    ensures Low(n, 16) < 65536 && Shr(n, 16) < 65536
    ensures ToBits(n, 32) == ToBits(Low(n, 16), 16) + ToBits(Shr(n, 16), 16)
  {
    Pow2Values();
    SplitLow(n, 16);
    ShrBound(n, 16, 32);
    ToBitsConcat(Low(n, 16), 16, Shr(n, 16), 16);
  }

  lemma Shl8(b: nat)
    ensures Shl(b, 8) == 256 * b
  {
    assert Shl(b, 1) == 2 * Shl(b, 0);
    assert Shl(b, 2) == 2 * Shl(b, 1);
    assert Shl(b, 4) == 4 * Shl(b, 2);
    assert Shl(b, 6) == 4 * Shl(b, 4);
    assert Shl(b, 8) == 4 * Shl(b, 6);
  }

  /** The branch of SendBits that fills the buffer of `size` bits. */
  lemma FullWord(buf: nat, valid: nat, value: nat, length: nat, size: nat)
    requires valid < size && buf < Pow2(valid)
    requires value < Pow2(length) && valid + length >= size
    ensures var w := Or(buf, Low(Shl(value, valid), size));
            var high := Shr(value, size - valid);
            && w < Pow2(size) && high < Pow2(valid + length - size)
            && ToBits(buf, valid) + ToBits(value, length) == ToBits(w, size) + ToBits(high, valid + length - size)
  {
    var room := size - valid;
    var low, high := Low(value, room), Shr(value, room);
    SplitLow(value, room);
    ShrBound(value, room, length);
    LowShl(value, valid, size);
    OrDisjoint(buf, valid, low);
    ShlBound(low, valid, room);
    ToBitsConcat(buf, valid, low, room);
    ToBitsConcat(low, room, high, length - room);
    assert ToBits(buf, valid) + (ToBits(low, room) + ToBits(high, length - room))
        == ToBits(buf, valid) + ToBits(low, room) + ToBits(high, length - room);
  }

  /** The branch of SendBits that leaves room in the buffer. */
  lemma PartWord(buf: nat, valid: nat, value: nat, length: nat, size: nat)
    requires buf < Pow2(valid) && value < Pow2(length) && valid + length < size
    ensures var w := Or(buf, Low(Shl(value, valid), size));
            && w < Pow2(valid + length)
            && ToBits(w, valid + length) == ToBits(buf, valid) + ToBits(value, length)
  {
    ShlBound(value, valid, length);
    Pow2Monotone(valid + length, size);
    LowOfSmall(Shl(value, valid), size);
    OrDisjoint(buf, valid, value);
    ToBitsConcat(buf, valid, value, length);
  }

  lemma PadZero(v: nat, n: nat)
    requires v < Pow2(n)
    ensures ToBits(v, n + Padding(n)) == ToBits(v, n) + ToBits(0, Padding(n))
  {
    ShlZero(n);
    ToBitsConcat(v, n, 0, Padding(n));
  }

  lemma {:induction false} ShlZero(n: nat)
    ensures Shl(0, n) == 0
  {
    if n > 0 { ShlZero(n - 1); }
  }

  lemma PaddingOfBytes(n: nat, k: nat)
    ensures Padding(8 * n + k) == Padding(k)
  {
  }

  lemma PaddingStep(cnt: nat)
    requires 0 < cnt <= 31
    ensures cnt > 8 ==> Padding(cnt - 8) == Padding(cnt)
    ensures cnt <= 8 ==> cnt + Padding(cnt) == 8
  {
  }

  lemma WindupStep(written: Bits, bits: nat, cnt: nat, pad: nat, goal: Bits)
    requires 0 < cnt && bits < Pow2(cnt) && cnt + pad >= 8
    requires cnt <= 8 ==> cnt + pad == 8
    requires Rest(written, bits, cnt, pad, goal)
    ensures Rest(written + ToBits(Low(bits, 8), 8), Shr(bits, 8), cnt - 8, pad, goal)
  {
    SplitAt(bits, 8, cnt + pad);
    Assoc(written, ToBits(Low(bits, 8), 8), ToBits(Shr(bits, 8), cnt + pad - 8));
    if cnt <= 8 {
      assert ToBits(Shr(bits, 8), cnt + pad - 8) == [];
    }
  }

  lemma SplitAt(v: nat, k: nat, n: nat)
    requires k <= n
    ensures ToBits(v, n) == ToBits(Low(v, k), k) + ToBits(Shr(v, k), n - k)
  {
    SplitLow(v, k);
    ToBitsConcat(Low(v, k), k, Shr(v, k), n - k);
  }

  lemma LowByte(v: nat)
    ensures Low(v, 8) < 256
  {
    Pow2Values();
  }
}
