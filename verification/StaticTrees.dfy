/** The static trees ct_init of gzip.c builds are the fixed codes of section 3.2.6
    of RFC 1951. */
module StaticTrees {
  import opened Bits
  import opened Rfc1951
  import opened Canonical
  import opened GenCodes
  import opened SendTree

  /** How many of the first n symbols have an 8-, 9- or 7-bit fixed code. */
  function Eights(n: nat): (c: nat) { if n <= 144 then n else if n <= 280 then 144 else n - 136 }
  function Nines(n: nat): (c: nat) { if n <= 144 then 0 else if n <= 256 then n - 144 else 112 }
  function Sevens(n: nat): (c: nat) { if n <= 256 then 0 else if n <= 280 then n - 256 else 24 }

  lemma {:induction false} FixedCounts(n: nat, b: nat)
    requires n <= 288
    ensures Count(FixedLitLens()[..n], b)
         == if b == 7 then Sevens(n) else if b == 8 then Eights(n) else if b == 9 then Nines(n) else 0
  {
    if n > 0 {
      FixedCounts(n - 1, b);
      assert FixedLitLens()[..n][..n - 1] == FixedLitLens()[..n - 1];
    }
  }

  lemma FixedCount(b: nat)
    ensures Count(FixedLitLens(), b) == if b == 7 then 24 else if b == 8 then 152 else if b == 9 then 112 else 0
  {
    FixedCounts(288, b);
    assert FixedLitLens()[..288] == FixedLitLens();
  }

  lemma {:induction false} FixedCodeEnd(b: nat)
    ensures b <= 6 ==> CodeEnd(FixedLitLens(), b) == 0
    ensures b == 7 ==> CodeEnd(FixedLitLens(), b) == 24
    ensures b == 8 ==> CodeEnd(FixedLitLens(), b) == 200
    ensures b >= 9 ==> CodeEnd(FixedLitLens(), b) == Pow2(b)
  {
    if b > 0 {
      FixedCodeEnd(b - 1);
      FixedCount(b);
      assert CodeEnd(FixedLitLens(), b) == 2 * CodeEnd(FixedLitLens(), b - 1) + Count(FixedLitLens(), b);
      if b == 9 { Pow2Values(); assert Pow2(9) == 512; }
    }
  }

  lemma {:induction false} FixedDistCount(n: nat, b: nat)
    requires n <= 32
    ensures Count(FixedDistLens()[..n], b) == if b == 5 then n else 0
  {
    if n > 0 {
      FixedDistCount(n - 1, b);
      assert FixedDistLens()[..n][..n - 1] == FixedDistLens()[..n - 1];
    }
  }

  lemma {:induction false} FixedDistEnd(b: nat)
    ensures b <= 4 ==> CodeEnd(FixedDistLens(), b) == 0
    ensures b >= 5 ==> CodeEnd(FixedDistLens(), b) == Pow2(b)
  {
    if b > 0 {
      FixedDistEnd(b - 1);
      FixedDistCount(32, b);
      assert FixedDistLens()[..32] == FixedDistLens();
      assert CodeEnd(FixedDistLens(), b) == 2 * CodeEnd(FixedDistLens(), b - 1) + Count(FixedDistLens(), b);
      if b == 5 { assert Pow2(5) == 32; }
    }
  }

  /** The fixed codes do not oversubscribe the code space. */
  lemma FixedFits()
    ensures Fits(FixedLitLens(), MAX_BITS) && Fits(FixedDistLens(), MAX_BITS)
  {
    FixedFitsIn(MAX_BITS);
  }

  lemma FixedFitsIn(max: nat)
    requires 9 <= max
    ensures Fits(FixedLitLens(), max) && Fits(FixedDistLens(), max)
  {
    FixedCodeEnd(max);
    FixedDistEnd(max);
  }

  lemma FixedDistCode(n: nat)
    requires n < 32
    ensures CodeValue(FixedDistLens(), n) == n
  {
    FixedDistCount(n, 5);
    FixedDistEnd(4);
    assert FirstCode(FixedDistLens(), 5) == 2 * CodeEnd(FixedDistLens(), 4);
  }

  /** Lengths of the static literal tree, with the two symbols that do not occur. */
  method StaticLitLengths(len: array<nat>)
    requires len.Length == 288
    modifies len
    ensures len[..] == FixedLitLens()
  {
    var n := 0;
    n := FillTo(len, n, 144, 8);
    n := FillTo(len, n, 256, 9);
    n := FillTo(len, n, 280, 7);
    n := FillTo(len, n, 288, 8);
  }

  method FillTo(len: array<nat>, from: nat, to: nat, v: nat) returns (n: nat)
    requires from <= to <= len.Length == 288
    requires forall i :: from <= i < to ==> FixedLength(i) == v
    requires forall i :: 0 <= i < from ==> len[i] == FixedLength(i)
    modifies len
    ensures n == to && forall i :: 0 <= i < to ==> len[i] == FixedLength(i)
  {
    n := from;
    while n < to
      invariant from <= n <= to
      invariant forall i :: 0 <= i < n ==> len[i] == FixedLength(i)
    {
      len[n] := v;
      n := n + 1;
    }
  }

  /** ct_init's bl_count entries are the histogram of the fixed lengths. */
  method StaticCounts(blCount: array<nat>)
    requires blCount.Length == MAX_BITS + 1 && forall b :: 0 <= b <= MAX_BITS ==> blCount[b] == 0
    modifies blCount
    ensures IsHistogram(blCount[..], FixedLitLens())
  {
    blCount[7] := 279 - 255;
    blCount[8] := (143 + 1) + (287 - 279);
    blCount[9] := 255 - 143;
    forall b | 1 <= b <= MAX_BITS ensures blCount[b] == Count(FixedLitLens(), b) {
      FixedCount(b);
    }
  }

  /** The static literal tree. */
  method StaticLitTree(len: array<nat>, code: array<nat>, blCount: array<nat>)
    requires len.Length == code.Length == 288 && len != code && blCount != len && blCount != code
    requires blCount.Length == MAX_BITS + 1 && forall b :: 0 <= b <= MAX_BITS ==> blCount[b] == 0
    modifies len, code, blCount
    ensures Coded(len[..], code[..], FixedLitLens())
  {
    hide FixedLitLens;
    StaticLitLengths(len);
    StaticCounts(blCount);
    FixedFits();
    assert len[..287 + 1] == FixedLitLens();
    Generate(len, code, blCount, 287);
  }

  /** The static distance tree: five bits each, code n for distance code n. */
  method StaticDistTree(len: array<nat>, code: array<nat>)
    requires len.Length == code.Length == 30 && len != code
    modifies len, code
    ensures Coded(len[..], code[..], FixedDistLens())
  {
    var n := 0;
    while n < 30
      invariant 0 <= n <= 30
      invariant forall i :: 0 <= i < n ==> len[i] == 5 && HasCode(FixedDistLens(), code[i], i)
    {
      len[n] := 5;
      var c := BiReverse(n, 5);
      FixedDistCode(n);
      code[n] := c;
      assert HasCode(FixedDistLens(), code[n], n);
      n := n + 1;
    }
  }
}
