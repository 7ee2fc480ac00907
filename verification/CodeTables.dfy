/** The tables ct_init of gzip.c builds: from match lengths and distances to their
    codes, as section 3.2.5 of RFC 1951 assigns them. */
module CodeTables {
  import opened Bits
  import opened Rfc1951

  const LENGTH_CODES: nat := 29
  const D_CODES: nat := 30

  /** c is the length code of match length lc + 3, and base its table entry. */
  ghost predicate LengthCodeOk(lc: nat, c: nat)
  {
    c < LENGTH_CODES && LengthBase(c) <= lc + 3 < LengthBase(c) + Pow2(LengthExtra(c))
  }

  /** c is the distance code of distance d + 1. */
  ghost predicate DistCodeOk(d: nat, c: nat)
  {
    c < D_CODES && DistBase(c) <= d + 1 < DistBase(c) + Pow2(DistExtra(c))
  }

  lemma SmallPowers()
    ensures Pow2(0) == 1 && Pow2(1) == 2 && Pow2(2) == 4 && Pow2(3) == 8 && Pow2(4) == 16 && Pow2(5) == 32
            && Pow2(6) == 64
  {
  }

  // The tables as RFC 1951 prints them.
  const LENGTH_EXTRA: seq<nat> :=
    [0, 0, 0, 0, 0, 0, 0, 0, 1, 1, 1, 1, 2, 2, 2, 2, 3, 3, 3, 3, 4, 4, 4, 4, 5, 5, 5, 5, 0]
  const LENGTH_BASE: seq<nat> :=
    [3, 4, 5, 6, 7, 8, 9, 10, 11, 13, 15, 17, 19, 23, 27, 31, 35, 43, 51, 59, 67, 83, 99, 115, 131, 163, 195, 227, 258]
  const DIST_EXTRA: seq<nat> :=
    [0, 0, 0, 0, 1, 1, 2, 2, 3, 3, 4, 4, 5, 5, 6, 6, 7, 7, 8, 8, 9, 9, 10, 10, 11, 11, 12, 12, 13, 13]
  const DIST_BASE: seq<nat> :=
    [1, 2, 3, 4, 5, 7, 9, 13, 17, 25, 33, 49, 65, 97, 129, 193, 257, 385, 513, 769, 1025, 1537,
     2049, 3073, 4097, 6145, 8193, 12289, 16385, 24577]

  lemma LowLengths()
    ensures LengthBase(0) == 3 && LengthBase(1) == 4 && LengthBase(2) == 5 && LengthBase(3) == 6 && LengthBase(4) == 7
    ensures LengthBase(5) == 8 && LengthBase(6) == 9 && LengthBase(7) == 10 && LengthBase(8) == 11
            && LengthBase(9) == 13
    ensures LengthBase(10) == 15 && LengthBase(11) == 17 && LengthBase(12) == 19 && LengthBase(13) == 23
            && LengthBase(14) == 27
  {
    SmallPowers();
    assert LengthBase(2) == 5 && LengthBase(4) == 7 && LengthBase(6) == 9 && LengthBase(8) == 11;
    assert LengthBase(10) == 15 && LengthBase(12) == 19;
  }

  lemma HighLengths()
    ensures LengthBase(15) == 31 && LengthBase(16) == 35 && LengthBase(17) == 43 && LengthBase(18) == 51
            && LengthBase(19) == 59
    ensures LengthBase(20) == 67 && LengthBase(21) == 83 && LengthBase(22) == 99 && LengthBase(23) == 115
            && LengthBase(24) == 131
    ensures LengthBase(25) == 163 && LengthBase(26) == 195 && LengthBase(27) == 227 && LengthBase(28) == 258
  {
    LowLengths();
    SmallPowers();
    assert LengthBase(16) == 35 && LengthBase(18) == 51 && LengthBase(20) == 67 && LengthBase(22) == 99
           && LengthBase(24) == 131;
    assert LengthBase(26) == 195;
  }

  /** The formulas of the decoder are the printed tables. */
  lemma PrintedLengthTable()
    ensures forall c :: 0 <= c < 29 ==> LENGTH_BASE[c] == LengthBase(c) && LENGTH_EXTRA[c] == LengthExtra(c)
  {
    hide LengthBase;
    LowLengths();
    HighLengths();
  }

  lemma LowDistances()
    ensures DistBase(0) == 1 && DistBase(1) == 2 && DistBase(2) == 3 && DistBase(3) == 4 && DistBase(4) == 5
            && DistBase(5) == 7
    ensures DistBase(6) == 9 && DistBase(7) == 13 && DistBase(8) == 17 && DistBase(9) == 25 && DistBase(10) == 33
    ensures DistBase(11) == 49 && DistBase(12) == 65 && DistBase(13) == 97 && DistBase(14) == 129 && DistBase(15) == 193
    ensures DistBase(16) == 257
  {
    SmallPowers();
    assert DistBase(4) == 5 && DistBase(5) == 7 && DistBase(6) == 9 && DistBase(7) == 13 && DistBase(8) == 17;
    assert DistBase(10) == 33 && DistBase(12) == 65 && DistBase(14) == 129;
  }

  lemma HighDistances()
    ensures DistBase(17) == 385 && DistBase(18) == 513 && DistBase(19) == 769 && DistBase(20) == 1025
            && DistBase(21) == 1537
    ensures DistBase(22) == 2049 && DistBase(23) == 3073 && DistBase(24) == 4097 && DistBase(25) == 6145
            && DistBase(26) == 8193
    ensures DistBase(27) == 12289 && DistBase(28) == 16385 && DistBase(29) == 24577 && DistBase(30) == 32769
  {
    LowDistances();
    Pow2Values();
    assert Pow2(7) == 128 && Pow2(9) == 512 && Pow2(11) == 2048 && Pow2(12) == 4096;
    assert DistBase(18) == 513 && DistBase(20) == 1025 && DistBase(22) == 2049;
    assert DistBase(24) == 4097 && DistBase(26) == 8193 && DistBase(28) == 16385;
  }

  lemma PrintedDistanceTable()
    ensures forall c :: 0 <= c < 30 ==> DIST_BASE[c] == DistBase(c) && DIST_EXTRA[c] == DistExtra(c)
  {
    hide DistBase;
    LowDistances();
    HighDistances();
  }

  /** The ranges of consecutive codes meet. */
  lemma LengthRangesMeet(c: nat)
    requires c < 28
    ensures c < 27 ==> LengthBase(c) + Pow2(LengthExtra(c)) == LengthBase(c + 1)
    ensures c == 27 ==> LengthBase(c) + Pow2(LengthExtra(c)) == 259
  {
    if c == 27 {
      PrintedLengthTable();
      assert LENGTH_BASE[27] == 227 && LENGTH_EXTRA[27] == 5;
      SmallPowers();
    }
  }

  lemma {:induction false} LengthBaseBound(c: nat)
    requires c < 28
    ensures LengthBase(c) + Pow2(LengthExtra(c)) <= 259
    decreases 28 - c
  {
    LengthRangesMeet(c);
    if c < 27 { LengthBaseBound(c + 1); }
  }

  lemma {:induction false} DistBaseBound(c: nat, top: nat)
    requires c < top
    ensures DistBase(c) + Pow2(DistExtra(c)) <= DistBase(top)
    decreases top - c
  {
    if c + 1 < top { DistBaseBound(c + 1, top); }
  }

  lemma DistHighSteps(c: nat)
    requires 16 <= c < 30
    ensures 7 <= DistExtra(c) && Pow2(DistExtra(c)) == 128 * Pow2(DistExtra(c) - 7)
  {
    var k := DistExtra(c) - 7;
    Split7(k);
  }

  lemma Split7(k: nat)
    ensures Pow2(k + 7) == 128 * Pow2(k)
  {
    assert Pow2(k + 1) == 2 * Pow2(k);
    assert Pow2(k + 2) == 2 * Pow2(k + 1);
    assert Pow2(k + 4) == 4 * Pow2(k + 2);
    assert Pow2(k + 6) == 4 * Pow2(k + 4);
  }

  /** The code tables as values. */
  datatype Tab = Tab(lengthCode: seq<nat>, baseLength: seq<nat>, distCode: seq<nat>, baseDist: seq<nat>)
  {
    /** D_CODE: the distance code of distance d + 1. */
    function DCode(d: nat): (c: nat)
      requires |distCode| == 512 && d < 32768
    {
      if d < 256 then distCode[d] else distCode[256 + d / 128]
    }

    ghost predicate Valid()
    {
      && |lengthCode| == 256 && |distCode| == 512
      && (forall lc :: 0 <= lc < 256 ==> LengthCodeOk(lc, lengthCode[lc]))
      && (forall d :: 0 <= d < 32768 ==> DistCodeOk(d, DCode(d)))
    }

    /** The base tables hold the first length and distance of each code. */
    ghost predicate Bases()
    {
      && |baseLength| == LENGTH_CODES && |baseDist| == D_CODES
      && (forall c :: 0 <= c < 28 ==> baseLength[c] + 3 == LengthBase(c))
      && (forall c :: 0 <= c < D_CODES ==> baseDist[c] + 1 == DistBase(c))
    }
  }

  class Tables {
    const lengthCode: array<nat>
    const baseLength: array<nat>
    const distCode: array<nat>
    const baseDist: array<nat>
    ghost const objects: set<object>   // the four arrays

    ghost predicate Shape()
    {
      && lengthCode in objects && baseLength in objects && distCode in objects && baseDist in objects
      && lengthCode.Length == 256 && baseLength.Length == LENGTH_CODES
      && distCode.Length == 512 && baseDist.Length == D_CODES
      && lengthCode != baseLength && lengthCode != distCode && lengthCode != baseDist
      && baseLength != distCode && baseLength != baseDist && distCode != baseDist
    }

    /** D_CODE: the distance code of distance d + 1. */
    function DCode(d: nat): (c: nat)
      requires Shape() && d < 32768
      reads distCode
    {
      if d < 256 then distCode[d] else distCode[256 + d / 128]
    }

    ghost predicate LengthsOk()
      requires Shape()
      reads lengthCode, baseLength
    {
      && (forall lc :: 0 <= lc < 256 ==> LengthCodeOk(lc, lengthCode[lc]))
      && (forall c :: 0 <= c < 28 ==> baseLength[c] + 3 == LengthBase(c))
    }

    ghost predicate DistancesOk()
      requires Shape()
      reads distCode, baseDist
    {
      && (forall d :: 0 <= d < 32768 ==> DistCodeOk(d, DCode(d)))
      && (forall c :: 0 <= c < D_CODES ==> baseDist[c] + 1 == DistBase(c))
    }

    ghost predicate Valid()
      reads lengthCode, baseLength, distCode, baseDist
    {
      Shape() && LengthsOk() && DistancesOk()
    }

    ghost function View(): Tab
      reads lengthCode, baseLength, distCode, baseDist
    {
      Tab(lengthCode[..], baseLength[..], distCode[..], baseDist[..])
    }

    /** The tables hold tab. */
    ghost predicate Holds(tab: Tab)
      reads lengthCode, baseLength, distCode, baseDist
    {
      Shape() && View() == tab
    }

    lemma ViewValid()
      requires Valid()
      ensures View().Valid() && View().Bases()
    {
      forall d | 0 <= d < 32768
        ensures DistCodeOk(d, View().DCode(d))
      {
        assert View().DCode(d) == DCode(d);
      }
    }

    constructor ()
      ensures Valid() && fresh(objects)
    {
      var lc := new nat[256](_ => 0);
      var bl := new nat[LENGTH_CODES](_ => 0);
      var dc := new nat[512](_ => 0);
      var bd := new nat[D_CODES](_ => 0);
      lengthCode, baseLength, distCode, baseDist, objects := lc, bl, dc, bd, {lc, bl, dc, bd};
      new;
      InitLengths();
      InitDistances();
    }

    /** The entries of the length codes below `code` are filled. */
    ghost predicate LengthsBelow(code: nat, length: nat)
      requires Shape()
      reads lengthCode, baseLength
    {
      && code <= 28 && (code < 28 ==> length + 3 == LengthBase(code)) && (code == 28 ==> length == 256)
      && (forall lc :: 0 <= lc < length && lc < 256 ==> LengthCodeOk(lc, lengthCode[lc]))
      && (forall c :: 0 <= c < code ==> baseLength[c] + 3 == LengthBase(c))
    }

    /** The mapping length (0..255) -> length code (0..28). */
    method InitLengths()
      requires Shape()
      modifies lengthCode, baseLength
      ensures LengthsOk()
    {
      var length, code := 0, 0;
      while code < LENGTH_CODES - 1
        invariant LengthsBelow(code, length)
      {
        length := LengthRound(code, length);
        code := code + 1;
      }
      LastLength();
    }

    /** Length 258 has a code of its own. */
    method LastLength()
      requires Shape() && LengthsBelow(28, 256)
      modifies lengthCode
      ensures LengthsOk()
    {
      SmallPowers();
      lengthCode[255] := 28;
    }

    method LengthRound(code: nat, length: nat) returns (length': nat)
      requires Shape() && code < 28 && LengthsBelow(code, length)
      modifies lengthCode, baseLength
      ensures LengthsBelow(code + 1, length')
    {
      LengthRangesMeet(code);
      LengthBaseBound(code);
      baseLength[code] := length;
      length' := FillLengths(code, length);
    }

    method FillLengths(code: nat, start: nat) returns (length: nat)
      requires Shape() && code < 28 && start + 3 == LengthBase(code) && start + Pow2(LengthExtra(code)) <= 256
      requires forall lc :: 0 <= lc < start ==> LengthCodeOk(lc, lengthCode[lc])
      modifies lengthCode
      ensures length == start + Pow2(LengthExtra(code))
      ensures forall lc :: 0 <= lc < length ==> LengthCodeOk(lc, lengthCode[lc])
    {
      length := start;
      var n := 0;
      while n < Pow2(LengthExtra(code))
        invariant 0 <= n <= Pow2(LengthExtra(code)) && length == start + n
        invariant forall lc :: 0 <= lc < length ==> LengthCodeOk(lc, lengthCode[lc])
      {
        lengthCode[length] := code;
        length := length + 1;
        n := n + 1;
      }
    }

    ghost predicate LowBelow(code: nat, dist: nat)
      requires Shape()
      reads distCode, baseDist
    {
      && code <= 16 && dist + 1 == DistBase(code)
      && (forall d :: 0 <= d < dist && d < 256 ==> DistCodeOk(d, distCode[d]))
      && (forall c :: 0 <= c < code ==> baseDist[c] + 1 == DistBase(c))
    }

    ghost predicate HighBelow(code: nat, dist: nat)
      requires Shape()
      reads distCode, baseDist
    {
      && 16 <= code <= 30 && (code < 30 ==> 128 * dist + 1 == DistBase(code)) && (code == 30 ==> dist == 256)
      && 2 <= dist && LowOk() && HighOk(dist)
      && (forall c :: 0 <= c < code ==> baseDist[c] + 1 == DistBase(c))
    }

    /** The mapping dist (0..32K) -> dist code (0..29): one entry per distance below
        256, then one entry per 128 distances. */
    method InitDistances()
      requires Shape()
      modifies distCode, baseDist
      ensures DistancesOk()
    {
      var dist, code := 0, 0;
      while code < 16
        invariant LowBelow(code, dist)
      {
        dist := LowRound(code, dist);
        code := code + 1;
      }
      LowIsDone(dist);
      dist := dist / 128;
      while code < D_CODES
        invariant HighBelow(code, dist)
      {
        dist := HighRound(code, dist);
        code := code + 1;
      }
      AllDistances();
    }

    lemma LowIsDone(dist: nat)
      requires Shape() && LowBelow(16, dist)
      ensures HighBelow(16, dist / 128)
    {
      LowDistances();
    }

    method LowRound(code: nat, dist: nat) returns (dist': nat)
      requires Shape() && code < 16 && LowBelow(code, dist)
      modifies distCode, baseDist
      ensures LowBelow(code + 1, dist')
    {
      DistBaseBound(code, 16);
      LowDistances();
      baseDist[code] := dist;
      dist' := FillLow(code, dist);
    }

    method HighRound(code: nat, dist: nat) returns (dist': nat)
      requires Shape() && code < 30 && HighBelow(code, dist)
      modifies distCode, baseDist
      ensures HighBelow(code + 1, dist')
    {
      DistHighSteps(code);
      DistBaseBound(code, 30);
      HighDistances();
      baseDist[code] := 128 * dist;
      dist' := FillHigh(code, dist);
    }

    ghost predicate LowOk()
      requires Shape()
      reads distCode
    {
      forall d :: 0 <= d < 256 ==> DistCodeOk(d, distCode[d])
    }

    ghost predicate HighOk(dist: nat)
      requires Shape()
      reads distCode
    {
      dist <= 256 && forall h :: 2 <= h < dist ==> HighCodeOk(h, distCode[256..][h])
    }

    lemma AllDistances()
      requires Shape() && LowOk() && HighOk(256)
      ensures forall d :: 0 <= d < 32768 ==> DistCodeOk(d, DCode(d))
    {
      forall d | 0 <= d < 32768
        ensures DistCodeOk(d, DCode(d))
      {
        if d >= 256 { assert HighCodeOk(d / 128, distCode[256..][d / 128]); }
      }
    }

    method FillLow(code: nat, start: nat) returns (dist: nat)
      requires Shape() && code < 16 && start + 1 == DistBase(code) && start + Pow2(DistExtra(code)) <= 256
      requires forall d :: 0 <= d < start ==> DistCodeOk(d, distCode[d])
      modifies distCode
      ensures dist == start + Pow2(DistExtra(code))
      ensures forall d :: 0 <= d < dist ==> DistCodeOk(d, distCode[d])
    {
      dist := start;
      var n := 0;
      while n < Pow2(DistExtra(code))
        invariant 0 <= n <= Pow2(DistExtra(code)) && dist == start + n
        invariant forall d :: 0 <= d < dist ==> DistCodeOk(d, distCode[d])
      {
        distCode[dist] := code;
        dist := dist + 1;
        n := n + 1;
      }
    }

    method FillHigh(code: nat, start: nat) returns (dist: nat)
      requires Shape() && 16 <= code < 30 && 7 <= DistExtra(code) && 2 <= start && LowOk() && HighOk(start)
      requires 128 * start + 1 == DistBase(code) && Pow2(DistExtra(code)) == 128 * Pow2(DistExtra(code) - 7)
      requires start + Pow2(DistExtra(code) - 7) <= 256
      modifies distCode
      ensures dist == start + Pow2(DistExtra(code) - 7) && LowOk() && HighOk(dist)
    {
      dist := start;
      var n := 0;
      while n < Pow2(DistExtra(code) - 7)
        invariant 0 <= n <= Pow2(DistExtra(code) - 7) && dist == start + n
        invariant LowOk() && HighOk(dist)
      {
        HighCodeIs(dist, code);
        PutHigh(code, dist);
        dist := dist + 1;
        n := n + 1;
      }
    }

    method PutHigh(code: nat, dist: nat)
      requires Shape() && 2 <= dist < 256 && LowOk() && HighOk(dist) && HighCodeOk(dist, code)
      modifies distCode
      ensures LowOk() && HighOk(dist + 1)
    {
      ghost var high := distCode[256..];
      distCode[256 + dist] := code;
      assert distCode[256..] == high[dist := code];
    }
  }

  /** c is right for all 128 distances that share high entry h. */
  ghost predicate HighCodeOk(h: nat, c: nat)
  {
    forall d :: 128 * h <= d < 128 * h + 128 ==> DistCodeOk(d, c)
  }

  lemma HighCodeIs(h: nat, c: nat)
    requires c < 30 && DistBase(c) <= 128 * h + 1 && 128 * h + 128 < DistBase(c) + Pow2(DistExtra(c))
    ensures HighCodeOk(h, c)
  {
  }
}
