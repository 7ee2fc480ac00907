/** The header of a dynamic block as bits, and its decoding by section 3.2.7 of
    RFC 1951. */
module Header {
  import opened Bits
  import opened Rfc1951
  import opened Canonical
  import opened RunLengths

  /** Position of a code length symbol in the header order. */
  const RANK: seq<nat> := [3, 17, 15, 13, 11, 9, 7, 5, 4, 6, 8, 10, 12, 14, 16, 18, 0, 1, 2]

  lemma RankInverse(s: nat, i: nat)
    requires s < 19 && i < 19
    ensures RANK[s] < 19 && CL_ORDER[RANK[s]] == s
    ensures CL_ORDER[i] < 19 && RANK[CL_ORDER[i]] == i
  {
  }

  /** The lengths of the code length code in header order. */
  function Sent(cl: seq<nat>, n: nat): (sent: seq<nat>)
    requires |cl| == 19 && n <= 19
    ensures |sent| == n
  {
    seq(n, i requires 0 <= i < n => assert CL_ORDER[i] < 19 by { RankInverse(0, i); } cl[CL_ORDER[i]])
  }

  function ClLensBits(cl: seq<nat>, i: nat, n: nat): (b: Bits)
    requires |cl| == 19 && i <= n <= 19
    ensures |b| == 3 * (n - i)
    decreases n - i
  {
    if i == n then []
    else
      RankInverse(0, i);
      ToBits(cl[CL_ORDER[i]], 3) + ClLensBits(cl, i + 1, n)
  }

  lemma {:induction false} ReadClLensBack(cl: seq<nat>, i: nat, n: nat, rest: Bits)
    requires |cl| == 19 && i <= n <= 19 && forall s :: 0 <= s < 19 ==> cl[s] <= 7
    ensures ReadClLens(ClLensBits(cl, i, n) + rest, n - i) == Some((Sent(cl, n)[i..], rest))
    decreases n - i
  {
    hide ToBits;
    if i == n {
      assert ClLensBits(cl, i, n) + rest == rest;
    } else {
      RankInverse(0, i);
      var x, b := cl[CL_ORDER[i]], ClLensBits(cl, i + 1, n);
      Assoc(ToBits(x, 3), b, rest);
      assert Pow2(3) == 8;
      ReadBack(x, 3, b + rest);
      ReadClLensBack(cl, i + 1, n, rest);
      assert Sent(cl, n)[i..] == [x] + Sent(cl, n)[i + 1..];
    }
  }

  lemma {:induction false} SentLengthIs(cl: seq<nat>, n: nat, s: nat, i: nat)
    requires |cl| == 19 && i <= n <= 19 && s < 19 && i <= RANK[s]
    ensures SentLength(Sent(cl, n), s, i) == if RANK[s] < n then cl[s] else 0
    decreases n - i
  {
    RankInverse(s, if i < 19 then i else 0);
    if i < n {
      if CL_ORDER[i] != s { SentLengthIs(cl, n, s, i + 1); }
    }
  }

  /** Nothing is lost by sending only the first n lengths when the others are 0. */
  lemma UnpermuteSent(cl: seq<nat>, n: nat)
    requires |cl| == 19 && n <= 19 && forall i :: n <= i < 19 ==> CL_ORDER[i] < 19 && cl[CL_ORDER[i]] == 0
    ensures Unpermute(Sent(cl, n)) == cl
  {
    forall s | 0 <= s < 19
      ensures Unpermute(Sent(cl, n))[s] == cl[s]
    {
      SentLengthIs(cl, n, s, 0);
      RankInverse(s, RANK[s]);
    }
  }

  function HeaderBits(llens: seq<nat>, dlens: seq<nat>, cl: seq<nat>, n: nat): (b: Bits)
    requires 257 <= |llens| && 1 <= |dlens| && |cl| == 19 && 4 <= n <= 19
    requires ItemsCoded(cl, Rle(llens, 0, -1)) && ItemsCoded(cl, Rle(dlens, 0, -1))
  {
    ToBits(|llens| - 257, 5) + (ToBits(|dlens| - 1, 5) + (ToBits(n - 4, 4) + (ClLensBits(cl, 0, n)
      + (ItemsBits(cl, Rle(llens, 0, -1)) + ItemsBits(cl, Rle(dlens, 0, -1))))))
  }

  lemma SendableConcat(cl: seq<nat>, a: seq<Item>, b: seq<Item>)
    requires ItemsCoded(cl, a) && ItemsCoded(cl, b)
    ensures ItemsCoded(cl, a + b) && ItemsBits(cl, a + b) == ItemsBits(cl, a) + ItemsBits(cl, b)
  {
    ItemsBitsConcat(cl, a, b);
  }

  lemma DecodeTwoLists(cl: seq<nat>, a: seq<Item>, b: seq<Item>, x: seq<nat>, y: seq<nat>, rest: Bits, bits: Bits)
    requires Fits(cl, 15) && ItemsCoded(cl, a) && ItemsCoded(cl, b)
    requires ExpandAll([], a) == Some(x) && ExpandAll(x, b) == Some(x + y)
    requires bits == ItemsBits(cl, a) + ItemsBits(cl, b) + rest
    ensures DecodeLens(cl, bits, [], |x| + |y|) == Some((x + y, rest))
  {
    hide DecodeLens, ItemsBits, ExpandAll, Fits;
    ExpandConcat([], a, b);
    SendableConcat(cl, a, b);
    DecodeItems(cl, a + b, [], |x| + |y|, rest);
  }

  /** The code length sequence runs on from the literal tree into the distance tree,
      and decoding the two trees' items gives both back. */
  lemma DecodeBothTrees(llens: seq<nat>, dlens: seq<nat>, cl: seq<nat>, rest: Bits)
    requires |cl| == 19 && Fits(cl, 15)
    requires (forall j :: 0 <= j < |llens| ==> llens[j] <= 15) && (forall j :: 0 <= j < |dlens| ==> dlens[j] <= 15)
    requires ItemsCoded(cl, Rle(llens, 0, -1)) && ItemsCoded(cl, Rle(dlens, 0, -1))
    ensures DecodeLens(cl, ItemsBits(cl, Rle(llens, 0, -1)) + ItemsBits(cl, Rle(dlens, 0, -1)) + rest, [],
                       |llens| + |dlens|)
         == Some((llens + dlens, rest))
  {
    RleExpands([], llens, 0, -1);
    assert [] + llens[..0] == [] && [] + llens == llens;
    RleExpands(llens, dlens, 0, -1);
    assert llens + dlens[..0] == llens;
    DecodeTwoLists(cl, Rle(llens, 0, -1), Rle(dlens, 0, -1), llens, dlens, rest,
                   ItemsBits(cl, Rle(llens, 0, -1)) + ItemsBits(cl, Rle(dlens, 0, -1)) + rest);
  }

  lemma DecodesTrees(llens: seq<nat>, dlens: seq<nat>, cl: seq<nat>, n: nat, items: Bits, rest: Bits)
    requires |cl| == 19 && n <= 19 && forall s :: 0 <= s < 19 ==> cl[s] <= 7
    requires forall i :: n <= i < 19 ==> CL_ORDER[i] < 19 && cl[CL_ORDER[i]] == 0
    requires DecodeLens(cl, items + rest, [], |llens| + |dlens|) == Some((llens + dlens, rest))
    ensures DecodeTrees(|llens|, |dlens|, n, ClLensBits(cl, 0, n) + (items + rest)) == Some((llens, dlens, rest))
  {
    ReadClLensBack(cl, 0, n, items + rest);
    assert Sent(cl, n)[0..] == Sent(cl, n);
    UnpermuteSent(cl, n);
  }

  lemma DecodesCounts(hlit: nat, hdist: nat, hclen: nat, rest: Bits)
    requires hlit < 32 && hdist < 32 && hclen < 16
    ensures DecodeHeader(ToBits(hlit, 5) + (ToBits(hdist, 5) + (ToBits(hclen, 4) + rest)))
         == DecodeTrees(hlit + 257, hdist + 1, hclen + 4, rest)
  {
    hide DecodeTrees, FromBits;
    assert Pow2(5) == 32 && Pow2(4) == 16;
    var b2 := ToBits(hclen, 4) + rest;
    assert DecodeHclen(hlit + 257, hdist + 1, b2) == DecodeTrees(hlit + 257, hdist + 1, hclen + 4, rest) by {
      ReadBack(hclen, 4, rest);
    }
    var b1 := ToBits(hdist, 5) + b2;
    assert DecodeHdist(hlit + 257, b1) == DecodeHclen(hlit + 257, hdist + 1, b2) by {
      ReadBack(hdist, 5, b2);
    }
    ReadBack(hlit, 5, b1);
  }

  /** The decoder recovers both trees' lengths from the header. */
  lemma DecodesHeader(llens: seq<nat>, dlens: seq<nat>, cl: seq<nat>, n: nat, rest: Bits)
    requires 257 <= |llens| <= 288 && 1 <= |dlens| <= 32 && |cl| == 19 && 4 <= n <= 19 && Fits(cl, 15)
    requires (forall j :: 0 <= j < |llens| ==> llens[j] <= 15) && (forall j :: 0 <= j < |dlens| ==> dlens[j] <= 15)
    requires ItemsCoded(cl, Rle(llens, 0, -1)) && ItemsCoded(cl, Rle(dlens, 0, -1))
    requires forall s :: 0 <= s < 19 ==> cl[s] <= 7
    requires forall i :: n <= i < 19 ==> CL_ORDER[i] < 19 && cl[CL_ORDER[i]] == 0
    ensures DecodeHeader(HeaderBits(llens, dlens, cl, n) + rest) == Some((llens, dlens, rest))
  {
    var items := ItemsBits(cl, Rle(llens, 0, -1)) + ItemsBits(cl, Rle(dlens, 0, -1));
    HeaderSplit(ToBits(|llens| - 257, 5), ToBits(|dlens| - 1, 5), ToBits(n - 4, 4), ClLensBits(cl, 0, n), items, rest);
    DecodesCounts(|llens| - 257, |dlens| - 1, n - 4, ClLensBits(cl, 0, n) + (items + rest));
    DecodeBothTrees(llens, dlens, cl, rest);
    DecodesTrees(llens, dlens, cl, n, items, rest);
  }

  lemma HeaderSplit(a: Bits, b: Bits, c: Bits, d: Bits, e: Bits, rest: Bits)
    ensures a + (b + (c + (d + e))) + rest == a + (b + (c + (d + (e + rest))))
  {
    Assoc(d, e, rest);
    Assoc(c, d + e, rest);
    Assoc(b, c + (d + e), rest);
    Assoc(a, b + (c + (d + e)), rest);
  }
}
