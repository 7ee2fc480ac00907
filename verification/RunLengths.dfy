/** The run-length coding of code lengths in a dynamic block header, as scan_tree
    and send_tree of gzip.c choose it, and its expansion by section 3.2.7 of
    RFC 1951. */
module RunLengths {
  import opened Bits
  import opened Rfc1951
  import opened Canonical

  /** A symbol of the code length alphabet with the value of its extra bits. */
  datatype Item = Item(sym: nat, extra: nat)

  function ExtraBits(sym: nat): (n: nat)
  {
    if sym == 16 then 2 else if sym == 17 then 3 else if sym == 18 then 7 else 0
  }

  /** Longest run coded at once, after length prev (-1 at the start of a tree). */
  function MaxCount(cur: nat, prev: int): (n: nat)
    ensures n >= 6
  {
    if cur == 0 then 138 else if cur == prev then 6 else 7
  }

  /** Shorter runs are sent length by length. */
  function MinCount(cur: nat, prev: int): (n: nat)
  {
    if cur == 0 || cur == prev then 3 else 4
  }

  /** How a run of `count` lengths cur is sent. */
  function Emit(cur: nat, count: nat, prev: int): (items: seq<Item>)
    requires 1 <= count <= MaxCount(cur, prev)
  {
    if count < MinCount(cur, prev) then seq(count, i => Item(cur, 0))
    else if cur != 0 && cur != prev then [Item(cur, 0), Item(16, count - 4)]
    else if cur != 0 then [Item(16, count - 3)]
    else if count <= 10 then [Item(17, count - 3)]
    else [Item(18, count - 11)]
  }

  /** Length of the run that starts at i, at most max. */
  function RunLen(lens: seq<nat>, i: nat, max: nat): (r: nat)
    requires i < |lens| && 1 <= max
    ensures 1 <= r <= max && i + r <= |lens|
    ensures forall j :: i <= j < i + r ==> lens[j] == lens[i]
    ensures r == max || i + r == |lens| || lens[i + r] != lens[i]
    decreases |lens| - i
  {
    if max == 1 || i + 1 == |lens| || lens[i + 1] != lens[i] then 1
    else 1 + RunLen(lens, i + 1, max - 1)
  }

  /** Any run that cannot be longer is the run. */
  lemma {:induction false} RunLenIs(lens: seq<nat>, i: nat, max: nat, r: nat)
    requires i < |lens| && 1 <= r <= max && i + r <= |lens|
    requires forall j :: i <= j < i + r ==> lens[j] == lens[i]
    requires r == max || i + r == |lens| || lens[i + r] != lens[i]
    ensures RunLen(lens, i, max) == r
    decreases r
  {
    if r > 1 { RunLenIs(lens, i + 1, max - 1, r - 1); }
  }

  /** The items for lens[i..]. */
  function Rle(lens: seq<nat>, i: nat, prev: int): (items: seq<Item>)
    requires i <= |lens|
    decreases |lens| - i
  {
    if i == |lens| then []
    else
      var c := RunLen(lens, i, MaxCount(lens[i], prev));
      Emit(lens[i], c, prev) + Rle(lens, i + c, lens[i])
  }

  /** The run at i is sent first. */
  lemma RleAt(lens: seq<nat>, i: nat, prev: int, c: nat)
    requires i < |lens| && c == RunLen(lens, i, MaxCount(lens[i], prev))
    ensures 1 <= c <= MaxCount(lens[i], prev) && i + c <= |lens|
    ensures forall j :: i <= j < i + c ==> lens[j] == lens[i]
    ensures Rle(lens, i, prev) == Emit(lens[i], c, prev) + Rle(lens, i + c, lens[i])
  {
    hide Emit, MaxCount;
  }

  /** What one item adds to the lengths known so far. */
  function Expanded(have: seq<nat>, it: Item): (r: Option<seq<nat>>)
  {
    if it.sym < 16 then Some(have + [it.sym])
    else if it.sym == 16 then if have == [] then None else Some(have + Repeat(have[|have| - 1], 3 + it.extra))
    else if it.sym == 17 then Some(have + Repeat(0, 3 + it.extra))
    else if it.sym == 18 then Some(have + Repeat(0, 11 + it.extra))
    else None
  }

  function ExpandAll(have: seq<nat>, items: seq<Item>): (r: Option<seq<nat>>)
    decreases |items|
  {
    if items == [] then Some(have)
    else match Expanded(have, items[0])
      case None => None
      case Some(h) => ExpandAll(h, items[1..])
  }

  /** The item exists and its extra value fits its 2, 3 or 7 bits. */
  predicate ValidItem(it: Item)
  {
    it.sym <= 18 && it.extra < Pow2(ExtraBits(it.sym))
  }

  lemma {:induction false} ExpandConcat(have: seq<nat>, a: seq<Item>, b: seq<Item>)
    ensures ExpandAll(have, a).None? ==> ExpandAll(have, a + b).None?
    ensures ExpandAll(have, a).Some? ==> ExpandAll(have, a + b) == ExpandAll(ExpandAll(have, a).value, b)
    decreases |a|
  {
    if a == [] {
      assert a + b == b;
    } else {
      assert (a + b)[0] == a[0] && (a + b)[1..] == a[1..] + b;
      if Expanded(have, a[0]).Some? {
        ExpandConcat(Expanded(have, a[0]).value, a[1..], b);
      }
    }
  }

  lemma {:induction false} ExpandSame(have: seq<nat>, x: nat, n: nat)
    requires x < 16
    ensures ExpandAll(have, seq(n, i => Item(x, 0))) == Some(have + Repeat(x, n))
    decreases n
  {
    var items := seq(n, i => Item(x, 0));
    if n == 0 {
      assert have + Repeat(x, 0) == have;
    } else {
      assert items[0] == Item(x, 0) && items[1..] == seq(n - 1, i => Item(x, 0));
      ExpandSame(have + [x], x, n - 1);
      assert have + [x] + Repeat(x, n - 1) == have + Repeat(x, n);
    }
  }

  lemma ExpandOne(have: seq<nat>, it: Item)
    ensures ExpandAll(have, [it]) == Expanded(have, it)
  {
    assert [it][1..] == [];
  }

  lemma ExpandTwo(have: seq<nat>, a: Item, b: Item)
    requires Expanded(have, a).Some?
    ensures ExpandAll(have, [a, b]) == Expanded(Expanded(have, a).value, b)
  {
    assert [a, b][1..] == [b];
    ExpandOne(Expanded(have, a).value, b);
  }

  /** Expanding a run's items gives the run back. */
  lemma EmitExpands(have: seq<nat>, cur: nat, count: nat, prev: int)
    requires cur <= 15 && 1 <= count <= MaxCount(cur, prev)
    requires prev >= 0 ==> have != [] && have[|have| - 1] == prev
    ensures ExpandAll(have, Emit(cur, count, prev)) == Some(have + Repeat(cur, count))
  {
    if count < MinCount(cur, prev) {
      ExpandSame(have, cur, count);
    } else if cur != 0 && cur != prev {
      ExpandTwo(have, Item(cur, 0), Item(16, count - 4));
      assert have + [cur] + Repeat(cur, count - 1) == have + Repeat(cur, count);
    } else {
      ExpandOne(have, Emit(cur, count, prev)[0]);
    }
  }

  /** Appending the run at i takes the lengths known so far past it. */
  lemma TakeRun(base: seq<nat>, lens: seq<nat>, i: nat, c: nat, have: seq<nat>)
    requires i + c <= |lens| && i < |lens| && have == base + lens[..i]
    requires forall j :: i <= j < i + c ==> lens[j] == lens[i]
    ensures have + Repeat(lens[i], c) == base + lens[..i + c]
  {
  }

  /** Expanding the run at i and then its successors. */
  lemma RunExpands(base: seq<nat>, lens: seq<nat>, i: nat, prev: int, c: nat, have: seq<nat>, rest: seq<Item>)
    requires i < |lens| && i + c <= |lens| && lens[i] <= 15 && 1 <= c <= MaxCount(lens[i], prev)
    requires forall j :: i <= j < i + c ==> lens[j] == lens[i]
    requires have == base + lens[..i] && (prev >= 0 ==> have != [] && have[|have| - 1] == prev)
    ensures ExpandAll(have, Emit(lens[i], c, prev) + rest) == ExpandAll(base + lens[..i + c], rest)
  {
    hide Emit, MaxCount, ExpandAll;
    EmitExpands(have, lens[i], c, prev);
    TakeRun(base, lens, i, c, have);
    ExpandConcat(have, Emit(lens[i], c, prev), rest);
  }

  lemma NothingToExpand(have: seq<nat>, lens: seq<nat>, i: nat, prev: int)
    requires i == |lens|
    ensures ExpandAll(have, Rle(lens, i, prev)) == Some(have)
  {
  }

  /** The items expand to the lengths, whatever lengths precede them. */
  lemma {:induction false} RleExpands(base: seq<nat>, lens: seq<nat>, i: nat, prev: int)
    requires i <= |lens| && forall j :: 0 <= j < |lens| ==> lens[j] <= 15
    requires prev == if i == 0 then -1 else lens[i - 1]
    ensures ExpandAll(base + lens[..i], Rle(lens, i, prev)) == Some(base + lens)
    decreases |lens| - i
  {
    hide Rle, Emit, MaxCount, RunLen, ExpandAll;
    if i == |lens| {
      NothingToExpand(base + lens, lens, i, prev);
      assert base + lens[..i] == base + lens;
    } else {
      var c := RunLen(lens, i, MaxCount(lens[i], prev));
      RleAt(lens, i, prev, c);
      RleExpands(base, lens, i + c, lens[i]);
      RunExpands(base, lens, i, prev, c, base + lens[..i], Rle(lens, i + c, lens[i]));
    }
  }

  lemma EmitValid(cur: nat, count: nat, prev: int)
    requires cur <= 15 && 1 <= count <= MaxCount(cur, prev)
    ensures forall k :: 0 <= k < |Emit(cur, count, prev)| ==> ValidItem(Emit(cur, count, prev)[k])
    ensures prev == -1 ==> Emit(cur, count, prev)[0].sym != 16
  {
    Pow2Values();
    assert Pow2(0) == 1 && Pow2(2) == 4;
  }

  /** Every field fits its bits, and a tree never starts by repeating the previous
      length. */
  lemma {:induction false} RleValid(lens: seq<nat>, i: nat, prev: int)
    requires i <= |lens| && forall j :: 0 <= j < |lens| ==> lens[j] <= 15
    ensures forall k :: 0 <= k < |Rle(lens, i, prev)| ==> ValidItem(Rle(lens, i, prev)[k])
    ensures prev == -1 && Rle(lens, i, prev) != [] ==> Rle(lens, i, prev)[0].sym != 16
    decreases |lens| - i
  {
    if i < |lens| {
      hide Emit, MaxCount, RunLen, ValidItem;
      var c := RunLen(lens, i, MaxCount(lens[i], prev));
      EmitValid(lens[i], c, prev);
      RleValid(lens, i + c, lens[i]);
    }
  }

  // ---- The bits of the items and their decoding ----

  function ItemBits(cl: seq<nat>, it: Item): (b: Bits)
    requires it.sym < |cl|
  {
    Codeword(cl, it.sym) + ToBits(it.extra, ExtraBits(it.sym))
  }

  /** All items are valid and have a code. */
  ghost predicate ItemsCoded(cl: seq<nat>, items: seq<Item>)
  {
    |cl| == 19 && forall k :: 0 <= k < |items| ==> ValidItem(items[k]) && cl[items[k].sym] > 0
  }

  function ItemsBits(cl: seq<nat>, items: seq<Item>): (b: Bits)
    requires |cl| == 19 && forall k :: 0 <= k < |items| ==> items[k].sym <= 18
    decreases |items|
  {
    if items == [] then [] else ItemBits(cl, items[0]) + ItemsBits(cl, items[1..])
  }

  lemma {:induction false} ItemsBitsConcat(cl: seq<nat>, a: seq<Item>, b: seq<Item>)
    requires |cl| == 19 && (forall k :: 0 <= k < |a| ==> a[k].sym <= 18)
             && (forall k :: 0 <= k < |b| ==> b[k].sym <= 18)
    ensures ItemsBits(cl, a + b) == ItemsBits(cl, a) + ItemsBits(cl, b)
    decreases |a|
  {
    if a == [] {
      assert a + b == b;
    } else {
      assert (a + b)[0] == a[0] && (a + b)[1..] == a[1..] + b;
      ItemsBitsConcat(cl, a[1..], b);
      Assoc(ItemBits(cl, a[0]), ItemsBits(cl, a[1..]), ItemsBits(cl, b));
    }
  }

  lemma ReadBack(v: nat, n: nat, rest: Bits)
    requires v < Pow2(n)
    ensures ReadBits(ToBits(v, n) + rest, n) == Some((v, rest))
  {
    var bits := ToBits(v, n) + rest;
    assert bits[..n] == ToBits(v, n) && bits[n..] == rest;
    FromToBits(v, n);
  }

  /** An item adds at least one length. */
  lemma ExpandedGrows(have: seq<nat>, it: Item)
    ensures Expanded(have, it).Some? ==> |Expanded(have, it).value| > |have|
  {
  }

  lemma {:induction false} ExpandAllGrows(have: seq<nat>, items: seq<Item>)
    ensures ExpandAll(have, items).Some? ==> |ExpandAll(have, items).value| >= |have| + |items|
    decreases |items|
  {
    if items != [] && Expanded(have, items[0]).Some? {
      ExpandedGrows(have, items[0]);
      ExpandAllGrows(Expanded(have, items[0]).value, items[1..]);
    }
  }

  /** One item, decoded. */
  lemma DecodeItem(cl: seq<nat>, it: Item, have: seq<nat>, total: nat, rest: Bits)
    requires |cl| == 19 && Fits(cl, 15) && ValidItem(it) && cl[it.sym] > 0
    requires |have| < total && Expanded(have, it).Some?
    ensures DecodeLens(cl, ItemBits(cl, it) + rest, have, total) == DecodeLens(cl, rest, Expanded(have, it).value,
                                                                               total)
  {
    var x := ToBits(it.extra, ExtraBits(it.sym));
    Assoc(Codeword(cl, it.sym), x, rest);
    DecodesSymbol(cl, 15, it.sym, x + rest);
    if it.sym < 16 {
      assert x + rest == rest;
    } else {
      ReadBack(it.extra, ExtraBits(it.sym), rest);
    }
  }

  /** Decoding the items is expanding them. */
  lemma {:induction false} DecodeItems(cl: seq<nat>, items: seq<Item>, have: seq<nat>, total: nat, rest: Bits)
    requires ItemsCoded(cl, items) && Fits(cl, 15)
    requires ExpandAll(have, items).Some? && |ExpandAll(have, items).value| == total
    ensures DecodeLens(cl, ItemsBits(cl, items) + rest, have, total) == Some((ExpandAll(have, items).value, rest))
    decreases |items|
  {
    if items == [] {
      assert ItemsBits(cl, items) + rest == rest;
    } else {
      ExpandAllGrows(have, items);
      var h := Expanded(have, items[0]).value;
      Assoc(ItemBits(cl, items[0]), ItemsBits(cl, items[1..]), rest);
      DecodeItem(cl, items[0], have, total, ItemsBits(cl, items[1..]) + rest);
      DecodeItems(cl, items[1..], h, total, rest);
    }
  }
}
