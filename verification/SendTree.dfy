/** send_tree and send_all_trees of gzip.c: the header of a dynamic block. */
module SendTree {
  import opened Bits
  import opened Rfc1951
  import opened GenCodes
  import opened BitWriters
  import opened RunLengths
  import opened TreeHeader

  /** Symbol j of a tree ready for sending has the length given by lens and, if that is
      not 0, the code that belongs to it. */
  ghost predicate CodedOne(len: seq<nat>, code: seq<nat>, lens: seq<nat>, j: nat)
  {
    && j < |lens| && j < |len| && j < |code| && len[j] == lens[j] <= 15
    && (lens[j] > 0 ==> HasCode(lens, code[j], j))
  }

  /** So have all symbols as far as both go. */
  ghost predicate Coded(len: seq<nat>, code: seq<nat>, lens: seq<nat>)
  {
    forall j {:trigger CodedOne(len, code, lens, j)} :: 0 <= j < |lens| && j < |len| ==> CodedOne(len, code, lens, j)
  }

  lemma CodedAt(len: seq<nat>, code: seq<nat>, lens: seq<nat>, c: nat)
    requires Coded(len, code, lens) && c < |lens| && c < |len| && lens[c] > 0
    ensures c < |code| && len[c] == lens[c] <= 15 && code[c] < Pow2(len[c])
            && ToBits(code[c], len[c]) == Codeword(lens, c)
  {
    assert CodedOne(len, code, lens, c);
  }

  /** SEND_CODE: the code word of symbol c. */
  method SendCode(w: BitWriter, len: array<nat>, code: array<nat>, c: nat, ghost lens: seq<nat>)
    requires w.Valid() && Coded(len[..], code[..], lens) && c < |lens| && c < len.Length && lens[c] > 0
    modifies w, w.outbuf
    ensures w.Valid() && w.Stream() == old(w.Stream()) + Codeword(lens, c)
  {
    CodedAt(len[..], code[..], lens, c);
    w.SendBits(code[c], len[c]);
  }

  lemma OneItemBits(cl: seq<nat>, it: Item)
    requires |cl| == 19 && it.sym <= 18
    ensures ItemsBits(cl, [it]) == ItemBits(cl, it)
  {
    assert [it][1..] == [];
    assert ItemBits(cl, it) + [] == ItemBits(cl, it);
  }

  lemma PlainItemBits(cl: seq<nat>, x: nat)
    requires |cl| == 19 && x <= 15
    ensures ItemBits(cl, Item(x, 0)) == Codeword(cl, x)
  {
    assert Codeword(cl, x) + [] == Codeword(cl, x);
  }

  /** A code followed by its extra bits. */
  method SendItem(w: BitWriter, len: array<nat>, code: array<nat>, sym: nat, extra: nat, ghost cl: seq<nat>)
    requires w.Valid() && |cl| == 19 && Coded(len[..], code[..], cl) && 19 <= len.Length && 16 <= sym <= 18
             && cl[sym] > 0
    requires extra < Pow2(ExtraBits(sym))
    modifies w, w.outbuf
    ensures w.Valid() && w.Stream() == old(w.Stream()) + ItemBits(cl, Item(sym, extra))
  {
    SendCode(w, len, code, sym, cl);
    w.SendBits(extra, ExtraBits(sym));
    Assoc(old(w.Stream()), Codeword(cl, sym), ToBits(extra, ExtraBits(sym)));
  }

  /** A length sent `count` times by itself. */
  method SendPlain(w: BitWriter, len: array<nat>, code: array<nat>, cur: nat, count: nat, ghost cl: seq<nat>)
    requires w.Valid() && |cl| == 19 && Coded(len[..], code[..], cl) && 19 <= len.Length && cur <= 15 && cl[cur] > 0
             && 1 <= count
    modifies w, w.outbuf
    ensures w.Valid() && w.Stream() == old(w.Stream()) + ItemsBits(cl, Plain(cur, count))
  {
    var left := count;
    assert old(w.Stream()) + [] == w.Stream();
    while left > 0
      invariant 0 <= left <= count && w.Valid()
      invariant w.Stream() == old(w.Stream()) + ItemsBits(cl, Plain(cur, count - left))
    {
      SendCode(w, len, code, cur, cl);
      OneMorePlain(cl, cur, count - left);
      Assoc(old(w.Stream()), ItemsBits(cl, Plain(cur, count - left)), Codeword(cl, cur));
      left := left - 1;
    }
  }

  function Plain(cur: nat, n: nat): (items: seq<Item>)
    ensures |items| == n && forall k :: 0 <= k < n ==> items[k] == Item(cur, 0)
  {
    seq(n, i => Item(cur, 0))
  }

  lemma OneMorePlain(cl: seq<nat>, cur: nat, n: nat)
    requires |cl| == 19 && cur <= 15
    ensures ItemsBits(cl, Plain(cur, n + 1)) == ItemsBits(cl, Plain(cur, n)) + Codeword(cl, cur)
  {
    PlainItemBits(cl, cur);
    OneItemBits(cl, Item(cur, 0));
    ItemsBitsConcat(cl, Plain(cur, n), [Item(cur, 0)]);
    assert Plain(cur, n + 1) == Plain(cur, n) + [Item(cur, 0)];
  }

  /** Send the items of one run. */
  method SendRun(w: BitWriter, len: array<nat>, code: array<nat>, cur: nat, count0: nat, prev: int, minCount: nat,
                 ghost cl: seq<nat>)
    requires w.Valid() && |cl| == 19 && Coded(len[..], code[..], cl) && 19 <= len.Length && cur <= 15
    requires 1 <= count0 <= MaxCount(cur, prev) && minCount == MinCount(cur, prev)
             && ItemsCoded(cl, Emit(cur, count0, prev))
    modifies w, w.outbuf
    ensures w.Valid() && w.Stream() == old(w.Stream()) + ItemsBits(cl, Emit(cur, count0, prev))
  {
    hide BitWriter.Stream, ItemsBits, Codeword, ItemBits;
    var count := count0;
    ghost var items := Emit(cur, count, prev);
    assert ValidItem(items[0]) && cl[items[0].sym] > 0;
    if count < minCount {
      assert items == Plain(cur, count);
      SendPlain(w, len, code, cur, count, cl);
    } else if cur != 0 {
      if cur != prev {
        assert ValidItem(items[1]) && cl[items[1].sym] > 0;
        SendCode(w, len, code, cur, cl);
        count := count - 1;
        TwoItemBits(cl, cur, items[1]);
        Assoc(old(w.Stream()), Codeword(cl, cur), ItemBits(cl, items[1]));
      } else {
        OneItemBits(cl, items[0]);
      }
      SendItem(w, len, code, 16, count - 3, cl);
    } else if count <= 10 {
      OneItemBits(cl, items[0]);
      SendItem(w, len, code, 17, count - 3, cl);
    } else {
      OneItemBits(cl, items[0]);
      SendItem(w, len, code, 18, count - 11, cl);
    }
  }

  lemma TwoItemBits(cl: seq<nat>, cur: nat, it: Item)
    requires |cl| == 19 && cur <= 15 && it.sym <= 18
    ensures ItemsBits(cl, [Item(cur, 0), it]) == Codeword(cl, cur) + ItemBits(cl, it)
  {
    PlainItemBits(cl, cur);
    OneItemBits(cl, it);
    assert [Item(cur, 0), it][1..] == [it];
  }

  /** One round of send_tree. */
  method SendOne(w: BitWriter, len: array<nat>, code: array<nat>, ghost cl: seq<nat>, ghost lens: seq<nat>,
                 ghost n: nat,
                 cur: nat, next: nat, r: Run, ghost done: seq<Item>, ghost all: seq<Item>)
    returns (r': Run, ghost out: seq<Item>)
    requires w.Valid() && Coded(len[..], code[..], cl) && 19 <= len.Length && ItemsCoded(cl, all)
    requires n < |lens| && cur == lens[n] <= 15 && next == Next(lens, n) && Pass(lens, n, r, done, all)
    modifies w, w.outbuf
    ensures w.Valid() && Pass(lens, n + 1, r', done + out, all) && ItemsCoded(cl, out)
    ensures w.Stream() == old(w.Stream()) + ItemsBits(cl, out)
  {
    var count := r.count + 1;
    if count < r.maxCount && cur == next {
      PassGoesOn(lens, n, r, done, all);
      r', out := r.(count := count), [];
      assert done + [] == done && w.Stream() + [] == w.Stream();
    } else {
      PassEndsSendable(cl, lens, n, r, done, all);
      SendRun(w, len, code, cur, count, r.prev, r.minCount, cl);
      var maxCount, minCount := Limits(cur, next);
      r', out := Run(0, cur, maxCount, minCount), Emit(cur, count, r.prev);
    }
  }

  lemma PassEndsSendable(cl: seq<nat>, lens: seq<nat>, n: nat, r: Run, done: seq<Item>, all: seq<Item>)
    requires n < |lens| && Pass(lens, n, r, done, all) && ItemsCoded(cl, all)
    requires r.count + 1 >= r.maxCount || lens[n] != Next(lens, n)
    ensures r.count + 1 <= MaxCount(lens[n], r.prev) && r.minCount == MinCount(lens[n], r.prev)
    ensures ItemsCoded(cl, Emit(lens[n], r.count + 1, r.prev))
    ensures Pass(lens, n + 1, Run(0, lens[n], NextMax(lens[n], Next(lens, n)), NextMin(lens[n], Next(lens, n))),
                 done + Emit(lens[n], r.count + 1, r.prev), all)
  {
    PassEnds(lens, n, r, done, all);
    PartSendable(cl, done, Emit(lens[n], r.count + 1, r.prev), Rle(lens, n + 1, lens[n]), all);
  }

  lemma PartSendable(cl: seq<nat>, a: seq<Item>, b: seq<Item>, c: seq<Item>, all: seq<Item>)
    requires ItemsCoded(cl, all) && a + b + c == all
    ensures ItemsCoded(cl, b)
  {
    forall k | 0 <= k < |b| ensures ValidItem(b[k]) && cl[b[k].sym] > 0 {
      assert b[k] == all[|a| + k];
    }
  }

  /** send_tree: the items of the tree in the code of the code length alphabet. */
  method SendLengths(w: BitWriter, len: array<nat>, maxCode: nat, ghost lens: seq<nat>,
                     clLen: array<nat>, clCode: array<nat>, ghost cl: seq<nat>)
    requires w.Valid() && Guarded(len[..], lens) && |lens| == maxCode + 1
    requires Coded(clLen[..], clCode[..], cl) && 19 <= clLen.Length && ItemsCoded(cl, Rle(lens, 0, -1))
    modifies w, w.outbuf
    ensures w.Valid() && w.Stream() == old(w.Stream()) + ItemsBits(cl, Rle(lens, 0, -1))
  {
    var nextLen := len[0];
    var r := Run(0, -1, 7, 4);
    if nextLen == 0 {
      r := Run(0, -1, 138, 3);
    }
    PassStart(lens);
    SendLoop(w, len, maxCode, lens, clLen, clCode, cl, r, Rle(lens, 0, -1));
  }

  method SendLoop(w: BitWriter, len: array<nat>, maxCode: nat, ghost lens: seq<nat>,
                  clLen: array<nat>, clCode: array<nat>, ghost cl: seq<nat>, first: Run, ghost all: seq<Item>)
    requires w.Valid() && Guarded(len[..], lens) && |lens| == maxCode + 1
    requires Coded(clLen[..], clCode[..], cl) && 19 <= clLen.Length && ItemsCoded(cl, all)
             && Pass(lens, 0, first, [], all)
    modifies w, w.outbuf
    ensures w.Valid() && w.Stream() == old(w.Stream()) + ItemsBits(cl, all)
  {
    hide BitWriter.Valid, Pass, BitWriter.Stream;
    var nextLen, r, n := len[0], first, 0;
    ghost var done: seq<Item> := [];
    assert old(w.Stream()) + [] == w.Stream();
    while n <= maxCode
      invariant 0 <= n <= maxCode + 1 && nextLen == len[n] && w.Valid()
      invariant Pass(lens, n, r, done, all) && ItemsCoded(cl, done)
      invariant w.Stream() == old(w.Stream()) + ItemsBits(cl, done)
    {
      var curLen := nextLen;
      nextLen := len[n + 1];
      ghost var out;
      r, out := SendOne(w, clLen, clCode, cl, lens, n, curLen, nextLen, r, done, all);
      ItemsBitsConcat(cl, done, out);
      Assoc(old(w.Stream()), ItemsBits(cl, done), ItemsBits(cl, out));
      done := done + out;
      n := n + 1;
    }
    PassDone(lens, r, done, all);
  }
}
