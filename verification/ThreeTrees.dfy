/** The three trees flush_block builds: literals/lengths, distances, and the code
    lengths of both (build_bl_tree). */
module ThreeTrees {
  import opened Rfc1951
  import opened Canonical
  import opened GenCodes
  import RL = RunLengths
  import TH = TreeHeader
  import ST = SendTree
  import Header

  const BL_CODES: nat := 19
  const MAX_BL_BITS: nat := 7

  // ---- Unused symbols at the end of a tree do not change its codes ----

  lemma {:induction false} CountZeros(lens: seq<nat>, k: nat, b: nat)
    requires b >= 1
    ensures Count(lens + Repeat(0, k), b) == Count(lens, b)
  {
    if k == 0 {
      assert lens + Repeat(0, 0) == lens;
    } else {
      var all := lens + Repeat(0, k);
      assert all[..|all| - 1] == lens + Repeat(0, k - 1);
      CountZeros(lens, k - 1, b);
    }
  }

  lemma {:induction false} FirstCodeZeros(lens: seq<nat>, k: nat, b: nat)
    ensures FirstCode(lens + Repeat(0, k), b) == FirstCode(lens, b)
  {
    if b > 0 {
      FirstCodeZeros(lens, k, b - 1);
      if b > 1 { CountZeros(lens, k, b - 1); }
    }
  }

  lemma CodesWithZeros(lens: seq<nat>, k: nat, codes: seq<nat>)
    requires Fits(lens, MAX_BITS) && HasCodes(lens, codes) && |lens| + k <= |codes|
    ensures Fits(lens + Repeat(0, k), MAX_BITS) && HasCodes(lens + Repeat(0, k), codes)
  {
    var all := lens + Repeat(0, k);
    forall n | 0 <= n < |all| && all[n] > 0
      ensures HasCode(all, codes[n], n)
    {
      CodeWithZeros(lens, k, codes[n], n);
    }
    FitsWithZeros(lens, k, MAX_BITS);
  }

  lemma FitsWithZeros(lens: seq<nat>, k: nat, max: nat)
    requires Fits(lens, max) && 1 <= max
    ensures Fits(lens + Repeat(0, k), max)
  {
    FirstCodeZeros(lens, k, max);
    CountZeros(lens, k, max);
  }

  lemma CodeWithZeros(lens: seq<nat>, k: nat, code: nat, n: nat)
    requires n < |lens| && HasCode(lens, code, n)
    ensures HasCode(lens + Repeat(0, k), code, n)
  {
    FirstCodeZeros(lens, k, lens[n]);
    assert (lens + Repeat(0, k))[..n] == lens[..n];
  }

  // ---- Sending a tree ----

  lemma CodedPrefix(len: seq<nat>, code: seq<nat>, n: nat)
    requires n <= |len| == |code| && Fits(len[..n], MAX_BITS) && HasCodes(len[..n], code)
    ensures ST.Coded(len, code, len[..n])
  {
    var lens := len[..n];
    forall j | 0 <= j < |lens|
      ensures ST.CodedOne(len, code, lens, j)
    {
      assert lens[j] == len[j] <= 15;
    }
  }

  /** The code length code as 19 lengths. */
  lemma ClCoded(len: seq<nat>, code: seq<nat>, maxCode: nat)
    requires maxCode < BL_CODES <= |len| == |code|
    requires Fits(len[..maxCode + 1], MAX_BITS) && HasCodes(len[..maxCode + 1], code)
    requires forall x :: maxCode < x < BL_CODES ==> len[x] == 0
    ensures ST.Coded(len, code, len[..BL_CODES]) && Fits(len[..BL_CODES], MAX_BITS)
  {
    assert len[..BL_CODES] == len[..maxCode + 1] + Repeat(0, BL_CODES - maxCode - 1);
    CodesWithZeros(len[..maxCode + 1], BL_CODES - maxCode - 1, code);
    CodedPrefix(len, code, BL_CODES);
  }

  /** Every item scan_tree counted has a code. */
  lemma {:induction false} CountedItems(freq0: seq<nat>, freq: seq<nat>, items: seq<RL.Item>, k: nat)
    requires TH.Counted(freq0, freq, items) && k < |items| && items[k].sym < |freq|
    ensures freq[items[k].sym] > 0
  {
    HasSym(items, k);
  }

  lemma {:induction false} HasSym(items: seq<RL.Item>, k: nat)
    requires k < |items|
    ensures TH.SymCount(items, items[k].sym) > 0
    decreases k
  {
    if k > 0 { HasSym(items[1..], k - 1); }
  }

  lemma ItemsSendable(freq0: seq<nat>, mid: seq<nat>, freq: seq<nat>, a: seq<RL.Item>, b: seq<RL.Item>, cl: seq<nat>)
    requires |cl| == BL_CODES <= |freq0| && TH.Counted(freq0, mid, a) && TH.Counted(mid, freq, b)
    requires forall s :: 0 <= s < BL_CODES && freq[s] > 0 ==> cl[s] > 0
    requires forall k :: 0 <= k < |a| ==> RL.ValidItem(a[k])
    requires forall k :: 0 <= k < |b| ==> RL.ValidItem(b[k])
    ensures RL.ItemsCoded(cl, a) && RL.ItemsCoded(cl, b)
  {
    forall k | 0 <= k < |a| ensures RL.ValidItem(a[k]) && cl[a[k].sym] > 0 {
      CountedItems(freq0, mid, a, k);
      assert freq[a[k].sym] >= mid[a[k].sym];
    }
    forall k | 0 <= k < |b| ensures RL.ValidItem(b[k]) && cl[b[k].sym] > 0 {
      CountedItems(mid, freq, b, k);
    }
  }

  /** A run of a new length starts with that length. */
  lemma NewLengthFirst(cur: nat, count: nat, prev: int)
    requires cur > 0 && cur != prev && 1 <= count <= RL.MaxCount(cur, prev)
    ensures |RL.Emit(cur, count, prev)| > 0 && RL.Emit(cur, count, prev)[0].sym == cur
  {
  }

  /** A tree with a code in use sends some length of 1 to 15 by itself. */
  lemma {:induction false} SendsSomeLength(lens: seq<nat>, i: nat, prev: int, j: nat) returns (k: nat)
    requires i <= j < |lens| && 0 < lens[j] && prev <= 0 && forall x :: 0 <= x < |lens| ==> lens[x] <= 15
    ensures k < |RL.Rle(lens, i, prev)| && 1 <= RL.Rle(lens, i, prev)[k].sym <= 15
    decreases j - i
  {
    hide RL.Rle, RL.RunLen, RL.MaxCount, RL.Emit;
    var c := RL.RunLen(lens, i, RL.MaxCount(lens[i], prev));
    RL.RleAt(lens, i, prev, c);
    if lens[i] > 0 {
      k := 0;
      NewLengthFirst(lens[i], c, prev);
    } else {
      k := SendsSomeLength(lens, i + c, 0, j);
      k := |RL.Emit(lens[i], c, prev)| + k;
    }
  }

  /** Of the code lengths in header order the one at index is the last that is not 0; at
      least four are sent. */
  ghost predicate LastNonZero(cl: seq<nat>, index: nat)
  {
    && |cl| == 19 && 3 <= index <= 18 && CL_ORDER[index] < 19 && cl[CL_ORDER[index]] > 0
    && forall i :: index < i < 19 ==> CL_ORDER[i] < 19 && cl[CL_ORDER[i]] == 0
  }

  /** The index in bl_order of the last non-zero code length, as build_bl_tree finds
      it.  It is at least 3, so at least the four lengths the format wants are sent. */
  method LastClIndex(len: array<nat>, ghost cl: seq<nat>, ghost s: nat) returns (index: nat)
    requires BL_CODES <= len.Length && cl == len[..BL_CODES] && 1 <= s <= 15 && cl[s] > 0
    ensures LastNonZero(cl, index)
  {
    index := BL_CODES - 1;
    Header.RankInverse(s, 0);
    assert CL_ORDER[Header.RANK[s]] == s && Header.RANK[s] > 3;
    while index >= 3
      invariant Header.RANK[s] <= index <= 18
      invariant forall i :: index < i < 19 ==> CL_ORDER[i] < 19 && cl[CL_ORDER[i]] == 0
    {
      Header.RankInverse(0, index);
      if len[CL_ORDER[index]] != 0 { break; }
      index := index - 1;
    }
  }
}
