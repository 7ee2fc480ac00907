/** longest_match of gzip.c: the fast search along a hash chain finds what comparing
    every string of the chain byte by byte would find. */
module LongestMatches {
  import opened Bits
  import opened Hashing
  import opened Chains

  const MAX_CHAIN: nat := 128
  const GOOD_MATCH: nat := 8
  const NICE_MATCH: nat := 128

  /** Where the strings at a and b first differ from k on, at most MAX_MATCH. */
  function CommonFrom(win: seq<byte>, a: nat, b: nat, k: nat): (n: nat)
    requires a <= b && b + MAX_MATCH <= |win| && k <= MAX_MATCH
    ensures k <= n <= MAX_MATCH
    decreases MAX_MATCH - k
  {
    if k == MAX_MATCH || win[a + k] != win[b + k] then k else CommonFrom(win, a, b, k + 1)
  }

  /** How many bytes the strings at a and b have in common. */
  function Common(win: seq<byte>, a: nat, b: nat): (n: nat)
    requires a <= b && b + MAX_MATCH <= |win|
    ensures n <= MAX_MATCH
  {
    CommonFrom(win, a, b, 0)
  }

  ghost predicate SameAt(win: seq<byte>, a: nat, b: nat, j: nat)
  {
    a + j < |win| && b + j < |win| && win[a + j] == win[b + j]
  }

  /** The strings at a and b agree in their first n bytes. */
  ghost predicate Same(win: seq<byte>, a: nat, b: nat, n: nat)
  {
    forall j {:trigger SameAt(win, a, b, j)} :: 0 <= j < n ==> SameAt(win, a, b, j)
  }

  lemma {:induction false} CommonIsFrom(win: seq<byte>, a: nat, b: nat, k: nat, n: nat)
    requires a <= b && b + MAX_MATCH <= |win| && k <= n <= MAX_MATCH
    requires Same(win, a, b, n) && (n == MAX_MATCH || win[a + n] != win[b + n])
    ensures CommonFrom(win, a, b, k) == n
    decreases n - k
  {
    if k < n {
      assert SameAt(win, a, b, k);
      CommonIsFrom(win, a, b, k + 1, n);
    }
  }

  lemma CommonSame(win: seq<byte>, a: nat, b: nat)
    requires a <= b && b + MAX_MATCH <= |win|
    ensures Same(win, a, b, Common(win, a, b))
  {
    forall j | 0 <= j < Common(win, a, b) ensures SameAt(win, a, b, j) {
      CommonEqual(win, a, b, 0, j);
    }
  }

  lemma SameMore(win: seq<byte>, a: nat, b: nat, n: nat)
    requires Same(win, a, b, n) && SameAt(win, a, b, n)
    ensures Same(win, a, b, n + 1)
  {
    var m := n + 1;
    forall j | 0 <= j < m ensures SameAt(win, a, b, j) {
    }
  }

  lemma {:induction false} CommonEqual(win: seq<byte>, a: nat, b: nat, k: nat, j: nat)
    requires a <= b && b + MAX_MATCH <= |win| && k <= MAX_MATCH && k <= j < CommonFrom(win, a, b, k)
    ensures win[a + j] == win[b + j]
    decreases j - k
  {
    if k < j { CommonEqual(win, a, b, k + 1, j); }
  }

  /** A difference at j bounds the common part. */
  lemma DifferAt(win: seq<byte>, a: nat, b: nat, j: nat)
    requires a <= b && b + MAX_MATCH <= |win| && j < MAX_MATCH && win[a + j] != win[b + j]
    ensures Common(win, a, b) <= j
  {
    if j < Common(win, a, b) { CommonEqual(win, a, b, 0, j); }
  }

  /** The longest match so far. */
  datatype Best = Best(length: nat, start: int)

  function Improve(win: seq<byte>, s: nat, cur: nat, best: Best): (r: Best)
    requires cur <= s && s + MAX_MATCH <= |win|
  {
    if Common(win, cur, s) > best.length then Best(Common(win, cur, s), cur) else best
  }

  /** Follow the chain from cur for at most `chain` strings beyond `limit`, keeping the
      first longest match; a match of NICE_MATCH bytes ends the search. */
  function Search(win: seq<byte>, prev: seq<nat>, s: nat, cur: nat, best: Best, chain: nat, limit: nat): (r: Best)
    requires cur <= s && s + MAX_MATCH <= |win| && |prev| == WSIZE
    decreases chain
  {
    var r := Improve(win, s, cur, best);
    var next := prev[cur % WSIZE];
    if r != best && r.length >= NICE_MATCH then r
    else if chain > 1 && limit < next < cur then Search(win, prev, s, next, r, chain - 1, limit)
    else r
  }

  /** The search never gives up a match, and what it reports beyond the match it was
      given is a real one. */
  lemma {:induction false} SearchFinds(win: seq<byte>, prev: seq<nat>, s: nat, cur: nat, best: Best, chain: nat,
                                       limit: nat)
    requires cur < s && s + MAX_MATCH <= |win| && |prev| == WSIZE
    ensures var r := Search(win, prev, s, cur, best, chain, limit);
            && r.length >= best.length && (r.length == best.length ==> r == best)
            && (r.length > best.length ==> (r.start == cur || limit < r.start < cur) && 0 <= r.start
                                           && r.length == Common(win, r.start, s))
    decreases chain
  {
    var r := Improve(win, s, cur, best);
    var next := prev[cur % WSIZE];
    if !(r != best && r.length >= NICE_MATCH) && chain > 1 && limit < next < cur {
      SearchFinds(win, prev, s, next, r, chain - 1, limit);
    }
  }

  /** The i-th string of the chain from cur. */
  function Nth(prev: seq<nat>, cur: nat, i: nat): (p: nat)
    requires |prev| == WSIZE
    decreases i
  {
    if i == 0 then cur else Nth(prev, prev[cur % WSIZE], i - 1)
  }

  /** The strings up to the i-th are all within the limit, each older than the last. */
  predicate ChainReaches(prev: seq<nat>, cur: nat, i: nat, limit: nat)
    requires |prev| == WSIZE
    decreases i
  {
    i == 0 || (limit < prev[cur % WSIZE] < cur && ChainReaches(prev, prev[cur % WSIZE], i - 1, limit))
  }

  lemma {:induction false} NthOlder(prev: seq<nat>, cur: nat, i: nat, limit: nat)
    requires |prev| == WSIZE && ChainReaches(prev, cur, i, limit)
    ensures Nth(prev, cur, i) <= cur
    decreases i
  {
    if i > 0 { NthOlder(prev, prev[cur % WSIZE], i - 1, limit); }
  }

  /** No string of the chain within reach has a longer match, unless the search ended
      early with a nice one. */
  lemma {:induction false} SearchIsLongest(win: seq<byte>, prev: seq<nat>, s: nat, cur: nat, best: Best, chain: nat,
                                           limit: nat, i: nat)
    requires cur < s && s + MAX_MATCH <= |win| && |prev| == WSIZE && i < chain && ChainReaches(prev, cur, i, limit)
    ensures Nth(prev, cur, i) <= s
    ensures var r := Search(win, prev, s, cur, best, chain, limit);
            r.length >= Common(win, Nth(prev, cur, i), s) || (r.length >= NICE_MATCH && r != best)
    decreases chain
  {
    NthOlder(prev, cur, i, limit);
    SearchFinds(win, prev, s, cur, best, chain, limit);
    var r := Improve(win, s, cur, best);
    var next := prev[cur % WSIZE];
    if !(r != best && r.length >= NICE_MATCH) && chain > 1 && limit < next < cur {
      SearchFinds(win, prev, s, next, r, chain - 1, limit);
      if i > 0 { SearchIsLongest(win, prev, s, next, r, chain - 1, limit, i - 1); }
    }
  }

  /** Of the strings with the longest match the search takes the most recent. */
  lemma {:induction false} SearchIsNearest(win: seq<byte>, prev: seq<nat>, s: nat, cur: nat, best: Best, chain: nat,
                                           limit: nat, i: nat)
    requires cur < s && s + MAX_MATCH <= |win| && |prev| == WSIZE && i < chain && ChainReaches(prev, cur, i, limit)
    ensures Nth(prev, cur, i) <= s
    ensures var r := Search(win, prev, s, cur, best, chain, limit);
            r != best && r.start < Nth(prev, cur, i) ==> Common(win, Nth(prev, cur, i), s) < r.length
    decreases chain
  {
    hide Common;
    NthOlder(prev, cur, i, limit);
    var r := Improve(win, s, cur, best);
    var next := prev[cur % WSIZE];
    if !(r != best && r.length >= NICE_MATCH) && chain > 1 && limit < next < cur {
      SearchFinds(win, prev, s, next, r, chain - 1, limit);
      if i > 0 { SearchIsNearest(win, prev, s, next, r, chain - 1, limit, i - 1); }
    }
  }

  // ---- What is on the chain ----

  lemma {:induction false} ChainMore(prev: seq<nat>, cur: nat, i: nat, limit: nat)
    requires |prev| == WSIZE && ChainReaches(prev, cur, i, limit)
    requires limit < prev[Nth(prev, cur, i) % WSIZE] < Nth(prev, cur, i)
    ensures ChainReaches(prev, cur, i + 1, limit) && Nth(prev, cur, i + 1) == prev[Nth(prev, cur, i) % WSIZE]
    decreases i
  {
    if i > 0 { ChainMore(prev, prev[cur % WSIZE], i - 1, limit); }
  }

  lemma {:induction false} ChainLess(prev: seq<nat>, cur: nat, i: nat, limit: nat)
    requires |prev| == WSIZE && i > 0 && ChainReaches(prev, cur, i, limit)
    ensures ChainReaches(prev, cur, i - 1, limit) && Nth(prev, cur, i) == prev[Nth(prev, cur, i - 1) % WSIZE]
    ensures limit < Nth(prev, cur, i) < Nth(prev, cur, i - 1)
    decreases i
  {
    if i > 1 { ChainLess(prev, prev[cur % WSIZE], i - 1, limit); }
  }

  lemma {:induction false} ChainFalls(prev: seq<nat>, cur: nat, i: nat, j: nat, limit: nat)
    requires |prev| == WSIZE && i <= j && ChainReaches(prev, cur, j, limit)
    ensures Nth(prev, cur, j) <= Nth(prev, cur, i) && ChainReaches(prev, cur, i, limit)
    decreases j
  {
    if i < j {
      ChainLess(prev, cur, j, limit);
      ChainFalls(prev, cur, i, j - 1, limit);
    }
  }

  /** Every string in the chains is reached from the head of its hash. */
  lemma {:induction false} OnChain(win: seq<byte>, prev: seq<nat>, head: seq<nat>, ins: nat, p: nat, h: nat, limit: nat)
    returns (i: nat)
    requires Linked(win, prev, head, ins) && 1 <= p < ins && ins <= p + WSIZE && limit < p && h == Hash3(win, p)
    ensures Nth(prev, head[h], i) == p && ChainReaches(prev, head[h], i, limit)
    decreases ins - p
  {
    hide Hash3;
    assert Entered(win, prev, head, ins, p);
    if head[h] == p {
      i := 0;
    } else {
      var q: nat :| Follows(win, prev, p, q, ins);
      i := OnChain(win, prev, head, ins, q, h, limit);
      ChainMore(prev, head[h], i, limit);
      i := i + 1;
    }
  }

  /** How many strings between p and s have the hash h. */
  function Between(win: seq<byte>, h: nat, p: nat, s: nat): (n: nat)
    requires s + 2 <= |win|
    decreases s
  {
    if s <= p + 1 then 0 else Between(win, h, p, s - 1) + if Hash3(win, s - 1) == h then 1 else 0
  }

  lemma {:induction false} BetweenSplit(win: seq<byte>, h: nat, p: nat, q: nat, s: nat)
    requires p < q < s && s + 2 <= |win|
    ensures Between(win, h, p, s)
         == Between(win, h, p, q) + (if Hash3(win, q) == h then 1 else 0) + Between(win, h, q, s)
    decreases s
  {
    hide Hash3;
    if q + 1 < s { BetweenSplit(win, h, p, q, s - 1); }
  }

  lemma {:induction false} BetweenNone(win: seq<byte>, h: nat, p: nat, s: nat)
    requires s + 2 <= |win| && forall m {:trigger Hash3(win, m)} :: p < m < s ==> Hash3(win, m) != h
    ensures Between(win, h, p, s) == 0
    decreases s
  {
    hide Hash3;
    if p + 1 < s { BetweenNone(win, h, p, s - 1); }
  }

  /** The chain leaves no string of the hash out. */
  lemma NoGap(win: seq<byte>, prev: seq<nat>, head: seq<nat>, ins: nat, h: nat, limit: nat, i: nat, m: nat)
    requires Linked(win, prev, head, ins) && h < HASH_SIZE && i > 0 && ChainReaches(prev, head[h], i, limit)
    requires limit < Nth(prev, head[h], i) < m < Nth(prev, head[h], i - 1) && m < ins && ins <= m + WSIZE
    ensures Hash3(win, m) != h
  {
    hide Hash3, Linked, Nth, ChainReaches;
    Sizes(win, prev, head, ins);
    ChainLess(prev, head[h], i, limit);
    if Hash3(win, m) == h {
      var j := OnChain(win, prev, head, ins, m, h, limit);
      if j < i { ChainFalls(prev, head[h], j, i - 1, limit); } else { ChainFalls(prev, head[h], i, j, limit); }
    }
  }

  lemma Sizes(win: seq<byte>, prev: seq<nat>, head: seq<nat>, ins: nat)
    requires Linked(win, prev, head, ins)
    ensures |win| == WINDOW_ALLOC && |prev| == WSIZE && |head| == HASH_SIZE && ins <= WINDOW_SIZE
  {
  }

  /** The i-th string of the chain has i - 1 strings of its hash between it and the head. */
  lemma {:induction false} Rank(win: seq<byte>, prev: seq<nat>, head: seq<nat>, s: nat, h: nat, limit: nat, i: nat,
                                ins: nat)
    requires ins == s + 1 && Linked(win, prev, head, ins) && h == Hash3(win, s) && head[h] == s
    requires i > 0 && ChainReaches(prev, s, i, limit) && ins <= Nth(prev, s, i) + WSIZE
    ensures Nth(prev, s, i) < s && Hash3(win, Nth(prev, s, i)) == h && Between(win, h, Nth(prev, s, i), s) == i - 1
    decreases i
  {
    hide Hash3, Between, Linked;
    Sizes(win, prev, head, ins);
    var p, q := Nth(prev, s, i), Nth(prev, s, i - 1);
    ChainLess(prev, s, i, limit);
    ChainFalls(prev, s, 0, i - 1, limit);
    forall m {:trigger Hash3(win, m)} | p < m < q ensures Hash3(win, m) != h {
      NoGap(win, prev, head, ins, h, limit, i, m);
    }
    BetweenNone(win, h, p, q);
    if i > 1 {
      Rank(win, prev, head, s, h, limit, i - 1, ins);
      BetweenSplit(win, h, p, q, s);
    }
    LinkHash(win, prev, head, ins, q, h);
  }

  lemma LinkHash(win: seq<byte>, prev: seq<nat>, head: seq<nat>, ins: nat, q: nat, h: nat)
    requires Linked(win, prev, head, ins) && 1 <= q < ins && ins <= q + WSIZE && prev[q % WSIZE] > 0
             && Hash3(win, q) == h
    ensures prev[q % WSIZE] < q && Hash3(win, prev[q % WSIZE]) == h
  {
    hide Hash3;
    assert PrevOk(win, prev, q);
  }

  /** The newest string is the head of its hash. */
  lemma NewestIsHead(win: seq<byte>, prev: seq<nat>, head: seq<nat>, s: nat, ins: nat)
    requires ins == s + 1 && Linked(win, prev, head, ins) && 1 <= s
    ensures s + 2 < |win| && head[Hash3(win, s)] == s
  {
    hide Hash3;
    assert Entered(win, prev, head, ins, s);
  }

  /** Strings with three bytes in common have the same hash. */
  lemma SameThree(win: seq<byte>, p: nat, s: nat)
    requires p < s && s + MAX_MATCH <= |win| && Common(win, p, s) >= 3
    ensures Hash3(win, p) == Hash3(win, s)
  {
  }

  /** A string in reach is at most as recent as the one the newest string links to. */
  lemma FoundOnChain(win: seq<byte>, prev: seq<nat>, head: seq<nat>, s: nat, p: nat, ins: nat, limit: nat)
    returns (i: nat)
    requires ins == s + 1 && Linked(win, prev, head, ins) && s + MAX_MATCH <= |win| && limit < p < s && ins <= p + WSIZE
    requires Common(win, p, s) >= 3
    ensures p <= prev[s % WSIZE] < s && ChainReaches(prev, prev[s % WSIZE], i, limit)
    ensures Nth(prev, prev[s % WSIZE], i) == p && Between(win, Hash3(win, s), p, s) == i
  {
    hide Hash3, Linked, Common, Between;
    Sizes(win, prev, head, ins);
    NewestIsHead(win, prev, head, s, ins);
    SameThree(win, p, s);
    i := OnChain(win, prev, head, ins, p, Hash3(win, s), limit);
    Rank(win, prev, head, s, Hash3(win, s), limit, i, ins);
    i := i - 1;
    ChainFalls(prev, prev[s % WSIZE], 0, i, limit);
  }

  /** No earlier string within reach has a longer match of three bytes or more, unless the
      search ended early with a nice one, or `chain` more recent strings have its hash.  At
      the limit itself only the most recent string is looked at.  Of equally long ones the
      search takes the most recent. */
  lemma LongestInReach(win: seq<byte>, prev: seq<nat>, head: seq<nat>, s: nat, best: Best, chain: nat, limit: nat,
                       p: nat, ins: nat)
    requires ins == s + 1 && Linked(win, prev, head, ins) && s + MAX_MATCH <= |win| && ins <= p + WSIZE
    requires 1 <= p < s && limit <= p && Common(win, p, s) >= 3
    requires Between(win, Hash3(win, s), p, s) < (if p == limit then 1 else chain)
    ensures prev[s % WSIZE] < s
    ensures var r := Search(win, prev, s, prev[s % WSIZE], best, chain, limit);
            && (r.length >= Common(win, p, s) || (r.length >= NICE_MATCH && r != best))
            && (r != best && r.start < p ==> Common(win, p, s) < r.length)
  {
    hide Hash3, Linked, Search, Common, Between, Improve;
    Sizes(win, prev, head, ins);
    var cur := prev[s % WSIZE];
    var i := FoundOnChain(win, prev, head, s, p, ins, if p == limit then limit - 1 else limit);
    if p == limit {
      FirstIsTried(win, prev, s, cur, best, chain, limit);
    } else {
      SearchIsLongest(win, prev, s, cur, best, chain, limit, i);
      SearchIsNearest(win, prev, s, cur, best, chain, limit, i);
    }
  }

  lemma FirstIsTried(win: seq<byte>, prev: seq<nat>, s: nat, cur: nat, best: Best, chain: nat, limit: nat)
    requires cur < s && s + MAX_MATCH <= |win| && |prev| == WSIZE
    ensures var r := Search(win, prev, s, cur, best, chain, limit);
            && (r.length >= Common(win, cur, s) || (r.length >= NICE_MATCH && r != best))
            && (r != best && r.start < cur ==> Common(win, cur, s) < r.length)
  {
    hide Common;
    var r := Improve(win, s, cur, best);
    var next := prev[cur % WSIZE];
    if !(r != best && r.length >= NICE_MATCH) && chain > 1 && limit < next < cur {
      SearchFinds(win, prev, s, next, r, chain - 1, limit);
    }
  }

  /** How many strings of a chain are looked at with a match of that length in hand. */
  ghost function ChainLength(prevLength: nat): (n: nat)
  {
    if prevLength >= GOOD_MATCH then MAX_CHAIN / 4 else MAX_CHAIN
  }

  /** The string at p is one the search for the string at s should not miss: it shares three
      bytes, is near enough, and not too many strings with its hash are nearer. */
  ghost predicate InReach(win: seq<byte>, s: nat, prevLength: nat, p: nat)
  {
    && 1 <= p < s && s - p <= MAX_DIST && s + MAX_MATCH <= |win| && Common(win, p, s) >= MIN_MATCH
    && Between(win, Hash3(win, s), p, s) < (if s - p == MAX_DIST then 1 else ChainLength(prevLength))
  }

  /** No string in reach shares more bytes than were found, or they are nice enough, and no
      more recent one shares as many. */
  ghost predicate NoneLonger(win: seq<byte>, s: nat, prevLength: nat, r: Best)
  {
    forall p: nat {:trigger InReach(win, s, prevLength, p)} :: InReach(win, s, prevLength, p) ==>
      && (r.length >= NICE_MATCH || r.length >= Common(win, p, s))
      && (r.length > prevLength && r.start < p ==> Common(win, p, s) < r.length)
  }

  lemma SearchedAll(win: seq<byte>, prev: seq<nat>, head: seq<nat>, s: nat, prevLength: nat, best: Best, limit: nat,
                    ins: nat, r: Best)
    requires ins == s + 1 && Linked(win, prev, head, ins) && s + MAX_MATCH <= |win| && prev[s % WSIZE] < s
    requires limit == if s > MAX_DIST then s - MAX_DIST else 0
    requires r == Search(win, prev, s, prev[s % WSIZE], best, ChainLength(prevLength), limit)
    requires best.length == prevLength
    ensures NoneLonger(win, s, prevLength, r)
  {
    hide Search, Hash3, Linked, Common, Between;
    forall p: nat | InReach(win, s, prevLength, p)
    ensures (r.length >= NICE_MATCH || r.length >= Common(win, p, s))
    && (r.length > prevLength && r.start < p ==> Common(win, p, s) < r.length) {
      LongestInReach(win, prev, head, s, best, ChainLength(prevLength), limit, p, ins);
    }
  }

  /** Where the newest string links to no string in reach, there is none. */
  lemma NoneInReach(win: seq<byte>, prev: seq<nat>, head: seq<nat>, s: nat, prevLength: nat, p: nat, ins: nat)
    requires ins == s + 1 && Linked(win, prev, head, ins) && InReach(win, s, prevLength, p)
    ensures prev[s % WSIZE] != 0 && s - prev[s % WSIZE] <= MAX_DIST
  {
    hide Hash3, Linked, Common, Between;
    var i := FoundOnChain(win, prev, head, s, p, ins, p - 1);
  }

  // ---- The fast search ----

  /** Compare from the third byte on, checking for the end only every eight bytes. */
  method Compare(window: array<byte>, cur: nat, s: nat) returns (len: nat)
    requires cur < s && s + MAX_MATCH < window.Length && Same(window[..], cur, s, 3)
    ensures len == Common(window[..], cur, s)
  {
    ghost var win := window[..];
    len := 2;
    var same := true;
    assert SameAt(win, cur, s, 2);
    while same && len < MAX_MATCH
      invariant 2 <= len <= MAX_MATCH && (same ==> len % 8 == 2)
      invariant Same(win, cur, s, len) && same == SameAt(win, cur, s, len)
      decreases MAX_MATCH - len, same
    {
      len, same := CompareEight(window, cur, s, len, win);
    }
    CommonIsFrom(win, cur, s, 0, len);
  }

  /** Eight comparisons, stopping at the first difference. */
  method CompareEight(window: array<byte>, cur: nat, s: nat, from: nat, ghost win: seq<byte>)
    returns (k: nat, same: bool)
    requires win == window[..] && cur < s && s + MAX_MATCH < window.Length && from + 8 <= MAX_MATCH
    requires Same(win, cur, s, from) && SameAt(win, cur, s, from)
    ensures from < k <= from + 8 && (same ==> k == from + 8)
    ensures Same(win, cur, s, k) && same == SameAt(win, cur, s, k)
  {
    k, same := from, true;
    while same && k < from + 8
      invariant from <= k <= from + 8 && (k == from ==> same)
      invariant Same(win, cur, s, k) && same == SameAt(win, cur, s, k)
      decreases from + 8 - k, same
    {
      SameMore(win, cur, s, k);
      k := k + 1;
      same := window[s + k] == window[cur + k];
    }
  }

  /** Equal hashes and two equal bytes make the third byte equal. */
  lemma ThreeSame(win: seq<byte>, cur: nat, s: nat)
    requires cur < s && s + 2 < |win| && Hash3(win, cur) == Hash3(win, s) && win[cur] == win[s]
             && win[cur + 1] == win[s + 1]
    ensures Same(win, cur, s, 3)
  {
    hide Hash, Update;
    ThirdByte(win[s], win[s + 1], win[cur + 2], win[s + 2], HASH_BITS);
    assert SameAt(win, cur, s, 0) && SameAt(win, cur, s, 1) && SameAt(win, cur, s, 2);
  }

  /** One string of the chain: skip it if it cannot be better than `best`. */
  method Try(window: array<byte>, cur: nat, s: nat, best: Best, ghost win: seq<byte>) returns (r: Best)
    requires win == window[..] && cur < s && s + MAX_MATCH < window.Length && Hash3(win, cur) == Hash3(win, s)
    requires 1 <= best.length < MAX_MATCH
    ensures r == Improve(win, s, cur, best)
  {
    hide Hash3;
    var n := best.length;
    if window[cur + n] != window[s + n] {
      DifferAt(win, cur, s, n);
      return best;
    }
    if window[cur + n - 1] != window[s + n - 1] {
      DifferAt(win, cur, s, n - 1);
      return best;
    }
    if window[cur] != window[s] {
      DifferAt(win, cur, s, 0);
      return best;
    }
    if window[cur + 1] != window[s + 1] {
      DifferAt(win, cur, s, 1);
      return best;
    }
    ThreeSame(win, cur, s);
    var len := Compare(window, cur, s);
    r := if len > n then Best(len, cur) else best;
  }

  /** prev[] leads from a string in reach to none, or to an older one with the same hash. */
  lemma NextOnChain(win: seq<byte>, prev: seq<nat>, head: seq<nat>, s: nat, cur: nat)
    requires Linked(win, prev, head, s + 1) && 1 <= cur < s && s - cur <= MAX_DIST && Hash3(win, cur) == Hash3(win, s)
    ensures prev[cur % WSIZE] == 0 || (prev[cur % WSIZE] < cur && Hash3(win, prev[cur % WSIZE]) == Hash3(win, s))
  {
    assert PrevOk(win, prev, cur);
  }

  /** longest_match. */
  method LongestMatch(window: array<byte>, prev: array<nat>, s: nat, curMatch: nat, prevLength: nat, matchStart: int,
                      ghost head: seq<nat>)
    returns (r: Best)
    requires s < WINDOW_SIZE && Linked(window[..], prev[..], head, s + 1) && 1 <= prevLength < NICE_MATCH
    requires 1 <= curMatch < s && s - curMatch <= MAX_DIST && Hash3(window[..], curMatch) == Hash3(window[..], s)
    ensures r == Search(window[..], prev[..], s, curMatch, Best(prevLength, matchStart),
                        if prevLength >= GOOD_MATCH then MAX_CHAIN / 4 else MAX_CHAIN,
                        if s > MAX_DIST then s - MAX_DIST else 0)
  {
    ghost var win, links := window[..], prev[..];
    var chain := MAX_CHAIN;
    var limit := if s > MAX_DIST then s - MAX_DIST else 0;
    if prevLength >= GOOD_MATCH {
      chain := chain / 4;
    }
    var cur := curMatch;
    r := Best(prevLength, matchStart);
    ghost var total := Search(win, links, s, cur, r, chain, limit);
    while true
      invariant 1 <= chain && 1 <= cur < s && s - cur <= MAX_DIST && Hash3(win, cur) == Hash3(win, s)
                && 1 <= r.length < NICE_MATCH
      invariant Search(win, links, s, cur, r, chain, limit) == total
      decreases chain
    {
      var next := Try(window, cur, s, r, win);
      NextOnChain(win, links, head, s, cur);
      if next != r && next.length >= NICE_MATCH { return next; }
      r := next;
      var older := prev[cur % WSIZE];
      if older <= limit { break; }
      chain := chain - 1;
      if chain == 0 { break; }
      cur := older;
    }
  }

  /** r is the match in hand, or a longer one within reach. */
  ghost predicate RealMatch(win: seq<byte>, s: nat, best: Best, r: Best)
  {
    && best.length <= r.length
    && (r.length > best.length ==> 0 <= r.start < s && s - r.start <= MAX_DIST && r.length <= MAX_MATCH
                                   && Same(win, r.start, s, r.length))
  }

  lemma SearchIsReal(win: seq<byte>, prev: seq<nat>, s: nat, cur: nat, best: Best, chain: nat, limit: nat, r: Best)
    requires cur < s && s + MAX_MATCH <= |win| && |prev| == WSIZE && s - cur <= MAX_DIST && s - limit <= MAX_DIST
    requires r == Search(win, prev, s, cur, best, chain, limit)
    ensures RealMatch(win, s, best, r)
  {
    SearchFinds(win, prev, s, cur, best, chain, limit);
    if r.length > best.length { CommonSame(win, r.start, s); }
  }

  /** longest_match as its caller needs it: the match is there, none in reach is longer, and
      none that is nearer as long. */
  method FindLonger(window: array<byte>, prev: array<nat>, s: nat, curMatch: nat, prevLength: nat, matchStart: int,
                    ghost head: seq<nat>)
    returns (r: Best)
    requires s < WINDOW_SIZE && Whole(Linked(window[..], prev[..], head, s + 1)) && 1 <= prevLength < NICE_MATCH
    requires 1 <= curMatch < s && s - curMatch <= MAX_DIST && Hash3(window[..], curMatch) == Hash3(window[..], s)
    requires prev.Length == WSIZE && prev[s % WSIZE] == curMatch
    ensures Whole(RealMatch(window[..], s, Best(prevLength, matchStart), r))
    ensures Whole(NoneLonger(window[..], s, prevLength, r))
  {
    hide Hash3, RealMatch, NoneLonger, Search;
    ghost var limit := if s > MAX_DIST then s - MAX_DIST else 0;
    Sizes(window[..], prev[..], head, s + 1);
    r := LongestMatch(window, prev, s, curMatch, prevLength, matchStart, head);
    SearchIsReal(window[..], prev[..], s, curMatch, Best(prevLength, matchStart), ChainLength(prevLength), limit, r);
    SearchedAll(window[..], prev[..], head, s, prevLength, Best(prevLength, matchStart), limit, s + 1, r);
  }
}
