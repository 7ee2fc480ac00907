/** What the lazy matching of gzip.c comes to, apart from how it is done: which matches a
    search must not miss, and which tokens follow from what the searches found. */
module LazyMatching {
  import opened Bits
  import opened Rfc1951
  import opened StoredBound
  import opened Chains
  import opened LongestMatches
  import opened Windows
  import BF = BlockFormat

  const MAX_LAZY: nat := 16

  // ---- A search ----

  function Min(a: int, b: int): (m: int) { if a < b then a else b }

  /** The n bytes found are as many as the string at p shares with the current one, as far
      as there is input; NICE_MATCH bytes are enough, and three far away are not taken.  If
      p is nearer than what was found, it shares fewer, except where the input ends. */
  ghost predicate Unbeaten(win: seq<byte>, s: nat, lookahead: nat, prevLength: nat, p: nat, n: nat, start: int)
    requires p <= s && s + MAX_MATCH <= |win|
  {
    var shared := Min(Common(win, p, s), lookahead);
    && (n >= Min(shared, NICE_MATCH) || (shared == MIN_MATCH && n == MIN_MATCH - 1 && s - start > TOO_FAR))
    && (n >= MIN_MATCH && n > prevLength && start < p ==> shared < n || n == lookahead)
  }

  /** The search has missed no string in reach. */
  ghost predicate Searched(win: seq<byte>, s: nat, lookahead: nat, prevLength: nat, n: nat, start: int)
  {
    forall p: nat {:trigger InReach(win, s, prevLength, p)} :: InReach(win, s, prevLength, p) ==>
      Unbeaten(win, s, lookahead, prevLength, p, n, start)
  }

  lemma LongEnough(win: seq<byte>, s: nat, lookahead: nat, prevLength: nat, r: Best, n: nat, start: int)
    requires Whole(NoneLonger(win, s, prevLength, r)) && lookahead > 0 && start == r.start
    requires var m := Min(r.length, lookahead);
             n == if m == MIN_MATCH && s - start > TOO_FAR then m - 1 else m
    ensures Whole(Searched(win, s, lookahead, prevLength, n, start))
  {
    hide Common, Between, Hash3;
  }

  lemma NothingThere(win: seq<byte>, prev: seq<nat>, head: seq<nat>, s: nat, lookahead: nat, prevLength: nat, n: nat,
                     start: int, ins: nat)
    requires ins == s + 1 && Whole(Linked(win, prev, head, ins)) && |prev| == WSIZE
    requires prev[s % WSIZE] == 0 || s - prev[s % WSIZE] > MAX_DIST
    ensures Whole(Searched(win, s, lookahead, prevLength, n, start))
  {
    hide InReach, Linked, Unbeaten;
    forall p: nat | InReach(win, s, prevLength, p) ensures false {
      NoneInReach(win, prev, head, s, prevLength, p, ins);
    }
  }

  /** With a match shorter than MAX_LAZY in hand the longest one for the current string has
      been looked for, and otherwise none. */
  ghost predicate Looked(win: seq<byte>, s: nat, lookahead: nat, matchLength: nat, n: nat, start: int)
  {
    if matchLength < MAX_LAZY then Searched(win, s, lookahead, matchLength, n, start) else n == MIN_MATCH - 1
  }

  // ---- Lazy matching ----

  ghost predicate FoundIn(win: seq<byte>, input: seq<byte>, base: nat, s: nat, lookahead: nat, pos: nat,
                          at: nat, matchLength: nat, n: nat, a: int)
  {
    && Holds(win, input, base, s + lookahead, pos) && (pos == |input| || lookahead >= MIN_LOOKAHEAD)
    && (base > 0 ==> s >= MAX_DIST) && at == base + s && Looked(win, s, lookahead, matchLength, n, a - base)
  }

  /** A search for the string of the input at `at` found n bytes at a.  The window held all
      that comes before, or at least MAX_DIST bytes of it, and all that follows, or enough of
      it for any match. */
  ghost predicate Found(input: seq<byte>, at: nat, matchLength: nat, n: nat, a: int)
  {
    exists win, base, s, lookahead, pos :: FoundIn(win, input, base, s, lookahead, pos, at, matchLength, n, a)
  }

  /** The result of a search: n bytes at a. */
  datatype Find = Find(n: nat, a: int)

  /** What is waiting between two rounds: nothing, or the byte at e, and with it a match for
      the string at e if `length` is long enough for one. */
  datatype Hand = Hand(length: nat, waiting: bool, a: int, e: nat)
  {
    function At(): nat { e + BF.Bit(waiting) }
  }

  /** The lazy rule: the match in hand is taken if that found at the next byte is no longer,
      and otherwise the byte in hand goes out as a literal. */
  ghost predicate Goes(input: seq<byte>, h: Hand, f: Find, h': Hand, ts: seq<Token>, ts': seq<Token>)
  {
    && Found(input, h.At(), h.length, f.n, f.a)
    && if h.length >= MIN_MATCH && f.n <= h.length then
         && h' == Hand(MIN_MATCH - 1, false, f.a, h.e + h.length)
         && h.a < h.e && ts' == ts + [Match(h.length, h.e - h.a)]
       else
         && h' == Hand(f.n, true, f.a, h.At())
         && (h.waiting ==> h.e < |input|) && ts' == ts + if h.waiting then [Literal(input[h.e])] else []
  }

  /** The searches fs, one after the other, lead to the tokens ts with h in hand. */
  ghost predicate Lazy(input: seq<byte>, fs: seq<Find>, h: Hand, ts: seq<Token>)
    decreases |fs|, 1
  {
    if fs == [] then h == Hand(MIN_MATCH - 1, false, 0, 0) && ts == []
    else exists h0, ts0 :: LastRound(input, fs, h0, ts0, h, ts)
  }

  ghost predicate LastRound(input: seq<byte>, fs: seq<Find>, h0: Hand, ts0: seq<Token>, h: Hand, ts: seq<Token>)
    requires fs != []
    decreases |fs|, 0
  {
    Lazy(input, fs[..|fs| - 1], h0, ts0) && Goes(input, h0, fs[|fs| - 1], h, ts0, ts)
  }

  lemma LazyMore(input: seq<byte>, fs: seq<Find>, h: Hand, ts: seq<Token>, f: Find, h': Hand, ts': seq<Token>)
    requires Lazy(input, fs, h, ts) && Goes(input, h, f, h', ts, ts')
    ensures Lazy(input, fs + [f], h', ts')
  {
    hide Goes;
    var more := fs + [f];
    assert more[..|more| - 1] == fs && more[|more| - 1] == f;
    assert LastRound(input, more, h, ts, h', ts');
  }

  /** The searches fs of the lazy matching go through the whole input and lead to the tokens
      ts; a byte still in hand at the end is the last literal. */
  ghost predicate LazyAll(input: seq<byte>, fs: seq<Find>, ts: seq<Token>)
  {
    exists h, ts0 :: LazyTo(input, fs, h, ts0, ts)
  }

  ghost predicate LazyTo(input: seq<byte>, fs: seq<Find>, h: Hand, ts0: seq<Token>, ts: seq<Token>)
  {
    && Lazy(input, fs, h, ts0) && h.At() == |input| && (h.waiting ==> h.e < |input|)
    && ts == ts0 + if h.waiting then [Literal(input[h.e])] else []
  }
}
