/** The hash chains of gzip.c: head[] has the latest string of each hash, prev[] the
    one before it, both as window indices with 0 for none. */
module Chains {
  import opened Bits
  import opened Hashing

  const WSIZE: nat := 0x8000
  const WINDOW_SIZE: nat := 0x10000
  const MAX_MATCH: nat := 258
  const MIN_MATCH: nat := 3
  const MIN_LOOKAHEAD: nat := 262
  const MAX_DIST: nat := 32506

  /** The window and MAX_MATCH bytes behind it, which are read but never used. */
  const WINDOW_ALLOC: nat := WINDOW_SIZE + MAX_MATCH

  function Hash3(win: seq<byte>, p: nat): (h: nat)
    requires p + 2 < |win|
    ensures h < HASH_SIZE
  {
    Hash(win[p], win[p + 1], win[p + 2])
  }

  /** q is no string, or an earlier one with the same hash as p. */
  ghost predicate LinkOk(win: seq<byte>, p: nat, q: nat)
  {
    q == 0 || (q < p && p + 2 < |win| && Hash3(win, q) == Hash3(win, p))
  }

  ghost predicate PrevOk(win: seq<byte>, prev: seq<nat>, p: nat)
  {
    |prev| == WSIZE && LinkOk(win, p, prev[p % WSIZE])
  }

  /** The head for hash h among the strings before ins. */
  ghost predicate HeadOk(win: seq<byte>, head: seq<nat>, ins: nat, h: nat)
  {
    h < |head| && (head[h] == 0 || (head[h] < ins && head[h] + 2 < |win| && Hash3(win, head[h]) == h))
  }

  /** The string at q has the same hash as p and links to it. */
  ghost predicate Follows(win: seq<byte>, prev: seq<nat>, p: nat, q: nat, ins: nat)
  {
    p < q < ins && q + 2 < |win| && |prev| == WSIZE && Hash3(win, q) == Hash3(win, p) && prev[q % WSIZE] == p
  }

  /** The string at p is the head of its hash, or a later string links to it. */
  ghost predicate Entered(win: seq<byte>, prev: seq<nat>, head: seq<nat>, ins: nat, p: nat)
  {
    && p + 2 < |win| && Hash3(win, p) < |head|
    && (head[Hash3(win, p)] == p || exists q: nat :: Follows(win, prev, p, q, ins))
  }

  /** The strings of the last WSIZE before ins are in the chains, except that at 0. */
  ghost predicate AllEntered(win: seq<byte>, prev: seq<nat>, head: seq<nat>, ins: nat)
  {
    forall p {:trigger Entered(win, prev, head, ins, p)} :: 1 <= p < ins && ins <= p + WSIZE ==>
      Entered(win, prev, head, ins, p)
  }

  /** The chains of the strings before ins: every link leads to an older string with the
      same hash, and no string of the last WSIZE is left out. */
  ghost predicate Linked(win: seq<byte>, prev: seq<nat>, head: seq<nat>, ins: nat)
  {
    && |win| == WINDOW_ALLOC && |prev| == WSIZE && |head| == HASH_SIZE && ins <= WINDOW_SIZE
    && (forall p {:trigger PrevOk(win, prev, p)} :: 1 <= p < ins && ins <= p + WSIZE ==> PrevOk(win, prev, p))
    && (forall h {:trigger HeadOk(win, head, ins, h)} :: 0 <= h < HASH_SIZE ==> HeadOk(win, head, ins, h))
    && AllEntered(win, prev, head, ins)
  }

  lemma LinkedStart(win: seq<byte>, prev: seq<nat>, head: seq<nat>)
    requires |win| == WINDOW_ALLOC && |prev| == WSIZE && |head| == HASH_SIZE
             && forall h :: 0 <= h < HASH_SIZE ==> head[h] == 0
    ensures Linked(win, prev, head, 0)
  {
  }

  /** Strings less than WSIZE apart have different slots in prev[]. */
  lemma OtherSlot(p: nat, s: nat)
    requires p < s < p + WSIZE
    ensures p % WSIZE != s % WSIZE
  {
  }

  lemma InsertPrev(win: seq<byte>, prev: seq<nat>, s: nat, q: nat, p: nat)
    requires |prev| == WSIZE && p < s < p + WSIZE && PrevOk(win, prev, p)
    ensures PrevOk(win, prev[s % WSIZE := q], p)
  {
    OtherSlot(p, s);
  }

  lemma InsertSelf(win: seq<byte>, prev: seq<nat>, s: nat, q: nat)
    requires |prev| == WSIZE && LinkOk(win, s, q)
    ensures PrevOk(win, prev[s % WSIZE := q], s)
  {
  }

  lemma InsertHead(win: seq<byte>, head: seq<nat>, s: nat, h: nat, g: nat)
    requires s + 2 < |win| && h < |head| && h == Hash3(win, s) && HeadOk(win, head, s, g)
    ensures HeadOk(win, head[h := s], s + 1, g)
  {
  }

  lemma InsertEntered(win: seq<byte>, prev: seq<nat>, head: seq<nat>, s: nat, h: nat, p: nat, ins: nat)
    requires |prev| == WSIZE && p < s < p + WSIZE && s + 2 < |win| && h == Hash3(win, s) && h < |head|
    requires Entered(win, prev, head, s, p) && ins == s + 1
    ensures Entered(win, prev[s % WSIZE := head[h]], head[h := s], ins, p)
  {
    hide Hash3;
    var prev' := prev[s % WSIZE := head[h]];
    if head[Hash3(win, p)] == p {
      if Hash3(win, p) == h { assert Follows(win, prev', p, s, ins); }
    } else {
      var q: nat :| Follows(win, prev, p, q, s);
      OtherSlot(q, s);
      assert Follows(win, prev', p, q, ins);
    }
  }

  lemma InsertAll(win: seq<byte>, prev: seq<nat>, head: seq<nat>, s: nat, h: nat, ins: nat)
    requires |prev| == WSIZE && |head| == HASH_SIZE && s + 2 < |win| && h == Hash3(win, s)
    requires AllEntered(win, prev, head, s) && ins == s + 1
    ensures AllEntered(win, prev[s % WSIZE := head[h]], head[h := s], ins)
  {
    hide Hash3;
    var prev', head' := prev[s % WSIZE := head[h]], head[h := s];
    forall p | 1 <= p < ins && ins <= p + WSIZE ensures Entered(win, prev', head', ins, p) {
      if p < s {
        assert Entered(win, prev, head, s, p);
        InsertEntered(win, prev, head, s, h, p, ins);
      }
    }
  }

  /** INSERT_STRING(s): the old head becomes s's predecessor. */
  lemma InsertKeeps(win: seq<byte>, prev: seq<nat>, head: seq<nat>, s: nat, h: nat, ins: nat)
    requires Linked(win, prev, head, s) && s < WINDOW_SIZE && h == Hash3(win, s) && ins == s + 1
    ensures Linked(win, prev[s % WSIZE := head[h]], head[h := s], ins)
    ensures LinkOk(win, s, head[h])
  {
    hide Hash3, PrevOk, AllEntered;
    var prev', head' := prev[s % WSIZE := head[h]], head[h := s];
    InsertAll(win, prev, head, s, h, ins);
    assert HeadOk(win, head, s, h);
    forall p | 1 <= p < ins && ins <= p + WSIZE ensures PrevOk(win, prev', p) {
      if p < s {
        assert PrevOk(win, prev, p);
        InsertPrev(win, prev, s, head[h], p);
      } else {
        InsertSelf(win, prev, s, head[h]);
      }
    }
    forall g | 0 <= g < HASH_SIZE ensures HeadOk(win, head', ins, g) {
      assert HeadOk(win, head, s, g);
      InsertHead(win, head, s, h, g);
    }
  }

  /** The chains only depend on bytes that have been inserted. */
  lemma SameStrings(win: seq<byte>, win': seq<byte>, prev: seq<nat>, head: seq<nat>, ins: nat)
    requires Linked(win, prev, head, ins) && |win'| == |win| && (ins > 0 ==> win[..ins + 2] == win'[..ins + 2])
    ensures Linked(win', prev, head, ins)
  {
    hide Hash3, AllEntered;
    if ins > 0 { SameEntered(win, win', prev, head, ins); } else { NoneEntered(win', prev, head); }
    forall p | 1 <= p < ins && ins <= p + WSIZE ensures PrevOk(win', prev, p) {
      assert PrevOk(win, prev, p);
      SameLink(win, win', ins, p, prev[p % WSIZE]);
    }
    forall h | 0 <= h < HASH_SIZE ensures HeadOk(win', head, ins, h) {
      assert HeadOk(win, head, ins, h);
      if head[h] != 0 { SameHash(win, win', ins, head[h]); }
    }
  }

  lemma SameHash(win: seq<byte>, win': seq<byte>, ins: nat, p: nat)
    requires p < ins && ins + 2 <= |win| == |win'| && win[..ins + 2] == win'[..ins + 2]
    ensures Hash3(win, p) == Hash3(win', p)
  {
    var n := ins + 2;
    assert win[p] == win[..n][p] && win[p + 1] == win[..n][p + 1] && win[p + 2] == win[..n][p + 2];
    assert win'[p] == win'[..n][p] && win'[p + 1] == win'[..n][p + 1] && win'[p + 2] == win'[..n][p + 2];
  }

  lemma NoneEntered(win: seq<byte>, prev: seq<nat>, head: seq<nat>)
    ensures AllEntered(win, prev, head, 0)
  {
  }

  lemma SameEntered(win: seq<byte>, win': seq<byte>, prev: seq<nat>, head: seq<nat>, ins: nat)
    requires ins + 2 <= |win| == |win'| && win[..ins + 2] == win'[..ins + 2] && AllEntered(win, prev, head, ins)
    ensures AllEntered(win', prev, head, ins)
  {
    hide Hash3;
    forall p | 1 <= p < ins && ins <= p + WSIZE ensures Entered(win', prev, head, ins, p) {
      assert Entered(win, prev, head, ins, p);
      SameHash(win, win', ins, p);
      if head[Hash3(win, p)] != p {
        var q: nat :| Follows(win, prev, p, q, ins);
        SameHash(win, win', ins, q);
        assert Follows(win', prev, p, q, ins);
      }
    }
  }

  lemma SameLink(win: seq<byte>, win': seq<byte>, ins: nat, p: nat, q: nat)
    requires p < ins && ins + 2 <= |win| == |win'| && win[..ins + 2] == win'[..ins + 2] && LinkOk(win, p, q)
    ensures LinkOk(win', p, q)
  {
    if q != 0 {
      SameHash(win, win', ins, p);
      SameHash(win, win', ins, q);
    }
  }

  // ---- The slide ----

  function Slid(m: nat): (r: nat)
  {
    if m >= WSIZE then m - WSIZE else 0
  }

  ghost predicate AllSlid(t: seq<nat>, t': seq<nat>)
  {
    |t'| == |t| && forall i :: 0 <= i < |t| ==> t'[i] == Slid(t[i])
  }

  /** win' is win with its upper half moved down. */
  ghost predicate Moved(win: seq<byte>, win': seq<byte>)
  {
    |win| == |win'| == WINDOW_ALLOC && forall i :: 0 <= i < WSIZE ==> win'[i] == win[i + WSIZE]
  }

  lemma MovedHash(win: seq<byte>, win': seq<byte>, p: nat)
    requires Moved(win, win') && p + 2 < WSIZE
    ensures Hash3(win', p) == Hash3(win, p + WSIZE)
  {
  }

  lemma SlideLink(win: seq<byte>, win': seq<byte>, p: nat, q: nat)
    requires Moved(win, win') && p + 2 < WSIZE && LinkOk(win, p + WSIZE, q)
    ensures LinkOk(win', p, Slid(q))
  {
    MovedHash(win, win', p);
    if q >= WSIZE { MovedHash(win, win', q - WSIZE); }
  }

  lemma SameSlot(p: nat)
    ensures (p + WSIZE) % WSIZE == p % WSIZE
  {
  }

  lemma SlidePrev(win: seq<byte>, win': seq<byte>, prev: seq<nat>, prev': seq<nat>, p: nat)
    requires Moved(win, win') && AllSlid(prev, prev') && p + 2 < WSIZE && PrevOk(win, prev, p + WSIZE)
    ensures PrevOk(win', prev', p)
  {
    SameSlot(p);
    SlideLink(win, win', p, prev[p % WSIZE]);
  }

  lemma SlideHead(win: seq<byte>, win': seq<byte>, head: seq<nat>, head': seq<nat>, ins: nat, h: nat)
    requires Moved(win, win') && AllSlid(head, head') && WSIZE <= ins && ins + 1 < WINDOW_SIZE
             && HeadOk(win, head, ins, h)
    ensures HeadOk(win', head', ins - WSIZE, h)
  {
    if head[h] >= WSIZE { MovedHash(win, win', head[h] - WSIZE); }
  }

  lemma SlideFollows(win: seq<byte>, win': seq<byte>, prev: seq<nat>, prev': seq<nat>, p: nat, q: nat, ins: nat)
    requires Moved(win, win') && |prev| == WSIZE && AllSlid(prev, prev') && ins + WSIZE + 1 < WINDOW_SIZE
    requires p < q && Follows(win, prev, p + WSIZE, q + WSIZE, ins + WSIZE)
    ensures Follows(win', prev', p, q, ins)
  {
    hide Hash3;
    SameSlot(q);
    MovedHash(win, win', p);
    MovedHash(win, win', q);
  }

  lemma SlideEntered(win: seq<byte>, win': seq<byte>, prev: seq<nat>, prev': seq<nat>, head: seq<nat>, head': seq<nat>,
                     ins: nat)
    requires AllEntered(win, prev, head, ins + WSIZE) && ins + WSIZE + 1 < WINDOW_SIZE
    requires |prev| == WSIZE && |head| == HASH_SIZE
    requires Moved(win, win') && AllSlid(prev, prev') && AllSlid(head, head')
    ensures AllEntered(win', prev', head', ins)
  {
    hide Hash3;
    forall p | 1 <= p < ins && ins <= p + WSIZE ensures Entered(win', prev', head', ins, p) {
      var old_ := p + WSIZE;
      assert Entered(win, prev, head, ins + WSIZE, old_);
      MovedHash(win, win', p);
      if head[Hash3(win, old_)] != old_ {
        var q: nat :| Follows(win, prev, old_, q, ins + WSIZE);
        SlideFollows(win, win', prev, prev', p, q - WSIZE, ins);
      }
    }
  }

  /** Sliding the window and all links by WSIZE keeps the chains. */
  lemma SlideKeeps(win: seq<byte>, win': seq<byte>, prev: seq<nat>, prev': seq<nat>, head: seq<nat>, head': seq<nat>,
                   ins: nat)
    requires Linked(win, prev, head, ins) && WSIZE <= ins && ins + 1 < WINDOW_SIZE
    requires Moved(win, win') && AllSlid(prev, prev') && AllSlid(head, head')
    ensures Linked(win', prev', head', ins - WSIZE)
  {
    hide AllEntered, Hash3;
    var i := ins - WSIZE;
    SlideEntered(win, win', prev, prev', head, head', i);
    forall p | 1 <= p < i && i <= p + WSIZE ensures PrevOk(win', prev', p) {
      assert PrevOk(win, prev, p + WSIZE);
      SlidePrev(win, win', prev, prev', p);
    }
    forall h | 0 <= h < HASH_SIZE ensures HeadOk(win', head', i, h) {
      assert HeadOk(win, head, ins, h);
      SlideHead(win, win', head, head', ins, h);
    }
  }
}
