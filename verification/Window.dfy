/** The sliding window of gzip.c: fill_window, INSERT_STRING and what they keep. */
module Windows {
  import opened Bits
  import opened Hashing
  import opened Chains
  import opened Sources

  /** The first `end` bytes of the window are the input from base on. */
  ghost predicate Holds(win: seq<byte>, input: seq<byte>, base: nat, end: nat, pos: nat)
  {
    && end <= WINDOW_SIZE <= |win| && base + end == pos <= |input| && win[..end] == input[base..pos]
  }

  /** The window holds the input up to where reading has got, the whole of it at the end
      of the file.  A block that began before the window is a long one, and a window that
      has been moved reaches back at least MAX_DIST bytes. */
  ghost predicate DataOk(win: seq<byte>, input: seq<byte>, base: nat, strstart: nat, lookahead: nat, pos: nat,
                         eofile: bool, blockStart: int)
  {
    && Whole(Holds(win, input, base, strstart + lookahead, pos)) && (eofile ==> pos == |input|)
    && 0 <= base + blockStart && blockStart <= strstart && (blockStart < 0 ==> strstart >= MAX_DIST)
    && (base > 0 ==> strstart >= MAX_DIST)
  }

  lemma HoldsAt(win: seq<byte>, input: seq<byte>, base: nat, end: nat, pos: nat, i: nat)
    requires Holds(win, input, base, end, pos) && i < end
    ensures win[i] == input[base + i]
  {
    assert win[..end][i] == input[base..pos][i];
  }

  lemma HoldsMore(win: seq<byte>, win': seq<byte>, input: seq<byte>, base: nat, end: nat, pos: nat, n: nat)
    requires Holds(win, input, base, end, pos) && end + n <= WINDOW_SIZE && pos + n <= |input| && |win'| == |win|
    requires win'[..end] == win[..end] && win'[end..end + n] == input[pos..pos + n]
    ensures Holds(win', input, base, end + n, pos + n)
  {
    assert win'[..end + n] == win'[..end] + win'[end..end + n];
    assert input[base..pos + n] == input[base..pos] + input[pos..pos + n];
  }

  lemma HoldsSlid(win: seq<byte>, win': seq<byte>, input: seq<byte>, base: nat, end: nat, pos: nat)
    requires Holds(win, input, base, end, pos) && WSIZE <= end && Moved(win, win')
    ensures Holds(win', input, base + WSIZE, end - WSIZE, pos)
  {
    forall i | 0 <= i < end - WSIZE ensures win'[i] == input[base + WSIZE + i] {
      HoldsAt(win, input, base, end, pos, i + WSIZE);
    }
  }

  lemma PrefixOf<T>(a: seq<T>, b: seq<T>, n: nat, m: nat)
    requires m <= n <= |a| && n <= |b| && a[..n] == b[..n]
    ensures a[..m] == b[..m]
  {
    assert a[..m] == a[..n][..m] && b[..m] == b[..n][..m];
  }

  lemma MovedAt(win: seq<byte>, win': seq<byte>, i: nat)
    requires Moved(win, win') && WSIZE <= i < WINDOW_SIZE
    ensures win'[i - WSIZE] == win[i]
  {
  }

  /** Subtract WSIZE from every link of a table. */
  method SlideTable(t: array<nat>)
    modifies t
    ensures AllSlid(old(t[..]), t[..])
  {
    var n := 0;
    while n < t.Length
      invariant 0 <= n <= t.Length
      invariant forall i :: 0 <= i < n ==> t[i] == Slid(old(t[i]))
      invariant forall i :: n <= i < t.Length ==> t[i] == old(t[i])
    {
      var m := t[n];
      t[n] := if m >= WSIZE then m - WSIZE else 0;
      n := n + 1;
    }
  }

  method MoveDown(window: array<byte>)
    requires window.Length == WINDOW_ALLOC
    modifies window
    ensures Moved(old(window[..]), window[..])
  {
    forall i | 0 <= i < WSIZE {
      window[i] := window[i + WSIZE];
    }
  }

  class Window {
    const window: array<byte>
    const prev: array<nat>
    const head: array<nat>
    const src: Source
    var strstart: nat
    var lookahead: nat
    var insH: nat
    var eofile: bool
    var matchStart: int
    var blockStart: int
    ghost var base: nat   // position in the input of window[0]

    ghost predicate Shape()
    {
      window.Length == WINDOW_ALLOC && prev.Length == WSIZE && head.Length == HASH_SIZE && prev != head
    }

    ghost predicate Data()
      reads this`base, this`strstart, this`lookahead, this`eofile, this`blockStart, window, src`pos
    {
      DataOk(window[..], src.input, base, strstart, lookahead, src.pos, eofile, blockStart)
    }

    /** The strings before ins are in the chains; as long as more input may follow,
        all their bytes have been read. */
    ghost predicate Chained(ins: nat)
      reads this`strstart, this`lookahead, this`eofile, window, prev, head
    {
      Whole(Linked(window[..], prev[..], head[..], ins)) && (!eofile && ins > 0 ==> ins + 1 < strstart + lookahead)
    }

    /** Position in the input of the current string. */
    ghost function At(): nat
      reads this`base, this`strstart
    {
      base + strstart
    }

    /** Fresh buffers: only head[] is cleared. */
    constructor (src: Source)
      requires src.pos == 0
      ensures Shape() && fresh(window) && fresh(prev) && fresh(head) && this.src == src
      ensures strstart == 0 && lookahead == 0 && insH == 0 && !eofile && blockStart == 0 && base == 0 && Chained(0)
    {
      this.src := src;
      window := new byte[WINDOW_ALLOC];
      prev := new nat[WSIZE];
      head := new nat[HASH_SIZE](_ => 0);
      strstart, lookahead, insH, eofile, matchStart, blockStart, base := 0, 0, 0, false, 0, 0, 0;
      new;
      LinkedStart(window[..], prev[..], head[..]);
    }

    /** Read more input behind the lookahead. */
    method ReadMore(more: nat, ghost primed: bool)
      requires primed ==> Whole(Ready(strstart)) && lookahead >= 2
      requires Shape() && Data() && Chained(strstart) && !eofile && 1 <= more
               && strstart + lookahead + more <= WINDOW_SIZE
      modifies this`lookahead, this`eofile, window, src
      ensures Data() && Chained(strstart) && lookahead >= old(lookahead) && (primed ==> Whole(Ready(strstart)))
      ensures if eofile then lookahead == old(lookahead) else src.pos > old(src.pos)
    {
      ghost var win, pos, end := window[..], src.pos, strstart + lookahead;
      var n := src.Read(window, strstart + lookahead, more);
      HoldsMore(win, window[..], src.input, base, end, pos, n);
      SameAfterRead(win, window[..], end);
      if primed {
        assert window[strstart] == window[..end][strstart] && window[strstart + 1] == window[..end][strstart + 1];
        assert win[strstart] == win[..end][strstart] && win[strstart + 1] == win[..end][strstart + 1];
      }
      if n == 0 {
        eofile := true;
      } else {
        lookahead := lookahead + n;
      }
    }

    lemma SameAfterRead(win: seq<byte>, win': seq<byte>, end: nat)
      requires |win| == |win'| == WINDOW_ALLOC && end <= WINDOW_SIZE && win'[..end] == win[..end]
      requires Linked(win, prev[..], head[..], strstart) && (strstart > 0 ==> strstart + 1 < end)
      ensures Linked(win', prev[..], head[..], strstart)
    {
      if strstart > 0 { PrefixOf(win, win', end, strstart + 2); }
      SameStrings(win, win', prev[..], head[..], strstart);
    }

    /** fill_window. */
    method Fill(ghost primed: bool)
      requires Shape() && Data() && Chained(strstart) && !eofile && lookahead < MIN_LOOKAHEAD
      requires primed ==> Whole(Ready(strstart)) && lookahead >= 2
      modifies this, window, prev, head, src
      ensures Data() && Chained(strstart) && insH == old(insH) && At() == old(At()) && lookahead >= old(lookahead)
      ensures base + matchStart == old(base + matchStart) && base + blockStart == old(base + blockStart)
      ensures (if eofile then lookahead == old(lookahead) else src.pos > old(src.pos))
              && (primed ==> Whole(Ready(strstart)))
      ensures strstart == old(strstart) || strstart >= MAX_DIST
    {
      var more := WINDOW_SIZE - lookahead - strstart;
      if strstart >= WSIZE + MAX_DIST {
        Slide(primed);
        more := more + WSIZE;
      }
      assert more >= 2;
      ReadMore(more, primed);
    }

    /** fill_window_if_needed. */
    method FillIfNeeded(ghost primed: bool)
      requires Shape() && Data() && Chained(strstart)
      requires primed ==> Whole(Ready(strstart)) && (eofile || lookahead >= 2)
      modifies this, window, prev, head, src
      ensures Data() && Chained(strstart) && insH == old(insH) && At() == old(At()) && lookahead >= old(lookahead)
      ensures base + matchStart == old(base + matchStart) && base + blockStart == old(base + blockStart)
      ensures (eofile || lookahead >= MIN_LOOKAHEAD) && (primed ==> Whole(Ready(strstart)))
      ensures strstart == old(strstart) || strstart >= MAX_DIST
    {
      while lookahead < MIN_LOOKAHEAD && !eofile
        invariant Data() && Chained(strstart) && insH == old(insH) && At() == old(At()) && lookahead >= old(lookahead)
        invariant base + matchStart == old(base + matchStart) && base + blockStart == old(base + blockStart)
        invariant primed ==> Whole(Ready(strstart)) && (eofile || lookahead >= 2)
        invariant strstart == old(strstart) || strstart >= MAX_DIST
        decreases !eofile, |src.input| - src.pos
      {
        Fill(primed);
      }
    }

    /** insH has taken in the first two bytes of the string at s. */
    ghost predicate Ready(s: nat)
      reads this`insH, window
    {
      s + 1 < window.Length && Primed(insH, window[s], window[s + 1])
    }

    /** INSERT_STRING: enter the string at s and give the latest one with the same hash. */
    method Insert(s: nat, ghost ins: nat) returns (q: nat)
      requires Shape() && s < WINDOW_SIZE && Whole(Ready(s)) && Whole(Linked(window[..], prev[..], head[..], s))
               && ins == s + 1
      modifies this`insH, prev, head
      ensures Whole(Ready(ins)) && Whole(Linked(window[..], prev[..], head[..], ins)) && Whole(LinkOk(window[..], s, q))
      ensures prev[s % WSIZE] == q
    {
      ghost var p: seq<nat>, h: seq<nat> := prev[..], head[..];
      PrimedNext(insH, window[s], window[s + 1], window[s + 2]);
      insH := Update(insH, window[s + 2]);
      InsertKeeps(window[..], p, h, s, insH, ins);
      q := head[insH];
      prev[s % WSIZE] := q;
      head[insH] := s;
      assert prev[..] == p[s % WSIZE := q] && head[..] == h[insH := s];
    }

    /** On to the next string, which is not yet in the chains. */
    method Advance(ghost ins: nat)
      requires Shape() && Whole(Data()) && Whole(Chained(ins)) && ins == strstart + 1 && lookahead > 0
      modifies this`strstart, this`lookahead
      ensures Whole(Data()) && Whole(Chained(strstart)) && strstart == ins && lookahead == old(lookahead) - 1
    {
      strstart := strstart + 1;
      lookahead := lookahead - 1;
    }

    /** Enter the strings inside a match of length len that began before the current
        string, and go on behind it. */
    method Skip(len: nat, ghost ins0: nat)
      requires Shape() && Whole(Data()) && Whole(Chained(ins0)) && Whole(Ready(ins0)) && ins0 == strstart + 1
      requires 3 <= len <= MAX_MATCH && len <= lookahead + 1 && (eofile || lookahead >= MIN_LOOKAHEAD)
      modifies this`strstart, this`lookahead, this`insH, prev, head
      ensures Whole(Data()) && Whole(Chained(strstart)) && Whole(Ready(strstart))
      ensures strstart == old(strstart) + len - 1 && lookahead == old(lookahead) - (len - 1)
    {
      InsertInside(len, ins0);
      strstart := strstart + 1;
      lookahead := lookahead - (len - 1);
    }

    method InsertInside(len: nat, ghost ins0: nat)
      requires Shape() && Whole(Linked(window[..], prev[..], head[..], ins0)) && Whole(Ready(ins0))
               && ins0 == strstart + 1
      requires 3 <= len && strstart + len - 2 < WINDOW_SIZE
      modifies this`strstart, this`insH, prev, head
      ensures strstart == old(strstart) + len - 2
      ensures Whole(Linked(window[..], prev[..], head[..], strstart + 1)) && Whole(Ready(strstart + 1))
    {
      ghost var ins := ins0;
      var left := len - 2;
      while left != 0
        invariant 0 <= left <= len - 2 && strstart + left == old(strstart) + len - 2 && ins == strstart + 1
        invariant Whole(Linked(window[..], prev[..], head[..], ins)) && Whole(Ready(ins))
        decreases left
      {
        strstart := strstart + 1;
        ghost var next := ins + 1;
        var q := Insert(strstart, next);
        ins := next;
        left := left - 1;
      }
    }

    /** The next block starts at the current string. */
    method StartBlock()
      requires Whole(Data())
      modifies this`blockStart
      ensures Whole(Data()) && blockStart == strstart
    {
      blockStart := strstart;
    }

    /** lm_init: read the start of the file and prime the hash with two bytes. */
    method Init()
      requires Shape() && Data() && Chained(0) && At() == 0 && lookahead == 0 && !eofile && src.pos == 0
      modifies this, window, prev, head, src
      ensures Data() && Chained(0) && At() == 0 && (eofile || lookahead >= MIN_LOOKAHEAD)
              && (lookahead > 0 ==> Ready(0))
      ensures base + blockStart == old(base + blockStart)
    {
      ReadMore(WINDOW_SIZE, false);
      if eofile { return; }
      FillIfNeeded(false);
      ghost var g := insH;
      insH := Update(insH, window[0]);
      insH := Update(insH, window[1]);
      PrimedBy(g, window[0], window[1], insH);
    }

    /** Move the upper half of the window to the lower half. */
    method Slide(ghost primed: bool)
      requires primed ==> Whole(Ready(strstart)) && lookahead >= 2
      requires Shape() && Data() && Chained(strstart) && !eofile && strstart >= WSIZE + MAX_DIST
      modifies this, window, prev, head
      ensures Data() && Chained(strstart) && !eofile && strstart == old(strstart) - WSIZE && lookahead == old(lookahead)
      ensures base == old(base) + WSIZE && matchStart == old(matchStart) - WSIZE
              && blockStart == old(blockStart) - WSIZE && insH == old(insH)
      ensures primed ==> Whole(Ready(strstart))
    {
      hide Linked, Primed;
      ghost var win, s := window[..], strstart;
      SlideAll();
      if primed {
        MovedAt(win, window[..], s);
        MovedAt(win, window[..], s + 1);
      }
      matchStart := matchStart - WSIZE;
      strstart := strstart - WSIZE;
      blockStart := blockStart - WSIZE;
      base := base + WSIZE;
    }

    method SlideAll()
      requires Shape() && Whole(Data()) && Whole(Chained(strstart)) && !eofile && strstart >= WSIZE + MAX_DIST
      modifies window, prev, head
      ensures Moved(old(window[..]), window[..]) && Whole(Linked(window[..], prev[..], head[..], strstart - WSIZE))
      ensures Whole(Holds(window[..], src.input, base + WSIZE, strstart - WSIZE + lookahead, src.pos))
    {
      hide Linked, AllSlid;
      ghost var win, p, h := window[..], prev[..], head[..];
      MoveDown(window);
      SlideTable(head);
      SlideTable(prev);
      SlideKeeps(win, window[..], p, prev[..], h, head[..], strstart);
      HoldsSlid(win, window[..], src.input, base, strstart + lookahead, src.pos);
    }
  }
}
