/** The read loop of tail_main in tail.c: the last lines or bytes of a stream, or all
    from some line or byte on, however the stream is cut into reads. */
module Tail {
  import opened Bits
  import opened Sources

  const NL: byte := 10
  const BUFSIZ: nat := 8192

  // ---- Lines ----

  function Newlines(s: seq<byte>): (n: nat)
    ensures n <= |s|
    decreases |s|
  {
    if s == [] then 0 else (if s[0] == NL then 1 else 0) + Newlines(s[1..])
  }

  /** 1 if the last line has no newline. */
  function Open(s: seq<byte>): (n: nat)
    ensures n <= 1
  {
    if s != [] && s[|s| - 1] != NL then 1 else 0
  }

  /** A final line without a newline counts as one. */
  function LineCount(s: seq<byte>): (n: nat)
  {
    Newlines(s) + Open(s)
  }

  /** What follows the first k newlines. */
  function DropLines(s: seq<byte>, k: nat): (r: seq<byte>)
    ensures |r| <= |s|
    decreases |s|
  {
    if k == 0 || s == [] then s else DropLines(s[1..], if s[0] == NL then k - 1 else k)
  }

  /** The last n lines. */
  function LastLines(s: seq<byte>, n: nat): (r: seq<byte>)
  {
    if LineCount(s) <= n then s else DropLines(s, LineCount(s) - n)
  }

  /** From line n on, counting from 1. */
  function FromLine(s: seq<byte>, n: nat): (r: seq<byte>)
  {
    if n == 0 then s else DropLines(s, n - 1)
  }

  function LastBytes(s: seq<byte>, n: nat): (r: seq<byte>)
  {
    if |s| <= n then s else s[|s| - n..]
  }

  function FromByte(s: seq<byte>, n: nat): (r: seq<byte>)
  {
    if n == 0 then s else if |s| < n then [] else s[n - 1..]
  }

  lemma {:induction false} NewlinesConcat(a: seq<byte>, b: seq<byte>)
    ensures Newlines(a + b) == Newlines(a) + Newlines(b)
    decreases |a|
  {
    if a == [] {
      assert a + b == b;
    } else {
      assert (a + b)[0] == a[0] && (a + b)[1..] == a[1..] + b;
      NewlinesConcat(a[1..], b);
    }
  }

  lemma {:induction false} DropConcat(a: seq<byte>, b: seq<byte>, k: nat)
    ensures DropLines(a + b, k) == if Newlines(a) >= k then DropLines(a, k) + b else DropLines(b, k - Newlines(a))
    decreases |a|
  {
    if a == [] {
      assert a + b == b;
    } else if k > 0 {
      assert (a + b)[0] == a[0] && (a + b)[1..] == a[1..] + b;
      DropConcat(a[1..], b, if a[0] == NL then k - 1 else k);
    }
  }

  lemma {:induction false} DropTwice(s: seq<byte>, j: nat, k: nat)
    requires j <= Newlines(s)
    ensures DropLines(DropLines(s, j), k) == DropLines(s, j + k)
    decreases |s|
  {
    if s != [] && j > 0 { DropTwice(s[1..], if s[0] == NL then j - 1 else j, k); }
  }

  /** Dropping lines leaves the others, and the end of the last. */
  lemma {:induction false} DropLeaves(s: seq<byte>, k: nat)
    requires k <= Newlines(s)
    ensures Newlines(DropLines(s, k)) == Newlines(s) - k
    ensures DropLines(s, k) != [] ==> Open(DropLines(s, k)) == Open(s)
    ensures DropLines(s, k) == [] ==> Open(s) == 0
    decreases |s|
  {
    if s != [] && k > 0 {
      DropLeaves(s[1..], if s[0] == NL then k - 1 else k);
      if |s| > 1 { assert s[1..][|s| - 2] == s[|s| - 1]; }
    }
  }

  lemma {:induction false} DropIsSuffix(s: seq<byte>, k: nat)
    requires k <= Newlines(s)
    ensures var c := |s| - |DropLines(s, k)|; DropLines(s, k) == s[c..] && (k > 0 ==> c > 0 && s[c - 1] == NL)
    decreases |s|
  {
    if s != [] && k > 0 {
      DropIsSuffix(s[1..], if s[0] == NL then k - 1 else k);
      var c := |s| - |DropLines(s, k)|;
      assert s[1..][c - 1..] == s[c..];
      if c > 1 { assert s[1..][c - 2] == s[c - 1]; }
    }
  }

  lemma {:induction false} DropAll(s: seq<byte>, k: nat)
    requires k > Newlines(s)
    ensures DropLines(s, k) == []
    decreases |s|
  {
    if s != [] { DropAll(s[1..], if s[0] == NL then k - 1 else k); }
  }

  /** The last n lines are n lines, or all, at the end of s, and start where a line does. */
  lemma LastLinesAre(s: seq<byte>, n: nat)
    ensures LineCount(LastLines(s, n)) == if LineCount(s) <= n then LineCount(s) else n
    ensures var c := |s| - |LastLines(s, n)|;
            0 <= c <= |s| && LastLines(s, n) == s[c..] && (n > 0 && c > 0 ==> s[c - 1] == NL)
  {
    var k := LineCount(s) - n;
    if k > 0 {
      if k <= Newlines(s) {
        DropLeaves(s, k);
        DropIsSuffix(s, k);
      } else {
        DropAll(s, k);
      }
    }
  }

  /** Only one suffix of s is like that. */
  lemma LastLinesOnly(s: seq<byte>, n: nat, c: nat)
    requires n > 0 && LineCount(s) > n && 0 < c <= |s| && s[c - 1] == NL && LineCount(s[c..]) == n
    ensures LastLines(s, n) == s[c..]
  {
    var a, b := s[..c], s[c..];
    assert a + b == s;
    NewlinesConcat(a, b);
    assert b != [];
    DropConcat(a, b, Newlines(a));
    DropLeaves(a, Newlines(a));
    DropIsSuffix(a, Newlines(a));
    NothingLeft(a);
  }

  /** A string that ends with a newline has nothing after its last. */
  lemma NothingLeft(a: seq<byte>)
    requires a != [] && a[|a| - 1] == NL
    ensures DropLines(a, Newlines(a)) == []
  {
    var k := Newlines(a);
    DropLeaves(a, k);
    DropIsSuffix(a, k);
    var r := DropLines(a, k);
    if r != [] { LastCounts(r); }
  }

  lemma {:induction false} LastCounts(r: seq<byte>)
    requires r != [] && r[|r| - 1] == NL
    ensures Newlines(r) > 0
    decreases |r|
  {
    if |r| > 1 { LastCounts(r[1..]); }
  }

  // ---- Keeping the tail while reading ----

  /** Lines dropped before more is read would be dropped afterwards too. */
  lemma LastLinesMore(a: seq<byte>, b: seq<byte>, n: nat)
    requires n > 0 && b != []
    ensures LastLines(LastLines(a, n) + b, n) == LastLines(a + b, n)
  {
    var k := LineCount(a) - n;
    if k > 0 {
      var r := DropLines(a, k);
      var m := LineCount(a + b) - n;
      NewlinesConcat(a, b);
      DropLeaves(a, k);
      NewlinesConcat(r, b);
      assert Open(a + b) == Open(b) == Open(r + b);
      if Open(b) == 0 { LastCounts(b); }
      DropConcat(a, b, k);
      NewlinesConcat(a, b);
      DropTwice(a + b, k, m - k);
    }
  }

  // ---- The buffer ----

  /** Count the newlines of the last read, from its end. */
  method CountNewlines(buf: array<byte>, at: nat, nread: nat) returns (n: nat)
    requires 0 < nread && at + nread <= buf.Length
    ensures n == Newlines(buf[at..at + nread])
  {
    n := 0;
    var k := nread;
    while k > 0
      invariant 0 <= k <= nread && n == Newlines(buf[at + k..at + nread])
    {
      k := k - 1;
      assert buf[at + k..at + nread][1..] == buf[at + k + 1..at + nread];
      if buf[at + k] == NL {
        n := n + 1;
      }
    }
  }

  /** Go past the first k newlines of the buffer. */
  method SkipLines(buf: array<byte>, len: nat, k0: nat) returns (s: nat)
    requires len <= buf.Length && k0 <= Newlines(buf[..len])
    ensures s <= len && buf[s..len] == DropLines(buf[..len], k0)
  {
    s := 0;
    var k: nat := k0;
    assert buf[0..len] == buf[..len];
    while k > 0
      invariant 0 <= s <= len && DropLines(buf[s..len], k) == DropLines(buf[..len], k0) && k <= Newlines(buf[s..len])
      decreases len - s
    {
      assert buf[s..len][1..] == buf[s + 1..len];
      if buf[s] == NL {
        k := k - 1;
      }
      s := s + 1;
    }
  }

  /** memmove to the start of the buffer. */
  method MoveDown(buf: array<byte>, from: nat, len: nat)
    requires from + len <= buf.Length
    modifies buf
    ensures buf[..len] == old(buf[from..from + len])
  {
    var i := 0;
    while i < len
      invariant 0 <= i <= len && buf[..i] == old(buf[from..from + i])
      invariant forall j :: i <= j < buf.Length ==> buf[j] == old(buf[j])
    {
      buf[i] := buf[from + i];
      assert buf[..i + 1] == buf[..i] + [buf[i]];
      i := i + 1;
    }
  }

  /** xrealloc. */
  method Grow(buf: array<byte>, len: nat, size: nat) returns (buf': array<byte>)
    requires len <= buf.Length && len <= size
    ensures fresh(buf') && buf'.Length == size && buf'[..len] == buf[..len]
  {
    buf' := new byte[size](_ => 0);
    var i := 0;
    while i < len
      invariant 0 <= i <= len && buf'[..i] == buf[..i]
    {
      buf'[i] := buf[i];
      i := i + 1;
    }
  }

  lemma FewLines(all: seq<byte>, total: nat, count: nat)
    requires total == Newlines(all) < count
    ensures LastLines(all, count) == all
  {
  }

  lemma ManyLines(all: seq<byte>, total: nat, extra: nat, count: nat)
    requires total == Newlines(all) && extra == Open(all) && total >= count > 0
    ensures var k := total + extra - count;
            k <= total && LastLines(all, count) == DropLines(all, k) && Newlines(DropLines(all, k)) == count - extra
  {
    DropLeaves(all, total + extra - count);
  }

  /** What one read does to the lines kept: all stay if there are not too many. */
  method KeepLines(buf: array<byte>, taillen: nat, nread: nat, seen: nat, count: nat) returns (len: nat, seen': nat)
    requires 0 < nread && taillen + nread <= buf.Length && count > 0 && seen == Newlines(buf[..taillen])
    modifies buf
    ensures len <= taillen + nread && buf[..len] == LastLines(old(buf[..taillen + nread]), count)
            && seen' == Newlines(buf[..len])
  {
    hide Newlines, LastLines, DropLines;
    ghost var all, first, last := buf[..taillen + nread], buf[..taillen], buf[taillen..taillen + nread];
    NewlinesConcat(first, last);
    assert first + last == all;
    var n := CountNewlines(buf, taillen, nread);
    if seen + n < count {
      FewLines(all, seen + n, count);
      seen' := seen + n;
      len := taillen + nread;
    } else {
      var extra := if buf[taillen + nread - 1] != NL then 1 else 0;
      ManyLines(all, seen + n, extra, count);
      var k := seen + n + extra - count;
      var s := SkipLines(buf, taillen + nread, k);
      len := taillen + nread - s;
      MoveDown(buf, s, len);
      seen' := count - extra;
    }
  }

  /** tail -n: read to the end, keeping the last count lines. */
  method KeepLastLines(src: Source, count: nat) returns (buf: array<byte>, taillen: nat)
    requires src.pos == 0 && count > 0
    modifies src
    ensures fresh(buf) && taillen <= buf.Length && buf[..taillen] == LastLines(src.input, count)
  {
    hide Newlines;
    buf := new byte[BUFSIZ](_ => 0);
    taillen := 0;
    var seen, nread: nat := 0, 1;
    while nread > 0
      invariant fresh(buf) && taillen + BUFSIZ <= buf.Length && src.pos <= |src.input|
                && seen == Newlines(buf[..taillen])
      invariant buf[..taillen] == LastLines(src.input[..src.pos], count)
      invariant nread == 0 ==> src.pos == |src.input|
      decreases |src.input| - src.pos, nread
    {
      ghost var kept, pos := buf[..taillen], src.pos;
      nread := src.Read(buf, taillen, buf.Length - taillen);
      if nread > 0 {
        ghost var b := src.input[pos..src.pos];
        assert buf[..taillen + nread] == kept + b;
        LastLinesMore(src.input[..pos], b, count);
        assert src.input[..pos] + b == src.input[..src.pos];
        taillen, seen := KeepLines(buf, taillen, nread, seen, count);
        if buf.Length < taillen + BUFSIZ {
          buf := Grow(buf, taillen, taillen + BUFSIZ);
        }
      }
    }
    assert src.input[..src.pos] == src.input;
  }

  method KeepBytes(buf: array<byte>, taillen: nat, count: nat) returns (len: nat)
    requires taillen <= buf.Length
    modifies buf
    ensures len <= taillen && len <= count && buf[..len] == LastBytes(old(buf[..taillen]), count)
  {
    len := taillen;
    if len > count {
      MoveDown(buf, len - count, count);
      len := count;
    }
  }

  /** tail -c: the buffer has room for count bytes and one more read. */
  method KeepLastBytes(src: Source, count: nat) returns (buf: array<byte>, taillen: nat)
    requires src.pos == 0 && count > 0
    modifies src
    ensures fresh(buf) && taillen <= buf.Length && buf[..taillen] == LastBytes(src.input, count)
  {
    hide LastBytes;
    NoBytes(count);
    buf := new byte[count + BUFSIZ](_ => 0);
    taillen := 0;
    var nread: nat := 1;
    while nread > 0
      invariant taillen <= count && src.pos <= |src.input| && buf[..taillen] == LastBytes(src.input[..src.pos], count)
      invariant nread == 0 ==> src.pos == |src.input|
      decreases |src.input| - src.pos, nread
    {
      ghost var kept, pos := buf[..taillen], src.pos;
      nread := src.Read(buf, taillen, buf.Length - taillen);
      assert buf[..taillen + nread] == kept + src.input[pos..src.pos];
      LastBytesMore(src.input, pos, src.pos, count);
      taillen := KeepBytes(buf, taillen + nread, count);
    }
    assert src.input[..src.pos] == src.input;
  }

  lemma NoBytes(n: nat)
    ensures LastBytes([], n) == []
  {
  }

  lemma LastBytesMore(s: seq<byte>, p: nat, q: nat, n: nat)
    requires p <= q <= |s|
    ensures LastBytes(LastBytes(s[..p], n) + s[p..q], n) == LastBytes(s[..q], n)
  {
  }

  // ---- From the top ----

  /** How many bytes of a read come before the wanted line; seen counts the lines. */
  method SkipTop(buf: array<byte>, nread: nat, seen0: nat, count: nat) returns (nwrite: nat, seen: nat)
    requires 0 < nread <= buf.Length && seen0 < count
    ensures nwrite <= nread && buf[nread - nwrite..nread] == DropLines(buf[..nread], count - seen0)
    ensures seen == if seen0 + Newlines(buf[..nread]) < count then seen0 + Newlines(buf[..nread]) else count
  {
    nwrite, seen := nread, seen0;
    assert buf[0..nread] == buf[..nread];
    while nwrite > 0 && seen < count
      invariant 0 <= nwrite <= nread && seen0 <= seen <= count
      invariant DropLines(buf[nread - nwrite..nread], count - seen) == DropLines(buf[..nread], count - seen0)
      invariant seen + Newlines(buf[nread - nwrite..nread]) == seen0 + Newlines(buf[..nread])
    {
      var s := nread - nwrite;
      assert buf[s..nread][1..] == buf[s + 1..nread];
      nwrite := nwrite - 1;
      if buf[s] == NL {
        seen := seen + 1;
      }
    }
  }

  lemma FromLineMore(a: seq<byte>, b: seq<byte>, n: nat)
    requires n > 0
    ensures FromLine(a + b, n) == if Newlines(a) + 1 >= n then FromLine(a, n) + b else DropLines(b, n - 1 - Newlines(a))
    ensures Newlines(a) + 1 < n ==> FromLine(a, n) == []
  {
    DropConcat(a, b, n - 1);
    if Newlines(a) + 1 < n { DropAll(a, n - 1); }
  }

  /** tail -n +N: everything from line count on. */
  method PrintFromLine(src: Source, count: nat) returns (out: seq<byte>)
    requires src.pos == 0
    modifies src
    ensures out == FromLine(src.input, count)
  {
    hide Newlines;
    var buf := new byte[BUFSIZ](_ => 0);
    out := [];
    var seen, nread: nat := 1, 1;
    while nread > 0
      invariant src.pos <= |src.input| && out == FromLine(src.input[..src.pos], count)
      invariant if seen < count then seen == 1 + Newlines(src.input[..src.pos])
                else count <= 1 + Newlines(src.input[..src.pos])
      invariant nread == 0 ==> src.pos == |src.input|
      decreases |src.input| - src.pos, nread
    {
      ghost var pos := src.pos;
      nread := src.Read(buf, 0, BUFSIZ);
      if nread > 0 {
        ghost var a, b := src.input[..pos], src.input[pos..src.pos];
        assert a + b == src.input[..src.pos] && buf[..nread] == b;
        NewlinesConcat(a, b);
        if count > 0 { FromLineMore(a, b, count); }
        var nwrite := nread;
        if seen < count {
          nwrite, seen := SkipTop(buf, nread, seen, count);
        }
        if nwrite > 0 {
          out := out + buf[nread - nwrite..nread];
        }
        assert nwrite == nread ==> buf[nread - nwrite..nread] == b;
      }
    }
    assert src.input[..src.pos] == src.input;
  }

  /** tail -c +N: everything from byte count on. */
  method PrintFromByte(src: Source, count: nat) returns (out: seq<byte>)
    requires src.pos == 0
    modifies src
    ensures out == FromByte(src.input, count)
  {
    var buf := new byte[BUFSIZ](_ => 0);
    out := [];
    var seen, nread: nat := 1, 1;
    while nread > 0
      invariant src.pos <= |src.input| && out == FromByte(src.input[..src.pos], count)
      invariant if seen < count then seen == 1 + src.pos else count <= 1 + src.pos
      invariant nread == 0 ==> src.pos == |src.input|
      decreases |src.input| - src.pos, nread
    {
      ghost var pos := src.pos;
      nread := src.Read(buf, 0, BUFSIZ);
      var nwrite: int := nread;
      if seen < count {
        nwrite := nwrite - (count - seen);
        seen := seen + nread;
      }
      if nwrite > 0 {
        out := out + buf[nread - nwrite..nread];
      }
      assert buf[..nread] == src.input[pos..src.pos];
      FromByteMore(src.input, pos, src.pos, count, buf[..nread]);
    }
    assert src.input[..src.pos] == src.input;
  }

  lemma FromByteMore(s: seq<byte>, p: nat, q: nat, n: nat, b: seq<byte>)
    requires p <= q <= |s| && b == s[p..q]
    ensures n <= p + 1 ==> FromByte(s[..q], n) == FromByte(s[..p], n) + b
    ensures p + 1 < n <= q ==> FromByte(s[..p], n) == [] && FromByte(s[..q], n) == b[n - 1 - p..]
    ensures q < n ==> FromByte(s[..q], n) == []
  {
  }

  /** tail for one stream that cannot be rewound. */
  method TailOf(src: Source, count: nat, fromTop: bool, countBytes: bool) returns (out: seq<byte>)
    requires src.pos == 0
    modifies src
    ensures out == if fromTop then (if countBytes then FromByte(src.input, count) else FromLine(src.input, count))
                   else if countBytes then LastBytes(src.input, count) else LastLines(src.input, count)
  {
    if fromTop {
      if countBytes {
        out := PrintFromByte(src, count);
      } else {
        out := PrintFromLine(src, count);
      }
    } else if count == 0 {
      LastLinesAre(src.input, 0);
      NoLines(LastLines(src.input, 0));
      out := [];
    } else {
      var buf, taillen;
      if countBytes {
        buf, taillen := KeepLastBytes(src, count);
      } else {
        buf, taillen := KeepLastLines(src, count);
      }
      out := buf[..taillen];
    }
  }

  lemma NoLines(s: seq<byte>)
    requires LineCount(s) == 0
    ensures s == []
  {
    if s != [] { LastCounts(s); }
  }
}
