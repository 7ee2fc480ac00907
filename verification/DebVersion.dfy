/** The version order of dpkg.c, and the canonical keys it compares (section 5.6.12 of
    the Debian Policy Manual). */
module DebVersion {
  import opened CStrings
  import opened Bits

  predicate Letter(c: char) { 'A' <= c <= 'Z' || 'a' <= c <= 'z' }

  /** The character at i, or the terminating NUL. */
  function CharAt(s: string, i: nat): (c: char)
  {
    if i < |s| then s[i] else '\0'
  }

  /** order() of dpkg.c. */
  function Order(c: char): (o: int)
    ensures o == 0 <==> c == '\0' || Digit(c)
  {
    if c == '~' then -1 else if c == '\0' then 0 else if Digit(c) then 0 else if Letter(c) then c as int
    else c as int + 256
  }

  // ---- Keys ----

  /** The key of a version part: the orders of its leading non-digits, a 0 to end them,
      the number that follows, and so on. */
  function Key(s: string): (k: seq<int>)
    ensures k != []
    decreases |s|, 1
  {
    if s != "" && !Digit(s[0]) then [Order(s[0])] + Key(s[1..]) else [0] + NumberKey(s)
  }

  function NumberKey(s: string): (k: seq<int>)
    requires s == "" || Digit(s[0])
    ensures k != []
    decreases |s|, 0
  {
    var n := Digits(s);
    [Number(s[..n])] + if n == |s| then [] else Key(s[n..])
  }

  function ElementAt(k: seq<int>, i: nat): (x: int)
  {
    if i < |k| then k[i] else 0
  }

  function Sign(x: int): (s: int)
  {
    if x < 0 then -1 else if x > 0 then 1 else 0
  }

  /** Keys are compared element by element, with zeros after the last. */
  function Lex(a: seq<int>, b: seq<int>): (s: int)
    ensures -1 <= s <= 1
    decreases |a| + |b|
  {
    if a == [] && b == [] then 0
    else if ElementAt(a, 0) != ElementAt(b, 0) then Sign(ElementAt(a, 0) - ElementAt(b, 0))
    else Lex(Tail(a), Tail(b))
  }

  function Tail(a: seq<int>): (t: seq<int>)
    ensures |t| <= |a| && (a != [] ==> |t| < |a|)
  {
    if a == [] then [] else a[1..]
  }

  // ---- The order on keys ----

  lemma {:induction false} LexSymmetric(a: seq<int>, b: seq<int>)
    ensures Lex(a, b) == -Lex(b, a)
    decreases |a| + |b|
  {
    if a != [] || b != [] {
      if ElementAt(a, 0) == ElementAt(b, 0) { LexSymmetric(Tail(a), Tail(b)); }
    }
  }

  /** Lex(a, b) <= 0 and Lex(b, c) <= 0 give Lex(a, c) <= 0, and one strict gives strict. */
  lemma {:induction false} LexTransitive(a: seq<int>, b: seq<int>, c: seq<int>)
    requires Lex(a, b) <= 0 && Lex(b, c) <= 0
    ensures Lex(a, c) <= 0 && (Lex(a, c) == 0 <==> Lex(a, b) == 0 && Lex(b, c) == 0)
    decreases |a| + |b| + |c|
  {
    if a != [] || b != [] || c != [] {
      if ElementAt(a, 0) == ElementAt(b, 0) == ElementAt(c, 0) {
        LexEmpty(a, b);
        LexEmpty(b, c);
        LexEmpty(a, c);
        LexTransitive(Tail(a), Tail(b), Tail(c));
      } else {
        LexEmpty(a, b);
        LexEmpty(b, c);
        LexEmpty(a, c);
      }
    }
  }

  /** Lex looks at the first elements even when both keys are empty. */
  lemma LexEmpty(a: seq<int>, b: seq<int>)
    ensures Lex(a, b) == if ElementAt(a, 0) != ElementAt(b, 0) then Sign(ElementAt(a, 0) - ElementAt(b, 0))
                         else Lex(Tail(a), Tail(b))
  {
  }

  // ---- Numbers ----

  lemma {:induction false} NumberAppend(d: string, c: char)
    requires Digit(c) && forall i :: 0 <= i < |d| ==> Digit(d[i])
    ensures Number(d + [c]) == 10 * Number(d) + DigitValue(c)
  {
    assert (d + [c])[..|d|] == d;
  }

  function Pow10(n: nat): (p: nat)
    ensures p >= 1
  {
    if n == 0 then 1 else 10 * Pow10(n - 1)
  }

  lemma {:induction false} NumberBound(d: string)
    requires forall i :: 0 <= i < |d| ==> Digit(d[i])
    ensures Number(d) < Pow10(|d|)
    ensures d != "" && d[0] != '0' ==> Pow10(|d| - 1) <= Number(d)
    decreases |d|
  {
    if d != "" {
      NumberBound(d[..|d| - 1]);
    }
  }

  lemma {:induction false} Pow10Monotone(m: nat, n: nat)
    requires m <= n
    ensures Pow10(m) <= Pow10(n)
  {
    if m < n { Pow10Monotone(m, n - 1); }
  }

  /** More digits, without a leading zero, make a larger number. */
  lemma LongerIsLarger(x: string, y: string)
    requires (forall i :: 0 <= i < |x| ==> Digit(x[i])) && (forall i :: 0 <= i < |y| ==> Digit(y[i]))
    requires |y| < |x| && x[0] != '0'
    ensures Number(y) < Number(x)
  {
    NumberBound(x);
    NumberBound(y);
    Pow10Monotone(|y|, |x| - 1);
  }

  lemma {:induction false} DropZero(s: string)
    requires s != "" && s[0] == '0'
    ensures Digits(s) == 1 + Digits(s[1..]) && Number(s[..Digits(s)]) == Number(s[1..][..Digits(s) - 1])
  {
    var n := Digits(s);
    NumberDropZero(s[..n]);
    assert s[..n][1..] == s[1..][..n - 1];
  }

  lemma {:induction false} NumberDropZero(d: string)
    requires d != "" && d[0] == '0' && forall i :: 0 <= i < |d| ==> Digit(d[i])
    ensures Number(d) == Number(d[1..])
    decreases |d|
  {
    if |d| > 1 {
      NumberDropZero(d[..|d| - 1]);
      assert d[..|d| - 1][1..] == d[1..][..|d| - 2];
    } else {
      assert d[..0] == "" && d[1..] == "";
    }
  }

  // ---- version_compare_part ----

  predicate NonDigitAt(s: string, i: nat)
  {
    i < |s| && !Digit(s[i])
  }

  lemma KeyAt(s: CString, i: nat)
    requires i <= |s|
    ensures NonDigitAt(s, i) ==> Order(CharAt(s, i)) != 0 && Key(s[i..]) == [Order(CharAt(s, i))] + Key(s[i + 1..])
    ensures !NonDigitAt(s, i) ==> Order(CharAt(s, i)) == 0 && (s[i..] == "" || Digit(s[i..][0]))
                                  && Key(s[i..]) == [0] + NumberKey(s[i..])
  {
    if i < |s| {
      assert s[i..][1..] == s[i + 1..];
    }
  }

  lemma LexHeads(x: int, a: seq<int>, y: int, b: seq<int>)
    ensures Lex([x] + a, [y] + b) == if x != y then Sign(x - y) else Lex(a, b)
  {
    assert Tail([x] + a) == a && Tail([y] + b) == b;
  }

  /** One pair of non-digits: a difference decides, otherwise the rests do. */
  lemma KeyStep(val: CString, ref: CString, i: nat, j: nat, vc: int, rc: int)
    requires i <= |val| && j <= |ref| && (NonDigitAt(val, i) || NonDigitAt(ref, j))
    requires vc == Order(CharAt(val, i)) && rc == Order(CharAt(ref, j))
    ensures vc != rc ==> vc - rc != 0 && Sign(vc - rc) == Lex(Key(val[i..]), Key(ref[j..]))
    ensures vc == rc ==> i < |val| && j < |ref| && Lex(Key(val[i + 1..]), Key(ref[j + 1..])) == Lex(Key(val[i..]),
                                                                                                    Key(ref[j..]))
  {
    hide Key, Lex, NumberKey, Order;
    KeyAt(val, i);
    KeyAt(ref, j);
    var a := if NonDigitAt(val, i) then Key(val[i + 1..]) else NumberKey(val[i..]);
    var b := if NonDigitAt(ref, j) then Key(ref[j + 1..]) else NumberKey(ref[j..]);
    LexHeads(vc, a, rc, b);
  }

  /** Where both sides have no non-digit left the numbers decide. */
  lemma KeyEnd(val: CString, ref: CString, i: nat, j: nat)
    requires i <= |val| && j <= |ref| && !NonDigitAt(val, i) && !NonDigitAt(ref, j)
    ensures (val[i..] == "" || Digit(val[i..][0])) && (ref[j..] == "" || Digit(ref[j..][0]))
    ensures Lex(NumberKey(val[i..]), NumberKey(ref[j..])) == Lex(Key(val[i..]), Key(ref[j..]))
  {
    hide Key, Lex, NumberKey, Order;
    KeyAt(val, i);
    KeyAt(ref, j);
    LexHeads(0, NumberKey(val[i..]), 0, NumberKey(ref[j..]));
  }

  /** The leading non-digits. */
  method CompareNonDigits(val: CString, ref: CString, i0: nat, j0: nat) returns (r: int, i: nat, j: nat)
    requires i0 <= |val| && j0 <= |ref|
    ensures i0 <= i <= |val| && j0 <= j <= |ref|
    ensures r != 0 ==> Sign(r) == Lex(Key(val[i0..]), Key(ref[j0..]))
    ensures r == 0 ==> (val[i..] == "" || Digit(val[i..][0])) && (ref[j..] == "" || Digit(ref[j..][0]))
    ensures r == 0 ==> Lex(NumberKey(val[i..]), NumberKey(ref[j..])) == Lex(Key(val[i0..]), Key(ref[j0..]))
  {
    hide Key, Lex, NumberKey, Order, CharAt, NonDigitAt, Digit, Sign;
    i, j := i0, j0;
    while NonDigitAt(val, i) || NonDigitAt(ref, j)
      invariant i0 <= i <= |val| && j0 <= j <= |ref|
      invariant Lex(Key(val[i..]), Key(ref[j..])) == Lex(Key(val[i0..]), Key(ref[j0..]))
      decreases |val| - i
    {
      var vc, rc := Order(CharAt(val, i)), Order(CharAt(ref, j));
      KeyStep(val, ref, i, j, vc, rc);
      if vc != rc {
        return vc - rc, i, j;
      }
      i := i + 1;
      j := j + 1;
    }
    KeyEnd(val, ref, i, j);
    r := 0;
  }

  /** while (*s == '0') s++. */
  method SkipZeros(s: string, i0: nat) returns (i: nat)
    requires i0 <= |s|
    ensures i0 <= i <= |s| && (i == |s| || s[i] != '0')
    ensures Digits(s[i0..]) == i - i0 + Digits(s[i..])
            && Number(s[i0..][..Digits(s[i0..])]) == Number(s[i..][..Digits(s[i..])])
  {
    i := i0;
    while i < |s| && s[i] == '0'
      invariant i0 <= i <= |s|
      invariant Digits(s[i0..]) == i - i0 + Digits(s[i..])
                && Number(s[i0..][..Digits(s[i0..])]) == Number(s[i..][..Digits(s[i..])])
    {
      DropZero(s[i..]);
      assert s[i..][1..] == s[i + 1..];
      i := i + 1;
    }
  }

  /** Digits side by side: the first difference decides between numbers of one length. */
  method CompareDigits(val: string, ref: string, i0: nat, j0: nat) returns (diff: int, k: nat)
    requires i0 <= |val| && j0 <= |ref|
    ensures k <= Digits(val[i0..]) && k <= Digits(ref[j0..]) && (k == Digits(val[i0..]) || k == Digits(ref[j0..]))
    ensures Sign(diff) == Sign(Number(val[i0..][..k]) - Number(ref[j0..][..k]))
  {
    hide Number, Digits, Sign;
    ghost var x, y := val[i0..], ref[j0..];
    NoDigits(x, y);
    diff, k := 0, 0;
    while i0 + k < |val| && Digit(val[i0 + k]) && j0 + k < |ref| && Digit(ref[j0 + k])
      invariant k <= Digits(x) && k <= Digits(y) && Sign(diff) == Sign(Number(x[..k]) - Number(y[..k]))
      decreases |val| - k
    {
      DigitThere(x, k);
      DigitThere(y, k);
      MoreDigits(x, y, k, diff);
      if diff == 0 {
        diff := DigitValue(val[i0 + k]) - DigitValue(ref[j0 + k]);
      }
      k := k + 1;
    }
    if k < Digits(x) { assert Digit(x[k]); }
    if k < Digits(y) { assert Digit(y[k]); }
  }

  lemma NoDigits(x: string, y: string)
    ensures Sign(0) == Sign(Number(x[..0]) - Number(y[..0]))
  {
  }

  /** One digit more on each side: the first difference still decides. */
  lemma MoreDigits(x: string, y: string, k: nat, diff: int)
    requires k < Digits(x) && k < Digits(y) && Sign(diff) == Sign(Number(x[..k]) - Number(y[..k]))
    ensures Sign(Number(x[..k + 1]) - Number(y[..k + 1]))
         == Sign(if diff == 0 then DigitValue(x[k]) - DigitValue(y[k]) else diff)
  {
    hide Number, Digits;
    NumberAppend(x[..k], x[k]);
    NumberAppend(y[..k], y[k]);
    assert x[..k] + [x[k]] == x[..k + 1] && y[..k] + [y[k]] == y[..k + 1];
  }

  lemma DigitThere(s: string, k: nat)
    requires k <= Digits(s) && k < |s| && Digit(s[k])
    ensures k < Digits(s)
  {
  }

  /** What is left to compare from i on. */
  function Rest(s: string, i: nat): (k: seq<int>)
    requires i <= |s|
  {
    if i == |s| then [] else Key(s[i..])
  }

  lemma NumberKeyIs(s: string, i: nat)
    requires i <= |s| && (s[i..] == "" || Digit(s[i..][0]))
    ensures var n := Digits(s[i..]); NumberKey(s[i..]) == [Number(s[i..][..n])] + Rest(s, i + n)
  {
    var n := Digits(s[i..]);
    assert s[i..][n..] == s[i + n..];
  }

  /** Two numbers without leading zeros: the longer is the larger. */
  lemma NumbersByDigits(x: string, y: string, k: nat, diff: int)
    requires k <= Digits(x) && k <= Digits(y) && (k == Digits(x) || k == Digits(y))
    requires (x == "" || x[0] != '0') && (y == "" || y[0] != '0') && Sign(diff) == Sign(Number(x[..k]) - Number(y[..k]))
    ensures var r := if k < Digits(x) then 1 else if k < Digits(y) then -1 else diff;
            Sign(r) == Sign(Number(x[..Digits(x)]) - Number(y[..Digits(y)]))
  {
    if k < Digits(x) {
      LongerIsLarger(x[..Digits(x)], y[..Digits(y)]);
    } else if k < Digits(y) {
      LongerIsLarger(y[..Digits(y)], x[..Digits(x)]);
    }
  }

  /** The numbers that follow. */
  method CompareNumbers(val: string, ref: string, i0: nat, j0: nat) returns (r: int, i: nat, j: nat)
    requires i0 <= |val| && j0 <= |ref| && (val[i0..] == "" || Digit(val[i0..][0]))
             && (ref[j0..] == "" || Digit(ref[j0..][0]))
    ensures i0 <= i <= |val| && j0 <= j <= |ref|
    ensures r != 0 ==> Sign(r) == Lex(NumberKey(val[i0..]), NumberKey(ref[j0..]))
    ensures r == 0 ==> Lex(Rest(val, i), Rest(ref, j)) == Lex(NumberKey(val[i0..]), NumberKey(ref[j0..]))
    ensures r == 0 ==> (i0 < |val| ==> i0 < i) && (j0 < |ref| ==> j0 < j)
  {
    hide Lex, Number, NumberKey, Key, Rest, Digits;
    var i1 := SkipZeros(val, i0);
    var j1 := SkipZeros(ref, j0);
    ghost var x, y := val[i1..], ref[j1..];
    var diff, k := CompareDigits(val, ref, i1, j1);
    NumbersByDigits(x, y, k, diff);
    ghost var m, n := Number(x[..Digits(x)]), Number(y[..Digits(y)]);
    NumberKeyIs(val, i0);
    NumberKeyIs(ref, j0);
    LexHeads(m, Rest(val, i0 + Digits(val[i0..])), n, Rest(ref, j0 + Digits(ref[j0..])));
    i, j := i1 + k, j1 + k;
    if i < |val| && Digit(val[i]) {
      DigitThere(x, k);
      return 1, i, j;
    }
    if j < |ref| && Digit(ref[j]) {
      DigitThere(y, k);
      return -1, i, j;
    }
    assert k == Digits(x) && k == Digits(y);
    r := diff;
  }

  lemma KeyOfEnd(b: seq<int>)
    ensures Key("") == [0, 0] && Lex([0, 0], b) == Lex([], b) && Lex(b, [0, 0]) == Lex(b, [])
  {
    assert Tail([0, 0]) == [0] && Tail([0]) == [] && Tail([]) == [];
    LexEmpty([0, 0], b);
    LexEmpty([0], Tail(b));
    LexEmpty([], b);
    LexEmpty([], Tail(b));
    LexEmpty(b, [0, 0]);
    LexEmpty(Tail(b), [0]);
    LexEmpty(b, []);
    LexEmpty(Tail(b), []);
  }

  lemma RestIsKey(val: string, ref: string, i: nat, j: nat)
    requires i <= |val| && j <= |ref|
    ensures Lex(Rest(val, i), Rest(ref, j)) == Lex(Key(val[i..]), Key(ref[j..]))
  {
    assert i == |val| ==> val[i..] == "";
    assert j == |ref| ==> ref[j..] == "";
    KeyOfEnd(Rest(ref, j));
    KeyOfEnd(Key(val[i..]));
  }

  /** version_compare_part. */
  method ComparePart(val: CString, ref: CString) returns (r: int)
    ensures Sign(r) == Lex(Key(val), Key(ref))
  {
    var i, j := 0, 0;
    RestIsKey(val, ref, 0, 0);
    assert val[0..] == val && ref[0..] == ref;
    while i < |val| || j < |ref|
      invariant i <= |val| && j <= |ref| && Lex(Rest(val, i), Rest(ref, j)) == Lex(Key(val), Key(ref))
      decreases |val| - i + |ref| - j
    {
      RestIsKey(val, ref, i, j);
      var i1, j1;
      r, i1, j1 := CompareNonDigits(val, ref, i, j);
      if r != 0 {
        return;
      }
      r, i1, j1 := CompareNumbers(val, ref, i1, j1);
      if r != 0 {
        return;
      }
      i, j := i1, j1;
    }
    r := 0;
  }

  // ---- version_compare ----

  /** Position of the first c, or |s|. */
  function First(s: CString, c: Char): (i: nat)
    ensures i <= |s| && c !in s[..i] && (i < |s| ==> s[i] == c)
    decreases |s|
  {
    if s == "" || s[0] == c then 0
    else
      var i := 1 + First(s[1..], c);
      assert s[..i] == [s[0]] + s[1..][..i - 1];
      i
  }

  /** Position of the last c, or |s|. */
  function Last(s: CString, c: Char): (i: nat)
    ensures i <= |s| && (i < |s| ==> s[i] == c && c !in s[i + 1..]) && (i == |s| ==> c !in s)
    decreases |s|
  {
    if s == "" then 0
    else
      var i := Last(s[1..], c);
      assert s == [s[0]] + s[1..];
      if i < |s| - 1 then assert s[i + 2..] == s[1..][i + 1..]; i + 1 else if s[0] == c then 0 else |s|
  }

  /** The positions are the only ones of their kind. */
  lemma PositionIs(a: CString, c: Char, b: CString)
    ensures c !in a ==> First(a + [c] + b, c) == |a|
    ensures c !in b ==> Last(a + [c] + b, c) == |a|
  {
    var s := a + [c] + b;
    assert s[|a|] == c && s[..|a|] == a && s[|a| + 1..] == b;
    if c !in a { OnlyFirst(s, c, |a|); }
    if c !in b { OnlyLast(s, c, |a|); }
  }

  /** strchr. */
  method StrChr(s: CString, c: Char) returns (i: nat)
    ensures i == First(s, c)
  {
    i := 0;
    while i < |s| && s[i] != c
      invariant i <= |s| && c !in s[..i]
    {
      assert s[..i + 1] == s[..i] + [s[i]];
      i := i + 1;
    }
    OnlyFirst(s, c, i);
  }

  lemma OnlyFirst(s: CString, c: Char, i: nat)
    requires i <= |s| && c !in s[..i] && (i < |s| ==> s[i] == c)
    ensures i == First(s, c)
  {
    var j := First(s, c);
    assert i <= j;
  }

  /** strrchr. */
  method StrRChr(s: CString, c: Char) returns (i: nat)
    ensures i == Last(s, c)
  {
    i := |s|;
    var k: nat := |s|;
    while k > 0
      invariant k <= |s| && c !in s[k..]
    {
      k := k - 1;
      assert s[k..] == [s[k]] + s[k + 1..];
      if s[k] == c {
        OnlyLast(s, c, k);
        return k;
      }
    }
    assert s[0..] == s && c !in s;
  }

  lemma OnlyLast(s: CString, c: Char, i: nat)
    requires i < |s| && s[i] == c && c !in s[i + 1..]
    ensures i == Last(s, c)
  {
    var j := Last(s, c);
    assert c in s && j <= i;
  }

  /** A version as epoch, upstream version and Debian revision.  A missing epoch is 0, a
      missing revision is empty. */
  datatype Version = Version(epoch: nat, upstream: CString, revision: CString)

  /** The number in front of the colon, as an unsigned one. */
  function Epoch(s: CString): (n: nat)
  {
    Atoi(s) % 0x1_0000_0000
  }

  /** Upstream version and revision of what follows the epoch. */
  function Parted(epoch: nat, rest: CString): (v: Version)
  {
    var dash := Last(rest, '-');
    Version(epoch, rest[..dash], if dash < |rest| then rest[dash + 1..] else "")
  }

  function Split(s: CString): (v: Version)
  {
    var colon := First(s, ':');
    if colon < |s| then Parted(Epoch(s), s[colon + 1..]) else Parted(0, s)
  }

  /** The order the Policy Manual defines: epoch, then upstream version, then revision. */
  function Order3(a: Version, b: Version): (s: int)
    ensures -1 <= s <= 1
  {
    if a.epoch != b.epoch then Sign(a.epoch - b.epoch)
    else if Lex(Key(a.upstream), Key(b.upstream)) != 0 then Lex(Key(a.upstream), Key(b.upstream))
    else Lex(Key(a.revision), Key(b.revision))
  }

  /** The text of a version; an epoch and a revision may be written or not. */
  function Text(epoch: Option<nat>, upstream: CString, revision: Option<CString>): (s: CString)
  {
    (if epoch.Some? then DigitsOf(epoch.value) + ":" else "")
    + (upstream + if revision.Some? then "-" + revision.value else "")
  }

  /** A version that is written out is taken apart again.  The revision has no dash, and a
      dash in the upstream version needs one after it; a colon needs an epoch before it. */
  lemma SplitReadsBack(epoch: Option<nat>, upstream: CString, revision: Option<CString>)
    requires epoch.Some? ==> epoch.value < 0x1_0000_0000
    requires if revision.Some? then '-' !in revision.value else '-' !in upstream
    requires epoch.None? ==> ':' !in upstream && (revision.Some? ==> ':' !in revision.value)
    ensures Split(Text(epoch, upstream, revision))
         == Version(if epoch.Some? then epoch.value else 0, upstream, if revision.Some? then revision.value else "")
  {
    hide First, Last, Epoch, DigitsOf;
    var rest: CString := upstream + if revision.Some? then "-" + revision.value else "";
    var s := Text(epoch, upstream, revision);
    RevisionReadsBack(upstream, revision, rest);
    if epoch.Some? {
      EpochReadsBack(epoch.value, rest);
      TextIs(DigitsOf(epoch.value), ":", rest);
      SplitWith(s, epoch.value, rest);
    } else {
      TextIs("", "", rest);
      assert s == rest && ':' !in rest;
      SplitWithout(s);
    }
  }

  lemma TextIs(a: CString, b: CString, rest: CString)
    ensures a + b + rest == a + (b + rest) && "" + rest == rest
  {
  }

  lemma SplitWith(s: CString, e: nat, rest: CString)
    requires var colon := First(s, ':'); colon < |s| && s[colon + 1..] == rest && Epoch(s) == e
    ensures Split(s) == Parted(e, rest)
  {
    hide First, Epoch, Parted;
  }

  lemma SplitWithout(s: CString)
    requires ':' !in s
    ensures Split(s) == Parted(0, s)
  {
  }

  lemma EpochReadsBack(e: nat, rest: CString)
    requires e < 0x1_0000_0000
    ensures var s: CString := DigitsOf(e) + ":" + rest;
            First(s, ':') == |DigitsOf(e)| && s[|DigitsOf(e)| + 1..] == rest && Epoch(s) == e
  {
    hide First, Atoi, DigitsOf;
    var d := DigitsOf(e);
    PositionIs(d, ':', rest);
    assert Decimal(e) == d;
    assert [] + d + (":" + rest) == d + ":" + rest;
    AtoiReads([], false, e, ":" + rest);
  }

  lemma RevisionReadsBack(upstream: CString, revision: Option<CString>, rest: CString)
    requires if revision.Some? then '-' !in revision.value else '-' !in upstream
    requires rest == upstream + if revision.Some? then "-" + revision.value else ""
    ensures var dash := Last(rest, '-');
            && rest[..dash] == upstream && (dash < |rest| <==> revision.Some?)
            && (revision.Some? ==> rest[dash + 1..] == revision.value)
  {
    hide Last;
    if revision.Some? {
      assert rest == upstream + ['-'] + revision.value;
      PositionIs(upstream, '-', revision.value);
    } else {
      assert rest == upstream;
    }
  }

  /** The higher epoch wins whatever follows; no epoch is epoch 0. */
  lemma EpochDecides(e: nat, rest: CString, f: nat, other: CString)
    requires f < e < 0x1_0000_0000
    ensures Order3(Split(DigitsOf(e) + ":" + rest), Split(DigitsOf(f) + ":" + other)) == 1
    ensures ':' !in other ==> Order3(Split(DigitsOf(e) + ":" + rest), Split(other)) == 1
  {
    hide First, Last, Atoi, DigitsOf, Key, Lex, Epoch;
    EpochReadsBack(e, rest);
    EpochReadsBack(f, other);
  }

  /** The epoch, or 0, and what follows the colon. */
  method TakeEpoch(ver: CString) returns (epoch: nat, rest: CString)
    ensures Split(ver) == Parted(epoch, rest)
  {
    hide First, Last, Parted;
    epoch, rest := 0, ver;
    var colon := StrChr(ver, ':');
    if colon < |ver| {
      epoch, rest := Epoch(ver), ver[colon + 1..];
    }
  }

  /** Chop off the revision behind the last dash. */
  method ChopRevision(rest: CString) returns (upstream: CString, revision: CString)
    ensures forall e: nat :: Parted(e, rest) == Version(e, upstream, revision)
  {
    hide Last;
    upstream, revision := rest, "";
    var dash := StrRChr(rest, '-');
    if dash < |rest| {
      upstream, revision := rest[..dash], rest[dash + 1..];
    }
  }

  /** version_compare. */
  method Compare(ver1: CString, ver2: CString) returns (r: int)
    ensures Sign(r) == Order3(Split(ver1), Split(ver2))
  {
    hide Key, Lex, Split, Last;
    var epoch1, rest1 := TakeEpoch(ver1);
    var epoch2, rest2 := TakeEpoch(ver2);
    if epoch1 < epoch2 {
      return -1;
    }
    if epoch1 > epoch2 {
      return 1;
    }
    var upstream1, revision1 := ChopRevision(rest1);
    var upstream2, revision2 := ChopRevision(rest2);
    r := ComparePart(upstream1, upstream2);
    if r == 0 {
      r := ComparePart(revision1, revision2);
    }
  }

  /** The order is a total preorder: antisymmetric up to equivalence and transitive. */
  lemma OrderSymmetric(a: Version, b: Version)
    ensures Order3(a, b) == -Order3(b, a)
  {
    LexSymmetric(Key(a.upstream), Key(b.upstream));
    LexSymmetric(Key(a.revision), Key(b.revision));
  }

  lemma OrderTransitive(a: Version, b: Version, c: Version)
    requires Order3(a, b) <= 0 && Order3(b, c) <= 0
    ensures Order3(a, c) <= 0 && (Order3(a, c) == 0 <==> Order3(a, b) == 0 && Order3(b, c) == 0)
  {
    hide Key, Lex;
    if a.epoch == b.epoch == c.epoch {
      LexTransitive(Key(a.upstream), Key(b.upstream), Key(c.upstream));
      if Lex(Key(a.upstream), Key(b.upstream)) == 0 && Lex(Key(b.upstream), Key(c.upstream)) == 0 {
        LexTransitive(Key(a.revision), Key(b.revision), Key(c.revision));
      }
    }
  }

  /** A tilde sorts before everything, even the end of the part. */
  lemma TildeFirst(s: CString)
    ensures Lex(Key("~" + s), Key("")) < 0
  {
    assert ("~" + s)[0] == '~' && ("~" + s)[1..] == s;
    KeyOfEnd(Key("~" + s));
  }

  /** At the first difference a tilde sorts before the end of the part and before a number,
      letters after them by their codes, and every other character after the letters. */
  lemma NonDigitsOrder(c: Char, s: CString, d: Char, t: CString)
    requires !Digit(c) && !Digit(d)
    ensures c == '~' && d != '~' ==> Lex(Key([c] + s), Key([d] + t)) < 0
    ensures c != '~' ==> Lex(Key([c] + s), Key("")) > 0
    ensures forall n: Char :: Digit(n) ==> Lex(Key([c] + s), Key([n] + t)) == if c == '~' then -1 else 1
    ensures AsciiLetter(c) && d != '~' && (!AsciiLetter(d) || c < d) ==> Lex(Key([c] + s), Key([d] + t)) < 0
    ensures !AsciiLetter(c) && !AsciiLetter(d) && c < d && d != '~' ==> Lex(Key([c] + s), Key([d] + t)) < 0
    ensures c == d ==> Lex(Key([c] + s), Key([d] + t)) == Lex(Key(s), Key(t))
  {
    hide Key, Lex, NumberKey;
    KeyOf(c, s);
    KeyOf(d, t);
    LexHeads(Order(c), Key(s), Order(d), Key(t));
    NumberKeyOf("");
    LexHeads(Order(c), Key(s), 0, NumberKey(""));
    forall n: Char | Digit(n) ensures Lex(Key([c] + s), Key([n] + t)) == if c == '~' then -1 else 1 {
      NumberKeyOf([n] + t);
      LexHeads(Order(c), Key(s), 0, NumberKey([n] + t));
    }
  }

  ghost predicate AsciiLetter(c: char) { 'a' <= c <= 'z' || 'A' <= c <= 'Z' }

  lemma KeyOf(c: Char, s: CString)
    requires !Digit(c)
    ensures Key([c] + s) == [Order(c)] + Key(s)
  {
    assert ([c] + s)[0] == c && ([c] + s)[1..] == s;
  }

  lemma NumberKeyOf(s: CString)
    requires s == "" || Digit(s[0])
    ensures Key(s) == [0] + NumberKey(s)
  {
  }

  datatype Operator = Null | Equal | Less | LessEqual | More | MoreEqual | Any

  function Holds(r: int, op: Operator): (b: bool)
  {
    match op
    case Any => true
    case Equal => r == 0
    case Less => r < 0
    case LessEqual => r <= 0
    case More => r > 0
    case MoreEqual => r >= 0
    case Null => false
  }

  /** test_version. */
  method Test(ver1: CString, ver2: CString, op: Operator) returns (b: bool)
    ensures b == Holds(Order3(Split(ver1), Split(ver2)), op)
  {
    var r := Compare(ver1, ver2);
    b := Holds(r, op);
  }

  /** The operators are the relations of one total order: exactly one of <<, =, >> holds,
      <= and >= are what they should be, and turning the versions round turns the
      operator round. */
  lemma OperatorsAgree(a: Version, b: Version)
    ensures var r, q := Order3(a, b), Order3(b, a);
            && (Holds(r, LessEqual) <==> Holds(r, Less) || Holds(r, Equal))
               && (Holds(r, MoreEqual) <==> Holds(r, More) || Holds(r, Equal))
            && (Holds(r, Less) <==> Holds(q, More)) && (Holds(r, Equal) <==> Holds(q, Equal))
               && (Holds(r, LessEqual) <==> !Holds(q, Less))
  {
    OrderSymmetric(a, b);
  }

  /** What meets a lower bound meets it in every later version, and what meets an upper
      bound in every earlier one; the strict operators let nothing on the bound through. */
  lemma BoundsAreClosed(a: Version, b: Version, bound: Version)
    requires Order3(a, b) <= 0
    ensures Holds(Order3(a, bound), MoreEqual) ==> Holds(Order3(b, bound), MoreEqual)
    ensures Holds(Order3(a, bound), More) ==> Holds(Order3(b, bound), More)
    ensures Holds(Order3(b, bound), LessEqual) ==> Holds(Order3(a, bound), LessEqual)
    ensures Holds(Order3(b, bound), Less) ==> Holds(Order3(a, bound), Less)
    ensures Holds(Order3(a, a), Equal) && Holds(Order3(a, a), MoreEqual) && Holds(Order3(a, a), LessEqual)
    ensures Order3(a, b) < 0 ==> Holds(Order3(b, a), More) && Holds(Order3(a, b), Less) && !Holds(Order3(a, b), Equal)
                                 && !Holds(Order3(a, b), MoreEqual)
    ensures Holds(Order3(a, b), Any) && !Holds(Order3(a, b), Null)
  {
    hide Order3;
    OrderSymmetric(a, a);
    OrderSymmetric(a, b);
    OrderSymmetric(a, bound);
    OrderSymmetric(b, bound);
    if Order3(b, bound) <= 0 { OrderTransitive(a, b, bound); }
    if Order3(bound, a) <= 0 { OrderTransitive(bound, a, b); }
  }
}
