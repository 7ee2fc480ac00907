/** C strings and the string functions of the C library that dpkg.c splits lines with. */
module CStrings {
  /** A C string has no NUL in it. */
  type Char = c: char | c != '\0' witness 'a'
  type CString = seq<Char>

  /** strspn: how many characters s starts with that are among chars. */
  function Span(s: CString, chars: string): (n: nat)
    ensures n <= |s| && (forall i :: 0 <= i < n ==> s[i] in chars) && (n < |s| ==> s[n] !in chars)
    decreases |s|
  {
    if s != [] && s[0] in chars then 1 + Span(s[1..], chars) else 0
  }

  /** strcspn: how many characters s starts with that are not among chars. */
  function CSpan(s: CString, chars: string): (n: nat)
    ensures n <= |s| && (forall i :: 0 <= i < n ==> s[i] !in chars) && (n < |s| ==> s[n] in chars)
    decreases |s|
  {
    if s != [] && s[0] !in chars then 1 + CSpan(s[1..], chars) else 0
  }

  function Skip(s: CString, chars: string): (r: CString)
    ensures |r| <= |s| && (r != [] ==> r[0] !in chars)
  {
    s[Span(s, chars)..]
  }

  function Upto(s: CString, chars: string): (r: CString)
    ensures |r| <= |s|
  {
    s[..CSpan(s, chars)]
  }

  /** The tokens strtok_r finds: the non-empty stretches between separators. */
  function Tokens(s: CString, d: Char): (ts: seq<CString>)
    decreases |s|
  {
    var r := Skip(s, [d]);
    if r == [] then [] else [Upto(r, [d])] + Tokens(r[CSpan(r, [d])..], d)
  }

  // ---- Spans ----

  /** A span ends where the characters that belong to it end. */
  lemma {:induction false} SpanIs(a: CString, b: CString, chars: string)
    requires (forall i :: 0 <= i < |a| ==> a[i] in chars) && (b == [] || b[0] !in chars)
    ensures Span(a + b, chars) == |a| && Skip(a + b, chars) == b
  {
    if a == [] {
      assert a + b == b;
    } else {
      assert (a + b)[0] == a[0] && (a + b)[1..] == a[1..] + b;
      SpanIs(a[1..], b, chars);
    }
  }

  lemma {:induction false} CSpanIs(a: CString, b: CString, chars: string)
    requires (forall i :: 0 <= i < |a| ==> a[i] !in chars) && (b == [] || b[0] in chars)
    ensures CSpan(a + b, chars) == |a| && Upto(a + b, chars) == a
  {
    if a == [] {
      assert a + b == b;
    } else {
      assert (a + b)[0] == a[0] && (a + b)[1..] == a[1..] + b;
      CSpanIs(a[1..], b, chars);
    }
  }

  // ---- Tokens ----

  /** The first token and the rest behind it. */
  lemma TokensFrom(gap: CString, tok: CString, rest: CString, d: Char)
    requires (forall i :: 0 <= i < |gap| ==> gap[i] == d) && tok != [] && d !in tok && (rest == [] || rest[0] == d)
    ensures Tokens(gap + tok + rest, d) == [tok] + Tokens(rest, d)
  {
    var s := gap + tok + rest;
    assert gap + (tok + rest) == s;
    SpanIs(gap, tok + rest, [d]);
    CSpanIs(tok, rest, [d]);
    assert (tok + rest)[|tok|..] == rest;
  }

  lemma TokensNone(gap: CString, d: Char)
    requires forall i :: 0 <= i < |gap| ==> gap[i] == d
    ensures Tokens(gap, d) == []
  {
    assert gap + [] == gap;
    SpanIs(gap, [], [d]);
  }

  /** A string without separators is one token. */
  lemma TokenAlone(s: CString, d: Char)
    requires s != [] && d !in s
    ensures Tokens(s, d) == [s]
  {
    TokensFrom([], s, [], d);
    assert [] + s + [] == s;
    TokensNone([], d);
  }

  /** A leading separator is skipped. */
  lemma TokensSkip(s: CString, d: Char)
    ensures Tokens([d] + s, d) == Tokens(s, d)
  {
    var n := Span(s, [d]);
    var gap: CString := [d] + s[..n];
    assert gap + s[n..] == [d] + s;
    SpanIs(gap, s[n..], [d]);
  }

  /** The tokens of two strings with a separator between them are those of the first and
      those of the second.  Together with TokenAlone this says what tokens are. */
  lemma {:induction false} TokensJoin(a: CString, b: CString, d: Char)
    ensures Tokens(a + [d] + b, d) == Tokens(a, d) + Tokens(b, d)
    decreases |a|, 1
  {
    if a == [] {
      assert a + [d] + b == [d] + b;
      TokensSkip(b, d);
      TokensNone(a, d);
      assert [] + Tokens(b, d) == Tokens(b, d);
    } else if a[0] == d {
      assert a == [d] + a[1..];
      assert a + [d] + b == [d] + (a[1..] + [d] + b);
      TokensSkip(a[1..] + [d] + b, d);
      TokensSkip(a[1..], d);
      TokensJoin(a[1..], b, d);
    } else {
      JoinToken(a, b, d);
    }
  }

  lemma {:induction false} JoinToken(a: CString, b: CString, d: Char)
    requires a != [] && a[0] != d
    ensures Tokens(a + [d] + b, d) == Tokens(a, d) + Tokens(b, d)
    decreases |a|, 0
  {
    hide Tokens;
    var n := CSpan(a, [d]);
    var tok, rest := a[..n], a[n..];
    var more := rest + [d] + b;
    assert a == [] + tok + rest && a + [d] + b == [] + tok + more;
    TokensFrom([], tok, rest, d);
    TokensFrom([], tok, more, d);
    JoinRest(rest, b, d, more);
    Prepend(tok, Tokens(rest, d), Tokens(b, d));
  }

  lemma Prepend(tok: CString, x: seq<CString>, y: seq<CString>)
    ensures [tok] + (x + y) == [tok] + x + y
  {
  }

  lemma {:induction false} JoinRest(rest: CString, b: CString, d: Char, more: CString)
    requires more == rest + [d] + b
    ensures Tokens(more, d) == Tokens(rest, d) + Tokens(b, d)
    decreases |rest|, 2
  {
    if rest == [] {
      assert more == [d] + b;
      TokensSkip(b, d);
      TokensNone(rest, d);
    } else {
      TokensJoin(rest, b, d);
    }
  }

  /** Tokens are not empty and have no separator in them. */
  lemma {:induction false} TokensClean(s: CString, d: Char)
    ensures forall i :: 0 <= i < |Tokens(s, d)| ==> Tokens(s, d)[i] != [] && d !in Tokens(s, d)[i]
    decreases |s|
  {
    var r := Skip(s, [d]);
    if r != [] { TokensClean(r[CSpan(r, [d])..], d); }
  }

  /** Only a string without separators is its own first token. */
  lemma FirstIsWhole(s: CString, d: Char)
    requires Tokens(s, d) != [] && Tokens(s, d)[0] == s
    ensures Tokens(s, d) == [s]
  {
    TokensClean(s, d);
    TokenAlone(s, d);
  }

  /** strtok_r: skip separators, then take the characters up to the next one.  pos is
      where the search goes on. */
  method NextToken(s: CString, pos: nat, d: Char) returns (found: bool, tok: CString, next: nat)
    requires pos <= |s|
    ensures pos <= next <= |s| && (found ==> pos < next)
    ensures Tokens(s[pos..], d) == if found then [tok] + Tokens(s[next..], d) else []
  {
    var i := pos;
    while i < |s| && s[i] == d
      invariant pos <= i <= |s| && forall k :: pos <= k < i ==> s[k] == d
    {
      i := i + 1;
    }
    if i == |s| {
      TokensNone(s[pos..], d);
      return false, [], i;
    }
    var j := i;
    while j < |s| && s[j] != d
      invariant i <= j <= |s| && forall k :: i <= k < j ==> s[k] != d
    {
      j := j + 1;
    }
    assert s[pos..] == s[pos..i] + s[i..j] + s[j..];
    TokensFrom(s[pos..i], s[i..j], s[j..], d);
    return true, s[i..j], j;
  }

  // ---- Numbers ----

  const BLANKS: string := [' ', '\t', '\n', '\U{000B}', '\U{000C}', '\r']

  predicate Digit(c: char) { '0' <= c <= '9' }

  /** The value of a string of digits. */
  function Number(d: string): (n: nat)
    requires forall i :: 0 <= i < |d| ==> Digit(d[i])
    decreases |d|
  {
    if d == "" then 0 else 10 * Number(d[..|d| - 1]) + DigitValue(d[|d| - 1])
  }

  function DigitValue(c: char): (v: nat)
    requires Digit(c)
    ensures v <= 9
  {
    c as int - '0' as int
  }

  /** How many digits s starts with. */
  function Digits(s: string): (n: nat)
    ensures n <= |s| && (forall i :: 0 <= i < n ==> Digit(s[i])) && (n < |s| ==> !Digit(s[n]))
    decreases |s|
  {
    if s != "" && Digit(s[0]) then 1 + Digits(s[1..]) else 0
  }

  function DigitChar(d: nat): (c: Char)
    requires d < 10
    ensures Digit(c) && DigitValue(c) == d
  {
    '0' + d as char
  }

  function DigitsOf(n: nat): (s: CString)
    ensures s != [] && forall k :: 0 <= k < |s| ==> Digit(s[k])
  {
    if n < 10 then [DigitChar(n)] else DigitsOf(n / 10) + [DigitChar(n % 10)]
  }

  function Decimal(i: int): (s: CString)
  {
    if i < 0 then ['-'] + DigitsOf(-i) else DigitsOf(i)
  }

  lemma {:induction false} DigitsAreNumber(n: nat)
    ensures Number(DigitsOf(n)) == n
    decreases n
  {
    var s := DigitsOf(n);
    if n < 10 {
      assert s[..0] == "" && Number("") == 0;
    } else {
      DigitsAreNumber(n / 10);
      assert s[..|s| - 1] == DigitsOf(n / 10);
    }
  }

  lemma {:induction false} AllDigits(s: CString)
    requires forall k :: 0 <= k < |s| ==> Digit(s[k])
    ensures Digits(s) == |s|
    decreases |s|
  {
    if s != [] { AllDigits(s[1..]); }
  }

  lemma NoBlank(s: CString)
    requires s != [] && (Digit(s[0]) || s[0] == '-')
    ensures Skip(s, BLANKS) == s
  {
    assert Span(s, BLANKS) == 0;
  }

  /** The digits in front of something else are counted. */
  lemma {:induction false} DigitsThen(d: CString, rest: CString)
    requires (forall k :: 0 <= k < |d| ==> Digit(d[k])) && (rest == [] || !Digit(rest[0]))
    ensures Digits(d + rest) == |d|
    decreases |d|
  {
    if d == [] {
      assert d + rest == rest;
    } else {
      assert (d + rest)[0] == d[0] && (d + rest)[1..] == d[1..] + rest;
      DigitsThen(d[1..], rest);
    }
  }

  /** atoi: blanks, a sign, digits. */
  function Atoi(s: CString): (n: int)
  {
    Signed(Skip(s, BLANKS))
  }

  function Signed(s: CString): (n: int)
  {
    if s == [] then 0
    else if s[0] == '-' then -(Leading(s[1..]) as int)
    else if s[0] == '+' then Leading(s[1..])
    else Leading(s)
  }

  /** The number s starts with, or 0. */
  function Leading(s: CString): (n: nat)
  {
    Number(s[..Digits(s)])
  }

  /** atoi reads a number back, whatever blanks or plus sign are in front of it and
      whatever follows it. */
  lemma AtoiReads(blanks: CString, plus: bool, i: int, rest: CString)
    requires (forall k :: 0 <= k < |blanks| ==> blanks[k] in BLANKS) && (plus ==> i >= 0)
    requires rest == [] || !Digit(rest[0])
    ensures Atoi(blanks + (if plus then "+" + Decimal(i) else Decimal(i)) + rest) == i
  {
    hide DigitsOf, Atoi, Signed, Digit, Number;
    var d := DigitsOf(if i < 0 then -i else i);
    var sign: CString := if plus then "+" else if i < 0 then "-" else "";
    DigitsAreNumber(if i < 0 then -i else i);
    assert blanks + (if plus then "+" + Decimal(i) else Decimal(i)) + rest == blanks + (sign + (d + rest));
    SignedIs(sign, d, rest, sign + (d + rest));
    AfterBlanks(blanks, sign + (d + rest));
  }

  lemma AfterBlanks(blanks: CString, s: CString)
    requires (forall k :: 0 <= k < |blanks| ==> blanks[k] in BLANKS) && (s == [] || s[0] !in BLANKS)
    ensures Atoi(blanks + s) == Signed(s)
  {
    hide Signed;
    SpanIs(blanks, s, BLANKS);
  }

  /** A sign, if there is one, and digits. */
  lemma SignedIs(sign: CString, d: CString, rest: CString, s: CString)
    requires |sign| <= 1 && (|sign| == 1 ==> sign[0] == '+' || sign[0] == '-') && s == sign + (d + rest)
    requires d != [] && (forall k :: 0 <= k < |d| ==> Digit(d[k])) && (rest == [] || !Digit(rest[0]))
    ensures Signed(s) == (if |sign| == 1 && sign[0] == '-' then -(Number(d) as int) else Number(d))
            && s[0] !in BLANKS
  {
    hide Leading, Number;
    LeadingIs(d, rest);
    assert s[0] == if |sign| == 0 then d[0] else sign[0];
    assert |sign| == 0 ==> s == d + rest;
    assert |sign| == 1 ==> s[1..] == d + rest;
  }

  lemma LeadingIs(d: CString, rest: CString)
    requires (forall k :: 0 <= k < |d| ==> Digit(d[k])) && (rest == [] || !Digit(rest[0]))
    ensures Leading(d + rest) == Number(d)
  {
    hide Number;
    DigitsThen(d, rest);
    assert (d + rest)[..|d|] == d;
  }

  /** Without digits atoi gives 0. */
  lemma AtoiNone(blanks: CString, rest: CString)
    requires forall k :: 0 <= k < |blanks| ==> blanks[k] in BLANKS
    requires rest == [] || (rest[0] !in BLANKS && rest[0] !in "+-" && !Digit(rest[0]))
    ensures Atoi(blanks + rest) == 0
  {
    SpanIs(blanks, rest, BLANKS);
    assert rest[..0] == "";
  }
}
