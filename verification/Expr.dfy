/** expr.c: expressions are evaluated while they are parsed, without a tree. */
module Expr {
  import opened Bits
  import opened CStrings

  // ---- Values ----

  datatype Value = Int(i: int) | Str(s: CString)

  /** null: the empty string, "0" or 0. */
  predicate IsNull(v: Value)
  {
    match v
    case Int(i) => i == 0
    case Str(s) => s == "" || s == "0"
  }

  /** tostring. */
  function ToString(v: Value): (s: CString)
  {
    match v
    case Int(i) => Decimal(i)
    case Str(s) => s
  }

  /** strtoll over the whole string: blanks, a sign, at least one digit. */
  function ParseInt(s: CString): (r: Option<int>)
  {
    var t := Skip(s, BLANKS);
    var signed := t != [] && t[0] in "+-";
    var d := if signed then t[1..] else t;
    if d != [] && Digits(d) == |d| then
      var n: int := Number(d);
      Some(if signed && t[0] == '-' then -n else n)
    else None
  }

  /** toarith. */
  function ToArith(v: Value): (r: Option<int>)
  {
    match v
    case Int(i) => Some(i)
    case Str(s) => ParseInt(s)
  }

  /** toarith in place: a string that is not a number stays. */
  function Coerced(v: Value): (r: Value)
  {
    match ToArith(v) case Some(i) => Int(i) case None => v
  }

  /** strcmp. */
  function StrCmp(a: CString, b: CString): (r: int)
    decreases |a|
  {
    if a == [] then (if b == [] then 0 else -1)
    else if b == [] then 1
    else if a[0] != b[0] then a[0] as int - b[0] as int
    else StrCmp(a[1..], b[1..])
  }

  // ---- Operators ----

  datatype Op = Or | And | Lt | Le | Eq | EqEq | Ne | Ge | Gt | Add | Sub | Mul | Div | Mod | Colon

  function OpLevel(op: Op): (l: nat)
    ensures l <= 5
  {
    match op
    case Or => 0
    case And => 1
    case Add => 3
    case Sub => 3
    case Mul => 4
    case Div => 4
    case Mod => 4
    case Colon => 5
    case _ => 2
  }

  function OpText(op: Op): (s: CString)
  {
    match op
    case Or => "|"
    case And => "&"
    case Lt => "<"
    case Le => "<="
    case Eq => "="
    case EqEq => "=="
    case Ne => "!="
    case Ge => ">="
    case Gt => ">"
    case Add => "+"
    case Sub => "-"
    case Mul => "*"
    case Div => "/"
    case Mod => "%"
    case Colon => ":"
  }

  /** The operator of that level which the token is. */
  function OpOf(lvl: nat, t: CString): (op: Option<Op>)
    ensures op.Some? ==> OpLevel(op.value) == lvl && OpText(op.value) == t
    ensures op.None? ==> forall o :: OpLevel(o) == lvl ==> OpText(o) != t
  {
    if lvl == 0 then (if t == "|" then Some(Or) else None)
    else if lvl == 1 then (if t == "&" then Some(And) else None)
    else if lvl == 2 then
      (if t == "<" then Some(Lt) else if t == "<=" then Some(Le) else if t == "=" then Some(Eq)
       else if t == "==" then Some(EqEq)
       else if t == "!=" then Some(Ne) else if t == ">=" then Some(Ge) else if t == ">" then Some(Gt) else None)
    else if lvl == 3 then (if t == "+" then Some(Add) else if t == "-" then Some(Sub) else None)
    else if lvl == 4 then (if t == "*" then Some(Mul) else if t == "/" then Some(Div) else if t == "%" then Some(Mod)
                           else None)
    else if lvl == 5 then (if t == ":" then Some(Colon) else None)
    else None
  }

  function Quot(a: int, b: int): (q: int)
    requires b != 0
  {
    if (a < 0) == (b < 0) then Abs(a) / Abs(b) else -(Abs(a) / Abs(b))
  }

  function Abs(a: int): (r: nat) { if a < 0 then -a else a }

  lemma Remainder(x: nat, y: nat)
    requires y > 0
    ensures 0 <= x - y * (x / y) < y
  {
  }

  lemma ProductSigns(b: int, q: int)
    ensures b * -q == -(b * q) && (b < 0 ==> Abs(b) * q == -(b * q)) && (b >= 0 ==> Abs(b) * q == b * q)
  {
  }

  /** The remainder has the sign of the dividend. */
  lemma QuotTruncates(a: int, b: int)
    requires b != 0
    ensures var r := a - b * Quot(a, b); Abs(r) < Abs(b) && (r == 0 || (r < 0) == (a < 0))
  {
    var q := Abs(a) / Abs(b);
    Remainder(Abs(a), Abs(b));
    ProductSigns(b, q);
  }

  function Compare(op: Op, x: int, y: int): (b: bool)
    requires OpLevel(op) == 2
  {
    match op
    case Lt => x < y
    case Le => x <= y
    case Eq => x == y
    case EqEq => x == y
    case Ne => x != y
    case Gt => x > y
    case _ => x >= y
  }

  /** cmp_common after both sides have been tried as numbers: numbers are compared as such,
      anything else as strings. */
  function CmpCommon(op: Op, l: Value, r: Value): (b: bool)
    requires OpLevel(op) == 2
  {
    if l.Int? && r.Int? then Compare(op, l.i, r.i) else Compare(op, StrCmp(ToString(l), ToString(r)), 0)
  }

  /** arithmetic_common; None ends the program. */
  function Arithmetic(op: Op, l: Value, r: Value): (v: Option<int>)
  {
    match (ToArith(l), ToArith(r))
    case (Some(x), Some(y)) =>
      (match op
       case Add => Some(x + y)
       case Sub => Some(x - y)
       case Mul => Some(x * y)
       case Div => if y == 0 then None else Some(Quot(x, y))
       case _ => if y == 0 then None else Some(x - y * Quot(x, y)))
    case _ => None
  }

  type Matcher = (CString, CString) -> Value

  /** The value of an operator's result; `colon` is what matching a pattern gives. */
  function Apply(op: Op, l: Value, r: Value, colon: Matcher): (v: Option<Value>)
  {
    if op.Or? then Some(if IsNull(l) then r else l)
    else if op.And? then Some(if IsNull(l) || IsNull(r) then Int(0) else l)
    else if op.Colon? then Some(colon(ToString(l), ToString(r)))
    else if OpLevel(op) == 2 then Some(Int(if CmpCommon(op, Coerced(l), Coerced(r)) then 1 else 0))
    else match Arithmetic(op, l, r) case None => None case Some(i) => Some(Int(i))
  }

  function LengthOf(v: Value): (r: Value) { Int(|ToString(v)|) }

  /** Where in the first string a character of the second occurs first, from 1, or 0. */
  function IndexOf(l: Value, r: Value): (v: Value)
  {
    var n := CSpan(ToString(l), ToString(r)) + 1;
    Int(if n == |ToString(l)| + 1 then 0 else n)
  }

  function SubstrOf(l: Value, i1: Value, i2: Value): (v: Value)
  {
    var s := ToString(l);
    match (ToArith(i1), ToArith(i2))
    case (Some(p), Some(n)) =>
      if p > |s| || p <= 0 || n <= 0 then Str([])
      else Str(s[p - 1..if p - 1 + n > |s| then |s| else p - 1 + n])
    case _ => Str([])
  }

  // ---- The evaluator as a function of the tokens ----

  type Tokens = seq<CString>

  /** A value and the tokens left, or None when the program ends with an error. */
  type Result = Option<(Value, Tokens)>

  predicate Keyword(t: CString)
  {
    t == "quote" || t == "length" || t == "match" || t == "index" || t == "substr"
  }

  /** What level lvl makes of the tokens: 0 to 5 are the operators from | to :, 6 the
      keywords, 7 operands and parentheses. */
  function Eval(lvl: nat, toks: Tokens, colon: Matcher): (r: Result)
    requires lvl <= 7
    ensures r.Some? ==> |r.value.1| < |toks|
    decreases |toks|, 16 - 2 * lvl
  {
    if lvl == 7 then Operand(toks, colon)
    else if lvl == 6 then Keywords(toks, colon)
    else match Eval(lvl + 1, toks, colon) case None => None case Some((l, rest)) => Loop(lvl, l, rest, colon)
  }

  /** The operators of one level, from left to right. */
  function Loop(lvl: nat, l: Value, toks: Tokens, colon: Matcher): (r: Result)
    requires lvl <= 5
    ensures r.Some? ==> |r.value.1| <= |toks|
    decreases |toks|, 17
  {
    if toks == [] then Some((l, toks))
    else match OpOf(lvl, toks[0])
      case None => Some((l, toks))
      case Some(op) =>
        match Eval(lvl + 1, toks[1..], colon)
        case None => None
        case Some((r, rest)) => match Apply(op, l, r, colon) case None => None case Some(v) => Loop(lvl, v, rest, colon)
  }

  function Keywords(toks: Tokens, colon: Matcher): (r: Result)
    ensures r.Some? ==> |r.value.1| < |toks|
    decreases |toks|, 3
  {
    if toks == [] || !Keyword(toks[0]) then Eval(7, toks, colon)
    else if toks[0] == "quote" then (if |toks| == 1 then None else Some((Str(toks[1]), toks[2..])))
    else match Eval(6, toks[1..], colon)
      case None => None
      case Some((l, t1)) =>
        if toks[0] == "length" then Some((LengthOf(l), t1))
        else match Eval(6, t1, colon)
          case None => None
          case Some((r, t2)) =>
            if toks[0] == "match" then Some((colon(ToString(l), ToString(r)), t2))
            else if toks[0] == "index" then Some((IndexOf(l, r), t2))
            else match Eval(6, t2, colon)
              case None => None
              case Some((n, t3)) => Some((SubstrOf(l, r, n), t3))
  }

  function Operand(toks: Tokens, colon: Matcher): (r: Result)
    ensures r.Some? ==> |r.value.1| < |toks|
    decreases |toks|, 0
  {
    if toks == [] then None
    else if toks[0] == "(" then
      match Eval(0, toks[1..], colon)
      case None => None
      case Some((v, rest)) => if rest != [] && rest[0] == ")" then Some((v, rest[1..])) else None
    else if toks[0] == ")" then None
    else Some((Str(toks[0]), toks[1..]))
  }

  // ---- Numbers as text ----

  /** A number written out reads back: tostring and toarith are inverse. */
  lemma DecimalReadsBack(i: int)
    ensures ParseInt(Decimal(i)) == Some(i)
  {
    hide DigitsOf, Digits, Number;
    var n := Abs(i);
    var d := DigitsOf(n);
    DigitsAreNumber(n);
    AllDigits(d);
    NoBlank(Decimal(i));
    assert i < 0 ==> Decimal(i)[1..] == d;
  }

  // ---- Strings in order ----

  /** strcmp decides by the first position where the strings differ; a string comes before
      the longer ones that start with it. */
  lemma {:induction false} StrCmpIs(a: CString, b: CString, k: nat)
    requires k <= |a| && k <= |b| && a[..k] == b[..k]
    ensures k < |a| && k < |b| && a[k] != b[k] ==> (StrCmp(a, b) < 0 <==> a[k] < b[k]) && StrCmp(a, b) != 0
    ensures k == |a| < |b| ==> StrCmp(a, b) < 0
    ensures k == |b| < |a| ==> StrCmp(a, b) > 0
    ensures k == |a| == |b| ==> StrCmp(a, b) == 0
    decreases k
  {
    if k > 0 {
      assert a[..k][0] == b[..k][0];
      assert a[1..][..k - 1] == a[..k][1..] && b[1..][..k - 1] == b[..k][1..];
      StrCmpIs(a[1..], b[1..], k - 1);
    }
  }

  /** How far two strings agree. */
  ghost function Agree(a: CString, b: CString): (k: nat)
    ensures k <= |a| && k <= |b| && a[..k] == b[..k] && (k < |a| && k < |b| ==> a[k] != b[k])
    decreases |a|
  {
    if a == [] || b == [] || a[0] != b[0] then 0
    else
      var k := 1 + Agree(a[1..], b[1..]);
      assert a[..k] == [a[0]] + a[1..][..k - 1] && b[..k] == [b[0]] + b[1..][..k - 1];
      k
  }

  lemma StrCmpConverse(a: CString, b: CString)
    ensures (StrCmp(a, b) < 0 <==> StrCmp(b, a) > 0) && (StrCmp(a, b) == 0 <==> a == b)
  {
    hide StrCmp;
    var k := Agree(a, b);
    StrCmpIs(a, b, k);
    StrCmpIs(b, a, k);
    assert k == |a| == |b| ==> a[..k] == a && b[..k] == b;
  }

  lemma {:induction false} StrCmpTransitive(a: CString, b: CString, c: CString)
    requires StrCmp(a, b) < 0 && StrCmp(b, c) < 0
    ensures StrCmp(a, c) < 0
    decreases |a|
  {
    if a != [] && a[0] == b[0] == c[0] { StrCmpTransitive(a[1..], b[1..], c[1..]); }
  }

  // ---- The operators on values ----

  /** The comparison answers 1. */
  ghost predicate True(op: Op, l: Value, r: Value, colon: Matcher)
  {
    Apply(op, l, r, colon) == Some(Int(1))
  }

  /** Comparisons answer 1 or 0; exactly one of <, = and > holds, the other operators are
      what they should be, and turning the operands round turns < round. */
  lemma Comparisons(op: Op, l: Value, r: Value, colon: Matcher)
    ensures OpLevel(op) == 2 ==> True(op, l, r, colon) || Apply(op, l, r, colon) == Some(Int(0))
    ensures True(Lt, l, r, colon) || True(Eq, l, r, colon) || True(Gt, l, r, colon)
    ensures !(True(Lt, l, r, colon) && True(Gt, l, r, colon)) && !(True(Lt, l, r, colon) && True(Eq, l, r, colon))
    ensures !(True(Eq, l, r, colon) && True(Gt, l, r, colon))
    ensures True(Le, l, r, colon) <==> True(Lt, l, r, colon) || True(Eq, l, r, colon)
    ensures True(Ge, l, r, colon) <==> !True(Lt, l, r, colon)
    ensures True(Ne, l, r, colon) <==> !True(Eq, l, r, colon)
    ensures True(EqEq, l, r, colon) <==> True(Eq, l, r, colon)
    ensures True(Lt, l, r, colon) <==> True(Gt, r, l, colon)
    ensures True(Eq, l, r, colon) <==> True(Eq, r, l, colon)
  {
    hide StrCmp, ToArith, Decimal;
    StrCmpConverse(ToString(Coerced(l)), ToString(Coerced(r)));
    StrCmpConverse(ToString(Coerced(r)), ToString(Coerced(l)));
  }

  /** Numbers are compared as numbers: what is less is reached by adding ones. */
  lemma NumbersInOrder(x: int, y: int, colon: Matcher)
    ensures True(Lt, Int(x), Int(x + 1), colon)
    ensures x <= y ==> True(Le, Int(x), Int(y), colon) && True(Lt, Int(x), Int(y + 1), colon)
  {
  }

  /** A string that reads as a number is compared as that number. */
  lemma NumbersAsText(op: Op, x: int, r: Value, colon: Matcher)
    requires OpLevel(op) == 2
    ensures Apply(op, Str(Decimal(x)), r, colon) == Apply(op, Int(x), r, colon)
    ensures Apply(op, r, Str(Decimal(x)), colon) == Apply(op, r, Int(x), colon)
  {
    DecimalReadsBack(x);
  }

  /** With an operand that is not a number both are compared as text. */
  lemma TextInOrder(l: Value, r: Value, k: nat, colon: Matcher)
    requires ToArith(l).None? || ToArith(r).None?
    requires var a, b := ToString(Coerced(l)), ToString(Coerced(r));
             k <= |a| && k <= |b| && a[..k] == b[..k] && (k < |a| && k < |b| ==> a[k] != b[k])
    ensures var a, b := ToString(Coerced(l)), ToString(Coerced(r));
            && (True(Lt, l, r, colon) <==> k < |b| && (k == |a| || a[k] < b[k]))
            && (True(Eq, l, r, colon) <==> a == b)
  {
    hide StrCmp, ParseInt, Decimal;
    var a, b := ToString(Coerced(l)), ToString(Coerced(r));
    StrCmpIs(a, b, k);
    StrCmpConverse(a, b);
  }

  /** Two numbers come in the same order as numbers and as text. */
  ghost predicate SameOrder(x: int, y: int)
  {
    x < y <==> StrCmp(Decimal(x), Decimal(y)) < 0
  }

  ghost predicate SameOrders(l: Value, r: Value)
  {
    ToArith(l).Some? && ToArith(r).Some? ==> SameOrder(ToArith(l).value, ToArith(r).value)
  }

  /** < is transitive among numbers, and wherever the numbers among the three come in the
      same order as text.  TransitivityFails is the other direction. */
  lemma LessTransitive(l: Value, m: Value, r: Value, colon: Matcher)
    requires True(Lt, l, m, colon) && True(Lt, m, r, colon)
    requires || (ToArith(l).Some? && ToArith(m).Some? && ToArith(r).Some?)
             || (SameOrders(l, m) && SameOrders(m, r) && SameOrders(l, r))
    ensures True(Lt, l, r, colon)
  {
    hide StrCmp, ParseInt, Decimal;
    var a, b, c := ToString(Coerced(l)), ToString(Coerced(m)), ToString(Coerced(r));
    if !(ToArith(l).Some? && ToArith(m).Some? && ToArith(r).Some?) {
      StrCmpTransitive(a, b, c);
    }
  }

  /** Whenever two numbers come in different orders as numbers and as text, a string that
      is no number goes between them the wrong way round, as in 10 < 10! < 9. */
  lemma TransitivityFails(x: int, y: int, s: CString, colon: Matcher)
    requires x < y && !SameOrder(x, y) && s == Decimal(y) + "!"
    ensures True(Lt, Int(y), Str(s), colon) && True(Lt, Str(s), Int(x), colon) && !True(Lt, Int(y), Int(x), colon)
  {
    hide StrCmp, Decimal, ParseInt;
    var a, b := Decimal(x), Decimal(y);
    NotNumber(y, s);
    assert s[..|b|] == b;
    StrCmpIs(b, s, |b|);
    DecimalReadsBack(x);
    DecimalReadsBack(y);
    StrCmpConverse(b, a);
    StrCmpConverse(a, b);
    forall k | 0 <= k < |a| ensures a[k] > '!' {
      Above(x, k);
    }
    Between(a, b, s);
    StrCmpConverse(a, s);
  }

  lemma NotNumber(y: int, s: CString)
    requires s == Decimal(y) + "!"
    ensures ParseInt(s) == None
  {
    hide DigitsOf, Number;
    var d := DigitsOf(Abs(y));
    assert s[|s| - 1] == '!' && !Digit('!');
    assert Decimal(y) == if y < 0 then ['-'] + d else d;
    assert s[0] == Decimal(y)[0];
    NoBlank(s);
  }

  /** Every character of a number is above the exclamation mark. */
  lemma Above(x: int, k: nat)
    requires k < |Decimal(x)|
    ensures Decimal(x)[k] > '!'
  {
    hide DigitsOf;
    var d := DigitsOf(Abs(x));
    assert Decimal(x)[k] in "-" || Digit(Decimal(x)[k]);
  }

  /** Appending an exclamation mark does not move the smaller string past the larger. */
  lemma Between(a: CString, b: CString, s: CString)
    requires StrCmp(b, a) < 0 && s == b + "!" && forall k :: 0 <= k < |a| ==> a[k] > '!'
    ensures StrCmp(s, a) < 0
  {
    hide StrCmp;
    var k := Agree(b, a);
    StrCmpIs(b, a, k);
    assert s[..k] == b[..k];
    StrCmpIs(s, a, k);
  }

  /** index is the first position, from 1, of a character of r in l; without one it is 0. */
  lemma IndexIsFirst(l: Value, r: Value, k: nat)
    requires k < |ToString(l)| && ToString(l)[k] in ToString(r)
    ensures IndexOf(l, r).i != 0
    ensures (forall j :: 0 <= j < k ==> ToString(l)[j] !in ToString(r)) <==> IndexOf(l, r) == Int(k + 1)
  {
    hide CSpan, ToString;
    var n := CSpan(ToString(l), ToString(r));
    if IndexOf(l, r) == Int(k + 1) {
      assert n == k;
    }
  }

  lemma IndexIsZero(l: Value, r: Value)
    ensures IndexOf(l, r) == Int(0) <==> forall k :: 0 <= k < |ToString(l)| ==> ToString(l)[k] !in ToString(r)
  {
    hide CSpan, ToString;
    var n := CSpan(ToString(l), ToString(r));
    assert n < |ToString(l)| ==> ToString(l)[n] in ToString(r);
  }

  function Min(a: int, b: int): (m: int) { if a < b then a else b }

  /** substr gives the characters from position p on, n of them or as many as there are. */
  lemma SubstrCharacters(l: Value, p: nat, n: nat, k: nat)
    requires 1 <= p <= |ToString(l)|
    ensures SubstrOf(l, Int(p), Int(n)).Str? && |SubstrOf(l, Int(p), Int(n)).s| == Min(n, |ToString(l)| - p + 1)
    ensures k < |SubstrOf(l, Int(p), Int(n)).s| ==> SubstrOf(l, Int(p), Int(n)).s[k] == ToString(l)[p - 1 + k]
  {
    hide ToString;
  }

  /** Outside the string, or with a length or position that is no number or not positive,
      it gives nothing. */
  lemma SubstrNothing(l: Value, pos: Value, len: Value)
    ensures SubstrOf(l, pos, len) == Str([])
       <==> || ToArith(pos).None? || ToArith(len).None? || ToArith(pos).value <= 0
            || ToArith(pos).value > |ToString(l)| || ToArith(len).value <= 0
  {
    hide ToString, ParseInt;
  }

  /** null is told by the text alone. */
  lemma NullByText(v: Value)
    ensures IsNull(v) <==> ToString(v) == "" || ToString(v) == "0"
  {
    if v.Int? { DecimalReadsBack(v.i); }
    DecimalReadsBack(0);
    assert Decimal(0) == "0";
  }

  /** | is the first operand that is not null, or else the second; & is the first operand
      when neither is null, or else 0. */
  lemma AndOr(l: Value, r: Value, colon: Matcher)
    ensures Apply(Or, l, r, colon) == Some(l) || Apply(Or, l, r, colon) == Some(r)
    ensures Apply(And, l, r, colon) == Some(l) || Apply(And, l, r, colon) == Some(Int(0))
    ensures IsNull(Apply(Or, l, r, colon).value) <==> IsNull(l) && IsNull(r)
    ensures IsNull(Apply(And, l, r, colon).value) <==> IsNull(l) || IsNull(r)
    ensures !IsNull(l) ==> Apply(Or, l, r, colon) == Some(l)
    ensures IsNull(l) ==> Apply(Or, l, r, colon) == Some(r)
    ensures IsNull(l) || IsNull(r) ==> Apply(And, l, r, colon) == Some(Int(0))
  {
  }

  /** + and * from 0 and 1 up, and - undoes +. */
  lemma ArithmeticLaws(x: int, y: int, colon: Matcher)
    ensures Apply(Add, Int(x), Int(0), colon) == Some(Int(x))
    ensures Apply(Add, Int(x), Int(y + 1), colon) == Apply(Add, Int(x + 1), Int(y), colon)
    ensures Apply(Mul, Int(x), Int(0), colon) == Some(Int(0))
    ensures Apply(Mul, Int(x), Int(y), colon).Some? && Apply(Mul, Int(x), Int(y + 1), colon)
         == Apply(Add, Apply(Mul, Int(x), Int(y), colon).value, Int(x), colon)
    ensures Apply(Add, Int(x), Int(y), colon).Some?
            && Apply(Sub, Apply(Add, Int(x), Int(y), colon).value, Int(y), colon) == Some(Int(x))
    ensures Apply(Sub, Int(x), Int(y), colon).Some?
            && Apply(Add, Apply(Sub, Int(x), Int(y), colon).value, Int(y), colon) == Some(Int(x))
  {
    Distributes(x, y);
  }

  lemma Distributes(x: int, y: int)
    ensures x * (y + 1) == x * y + x
  {
  }

  /** Quotient times divisor plus remainder is the dividend; the remainder is smaller than
      the divisor and has the sign of the dividend.  Dividing by 0 is an error. */
  lemma DivisionLaws(x: int, y: int, colon: Matcher)
    ensures y == 0 <==> Apply(Div, Int(x), Int(y), colon).None?
    ensures y == 0 <==> Apply(Mod, Int(x), Int(y), colon).None?
    ensures y != 0 ==>
              var q, m := Apply(Div, Int(x), Int(y), colon).value, Apply(Mod, Int(x), Int(y), colon).value;
              && q.Int? && m.Int? && x == y * q.i + m.i && Abs(m.i) < Abs(y) && (m.i == 0 || (m.i < 0) == (x < 0))
  {
    hide Quot;
    if y != 0 { QuotTruncates(x, y); }
  }

  /** Arithmetic reads text as numbers, and text that is none is an error. */
  lemma ArithmeticOnText(op: Op, l: Value, r: Value, colon: Matcher)
    requires 3 <= OpLevel(op) <= 4
    ensures ToArith(l).Some? && ToArith(r).Some? ==>
              Apply(op, l, r, colon) == Apply(op, Int(ToArith(l).value), Int(ToArith(r).value), colon)
    ensures ToArith(l).None? || ToArith(r).None? ==> Apply(op, l, r, colon).None?
  {
    hide ParseInt, Quot;
  }

  /** Blanks, a sign and digits make a number, and nothing else does. */
  lemma NumbersAre(s: CString)
    ensures ParseInt(s).Some? <==> exists n: nat, m: nat :: NumberShape(s, n, m)
  {
    hide Number, Digits, Span;
    if ParseInt(s).Some? {
      var n := Span(s, BLANKS);
      assert NumberShape(s, n, if s[n] in "+-" then 1 else 0);
    }
    if n: nat, m: nat :| NumberShape(s, n, m) {
      ShapeIsNumber(s, n, m);
    }
  }

  lemma ShapeIsNumber(s: CString, n: nat, m: nat)
    requires NumberShape(s, n, m)
    ensures ParseInt(s).Some? && ParseInt(s).value == Atoi(s)
  {
    hide Number, Digits, Span;
    assert s == s[..n] + s[n..];
    SpanIs(s[..n], s[n..], BLANKS);
    var d := s[n + m..];
    AllDigits(d);
    assert d[..|d|] == d && s[n..][m..] == d;
  }

  /** n blanks, a sign if m is 1, and the rest digits. */
  ghost predicate NumberShape(s: CString, n: nat, m: nat)
  {
    && n + m < |s| && m <= 1 && (m == 1 ==> s[n] == '+' || s[n] == '-')
    && (forall k :: 0 <= k < n ==> s[k] in BLANKS) && (forall k :: n + m <= k < |s| ==> Digit(s[k]))
  }

  // ---- Expression trees ----

  datatype Tree =
    | Leaf(s: CString)
    | Quoted(s: CString)
    | Paren(x: Tree)
    | Bin(op: Op, l: Tree, r: Tree)
    | Length(x: Tree)
    | Match(l: Tree, r: Tree)
    | Index(l: Tree, r: Tree)
    | Substr(l: Tree, pos: Tree, len: Tree)

  function Level(e: Tree): (l: nat)
    ensures l <= 6
  {
    if e.Bin? then OpLevel(e.op) else 6
  }

  /** The value of a tree; every operand is evaluated, so an error anywhere is an error. */
  function Val(e: Tree, colon: Matcher): (v: Option<Value>)
  {
    match e
    case Leaf(s) => Some(Str(s))
    case Quoted(s) => Some(Str(s))
    case Paren(x) => Val(x, colon)
    case Bin(op, l, r) =>
      (match (Val(l, colon), Val(r, colon)) case (Some(x), Some(y)) => Apply(op, x, y, colon) case _ => None)
    case Length(x) => (match Val(x, colon) case Some(v) => Some(LengthOf(v)) case None => None)
    case Match(l, r) =>
      (match (Val(l, colon), Val(r, colon))
       case (Some(x), Some(y)) => Some(colon(ToString(x), ToString(y)))
       case _ => None)
    case Index(l, r) =>
      (match (Val(l, colon), Val(r, colon)) case (Some(x), Some(y)) => Some(IndexOf(x, y)) case _ => None)
    case Substr(l, pos, len) =>
      (match (Val(l, colon), Val(pos, colon), Val(len, colon))
       case (Some(x), Some(y), Some(z)) => Some(SubstrOf(x, y, z))
       case _ => None)
  }

  /** An operand that would be taken for something else is quoted. */
  function Operands(s: CString): (toks: Tokens)
  {
    if Keyword(s) || s == "(" || s == ")" then ["quote", s] else [s]
  }

  function Body(e: Tree): (toks: Tokens)
    decreases e, 0
  {
    match e
    case Leaf(s) => Operands(s)
    case Quoted(s) => ["quote", s]
    case Paren(x) => ["("] + (Print(x, 0) + [")"])
    case Bin(op, l, r) => Print(l, OpLevel(op)) + ([OpText(op)] + Print(r, OpLevel(op) + 1))
    case Length(x) => ["length"] + Print(x, 6)
    case Match(l, r) => ["match"] + (Print(l, 6) + Print(r, 6))
    case Index(l, r) => ["index"] + (Print(l, 6) + Print(r, 6))
    case Substr(l, pos, len) => ["substr"] + (Print(l, 6) + (Print(pos, 6) + Print(len, 6)))
  }

  /** The tokens of an expression where level lvl is wanted: in parentheses only if it
      binds less tightly. */
  function Print(e: Tree, lvl: nat): (toks: Tokens)
    decreases e, 1
  {
    if lvl <= Level(e) then Body(e) else ["("] + (Body(e) + [")"])
  }

  // ---- Evaluating printed trees ----

  /** The tokens do not go on with an operator of level lvl or above. */
  ghost predicate NoOp(lvl: nat, toks: Tokens)
  {
    toks == [] || forall l :: lvl <= l <= 5 ==> OpOf(l, toks[0]).None?
  }

  lemma LoopStops(lvl: nat, v: Value, toks: Tokens, colon: Matcher)
    requires lvl <= 5 && NoOp(lvl, toks)
    ensures Loop(lvl, v, toks, colon) == Some((v, toks))
  {
  }

  /** What is expected of level lvl: the value v, and the operators of that level that
      follow it. */
  ghost function Goes(lvl: nat, v: Option<Value>, rest: Tokens, colon: Matcher): (r: Result)
    requires lvl <= 6
  {
    if v.None? then None else if lvl == 6 then Some((v.value, rest)) else Loop(lvl, v.value, rest, colon)
  }

  lemma GoesStops(lvl: nat, v: Option<Value>, rest: Tokens, colon: Matcher)
    requires lvl <= 6 && NoOp(lvl, rest)
    ensures Goes(lvl, v, rest, colon) == if v.None? then None else Some((v.value, rest))
  {
    if v.Some? && lvl < 6 { LoopStops(lvl, v.value, rest, colon); }
  }

  /** One level up: its own operators follow. */
  lemma UpOne(lvl: nat, v: Option<Value>, toks: Tokens, rest: Tokens, colon: Matcher)
    requires lvl <= 5 && NoOp(lvl + 1, rest) && Eval(lvl + 1, toks, colon) == Goes(lvl + 1, v, rest, colon)
    ensures Eval(lvl, toks, colon) == Goes(lvl, v, rest, colon)
  {
    hide Loop;
    GoesStops(lvl + 1, v, rest, colon);
  }

  lemma {:induction false} Up(lvl: nat, v: Option<Value>, toks: Tokens, rest: Tokens, colon: Matcher)
    requires lvl <= 6 && NoOp(lvl + 1, rest) && Eval(6, toks, colon) == Goes(6, v, rest, colon)
    ensures Eval(lvl, toks, colon) == Goes(lvl, v, rest, colon)
    decreases 6 - lvl
  {
    hide Loop, Goes;
    if lvl < 6 {
      assert NoOp(lvl + 2, rest);
      Up(lvl + 1, v, toks, rest, colon);
      UpOne(lvl, v, toks, rest, colon);
    }
  }

  lemma OpHere(op: Op, rest: Tokens)
    ensures OpOf(OpLevel(op), OpText(op)) == Some(op) && NoOp(OpLevel(op) + 1, [OpText(op)] + rest)
  {
    assert ([OpText(op)] + rest)[0] == OpText(op);
    OneLevel(op);
  }

  lemma OneLevel(op: Op)
    ensures forall l :: 0 <= l <= 5 && l != OpLevel(op) ==> OpOf(l, OpText(op)).None?
  {
  }

  lemma NoParenOp(rest: Tokens)
    ensures NoOp(0, [")"] + rest)
  {
    assert ([")"] + rest)[0] == ")";
  }

  lemma LeafEval(s: CString, rest: Tokens, colon: Matcher)
    ensures Eval(6, Operands(s) + rest, colon) == Some((Str(s), rest))
  {
    var toks := Operands(s) + rest;
    if Keyword(s) || s == "(" || s == ")" {
      assert toks[0] == "quote" && toks[1] == s && toks[2..] == rest;
    } else {
      assert toks[0] == s && toks[1..] == rest;
      assert Eval(7, toks, colon) == Operand(toks, colon);
    }
  }

  lemma QuotedEval(s: CString, rest: Tokens, toks: Tokens, colon: Matcher)
    requires toks == ["quote", s] + rest
    ensures Eval(6, toks, colon) == Some((Str(s), rest))
  {
    assert toks[0] == "quote" && toks[1] == s && toks[2..] == rest;
  }

  /** An operator with its operands, seen from its own level. */
  lemma BinEval(op: Op, x: Option<Value>, y: Option<Value>, left: Tokens, right: Tokens, rest: Tokens, toks: Tokens,
                colon: Matcher)
    requires NoOp(OpLevel(op) + 1, rest) && toks == left + ([OpText(op)] + (right + rest))
    requires Eval(OpLevel(op), toks, colon) == Goes(OpLevel(op), x, [OpText(op)] + (right + rest), colon)
    requires Eval(OpLevel(op) + 1, right + rest, colon) == Goes(OpLevel(op) + 1, y, rest, colon)
    ensures Eval(OpLevel(op), toks, colon)
         == Goes(OpLevel(op), if x.Some? && y.Some? then Apply(op, x.value, y.value, colon) else None, rest, colon)
  {
    hide Eval, Apply;
    GoesStops(OpLevel(op) + 1, y, rest, colon);
    OpHere(op, right + rest);
    if x.Some? { LoopOnce(op, x.value, right + rest, colon); }
  }

  /** The operator applied to x and the right operand, and what follows. */
  ghost function Then(op: Op, x: Value, r: Result, colon: Matcher): (t: Result)
  {
    if r.None? then None
    else
      var v := Apply(op, x, r.value.0, colon);
      if v.None? then None else Loop(OpLevel(op), v.value, r.value.1, colon)
  }

  lemma LoopOnce(op: Op, x: Value, rest: Tokens, colon: Matcher)
    ensures Loop(OpLevel(op), x, [OpText(op)] + rest, colon) == Then(op, x, Eval(OpLevel(op) + 1, rest, colon), colon)
  {
    hide Eval, Apply;
    OpHere(op, rest);
    assert ([OpText(op)] + rest)[1..] == rest;
  }

  /** An expression in parentheses. */
  lemma ParenEval(v: Option<Value>, body: Tokens, rest: Tokens, toks: Tokens, colon: Matcher)
    requires toks == ["("] + (body + ([")"] + rest))
    requires Eval(0, body + ([")"] + rest), colon) == Goes(0, v, [")"] + rest, colon)
    ensures Eval(6, toks, colon) == Goes(6, v, rest, colon)
  {
    hide Loop;
    NoParenOp(rest);
    GoesStops(0, v, [")"] + rest, colon);
    assert toks[0] == "(" && toks[1..] == body + ([")"] + rest);
    assert ([")"] + rest)[0] == ")" && ([")"] + rest)[1..] == rest;
    assert Eval(7, toks, colon) == Operand(toks, colon);
  }

  lemma KeywordEval1(x: Option<Value>, a: Tokens, rest: Tokens, toks: Tokens, colon: Matcher)
    requires toks == ["length"] + (a + rest) && Eval(6, a + rest, colon) == Goes(6, x, rest, colon)
    ensures Eval(6, toks, colon) == Goes(6, if x.Some? then Some(LengthOf(x.value)) else None, rest, colon)
  {
    hide LengthOf;
    assert toks[0] == "length" && toks[1..] == a + rest;
  }

  lemma KeywordEval2(key: CString, x: Option<Value>, y: Option<Value>, a: Tokens, b: Tokens, rest: Tokens, toks: Tokens,
                     colon: Matcher)
    requires (key == "match" || key == "index") && toks == [key] + (a + (b + rest))
    requires Eval(6, a + (b + rest), colon) == Goes(6, x, b + rest, colon)
             && Eval(6, b + rest, colon) == Goes(6, y, rest, colon)
    ensures Eval(6, toks, colon) == Goes(6, if x.None? || y.None? then None
              else Some(if key == "match" then colon(ToString(x.value), ToString(y.value))
                        else IndexOf(x.value, y.value)), rest, colon)
  {
    hide IndexOf, ToString;
    assert toks[0] == key && toks[1..] == a + (b + rest);
  }

  lemma KeywordEval3(x: Option<Value>, y: Option<Value>, z: Option<Value>, a: Tokens, b: Tokens, c: Tokens,
                     rest: Tokens, toks: Tokens, colon: Matcher)
    requires toks == ["substr"] + (a + (b + (c + rest)))
             && Eval(6, a + (b + (c + rest)), colon) == Goes(6, x, b + (c + rest), colon)
    requires Eval(6, b + (c + rest), colon) == Goes(6, y, c + rest, colon)
             && Eval(6, c + rest, colon) == Goes(6, z, rest, colon)
    ensures Eval(6, toks, colon)
         == Goes(6, if x.None? || y.None? || z.None? then None else Some(SubstrOf(x.value, y.value, z.value)), rest,
                 colon)
  {
    hide SubstrOf;
    assert toks[0] == "substr" && toks[1..] == a + (b + (c + rest));
  }

  /** Evaluating a printed expression gives its value and leaves what follows it to the
      operators of that level. */
  lemma {:induction false} EvalPrinted(e: Tree, lvl: nat, rest: Tokens, colon: Matcher)
    requires lvl <= 6 && NoOp(lvl + 1, rest)
    ensures Eval(lvl, Print(e, lvl) + rest, colon) == Goes(lvl, Val(e, colon), rest, colon)
    decreases e, if lvl > Level(e) then 1 else 0, 8 - lvl
  {
    hide Eval, Goes, Val, Print, Body;
    if lvl > Level(e) {
      Parenthesised(e, lvl, rest, colon);
    } else if lvl < Level(e) {
      NoOpAbove(lvl + 1, rest);
      EvalPrinted(e, lvl + 1, rest, colon);
      SamePrint(e, lvl);
      UpOne(lvl, Val(e, colon), Print(e, lvl) + rest, rest, colon);
    } else if e.Bin? {
      BinPrinted(e, rest, colon);
    } else {
      KeywordPrinted(e, rest, colon);
    }
  }

  lemma NoOpAbove(lvl: nat, toks: Tokens)
    requires NoOp(lvl, toks)
    ensures NoOp(lvl + 1, toks)
  {
  }

  lemma SamePrint(e: Tree, lvl: nat)
    requires lvl < Level(e)
    ensures Print(e, lvl) == Print(e, lvl + 1)
  {
  }

  lemma {:induction false} Parenthesised(e: Tree, lvl: nat, rest: Tokens, colon: Matcher)
    requires Level(e) < lvl <= 6 && NoOp(lvl + 1, rest)
    ensures Eval(lvl, Print(e, lvl) + rest, colon) == Goes(lvl, Val(e, colon), rest, colon)
    decreases e, 1, 0
  {
    hide Eval, Goes, Val, Body, NoOp;
    var toks := Print(e, lvl) + rest;
    assert toks == ["("] + (Body(e) + ([")"] + rest));
    NoParenOp(rest);
    NoOpAbove(0, [")"] + rest);
    EvalPrinted(e, 0, [")"] + rest, colon);
    assert Print(e, 0) == Body(e);
    ParenEval(Val(e, colon), Body(e), rest, toks, colon);
    Up(lvl, Val(e, colon), toks, rest, colon);
  }

  lemma {:induction false} BinPrinted(e: Tree, rest: Tokens, colon: Matcher)
    requires e.Bin? && NoOp(OpLevel(e.op) + 1, rest)
    ensures Eval(OpLevel(e.op), Print(e, OpLevel(e.op)) + rest, colon) == Goes(OpLevel(e.op), Val(e, colon), rest,
                                                                               colon)
    decreases e, 0, 0
  {
    hide Eval, Goes, Apply;
    var lvl, toks := OpLevel(e.op), Print(e, OpLevel(e.op)) + rest;
    var left, right := Print(e.l, lvl), Print(e.r, lvl + 1);
    BinTokens(e, rest, toks, left, right);
    OpHere(e.op, right + rest);
    EvalPrinted(e.l, lvl, [OpText(e.op)] + (right + rest), colon);
    NoOpAbove(lvl + 1, rest);
    EvalPrinted(e.r, lvl + 1, rest, colon);
    BinEval(e.op, Val(e.l, colon), Val(e.r, colon), left, right, rest, toks, colon);
  }

  lemma BinTokens(e: Tree, rest: Tokens, toks: Tokens, left: Tokens, right: Tokens)
    requires e.Bin? && toks == Print(e, OpLevel(e.op)) + rest && left == Print(e.l, OpLevel(e.op))
             && right == Print(e.r, OpLevel(e.op) + 1)
    ensures toks == left + ([OpText(e.op)] + (right + rest))
  {
    assert Print(e, OpLevel(e.op)) == left + ([OpText(e.op)] + right);
  }

  lemma {:induction false} KeywordPrinted(e: Tree, rest: Tokens, colon: Matcher)
    requires !e.Bin? && NoOp(7, rest)
    ensures Eval(6, Print(e, 6) + rest, colon) == Goes(6, Val(e, colon), rest, colon)
    decreases e, 0, 1
  {
    hide Eval, Print, LengthOf, IndexOf, SubstrOf, ToString, Operands;
    var toks := Body(e) + rest;
    BodyHere(e);
    match e
    case Leaf(s) => LeafEval(s, rest, colon);
    case Quoted(s) => QuotedEval(s, rest, toks, colon);
    case Paren(x) => ParenPrinted(x, rest, toks, colon);
    case Length(x) =>
      EvalPrinted(x, 6, rest, colon);
      KeywordEval1(Val(x, colon), Print(x, 6), rest, toks, colon);
    case Match(l, r) =>
      EvalPrinted(l, 6, Print(r, 6) + rest, colon);
      EvalPrinted(r, 6, rest, colon);
      assert toks == ["match"] + (Print(l, 6) + (Print(r, 6) + rest));
      KeywordEval2("match", Val(l, colon), Val(r, colon), Print(l, 6), Print(r, 6), rest, toks, colon);
    case Index(l, r) =>
      EvalPrinted(l, 6, Print(r, 6) + rest, colon);
      EvalPrinted(r, 6, rest, colon);
      assert toks == ["index"] + (Print(l, 6) + (Print(r, 6) + rest));
      KeywordEval2("index", Val(l, colon), Val(r, colon), Print(l, 6), Print(r, 6), rest, toks, colon);
    case Substr(l, pos, len) => SubstrPrinted(l, pos, len, rest, toks, colon);
  }

  lemma {:induction false} ParenPrinted(x: Tree, rest: Tokens, toks: Tokens, colon: Matcher)
    requires NoOp(7, rest) && toks == ["("] + (Print(x, 0) + [")"]) + rest
    ensures Eval(6, toks, colon) == Goes(6, Val(x, colon), rest, colon)
    decreases x, 2, 0
  {
    hide Eval, Goes, Val, Print, NoOp;
    NoParenOp(rest);
    NoOpAbove(0, [")"] + rest);
    EvalPrinted(x, 0, [")"] + rest, colon);
    assert toks == ["("] + (Print(x, 0) + ([")"] + rest));
    ParenEval(Val(x, colon), Print(x, 0), rest, toks, colon);
  }

  lemma {:induction false} SubstrPrinted(l: Tree, pos: Tree, len: Tree, rest: Tokens, toks: Tokens, colon: Matcher)
    requires toks == ["substr"] + (Print(l, 6) + (Print(pos, 6) + Print(len, 6))) + rest && NoOp(7, rest)
    ensures Eval(6, toks, colon) == Goes(6, Val(Substr(l, pos, len), colon), rest, colon)
    decreases Substr(l, pos, len), 0, 0
  {
    hide Eval, Goes, Print, SubstrOf;
    var p, q, r := Print(l, 6), Print(pos, 6), Print(len, 6);
    EvalPrinted(l, 6, q + (r + rest), colon);
    EvalPrinted(pos, 6, r + rest, colon);
    EvalPrinted(len, 6, rest, colon);
    assert toks == ["substr"] + (p + (q + (r + rest)));
    KeywordEval3(Val(l, colon), Val(pos, colon), Val(len, colon), p, q, r, rest, toks, colon);
  }

  lemma BodyHere(e: Tree)
    requires !e.Bin?
    ensures Print(e, 6) == Body(e)
  {
  }

  /** Evaluating what is printed for a tree gives the value of the tree and uses up the
      tokens; an error in the tree is an error. */
  lemma EvalWhole(e: Tree, colon: Matcher)
    ensures Eval(0, Print(e, 0), colon) == if Val(e, colon).None? then None else Some((Val(e, colon).value, []))
  {
    hide Eval, Val, Print;
    EvalPrinted(e, 0, [], colon);
    assert Print(e, 0) + [] == Print(e, 0);
    GoesStops(0, Val(e, colon), [], colon);
  }

  // ---- Every accepted list of tokens is a printed tree ----

  /** Level lvl has read the tree e: it needs no parentheses there, has the value, and its
      tokens are those in front of the rest. */
  ghost predicate Read(lvl: nat, toks: Tokens, e: Tree, v: Value, rest: Tokens, colon: Matcher)
  {
    lvl <= Level(e) && Val(e, colon) == Some(v) && toks == Print(e, lvl) + rest
  }

  lemma {:induction false} EvalReads(lvl: nat, toks: Tokens, colon: Matcher) returns (e: Tree)
    requires lvl <= 6 && Eval(lvl, toks, colon).Some?
    ensures Read(lvl, toks, e, Eval(lvl, toks, colon).value.0, Eval(lvl, toks, colon).value.1, colon)
    decreases |toks|, 16 - 2 * lvl
  {
    hide Val, Body, Apply, Keywords, Operand;
    if lvl == 6 {
      e := KeywordReads(toks, colon);
    } else {
      var first := EvalReads(lvl + 1, toks, colon);
      var r := Eval(lvl + 1, toks, colon).value;
      Lowered(lvl, toks, first, r.0, r.1, colon);
      e := LoopReads(lvl, first, r.0, r.1, toks, colon);
    }
  }

  lemma Lowered(lvl: nat, toks: Tokens, e: Tree, v: Value, rest: Tokens, colon: Matcher)
    requires Read(lvl + 1, toks, e, v, rest, colon)
    ensures Read(lvl, toks, e, v, rest, colon)
  {
    hide Val, Body;
  }

  lemma {:induction false} LoopReads(lvl: nat, l: Tree, v: Value, toks: Tokens, all: Tokens, colon: Matcher)
    returns (e: Tree)
    requires lvl <= 5 && Read(lvl, all, l, v, toks, colon) && |toks| < |all| && Loop(lvl, v, toks, colon).Some?
    ensures Read(lvl, all, e, Loop(lvl, v, toks, colon).value.0, Loop(lvl, v, toks, colon).value.1, colon)
    decreases |toks|, 17
  {
    hide Eval, Apply, Read;
    if toks == [] || OpOf(lvl, toks[0]).None? {
      e := l;
    } else {
      var op := OpOf(lvl, toks[0]).value;
      var right := EvalReads(lvl + 1, toks[1..], colon);
      var r := Eval(lvl + 1, toks[1..], colon).value;
      var next := Apply(op, v, r.0, colon).value;
      JoinRead(lvl, op, l, v, toks, all, right, r.0, r.1, next, colon);
      e := LoopReads(lvl, Bin(op, l, right), next, r.1, all, colon);
    }
  }

  lemma JoinRead(lvl: nat, op: Op, l: Tree, v: Value, toks: Tokens, all: Tokens, right: Tree, w: Value, rest: Tokens,
                 next: Value, colon: Matcher)
    requires toks != [] && toks[0] == OpText(op) && lvl == OpLevel(op) && Apply(op, v, w, colon) == Some(next)
    requires Read(lvl, all, l, v, toks, colon) && Read(lvl + 1, toks[1..], right, w, rest, colon)
    ensures Read(lvl, all, Bin(op, l, right), next, rest, colon)
  {
    hide Apply;
    var e := Bin(op, l, right);
    var left, more := Print(l, lvl), Print(right, lvl + 1);
    assert Print(e, lvl) == left + ([OpText(op)] + more);
    assert toks == [OpText(op)] + (more + rest);
    assert left + ([OpText(op)] + (more + rest)) == left + ([OpText(op)] + more) + rest;
  }

  lemma {:induction false} KeywordReads(toks: Tokens, colon: Matcher) returns (e: Tree)
    requires Eval(6, toks, colon).Some?
    ensures Read(6, toks, e, Eval(6, toks, colon).value.0, Eval(6, toks, colon).value.1, colon)
    decreases |toks|, 3
  {
    hide Val, Body, Read, LengthOf, IndexOf, SubstrOf, Operand, Loop;
    assert Eval(6, toks, colon) == Keywords(toks, colon);
    if toks == [] || !Keyword(toks[0]) {
      e := OperandReads(toks, colon);
    } else if toks[0] == "quote" {
      e := Quoted(toks[1]);
      ReadQuote(toks, colon);
    } else {
      var a := EvalReads(6, toks[1..], colon);
      var r := Eval(6, toks[1..], colon).value;
      if toks[0] == "length" {
        e := Length(a);
        ReadLength(toks, a, r.0, r.1, colon);
      } else {
        e := PairReads(toks, a, r.0, r.1, colon);
      }
    }
  }

  lemma {:induction false} PairReads(toks: Tokens, a: Tree, x: Value, t1: Tokens, colon: Matcher) returns (e: Tree)
    requires toks != [] && (toks[0] == "match" || toks[0] == "index" || toks[0] == "substr")
    requires Read(6, toks[1..], a, x, t1, colon) && Eval(6, toks[1..], colon) == Some((x, t1))
             && Keywords(toks, colon).Some?
    ensures Read(6, toks, e, Keywords(toks, colon).value.0, Keywords(toks, colon).value.1, colon)
    decreases |toks|, 2
  {
    hide Val, Body, Read, IndexOf, SubstrOf, Operand, Loop;
    var b := EvalReads(6, t1, colon);
    var r := Eval(6, t1, colon).value;
    if toks[0] == "substr" {
      var c := EvalReads(6, r.1, colon);
      var n := Eval(6, r.1, colon).value;
      e := Substr(a, b, c);
      ReadSubstr(toks, a, x, t1, b, r.0, r.1, c, n.0, n.1, colon);
    } else {
      e := if toks[0] == "match" then Match(a, b) else Index(a, b);
      ReadPair(toks, a, x, t1, b, r.0, r.1, colon);
    }
  }

  lemma {:induction false} OperandReads(toks: Tokens, colon: Matcher) returns (e: Tree)
    requires (toks == [] || !Keyword(toks[0])) && Eval(7, toks, colon).Some?
    ensures Read(6, toks, e, Eval(7, toks, colon).value.0, Eval(7, toks, colon).value.1, colon)
    decreases |toks|, 2
  {
    hide Val, Body, Read, Loop, Keywords;
    assert Eval(7, toks, colon) == Operand(toks, colon);
    if toks[0] == "(" {
      var x := EvalReads(0, toks[1..], colon);
      var r := Eval(0, toks[1..], colon).value;
      e := Paren(x);
      ReadParen(toks, x, r.0, r.1, colon);
    } else {
      e := Leaf(toks[0]);
      ReadLeaf(toks, colon);
    }
  }

  lemma ReadQuote(toks: Tokens, colon: Matcher)
    requires |toks| > 1 && toks[0] == "quote"
    ensures Read(6, toks, Quoted(toks[1]), Str(toks[1]), toks[2..], colon)
  {
    assert toks == ["quote", toks[1]] + toks[2..];
  }

  lemma ReadLeaf(toks: Tokens, colon: Matcher)
    requires toks != [] && !Keyword(toks[0]) && toks[0] != "(" && toks[0] != ")"
    ensures Read(6, toks, Leaf(toks[0]), Str(toks[0]), toks[1..], colon)
  {
    assert toks == [toks[0]] + toks[1..];
  }

  lemma ReadParen(toks: Tokens, x: Tree, v: Value, rest: Tokens, colon: Matcher)
    requires toks != [] && toks[0] == "(" && Read(0, toks[1..], x, v, rest, colon) && rest != [] && rest[0] == ")"
    ensures Read(6, toks, Paren(x), v, rest[1..], colon)
  {
    var body := Print(x, 0);
    assert Print(Paren(x), 6) == ["("] + (body + [")"]);
    assert rest == [")"] + rest[1..];
    assert toks == ["("] + (body + ([")"] + rest[1..]));
  }

  lemma ReadLength(toks: Tokens, a: Tree, x: Value, rest: Tokens, colon: Matcher)
    requires toks != [] && toks[0] == "length" && Read(6, toks[1..], a, x, rest, colon)
    ensures Read(6, toks, Length(a), LengthOf(x), rest, colon)
  {
    hide LengthOf;
    assert toks == ["length"] + (Print(a, 6) + rest);
    assert Print(Length(a), 6) == ["length"] + Print(a, 6);
  }

  lemma ReadPair(toks: Tokens, a: Tree, x: Value, t1: Tokens, b: Tree, y: Value, rest: Tokens, colon: Matcher)
    requires toks != [] && (toks[0] == "match" || toks[0] == "index")
    requires Read(6, toks[1..], a, x, t1, colon) && Read(6, t1, b, y, rest, colon)
    ensures toks[0] == "match" ==> Read(6, toks, Match(a, b), colon(ToString(x), ToString(y)), rest, colon)
    ensures toks[0] == "index" ==> Read(6, toks, Index(a, b), IndexOf(x, y), rest, colon)
  {
    hide IndexOf, ToString;
    var p, q := Print(a, 6), Print(b, 6);
    assert toks == [toks[0]] + (p + (q + rest));
    assert toks == [toks[0]] + (p + q) + rest;
    assert Print(Match(a, b), 6) == ["match"] + (p + q) && Print(Index(a, b), 6) == ["index"] + (p + q);
  }

  lemma ReadSubstr(toks: Tokens, a: Tree, x: Value, t1: Tokens, b: Tree, y: Value, t2: Tokens, c: Tree, z: Value,
                   rest: Tokens,
                   colon: Matcher)
    requires toks != [] && toks[0] == "substr"
    requires Read(6, toks[1..], a, x, t1, colon) && Read(6, t1, b, y, t2, colon) && Read(6, t2, c, z, rest, colon)
    ensures Read(6, toks, Substr(a, b, c), SubstrOf(x, y, z), rest, colon)
  {
    hide SubstrOf;
    var p, q, r := Print(a, 6), Print(b, 6), Print(c, 6);
    assert toks == ["substr"] + (p + (q + (r + rest)));
    assert toks == ["substr"] + (p + (q + r)) + rest;
    assert Print(Substr(a, b, c), 6) == ["substr"] + (p + (q + r));
  }

  /** The arguments are an expression with value v exactly when they are the tokens of a
      tree, with parentheses and quotes where it has them, whose value is v. */
  lemma EvalIsPrint(toks: Tokens, v: Value, colon: Matcher)
    ensures Eval(0, toks, colon) == Some((v, [])) <==> exists e: Tree :: Print(e, 0) == toks && Val(e, colon) == Some(v)
  {
    hide Eval, Val, Print;
    if Eval(0, toks, colon) == Some((v, [])) {
      var e := EvalReads(0, toks, colon);
      assert Print(e, 0) + [] == Print(e, 0);
      assert Print(e, 0) == toks && Val(e, colon) == Some(v);
    }
    if exists e: Tree :: Print(e, 0) == toks && Val(e, colon) == Some(v) {
      var e: Tree :| Print(e, 0) == toks && Val(e, colon) == Some(v);
      EvalWhole(e, colon);
    }
  }

  // ---- The evaluator ----

  /** A call ended the way the function says. */
  ghost predicate Did(r: Result, ok: bool, v: Value, args: Tokens)
  {
    ok == r.Some? && (ok ==> r.value == (v, args))
  }

  lemma EvalIs(lvl: nat, toks: Tokens, colon: Matcher)
    requires lvl <= 5
    ensures Eval(lvl, toks, colon) == GoOn(lvl, Eval(lvl + 1, toks, colon), colon)
  {
  }

  ghost function GoOn(lvl: nat, r: Result, colon: Matcher): (t: Result)
    requires lvl <= 5
  {
    if r.None? then None else Loop(lvl, r.value.0, r.value.1, colon)
  }

  lemma LoopIs(lvl: nat, l: Value, toks: Tokens, colon: Matcher)
    requires lvl <= 5
    ensures toks == [] || OpOf(lvl, toks[0]).None? ==> Loop(lvl, l, toks, colon) == Some((l, toks))
    ensures toks != [] && OpOf(lvl, toks[0]).Some? ==>
              Loop(lvl, l, toks, colon) == Then(OpOf(lvl, toks[0]).value, l, Eval(lvl + 1, toks[1..], colon), colon)
  {
    hide Eval, Apply;
  }

  class Evaluator {
    var args: Tokens
    const colon: Matcher

    constructor (args: Tokens, colon: Matcher)
      ensures this.args == args && this.colon == colon
    {
      this.args, this.colon := args, colon;
    }

    /** nextarg: the next token is str. */
    predicate NextArg(str: CString)
      reads this`args
    {
      args != [] && args[0] == str
    }

    /** Bare operands and ( expr ). */
    method Eval7() returns (ok: bool, v: Value)
      modifies this`args
      ensures Did(Eval(7, old(args), colon), ok, v, args)
      decreases |args|, 2
    {
      hide Loop;
      assert Eval(7, args, colon) == Operand(args, colon);
      ok, v := false, Int(0);
      if args == [] {
        return;
      }
      if NextArg("(") {
        args := args[1..];
        ok, v := Eval0();
        if !ok || !NextArg(")") {
          ok := false;
          return;
        }
        args := args[1..];
        return;
      }
      if NextArg(")") {
        return;
      }
      ok, v := true, Str(args[0]);
      args := args[1..];
    }

    /** The keywords. */
    method Eval6() returns (ok: bool, v: Value)
      modifies this`args
      ensures Did(Eval(6, old(args), colon), ok, v, args)
      decreases |args|, 4
    {
      hide Loop, Operand, LengthOf, IndexOf, SubstrOf;
      assert Eval(6, args, colon) == Keywords(args, colon);
      if args == [] || !Keyword(args[0]) {
        ok, v := Eval7();
        return;
      }
      var key := args[0];
      ok, v := false, Int(0);
      args := args[1..];
      if key == "quote" {
        if args != [] {
          ok, v := true, Str(args[0]);
          args := args[1..];
        }
        return;
      }
      var l, r, n;
      ok, l := Eval6();
      if !ok {
        return;
      }
      if key == "length" {
        v := LengthOf(l);
        return;
      }
      ok, r := Eval6();
      if !ok {
        return;
      }
      if key == "match" {
        v := colon(ToString(l), ToString(r));
      } else if key == "index" {
        v := FirstOf(l, r);
      } else {
        ok, n := Eval6();
        if !ok {
          return;
        }
        v := Part(l, r, n);
      }
    }

    method FirstOf(l: Value, r: Value) returns (v: Value)
      ensures v == IndexOf(l, r)
    {
      var s, t := ToString(l), ToString(r);
      var i := CSpan(s, t) + 1;
      if i == |s| + 1 {
        i := 0;
      }
      v := Int(i);
    }

    method Part(l: Value, i1: Value, i2: Value) returns (v: Value)
      ensures v == SubstrOf(l, i1, i2)
    {
      hide ToString, ToArith;
      var s, p, n := ToString(l), ToArith(i1), ToArith(i2);
      if p.None? || n.None? || p.value > |s| || p.value <= 0 || n.value <= 0 {
        return Str([]);
      }
      var from := p.value - 1;
      var to := if from + n.value > |s| then |s| else from + n.value;
      v := Str(s[from..to]);
    }

    /** The : operator. */
    method Eval5() returns (ok: bool, l: Value)
      modifies this`args
      ensures Did(Eval(5, old(args), colon), ok, l, args)
      decreases |args|, 6
    {
      hide Eval, Loop, Apply, OpOf;
      ghost var goal := Eval(5, args, colon);
      EvalIs(5, args, colon);
      ok, l := Eval6();
      if !ok {
        return;
      }
      while true
        invariant |args| < |old(args)| && Loop(5, l, args, colon) == goal
        decreases |args|
      {
        LoopIs(5, l, args, colon);
        var op;
        if NextArg(":") {
          op := Colon;
        } else {
          NoOpOf(5, args);
          return;
        }
        ThisOp(op, args);
        args := args[1..];
        var r;
        ok, r := Eval6();
        if !ok {
          return;
        }
        ApplyColon(l, r, colon);
        l := colon(ToString(l), ToString(r));
      }
    }

    /** The operators *, / and %. */
    method Eval4() returns (ok: bool, l: Value)
      modifies this`args
      ensures Did(Eval(4, old(args), colon), ok, l, args)
      decreases |args|, 8
    {
      hide Eval, Loop, Apply, OpOf;
      ghost var goal := Eval(4, args, colon);
      EvalIs(4, args, colon);
      ok, l := Eval5();
      if !ok {
        return;
      }
      while true
        invariant |args| < |old(args)| && Loop(4, l, args, colon) == goal
        decreases |args|
      {
        LoopIs(4, l, args, colon);
        var op;
        if NextArg("*") {
          op := Mul;
        } else if NextArg("/") {
          op := Div;
        } else if NextArg("%") {
          op := Mod;
        } else {
          NoOpOf(4, args);
          return;
        }
        ThisOp(op, args);
        args := args[1..];
        var r;
        ok, r := Eval5();
        if !ok {
          return;
        }
        var val := ArithmeticCommon(op, l, r);
        if val.None? {
          ok := false;
          return;
        }
        l := Int(val.value);
      }
    }

    /** The operators + and -. */
    method Eval3() returns (ok: bool, l: Value)
      modifies this`args
      ensures Did(Eval(3, old(args), colon), ok, l, args)
      decreases |args|, 10
    {
      hide Eval, Loop, Apply, OpOf;
      ghost var goal := Eval(3, args, colon);
      EvalIs(3, args, colon);
      ok, l := Eval4();
      if !ok {
        return;
      }
      while true
        invariant |args| < |old(args)| && Loop(3, l, args, colon) == goal
        decreases |args|
      {
        LoopIs(3, l, args, colon);
        var op;
        if NextArg("+") {
          op := Add;
        } else if NextArg("-") {
          op := Sub;
        } else {
          NoOpOf(3, args);
          return;
        }
        ThisOp(op, args);
        args := args[1..];
        var r;
        ok, r := Eval4();
        if !ok {
          return;
        }
        var val := ArithmeticCommon(op, l, r);
        if val.None? {
          ok := false;
          return;
        }
        l := Int(val.value);
      }
    }

    /** Comparisons. */
    method Eval2() returns (ok: bool, l: Value)
      modifies this`args
      ensures Did(Eval(2, old(args), colon), ok, l, args)
      decreases |args|, 12
    {
      hide Eval, Loop, Apply, OpOf;
      ghost var goal := Eval(2, args, colon);
      EvalIs(2, args, colon);
      ok, l := Eval3();
      if !ok {
        return;
      }
      while true
        invariant |args| < |old(args)| && Loop(2, l, args, colon) == goal
        decreases |args|
      {
        LoopIs(2, l, args, colon);
        var op;
        if NextArg("<") {
          op := Lt;
        } else if NextArg("<=") {
          op := Le;
        } else if NextArg("=") {
          op := Eq;
        } else if NextArg("==") {
          op := EqEq;
        } else if NextArg("!=") {
          op := Ne;
        } else if NextArg(">=") {
          op := Ge;
        } else if NextArg(">") {
          op := Gt;
        } else {
          NoOpOf(2, args);
          return;
        }
        ThisOp(op, args);
        args := args[1..];
        var r;
        ok, r := Eval3();
        if !ok {
          return;
        }
        ApplyCmp(op, l, r, colon);
        var less := CmpCommon(op, Coerced(l), Coerced(r));
        l := Int(if less then 1 else 0);
      }
    }

    /** The operator &. */
    method Eval1() returns (ok: bool, l: Value)
      modifies this`args
      ensures Did(Eval(1, old(args), colon), ok, l, args)
      decreases |args|, 14
    {
      hide Eval, Loop, Apply, OpOf;
      ghost var goal := Eval(1, args, colon);
      EvalIs(1, args, colon);
      ok, l := Eval2();
      if !ok {
        return;
      }
      while true
        invariant |args| < |old(args)| && Loop(1, l, args, colon) == goal
        decreases |args|
      {
        LoopIs(1, l, args, colon);
        var op;
        if NextArg("&") {
          op := And;
        } else {
          NoOpOf(1, args);
          return;
        }
        ThisOp(op, args);
        args := args[1..];
        var r;
        ok, r := Eval2();
        if !ok {
          return;
        }
        ApplyAnd(l, r, colon);
        if IsNull(l) || IsNull(r) {
          l := Int(0);
        }
      }
    }

    /** The operator |. */
    method Eval0() returns (ok: bool, l: Value)
      modifies this`args
      ensures Did(Eval(0, old(args), colon), ok, l, args)
      decreases |args|, 16
    {
      hide Eval, Loop, Apply, OpOf;
      ghost var goal := Eval(0, args, colon);
      EvalIs(0, args, colon);
      ok, l := Eval1();
      if !ok {
        return;
      }
      while true
        invariant |args| < |old(args)| && Loop(0, l, args, colon) == goal
        decreases |args|
      {
        LoopIs(0, l, args, colon);
        var op;
        if NextArg("|") {
          op := Or;
        } else {
          NoOpOf(0, args);
          return;
        }
        ThisOp(op, args);
        args := args[1..];
        var r;
        ok, r := Eval1();
        if !ok {
          return;
        }
        ApplyOr(l, r, colon);
        if IsNull(l) {
          l := r;
        }
      }
    }

    /** arithmetic_common: both sides must be numbers, and the divisor not 0. */
    method ArithmeticCommon(op: Op, l: Value, r: Value) returns (v: Option<int>)
      requires OpLevel(op) == 3 || OpLevel(op) == 4
      ensures Apply(op, l, r, colon) == if v.None? then None else Some(Int(v.value))
    {
      hide ToArith, Quot;
      var li, ri := ToArith(l), ToArith(r);
      if li.None? || ri.None? {
        return None;
      }
      if op.Add? {
        return Some(li.value + ri.value);
      }
      if op.Sub? {
        return Some(li.value - ri.value);
      }
      if op.Mul? {
        return Some(li.value * ri.value);
      }
      if ri.value == 0 {
        return None;
      }
      if op.Div? {
        return Some(Quot(li.value, ri.value));
      }
      return Some(li.value - ri.value * Quot(li.value, ri.value));
    }

    /** expr_main: all arguments must be used up. */
    method Run() returns (ok: bool, v: Value)
      modifies this`args
      ensures ok <==> Eval(0, old(args), colon).Some? && Eval(0, old(args), colon).value.1 == []
      ensures ok ==> v == Eval(0, old(args), colon).value.0
    {
      hide Eval;
      ok, v := Eval0();
      ok := ok && args == [];
    }
  }

  lemma NoOpOf(lvl: nat, toks: Tokens)
    requires lvl <= 5 && (toks != [] ==> forall o :: OpLevel(o) == lvl ==> OpText(o) != toks[0])
    ensures toks == [] || OpOf(lvl, toks[0]).None?
  {
  }

  lemma ThisOp(op: Op, toks: Tokens)
    requires toks != [] && toks[0] == OpText(op)
    ensures OpOf(OpLevel(op), toks[0]) == Some(op)
  {
    OpHere(op, []);
  }

  lemma ApplyColon(l: Value, r: Value, colon: Matcher)
    ensures Apply(Colon, l, r, colon) == Some(colon(ToString(l), ToString(r)))
  {
  }

  lemma ApplyCmp(op: Op, l: Value, r: Value, colon: Matcher)
    requires OpLevel(op) == 2
    ensures Apply(op, l, r, colon) == Some(Int(if CmpCommon(op, Coerced(l), Coerced(r)) then 1 else 0))
  {
  }

  lemma ApplyAnd(l: Value, r: Value, colon: Matcher)
    ensures Apply(And, l, r, colon) == Some(if IsNull(l) || IsNull(r) then Int(0) else l)
  {
  }

  lemma ApplyOr(l: Value, r: Value, colon: Matcher)
    ensures Apply(Or, l, r, colon) == Some(if IsNull(l) then r else l)
  {
  }

  /** Running the program on a printed tree gives the tree's value. */
  method RunTree(e: Tree, colon: Matcher) returns (ok: bool, v: Value)
    ensures ok == Val(e, colon).Some? && (ok ==> Some(v) == Val(e, colon))
  {
    hide Eval, Val, Print;
    EvalWhole(e, colon);
    var machine := new Evaluator(Print(e, 0), colon);
    ok, v := machine.Run();
  }
}
