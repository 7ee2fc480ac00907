/** Dependency lines: what add_split_dependencies of dpkg.c reads from a field such as
    "libc6 (>= 2.3), mail | news (<< 4)". */
module DepLines {
  import opened Bits
  import opened CStrings
  import opened DebVersion

  /** One alternative: a package name and a relation to a version. */
  datatype Alt = Alt(name: CString, op: Operator, version: CString)

  /** The operator that a run of the characters <, = and > stands for.  strncmp compares
      only as many characters as there are, so a single < or > counts as << or >>. */
  function ParseOp(o: CString): (op: Option<Operator>)
  {
    if o == "=" then Some(Equal)
    else if o == "<" || o == "<<" then Some(Less)
    else if o == "<=" then Some(LessEqual)
    else if o == ">" || o == ">>" then Some(More)
    else if o == ">=" then Some(MoreEqual)
    else None
  }

  /** What follows the first parenthesis, without blanks and parentheses. */
  function Clause(f: CString): (v: CString)
  {
    Skip(f[CSpan(f, "(")..], " (")
  }

  function VersionPart(f: CString): (v: CString)
  {
    var v := Clause(f);
    Upto(Skip(v[Span(v, "<=>")..], " "), " )")
  }

  /** One alternative; None for an operator that does not exist, which ends the program. */
  function ParseAlt(f: CString): (r: Option<Alt>)
  {
    var name := Upto(f, " (");
    if CSpan(f, "(") == |f| then Some(Alt(name, Any, "ANY"))
    else match ParseOp(Clause(f)[..Span(Clause(f), "<=>")])
      case None => None
      case Some(op) => Some(Alt(name, op, VersionPart(f)))
  }

  /** The alternative has an operator if it has a version. */
  predicate AltOk(f: CString)
  {
    CSpan(f, "(") < |f| ==> Span(Clause(f), "<=>") > 0
  }

  /** The alternatives of a field, blanks in front of them left out. */
  function Parts(field: CString): (ps: seq<CString>)
  {
    var ts := Tokens(field, '|');
    seq(|ts|, i requires 0 <= i < |ts| => Skip(ts[i], " "))
  }

  /** The fields of a line. */
  function Fields(line: CString): (fs: seq<CString>)
  {
    var ts := Tokens(line, ',');
    seq(|ts|, i requires 0 <= i < |ts| => Skip(ts[i], " "))
  }

  predicate FieldOk(field: CString)
  {
    Parts(field) != [] && forall i :: 0 <= i < |Parts(field)| ==> AltOk(Parts(field)[i])
  }

  /** Lines add_split_dependencies is made for: no field is blank. */
  predicate LineOk(line: CString)
  {
    Fields(line) != [] && forall i :: 0 <= i < |Fields(line)| ==> FieldOk(Fields(line)[i])
  }

  predicate FieldLegal(field: CString)
  {
    forall i :: 0 <= i < |Parts(field)| ==> ParseAlt(Parts(field)[i]).Some?
  }

  /** Every operator exists. */
  predicate Legal(line: CString)
  {
    forall i :: 0 <= i < |Fields(line)| ==> FieldLegal(Fields(line)[i])
  }

  function Alts(field: CString): (alts: seq<Alt>)
    requires FieldLegal(field)
    ensures |alts| == |Parts(field)|
  {
    var ps := Parts(field);
    seq(|ps|, i requires 0 <= i < |ps| && ParseAlt(ps[i]).Some? => ParseAlt(ps[i]).value)
  }

  /** The dependencies of a line, each a choice of alternatives. */
  function Groups(line: CString): (gs: seq<seq<Alt>>)
    requires Legal(line)
    ensures |gs| == |Fields(line)|
  {
    var fs := Fields(line);
    seq(|fs|, i requires 0 <= i < |fs| && FieldLegal(fs[i]) => Alts(fs[i]))
  }

  // ---- Reading back what is written ----

  function OpText(op: Operator): (s: CString)
    requires !op.Null? && !op.Any?
  {
    match op
    case Equal => "="
    case Less => "<<"
    case LessEqual => "<="
    case More => ">>"
    case MoreEqual => ">="
  }

  /** The text of a version clause from its operator to the end. */
  function ClauseText(o: CString, version: CString, end: CString): (s: CString)
  {
    o + (" " + (version + end))
  }

  function PrintAlt(a: Alt): (s: CString)
    requires !a.op.Null?
  {
    if a.op.Any? then a.name else a.name + (" (" + ClauseText(OpText(a.op), a.version, ")"))
  }

  /** No character of s is one of those a line is divided at. */
  predicate Plain(s: CString)
  {
    s != [] && forall i :: 0 <= i < |s| ==> s[i] !in " (),|<=>"
  }

  predicate Printable(a: Alt)
  {
    Plain(a.name) && if a.op.Any? then a.version == "ANY" else !a.op.Null? && Plain(a.version)
  }

  lemma OpTextParses(op: Operator)
    requires !op.Null? && !op.Any?
    ensures ParseOp(OpText(op)) == Some(op) && OpText(op) != []
            && forall i :: 0 <= i < |OpText(op)| ==> OpText(op)[i] in "<=>"
  {
  }

  lemma PlainNot(s: CString, chars: string)
    requires Plain(s) && forall i :: 0 <= i < |chars| ==> chars[i] in " (),|<=>"
    ensures forall i :: 0 <= i < |s| ==> s[i] !in chars
  {
  }

  /** An operator and a version read back. */
  lemma VersionReadsBack(o: CString, version: CString, end: CString, v: CString)
    requires Plain(version) && (forall i :: 0 <= i < |o| ==> o[i] in "<=>") && end != [] && end[0] == ')'
    requires v == ClauseText(o, version, end)
    ensures Span(v, "<=>") == |o| && v[..|o|] == o && Upto(Skip(v[|o|..], " "), " )") == version
  {
    hide CSpan, Span;
    var rest := version + end;
    SpanIs(o, " " + rest, "<=>");
    assert v[|o|..] == " " + rest;
    BlankFirst(version, end, rest);
    PlainNot(version, " )");
    CSpanIs(version, end, " )");
  }

  lemma BlankFirst(version: CString, end: CString, rest: CString)
    requires Plain(version) && rest == version + end
    ensures Skip(" " + rest, " ") == rest
  {
    hide Span;
    PlainNot(version, " ");
    assert rest[0] == version[0];
    SpanIs(" ", rest, " ");
  }

  /** The name ends at the blank, the clause starts at the parenthesis. */
  lemma ClauseReadsBack(name: CString, v: CString, f: CString)
    requires Plain(name) && v != [] && v[0] !in " (" && f == name + (" (" + v)
    ensures CSpan(f, "(") < |f| && Clause(f) == v && Upto(f, " (") == name
  {
    hide CSpan, Span, Plain;
    NameEnds(name, " (" + v);
    ParenFound(name, v, f);
    ParenSkipped(v);
  }

  lemma NameEnds(name: CString, rest: CString)
    requires Plain(name) && rest != [] && rest[0] in " ("
    ensures Upto(name + rest, " (") == name
  {
    hide CSpan, Plain;
    PlainNot(name, " (");
    CSpanIs(name, rest, " (");
  }

  lemma ParenFound(name: CString, v: CString, f: CString)
    requires Plain(name) && f == name + (" (" + v)
    ensures CSpan(f, "(") == |name| + 1 && f[|name| + 1..] == "(" + v
  {
    hide CSpan, Plain;
    PlainNot(name, "(");
    var before: CString := name + " ";
    assert f == before + ("(" + v);
    CSpanIs(before, "(" + v, "(");
  }

  lemma ParenSkipped(v: CString)
    requires v != [] && v[0] !in " ("
    ensures Skip("(" + v, " (") == v
  {
    hide Span;
    SpanIs("(", v, " (");
  }

  /** An alternative, with a blank behind it or not, reads back. */
  lemma AltReadsBack(a: Alt, blank: CString, f: CString)
    requires Printable(a) && (blank == "" || blank == " ") && f == PrintAlt(a) + blank
    ensures ParseAlt(f) == Some(a) && AltOk(f)
  {
    hide CSpan, Span, Plain, ParseOp, Clause;
    if a.op.Any? {
      BareReadsBack(a.name, blank, f);
    } else {
      OpTextParses(a.op);
      var o, end := OpText(a.op), ")" + blank;
      var v := ClauseText(o, a.version, end);
      assert f == a.name + (" (" + v);
      VersionReadsBack(o, a.version, end, v);
      assert v[0] == o[0];
      ClauseReadsBack(a.name, v, f);
    }
  }

  lemma BareReadsBack(name: CString, blank: CString, f: CString)
    requires Plain(name) && (blank == "" || blank == " ") && f == name + blank
    ensures CSpan(f, "(") == |f| && Upto(f, " (") == name
  {
    hide CSpan, Span;
    PlainNot(name, " (");
    PlainNot(name, "(");
    CSpanIs(name, blank, " (");
    CSpanIs(f, [], "(");
    assert f + [] == f;
  }

  // ---- Whole lines ----

  predicate PrintableGroup(alts: seq<Alt>)
  {
    |alts| > 0 && forall i :: 0 <= i < |alts| ==> Printable(alts[i])
  }

  predicate PrintableLine(gs: seq<seq<Alt>>)
  {
    |gs| > 0 && forall g :: 0 <= g < |gs| ==> PrintableGroup(gs[g])
  }

  /** Alternatives with " | " between them. */
  function PrintField(alts: seq<Alt>): (s: CString)
    requires PrintableGroup(alts)
  {
    if |alts| == 1 then PrintAlt(alts[0]) else PrintAlt(alts[0]) + (" | " + PrintField(alts[1..]))
  }

  /** Fields with ", " between them. */
  function PrintLine(gs: seq<seq<Alt>>): (s: CString)
    requires PrintableLine(gs)
  {
    if |gs| == 1 then PrintField(gs[0]) else PrintField(gs[0]) + (", " + PrintLine(gs[1..]))
  }


  /** x has no bar or comma and does not start with a blank. */
  predicate Clean(x: CString)
  {
    x != [] && x[0] != ' ' && '|' !in x && ',' !in x
  }

  lemma AltClean(a: Alt)
    requires Printable(a)
    ensures Clean(PrintAlt(a))
  {
    PlainNot(a.name, " |,");
    assert forall i :: 0 <= i < |a.name| ==> a.name[i] != '|' && a.name[i] != ',';
    if !a.op.Any? {
      OpTextParses(a.op);
      ClauseClean(OpText(a.op), a.version);
    }
  }

  lemma ClauseClean(o: CString, version: CString)
    requires Plain(version) && forall i :: 0 <= i < |o| ==> o[i] in "<=>"
    ensures '|' !in ClauseText(o, version, ")") && ',' !in ClauseText(o, version, ")")
  {
    PlainNot(version, "|,");
    assert forall i :: 0 <= i < |version| ==> version[i] != '|' && version[i] != ',';
  }

  lemma {:induction false} FieldClean(alts: seq<Alt>)
    requires PrintableGroup(alts)
    ensures PrintField(alts) != [] && PrintField(alts)[0] != ' ' && ',' !in PrintField(alts)
    decreases |alts|
  {
    hide PrintAlt;
    assert Printable(alts[0]);
    AltClean(alts[0]);
    if |alts| > 1 { FieldClean(alts[1..]); }
  }

  /** A blank or nothing in front of x is skipped. */
  lemma LeadSkipped(lead: CString, x: CString)
    requires (lead == "" || lead == " ") && x != [] && x[0] != ' '
    ensures Skip(lead + x, " ") == x
  {
    hide Span;
    SpanIs(lead, x, " ");
  }

  /** What ends the text of alternative i of n. */
  function Blank(i: nat, n: nat): (s: CString)
  {
    if i + 1 < n then " " else ""
  }

  lemma PartsJoin(first: CString, rest: CString, f: CString)
    requires first != [] && '|' !in first && f == first + ['|'] + rest
    ensures Parts(f) == [Skip(first, " ")] + Parts(rest)
  {
    hide Skip;
    TokensJoin(first, rest, '|');
    TokenAlone(first, '|');
    TokenTail(Tokens(f, '|'), first, Tokens(rest, '|'));
  }

  lemma TokenTail(all: seq<CString>, first: CString, rest: seq<CString>)
    requires all == [first] + rest
    ensures |all| == |rest| + 1 && all[0] == first && forall i :: 0 <= i < |rest| ==> all[i + 1] == rest[i]
  {
  }

  lemma PartsOne(f: CString)
    requires f != [] && '|' !in f
    ensures Parts(f) == [Skip(f, " ")]
  {
    hide Skip;
    TokenAlone(f, '|');
  }

  lemma FieldsJoin(first: CString, rest: CString, f: CString)
    requires first != [] && ',' !in first && f == first + [','] + rest
    ensures Fields(f) == [Skip(first, " ")] + Fields(rest)
  {
    hide Skip;
    TokensJoin(first, rest, ',');
    TokenAlone(first, ',');
    TokenTail(Tokens(f, ','), first, Tokens(rest, ','));
  }

  lemma FieldsOne(f: CString)
    requires f != [] && ',' !in f
    ensures Fields(f) == [Skip(f, " ")]
  {
    hide Skip;
    TokenAlone(f, ',');
  }

  /** The parts of a printed field. */
  function PrintedParts(alts: seq<Alt>): (ps: seq<CString>)
    requires PrintableGroup(alts)
  {
    if |alts| == 1 then [PrintAlt(alts[0])] else [PrintAlt(alts[0]) + " "] + PrintedParts(alts[1..])
  }

  lemma {:induction false} PartsBack(alts: seq<Alt>, lead: CString, f: CString)
    requires PrintableGroup(alts) && (lead == "" || lead == " ") && f == lead + PrintField(alts)
    ensures Parts(f) == PrintedParts(alts)
    decreases |alts|
  {
    hide Parts, PrintAlt, Skip;
    assert Printable(alts[0]);
    var x := PrintAlt(alts[0]);
    AltClean(alts[0]);
    if |alts| == 1 {
      PartsOne(f);
      LeadSkipped(lead, x);
    } else {
      var rest: CString := " " + PrintField(alts[1..]);
      PartsBack(alts[1..], " ", rest);
      FirstPart(lead, x, f, rest);
    }
  }

  lemma FirstPart(lead: CString, x: CString, f: CString, rest: CString)
    requires Clean(x) && (lead == "" || lead == " ") && f == lead + (x + (" |" + rest))
    ensures Parts(f) == [x + " "] + Parts(rest)
  {
    hide Parts, Skip;
    var first: CString := lead + (x + " ");
    assert f == first + ['|'] + rest;
    PartsJoin(first, rest, f);
    LeadSkipped(lead, x + " ");
  }

  lemma {:induction false} PrintedPart(alts: seq<Alt>, i: nat)
    requires PrintableGroup(alts) && i < |alts|
    ensures |PrintedParts(alts)| == |alts| && PrintedParts(alts)[i] == PrintAlt(alts[i]) + Blank(i, |alts|)
    decreases |alts|
  {
    hide PrintAlt;
    if |alts| > 1 {
      PrintedPart(alts[1..], if i == 0 then 0 else i - 1);
    } else {
      assert PrintAlt(alts[0]) + "" == PrintAlt(alts[0]);
    }
  }

  lemma FieldReadsBack(alts: seq<Alt>)
    requires PrintableGroup(alts)
    ensures FieldOk(PrintField(alts)) && FieldLegal(PrintField(alts)) && Alts(PrintField(alts)) == alts
  {
    hide Parts, ParseAlt, AltOk, PrintField, PrintAlt, Printable;
    var f := PrintField(alts);
    assert "" + f == f;
    PartsBack(alts, "", f);
    PrintedPart(alts, 0);
    forall i | 0 <= i < |alts| ensures |Parts(f)| == |alts| && ParseAlt(Parts(f)[i]) == Some(alts[i])
    && AltOk(Parts(f)[i]) {
      PrintedPart(alts, i);
      assert Printable(alts[i]);
      AltReadsBack(alts[i], Blank(i, |alts|), Parts(f)[i]);
    }
  }

  function PrintedFields(gs: seq<seq<Alt>>): (fs: seq<CString>)
    requires PrintableLine(gs)
    ensures |fs| == |gs| && forall g :: 0 <= g < |gs| ==> fs[g] == PrintField(gs[g])
  {
    seq(|gs|, g requires 0 <= g < |gs| && PrintableLine(gs) => PrintField(gs[g]))
  }

  lemma {:induction false} FieldsBack(gs: seq<seq<Alt>>, lead: CString, f: CString)
    requires PrintableLine(gs) && (lead == "" || lead == " ") && f == lead + PrintLine(gs)
    ensures Fields(f) == PrintedFields(gs)
    decreases |gs|
  {
    hide Fields, PrintField, Skip, PrintedFields, PrintableGroup;
    assert PrintableGroup(gs[0]);
    var x := PrintField(gs[0]);
    FieldClean(gs[0]);
    if |gs| == 1 {
      FieldsOne(f);
      LeadSkipped(lead, x);
    } else {
      var rest: CString := " " + PrintLine(gs[1..]);
      FieldsBack(gs[1..], " ", rest);
      FirstField(lead, x, f, rest);
      assert PrintedFields(gs) == [x] + PrintedFields(gs[1..]);
    }
  }

  lemma FirstField(lead: CString, x: CString, f: CString, rest: CString)
    requires x != [] && x[0] != ' ' && ',' !in x && (lead == "" || lead == " ") && f == lead + (x + ("," + rest))
    ensures Fields(f) == [x] + Fields(rest)
  {
    hide Fields, Skip;
    var first: CString := lead + x;
    assert f == first + [','] + rest;
    FieldsJoin(first, rest, f);
    LeadSkipped(lead, x);
  }

  /** What is printed as a dependency line reads back as the same dependencies. */
  lemma LineReadsBack(gs: seq<seq<Alt>>)
    requires PrintableLine(gs)
    ensures LineOk(PrintLine(gs)) && Legal(PrintLine(gs)) && Groups(PrintLine(gs)) == gs
  {
    hide Fields, FieldOk, FieldLegal, PrintableGroup, PrintField, PrintLine, Alts;
    var line := PrintLine(gs);
    assert "" + line == line;
    FieldsBack(gs, "", line);
    forall i | 0 <= i < |gs| ensures FieldOk(Fields(line)[i]) && FieldLegal(Fields(line)[i])
    && Alts(Fields(line)[i]) == gs[i] {
      assert PrintableGroup(gs[i]);
      FieldReadsBack(gs[i]);
    }
  }
}
