/** add_split_dependencies of dpkg.c: a dependency line becomes edges whose names and
    versions are indices into the name table. */
module SplitLines {
  import opened Bits
  import opened CStrings
  import opened DebVersion
  import opened DoubleHash
  import opened DepLines
  import opened Depends

  /** The type of an edge: that of the field it comes from, or one more for an OR edge. */
  datatype Type = Plain(kind: Kind) | OrOf(pre: bool)

  datatype IdEdge = IdEdge(typ: Type, op: Operator, name: nat, version: nat)

  ghost predicate Known(t: Slots, i: nat)
  {
    i < |t| && t[i].Some?
  }

  function NameAt(t: Slots, i: nat): (s: CString)
  {
    if i < |t| && t[i].Some? then t[i].value else []
  }

  ghost predicate EdgeKnown(t: Slots, e: IdEdge)
  {
    Known(t, e.name) && (e.typ.Plain? ==> Known(t, e.version))
  }

  /** The edge with its names; an OR edge has its count where others have a version. */
  function EdgeView(t: Slots, e: IdEdge): (v: Edge)
  {
    match e.typ
    case OrOf(pre) => Or(pre, NameAt(t, e.name), e.version)
    case Plain(kind) => Rel(kind, Alt(NameAt(t, e.name), e.op, NameAt(t, e.version)))
  }

  ghost predicate EdgesKnown(t: Slots, es: seq<IdEdge>)
  {
    forall i {:trigger es[i]} :: 0 <= i < |es| ==> EdgeKnown(t, es[i])
  }

  function EdgesView(t: Slots, es: seq<IdEdge>): (vs: seq<Edge>)
    ensures |vs| == |es|
  {
    seq(|es|, i requires 0 <= i < |es| => EdgeView(t, es[i]))
  }

  /** New names do not change what edges mean. */
  lemma ViewGrew(t: Slots, t': Slots, es: seq<IdEdge>)
    requires Grew(t, t') && EdgesKnown(t, es)
    ensures EdgesKnown(t', es) && EdgesView(t', es) == EdgesView(t, es)
  {
    forall i | 0 <= i < |es| ensures EdgeKnown(t', es[i]) && EdgeView(t', es[i]) == EdgeView(t, es[i]) {
      assert EdgeKnown(t, es[i]);
      assert t'[es[i].name] == t[es[i].name];
      if es[i].typ.Plain? { assert t'[es[i].version] == t[es[i].version]; }
    }
  }

  lemma ViewAppend(t: Slots, es: seq<IdEdge>, e: IdEdge)
    ensures EdgesView(t, es + [e]) == EdgesView(t, es) + [EdgeView(t, e)]
  {
  }

  // ---- The names a line brings in ----

  predicate AltNames(f: CString, w: set<CString>)
  {
    Upto(f, " (") in w && if CSpan(f, "(") == |f| then "ANY" in w else VersionPart(f) in w
  }

  predicate HasBar(field: CString)
    requires Tokens(field, '|') != []
  {
    Tokens(field, '|')[0] != field
  }

  ghost predicate FieldNames(kind: Kind, field: CString, w: set<CString>)
    requires FieldOk(field)
  {
    && (IsDepends(kind) && HasBar(field) ==> field in w)
    && forall i :: 0 <= i < |Parts(field)| ==> AltNames(Parts(field)[i], w)
  }

  /** All names that the line brings in are in w. */
  ghost predicate LineNames(kind: Kind, line: CString, w: set<CString>)
    requires LineOk(line)
  {
    forall i :: 0 <= i < |Fields(line)| ==> FieldNames(kind, Fields(line)[i], w)
  }

  // ---- One alternative ----

  /** strncmp of v with an operator over the n operator characters v starts with. */
  predicate SameOp(v: CString, op: CString, n: nat)
    requires n <= |v|
  {
    n <= |op| && v[..n] == op[..n]
  }

  method ReadOp(v: CString) returns (ok: bool, op: Operator, n: nat)
    requires Span(v, "<=>") > 0
    ensures n == Span(v, "<=>") && ok == ParseOp(v[..n]).Some? && (ok ==> ParseOp(v[..n]) == Some(op))
  {
    n := Span(v, "<=>");
    ok, op := true, Null;
    if SameOp(v, "=", n) {
      op := Equal;
    } else if SameOp(v, "<<", n) {
      op := Less;
    } else if SameOp(v, "<=", n) {
      op := LessEqual;
    } else if SameOp(v, ">>", n) {
      op := More;
    } else if SameOp(v, ">=", n) {
      op := MoreEqual;
    } else {
      ok := false;
    }
    OpCases(v[..n], n);
  }

  lemma OpCases(o: CString, n: nat)
    requires n == |o| > 0
    ensures SameOp(o, "=", n) <==> o == "="
    ensures SameOp(o, "<<", n) <==> o == "<" || o == "<<"
    ensures SameOp(o, "<=", n) <==> o == "<" || o == "<="
    ensures SameOp(o, ">>", n) <==> o == ">" || o == ">>"
    ensures SameOp(o, ">=", n) <==> o == ">" || o == ">="
  {
    assert o[..n] == o;
    PrefixCases(o, "<<", "<");
    PrefixCases(o, "<=", "<");
    PrefixCases(o, ">>", ">");
    PrefixCases(o, ">=", ">");
  }

  lemma PrefixCases(o: CString, two: CString, one: CString)
    requires |two| == 2 && |o| > 0 && one == two[..1]
    ensures |o| <= 2 && o == two[..|o|] <==> o == one || o == two
  {
    assert two[..2] == two;
  }

  /** The operator of an alternative and the index of its version. */
  method AddVersion(names: NameTable, f: CString, ghost w: set<CString>) returns (ok: bool, op: Operator, version: nat)
    requires names.Valid() && Room(names.slots, w) && AltOk(f) && AltNames(f, w)
    modifies names
    ensures names.Valid() && Room(names.slots, w) && Grew(old(names.slots), names.slots)
    ensures ok == ParseAlt(f).Some?
    ensures ok ==> ParseAlt(f).value.op == op && version < |names.slots|
                   && names.slots[version] == Some(ParseAlt(f).value.version)
  {
    hide names.Valid, Room, ParseOp, Span, CSpan, Grew;
    ok, op := true, Any;
    if CSpan(f, "(") == |f| {
      version := names.InternIn("ANY", w);
    } else {
      var v, n := Clause(f), 0;
      ok, op, n := ReadOp(v);
      if !ok {
        GrewSame(names.slots);
        version := 0;
        return;
      }
      version := names.InternIn(Upto(Skip(v[n..], " "), " )"), w);
    }
  }

  method AddAlternative(names: NameTable, f: CString, kind: Kind, ghost w: set<CString>) returns (ok: bool, e: IdEdge)
    requires names.Valid() && Room(names.slots, w) && AltOk(f) && AltNames(f, w)
    modifies names
    ensures names.Valid() && Room(names.slots, w) && Grew(old(names.slots), names.slots)
    ensures ok == ParseAlt(f).Some?
    ensures ok ==> EdgeKnown(names.slots, e) && EdgeView(names.slots, e) == Rel(kind, ParseAlt(f).value)
  {
    hide names.Valid, Room, ParseOp, Clause, VersionPart, CSpan, AltOk;
    ghost var t0 := names.slots;
    var op, version, name;
    ok, op, version := AddVersion(names, f, w);
    if !ok {
      e := IdEdge(Plain(kind), Null, 0, 0);
      return;
    }
    ghost var t1 := names.slots;
    name := names.InternIn(Upto(f, " ("), w);
    GrewTwice(t0, t1, names.slots);
    e := IdEdge(Plain(kind), op, name, version);
  }

  // ---- The alternatives of a field ----

  predicate LegalUpto(field: CString, k: nat)
    requires k <= |Parts(field)|
  {
    forall i :: 0 <= i < k ==> ParseAlt(Parts(field)[i]).Some?
  }

  function AltsUpto(field: CString, k: nat): (alts: seq<Alt>)
    requires k <= |Parts(field)| && LegalUpto(field, k)
    ensures |alts| == k
  {
    seq(k, i requires 0 <= i < k && k <= |Parts(field)|
        && ParseAlt(Parts(field)[i]).Some? => ParseAlt(Parts(field)[i]).value)
  }

  /** An item whose first k alternatives are there. */
  function Partly(kind: Kind, field: CString, bar: bool, k: nat): (it: Item)
    requires k <= |Parts(field)| && LegalUpto(field, k)
  {
    Item(kind, field, AltsUpto(field, k), bar)
  }

  /** The edges for the first k alternatives have been added to those seen as `before`. */
  ghost predicate Added(t: Slots, edges: seq<IdEdge>, before: seq<Edge>, kind: Kind, field: CString, bar: bool, k: nat)
  {
    && EdgesKnown(t, edges) && k <= |Parts(field)| && LegalUpto(field, k)
    && EdgesView(t, edges) == before + Edges(Partly(kind, field, bar, k))
  }

  /** or_edge->version++ */
  function Counted(edges: seq<IdEdge>, at: nat, isOr: bool): (r: seq<IdEdge>)
    requires isOr ==> at < |edges|
  {
    if isOr then edges[at := edges[at].(version := (edges[at].version + 1) % 0x10000)] else edges
  }

  lemma CountedView(t: Slots, edges: seq<IdEdge>, before: seq<Edge>, it: Item, rels: seq<Edge>, k: nat)
    requires EdgesKnown(t, edges) && EdgesView(t, edges) == before + (OrEdge(it, k) + rels)
    ensures var isOr := IsDepends(it.kind) && it.bar;
            && (isOr ==> |before| < |edges|)
            && EdgesKnown(t, Counted(edges, |before|, isOr))
            && EdgesView(t, Counted(edges, |before|, isOr)) == before + (OrEdge(it, k + 1) + rels)
  {
    var isOr, at := IsDepends(it.kind) && it.bar, |before|;
    if isOr {
      var o := OrEdge(it, k);
      assert EdgesView(t, edges)[at] == (before + (o + rels))[at] == o[0];
      assert EdgeView(t, edges[at]) == Or(it.kind.PreDepends?, it.field, k % 0x10000);
      CountedOne(t, edges, at, before, o[0], rels, OrEdge(it, k + 1)[0]);
      assert o == [o[0]] && OrEdge(it, k + 1) == [OrEdge(it, k + 1)[0]];
    }
  }

  lemma CountedOne(t: Slots, edges: seq<IdEdge>, at: nat, before: seq<Edge>, o: Edge, rels: seq<Edge>, o': Edge)
    requires EdgesKnown(t, edges) && at == |before| < |edges| && EdgesView(t, edges) == before + ([o] + rels) && o.Or?
    requires edges[at].typ.OrOf? && o' == o.(count := (o.count + 1) % 0x10000)
    ensures EdgesKnown(t, Counted(edges, at, true)) && EdgesView(t, Counted(edges, at, true)) == before + ([o'] + rels)
  {
    var c := Counted(edges, at, true);
    assert EdgeKnown(t, edges[at]);
    assert EdgesView(t, edges)[at] == o && EdgeView(t, c[at]) == o';
    assert EdgesView(t, c) == EdgesView(t, edges)[at := o'];
    assert (before + ([o] + rels))[at := o'] == before + ([o'] + rels);
  }

  /** One alternative more. */
  lemma AddedStep(t: Slots, edges: seq<IdEdge>, before: seq<Edge>, kind: Kind, field: CString, bar: bool, k: nat,
                  t': Slots, e: IdEdge, isOr: bool)
    requires Added(t, edges, before, kind, field, bar, k) && k < |Parts(field)| && Grew(t, t')
    requires ParseAlt(Parts(field)[k]).Some? && EdgeKnown(t', e)
             && EdgeView(t', e) == Rel(kind, ParseAlt(Parts(field)[k]).value)
    requires isOr == (IsDepends(kind) && bar)
    ensures (isOr ==> |before| < |edges|) && Added(t', Counted(edges, |before|, isOr) + [e], before, kind, field, bar,
                                                   k + 1)
  {
    hide EdgesView, EdgeView, Counted, EdgeKnown, Grew, ParseAlt;
    var it, alt := Partly(kind, field, bar, k), ParseAlt(Parts(field)[k]).value;
    var rels := RelEdges(kind, it.alts);
    ViewGrew(t, t', edges);
    CountedView(t', edges, before, it, rels, k);
    var c := Counted(edges, |before|, isOr);
    ViewAppend(t', c, e);
    KnownAppend(t', c, e);
    OneMore(field, k, kind, bar, before, alt);
  }

  lemma KnownAppend(t: Slots, es: seq<IdEdge>, e: IdEdge)
    requires EdgesKnown(t, es) && EdgeKnown(t, e)
    ensures EdgesKnown(t, es + [e])
  {
  }

  lemma OneMore(field: CString, k: nat, kind: Kind, bar: bool, before: seq<Edge>, alt: Alt)
    requires k < |Parts(field)| && LegalUpto(field, k) && ParseAlt(Parts(field)[k]) == Some(alt)
    ensures LegalUpto(field, k + 1)
    ensures before + (OrEdge(Partly(kind, field, bar, k),
                             k + 1) + RelEdges(kind, AltsUpto(field, k))) + [Rel(kind, alt)]
         == before + Edges(Partly(kind, field, bar, k + 1))
  {
    hide ParseAlt, Parts, RelEdges, AltsUpto;
    AltsMore(field, k, alt);
    RelsMore(kind, AltsUpto(field, k), alt);
    LastIn(before, OrEdge(Partly(kind, field, bar, k), k + 1), RelEdges(kind, AltsUpto(field, k)), Rel(kind, alt));
  }

  lemma AltsMore(field: CString, k: nat, alt: Alt)
    requires k < |Parts(field)| && LegalUpto(field, k) && ParseAlt(Parts(field)[k]) == Some(alt)
    ensures LegalUpto(field, k + 1) && AltsUpto(field, k + 1) == AltsUpto(field, k) + [alt]
  {
    hide ParseAlt, Parts;
  }

  lemma RelsMore(kind: Kind, alts: seq<Alt>, alt: Alt)
    ensures RelEdges(kind, alts + [alt]) == RelEdges(kind, alts) + [Rel(kind, alt)]
  {
  }

  lemma LastIn(a: seq<Edge>, b: seq<Edge>, c: seq<Edge>, e: Edge)
    ensures a + (b + c) + [e] == a + (b + (c + [e]))
  {
  }

  lemma PartAt(field: CString, k: nat, tok: CString, rest: seq<CString>)
    requires k <= |Tokens(field, '|')| && Tokens(field, '|')[k..] == [tok] + rest
    ensures k < |Parts(field)| && Tokens(field, '|')[k] == tok && Parts(field)[k] == Skip(tok, " ")
            && Tokens(field, '|')[k + 1..] == rest
  {
    hide Tokens, Skip;
    assert Tokens(field, '|')[k..][0] == tok;
    assert Tokens(field, '|')[k + 1..] == Tokens(field, '|')[k..][1..];
  }

  /** The loop over the alternatives; pos is where strtok_r goes on after the first. */
  method AddParts(names: NameTable, parent: seq<IdEdge>, kind: Kind, field: CString, isOr: bool, at: nat,
                  first: CString, pos0: nat,
                  ghost before: seq<Edge>, ghost bar: bool, ghost w: set<CString>)
    returns (ok: bool, edges: seq<IdEdge>)
    requires names.Valid() && Room(names.slots, w) && FieldOk(field) && FieldNames(kind, field, w)
    requires at == |before| && isOr == (IsDepends(kind) && bar)
             && Added(names.slots, parent, before, kind, field, bar, 0)
    requires pos0 <= |field| && Tokens(field, '|') == [first] + Tokens(field[pos0..], '|')
    modifies names
    ensures names.Valid() && Room(names.slots, w) && Grew(old(names.slots), names.slots)
    ensures ok == FieldLegal(field) && (ok ==> Added(names.slots, edges, before, kind, field, bar, |Parts(field)|))
  {
    hide names.Valid, Room, Added, Tokens, Grew, AltOk, AltNames, ParseAlt, Parts, Skip;
    edges := parent;
    var field2, pos: nat, more := first, pos0, true;
    ghost var k := 0;
    GrewSame(names.slots);
    assert Tokens(field, '|')[0..] == Tokens(field, '|');
    PartAt(field, 0, first, Tokens(field[pos0..], '|'));
    while more
      invariant names.Valid() && Room(names.slots, w) && Grew(old(names.slots), names.slots)
      invariant k <= |Parts(field)| && Added(names.slots, edges, before, kind, field, bar, k) && LegalUpto(field, k)
      invariant more ==> k < |Parts(field)| && Parts(field)[k] == Skip(field2, " ")
      invariant pos <= |field| && (more ==> k + 1 <= |Tokens(field, '|')|
                                            && Tokens(field, '|')[k + 1..] == Tokens(field[pos..], '|'))
      invariant !more ==> k == |Parts(field)|
      decreases |Parts(field)| - k, more
    {
      ghost var t := names.slots;
      var e;
      ok, e := AddAlternative(names, Skip(field2, " "), kind, w);
      GrewTwice(old(names.slots), t, names.slots);
      if !ok {
        assert ParseAlt(Parts(field)[k]).None?;
        return;
      }
      AddedStep(t, edges, before, kind, field, bar, k, names.slots, e, isOr);
      AddedFacts(names.slots, Counted(edges, at, isOr) + [e], before, kind, field, bar, k + 1);
      edges := Counted(edges, at, isOr) + [e];
      more, field2, pos := NextPart(field, pos, k + 1);
      k := k + 1;
    }
    ok := true;
  }

  lemma GrewSame(t: Slots)
    ensures Grew(t, t)
  {
  }

  lemma AddedFacts(t: Slots, edges: seq<IdEdge>, before: seq<Edge>, kind: Kind, field: CString, bar: bool, k: nat)
    requires Added(t, edges, before, kind, field, bar, k)
    ensures k <= |Parts(field)| && LegalUpto(field, k)
  {
  }

  /** field2 = strtok_r(NULL, "|", &line_ptr2) */
  method NextPart(field: CString, pos: nat, ghost k: nat) returns (more: bool, field2: CString, next: nat)
    requires pos <= |field| && k <= |Tokens(field, '|')| && Tokens(field, '|')[k..] == Tokens(field[pos..], '|')
    ensures next <= |field| && (more ==> k < |Parts(field)| && Parts(field)[k] == Skip(field2, " "))
    ensures more ==> k + 1 <= |Tokens(field, '|')| && Tokens(field, '|')[k + 1..] == Tokens(field[next..], '|')
    ensures !more ==> k == |Parts(field)|
  {
    hide Tokens, Skip;
    more, field2, next := NextToken(field, pos, '|');
    if more {
      PartAt(field, k, field2, Tokens(field[next..], '|'));
    }
  }

  // ---- Fields and lines ----

  lemma StartField(t: Slots, parent: seq<IdEdge>, kind: Kind, field: CString, bar: bool, isOr: bool, o: IdEdge,
                   edges: seq<IdEdge>)
    requires EdgesKnown(t, parent) && isOr == (IsDepends(kind) && bar)
    requires edges == if isOr then parent + [o] else parent
    requires isOr ==> Known(t, o.name) && t[o.name] == Some(field) && o.typ == OrOf(kind.PreDepends?) && o.version == 0
    ensures Added(t, edges, EdgesView(t, parent), kind, field, bar, 0)
  {
    hide Parts;
    if isOr { ViewAppend(t, parent, o); }
  }

  lemma WholeField(kind: Kind, field: CString, bar: bool)
    requires FieldOk(field) && FieldLegal(field) && bar == HasBar(field)
    ensures LegalUpto(field, |Parts(field)|) && Partly(kind, field, bar, |Parts(field)|) == ItemOf(kind, field)
  {
    hide Parts, ParseAlt;
  }

  /** One field: an OR edge if there is more than one alternative, then the alternatives. */
  method AddField(names: NameTable, parent: seq<IdEdge>, kind: Kind, field: CString, ghost w: set<CString>)
    returns (ok: bool, edges: seq<IdEdge>)
    requires names.Valid() && Room(names.slots, w) && FieldOk(field) && FieldNames(kind, field, w)
    requires EdgesKnown(names.slots, parent)
    modifies names
    ensures names.Valid() && Room(names.slots, w) && Grew(old(names.slots), names.slots)
    ensures ok == FieldLegal(field)
    ensures ok ==> EdgesKnown(names.slots, edges)
    ensures ok ==> EdgesView(names.slots, edges) == old(EdgesView(names.slots, parent)) + Edges(ItemOf(kind, field))
  {
    hide names.Valid, Room, Added, Grew, Tokens, EdgesKnown, EdgesView, ParseAlt, Edges, AltOk, AltNames;
    ghost var t0 := names.slots;
    GrewSame(t0);
    assert field[0..] == field;
    var found, first, pos := NextToken(field, 0, '|');
    var isOr, at, o := IsDepends(kind) && field != first, |parent|, IdEdge(OrOf(kind.PreDepends?), Null, 0, 0);
    ghost var before, bar := EdgesView(t0, parent), HasBar(field);
    edges := parent;
    if isOr {
      var name := names.InternIn(field, w);
      o := o.(name := name);
      edges := edges + [o];
    }
    ghost var t1 := names.slots;
    ViewGrew(t0, t1, parent);
    StartField(t1, parent, kind, field, bar, isOr, o, edges);
    ViewSize(t0, parent);
    ok, edges := AddParts(names, edges, kind, field, isOr, at, first, pos, before, bar, w);
    GrewTwice(t0, t1, names.slots);
    if ok {
      FieldAdded(names.slots, edges, before, kind, field, bar);
    }
  }

  lemma ViewSize(t: Slots, es: seq<IdEdge>)
    ensures |EdgesView(t, es)| == |es|
  {
  }

  lemma FieldAdded(t: Slots, edges: seq<IdEdge>, before: seq<Edge>, kind: Kind, field: CString, bar: bool)
    requires FieldOk(field) && FieldLegal(field) && bar == HasBar(field)
             && Added(t, edges, before, kind, field, bar, |Parts(field)|)
    ensures EdgesKnown(t, edges) && EdgesView(t, edges) == before + Edges(ItemOf(kind, field))
  {
    hide EdgesKnown, EdgesView, Edges;
    WholeField(kind, field, bar);
  }

  predicate LinesLegal(line: CString, k: nat)
    requires k <= |Fields(line)|
  {
    forall i :: 0 <= i < k ==> FieldLegal(Fields(line)[i])
  }

  function ItemsUpto(kind: Kind, line: CString, k: nat): (items: seq<Item>)
    requires k <= |Fields(line)| && LineOk(line) && LinesLegal(line, k)
    ensures |items| == k
  {
    var fs := Fields(line);
    seq(k, i requires 0 <= i < k <= |fs| && FieldOk(fs[i]) && FieldLegal(fs[i]) => ItemOf(kind, fs[i]))
  }

  ghost predicate LinesAdded(t: Slots, edges: seq<IdEdge>, before: seq<Edge>, kind: Kind, line: CString, k: nat)
    requires LineOk(line)
  {
    && EdgesKnown(t, edges) && k <= |Fields(line)| && LinesLegal(line, k)
    && EdgesView(t, edges) == before + Flat(ItemsUpto(kind, line, k))
  }

  lemma LinesStep(t: Slots, edges: seq<IdEdge>, before: seq<Edge>, kind: Kind, line: CString, k: nat, t': Slots,
                  edges': seq<IdEdge>)
    requires LineOk(line) && LinesAdded(t, edges, before, kind, line, k) && k < |Fields(line)|
             && FieldLegal(Fields(line)[k])
    requires EdgesKnown(t', edges') && EdgesView(t', edges')
          == EdgesView(t, edges) + Edges(ItemOf(kind, Fields(line)[k]))
    ensures LinesAdded(t', edges', before, kind, line, k + 1)
  {
    hide EdgesKnown, EdgesView, Edges, Flat, FieldOk, FieldLegal, ItemOf, Fields;
    var it := ItemOf(kind, Fields(line)[k]);
    ItemsMore(kind, line, k, it);
    FlatConcat(ItemsUpto(kind, line, k), [it]);
    FlatOne(it);
    Assoc(before, Flat(ItemsUpto(kind, line, k)), Edges(it));
  }

  lemma ItemsMore(kind: Kind, line: CString, k: nat, it: Item)
    requires LineOk(line) && k < |Fields(line)| && LinesLegal(line, k) && FieldLegal(Fields(line)[k])
             && it == ItemOf(kind, Fields(line)[k])
    ensures LinesLegal(line, k + 1) && ItemsUpto(kind, line, k + 1) == ItemsUpto(kind, line, k) + [it]
  {
    hide FieldOk, FieldLegal, Fields;
  }

  lemma LinesStart(t: Slots, parent: seq<IdEdge>, kind: Kind, line: CString)
    requires LineOk(line) && EdgesKnown(t, parent)
    ensures LinesAdded(t, parent, EdgesView(t, parent), kind, line, 0)
  {
    hide LineOk;
    assert EdgesView(t, parent) + [] == EdgesView(t, parent);
  }

  lemma LinesEnd(t: Slots, edges: seq<IdEdge>, before: seq<Edge>, r: Relation)
    requires LineOk(r.line) && LinesAdded(t, edges, before, r.kind, r.line, |Fields(r.line)|)
    ensures RelationOk(r) && EdgesKnown(t, edges) && EdgesView(t, edges) == before + Flat(ItemsOf(r))
  {
    hide EdgesKnown, EdgesView, Flat, Fields, FieldOk, FieldLegal;
    assert ItemsUpto(r.kind, r.line, |Fields(r.line)|) == ItemsOf(r);
  }

  lemma FieldAt(line: CString, k: nat, tok: CString, rest: seq<CString>)
    requires k <= |Tokens(line, ',')| && Tokens(line, ',')[k..] == [tok] + rest
    ensures k < |Fields(line)| && Fields(line)[k] == Skip(tok, " ") && Tokens(line, ',')[k + 1..] == rest
  {
    hide Tokens, Skip;
    assert Tokens(line, ',')[k..][0] == tok;
    assert Tokens(line, ',')[k + 1..] == Tokens(line, ',')[k..][1..];
  }

  /** strtok_r(NULL, ",", &line_ptr1), blanks skipped. */
  method NextField(line: CString, pos: nat, ghost k: nat) returns (more: bool, field: CString, next: nat)
    requires pos <= |line| && k <= |Tokens(line, ',')| && Tokens(line, ',')[k..] == Tokens(line[pos..], ',')
    ensures next <= |line| && (more ==> k < |Fields(line)| && Fields(line)[k] == field)
    ensures more ==> k + 1 <= |Tokens(line, ',')| && Tokens(line, ',')[k + 1..] == Tokens(line[next..], ',')
    ensures !more ==> k == |Fields(line)|
  {
    hide Tokens, Skip;
    more, field, next := NextToken(line, pos, ',');
    if more {
      FieldAt(line, k, field, Tokens(line[next..], ','));
      field := Skip(field, " ");
    }
  }

  /** add_split_dependencies: the edges of the line are added to those of the package, and
      an operator that does not exist ends the program. */
  method AddSplit(names: NameTable, parent: seq<IdEdge>, r: Relation, ghost w: set<CString>)
    returns (ok: bool, edges: seq<IdEdge>)
    requires names.Valid() && Room(names.slots, w) && LineOk(r.line) && LineNames(r.kind, r.line, w)
    requires EdgesKnown(names.slots, parent)
    modifies names
    ensures names.Valid() && Room(names.slots, w) && Grew(old(names.slots), names.slots)
    ensures ok == Legal(r.line)
    ensures ok ==> EdgesKnown(names.slots, edges)
    ensures ok ==> EdgesView(names.slots, edges) == old(EdgesView(names.slots, parent)) + Flat(ItemsOf(r))
  {
    hide names.Valid, Room, LinesAdded, Grew, Tokens, EdgesKnown, EdgesView, Fields, FieldOk, FieldLegal, FieldNames,
         Flat;
    ghost var before := EdgesView(names.slots, parent);
    GrewSame(names.slots);
    LinesStart(names.slots, parent, r.kind, r.line);
    assert r.line[0..] == r.line && Tokens(r.line, ',')[0..] == Tokens(r.line, ',');
    edges := parent;
    var more, field, pos: nat := NextField(r.line, 0, 0);
    ghost var k := 0;
    while more
      invariant names.Valid() && Room(names.slots, w) && Grew(old(names.slots), names.slots)
      invariant k <= |Fields(r.line)| && LinesLegal(r.line, k) && EdgesKnown(names.slots, edges)
      invariant LinesAdded(names.slots, edges, before, r.kind, r.line, k)
      invariant pos <= |r.line| && (more ==> k < |Fields(r.line)| && Fields(r.line)[k] == field)
      invariant more ==> k + 1 <= |Tokens(r.line, ',')| && Tokens(r.line, ',')[k + 1..] == Tokens(r.line[pos..], ',')
      invariant !more ==> k == |Fields(r.line)|
      decreases |Fields(r.line)| - k, more
    {
      ghost var t, es := names.slots, edges;
      ok, edges := AddField(names, edges, r.kind, field, w);
      GrewTwice(old(names.slots), t, names.slots);
      if !ok {
        assert !FieldLegal(Fields(r.line)[k]);
        return;
      }
      LinesStep(t, es, before, r.kind, r.line, k, names.slots, edges);
      LinesFacts(names.slots, edges, before, r.kind, r.line, k + 1);
      more, field, pos := NextField(r.line, pos, k + 1);
      k := k + 1;
    }
    ok := true;
    LinesEnd(names.slots, edges, before, r);
  }

  lemma LinesFacts(t: Slots, edges: seq<IdEdge>, before: seq<Edge>, kind: Kind, line: CString, k: nat)
    requires LineOk(line) && LinesAdded(t, edges, before, kind, line, k)
    ensures k <= |Fields(line)| && LinesLegal(line, k) && EdgesKnown(t, edges)
  {
  }
}
