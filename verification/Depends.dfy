/** The dependency check of dpkg.c: a walk over a flat edge list passes exactly when
    every dependency has an alternative that is satisfied.  Edges hold the names and
    versions themselves here; in SplitLines and Packages they are indices into the name
    table. */
module Depends {
  import opened Bits
  import opened CStrings
  import opened DepLines

  datatype Kind = PreDepends | Depends | Replaces | Provides | Conflicts | Suggests | Recommends | Enhances

  predicate IsDepends(k: Kind) { k.PreDepends? || k.Depends? }

  /** An edge of a package: an OR edge, which counts the alternatives that follow it, or
      a relation to another package. */
  datatype Edge = Or(pre: bool, field: CString, count: nat) | Rel(kind: Kind, alt: Alt)

  /** A field between commas.  `bar` says that it is more than its first alternative. */
  datatype Item = Item(kind: Kind, field: CString, alts: seq<Alt>, bar: bool)

  function RelEdges(kind: Kind, alts: seq<Alt>): (es: seq<Edge>)
    ensures |es| == |alts|
  {
    seq(|alts|, i requires 0 <= i < |alts| => Rel(kind, alts[i]))
  }

  /** The OR edge in front of several alternatives; its count has 16 bits. */
  function OrEdge(it: Item, count: nat): (es: seq<Edge>)
  {
    if IsDepends(it.kind) && it.bar then [Or(it.kind.PreDepends?, it.field, count % 0x10000)] else []
  }

  function Edges(it: Item): (es: seq<Edge>)
  {
    OrEdge(it, |it.alts|) + RelEdges(it.kind, it.alts)
  }

  predicate WellFormed(it: Item)
  {
    IsDepends(it.kind) ==> 1 <= |it.alts| < 0x10000 && (!it.bar ==> |it.alts| == 1)
  }

  function Flat(items: seq<Item>): (es: seq<Edge>)
  {
    if items == [] then [] else Edges(items[0]) + Flat(items[1..])
  }

  lemma {:induction false} FlatConcat(a: seq<Item>, b: seq<Item>)
    ensures Flat(a + b) == Flat(a) + Flat(b)
    decreases |a|
  {
    hide Edges;
    if a == [] {
      assert a + b == b;
    } else {
      assert (a + b)[0] == a[0] && (a + b)[1..] == a[1..] + b;
      FlatConcat(a[1..], b);
      Assoc(Edges(a[0]), Flat(a[1..]), Flat(b));
    }
  }

  lemma FlatOne(it: Item)
    ensures Flat([it]) == Edges(it)
  {
    assert [it][1..] == [] && Edges(it) + [] == Edges(it);
  }

  /** No item has more edges than all of them. */
  lemma {:induction false} FlatHas(items: seq<Item>, i: nat)
    requires i < |items|
    ensures |Edges(items[i])| <= |Flat(items)|
    decreases |items|
  {
    if i > 0 { FlatHas(items[1..], i - 1); }
  }

  type AltTest = (Kind, Alt) -> bool

  /** Some alternative is satisfied. */
  predicate SomeSatisfied(kind: Kind, alts: seq<Alt>, sat: AltTest)
  {
    exists i :: 0 <= i < |alts| && sat(kind, alts[i])
  }

  predicate ItemSatisfied(it: Item, sat: AltTest)
  {
    IsDepends(it.kind) ==> SomeSatisfied(it.kind, it.alts, sat)
  }

  datatype Verdict = Pass | Fail | Corrupt

  /** The walk from edge j on, with n alternatives still open; root says whether the OR
      edge they belong to is one of pre-dependencies. */
  function Walk(es: seq<Edge>, j: nat, n: nat, root: Option<bool>, sat: AltTest): (v: Verdict)
    decreases |es| - j
  {
    if j >= |es| then Pass
    else match es[j]
      case Or(pre, _, count) => Walk(es, j + 1, count, Some(pre), sat)
      case Rel(kind, alt) =>
        var n1, root1 := if n == 0 then 1 else n, if n == 0 then None else root;
        if !IsDepends(kind) then Walk(es, j + 1, n1, root1, sat)
        else if root1.Some? && root1.value != kind.PreDepends? then Corrupt
        else if sat(kind, alt) then Walk(es, j + 1 + (n1 - 1), 0, root1, sat)
        else if n1 == 1 then Fail
        else Walk(es, j + 1, n1 - 1, root1, sat)
  }

  // ---- What the walk finds ----

  /** The relations from edge `at` on are the alternatives. */
  ghost predicate Lists(es: seq<Edge>, at: nat, kind: Kind, alts: seq<Alt>)
  {
    at + |alts| <= |es| && forall k {:trigger alts[k]} :: 0 <= k < |alts| ==> es[at + k] == Rel(kind, alts[k])
  }

  /** Within a group: the alternatives from i on decide. */
  lemma {:induction false} WalkGroup(es: seq<Edge>, at: nat, kind: Kind, alts: seq<Alt>, i: nat, n: nat,
                                     root: Option<bool>, sat: AltTest)
    requires Lists(es, at, kind, alts) && i < |alts| && n == |alts| - i && IsDepends(kind)
    requires root.Some? ==> root.value == kind.PreDepends?
    ensures Walk(es, at + i, n, root, sat)
         == if SomeSatisfied(kind, alts[i..], sat) then Walk(es, at + |alts|, 0, root, sat) else Fail
    decreases n
  {
    assert es[at + i] == Rel(kind, alts[i]);
    assert alts[i..][0] == alts[i];
    if sat(kind, alts[i]) {
      assert SomeSatisfied(kind, alts[i..], sat);
    } else if n > 1 {
      WalkGroup(es, at, kind, alts, i + 1, n - 1, root, sat);
      assert alts[i + 1..] == alts[i..][1..];
      SatisfiedTail(kind, alts[i..], sat);
    }
  }

  lemma SatisfiedTail(kind: Kind, alts: seq<Alt>, sat: AltTest)
    requires alts != [] && !sat(kind, alts[0])
    ensures SomeSatisfied(kind, alts, sat) <==> SomeSatisfied(kind, alts[1..], sat)
  {
    if SomeSatisfied(kind, alts, sat) {
      var i :| 0 <= i < |alts| && sat(kind, alts[i]);
      assert alts[1..][i - 1] == alts[i];
    }
    if SomeSatisfied(kind, alts[1..], sat) {
      var i :| 0 <= i < |alts[1..]| && sat(kind, alts[1..][i]);
      assert alts[i + 1] == alts[1..][i];
    }
  }

  /** Between items no alternative is open, except that a relation of another kind leaves
      a count of 1 behind, which means the same. */
  predicate Between(n: nat, root: Option<bool>)
  {
    n == 0 || (n == 1 && root.None?)
  }

  /** Relations of other kinds are walked past. */
  lemma {:induction false} WalkOthers(es: seq<Edge>, at: nat, kind: Kind, alts: seq<Alt>, i: nat, n: nat,
                                      root: Option<bool>, sat: AltTest)
    returns (n': nat, root': Option<bool>)
    requires Lists(es, at, kind, alts) && i <= |alts| && !IsDepends(kind) && Between(n, root)
    ensures Between(n', root') && Walk(es, at + i, n, root, sat) == Walk(es, at + |alts|, n', root', sat)
    decreases |alts| - i
  {
    n', root' := n, root;
    if i < |alts| {
      assert es[at + i] == Rel(kind, alts[i]);
      n', root' := WalkOthers(es, at, kind, alts, i + 1, 1, None, sat);
    }
  }

  /** An open count of 1 without a root is the same as none. */
  lemma WalkOne(es: seq<Edge>, j: nat, n: nat, root: Option<bool>, sat: AltTest)
    requires Between(n, root) && j < |es| && es[j].Rel? && IsDepends(es[j].kind)
    ensures Walk(es, j, n, root, sat) == Walk(es, j, 1, None, sat)
  {
  }

  lemma WalkOr(es: seq<Edge>, j: nat, n: nat, root: Option<bool>, sat: AltTest)
    requires j < |es| && es[j].Or?
    ensures Walk(es, j, n, root, sat) == Walk(es, j + 1, es[j].count, Some(es[j].pre), sat)
  {
  }

  lemma EdgeAt(es: seq<Edge>, j: nat, it: Item, k: nat)
    requires j + |Edges(it)| <= |es| && es[j..j + |Edges(it)|] == Edges(it) && k < |Edges(it)|
    ensures es[j + k] == Edges(it)[k]
  {
    assert es[j + k] == es[j..j + |Edges(it)|][k];
  }

  lemma RelAt(es: seq<Edge>, j: nat, it: Item, o: nat)
    requires j + |Edges(it)| <= |es| && es[j..j + |Edges(it)|] == Edges(it) && o == |OrEdge(it, |it.alts|)|
    ensures Lists(es, j + o, it.kind, it.alts)
  {
    forall k {:trigger it.alts[k]} | 0 <= k < |it.alts| ensures es[j + o + k] == Rel(it.kind, it.alts[k]) {
      EdgeAt(es, j, it, o + k);
    }
  }

  lemma WalkItem(es: seq<Edge>, j: nat, it: Item, n: nat, root: Option<bool>, sat: AltTest, end: nat)
    returns (n': nat, root': Option<bool>)
    requires WellFormed(it) && Between(n, root) && end == j + |Edges(it)| <= |es| && es[j..end] == Edges(it)
    ensures Between(n', root')
    ensures Walk(es, j, n, root, sat) == if ItemSatisfied(it, sat) then Walk(es, end, n', root', sat) else Fail
  {
    hide Walk, SomeSatisfied;
    var o := |OrEdge(it, |it.alts|)|;
    RelAt(es, j, it, o);
    if !IsDepends(it.kind) {
      n', root' := WalkOthers(es, j, it.kind, it.alts, 0, n, root, sat);
    } else if it.bar {
      n', root' := 0, Some(it.kind.PreDepends?);
      EdgeAt(es, j, it, 0);
      WalkOr(es, j, n, root, sat);
      assert it.alts[0..] == it.alts;
      WalkGroup(es, j + 1, it.kind, it.alts, 0, |it.alts|, root', sat);
    } else {
      n', root' := 0, None;
      assert it.alts[0..] == it.alts;
      assert es[j] == Rel(it.kind, it.alts[0]);
      WalkOne(es, j, n, root, sat);
      WalkGroup(es, j, it.kind, it.alts, 0, 1, None, sat);
    }
  }

  ghost predicate AllSatisfied(items: seq<Item>, sat: AltTest)
  {
    forall i {:trigger items[i]} :: 0 <= i < |items| ==> ItemSatisfied(items[i], sat)
  }

  /** The walk passes exactly when every dependency is satisfied, and never finds the
      list corrupt. */
  lemma {:induction false} WalkDecides(es: seq<Edge>, j: nat, items: seq<Item>, n: nat, root: Option<bool>,
                                       sat: AltTest)
    requires Between(n, root) && j <= |es| && es[j..] == Flat(items)
             && forall i :: 0 <= i < |items| ==> WellFormed(items[i])
    ensures Walk(es, j, n, root, sat) == if AllSatisfied(items, sat) then Pass else Fail
    decreases |items|
  {
    hide Walk, ItemSatisfied, Edges, AllSatisfied;
    if items != [] {
      var it, end := items[0], j + |Edges(items[0])|;
      assert es[j..end] == es[j..][..end - j] == Edges(it);
      assert es[end..] == es[j..][end - j..] == Flat(items[1..]);
      var n', root' := WalkItem(es, j, it, n, root, sat, end);
      WalkDecides(es, end, items[1..], n', root', sat);
      AllOf(items, sat);
    } else {
      assert es[j..] == [];
      WalkEnd(es, j, n, root, sat);
    }
  }

  lemma WalkEnd(es: seq<Edge>, j: nat, n: nat, root: Option<bool>, sat: AltTest)
    requires j >= |es|
    ensures Walk(es, j, n, root, sat) == Pass && AllSatisfied([], sat)
  {
  }

  lemma AllOf(items: seq<Item>, sat: AltTest)
    requires items != []
    ensures AllSatisfied(items, sat) <==> ItemSatisfied(items[0], sat) && AllSatisfied(items[1..], sat)
  {
    if ItemSatisfied(items[0], sat) && AllSatisfied(items[1..], sat) {
      forall i | 0 <= i < |items| ensures ItemSatisfied(items[i], sat) {
        if i > 0 { assert items[i] == items[1..][i - 1]; }
      }
    }
    if AllSatisfied(items, sat) {
      forall i | 0 <= i < |items[1..]| ensures ItemSatisfied(items[1..][i], sat) {
        assert items[1..][i] == items[i + 1];
      }
    }
  }

  lemma AllConcat(a: seq<Item>, b: seq<Item>, sat: AltTest)
    ensures AllSatisfied(a + b, sat) <==> AllSatisfied(a, sat) && AllSatisfied(b, sat)
  {
    if AllSatisfied(a + b, sat) {
      assert forall i :: 0 <= i < |a| ==> (a + b)[i] == a[i];
      assert forall i :: 0 <= i < |b| ==> (a + b)[|a| + i] == b[i];
    }
  }

  // ---- From control fields to edges ----

  /** A relation field of a control file. */
  datatype Relation = Relation(kind: Kind, line: CString)

  predicate RelationOk(r: Relation) { LineOk(r.line) && Legal(r.line) }

  function ItemOf(kind: Kind, field: CString): (it: Item)
    requires FieldOk(field) && FieldLegal(field)
  {
    Item(kind, field, Alts(field), Tokens(field, '|')[0] != field)
  }

  function ItemsOf(r: Relation): (items: seq<Item>)
    requires RelationOk(r)
    ensures |items| == |Fields(r.line)|
  {
    var fs := Fields(r.line);
    seq(|fs|, i requires 0 <= i < |fs| && FieldOk(fs[i]) && FieldLegal(fs[i]) => ItemOf(r.kind, fs[i]))
  }

  predicate AllOk(rs: seq<Relation>)
  {
    forall i :: 0 <= i < |rs| ==> RelationOk(rs[i])
  }

  function AllItems(rs: seq<Relation>): (items: seq<Item>)
    requires AllOk(rs)
    decreases |rs|
  {
    if rs == [] then [] else AllItems(rs[..|rs| - 1]) + ItemsOf(rs[|rs| - 1])
  }

  /** A field with one alternative only is the one without a bar. */
  lemma ItemWellFormed(kind: Kind, field: CString)
    requires FieldOk(field) && FieldLegal(field) && |Alts(field)| < 0x10000
    ensures WellFormed(ItemOf(kind, field))
  {
    if Tokens(field, '|')[0] == field { FirstIsWhole(field, '|'); }
  }

  /** Every dependency of the field has an alternative that is satisfied. */
  ghost predicate RelationSatisfied(r: Relation, sat: AltTest)
    requires RelationOk(r)
  {
    r.kind.PreDepends? || r.kind.Depends? ==>
      forall g {:trigger Groups(r.line)[g]} :: 0 <= g < |Groups(r.line)| ==>
        SomeSatisfied(r.kind, Groups(r.line)[g], sat)
  }

  lemma RelationItems(r: Relation, sat: AltTest)
    requires RelationOk(r)
    ensures AllSatisfied(ItemsOf(r), sat) <==> RelationSatisfied(r, sat)
  {
    var items := ItemsOf(r);
    assert forall g :: 0 <= g < |items| ==> items[g].kind == r.kind && items[g].alts == Groups(r.line)[g];
    if IsDepends(r.kind) && AllSatisfied(items, sat) {
      forall g | 0 <= g < |Groups(r.line)| ensures SomeSatisfied(r.kind, Groups(r.line)[g], sat) {
        assert ItemSatisfied(items[g], sat);
      }
    }
  }

  /** Every dependency field of the package is satisfied. */
  ghost predicate Satisfied(rs: seq<Relation>, sat: AltTest)
    requires AllOk(rs)
  {
    forall i {:trigger rs[i]} :: 0 <= i < |rs| ==> RelationSatisfied(rs[i], sat)
  }

  lemma {:induction false} SatisfiedItems(rs: seq<Relation>, sat: AltTest)
    requires AllOk(rs)
    ensures AllSatisfied(AllItems(rs), sat) <==> Satisfied(rs, sat)
    decreases |rs|
  {
    hide ItemsOf, RelationSatisfied, AllSatisfied, RelationOk;
    if rs == [] {
      WalkEnd([], 0, 0, None, sat);
    } else {
      var first, last := rs[..|rs| - 1], rs[|rs| - 1];
      SatisfiedItems(first, sat);
      RelationItems(last, sat);
      AllConcat(AllItems(first), ItemsOf(last), sat);
      SatisfiedSplit(rs, first, last, sat);
    }
  }

  lemma SatisfiedSplit(rs: seq<Relation>, first: seq<Relation>, last: Relation, sat: AltTest)
    requires AllOk(rs) && rs == first + [last]
    ensures AllOk(first) && RelationOk(last) && (Satisfied(rs, sat) <==> Satisfied(first, sat)
                                                                         && RelationSatisfied(last, sat))
  {
    hide RelationSatisfied, RelationOk;
    assert forall i :: 0 <= i < |first| ==> rs[i] == first[i];
    assert rs[|first|] == last;
  }

  ghost predicate AllWellFormed(items: seq<Item>)
  {
    forall i :: 0 <= i < |items| ==> WellFormed(items[i])
  }

  /** Fewer than 2^16 edges make every count fit. */
  lemma {:induction false} ItemsWellFormed(rs: seq<Relation>, all: seq<Item>)
    requires AllOk(rs) && (forall i :: 0 <= i < |all| ==> |Edges(all[i])| < 0x10000) && AllItems(rs) <= all
    ensures AllWellFormed(AllItems(rs))
    decreases |rs|
  {
    if rs != [] {
      var first, last := rs[..|rs| - 1], rs[|rs| - 1];
      ItemsWellFormed(first, all);
      var items := ItemsOf(last);
      forall i | 0 <= i < |items| ensures WellFormed(items[i]) {
        assert items[i] == AllItems(rs)[|AllItems(first)| + i] == all[|AllItems(first)| + i];
        ItemWellFormed(last.kind, Fields(last.line)[i]);
      }
    }
  }

  /** The edges of a package: what the walk over them finds. */
  lemma WalkPackage(rs: seq<Relation>, es: seq<Edge>, sat: AltTest)
    requires AllOk(rs) && es == Flat(AllItems(rs)) && |es| < 0x10000
    ensures Walk(es, 0, 0, None, sat) == if Satisfied(rs, sat) then Pass else Fail
  {
    hide Walk, Flat, AllItems, Satisfied, AllSatisfied, AllOk;
    var items := AllItems(rs);
    forall i | 0 <= i < |items| ensures |Edges(items[i])| < 0x10000 {
      FlatHas(items, i);
    }
    ItemsWellFormed(rs, items);
    assert es[0..] == es;
    WalkDecides(es, 0, items, 0, None, sat);
    SatisfiedItems(rs, sat);
  }

  // ---- Provided names ----

  /** Some edge says that the package provides the name. */
  ghost predicate ProvidesEdge(es: seq<Edge>, name: CString)
  {
    exists j :: 0 <= j < |es| && Provided(es[j], name)
  }

  predicate Provided(e: Edge, name: CString)
  {
    e.Rel? && e.kind.Provides? && e.alt.name == name
  }

  ghost predicate Names(alts: seq<Alt>, name: CString)
  {
    exists i :: 0 <= i < |alts| && alts[i].name == name
  }

  /** The name is in a Provides field. */
  ghost predicate RelationOffers(r: Relation, name: CString)
    requires RelationOk(r)
  {
    r.kind.Provides? && exists g :: 0 <= g < |Groups(r.line)| && Names(Groups(r.line)[g], name)
  }

  ghost predicate Offers(rs: seq<Relation>, name: CString)
    requires AllOk(rs)
  {
    exists i :: 0 <= i < |rs| && RelationOffers(rs[i], name)
  }

  lemma ProvidesConcat(a: seq<Edge>, b: seq<Edge>, name: CString)
    ensures ProvidesEdge(a + b, name) <==> ProvidesEdge(a, name) || ProvidesEdge(b, name)
  {
    hide Provided;
    if ProvidesEdge(a + b, name) {
      var j :| 0 <= j < |a + b| && Provided((a + b)[j], name);
      if j >= |a| { assert Provided(b[j - |a|], name); } else { assert Provided(a[j], name); }
    }
    if ProvidesEdge(a, name) {
      var j :| 0 <= j < |a| && Provided(a[j], name);
      assert Provided((a + b)[j], name);
    }
    if ProvidesEdge(b, name) {
      var j :| 0 <= j < |b| && Provided(b[j], name);
      assert Provided((a + b)[|a| + j], name);
    }
  }

  lemma ProvidesItem(it: Item, name: CString)
    ensures ProvidesEdge(Edges(it), name) <==> it.kind.Provides? && Names(it.alts, name)
  {
    var o, r := OrEdge(it, |it.alts|), RelEdges(it.kind, it.alts);
    ProvidesConcat(o, r, name);
    if it.kind.Provides? && Names(it.alts, name) {
      var i :| 0 <= i < |it.alts| && it.alts[i].name == name;
      assert Provided(r[i], name);
    }
  }

  /** Some item provides the name. */
  ghost predicate ItemProvides(items: seq<Item>, name: CString)
  {
    exists i :: 0 <= i < |items| && items[i].kind.Provides? && Names(items[i].alts, name)
  }

  lemma {:induction false} ProvidesFlat(items: seq<Item>, name: CString)
    ensures ProvidesEdge(Flat(items), name) <==> ItemProvides(items, name)
    decreases |items|
  {
    hide ProvidesEdge, Edges, Names;
    if items == [] {
      NothingProvided(name);
    } else {
      ProvidesFlat(items[1..], name);
      ProvidesItem(items[0], name);
      ProvidesConcat(Edges(items[0]), Flat(items[1..]), name);
      ItemsSplit([items[0]], items[1..], name);
      assert [items[0]] + items[1..] == items;
    }
  }

  lemma NothingProvided(name: CString)
    ensures !ProvidesEdge([], name)
  {
  }

  lemma ItemsSplit(a: seq<Item>, b: seq<Item>, name: CString)
    ensures ItemProvides(a + b, name) <==> ItemProvides(a, name) || ItemProvides(b, name)
  {
    hide Names;
    if ItemProvides(a + b, name) {
      var i :| 0 <= i < |a + b| && (a + b)[i].kind.Provides? && Names((a + b)[i].alts, name);
      if i >= |a| { assert (a + b)[i] == b[i - |a|]; } else { assert (a + b)[i] == a[i]; }
    }
    if ItemProvides(a, name) {
      var i :| 0 <= i < |a| && a[i].kind.Provides? && Names(a[i].alts, name);
      assert (a + b)[i] == a[i];
    }
    if ItemProvides(b, name) {
      var i :| 0 <= i < |b| && b[i].kind.Provides? && Names(b[i].alts, name);
      assert (a + b)[|a| + i] == b[i];
    }
  }

  lemma RelationProvides(r: Relation, name: CString)
    requires RelationOk(r)
    ensures ItemProvides(ItemsOf(r), name) <==> RelationOffers(r, name)
  {
    hide Names;
    var items := ItemsOf(r);
    assert forall g :: 0 <= g < |items| ==> items[g].kind == r.kind && items[g].alts == Groups(r.line)[g];
    if RelationOffers(r, name) {
      var g :| 0 <= g < |Groups(r.line)| && Names(Groups(r.line)[g], name);
      assert Names(items[g].alts, name);
    }
  }

  lemma {:induction false} ItemsOffer(rs: seq<Relation>, name: CString)
    requires AllOk(rs)
    ensures ItemProvides(AllItems(rs), name) <==> Offers(rs, name)
    decreases |rs|
  {
    hide ItemProvides, RelationOffers, ItemsOf, RelationOk;
    if rs == [] {
      NoItems(name);
    } else {
      var first, last := rs[..|rs| - 1], rs[|rs| - 1];
      ItemsOffer(first, name);
      RelationProvides(last, name);
      ItemsSplit(AllItems(first), ItemsOf(last), name);
      OffersSplit(rs, first, last, name);
    }
  }

  lemma NoItems(name: CString)
    ensures !ItemProvides([], name)
  {
  }

  lemma OffersSplit(rs: seq<Relation>, first: seq<Relation>, last: Relation, name: CString)
    requires AllOk(rs) && rs == first + [last]
    ensures AllOk(first) && RelationOk(last) && (Offers(rs, name) <==> Offers(first, name)
                                                                       || RelationOffers(last, name))
  {
    hide RelationOffers, RelationOk;
    assert forall i :: 0 <= i < |first| ==> rs[i] == first[i];
    assert rs[|first|] == last;
    if Offers(rs, name) {
      var i :| 0 <= i < |rs| && RelationOffers(rs[i], name);
      if i < |first| { assert RelationOffers(first[i], name); }
    }
    if Offers(first, name) {
      var i :| 0 <= i < |first| && RelationOffers(first[i], name);
      assert RelationOffers(rs[i], name);
    }
  }

  /** The edges say that a name is provided exactly when a Provides field does. */
  lemma EdgesOffer(rs: seq<Relation>, es: seq<Edge>, name: CString)
    requires AllOk(rs) && es == Flat(AllItems(rs))
    ensures ProvidesEdge(es, name) <==> Offers(rs, name)
  {
    hide ProvidesEdge, Offers, Flat, AllItems, ItemProvides;
    ProvidesFlat(AllItems(rs), name);
    ItemsOffer(rs, name);
  }
}
