/** What a status file says, paragraph by paragraph, and the tables that hold it.  Nothing
    here depends on where packages and statuses are in their tables. */
module Paragraphs {
  import opened Bits
  import opened CStrings
  import opened DebVersion
  import opened DepLines
  import opened Depends
  import opened Packages
  import opened Database

  /** A paragraph of the status file: its control fields and its status line. */
  datatype Paragraph = Paragraph(fields: seq<ControlField>, status: CString)

  function RelationsOf(p: Paragraph): (rs: seq<Relation>) { RelationsUpto(p.fields, |p.fields|) }

  function VersionOf(p: Paragraph): (v: CString) { VersionUpto(p.fields, |p.fields|) }

  function NameOf(p: Paragraph): (n: Option<CString>) { NameUpto(p.fields, |p.fields|) }

  /** A paragraph without a version is passed over. */
  predicate Counts(p: Paragraph)
  {
    NameOf(p).Some? && VersionOf(p) != "unknown"
  }

  function PkgIn(p: Paragraph): (pkg: Pkg)
    requires Counts(p)
  {
    Pkg(NameOf(p).value, VersionOf(p))
  }

  /** The same name and equal versions. */
  predicate SamePkg(a: Pkg, b: Pkg)
  {
    Matches(a, Alt(b.name, Equal, b.version))
  }

  /** Paragraph i is the last one for its package: of its name and an equal version. */
  ghost predicate Current(ps: seq<Paragraph>, i: nat)
  {
    && i < |ps| && Counts(ps[i])
    && forall j {:trigger ps[j]} :: i < j < |ps| && Counts(ps[j]) ==> !SamePkg(PkgIn(ps[i]), PkgIn(ps[j]))
  }

  /** Paragraph i is the last one of its name. */
  ghost predicate Latest(ps: seq<Paragraph>, i: nat)
  {
    && i < |ps| && Counts(ps[i])
    && forall j {:trigger ps[j]} :: i < j < |ps| && Counts(ps[j]) ==> NameOf(ps[j]) != NameOf(ps[i])
  }

  // ---- What the file says ----

  ghost predicate AllLegal(ps: seq<Paragraph>)
  {
    forall i {:trigger ps[i]} :: 0 <= i < |ps| ==> AllOk(RelationsOf(ps[i]))
  }

  /** Paragraph i gives the status of the name, and word number num of it is the given one. */
  ghost predicate SaysHere(ps: seq<Paragraph>, i: nat, name: CString, num: nat, word: CString)
  {
    Latest(ps, i) && NameOf(ps[i]) == Some(name) && Word(ps[i].status, num) == word
  }

  ghost predicate FileSays(ps: seq<Paragraph>, name: CString, num: nat, word: CString)
  {
    exists i: nat :: SaysHere(ps, i, name, num, word)
  }

  /** A package that is installed satisfies a pre-dependency, one that is to be installed
      a dependency. */
  ghost predicate FileAble(ps: seq<Paragraph>, name: CString, kind: Kind)
  {
    match kind
    case PreDepends => FileSays(ps, name, 3, "installed")
    case Depends => FileSays(ps, name, 1, "install")
    case _ => false
  }

  ghost predicate MatchesHere(ps: seq<Paragraph>, i: nat, alt: Alt)
  {
    Current(ps, i) && Matches(PkgIn(ps[i]), alt)
  }

  ghost predicate OffersHere(ps: seq<Paragraph>, i: nat, name: CString)
    requires AllLegal(ps)
  {
    Current(ps, i) && Offers(RelationsOf(ps[i]), name)
  }

  /** An alternative is satisfied by a package of that name with a version that meets the
      relation, or by a package that provides the name. */
  ghost predicate FileSatisfies(ps: seq<Paragraph>, kind: Kind, alt: Alt)
    requires AllLegal(ps)
  {
    || ((exists i: nat :: MatchesHere(ps, i, alt)) && FileAble(ps, alt.name, kind))
    || exists i: nat :: OffersHere(ps, i, alt.name) && FileAble(ps, NameOf(ps[i]).value, kind)
  }

  ghost function FileTest(ps: seq<Paragraph>): AltTest
    requires AllLegal(ps)
  {
    (kind, alt) => FileSatisfies(ps, kind, alt)
  }

  /** The package of paragraph i is not wanted, or its dependencies are satisfied. */
  ghost predicate FineHere(ps: seq<Paragraph>, i: nat)
    requires AllLegal(ps)
  {
    Current(ps, i) && FileSays(ps, NameOf(ps[i]).value, 1, "install") ==> Satisfied(RelationsOf(ps[i]), FileTest(ps))
  }

  /** Every package wanted for install has, in every dependency, an alternative that is
      satisfied. */
  ghost predicate FileHolds(ps: seq<Paragraph>)
    requires AllLegal(ps)
  {
    forall i: nat {:trigger FineHere(ps, i)} :: i < |ps| ==> FineHere(ps, i)
  }

  /** Where the dependencies hold, every pre-dependency of a package wanted for install has
      an alternative whose package is installed, and every dependency one whose package is
      to be installed, of the name with a version that meets the relation or providing it. */
  lemma HoldsForBoth(ps: seq<Paragraph>, i: nat, j: nat, g: nat) returns (k: nat)
    requires AllLegal(ps) && FileHolds(ps) && Current(ps, i) && FileSays(ps, NameOf(ps[i]).value, 1, "install")
    requires j < |RelationsOf(ps[i])| && g < |Groups(RelationsOf(ps[i])[j].line)|
    requires RelationsOf(ps[i])[j].kind in {PreDepends, Depends}
    ensures var r := RelationsOf(ps[i])[j];
            var num, word := if r.kind == PreDepends then 3 else 1,
            if r.kind == PreDepends then "installed" else "install";
            && k < |Groups(r.line)[g]|
            && var alt := Groups(r.line)[g][k];
               || ((exists m: nat :: MatchesHere(ps, m, alt)) && FileSays(ps, alt.name, num, word))
               || exists m: nat :: OffersHere(ps, m, alt.name) && FileSays(ps, NameOf(ps[m]).value, num, word)
  {
    hide MatchesHere, OffersHere, FileSays, Groups;
    assert FineHere(ps, i);
    var r := RelationsOf(ps[i])[j];
    assert RelationSatisfied(r, FileTest(ps));
    assert SomeSatisfied(r.kind, Groups(r.line)[g], FileTest(ps));
    k :| 0 <= k < |Groups(r.line)[g]| && FileTest(ps)(r.kind, Groups(r.line)[g][k]);
    assert FileSatisfies(ps, r.kind, Groups(r.line)[g][k]);
  }

  // ---- Equal packages ----

  lemma SameSymmetric(a: Pkg, b: Pkg)
    ensures SamePkg(a, b) <==> SamePkg(b, a)
  {
    hide Order3, DebVersion.Split;
    OrderSymmetric(DebVersion.Split(a.version), DebVersion.Split(b.version));
  }

  lemma SameTransitive(a: Pkg, b: Pkg, c: Pkg)
    requires SamePkg(a, b) && SamePkg(b, c)
    ensures SamePkg(a, c)
  {
    hide Order3, DebVersion.Split;
    OrderTransitive(DebVersion.Split(a.version), DebVersion.Split(b.version), DebVersion.Split(c.version));
  }

  // ---- The tables hold what the file says ----

  /** Slot p holds the package of paragraph i. */
  ghost predicate Holds1(ps: seq<Paragraph>, pk: Pkgs, rels: seq<seq<Relation>>, p: nat, i: nat)
  {
    && Current(ps, i) && p < |pk| && p < |rels|
    && pk[p] == Some(PkgIn(ps[i])) && rels[p] == RelationsOf(ps[i])
  }

  /** Different slots hold different packages. */
  ghost predicate Apart(pk: Pkgs)
  {
    forall p, q {:trigger pk[p], pk[q]} :: 0 <= p < |pk| && 0 <= q < |pk| && p != q && pk[p].Some? && pk[q].Some? ==>
      !SamePkg(pk[p].value, pk[q].value)
  }

  ghost predicate PackagesHeld(ps: seq<Paragraph>, pk: Pkgs, rels: seq<seq<Relation>>)
  {
    && |rels| == |pk| && Apart(pk)
    && (forall p: nat {:trigger pk[p]} :: p < |pk| && pk[p].Some? ==> exists i: nat :: Holds1(ps, pk, rels, p, i))
    && (forall i: nat {:trigger Current(ps, i)} :: Current(ps, i) ==> exists p: nat :: Holds1(ps, pk, rels, p, i))
  }

  /** A package that is not in the slot it goes to is not in another one either. */
  lemma OnlyThere(w: World, num: nat, pkg: Pkg, p: nat)
    requires Apart(w.packages) && num < |w.packages| && p < |w.packages| && p != num && w.packages[p].Some?
    requires w.packages[num].Some? ==> SamePkg(w.packages[num].value, pkg)
    requires w.packages[num].None? ==> !SomeMatch(w.packages, Alt(pkg.name, Equal, pkg.version))
    ensures !SamePkg(w.packages[p].value, pkg) && !SamePkg(pkg, w.packages[p].value)
  {
    hide Matches;
    var here := w.packages[p].value;
    SameSymmetric(here, pkg);
    if SamePkg(here, pkg) && w.packages[num].Some? {
      SameSymmetric(w.packages[num].value, pkg);
      SameTransitive(here, pkg, w.packages[num].value);
    }
  }

  lemma CurrentMore(ps: seq<Paragraph>, x: Paragraph, i: nat)
    requires i < |ps|
    ensures Current(ps + [x], i) <==> Current(ps, i) && (Counts(x) ==> !SamePkg(PkgIn(ps[i]), PkgIn(x)))
    ensures Latest(ps + [x], i) <==> Latest(ps, i) && (Counts(x) ==> NameOf(x) != NameOf(ps[i]))
  {
    hide Counts, SamePkg, NameOf, PkgIn;
    var all := ps + [x];
    assert forall j :: 0 <= j < |ps| ==> all[j] == ps[j];
    assert all[|ps|] == x;
  }

  lemma LastIsCurrent(ps: seq<Paragraph>, x: Paragraph)
    ensures Current(ps + [x], |ps|) <==> Counts(x)
    ensures Latest(ps + [x], |ps|) <==> Counts(x)
  {
  }

  lemma PutApart(w: World, num: nat, pkg: Pkg)
    requires Apart(w.packages) && num < |w.packages|
    requires w.packages[num].Some? ==> SamePkg(w.packages[num].value, pkg)
    requires w.packages[num].None? ==> !SomeMatch(w.packages, Alt(pkg.name, Equal, pkg.version))
    ensures Apart(w.packages[num := Some(pkg)])
  {
    hide SamePkg, SomeMatch;
    var pk := w.packages[num := Some(pkg)];
    forall p, q {:trigger pk[p], pk[q]} | 0 <= p < |pk| && 0 <= q < |pk| && p != q && pk[p].Some? && pk[q].Some?
      ensures !SamePkg(pk[p].value, pk[q].value)
    {
      if p == num { OnlyThere(w, num, pkg, q); } else if q == num { OnlyThere(w, num, pkg, p); }
    }
  }

  lemma SlotStays(ps: seq<Paragraph>, w: World, mid: World, num: nat, x: Paragraph, p: nat, i: nat)
    requires Apart(w.packages) && Counts(x) && Stored(w, mid, num, PkgIn(x), RelationsOf(x))
             && Holds1(ps, w.packages, w.relations, p, i) && p != num
    ensures Holds1(ps + [x], mid.packages, mid.relations, p, i)
  {
    hide Current, Matches, SomeMatch, Counts, RelationsOf, Apart;
    Indexed(ps, i);
    OnlyThere(w, num, PkgIn(x), p);
    assert (ps + [x])[i] == ps[i];
    CurrentMore(ps, x, i);
  }

  lemma Indexed(ps: seq<Paragraph>, i: nat)
    requires Current(ps, i)
    ensures i < |ps| && Counts(ps[i])
  {
  }

  lemma NewSlot(ps: seq<Paragraph>, w: World, mid: World, num: nat, x: Paragraph)
    requires Counts(x) && Stored(w, mid, num, PkgIn(x), RelationsOf(x))
    ensures Holds1(ps + [x], mid.packages, mid.relations, num, |ps|)
  {
    hide Current, SomeMatch, Matches, Counts, RelationsOf;
    LastIsCurrent(ps, x);
  }

  /** A package that is stored: what the slots hold. */
  lemma StoredSlots(ps: seq<Paragraph>, w: World, mid: World, num: nat, x: Paragraph, p: nat)
    requires PackagesHeld(ps, w.packages, w.relations) && Counts(x) && Stored(w, mid, num, PkgIn(x), RelationsOf(x))
    requires p < |mid.packages| && mid.packages[p].Some?
    ensures exists i: nat :: Holds1(ps + [x], mid.packages, mid.relations, p, i)
  {
    hide Holds1, SomeMatch, Matches, Counts, RelationsOf, Current, Apart;
    if p == num {
      NewSlot(ps, w, mid, num, x);
    } else {
      assert w.packages[p].Some?;
      var i: nat :| Holds1(ps, w.packages, w.relations, p, i);
      SlotStays(ps, w, mid, num, x, p, i);
    }
  }

  /** And where the paragraphs are. */
  lemma StoredParagraphs(ps: seq<Paragraph>, w: World, mid: World, num: nat, x: Paragraph, i: nat)
    requires PackagesHeld(ps, w.packages, w.relations) && Counts(x) && Stored(w, mid, num, PkgIn(x), RelationsOf(x))
             && Current(ps + [x], i)
    ensures exists p: nat :: Holds1(ps + [x], mid.packages, mid.relations, p, i)
  {
    hide SomeMatch, Counts, RelationsOf, Apart;
    if i == |ps| {
      NewSlot(ps, w, mid, num, x);
    } else {
      CurrentMore(ps, x, i);
      var p: nat :| Holds1(ps, w.packages, w.relations, p, i);
      SlotStays(ps, w, mid, num, x, p, i);
    }
  }

  lemma PackageStep(ps: seq<Paragraph>, w: World, mid: World, num: nat, x: Paragraph)
    requires PackagesHeld(ps, w.packages, w.relations) && Counts(x) && Stored(w, mid, num, PkgIn(x), RelationsOf(x))
    ensures PackagesHeld(ps + [x], mid.packages, mid.relations)
  {
    hide Holds1, SomeMatch, Matches, Counts, RelationsOf, Current, Apart;
    PutApart(w, num, PkgIn(x));
    forall p: nat {:trigger mid.packages[p]} | p < |mid.packages| && mid.packages[p].Some?
      ensures exists i: nat :: Holds1(ps + [x], mid.packages, mid.relations, p, i)
    {
      StoredSlots(ps, w, mid, num, x, p);
    }
    forall i: nat {:trigger Current(ps + [x], i)} | Current(ps + [x], i)
      ensures exists p: nat :: Holds1(ps + [x], mid.packages, mid.relations, p, i)
    {
      StoredParagraphs(ps, w, mid, num, x, i);
    }
  }

  // ---- Statuses ----

  /** Status slot a holds the status of paragraph i. */
  ghost predicate HoldsStatus(ps: seq<Paragraph>, st: Stats, a: nat, i: nat)
  {
    Latest(ps, i) && a < |st| && st[a] == Some(Stat(NameOf(ps[i]).value, ps[i].status))
  }

  ghost predicate OneEach(st: Stats)
  {
    forall a, b {:trigger st[a], st[b]} :: 0 <= a < |st| && 0 <= b < |st| && a != b && st[a].Some? && st[b].Some? ==>
      st[a].value.name != st[b].value.name
  }

  ghost predicate StatusesHeld(ps: seq<Paragraph>, st: Stats)
  {
    && OneEach(st)
    && (forall a: nat {:trigger st[a]} :: a < |st| && st[a].Some? ==> exists i: nat :: HoldsStatus(ps, st, a, i))
    && (forall i: nat {:trigger Latest(ps, i)} :: Latest(ps, i) ==> exists a: nat :: HoldsStatus(ps, st, a, i))
  }

  /** Putting the status of paragraph x in slot a. */
  ghost predicate Put(st: Stats, st': Stats, a: nat, x: Paragraph)
  {
    && Counts(x) && a < |st| && (st[a].Some? ==> st[a].value.name == NameOf(x).value)
    && (st[a].None? ==> NoStatus(st, NameOf(x).value)) && st' == st[a := Some(Stat(NameOf(x).value, x.status))]
  }

  lemma StatusStays(ps: seq<Paragraph>, st: Stats, st': Stats, a: nat, x: Paragraph, b: nat, i: nat)
    requires OneEach(st) && Put(st, st', a, x) && HoldsStatus(ps, st, b, i) && b != a
    ensures HoldsStatus(ps + [x], st', b, i)
  {
    hide VersionOf;
    assert st[b].Some? && st[b].value.name != NameOf(x).value;
    assert (ps + [x])[i] == ps[i];
    CurrentMore(ps, x, i);
  }

  lemma NewStatus(ps: seq<Paragraph>, st: Stats, st': Stats, a: nat, x: Paragraph)
    requires Put(st, st', a, x)
    ensures HoldsStatus(ps + [x], st', a, |ps|)
  {
    hide VersionOf;
    LastIsCurrent(ps, x);
  }

  lemma StatusSlots(ps: seq<Paragraph>, st: Stats, st': Stats, a: nat, x: Paragraph, b: nat)
    requires StatusesHeld(ps, st) && Put(st, st', a, x) && b < |st'| && st'[b].Some?
    ensures exists i: nat :: HoldsStatus(ps + [x], st', b, i)
  {
    hide HoldsStatus, OneEach, NoStatus, Latest;
    if b == a {
      NewStatus(ps, st, st', a, x);
    } else {
      assert st[b].Some?;
      var i: nat :| HoldsStatus(ps, st, b, i);
      StatusStays(ps, st, st', a, x, b, i);
    }
  }

  lemma StatusParagraphs(ps: seq<Paragraph>, st: Stats, st': Stats, a: nat, x: Paragraph, i: nat)
    requires StatusesHeld(ps, st) && Put(st, st', a, x) && Latest(ps + [x], i)
    ensures exists b: nat :: HoldsStatus(ps + [x], st', b, i)
  {
    hide OneEach, NoStatus, VersionOf;
    if i == |ps| {
      NewStatus(ps, st, st', a, x);
    } else {
      CurrentMore(ps, x, i);
      var b: nat :| HoldsStatus(ps, st, b, i);
      StatusStays(ps, st, st', a, x, b, i);
    }
  }

  lemma StatusStep(ps: seq<Paragraph>, st: Stats, st': Stats, a: nat, x: Paragraph)
    requires StatusesHeld(ps, st) && Put(st, st', a, x)
    ensures StatusesHeld(ps + [x], st')
  {
    hide HoldsStatus, Latest;
    forall b: nat {:trigger st'[b]} | b < |st'| && st'[b].Some? ensures exists i: nat :: HoldsStatus(ps + [x], st', b,
                                                                                                     i) {
      StatusSlots(ps, st, st', a, x, b);
    }
    forall i: nat {:trigger Latest(ps + [x], i)} | Latest(ps + [x], i)
      ensures exists b: nat :: HoldsStatus(ps + [x], st', b, i)
    {
      StatusParagraphs(ps, st, st', a, x, i);
    }
  }

  // ---- The whole world ----

  /** The tables hold the packages and statuses that the paragraphs give, and no others. */
  ghost predicate Describes(ps: seq<Paragraph>, w: World)
  {
    PackagesHeld(ps, w.packages, w.relations) && StatusesHeld(ps, w.status)
  }

  lemma DescribesNone(w: World)
    requires |w.relations| == |w.packages|
    requires forall p :: 0 <= p < |w.packages| ==> w.packages[p].None?
    requires forall a :: 0 <= a < |w.status| ==> w.status[a].None?
    ensures Describes([], w)
  {
  }

  /** A paragraph that does not count changes nothing. */
  lemma {:induction false} PassedOver(ps: seq<Paragraph>, w: World, x: Paragraph)
    requires Describes(ps, w) && !Counts(x)
    ensures Describes(ps + [x], w)
  {
    hide Counts, PkgIn, RelationsOf, NameOf, Apart, OneEach;
    var all := ps + [x];
    assert forall i :: 0 <= i < |ps| ==> all[i] == ps[i];
    LastIsCurrent(ps, x);
    forall i: nat ensures Current(all, i) <==> Current(ps, i) {
      if i < |ps| { CurrentMore(ps, x, i); }
    }
    forall i: nat ensures Latest(all, i) <==> Latest(ps, i) {
      if i < |ps| { CurrentMore(ps, x, i); }
    }
    SameHeld(ps, all, w);
  }

  lemma SameHeld(ps: seq<Paragraph>, all: seq<Paragraph>, w: World)
    requires Describes(ps, w) && |ps| <= |all| && forall i :: 0 <= i < |ps| ==> all[i] == ps[i]
    requires forall i: nat {:trigger Current(all, i)} :: Current(all, i) <==> Current(ps, i)
    requires forall i: nat {:trigger Latest(all, i)} :: Latest(all, i) <==> Latest(ps, i)
    ensures Describes(all, w)
  {
    hide Apart, OneEach, PkgIn, RelationsOf, NameOf, VersionOf;
    forall p: nat, i: nat ensures Holds1(all, w.packages, w.relations, p, i) <==> Holds1(ps, w.packages, w.relations, p,
                                                                                         i) {
      Below(ps, all, i);
    }
    forall a: nat, i: nat ensures HoldsStatus(all, w.status, a, i) <==> HoldsStatus(ps, w.status, a, i) {
      Below(ps, all, i);
    }
    hide Holds1, HoldsStatus;
    forall p: nat {:trigger w.packages[p]} | p < |w.packages|
    && w.packages[p].Some? ensures exists i: nat :: Holds1(all, w.packages, w.relations, p, i) {
      var i: nat :| Holds1(ps, w.packages, w.relations, p, i);
      assert Holds1(all, w.packages, w.relations, p, i);
    }
    forall i: nat {:trigger Current(all, i)} | Current(all, i) ensures exists p: nat :: Holds1(all, w.packages,
                                                                                               w.relations, p, i) {
      var p: nat :| Holds1(ps, w.packages, w.relations, p, i);
      assert Holds1(all, w.packages, w.relations, p, i);
    }
    forall a: nat {:trigger w.status[a]} | a < |w.status|
    && w.status[a].Some? ensures exists i: nat :: HoldsStatus(all, w.status, a, i) {
      var i: nat :| HoldsStatus(ps, w.status, a, i);
      assert HoldsStatus(all, w.status, a, i);
    }
    forall i: nat {:trigger Latest(all, i)} | Latest(all, i) ensures exists a: nat :: HoldsStatus(all, w.status, a, i) {
      var a: nat :| HoldsStatus(ps, w.status, a, i);
      assert HoldsStatus(all, w.status, a, i);
    }
  }

  lemma Below(ps: seq<Paragraph>, all: seq<Paragraph>, i: nat)
    ensures Current(ps, i) ==> i < |ps| && Counts(ps[i])
    ensures Latest(ps, i) ==> i < |ps| && Counts(ps[i])
  {
  }

  /** A paragraph that counts: its package is stored, then its status is put. */
  lemma DescribesMore(ps: seq<Paragraph>, w: World, mid: World, w': World, num: nat, a: nat, x: Paragraph)
    requires Describes(ps, w) && Counts(x) && Stored(w, mid, num, PkgIn(x), RelationsOf(x))
             && StatusPut(mid, w', num, a, x.status)
    ensures Describes(ps + [x], w')
  {
    hide PackagesHeld, StatusesHeld, SomeMatch, Matches, NoStatus, RelationsOf, NameOf, VersionOf;
    PackageStep(ps, w, mid, num, x);
    StatusStep(ps, w.status, w'.status, a, x);
  }

  // ---- The answer depends on the file alone ----

  lemma SaysSame(ps: seq<Paragraph>, st: Stats, name: CString, num: nat, word: CString)
    requires StatusesHeld(ps, st)
    ensures StatusSays(st, name, num, word) <==> FileSays(ps, name, num, word)
  {
    hide Word, OneEach, VersionOf;
    if StatusSays(st, name, num, word) {
      var a: nat :| 0 <= a < |st| && st[a].Some? && st[a].value.name == name && Word(st[a].value.text, num) == word;
      var i: nat :| HoldsStatus(ps, st, a, i);
      assert SaysHere(ps, i, name, num, word);
    }
    if FileSays(ps, name, num, word) {
      var i: nat :| SaysHere(ps, i, name, num, word);
      var a: nat :| HoldsStatus(ps, st, a, i);
      assert st[a].Some?;
    }
  }

  lemma AbleSame(ps: seq<Paragraph>, st: Stats, name: CString, kind: Kind)
    requires StatusesHeld(ps, st)
    ensures Able(st, name, kind) <==> FileAble(ps, name, kind)
  {
    hide StatusesHeld, StatusSays, FileSays;
    SaysSame(ps, st, name, 3, "installed");
    SaysSame(ps, st, name, 1, "install");
  }

  lemma MatchSame(ps: seq<Paragraph>, w: World, alt: Alt)
    requires PackagesHeld(ps, w.packages, w.relations)
    ensures SomeMatch(w.packages, alt) <==> exists i: nat :: MatchesHere(ps, i, alt)
  {
    hide Matches, Apart, Current, RelationsOf, PkgIn;
    if SomeMatch(w.packages, alt) {
      var p: nat :| 0 <= p < |w.packages| && w.packages[p].Some? && Matches(w.packages[p].value, alt);
      var i: nat :| Holds1(ps, w.packages, w.relations, p, i);
      assert MatchesHere(ps, i, alt);
    }
    if exists i: nat :: MatchesHere(ps, i, alt) {
      var i: nat :| MatchesHere(ps, i, alt);
      var p: nat :| Holds1(ps, w.packages, w.relations, p, i);
      assert w.packages[p].Some? && Matches(w.packages[p].value, alt);
    }
  }

  lemma OfferedHere(ps: seq<Paragraph>, w: World, kind: Kind, name: CString, p: nat)
    requires Describes(ps, w) && AllLegal(ps) && WorldOk(w) && Provider(w, p, name)
             && Able(w.status, w.packages[p].value.name, kind)
    ensures exists i: nat :: OffersHere(ps, i, name) && FileAble(ps, NameOf(ps[i]).value, kind)
  {
    hide Offers, Able, FileAble, AllLegal, WorldOk, StatusesHeld, Apart, RelationsOf;
    var i: nat :| Holds1(ps, w.packages, w.relations, p, i);
    AbleSame(ps, w.status, w.packages[p].value.name, kind);
    assert OffersHere(ps, i, name);
  }

  lemma OfferedThere(ps: seq<Paragraph>, w: World, kind: Kind, name: CString, i: nat)
    requires Describes(ps, w) && AllLegal(ps) && WorldOk(w) && OffersHere(ps, i, name)
             && FileAble(ps, NameOf(ps[i]).value, kind)
    ensures exists p: nat {:trigger Provider(w, p, name)} :: Provider(w, p, name)
                                                             && Able(w.status, w.packages[p].value.name, kind)
  {
    hide Offers, Able, FileAble, AllLegal, WorldOk, StatusesHeld, Apart, RelationsOf;
    var p: nat :| Holds1(ps, w.packages, w.relations, p, i);
    AbleSame(ps, w.status, w.packages[p].value.name, kind);
    assert Provider(w, p, name);
  }

  lemma SatisfiesSame(ps: seq<Paragraph>, w: World, kind: Kind, alt: Alt)
    requires Describes(ps, w) && AllLegal(ps) && WorldOk(w)
    ensures Satisfiable(w, kind, alt) <==> FileSatisfies(ps, kind, alt)
  {
    hide PackagesHeld, StatusesHeld, AllLegal, WorldOk, Able, FileAble, SomeMatch, MatchesHere, Offers, RelationsOf;
    MatchSame(ps, w, alt);
    AbleSame(ps, w.status, alt.name, kind);
    if exists p: nat {:trigger Provider(w, p, alt.name)} :: Provider(w, p, alt.name)
                                                            && Able(w.status, w.packages[p].value.name, kind) {
      var p: nat :| Provider(w, p, alt.name) && Able(w.status, w.packages[p].value.name, kind);
      OfferedHere(ps, w, kind, alt.name, p);
    }
    if exists i: nat :: OffersHere(ps, i, alt.name) && FileAble(ps, NameOf(ps[i]).value, kind) {
      var i: nat :| OffersHere(ps, i, alt.name) && FileAble(ps, NameOf(ps[i]).value, kind);
      OfferedThere(ps, w, kind, alt.name, i);
    }
  }

  /** Tests with the same answers satisfy the same dependencies. */
  lemma SatisfiedSame(rs: seq<Relation>, f: AltTest, g: AltTest)
    requires AllOk(rs) && forall kind, alt :: f(kind, alt) <==> g(kind, alt)
    ensures Satisfied(rs, f) <==> Satisfied(rs, g)
  {
    hide RelationOk;
    forall i | 0 <= i < |rs| ensures RelationSatisfied(rs[i], f) <==> RelationSatisfied(rs[i], g) {
      assert RelationOk(rs[i]);
      RelationSame(rs[i], f, g);
    }
  }

  lemma RelationSame(r: Relation, f: AltTest, g: AltTest)
    requires RelationOk(r) && forall kind, alt :: f(kind, alt) <==> g(kind, alt)
    ensures RelationSatisfied(r, f) <==> RelationSatisfied(r, g)
  {
    hide RelationOk;
    forall alts: seq<Alt> ensures SomeSatisfied(r.kind, alts, f) <==> SomeSatisfied(r.kind, alts, g) {
      if SomeSatisfied(r.kind, alts, f) {
        var k :| 0 <= k < |alts| && f(r.kind, alts[k]);
        assert g(r.kind, alts[k]);
      }
      if SomeSatisfied(r.kind, alts, g) {
        var k :| 0 <= k < |alts| && g(r.kind, alts[k]);
        assert f(r.kind, alts[k]);
      }
    }
  }

  lemma TestsSame(ps: seq<Paragraph>, w: World)
    requires Describes(ps, w) && AllLegal(ps) && WorldOk(w)
    ensures forall kind, alt :: Sat(w)(kind, alt) <==> FileTest(ps)(kind, alt)
  {
    hide Describes, AllLegal, WorldOk, Satisfiable, FileSatisfies;
    forall kind, alt ensures Sat(w)(kind, alt) <==> FileTest(ps)(kind, alt) {
      SatisfiesSame(ps, w, kind, alt);
    }
  }

  lemma FineSame(ps: seq<Paragraph>, w: World, p: nat, i: nat)
    requires Describes(ps, w) && AllLegal(ps) && WorldOk(w) && Holds1(ps, w.packages, w.relations, p, i)
    ensures PackageFine(w, p) <==> FineHere(ps, i)
  {
    hide PackagesHeld, StatusesHeld, StatusSays, FileSays, Satisfied, Sat, FileTest, RelationsOf, VersionOf;
    TestsSame(ps, w);
    SaysSame(ps, w.status, w.packages[p].value.name, 1, "install");
    SatisfiedSame(RelationsOf(ps[i]), Sat(w), FileTest(ps));
  }

  /** Whether the dependencies hold is a matter of the file alone. */
  lemma HoldsSame(ps: seq<Paragraph>, w: World)
    requires Describes(ps, w) && AllLegal(ps) && WorldOk(w)
    ensures DependenciesHold(w) <==> FileHolds(ps)
  {
    hide AllLegal, WorldOk, StatusesHeld, Apart, Satisfied, Sat, FileTest, StatusSays, FileSays, RelationsOf, PkgIn;
    if DependenciesHold(w) {
      forall i: nat {:trigger FineHere(ps, i)} | i < |ps| ensures FineHere(ps, i) {
        if Current(ps, i) {
          var p: nat :| Holds1(ps, w.packages, w.relations, p, i);
          FineSame(ps, w, p, i);
        }
      }
    }
    if FileHolds(ps) {
      forall p: nat {:trigger PackageFine(w, p)} | p < |w.packages| ensures PackageFine(w, p) {
        if w.packages[p].Some? {
          var i: nat :| Holds1(ps, w.packages, w.relations, p, i);
          FineSame(ps, w, p, i);
        }
      }
    }
  }
}
