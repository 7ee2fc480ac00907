/** What the package and status tables of dpkg.c hold, and what searching them finds. */
module Packages {
  import opened Bits
  import opened CStrings
  import opened DebVersion
  import opened DoubleHash
  import opened DepLines
  import opened Depends
  import opened SplitLines

  datatype Node = Node(name: nat, version: nat, edges: seq<IdEdge>)

  datatype StatusNode = StatusNode(package: nat, status: nat)

  /** A package and a package's status with their names. */
  datatype Pkg = Pkg(name: CString, version: CString)
  datatype Stat = Stat(name: CString, text: CString)

  type Nodes = seq<Option<Node>>
  type StatusNodes = seq<Option<StatusNode>>
  type Pkgs = seq<Option<Pkg>>
  type Stats = seq<Option<Stat>>

  // ---- From indices to names ----

  function PkgOf(t: Slots, n: Node): (p: Pkg)
  {
    Pkg(NameAt(t, n.name), NameAt(t, n.version))
  }

  function PkgView(t: Slots, ns: Nodes): (pk: Pkgs)
    ensures |pk| == |ns|
    ensures forall a :: 0 <= a < |ns| ==> pk[a] == if ns[a].None? then None else Some(PkgOf(t, ns[a].value))
  {
    seq(|ns|, a requires 0 <= a < |ns| => if ns[a].None? then None else Some(PkgOf(t, ns[a].value)))
  }

  function StatOf(t: Slots, ns: Nodes, s: StatusNode): (st: Stat)
  {
    Stat(if s.package < |ns| && ns[s.package].Some? then NameAt(t, ns[s.package].value.name) else [],
         NameAt(t, s.status))
  }

  function StatView(t: Slots, ns: Nodes, ss: StatusNodes): (st: Stats)
    ensures |st| == |ss|
    ensures forall a :: 0 <= a < |ss| ==> st[a] == if ss[a].None? then None else Some(StatOf(t, ns, ss[a].value))
  {
    seq(|ss|, a requires 0 <= a < |ss| => if ss[a].None? then None else Some(StatOf(t, ns, ss[a].value)))
  }

  /** A package's node: its indices are names, and its edges are those of its control
      fields rs. */
  ghost predicate NodeOk(t: Slots, n: Node, rs: seq<Relation>)
  {
    && Known(t, n.name) && Known(t, n.version) && EdgesKnown(t, n.edges)
    && AllOk(rs) && EdgesView(t, n.edges) == Flat(AllItems(rs)) && |n.edges| < 0x10000
  }

  ghost predicate NodesOk(t: Slots, ns: Nodes, rels: seq<seq<Relation>>)
  {
    |rels| == |ns| && forall a {:trigger ns[a]} :: 0 <= a < |ns| && ns[a].Some? ==> NodeOk(t, ns[a].value, rels[a])
  }

  ghost predicate StatusOk(t: Slots, ns: Nodes, s: StatusNode)
  {
    s.package < |ns| && ns[s.package].Some? && Known(t, s.status)
  }

  ghost predicate StatusesOk(t: Slots, ns: Nodes, ss: StatusNodes)
  {
    forall a {:trigger ss[a]} :: 0 <= a < |ss| && ss[a].Some? ==> StatusOk(t, ns, ss[a].value)
  }

  /** New names change nothing. */
  lemma NodeGrew(t: Slots, t': Slots, n: Node, rs: seq<Relation>)
    requires Grew(t, t') && NodeOk(t, n, rs)
    ensures NodeOk(t', n, rs) && PkgOf(t', n) == PkgOf(t, n)
  {
    ViewGrew(t, t', n.edges);
    assert t'[n.name] == t[n.name] && t'[n.version] == t[n.version];
  }

  lemma NodesGrew(t: Slots, t': Slots, ns: Nodes, rels: seq<seq<Relation>>)
    requires Grew(t, t') && NodesOk(t, ns, rels)
    ensures NodesOk(t', ns, rels) && PkgView(t', ns) == PkgView(t, ns)
  {
    hide NodeOk, Grew, PkgOf;
    forall a | 0 <= a < |ns| && ns[a].Some? ensures NodeOk(t', ns[a].value, rels[a])
    && PkgOf(t', ns[a].value) == PkgOf(t, ns[a].value) {
      NodeGrew(t, t', ns[a].value, rels[a]);
    }
  }

  lemma StatusGrew(t: Slots, t': Slots, ns: Nodes, rels: seq<seq<Relation>>, s: StatusNode)
    requires Grew(t, t') && NodesOk(t, ns, rels) && StatusOk(t, ns, s)
    ensures StatusOk(t', ns, s) && StatOf(t', ns, s) == StatOf(t, ns, s)
  {
    assert NodeOk(t, ns[s.package].value, rels[s.package]);
    NodeGrew(t, t', ns[s.package].value, rels[s.package]);
    assert t'[s.status] == t[s.status];
  }

  lemma StatusesGrew(t: Slots, t': Slots, ns: Nodes, rels: seq<seq<Relation>>, ss: StatusNodes)
    requires Grew(t, t') && NodesOk(t, ns, rels) && StatusesOk(t, ns, ss)
    ensures StatusesOk(t', ns, ss) && StatView(t', ns, ss) == StatView(t, ns, ss)
  {
    hide NodesOk, Grew, StatusOk, StatOf;
    forall a | 0 <= a < |ss| && ss[a].Some? ensures StatusOk(t', ns, ss[a].value)
    && StatOf(t', ns, ss[a].value) == StatOf(t, ns, ss[a].value) {
      StatusGrew(t, t', ns, rels, ss[a].value);
    }
  }

  // ---- Finding packages ----

  /** The version stands in the relation to the other version. */
  predicate Meets(version: CString, op: Operator, other: CString)
  {
    op.Any? || Holds(Order3(DebVersion.Split(version), DebVersion.Split(other)), op)
  }

  predicate Matches(p: Pkg, alt: Alt)
  {
    p.name == alt.name && Meets(p.version, alt.op, alt.version)
  }

  /** search_package_hashtable stops at a free slot and at a package that matches. */
  ghost function PkgStop(pk: Pkgs, alt: Alt): nat -> bool
  {
    (a: nat) => a < |pk| ==> pk[a].None? || Matches(pk[a].value, alt)
  }

  /** No slot probed for the name before its k-th is free. */
  ghost predicate NoGap(pk: Pkgs, name: CString, k: nat)
    requires |pk| >= 3
  {
    forall j {:trigger At(name, |pk|, j)} :: 0 <= j < k ==> pk[At(name, |pk|, j)].Some?
  }

  ghost predicate PkgReached(pk: Pkgs, a: nat)
    requires |pk| >= 3 && a < |pk| && pk[a].Some?
  {
    exists k: nat :: At(pk[a].value.name, |pk|, k) == a && NoGap(pk, pk[a].value.name, k)
  }

  ghost predicate PkgPlaced(pk: Pkgs)
  {
    |pk| >= 3 && forall a {:trigger pk[a]} :: 0 <= a < |pk| && pk[a].Some? ==> PkgReached(pk, a)
  }

  /** Some package in the table matches. */
  ghost predicate SomeMatch(pk: Pkgs, alt: Alt)
  {
    exists b :: 0 <= b < |pk| && pk[b].Some? && Matches(pk[b].value, alt)
  }

  /** The search finds a package that matches, if there is one in the table at all. */
  lemma SearchFinds(pk: Pkgs, alt: Alt, a: nat, k: nat)
    requires PkgPlaced(pk) && a < |pk| && Ends(|pk|, alt.name, PkgStop(pk, alt), a, k)
    ensures pk[a].Some? ==> Matches(pk[a].value, alt) && pk[a].value.name == alt.name
    ensures pk[a].Some? <==> SomeMatch(pk, alt)
  {
    hide Meets;
    if SomeMatch(pk, alt) {
      var b :| 0 <= b < |pk| && pk[b].Some? && Matches(pk[b].value, alt);
      MatchReached(pk, alt, a, k, b);
    }
  }

  lemma MatchReached(pk: Pkgs, alt: Alt, a: nat, k: nat, b: nat)
    requires PkgPlaced(pk) && a < |pk| && Ends(|pk|, alt.name, PkgStop(pk, alt), a, k)
    requires b < |pk| && pk[b].Some? && Matches(pk[b].value, alt)
    ensures pk[a].Some?
  {
    assert PkgReached(pk, b);
    var j: nat :| At(alt.name, |pk|, j) == b && NoGap(pk, alt.name, j);
    if k < j {
      assert pk[At(alt.name, |pk|, k)].Some?;
    } else {
      EndsFirst(|pk|, alt.name, PkgStop(pk, alt), a, k, b, j);
    }
  }

  /** A package put where its search ended can be reached, and so can the others. */
  lemma PutPackage(pk: Pkgs, alt: Alt, a: nat, k: nat, p: Pkg, pk': Pkgs)
    requires PkgPlaced(pk) && a < |pk| && Ends(|pk|, alt.name, PkgStop(pk, alt), a, k)
    requires p.name == alt.name && pk' == pk[a := Some(p)]
    ensures PkgPlaced(pk')
  {
    hide Matches;
    forall b {:trigger pk'[b]} | 0 <= b < |pk'| && pk'[b].Some? ensures PkgReached(pk', b) {
      if b == a {
        PastIsFull(pk, alt, k);
        GapFilled(pk, a, p, pk', alt.name, k);
        assert At(alt.name, |pk'|, k) == b;
      } else {
        assert PkgReached(pk, b);
        var name := pk[b].value.name;
        var j: nat :| At(name, |pk|, j) == b && NoGap(pk, name, j);
        GapFilled(pk, a, p, pk', name, j);
        assert At(name, |pk'|, j) == b;
      }
    }
  }

  lemma PastIsFull(pk: Pkgs, alt: Alt, k: nat)
    requires |pk| >= 3 && GoesPast(|pk|, alt.name, PkgStop(pk, alt), k)
    ensures NoGap(pk, alt.name, k)
  {
    forall j | 0 <= j < k ensures pk[At(alt.name, |pk|, j)].Some? {
      assert !PkgStop(pk, alt)(At(alt.name, |pk|, j));
    }
  }

  lemma GapFilled(pk: Pkgs, a: nat, p: Pkg, pk': Pkgs, name: CString, k: nat)
    requires |pk| >= 3 && a < |pk| && pk' == pk[a := Some(p)] && NoGap(pk, name, k)
    ensures NoGap(pk', name, k)
  {
    forall j | 0 <= j < k ensures pk'[At(name, |pk|, j)].Some? {
      assert pk[At(name, |pk|, j)].Some?;
    }
  }

  // ---- Finding a status ----

  /** search_status_hashtable stops at a free slot and at the package of that name. */
  ghost function StatStop(st: Stats, name: CString): nat -> bool
  {
    (a: nat) => a < |st| ==> st[a].None? || st[a].value.name == name
  }

  ghost predicate StatReached(st: Stats, a: nat)
    requires a < |st| && st[a].Some?
  {
    exists k: nat :: Ends(|st|, st[a].value.name, StatStop(st, st[a].value.name), a, k)
  }

  ghost predicate StatPlaced(st: Stats)
  {
    |st| >= 3 && forall a {:trigger st[a]} :: 0 <= a < |st| && st[a].Some? ==> StatReached(st, a)
  }

  /** The search finds the status of that name, the only one, if there is one. */
  lemma StatusFound(st: Stats, name: CString, a: nat, k: nat, b: nat)
    requires StatPlaced(st) && a < |st| && Ends(|st|, name, StatStop(st, name), a, k)
    requires b < |st| && st[b].Some? && st[b].value.name == name
    ensures a == b
  {
    assert StatReached(st, b);
    var j: nat :| Ends(|st|, name, StatStop(st, name), b, j);
    EndsOnce(|st|, name, StatStop(st, name), a, k, b, j);
  }

  lemma PutStatus(st: Stats, name: CString, a: nat, k: nat, s: Stat, st': Stats)
    requires StatPlaced(st) && a < |st| && Ends(|st|, name, StatStop(st, name), a, k)
    requires s.name == name && st' == st[a := Some(s)]
    ensures StatPlaced(st')
  {
    forall b {:trigger st'[b]} | 0 <= b < |st'| && st'[b].Some? ensures StatReached(st', b) {
      if b == a {
        StatPast(st, name, a, s, st', name, k);
        assert Ends(|st'|, name, StatStop(st', name), a, k);
      } else {
        assert StatReached(st, b);
        var other := st[b].value.name;
        var j: nat :| Ends(|st|, other, StatStop(st, other), b, j);
        StatPast(st, name, a, s, st', other, j);
        assert Ends(|st'|, other, StatStop(st', other), b, j);
      }
    }
  }

  lemma StatPast(st: Stats, name: CString, a: nat, s: Stat, st': Stats, other: CString, k: nat)
    requires |st| >= 3 && a < |st| && (st[a].None? || st[a].value.name == name) && s.name == name
             && st' == st[a := Some(s)]
    requires GoesPast(|st|, other, StatStop(st, other), k)
    ensures GoesPast(|st|, other, StatStop(st', other), k)
  {
    forall j | 0 <= j < k ensures !StatStop(st', other)(At(other, |st|, j)) {
      assert !StatStop(st, other)(At(other, |st|, j));
    }
  }

  // ---- What a dependency asks for ----

  /** The words of a status: what is wanted, a flag, what is the case. */
  function Word(s: CString, num: nat): (word: CString)
    decreases num
  {
    if num <= 1 then Upto(s, " \n") else Word(Skip(s[CSpan(s, " ")..], " "), num - 1)
  }

  /** The package of that name has a status, and its word number num is the given one. */
  ghost predicate StatusSays(st: Stats, name: CString, num: nat, word: CString)
  {
    exists a :: 0 <= a < |st| && st[a].Some? && st[a].value.name == name && Word(st[a].value.text, num) == word
  }

  /** Where the search for the name's status ends says what it is. */
  lemma SaysAt(st: Stats, name: CString, a: nat, k: nat, num: nat, word: CString)
    requires StatPlaced(st) && a < |st| && Ends(|st|, name, StatStop(st, name), a, k)
    ensures StatusSays(st, name, num, word) <==> st[a].Some? && Word(st[a].value.text, num) == word
  {
    hide Word;
    if StatusSays(st, name, num, word) {
      var b :| 0 <= b < |st| && st[b].Some? && st[b].value.name == name && Word(st[b].value.text, num) == word;
      StatusFound(st, name, a, k, b);
    }
  }

  /** A package that is installed satisfies a pre-dependency, one that is to be installed
      a dependency. */
  ghost predicate Able(st: Stats, name: CString, kind: Kind)
  {
    match kind
    case PreDepends => StatusSays(st, name, 3, "installed")
    case Depends => StatusSays(st, name, 1, "install")
    case _ => false
  }

  /** The tables with their names: packages, their control fields, and statuses. */
  datatype World = World(packages: Pkgs, relations: seq<seq<Relation>>, status: Stats)

  ghost predicate WorldOk(w: World)
  {
    && |w.relations| == |w.packages|
    && forall p {:trigger w.packages[p]} :: 0 <= p < |w.packages| && w.packages[p].Some? ==> AllOk(w.relations[p])
  }

  /** Package p provides the name in one of its Provides fields. */
  ghost predicate Provider(w: World, p: nat, name: CString)
    requires WorldOk(w)
  {
    p < |w.packages| && w.packages[p].Some? && Offers(w.relations[p], name)
  }

  /** An alternative is satisfied by a package of that name with a version that meets the
      relation, or by a package that provides the name. */
  ghost predicate Satisfiable(w: World, kind: Kind, alt: Alt)
    requires WorldOk(w)
  {
    || (SomeMatch(w.packages, alt) && Able(w.status, alt.name, kind))
    || exists p: nat {:trigger Provider(w, p, alt.name)} :: Provider(w, p, alt.name)
                                                            && Able(w.status, w.packages[p].value.name, kind)
  }

  ghost function Sat(w: World): AltTest
    requires WorldOk(w)
  {
    (kind, alt) => Satisfiable(w, kind, alt)
  }

  /** Package p is not wanted, or its dependencies are satisfied. */
  ghost predicate PackageFine(w: World, p: nat)
    requires WorldOk(w)
  {
    p < |w.packages| && w.packages[p].Some? && StatusSays(w.status, w.packages[p].value.name, 1, "install") ==>
      Satisfied(w.relations[p], Sat(w))
  }

  /** Every package wanted for install has, in every dependency, an alternative that is
      satisfied. */
  ghost predicate DependenciesHold(w: World)
    requires WorldOk(w)
  {
    forall p: nat {:trigger PackageFine(w, p)} :: p < |w.packages| ==> PackageFine(w, p)
  }
}
