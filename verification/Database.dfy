/** The package database of dpkg.c: building it from control fields and checking the
    dependencies of what is to be installed. */
module Database {
  import opened Bits
  import opened CStrings
  import opened DebVersion
  import opened DoubleHash
  import opened DepLines
  import opened Depends
  import opened SplitLines
  import opened Packages

  /** A field of a control file, as far as fill_package_struct knows it. */
  datatype ControlField = PackageIs(value: CString) | VersionIs(value: CString) | Relates(relation: Relation) | Other

  /** The last name, the last version, and all relations among the first k fields. */
  function NameUpto(fields: seq<ControlField>, k: nat): (name: Option<CString>)
    requires k <= |fields|
  {
    if k == 0 then None else if fields[k - 1].PackageIs? then Some(fields[k - 1].value) else NameUpto(fields, k - 1)
  }

  function VersionUpto(fields: seq<ControlField>, k: nat): (version: CString)
    requires k <= |fields|
  {
    if k == 0 then "unknown" else if fields[k - 1].VersionIs? then fields[k - 1].value else VersionUpto(fields, k - 1)
  }

  function RelationsUpto(fields: seq<ControlField>, k: nat): (rs: seq<Relation>)
    requires k <= |fields|
  {
    if k == 0 then [] else RelationsUpto(fields, k - 1) + if fields[k - 1].Relates? then [fields[k - 1].relation]
    else []
  }

  /** The field's names are in w, and its dependencies can be read. */
  ghost predicate FieldOkIn(f: ControlField, w: set<CString>)
  {
    match f
    case PackageIs(value) => value in w
    case VersionIs(value) => value in w
    case Relates(r) => LineOk(r.line) && LineNames(r.kind, r.line, w)
    case Other => true
  }

  ghost predicate FieldsIn(fields: seq<ControlField>, w: set<CString>)
  {
    "unknown" in w && forall k {:trigger fields[k]} :: 0 <= k < |fields| ==> FieldOkIn(fields[k], w)
  }

  /** The number of edges fits its 16 bits. */
  ghost predicate Small(rs: seq<Relation>)
  {
    AllOk(rs) ==> |Flat(AllItems(rs))| < 0x10000
  }

  /** The node holds what the first k fields say. */
  ghost predicate FieldsRead(t: Slots, n: Node, fields: seq<ControlField>, k: nat)
    requires k <= |fields|
  {
    && (NameUpto(fields, k).Some? ==> Known(t, n.name) && t[n.name] == NameUpto(fields, k))
    && Known(t, n.version) && t[n.version] == Some(VersionUpto(fields, k))
    && EdgesKnown(t, n.edges)
    && (AllOk(RelationsUpto(fields, k)) ==> EdgesView(t, n.edges) == Flat(AllItems(RelationsUpto(fields, k))))
  }

  /** Package p with control fields rs is in slot num now: in place of the one of that name
      and an equal version if there was one, else in a free slot.  All else is as it was. */
  ghost predicate Stored(world: World, world': World, num: nat, p: Pkg, rs: seq<Relation>)
  {
    && num < |world.packages| && num < |world.relations|
    && (world.packages[num].Some? ==> Matches(world.packages[num].value, Alt(p.name, Equal, p.version)))
    && (world.packages[num].None? ==> !SomeMatch(world.packages, Alt(p.name, Equal, p.version)))
    && world' == World(world.packages[num := Some(p)], world.relations[num := rs], world.status)
  }

  /** No package of that name has a status. */
  ghost predicate NoStatus(st: Stats, name: CString)
  {
    forall b {:trigger st[b]} :: 0 <= b < |st| && st[b].Some? ==> st[b].value.name != name
  }

  /** The status of package num is in slot a now: in place of the one of its name if there
      was one, else in a free slot.  All else is as it was. */
  ghost predicate StatusPut(world: World, world': World, num: nat, a: nat, text: CString)
  {
    && num < |world.packages| && world.packages[num].Some? && a < |world.status|
    && (world.status[a].Some? ==> world.status[a].value.name == world.packages[num].value.name)
    && (world.status[a].None? ==> NoStatus(world.status, world.packages[num].value.name))
    && world' == world.(status := world.status[a := Some(Stat(world.packages[num].value.name, text))])
  }

  lemma NoneElsewhere(st: Stats, name: CString, a: nat, k: nat)
    requires StatPlaced(st) && a < |st| && Ends(|st|, name, StatStop(st, name), a, k) && st[a].None?
    ensures NoStatus(st, name)
  {
    forall b {:trigger st[b]} | 0 <= b < |st| && st[b].Some? ensures st[b].value.name != name {
      if st[b].value.name == name { StatusFound(st, name, a, k, b); }
    }
  }

  lemma ReadStart(t: Slots, n: Node, fields: seq<ControlField>)
    requires n.edges == [] && Known(t, n.version) && t[n.version] == Some("unknown")
    ensures FieldsRead(t, n, fields, 0) && AllOk(RelationsUpto(fields, 0))
  {
  }

  lemma ReadGrew(t: Slots, t': Slots, n: Node, fields: seq<ControlField>, k: nat)
    requires Grew(t, t') && k <= |fields| && FieldsRead(t, n, fields, k)
    ensures FieldsRead(t', n, fields, k)
  {
    ViewGrew(t, t', n.edges);
    assert t'[n.version] == t[n.version];
    if NameUpto(fields, k).Some? { assert t'[n.name] == t[n.name]; }
  }

  lemma NoRelation(fields: seq<ControlField>, k: nat)
    requires k < |fields| && !fields[k].Relates?
    ensures RelationsUpto(fields, k + 1) == RelationsUpto(fields, k)
  {
  }

  lemma RelationsMore(fields: seq<ControlField>, k: nat, r: Relation)
    requires k < |fields| && fields[k] == Relates(r) && AllOk(RelationsUpto(fields, k))
    ensures RelationsUpto(fields, k + 1) == RelationsUpto(fields, k) + [r]
    ensures AllOk(RelationsUpto(fields, k + 1)) <==> RelationOk(r)
  {
    hide RelationOk;
    var rs := RelationsUpto(fields, k + 1);
    assert rs[|rs| - 1] == r;
  }

  lemma MoreEdges(fields: seq<ControlField>, k: nat, r: Relation)
    requires k < |fields| && fields[k] == Relates(r) && AllOk(RelationsUpto(fields, k + 1)) && RelationOk(r)
    ensures AllOk(RelationsUpto(fields, k))
    ensures Flat(AllItems(RelationsUpto(fields, k + 1))) == Flat(AllItems(RelationsUpto(fields, k))) + Flat(ItemsOf(r))
  {
    hide RelationOk, Flat, ItemsOf;
    var rs, less := RelationsUpto(fields, k + 1), RelationsUpto(fields, k);
    assert rs == less + [r] && rs[..|rs| - 1] == less;
    assert forall i :: 0 <= i < |less| ==> less[i] == rs[i];
    FlatConcat(AllItems(less), ItemsOf(r));
  }

  lemma {:induction false} NotAll(fields: seq<ControlField>, k: nat)
    requires k <= |fields| && !AllOk(RelationsUpto(fields, k))
    ensures !AllOk(RelationsUpto(fields, |fields|))
    decreases |fields| - k
  {
    hide RelationOk;
    if k < |fields| {
      var rs, more := RelationsUpto(fields, k), RelationsUpto(fields, k + 1);
      assert forall i :: 0 <= i < |rs| ==> more[i] == rs[i];
      NotAll(fields, k + 1);
    }
  }

  /** The words check_deps looks up are in w. */
  ghost predicate StatusWords(st: Stats, w: set<CString>)
  {
    && "install" in w && "installed" in w
    && forall a :: 0 <= a < |st| && st[a].Some? ==> Word(st[a].value.text, 1) in w && Word(st[a].value.text, 3) in w
  }

  /** Equal indices are equal names. */
  lemma SameIndex(t: Slots, a: nat, b: nat)
    requires Placed(t) && Known(t, a) && Known(t, b)
    ensures a == b <==> NameAt(t, a) == NameAt(t, b)
  {
    if t[a].value == t[b].value { OneSlot(t, a, b); }
  }

  ghost predicate FreeSlot<T>(s: seq<Option<T>>)
  {
    exists a :: 0 <= a < |s| && s[a].None?
  }

  class Database {
    const names: NameTable
    var packages: Nodes
    var status: StatusNodes
    ghost var relations: seq<seq<Relation>>   // the control fields of each package

    ghost predicate Valid()
      reads this, names
    {
      && names.Valid() && |packages| == PACKAGE_HASH_PRIME && |status| == STATUS_HASH_PRIME
      && NodesOk(names.slots, packages, relations) && StatusesOk(names.slots, packages, status)
      && PkgPlaced(PkgView(names.slots, packages)) && StatPlaced(StatView(names.slots, packages, status))
    }

    ghost function Contents(): (w: World)
      reads this, names
    {
      World(PkgView(names.slots, packages), relations, StatView(names.slots, packages, status))
    }

    constructor ()
      ensures Valid() && fresh(names) && Free(names.slots, |names.slots|) == NAME_HASH_PRIME
      ensures forall p :: 0 <= p < |packages| ==> packages[p].None?
      ensures forall s :: 0 <= s < |status| ==> status[s].None?
    {
      names := new NameTable();
      packages, status := seq(PACKAGE_HASH_PRIME, _ => None), seq(STATUS_HASH_PRIME, _ => None);
      relations := seq(PACKAGE_HASH_PRIME, _ => []);
    }

    /** Names may come in without anything changing. */
    lemma Grown(t: Slots, w: World)
      requires NodesOk(t, packages, relations) && StatusesOk(t, packages, status) && Grew(t, names.slots)
               && names.Valid()
      requires |packages| == PACKAGE_HASH_PRIME && |status| == STATUS_HASH_PRIME
      requires w == World(PkgView(t, packages), relations, StatView(t, packages, status))
      requires PkgPlaced(w.packages) && StatPlaced(w.status)
      ensures Valid() && Contents() == w
    {
      hide PkgView, StatView, NodesOk, StatusesOk, PkgPlaced, StatPlaced, Grew;
      NodesGrew(t, names.slots, packages, relations);
      StatusesGrew(t, names.slots, packages, relations, status);
    }

    /** search_name_hashtable for a name that there is room for. */
    method Intern(key: CString, ghost w: set<CString>) returns (a: nat)
      requires Valid() && Room(names.slots, w) && key in w
      modifies names
      ensures Valid() && Room(names.slots, w) && Grew(old(names.slots), names.slots) && Contents() == old(Contents())
      ensures a < |names.slots| && names.slots[a] == Some(key)
    {
      hide PkgView, StatView, NodesOk, StatusesOk, PkgPlaced, StatPlaced, Grew, Room;
      ghost var t, world := names.slots, Contents();
      a := names.InternIn(key, w);
      Grown(t, world);
    }

    /** search_package_hashtable: the first package on the name's probe sequence that has
        the name and the right version, or a free slot. */
    method SearchPackage(name: nat, version: nat, op: Operator, ghost alt: Alt, ghost goal: nat)
      returns (a: nat, ghost k: nat)
      requires Valid() && Known(names.slots, name) && Known(names.slots, version)
      requires alt == Alt(NameAt(names.slots, name), op, NameAt(names.slots, version))
      requires goal < |packages| && PkgStop(PkgView(names.slots, packages), alt)(goal)
      ensures a < |packages| && Ends(|packages|, alt.name, PkgStop(PkgView(names.slots, packages), alt), a, k)
    {
      hide NodesOk, StatusesOk, PkgPlaced, StatPlaced, StatView, NameAt, Meets, Placed;
      ghost var p, pk := |packages|, PkgView(names.slots, packages);
      PackagePrime();
      var addr, step := MakeHash(NameAt(names.slots, name), PACKAGE_HASH_PRIME);
      ghost var last := EverySlot(p, addr, step, goal);
      k := 0;
      while packages[addr].Some?
        invariant addr == At(alt.name, p, k) && k <= last && GoesPast(p, alt.name, PkgStop(pk, alt), k)
        decreases last - k
      {
        var found := PackageMatches(addr, name, version, op, alt);
        if found {
          return addr, k;
        }
        addr := if addr >= step then addr - step else addr + PACKAGE_HASH_PRIME - step;
        k := k + 1;
      }
      a := addr;
    }

    /** One package on the way: its name is compared by index, its version by test_version. */
    method PackageMatches(a: nat, name: nat, version: nat, op: Operator, ghost alt: Alt) returns (b: bool)
      requires Valid() && Known(names.slots, name) && Known(names.slots, version)
      requires alt == Alt(NameAt(names.slots, name), op, NameAt(names.slots, version))
      requires a < |packages| && packages[a].Some?
      ensures b == Matches(PkgOf(names.slots, packages[a].value), alt)
    {
      hide StatusesOk, PkgPlaced, StatPlaced, StatView, PkgView, NameAt, EdgesKnown, Flat, AllItems, AllOk, EdgesView;
      assert NodeOk(names.slots, packages[a].value, relations[a]);
      SameIndex(names.slots, packages[a].value.name, name);
      if packages[a].value.name != name {
        return false;
      }
      if op.Any? {
        return true;
      }
      b := Test(NameAt(names.slots, packages[a].value.version), NameAt(names.slots, version), op);
    }

    /** search_status_hashtable. */
    method SearchStatus(key: CString, ghost goal: nat) returns (a: nat, ghost k: nat)
      requires Valid() && goal < |status| && StatStop(StatView(names.slots, packages, status), key)(goal)
      ensures a < |status| && Ends(|status|, key, StatStop(StatView(names.slots, packages, status), key), a, k)
    {
      hide NodesOk, PkgPlaced, StatPlaced, PkgView, NameAt;
      ghost var p, st := |status|, StatView(names.slots, packages, status);
      StatusPrime();
      var addr, step := MakeHash(key, STATUS_HASH_PRIME);
      ghost var last := EverySlot(p, addr, step, goal);
      k := 0;
      while status[addr].Some?
        invariant addr == At(key, p, k) && k <= last && GoesPast(p, key, StatStop(st, key), k)
        decreases last - k
      {
        assert StatusOk(names.slots, packages, status[addr].value);
        if key == NameAt(names.slots, packages[status[addr].value.package].value.name) {
          break;
        }
        addr := if addr >= step then addr - step else addr + STATUS_HASH_PRIME - step;
        k := k + 1;
      }
      a := addr;
    }

    // ---- check_deps ----

    /** There is room for the words of statuses, and searches end. */
    ghost predicate Ready(w: set<CString>)
      reads this, names
    {
      && Valid() && Room(names.slots, w) && StatusWords(StatView(names.slots, packages, status), w)
      && FreeSlot(packages) && FreeSlot(status)
    }

    /** get_status: the index of word number num of the status. */
    method GetStatus(a: nat, num: nat, ghost w: set<CString>) returns (idx: nat)
      requires Ready(w) && a < |status| && status[a].Some? && (num == 1 || num == 3)
      modifies names
      ensures Ready(w) && Contents() == old(Contents()) && Grew(old(names.slots), names.slots)
      ensures idx < |names.slots| && names.slots[idx] == Some(Word(old(Contents()).status[a].value.text, num))
    {
      hide Word, PkgView, NodesOk, StatusesOk, PkgPlaced, StatPlaced, Grew, Room, FreeSlot, NameAt;
      var word := FindWord(NameAt(names.slots, status[a].value.status), num);
      idx := Intern(word, w);
    }

    /** Comparing indices compares words. */
    method StatusIs(a: nat, num: nat, word: CString, ghost w: set<CString>) returns (b: bool)
      requires Ready(w) && a < |status| && status[a].Some? && (num == 1 || num == 3) && word in w
      modifies names
      ensures Ready(w) && Contents() == old(Contents()) && Grew(old(names.slots), names.slots)
      ensures b <==> Word(old(Contents()).status[a].value.text, num) == word
    {
      hide Word, PkgView, StatView, NodesOk, StatusesOk, PkgPlaced, StatPlaced, StatusWords, Room, FreeSlot;
      ghost var t0 := names.slots;
      var x := GetStatus(a, num, w);
      ghost var t1 := names.slots;
      var y := Intern(word, w);
      GrewTwice(t0, t1, names.slots);
      SameIndex(names.slots, x, y);
      b := x == y;
    }

    /** The world of a valid database has readable control fields. */
    lemma WorldFine()
      requires Valid()
      ensures WorldOk(Contents()) && PkgPlaced(Contents().packages) && StatPlaced(Contents().status)
    {
      hide PkgPlaced, StatPlaced, PkgOf, StatView, EdgesView, EdgesKnown, Flat;
      forall p | 0 <= p < |packages| && packages[p].Some? ensures AllOk(relations[p]) {
        assert NodeOk(names.slots, packages[p].value, relations[p]);
      }
    }

    /** The status of a package, if it has one. */
    method StatusSlot(p: nat) returns (a: nat, ghost k: nat)
      requires Valid() && FreeSlot(status) && p < |packages| && packages[p].Some?
      ensures a < |status| && (Contents().status[a].Some? <==> status[a].Some?)
      ensures Ends(|status|, Contents().packages[p].value.name,
                   StatStop(Contents().status, Contents().packages[p].value.name), a, k)
    {
      hide PkgPlaced, StatPlaced, NodesOk, StatusesOk;
      ghost var goal :| 0 <= goal < |status| && status[goal].None?;
      a, k := SearchStatus(NameAt(names.slots, packages[p].value.name), goal);
    }

    /** The status of a package says the word. */
    method PackageSays(p: nat, num: nat, word: CString, ghost w: set<CString>) returns (b: bool)
      requires Ready(w) && p < |packages| && packages[p].Some? && (num == 1 || num == 3) && word in w
      modifies names
      ensures Ready(w) && Contents() == old(Contents()) && Grew(old(names.slots), names.slots)
      ensures b <==> StatusSays(old(Contents()).status, old(Contents()).packages[p].value.name, num, word)
    {
      hide PkgView, StatView, PkgPlaced, StatPlaced, NodesOk, StatusesOk, Room, FreeSlot, StatusWords, Grew, Word,
           StatusSays, names.Valid;
      ghost var world := Contents();
      GrewSame(names.slots);
      ViewSizes(names.slots, packages, status);
      var a;
      ghost var k;
      a, k := StatusSlot(p);
      SaysAt(world.status, world.packages[p].value.name, a, k, num, word);
      if status[a].None? {
        return false;
      }
      b := StatusIs(a, num, word, w);
    }

    /** package_satisfies_dependency. */
    method PackageSatisfies(p: nat, kind: Kind, ghost w: set<CString>) returns (b: bool)
      requires Ready(w) && p < |packages| && packages[p].Some?
      modifies names
      ensures Ready(w) && Contents() == old(Contents()) && Grew(old(names.slots), names.slots)
      ensures b <==> Able(old(Contents()).status, old(Contents()).packages[p].value.name, kind)
    {
      hide PkgView, StatView, PkgPlaced, StatPlaced, NodesOk, StatusesOk, Room, FreeSlot, Grew, Word, StatusSays,
           names.Valid;
      GrewSame(names.slots);
      match kind
      case PreDepends => b := PackageSays(p, 3, "installed", w);
      case Depends => b := PackageSays(p, 1, "install", w);
      case _ => b := false;
    }

    /** Whether a package provides a name: its edges are looked through. */
    method ProvidesName(p: nat, needle: nat) returns (b: bool)
      requires Valid() && Known(names.slots, needle) && p < |packages| && packages[p].Some?
      ensures WorldOk(Contents()) && (b <==> Provider(Contents(), p, NameAt(names.slots, needle)))
    {
      hide PkgPlaced, StatPlaced, StatusesOk, StatView, NameAt, Offers, Flat, AllItems, AllOk;
      WorldFine();
      ghost var t, name, es := names.slots, NameAt(names.slots, needle), packages[p].value.edges;
      assert NodeOk(t, packages[p].value, relations[p]);
      EdgesOffer(relations[p], EdgesView(t, es), name);
      b := LooksThrough(packages[p].value.edges, needle);
    }

    method LooksThrough(edges: seq<IdEdge>, needle: nat) returns (b: bool)
      requires names.Valid() && Known(names.slots, needle) && EdgesKnown(names.slots, edges)
      ensures b <==> ProvidesEdge(EdgesView(names.slots, edges), NameAt(names.slots, needle))
    {
      hide NameAt, Placed;
      ghost var t, name, view := names.slots, NameAt(names.slots, needle), EdgesView(names.slots, edges);
      var j := 0;
      while j < |edges|
        invariant 0 <= j <= |edges| && forall i :: 0 <= i < j ==> !Provided(view[i], name)
      {
        SameName(t, edges, j, needle);
        if edges[j].typ == Plain(Provides) && edges[j].name == needle {
          assert Provided(view[j], name);
          return true;
        }
        j := j + 1;
      }
      b := false;
    }

    /** search_for_provides: the next package after start that provides the name. */
    method NextProvider(needle: nat, start: int, ghost world: World, ghost name: CString) returns (p: int)
      requires Valid() && Known(names.slots, needle) && -1 <= start
      requires world == Contents() && WorldOk(world) && name == NameAt(names.slots, needle)
      ensures p == -1 || (start < p < |packages| && Provider(world, p, name))
      ensures forall i: nat {:trigger Provider(world, i, name)} ::
        start < i < (if p == -1 then |packages| else p) ==> !Provider(world, i, name)
    {
      hide PkgPlaced, StatPlaced, StatusesOk, StatView, NameAt, Offers, NodesOk, AllOk;
      var i := start + 1;
      while i < |packages|
        invariant start < i
        invariant forall k: nat {:trigger Provider(world, k, name)} ::
          start < k < i && k < |packages| ==> !Provider(world, k, name)
      {
        if packages[i].Some? {
          var b := ProvidesName(i, needle);
          if b {
            return i;
          }
        }
        i := i + 1;
      }
      p := -1;
    }

    /** Some package that provides the name can satisfy the dependency. */
    method ProvidersSatisfy(needle: nat, kind: Kind, ghost world: World, ghost name: CString, ghost w: set<CString>)
      returns (b: bool)
      requires Ready(w) && Known(names.slots, needle) && world == Contents() && WorldOk(world)
               && name == NameAt(names.slots, needle)
      modifies names
      ensures Ready(w) && Contents() == world && Grew(old(names.slots), names.slots)
      ensures b <==> exists p: nat {:trigger Provider(world, p, name)} :: Provider(world, p, name)
                                                                          && Able(world.status,
                                                                                  world.packages[p].value.name, kind)
    {
      hide PkgView, StatView, PkgPlaced, StatPlaced, NodesOk, StatusesOk, Room, FreeSlot, StatusWords, Able, AllOk,
           Offers, names.Valid;
      ViewSizes(names.slots, packages, status);
      var p := NextProvider(needle, -1, world, name);
      while p > -1
        invariant Ready(w) && Contents() == world && Grew(old(names.slots), names.slots)
        invariant Known(names.slots, needle) && NameAt(names.slots, needle) == name
        invariant -1 <= p < |packages| && (p >= 0 ==> Provider(world, p, name))
        invariant forall i: nat {:trigger Provider(world, i, name)} ::
          i < (if p == -1 then |packages| else p) ==> !(Provider(world, i, name)
                                                        && Able(world.status, world.packages[i].value.name, kind))
        decreases if p == -1 then 0 else |packages| - p
      {
        ghost var t := names.slots;
        b := PackageSatisfies(p, kind, w);
        GrewTwice(old(names.slots), t, names.slots);
        assert names.slots[needle] == t[needle];
        if b {
          return;
        }
        p := NextProvider(needle, p, world, name);
      }
      b := false;
    }

    /** Whether an edge's alternative is satisfied: by the package of that name if its
        version is right, else by one that provides the name. */
    method SatisfyEdge(p: nat, e: IdEdge, kind: Kind, ghost alt: Alt, ghost world: World, ghost w: set<CString>)
      returns (b: bool)
      requires Ready(w) && EdgeKnown(names.slots, e) && e.typ == Plain(kind)
               && EdgeView(names.slots, e) == Rel(kind, alt)
      requires world == Contents() && WorldOk(world)
      requires p < |packages| && (packages[p].Some? <==> SomeMatch(world.packages, alt))
      requires packages[p].Some? ==> world.packages[p].value.name == alt.name
      modifies names
      ensures Ready(w) && Contents() == world && Grew(old(names.slots), names.slots)
      ensures b <==> Satisfiable(world, kind, alt)
    {
      hide PkgView, StatView, PkgPlaced, StatPlaced, NodesOk, StatusesOk, Room, StatusWords, Able, AllOk, Offers,
           names.Valid, Matches;
      ViewSizes(names.slots, packages, status);
      ghost var t0 := names.slots;
      GrewSame(t0);
      b := false;
      if packages[p].Some? {
        b := PackageSatisfies(p, kind, w);
      }
      ghost var t1 := names.slots;
      GrewKeeps(t0, t1, e);
      if !b {
        b := ProvidersSatisfy(e.name, kind, world, alt.name, w);
        GrewTwice(t0, t1, names.slots);
      }
    }

    /** The package an edge asks for. */
    method FindPackage(e: IdEdge, ghost alt: Alt) returns (p: nat)
      requires Valid() && FreeSlot(packages) && EdgeKnown(names.slots, e) && e.typ.Plain?
               && EdgeView(names.slots, e) == Rel(e.typ.kind, alt)
      ensures p < |packages| && (packages[p].Some? <==> SomeMatch(Contents().packages, alt))
      ensures packages[p].Some? ==> Contents().packages[p].value.name == alt.name
    {
      hide PkgPlaced, StatPlaced, NodesOk, StatusesOk, StatView, names.Valid, NameAt, Meets;
      WorldFine();
      ghost var goal :| 0 <= goal < |packages| && packages[goal].None?;
      ghost var k;
      p, k := SearchPackage(e.name, e.version, e.op, alt, goal);
      SearchFinds(Contents().packages, alt, p, k);
    }

    /** The dependency loop of check_deps for one package. */
    method CheckNode(es: seq<IdEdge>, ghost view: seq<Edge>, ghost world: World, ghost w: set<CString>)
      returns (v: Verdict)
      requires Ready(w) && EdgesKnown(names.slots, es) && view == EdgesView(names.slots, es) && world == Contents()
               && WorldOk(world)
      modifies names
      ensures Ready(w) && Contents() == world && Grew(old(names.slots), names.slots)
      ensures v == Walk(view, 0, 0, None, Sat(world))
    {
      hide Ready, WorldOk, Grew, Satisfiable, EdgesKnown, SomeMatch, NameAt, Walk, Contents;
      GrewSame(names.slots);
      ghost var sat := Sat(world);
      var j: nat, n: nat, root: Option<bool> := 0, 0, None;
      while j < |es|
        invariant Ready(w) && Contents() == world && Grew(old(names.slots), names.slots)
        invariant EdgesKnown(names.slots, es) && view == EdgesView(names.slots, es)
        invariant Walk(view, j, n, root, sat) == Walk(view, 0, 0, None, sat)
        decreases |es| - j
      {
        var e := es[j];
        WalkStep(view, j, n, root, sat);
        EdgeSeen(names.slots, es, j);
        if e.typ.OrOf? {
          n, root := e.version, Some(e.typ.pre);
        } else {
          if n == 0 {
            n, root := 1, None;
          }
          ghost var t := names.slots;
          ghost var alt := view[j].alt;
          ReadyFacts(w);
          var p := FindPackage(e, alt);
          if IsDepends(e.typ.kind) {
            if root.Some? && root.value != e.typ.kind.PreDepends? {
              return Corrupt;
            }
            var result := SatisfyEdge(p, e, e.typ.kind, alt, world, w);
            GrewTwice(old(names.slots), t, names.slots);
            ViewGrew(t, names.slots, es);
            n := n - 1;
            if !result && n == 0 {
              return Fail;
            }
            if result && n != 0 {
              j := j + n;
              n := 0;
            }
          }
        }
        j := j + 1;
      }
      WalkEnd(view, j, n, root, sat);
      v := Pass;
    }

    lemma ReadyFacts(w: set<CString>)
      requires Ready(w)
      ensures Valid() && FreeSlot(packages)
    {
    }

    /** The last part of check_deps: the dependencies of all packages wanted for install
        are checked.  It passes exactly when they hold, and no edge list is corrupt. */
    method CheckDeps(ghost w: set<CString>) returns (v: Verdict)
      requires Ready(w)
      modifies names
      ensures Valid() && Contents() == old(Contents()) && WorldOk(Contents())
      ensures v != Corrupt && (v == Pass <==> DependenciesHold(Contents()))
    {
      hide PackageFine, PkgView, StatView, PkgPlaced, StatPlaced, NodesOk, StatusesOk, Room, FreeSlot, StatusWords,
           names.Valid, AllOk;
      WorldFine();
      ghost var world := Contents();
      ViewSizes(names.slots, packages, status);
      var i := 0;
      while i < PACKAGE_HASH_PRIME
        invariant 0 <= i <= PACKAGE_HASH_PRIME && Ready(w) && Contents() == world
        invariant forall p: nat {:trigger PackageFine(world, p)} :: p < i ==> PackageFine(world, p)
      {
        v := CheckPackage(i, world, w);
        if v != Pass {
          return;
        }
        i := i + 1;
      }
      v := Pass;
    }

    method CheckPackage(p: nat, ghost world: World, ghost w: set<CString>) returns (v: Verdict)
      requires Ready(w) && p < |packages| && world == Contents() && WorldOk(world)
      modifies names
      ensures Ready(w) && Contents() == world
      ensures v != Corrupt && (v == Pass <==> PackageFine(world, p))
    {
      hide StatView, PkgPlaced, StatPlaced, StatusesOk, Room, FreeSlot, names.Valid, StatusSays, Satisfied, Sat,
           EdgesKnown, EdgesView, Flat, AllItems, AllOk, PkgOf;
      if packages[p].None? {
        return Pass;
      }
      var wanted := PackageSays(p, 1, "install", w);
      if !wanted {
        return Pass;
      }
      assert NodeOk(names.slots, packages[p].value, relations[p]);
      ghost var view := EdgesView(names.slots, packages[p].value.edges);
      ViewSize(names.slots, packages[p].value.edges);
      WalkPackage(relations[p], view, Sat(world));
      v := CheckNode(packages[p].value.edges, view, world, w);
    }

    // ---- fill_package_struct and index_status_file ----

    /** Read the fields of a control file. */
    method ReadFields(fields: seq<ControlField>, ghost w: set<CString>) returns (ok: bool, n: Node)
      requires names.Valid() && Room(names.slots, w) && FieldsIn(fields, w)
      modifies names
      ensures names.Valid() && Room(names.slots, w) && Grew(old(names.slots), names.slots)
      ensures ok <==> AllOk(RelationsUpto(fields, |fields|))
      ensures ok ==> FieldsRead(names.slots, n, fields, |fields|)
    {
      hide Room, Grew, FieldsRead, FieldOkIn, AllOk, RelationsUpto, names.Valid;
      ghost var t := names.slots;
      var unknown := names.InternIn("unknown", w);
      n := Node(0, unknown, []);
      ok := true;
      var k := 0;
      ReadStart(names.slots, n, fields);
      while k < |fields|
        invariant names.Valid() && Room(names.slots, w) && Grew(old(names.slots), names.slots)
        invariant 0 <= k <= |fields| && ok && AllOk(RelationsUpto(fields, k)) && FieldsRead(names.slots, n, fields, k)
      {
        ghost var t1 := names.slots;
        assert FieldOkIn(fields[k], w);
        ok, n := ReadField(fields, k, n, w);
        GrewTwice(t, t1, names.slots);
        if !ok {
          NotAll(fields, k + 1);
          return;
        }
        k := k + 1;
      }
    }

    method ReadField(fields: seq<ControlField>, k: nat, n: Node, ghost w: set<CString>) returns (ok: bool, n': Node)
      requires names.Valid() && Room(names.slots, w) && k < |fields| && FieldOkIn(fields[k], w)
      requires FieldsRead(names.slots, n, fields, k) && AllOk(RelationsUpto(fields, k))
      modifies names
      ensures names.Valid() && Room(names.slots, w) && Grew(old(names.slots), names.slots)
      ensures ok <==> AllOk(RelationsUpto(fields, k + 1))
      ensures ok ==> FieldsRead(names.slots, n', fields, k + 1)
    {
      hide Room, Grew, EdgesKnown, EdgesView, names.Valid, LineOk, LineNames, Legal, Flat, ItemsOf;
      ghost var t := names.slots;
      GrewSame(t);
      ok, n' := true, n;
      match fields[k]
      case PackageIs(value) =>
        var name := names.InternIn(value, w);
        n' := n.(name := name);
        NoRelation(fields, k);
        ReadGrew(t, names.slots, n, fields, k);
      case VersionIs(value) =>
        var version := names.InternIn(value, w);
        n' := n.(version := version);
        NoRelation(fields, k);
        ReadGrew(t, names.slots, n, fields, k);
      case Relates(r) =>
        var edges;
        ok, edges := AddSplit(names, n.edges, r, w);
        n' := n.(edges := edges);
        RelationsMore(fields, k, r);
        ReadGrew(t, names.slots, n, fields, k);
        if ok { MoreEdges(fields, k, r); }
      case Other =>
        NoRelation(fields, k);
    }

    /** fill_package_struct: the package a control file describes is put in the table, in
        place of one with the same name and an equal version.  Without a version there is
        no package, and an operator that does not exist ends the program. */
    method FillPackage(fields: seq<ControlField>, ghost w: set<CString>) returns (ok: bool, num: int)
      requires Valid() && Room(names.slots, w) && FieldsIn(fields, w) && FreeSlot(packages)
      requires NameUpto(fields, |fields|).Some? && Small(RelationsUpto(fields, |fields|))
      modifies this, names
      ensures Valid() && Room(names.slots, w) && status == old(status)
      ensures ok <==> AllOk(RelationsUpto(fields, |fields|))
      ensures !ok || num == -1 ==> Contents() == old(Contents())
      ensures ok ==> (num == -1 <==> VersionUpto(fields, |fields|) == "unknown")
      ensures ok && num != -1 ==> 0 <= num < |packages|
      ensures ok && num != -1 ==> Stored(old(Contents()), Contents(), num,
                                         Pkg(NameUpto(fields, |fields|).value,
                                             VersionUpto(fields, |fields|)), RelationsUpto(fields, |fields|))
    {
      hide PkgView, StatView, PkgPlaced, StatPlaced, NodesOk, StatusesOk, Room, Grew, FieldsRead, AllOk, FieldsIn,
           RelationsUpto, NameUpto, VersionUpto, Small, FreeSlot, Stored, NodeOk, Placed;
      ghost var t0, world := names.slots, Contents();
      ghost var rs := RelationsUpto(fields, |fields|);
      num := -1;
      var n;
      ok, n := ReadFields(fields, w);
      Grown(t0, world);
      if !ok {
        return;
      }
      ghost var t := names.slots;
      var unknown := InternUnknown(fields, w);
      ghost var t1 := names.slots;
      ReadGrew(t, t1, n, fields, |fields|);
      NodeRead(t1, n, fields);
      UnknownVersion(t1, n, unknown, fields);
      if n.version == unknown {
        return;
      }
      num := StoreNode(n, rs, world);
    }

    method InternUnknown(ghost fields: seq<ControlField>, ghost w: set<CString>) returns (a: nat)
      requires Valid() && Room(names.slots, w) && FieldsIn(fields, w)
      modifies names
      ensures Valid() && Room(names.slots, w) && Contents() == old(Contents()) && Grew(old(names.slots), names.slots)
      ensures a < |names.slots| && names.slots[a] == Some("unknown")
    {
      hide PkgView, StatView, PkgPlaced, StatPlaced, NodesOk, StatusesOk, Room, Grew, names.Valid, FieldOkIn;
      a := Intern("unknown", w);
    }

    /** Put the node where the search for its name and version ends. */
    method StoreNode(n: Node, ghost rs: seq<Relation>, ghost world: World) returns (num: nat)
      requires Valid() && Contents() == world && NodeOk(names.slots, n, rs) && FreeSlot(packages)
      modifies this`packages, this`relations
      ensures Valid() && num < |packages|
      ensures Stored(world, Contents(), num, PkgOf(names.slots, n), rs)
    {
      hide PkgPlaced, StatPlaced, StatusesOk, NodeOk, names.Valid, StatView, PkgView, NameAt, Matches, SomeMatch;
      NodeFacts(names.slots, n, rs);
      ViewSizes(names.slots, packages, status);
      ghost var goal :| 0 <= goal < |packages| && packages[goal].None?;
      ghost var k;
      ghost var p := PkgOf(names.slots, n);
      ghost var alt := Alt(p.name, Equal, p.version);
      num, k := SearchPackage(n.name, n.version, Equal, alt, goal);
      SearchFinds(world.packages, alt, num, k);
      PutPackage(world.packages, alt, num, k, p, world.packages[num := Some(p)]);
      PutNode(names.slots, packages, relations, status, num, n, rs, packages[num := Some(n)]);
      packages := packages[num := Some(n)];
      relations := relations[num := rs];
    }

    /** index_status_file: the status of a package just filled in. */
    method AddStatus(num: nat, text: CString, ghost w: set<CString>) returns (a: nat)
      requires Valid() && Room(names.slots, w) && text in w && FreeSlot(status) && num < |packages|
               && packages[num].Some?
      modifies this`status, names
      ensures Valid() && Room(names.slots, w) && StatusPut(old(Contents()), Contents(), num, a, text)
    {
      hide PkgPlaced, StatPlaced, NodesOk, StatusesOk, names.Valid, PkgView, StatView, NameAt, FreeSlot, Grew, Room,
           StatusPut;
      ghost var world := Contents();
      ViewSizes(names.slots, packages, status);
      var s := Intern(text, w);
      a := PutStatusNode(num, s, text, world);
    }

    method PutStatusNode(num: nat, s: nat, ghost text: CString, ghost world: World) returns (a: nat)
      requires Valid() && FreeSlot(status) && num < |packages| && packages[num].Some? && world == Contents()
      requires s < |names.slots| && names.slots[s] == Some(text)
      modifies this`status
      ensures Valid() && StatusPut(world, Contents(), num, a, text)
    {
      hide PkgPlaced, StatPlaced, NodesOk, names.Valid, NoStatus;
      ghost var k;
      a, k := StatusSlot(num);
      ghost var name := world.packages[num].value.name;
      if status[a].None? { NoneElsewhere(world.status, name, a, k); }
      PutStatus(world.status, name, a, k, Stat(name, text), world.status[a := Some(Stat(name, text))]);
      status := status[a := Some(StatusNode(num, s))];
      assert StatView(names.slots, packages, status) == world.status[a := Some(Stat(name, text))];
    }
  }

  lemma NodeFacts(t: Slots, n: Node, rs: seq<Relation>)
    requires NodeOk(t, n, rs)
    ensures Known(t, n.name) && Known(t, n.version)
  {
  }

  lemma NodeRead(t: Slots, n: Node, fields: seq<ControlField>)
    requires FieldsRead(t, n, fields, |fields|) && NameUpto(fields, |fields|).Some?
    requires AllOk(RelationsUpto(fields, |fields|)) && Small(RelationsUpto(fields, |fields|))
    ensures NodeOk(t, n, RelationsUpto(fields, |fields|))
    ensures PkgOf(t, n) == Pkg(NameUpto(fields, |fields|).value, VersionUpto(fields, |fields|))
  {
    hide EdgesKnown, Flat, AllItems, AllOk, EdgesView, NameUpto, VersionUpto, RelationsUpto;
    ViewSize(t, n.edges);
  }

  lemma UnknownVersion(t: Slots, n: Node, unknown: nat, fields: seq<ControlField>)
    requires Placed(t) && FieldsRead(t, n, fields, |fields|) && unknown < |t| && t[unknown] == Some("unknown")
    ensures n.version == unknown <==> VersionUpto(fields, |fields|) == "unknown"
  {
    hide EdgesKnown, Flat, AllItems, AllOk, EdgesView, NameUpto, VersionUpto, RelationsUpto, Placed;
    SameIndex(t, n.version, unknown);
  }

  /** Putting a node in a free slot, or in place of one of the same name, keeps the other
      packages and all statuses. */
  lemma PutNode(t: Slots, ns: Nodes, rels: seq<seq<Relation>>, ss: StatusNodes, num: nat, n: Node, rs: seq<Relation>,
                ns': Nodes)
    requires NodesOk(t, ns, rels) && StatusesOk(t, ns, ss) && num < |ns| && ns' == ns[num := Some(n)]
             && NodeOk(t, n, rs)
    requires ns[num].Some? ==> NameAt(t, ns[num].value.name) == NameAt(t, n.name)
    ensures NodesOk(t, ns', rels[num := rs]) && StatusesOk(t, ns', ss)
    ensures PkgView(t, ns') == PkgView(t, ns)[num := Some(PkgOf(t, n))] && StatView(t, ns', ss) == StatView(t, ns, ss)
  {
    hide NodeOk, NameAt;
    forall a | 0 <= a < |ss| && ss[a].Some? ensures StatusOk(t, ns', ss[a].value)
    && StatOf(t, ns', ss[a].value) == StatOf(t, ns, ss[a].value) {
      assert StatusOk(t, ns, ss[a].value);
    }
  }

  /** One step of the walk. */
  lemma WalkStep(es: seq<Edge>, j: nat, n: nat, root: Option<bool>, sat: AltTest)
    requires j < |es|
    ensures Walk(es, j, n, root, sat) ==
      match es[j]
      case Or(pre, _, count) => Walk(es, j + 1, count, Some(pre), sat)
      case Rel(kind, alt) =>
        var n1, root1 := if n == 0 then 1 else n, if n == 0 then None else root;
        if !IsDepends(kind) then Walk(es, j + 1, n1, root1, sat)
        else if root1.Some? && root1.value != kind.PreDepends? then Corrupt
        else if sat(kind, alt) then Walk(es, j + 1 + (n1 - 1), 0, root1, sat)
        else if n1 == 1 then Fail
        else Walk(es, j + 1, n1 - 1, root1, sat)
  {
  }

  lemma EdgeSeen(t: Slots, es: seq<IdEdge>, j: nat)
    requires EdgesKnown(t, es) && j < |es|
    ensures EdgeKnown(t, es[j]) && EdgesView(t, es)[j] == EdgeView(t, es[j])
    ensures es[j].typ.OrOf? <==> EdgesView(t, es)[j].Or?
  {
  }

  lemma GrewKeeps(t: Slots, t': Slots, e: IdEdge)
    requires Grew(t, t') && EdgeKnown(t, e)
    ensures EdgeKnown(t', e) && EdgeView(t', e) == EdgeView(t, e)
  {
    assert t'[e.name] == t[e.name];
    if e.typ.Plain? { assert t'[e.version] == t[e.version]; }
  }

  lemma ViewSizes(t: Slots, ns: Nodes, ss: StatusNodes)
    ensures |PkgView(t, ns)| == |ns| && |StatView(t, ns, ss)| == |ss|
    ensures forall a :: 0 <= a < |ns| ==> (PkgView(t, ns)[a].Some? <==> ns[a].Some?)
    ensures forall a :: 0 <= a < |ns| && ns[a].Some? ==> PkgView(t, ns)[a].value == PkgOf(t, ns[a].value)
  {
  }

  lemma SameName(t: Slots, edges: seq<IdEdge>, j: nat, needle: nat)
    requires Placed(t) && j < |edges| && EdgesKnown(t, edges) && Known(t, needle)
    ensures edges[j].name == needle <==> NameAt(t, edges[j].name) == NameAt(t, needle)
  {
    assert EdgeKnown(t, edges[j]);
    SameIndex(t, edges[j].name, needle);
  }

  /** Skip num - 1 words and the blanks behind them. */
  method FindWord(text: CString, num: nat) returns (word: CString)
    requires num >= 1
    ensures word == Word(text, num)
  {
    hide Word;
    var s, i := text, 1;
    while i < num
      invariant 1 <= i <= num && Word(s, num - i + 1) == Word(text, num)
    {
      WordStep(s, num - i + 1);
      s := s[CSpan(s, " ")..];
      s := Skip(s, " ");
      i := i + 1;
    }
    WordEnd(s);
    word := Upto(s, " \n");
  }

  lemma WordStep(s: CString, num: nat)
    requires num > 1
    ensures Word(Skip(s[CSpan(s, " ")..], " "), num - 1) == Word(s, num)
  {
  }

  lemma WordEnd(s: CString)
    ensures Word(s, 1) == Upto(s, " \n")
  {
  }
}
