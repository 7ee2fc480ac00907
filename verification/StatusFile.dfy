/** A status file from its paragraphs to the answer of check_deps. */
module StatusFile {
  import opened CStrings
  import opened DoubleHash
  import opened Depends
  import opened Packages
  import opened Database
  import opened Paragraphs

  /** The paragraph has a name, can be read, and all its names and words are in w. */
  ghost predicate ParagraphOk(p: Paragraph, w: set<CString>)
  {
    && FieldsIn(p.fields, w) && NameOf(p).Some? && Small(RelationsOf(p))
    && p.status in w && Word(p.status, 1) in w && Word(p.status, 3) in w
  }

  ghost function FileNames(ps: seq<Paragraph>): (names: set<CString>)
  {
    set i | 0 <= i < |ps| && Counts(ps[i]) :: NameOf(ps[i]).value
  }

  ghost function FilePkgs(ps: seq<Paragraph>): (pkgs: set<Pkg>)
  {
    set i | 0 <= i < |ps| && Counts(ps[i]) :: PkgIn(ps[i])
  }

  /** The paragraphs can be read, and the tables have room: for the names, words and
      versions in w, and for all packages and their statuses with a slot to spare. */
  ghost predicate FileOk(ps: seq<Paragraph>, w: set<CString>)
  {
    && "install" in w && "installed" in w && |w| <= NAME_HASH_PRIME
    && (forall i {:trigger ps[i]} :: 0 <= i < |ps| ==> ParagraphOk(ps[i], w))
    && |FileNames(ps)| < STATUS_HASH_PRIME && |FilePkgs(ps)| < PACKAGE_HASH_PRIME
  }

  // ---- Room in the tables ----

  /** Different members of a set are no more than the set has. */
  lemma {:induction false} NoMore<T>(s: seq<T>, all: set<T>)
    requires (forall i :: 0 <= i < |s| ==> s[i] in all) && forall i, j :: 0 <= i < j < |s| ==> s[i] != s[j]
    ensures |s| <= |all|
    decreases |s|
  {
    if s != [] { NoMore(s[1..], all - {s[0]}); }
  }

  lemma StatusFree(ps: seq<Paragraph>, st: Stats, names: set<CString>)
    requires StatusesHeld(ps, st) && FileNames(ps) <= names && |names| < |st|
    ensures FreeSlot(st)
  {
    hide NameOf, VersionOf;
    if forall a :: 0 <= a < |st| ==> st[a].Some? {
      var all := seq(|st|, a requires 0 <= a < |st| && st[a].Some? => st[a].value.name);
      forall a | 0 <= a < |all| ensures all[a] in names {
        assert st[a].Some?;
        var i: nat :| HoldsStatus(ps, st, a, i);
        assert NameOf(ps[i]).value in FileNames(ps);
      }
      NoMore(all, names);
    }
  }

  lemma PackageFree(ps: seq<Paragraph>, pk: Pkgs, rels: seq<seq<Relation>>, pkgs: set<Pkg>)
    requires PackagesHeld(ps, pk, rels) && FilePkgs(ps) <= pkgs && |pkgs| < |pk|
    ensures FreeSlot(pk)
  {
    hide NameOf, VersionOf, SamePkg, RelationsOf;
    if forall p :: 0 <= p < |pk| ==> pk[p].Some? {
      var all := seq(|pk|, p requires 0 <= p < |pk| && pk[p].Some? => pk[p].value);
      forall p | 0 <= p < |all| ensures all[p] in pkgs {
        assert pk[p].Some?;
        var i: nat :| Holds1(ps, pk, rels, p, i);
        assert PkgIn(ps[i]) in FilePkgs(ps);
      }
      forall p, q | 0 <= p < q < |all| ensures all[p] != all[q] {
        assert pk[p].Some? && pk[q].Some?;
        SameSelf(pk[p].value);
      }
      NoMore(all, pkgs);
    }
  }

  lemma SameSelf(p: Pkg)
    ensures SamePkg(p, p)
  {
    var v := DebVersion.Split(p.version);
    DebVersion.OrderSymmetric(v, v);
  }

  /** Reading a part of the file leaves a free slot in both tables. */
  lemma StillFree(ps: seq<Paragraph>, k: nat, w: World, names: set<CString>, pkgs: set<Pkg>)
    requires k <= |ps| && Describes(ps[..k], w) && names == FileNames(ps) && pkgs == FilePkgs(ps)
    requires |names| < |w.status| && |pkgs| < |w.packages|
    ensures FreeSlot(w.packages) && FreeSlot(w.status)
  {
    hide StatusesHeld, PackagesHeld, Counts, NameOf, PkgIn, FreeSlot;
    var part := ps[..k];
    assert forall i :: 0 <= i < k ==> part[i] == ps[i];
    assert FileNames(part) <= names && FilePkgs(part) <= pkgs;
    StatusFree(part, w.status, names);
    PackageFree(part, w.packages, w.relations, pkgs);
  }

  lemma ViewFree(t: Slots, ns: Nodes, ss: StatusNodes)
    requires FreeSlot(PkgView(t, ns)) && FreeSlot(StatView(t, ns, ss))
    ensures FreeSlot(ns) && FreeSlot(ss)
  {
    var a :| 0 <= a < |ns| && PkgView(t, ns)[a].None?;
    var b :| 0 <= b < |ss| && StatView(t, ns, ss)[b].None?;
    assert ns[a].None? && ss[b].None?;
  }

  lemma RoomLeft(db: Database, ps: seq<Paragraph>, k: nat, w: set<CString>)
    requires db.Valid() && FileOk(ps, w) && k <= |ps| && Describes(ps[..k], db.Contents())
    ensures FreeSlot(db.packages) && FreeSlot(db.status)
  {
    hide ParagraphOk, Describes, FileNames, FilePkgs;
    ViewSizes(db.names.slots, db.packages, db.status);
    StillFree(ps, k, db.Contents(), FileNames(ps), FilePkgs(ps));
    ViewFree(db.names.slots, db.packages, db.status);
  }

  /** The words of all statuses are in w. */
  lemma WordsIn(ps: seq<Paragraph>, st: Stats, w: set<CString>)
    requires FileOk(ps, w) && StatusesHeld(ps, st)
    ensures StatusWords(st, w)
  {
    hide Word, OneEach, FieldsIn, Small, FileNames, FilePkgs;
    forall a | 0 <= a < |st| && st[a].Some? ensures Word(st[a].value.text, 1) in w && Word(st[a].value.text, 3) in w {
      var i: nat :| HoldsStatus(ps, st, a, i);
      assert ParagraphOk(ps[i], w);
    }
  }

  // ---- index_status_file ----

  /** One paragraph more. */
  method TakeParagraph(db: Database, p: Paragraph, ghost ps: seq<Paragraph>, ghost w: set<CString>) returns (ok: bool)
    requires db.Valid() && Room(db.names.slots, w) && ParagraphOk(p, w) && FreeSlot(db.packages) && FreeSlot(db.status)
    requires Describes(ps, db.Contents())
    modifies db, db.names
    ensures db.Valid() && Room(db.names.slots, w) && (ok <==> AllOk(RelationsOf(p)))
    ensures ok ==> Describes(ps + [p], db.Contents())
  {
    hide Room, FieldsIn, Small, Word, Stored, StatusPut, AllOk, RelationsUpto, NameUpto, VersionUpto, db.Valid,
         Describes,
         FreeSlot;
    ghost var world := db.Contents();
    var num;
    ok, num := db.FillPackage(p.fields, w);
    if !ok {
      return;
    }
    if num == -1 {
      PassedOver(ps, world, p);
      return;
    }
    ghost var mid := db.Contents();
    StoredThere(db, world, num, PkgIn(p), RelationsOf(p));
    var a := db.AddStatus(num, p.status, w);
    DescribesMore(ps, world, mid, db.Contents(), num, a, p);
  }

  lemma StoredThere(db: Database, world: World, num: nat, p: Pkg, rs: seq<Relation>)
    requires db.Valid() && num < |db.packages| && Stored(world, db.Contents(), num, p, rs)
    ensures db.packages[num].Some?
  {
    ViewSizes(db.names.slots, db.packages, db.status);
  }

  /** index_status_file: all paragraphs in turn, into an empty database. */
  method IndexFile(ps: seq<Paragraph>, ghost w: set<CString>) returns (ok: bool, db: Database)
    requires FileOk(ps, w)
    ensures fresh(db) && fresh(db.names) && (ok <==> AllLegal(ps))
    ensures ok ==> db.Valid() && Room(db.names.slots, w) && Describes(ps, db.Contents())
  {
    hide Room, ParagraphOk, AllOk, RelationsOf, Database.Valid, Database.Contents, Describes, FreeSlot, FileNames,
         FilePkgs;
    db := NewDatabase(w);
    ok := true;
    var i := 0;
    assert ps[..0] == [];
    while i < |ps|
      invariant 0 <= i <= |ps| && ok && fresh(db) && fresh(db.names) && AllLegal(ps[..i])
      invariant db.Valid() && Room(db.names.slots, w) && Describes(ps[..i], db.Contents())
    {
      RoomLeft(db, ps, i, w);
      ok := TakeParagraph(db, ps[i], ps[..i], w);
      if !ok {
        assert !AllOk(RelationsOf(ps[i]));
        return;
      }
      assert ps[..i] + [ps[i]] == ps[..i + 1];
      i := i + 1;
    }
    assert ps[..i] == ps;
  }

  method NewDatabase(ghost w: set<CString>) returns (db: Database)
    requires |w| <= NAME_HASH_PRIME
    ensures fresh(db) && fresh(db.names) && db.Valid() && Room(db.names.slots, w) && Describes([], db.Contents())
  {
    hide Describes;
    db := new Database();
    Subset(Missing(db.names.slots, w), w);
    DescribesNone(db.Contents());
  }

  /** A status file is read and its dependencies are checked: the answer is whether they
      hold according to the file. */
  method CheckFile(ps: seq<Paragraph>, ghost w: set<CString>) returns (ok: bool, v: Verdict)
    requires FileOk(ps, w)
    ensures ok <==> AllLegal(ps)
    ensures ok ==> v != Corrupt && (v == Pass <==> FileHolds(ps))
  {
    hide Room, FileOk, Describes, AllLegal, DependenciesHold, FileHolds, WorldOk, Database.Valid, Database.Contents;
    var db;
    v := Fail;
    ok, db := IndexFile(ps, w);
    if ok {
      MakeReady(db, ps, w);
      v := db.CheckDeps(w);
      HoldsSame(ps, db.Contents());
    }
  }

  lemma MakeReady(db: Database, ps: seq<Paragraph>, w: set<CString>)
    requires db.Valid() && Room(db.names.slots, w) && FileOk(ps, w) && Describes(ps, db.Contents())
    ensures db.Ready(w)
  {
    hide Room, StatusWords, FileOk, PackagesHeld, StatusesHeld, FreeSlot;
    assert ps[..|ps|] == ps;
    RoomLeft(db, ps, |ps|, w);
    WordsIn(ps, db.Contents().status, w);
  }
}
