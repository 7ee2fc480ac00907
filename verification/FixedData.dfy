/** What ct_init of gzip.c sets up once: the code tables and the static trees. */
module FixedDatas {
  import opened Rfc1951
  import opened GenCodes
  import opened CodeTables
  import opened SendTree
  import opened StaticTrees

  ghost predicate TreesCoded(llen: array<nat>, lcode: array<nat>, dlen: array<nat>, dcode: array<nat>)
    reads llen, lcode, dlen, dcode
  {
    && llen.Length == 288 && dlen.Length == 30
    && Coded(llen[..], lcode[..], FixedLitLens()) && Coded(dlen[..], dcode[..], FixedDistLens())
  }

  method MakeLitTree() returns (llen: array<nat>, lcode: array<nat>)
    ensures fresh(llen) && fresh(lcode) && llen.Length == 288 && Coded(llen[..], lcode[..], FixedLitLens())
  {
    llen, lcode := new nat[288](_ => 0), new nat[288](_ => 0);
    var blCount := new nat[MAX_BITS + 1](_ => 0);
    StaticLitTree(llen, lcode, blCount);
  }

  method MakeDistTree() returns (dlen: array<nat>, dcode: array<nat>)
    ensures fresh(dlen) && fresh(dcode) && dlen.Length == 30 && Coded(dlen[..], dcode[..], FixedDistLens())
  {
    dlen, dcode := new nat[30](_ => 0), new nat[30](_ => 0);
    StaticDistTree(dlen, dcode);
  }

  method MakeTrees()
    returns (llen: array<nat>, lcode: array<nat>, dlen: array<nat>, dcode: array<nat>, ghost o: set<object>)
    ensures o == {llen, lcode, dlen, dcode} && fresh(o) && TreesCoded(llen, lcode, dlen, dcode)
  {
    llen, lcode := MakeLitTree();
    dlen, dcode := MakeDistTree();
    o := {llen, lcode, dlen, dcode};
  }

  method MakeTables() returns (t: Tables)
    ensures fresh(t.objects) && t.Valid() && t.View().Valid() && t.View().Bases()
  {
    t := new Tables();
    t.ViewValid();
  }

  class FixedData {
    const tables: Tables
    const llen: array<nat>
    const lcode: array<nat>
    const dlen: array<nat>
    const dcode: array<nat>
    ghost const tab: Tab
    ghost const lits: (seq<nat>, seq<nat>)
    ghost const dists: (seq<nat>, seq<nat>)
    ghost const objects: set<object>

    /** What the arrays were filled with: correct tables and the fixed codes. */
    ghost predicate Correct()
    {
      && tab.Valid() && tab.Bases() && |lits.0| == 288 && |dists.0| == 30
      && Coded(lits.0, lits.1, FixedLitLens()) && Coded(dists.0, dists.1, FixedDistLens())
      && tables.Shape() && tables.objects <= objects && llen in objects && lcode in objects && dlen in objects
         && dcode in objects
    }

    /** And that they still hold it. */
    ghost predicate Kept()
      reads tables.lengthCode, tables.baseLength, tables.distCode, tables.baseDist, llen, lcode, dlen, dcode
    {
      tables.Holds(tab) && llen[..] == lits.0 && lcode[..] == lits.1 && dlen[..] == dists.0 && dcode[..] == dists.1
    }

    constructor ()
      ensures Correct() && Kept() && fresh(objects)
    {
      var t := MakeTables();
      ghost var o;
      var ll, lc, dl, dc;
      ll, lc, dl, dc, o := MakeTrees();
      tables, llen, lcode, dlen, dcode, tab := t, ll, lc, dl, dc, t.View();
      lits, dists := (ll[..], lc[..]), (dl[..], dc[..]);
      objects := t.objects + o;
    }
  }
}
