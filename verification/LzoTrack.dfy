/** Why the stream lzo1x_optimize leaves has the operations its rewriting calls for. */
module LzoTracks {
  import opened Bits
  import opened Rfc1951
  import opened Lzo1x
  import opened LzoUnits
  import opened LzoRewrite
  import opened LzoSteps
  import opened LzoLists

  // ---- Lists of parts of a stream ----

  /** Every stream that decodes has a list of operations. */
  lemma {:induction false} ListDecodes(st: State, b: seq<byte>, out: seq<byte>)
    requires Decode(st, b, out).Some?
    ensures List(st, b).Some?
    decreases |b|
  {
    hide Parse, Copy, After, FormOf, Onto;
    match Parse(st, b)
    case Some((Eof, n)) =>
    case Some((Lits(k), n)) => ListDecodes(AfterRun, b[n + k..], out + b[n..n + k]);
    case Some((Copies(l, d, k), n)) => ListDecodes(After(k), b[n + k..], Copy(out, l, d) + b[n..n + k]);
  }

  /** The operations of b from state st on are `items`, whatever follows, and leave state
      st'. */
  ghost predicate Spells(st: State, b: seq<byte>, items: seq<Item>, st': State)
  {
    forall r: seq<byte> {:trigger b + r} :: List(st, b + r) == Onto(items, List(st', r))
  }

  lemma SpellsNothing(st: State)
    ensures Spells(st, [], [], st)
  {
    hide List;
    forall r: seq<byte> ensures List(st, [] + r) == Onto([], List(st, r)) {
      assert [] + r == r;
      if List(st, r).Some? { assert [] + List(st, r).value == List(st, r).value; }
    }
  }

  lemma OntoOnto(x: seq<Item>, y: seq<Item>, r: Option<seq<Item>>)
    ensures Onto(x, Onto(y, r)) == Onto(x + y, r)
  {
    if r.Some? { assert x + (y + r.value) == x + y + r.value; }
  }

  lemma SpellsOn(st: State, a: seq<byte>, x: seq<Item>, st1: State, b: seq<byte>, y: seq<Item>, st2: State,
                 ab: seq<byte>, xy: seq<Item>)
    requires Spells(st, a, x, st1) && Spells(st1, b, y, st2) && ab == a + b && xy == x + y
    ensures Spells(st, ab, xy, st2)
  {
    hide List, Onto;
    forall r: seq<byte> ensures List(st, ab + r) == Onto(xy, List(st2, r)) {
      assert ab + r == a + (b + r);
      assert List(st, a + (b + r)) == Onto(x, List(st1, b + r));
      OntoOnto(x, y, List(st2, r));
    }
  }

  /** A match and its trailing literals. */
  lemma MatchSpells(st: State, mb: seq<byte>, l: nat, d: nat, lits: seq<byte>, b: seq<byte>, st': State, f: Form)
    requires Parse(st, mb) == Some((Copies(l, d, |lits|), |mb|)) && b == mb + lits && st' == After(|lits|)
    requires f == FormOf(st, mb[0])
    ensures Spells(st, b, [Item(Copies(l, d, |lits|), f)], st')
  {
    forall r: seq<byte> ensures List(st, b + r) == Onto([Item(Copies(l, d, |lits|), f)], List(st', r)) {
      var x, n := b + r, |mb|;
      assert x[..n] == mb[..n] && x[n + |lits|..] == r && x[0] == mb[0];
      ParseLocal(st, mb, x);
    }
  }

  /** A literal run. */
  lemma RunSpells(hb: seq<byte>, lits: seq<byte>, b: seq<byte>)
    requires Parse(Top, hb) == Some((Lits(|lits|), |hb|)) && b == hb + lits
    ensures Spells(Top, b, [Item(Lits(|lits|), Run)], AfterRun)
  {
    forall r: seq<byte> ensures List(Top, b + r) == Onto([Item(Lits(|lits|), Run)], List(AfterRun, r)) {
      var x, n := b + r, |hb|;
      assert x[..n] == hb[..n] && x[n + |lits|..] == r && x[0] == hb[0];
      ParseLocal(Top, hb, x);
    }
  }

  // ---- What stands behind the current position ----

  /** Where the unit before ip begins, and the state there; without one, ip itself. */
  function UnitAt(u: Unit, ip: nat): (p: nat)
  {
    match u case NoUnit => ip case MatchUnit(p, _, _, _, _) => p case RunUnit(p, _) => p
  }

  function UnitState(u: Unit, st: State): (s: State)
  {
    match u case NoUnit => st case MatchUnit(_, s0, _, _, _) => s0 case RunUnit(_, _) => Top
  }

  /** The bytes up to ip spell `items`, of which the last is the unit before ip. */
  ghost predicate Behind(o: Origin, u: Unit, b: seq<byte>, litp: int, lit: nat, ip: nat, st: State, items: seq<Item>)
  {
    && (litp == -1 <==> items == []) && (items != [] ==> lit == LitsOf(items[|items| - 1].op))
    && o.z <= UnitAt(u, ip) <= ip <= |b|
    && match u
       case NoUnit => Spells(o.st, b[o.z..ip], items, st)
       case MatchUnit(p, s0, _, l, d) =>
         && p < |b| && items != [] && items[|items| - 1] == Item(Copies(l, d, lit), FormOf(s0, b[p]))
         && Spells(o.st, b[o.z..p], items[..|items| - 1], s0)
       case RunUnit(p, _) =>
         && items != [] && items[|items| - 1] == Item(Lits(lit), Run)
         && Spells(o.st, b[o.z..p], items[..|items| - 1], Top)
  }

  lemma LastOf(items: seq<Item>)
    requires items != []
    ensures items == items[..|items| - 1] + [items[|items| - 1]]
  {
  }

  lemma FirstByte(b: seq<byte>, p: nat, q: nat)
    requires p < q <= |b|
    ensures b[p..q][0] == b[p]
  {
  }

  /** A match and its literals behind what is spelled up to p. */
  lemma MatchEnds(o: Origin, b: seq<byte>, p: nat, m: nat, ip: nat, s0: State, st: State, items: seq<Item>, l: nat,
                  d: nat, lit: nat)
    requires o.z <= p < m <= ip <= |b| && Parse(s0, b[p..m]) == Some((Copies(l, d, lit), m - p)) && ip == m + lit
             && st == After(lit)
    requires items != [] && items[|items| - 1] == Item(Copies(l, d, lit), FormOf(s0, b[p]))
             && Spells(o.st, b[o.z..p], items[..|items| - 1], s0)
    ensures Spells(o.st, b[o.z..ip], items, st)
  {
    hide Spells, Parse, FormOf;
    SliceJoin(b, o.z, p, ip);
    SliceJoin(b, p, m, ip);
    LastOf(items);
    FirstByte(b, p, m);
    MatchSpells(s0, b[p..m], l, d, b[m..ip], b[p..ip], st, FormOf(s0, b[p]));
    SpellsOn(o.st, b[o.z..p], items[..|items| - 1], s0, b[p..ip], [items[|items| - 1]], st, b[o.z..ip], items);
  }

  lemma RunEnds(o: Origin, b: seq<byte>, p: nat, ip: nat, items: seq<Item>, lit: nat)
    requires o.z <= p < ip <= |b| && 4 <= lit <= 18 && b[p] == lit - 3 && ip == p + 1 + lit
    requires items != [] && items[|items| - 1] == Item(Lits(lit), Run)
             && Spells(o.st, b[o.z..p], items[..|items| - 1], Top)
    ensures Spells(o.st, b[o.z..ip], items, AfterRun)
  {
    hide Spells, Parse;
    SliceJoin(b, o.z, p, ip);
    LastOf(items);
    SliceJoin(b, p, p + 1, ip);
    ShortRun(b, p, lit);
    RunSpells(b[p..p + 1], b[p + 1..ip], b[p..ip]);
    SpellsOn(o.st, b[o.z..p], items[..|items| - 1], Top, b[p..ip], [items[|items| - 1]], AfterRun, b[o.z..ip], items);
  }

  /** Everything up to ip spells the items. */
  lemma BehindSpells(o: Origin, u: Unit, b: seq<byte>, litp: int, lit: nat, ip: nat, st: State, out: seq<byte>,
                     items: seq<Item>)
    requires Before(u, o, b, litp, lit, ip, st, out) && Behind(o, u, b, litp, lit, ip, st, items)
    ensures Spells(o.st, b[o.z..ip], items, st)
  {
    hide Spells, Parse, Decodes, FormOf, Copy;
    match u
    case NoUnit =>
    case MatchUnit(p, s0, o0, l, d) => MatchEnds(o, b, p, litp + 2, ip, s0, st, items, l, d, lit);
    case RunUnit(p, o0) => RunEnds(o, b, p, ip, items, lit);
  }

  lemma ShortRun(b: seq<byte>, p: nat, lit: nat)
    requires p < |b| && 4 <= lit <= 18 && b[p] == lit - 3
    ensures Parse(Top, b[p..p + 1]) == Some((Lits(lit), 1))
  {
    assert b[p..p + 1][0] == b[p];
  }

  lemma SpellsSame(o: Origin, b: seq<byte>, b': seq<byte>, p: nat, q: nat, items: seq<Item>, st: State)
    requires o.z <= p <= q <= |b| == |b'| && b'[..q] == b[..q] && Spells(o.st, b[o.z..p], items, st)
    ensures Spells(o.st, b'[o.z..p], items, st)
  {
    hide Spells;
    assert b'[o.z..p] == b'[..q][o.z..p] && b[o.z..p] == b[..q][o.z..p];
  }

  // ---- Steps ----

  /** A match at ip that stays. */
  lemma MatchIsBehind(o: Origin, u: Unit, b: seq<byte>, litp: int, lit: nat, ip: nat, st: State, out: seq<byte>,
                    items: seq<Item>, l: nat, d: nat, k: nat, litp': int, ip': nat, items': seq<Item>)
    requires Before(u, o, b, litp, lit, ip, st, out) && Behind(o, u, b, litp, lit, ip, st, items)
    requires ip < |b| && 0 <= litp' && ip <= ip' <= |b|
    requires items' == items + [Item(Copies(l, d, k), FormOf(st, b[ip]))]
    ensures Behind(o, MatchUnit(ip, st, out, l, d), b, litp', k, ip', After(k), items')
  {
    hide Spells, Before, FormOf;
    BehindSpells(o, u, b, litp, lit, ip, st, out, items);
    assert items'[..|items'| - 1] == items;
  }

  lemma FirstOf(b: seq<byte>, p: nat, n: nat)
    requires p + n <= |b|
    ensures b[p..p + n] == b[p..][..n] && b[p..p + n][..n] == b[p..][..n]
  {
  }

  /** A literal run at ip. */
  lemma RunIsBehind(o: Origin, u: Unit, b: seq<byte>, litp: int, lit: nat, ip: nat, out: seq<byte>,
                   items: seq<Item>, n: nat, k: nat, ip': nat, items': seq<Item>, u': Unit)
    requires Before(u, o, b, litp, lit, ip, Top, out) && Behind(o, u, b, litp, lit, ip, Top, items)
    requires ip <= |b| && Parse(Top, b[ip..]) == Some((Lits(k), n)) && ip' == ip + n + k <= |b|
    requires u' == (if n == 1 then RunUnit(ip, out) else NoUnit) && items' == items + [Item(Lits(k), Run)]
    ensures Behind(o, u', b, ip, k, ip', AfterRun, items')
  {
    hide Spells, Before, Parse;
    BehindSpells(o, u, b, litp, lit, ip, Top, out, items);
    assert items'[..|items'| - 1] == items;
    if n != 1 {
      var hb := b[ip..ip + n];
      FirstOf(b, ip, n);
      ParseLocal(Top, b[ip..], hb);
      SliceJoin(b, ip, ip + n, ip');
      SliceJoin(b, o.z, ip, ip');
      RunSpells(hb, b[ip + n..ip'], b[ip..ip']);
      SpellsOn(o.st, b[o.z..ip], items, Top, b[ip..ip'], [Item(Lits(k), Run)], AfterRun, b[o.z..ip'], items');
    }
  }

  /** Changing its literal count does not change what kind of match it is. */
  lemma SameForm(st: State, b: seq<byte>, b': seq<byte>, p: nat, litp: nat, k: nat)
    requires p <= litp < |b| == |b'| && b'[..litp] == b[..litp] && k <= 3 && b'[litp] == SetLow(b[litp], k)
    ensures FormOf(st, b'[p]) == FormOf(st, b[p])
  {
    if p < litp {
      assert b'[p] == b'[..litp][p] && b[p] == b[..litp][p];
    } else {
      LowBitsOnly(b[litp], k);
    }
  }

  lemma RecountIs(items: seq<Item>, k: nat, op: Op, f: Form)
    requires items != [] && items[|items| - 1] == Item(op, f)
    ensures Recount(items, k)[|items| - 1] == Item(WithLits(op, k), f)
            && Recount(items, k)[..|items| - 1] == items[..|items| - 1]
  {
  }

  /** The match before has three literals now. */
  lemma MoreIsBehind(o: Origin, u: Unit, b: seq<byte>, litp: int, lit: nat, ip: nat, st: State, items: seq<Item>,
                   b': seq<byte>, ip': nat)
    requires Behind(o, u, b, litp, lit, ip, st, items) && u.MatchUnit? && |b'| == |b| && u.p <= litp < |b|
             && ip <= ip' <= |b|
    requires b'[..litp] == b[..litp] && b'[litp] == SetLow(b[litp], 3)
    ensures Behind(o, u, b', litp, 3, ip', After(3), Recount(items, 3))
  {
    hide Spells, FormOf, SetLow;
    SameForm(u.st, b, b', u.p, litp, 3);
    RecountIs(items, 3, Copies(u.length, u.distance, lit), FormOf(u.st, b[u.p]));
    SpellsSame(o, b, b', u.p, litp, items[..|items| - 1], u.st);
  }

  /** The match before has lost its literals to a new run. */
  lemma NewRunIsBehind(o: Origin, u: Unit, b: seq<byte>, litp: int, lit: nat, ip: nat, st: State, out: seq<byte>,
                     items: seq<Item>, b': seq<byte>, ip': nat, o1: seq<byte>, count: nat, items': seq<Item>)
    requires Before(u, o, b, litp, lit, ip, st, out) && Behind(o, u, b, litp, lit, ip, st, items)
    requires u.MatchUnit? && |b'| == |b| && litp + 2 <= ip' <= |b|
    requires b'[..litp] == b[..litp] && b'[litp] == SetLow(b[litp], 0) && b'[litp + 1] == b[litp + 1]
    requires items' == Recount(items, 0) + [Item(Lits(count), Run)]
    ensures Behind(o, RunUnit(litp + 2, o1), b', litp + 2, count, ip', AfterRun, items')
  {
    hide Spells, FormOf, SetLow, Parse, Decodes, Copy;
    var p, q := u.p, litp + 2;
    SameForm(u.st, b, b', p, litp, 0);
    RecountIs(items, 0, Copies(u.length, u.distance, lit), FormOf(u.st, b[p]));
    SpellsSame(o, b, b', p, litp, items[..|items| - 1], u.st);
    RelabelUnit(u.st, b, b', p, litp, u.length, u.distance, lit, 0);
    var mb, items0 := b'[p..q], Recount(items, 0);
    assert mb + [] == mb;
    FirstByte(b', p, q);
    MatchSpells(u.st, mb, u.length, u.distance, [], mb, Top, FormOf(u.st, b[p]));
    SliceJoin(b', o.z, p, q);
    LastOf(items0);
    SpellsOn(o.st, b'[o.z..p], items[..|items| - 1], u.st, mb, [items0[|items0| - 1]], Top, b'[o.z..q], items0);
    assert items'[..|items'| - 1] == items0;
  }

  /** The run before has more literals now. */
  lemma JoinIsBehind(o: Origin, u: Unit, b: seq<byte>, litp: int, lit: nat, ip: nat, st: State, items: seq<Item>,
                   b': seq<byte>, ip': nat, count: nat)
    requires Behind(o, u, b, litp, lit, ip, st, items) && u.RunUnit? && |b'| == |b| && u.p == litp && ip <= ip' <= |b|
    requires b'[..litp] == b[..litp]
    ensures Behind(o, u, b', litp, count, ip', AfterRun, Recount(items, count))
  {
    hide Spells;
    RecountIs(items, count, Lits(lit), Run);
    SpellsSame(o, b, b', u.p, litp, items[..|items| - 1], Top);
  }

  // ---- What lies ahead ----

  lemma MatchAhead(st: State, b: seq<byte>, p: nat, n: nat, l: nat, d: nat, k: nat, rest: seq<Item>, q: nat)
    requires p < |b| && List(st, b[p..]) == Some(rest) && Parse(st, b[p..]) == Some((Copies(l, d, k), n))
             && q == p + n + k
    ensures q < |b| && rest != [] && rest[0] == Item(Copies(l, d, k), FormOf(st, b[p]))
            && List(After(k), b[q..]) == Some(rest[1..])
  {
    hide Parse, FormOf;
    if n + k <= |b| - p { DropDrop(b, p, n, k); }
  }

  lemma RunAhead(b: seq<byte>, p: nat, n: nat, k: nat, rest: seq<Item>, q: nat)
    requires p < |b| && List(Top, b[p..]) == Some(rest) && Parse(Top, b[p..]) == Some((Lits(k), n)) && q == p + n + k
    ensures q < |b| && b[p] < 16 && rest != [] && rest[0] == Item(Lits(k), Run)
            && List(AfterRun, b[q..]) == Some(rest[1..])
  {
    if n + k <= |b| - p { DropDrop(b, p, n, k); }
  }

  lemma EndAhead(st: State, b: seq<byte>, rest: seq<Item>, n: nat)
    requires List(st, b) == Some(rest) && Parse(st, b) == Some((Eof, n))
    ensures n == |b| && |rest| == 1 && rest[0].op.Eof?
  {
  }

  /** The next byte tells whether a run follows, and a short run's length. */
  lemma NextTells(b: seq<byte>, rest: seq<Item>)
    requires List(Top, b) == Some(rest)
    ensures b != [] && rest != [] && (rest[0].form.Run? <==> b[0] < 16)
    ensures 1 <= b[0] < 16 ==> rest[0] == Item(Lits(b[0] + 3), Run)
    ensures b[0] == 0 ==> rest[0].op.Lits? && rest[0].op.count > 18
  {
  }

  /** The case as the next byte shows it. */
  function ChangeOf(litp: int, lit: nat, f: Form, n: nat, k: nat, next: byte): (c: Change)
  {
    var fits := 0 < next < 16 && lit + n + next < 16;
    if litp == -1 || k != 0 then Keep
    else
      match f
      case M1 => if lit == 1 && next >= 16 then More else if fits then NewRun else Keep
      case M2 => if n == 3 && lit > 3 && fits then Join else Keep
      case Long =>
        if n == 3 && lit == 0 && next >= 16 then More else if n == 3 && lit <= 3 && fits then NewRun else Keep
      case _ => Keep
  }

  /** Behind stand the rewritten operations, ahead lie those to rewrite, and the rewriting of
      both is the goal. */
  ghost predicate OnTrack(st: State, o: Origin, u: Unit, b: seq<byte>, litp: int, lit: nat, ip: nat, items: seq<Item>,
                          rest: seq<Item>, goal: seq<Item>)
  {
    && ip < |b| && Behind(o, u, b, litp, lit, ip, Actual(u, lit, st), items) && List(st, b[ip..]) == Some(rest)
    && Rewrite(items, rest) == goal
  }

  lemma ChangeIs(st: State, o: Origin, u: Unit, b: seq<byte>, litp: int, lit: nat, p: nat, items: seq<Item>,
                 rest: seq<Item>, goal: seq<Item>, n: nat, l: nat, d: nat, k: nat, q: nat)
    requires OnTrack(st, o, u, b, litp, lit, p, items, rest, goal) && Parse(st, b[p..]) == Some((Copies(l, d, k), n))
    requires q == p + n < |b|
    ensures rest != [] && rest[0] == Item(Copies(l, d, k), FormOf(st, b[p]))
    ensures ChangeFor(items, rest) == ChangeOf(litp, lit, FormOf(st, b[p]), l, k, b[q])
    ensures 0 < b[q] < 16 && k == 0 ==> RunBehind(rest) == b[q] + 3 && |rest| > 1
  {
    hide Parse, FormOf, Spells, Rewrite, List;
    MatchAhead(st, b, p, n, l, d, k, rest, p + n + k);
    if k == 0 { NextTells(b[q..], rest[1..]); }
  }

  // ---- Steps: what is behind and what is ahead ----

  lemma KeepOnTrack(st: State, total: seq<byte>, o: Origin, u: Unit, b: seq<byte>, litp: int, lit: nat, p: nat,
                    out: seq<byte>, items: seq<Item>, rest: seq<Item>, goal: seq<Item>,
                    n: nat, l: nat, d: nat, k: nat, litp': nat, q: nat)
    requires Ok(st, total, o, u, b, litp, lit, p, out) && OnTrack(st, o, u, b, litp, lit, p, items, rest, goal)
    requires Parse(st, b[p..]) == Some((Copies(l, d, k), n)) && q == p + n + k && ChangeFor(items, rest).Keep?
    ensures rest != []
    ensures OnTrack(After(k), o, MatchUnit(p, Actual(u, lit, st), out, l, d), b, litp', k, q, items + [rest[0]],
                    rest[1..],
                    goal)
  {
    hide Parse, Spells, List, Before, ChangeFor, After, Decode;
    MatchAhead(st, b, p, n, l, d, k, rest, q);
    SameFormHigh(st, Actual(u, lit, st), b[p]);
    MatchIsBehind(o, u, b, litp, lit, p, Actual(u, lit, st), out, items, l, d, k, litp', q, items + [rest[0]]);
  }

  lemma SameFormHigh(st: State, st': State, t: byte)
    ensures t >= 16 || st == st' ==> FormOf(st, t) == FormOf(st', t)
  {
  }

  lemma RunOnTrack(total: seq<byte>, o: Origin, u: Unit, b: seq<byte>, litp: int, lit: nat, p: nat,
                   out: seq<byte>, items: seq<Item>, rest: seq<Item>, goal: seq<Item>, n: nat, k: nat, q: nat, u': Unit)
    requires Ok(Top, total, o, u, b, litp, lit, p, out) && OnTrack(Top, o, u, b, litp, lit, p, items, rest, goal)
    requires Parse(Top, b[p..]) == Some((Lits(k), n)) && q == p + n + k
    requires u' == if n == 1 then RunUnit(p, out) else NoUnit
    ensures rest != []
    ensures OnTrack(AfterRun, o, u', b, p, k, q, items + [rest[0]], rest[1..], goal)
  {
    hide Parse, Spells, List, Before, Decode;
    RunAhead(b, p, n, k, rest, q);
    RunIsBehind(o, u, b, litp, lit, p, out, items, n, k, q, items + [rest[0]], u');
  }

  /** The rest of the stream is the same after a rewrite before q. */
  lemma SameAhead(st: State, b: seq<byte>, b': seq<byte>, q: nat, p: nat)
    requires q <= p <= |b| == |b'| && b'[q..] == b[q..]
    ensures List(st, b'[p..]) == List(st, b[p..])
  {
    hide List;
    assert b'[p..] == b'[q..][p - q..] && b[p..] == b[q..][p - q..];
  }

  lemma MoreOnTrack(st: State, total: seq<byte>, o: Origin, u: Unit, b: seq<byte>, litp: int, lit: nat, p: nat,
                    out: seq<byte>, items: seq<Item>, rest: seq<Item>, goal: seq<Item>,
                    n: nat, d: nat, q: nat, b': seq<byte>)
    requires Ok(st, total, o, u, b, litp, lit, p, out) && OnTrack(st, o, u, b, litp, lit, p, items, rest, goal)
    requires Parse(st, b[p..]) == Some((Copies(n, d, 0), n)) && q == p + n && ChangeFor(items, rest).More?
             && u.MatchUnit?
    requires |b'| == |b| && 0 <= litp < |b| && b'[..litp] == b[..litp] && b'[litp] == SetLow(b[litp], 3)
             && (q <= |b| ==> b'[q..] == b[q..])
    ensures items != [] && rest != []
    ensures OnTrack(Top, o, u, b', litp, 3, q, Recount(items, 3), rest[1..], goal)
  {
    hide Parse, Spells, List, ChangeFor, Decode, SetLow;
    MatchAhead(st, b, p, n, n, d, 0, rest, q);
    SameAhead(Top, b, b', q, q);
    MoreIsBehind(o, u, b, litp, lit, p, Actual(u, lit, st), items, b', q);
  }

  lemma NewRunOnTrack(st: State, total: seq<byte>, o: Origin, u: Unit, b: seq<byte>, litp: int, lit: nat, p: nat,
                      out: seq<byte>, items: seq<Item>, rest: seq<Item>, goal: seq<Item>,
                      n: nat, d: nat, r: nat, b': seq<byte>, q: nat, ip': nat, u': Unit)
    requires Ok(st, total, o, u, b, litp, lit, p, out) && OnTrack(st, o, u, b, litp, lit, p, items, rest, goal)
    requires Parse(st, b[p..]) == Some((Copies(n, d, 0), n)) && ChangeFor(items, rest).NewRun? && u.MatchUnit?
    requires q == p + n + 1 && ip' == q + r + 3 && q <= |b| == |b'| && b[q - 1] == r && 1 <= r < 16
    requires 0 <= litp && litp + 2 <= p && b'[..litp] == b[..litp] && b'[litp] == SetLow(b[litp], 0)
             && b'[litp + 1] == b[litp + 1] && b'[q..] == b[q..]
    requires u'.RunUnit? && u'.p == litp + 2
    ensures items != [] && |rest| > 1
    ensures OnTrack(AfterRun, o, u', b', litp + 2, lit + n + r + 3, ip',
                    Recount(items, 0) + [Item(Lits(lit + n + r + 3), Run)], rest[2..], goal)
  {
    hide Parse, Spells, List, Decode, SetLow, Before, FormOf;
    MatchAhead(st, b, p, n, n, d, 0, rest, q - 1);
    ParseRunByte(b[q - 1..], r);
    RunAhead(b, q - 1, 1, r + 3, rest[1..], ip');
    SameAhead(AfterRun, b, b', q, ip');
    assert rest[1..][1..] == rest[2..];
    NewRunIsBehind(o, u, b, litp, lit, p, Actual(u, lit, st), out, items, b', ip', u'.out, lit + n + r + 3,
                   Recount(items, 0) + [Item(Lits(lit + n + r + 3), Run)]);
  }

  lemma JoinOnTrack(st: State, total: seq<byte>, o: Origin, u: Unit, b: seq<byte>, litp: int, lit: nat, p: nat,
                    out: seq<byte>, items: seq<Item>, rest: seq<Item>, goal: seq<Item>,
                    d: nat, r: nat, b': seq<byte>, q: nat, ip': nat)
    requires Ok(st, total, o, u, b, litp, lit, p, out) && OnTrack(st, o, u, b, litp, lit, p, items, rest, goal)
    requires Parse(st, b[p..]) == Some((Copies(3, d, 0), 2)) && ChangeFor(items, rest).Join? && u.RunUnit?
    requires q == p + 3 && ip' == q + r + 3 && q <= |b| == |b'| && b[q - 1] == r && 1 <= r < 16
    requires 0 <= litp && litp <= p && b'[..litp] == b[..litp] && b'[q..] == b[q..]
    ensures items != [] && |rest| > 1
    ensures OnTrack(AfterRun, o, u, b', litp, lit + 3 + r + 3, ip', Recount(items, lit + 3 + r + 3), rest[2..], goal)
  {
    hide Parse, Spells, List, Decode, FormOf;
    MatchAhead(st, b, p, 2, 3, d, 0, rest, q - 1);
    ParseRunByte(b[q - 1..], r);
    RunAhead(b, q - 1, 1, r + 3, rest[1..], ip');
    SameAhead(AfterRun, b, b', q, ip');
    assert rest[1..][1..] == rest[2..];
    JoinIsBehind(o, u, b, litp, lit, p, Actual(u, lit, st), items, b', ip', lit + 3 + r + 3);
  }

  /** At the end marker the stream spells the goal. */
  lemma EndOnTrack(st: State, total: seq<byte>, o: Origin, u: Unit, b: seq<byte>, litp: int, lit: nat, p: nat,
                   out: seq<byte>, items: seq<Item>, rest: seq<Item>, goal: seq<Item>, n: nat)
    requires Ok(st, total, o, u, b, litp, lit, p, out) && OnTrack(st, o, u, b, litp, lit, p, items, rest, goal)
    requires Parse(st, b[p..]) == Some((Eof, n))
    ensures o.z <= |b| && List(o.st, b[o.z..]) == Some(goal)
  {
    hide Parse, List, Decode, Before, FormOf;
    var act := Actual(u, lit, st);
    EndAhead(st, b[p..], rest, n);
    BehindSpells(o, u, b, litp, lit, p, act, out, items);
    SliceJoin(b, o.z, p, |b|);
    assert b[o.z..|b|] == b[o.z..] && b[p..|b|] == b[p..];
    ListHigh(st, act, b[p..]);
    assert List(o.st, b[o.z..p] + b[p..]) == Onto(items, List(act, b[p..]));
    RewriteEnd(items, rest);
  }

  lemma ListHigh(st: State, st': State, b: seq<byte>)
    requires st == st' || (b != [] && b[0] >= 16)
    ensures List(st, b) == List(st', b)
  {
    hide Parse, FormOf;
    if st != st' {
      ParseHigh(st, st', b);
      SameFormHigh(st, st', b[0]);
    }
  }

  lemma RewriteEnd(items: seq<Item>, rest: seq<Item>)
    requires |rest| == 1 && rest[0].op.Eof?
    ensures Rewrite(items, rest) == items + rest
  {
    assert [rest[0]] == rest;
    assert Rewrite(items + rest, rest[1..]) == items + rest;
  }
}
