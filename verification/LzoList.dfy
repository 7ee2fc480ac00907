/** The operations of an LZO1X stream, and what lzo1x_optimize makes of them. */
module LzoLists {
  import opened Bits
  import opened Lzo1x

  /** How an operation is written: a match in two bytes behind short literals (M1) or of
      any kind (M2), in more bytes (Long, M3 and M4), in two bytes behind a long run (Far),
      or a literal run. */
  datatype Form = M1 | M2 | Long | Far | Run

  datatype Item = Item(op: Op, form: Form)

  function FormOf(st: State, t: byte): (f: Form)
  {
    if t >= 64 then Form.M2
    else if t >= 16 then Long
    else match st case Top => Run case AfterRun => Far case AfterShort => M1
  }

  /** The operations of the stream b from state st on. */
  function List(st: State, b: seq<byte>): (r: Option<seq<Item>>)
    ensures r.Some? ==> b != [] && r.value != [] && r.value[0].form == FormOf(st, b[0])
    decreases |b|
  {
    match Parse(st, b)
    case None => None
    case Some((Eof, n)) => if n == |b| then Some([Item(Eof, FormOf(st, b[0]))]) else None
    case Some((Lits(k), n)) =>
      if n + k > |b| then None else Onto([Item(Lits(k), FormOf(st, b[0]))], List(AfterRun, b[n + k..]))
    case Some((Copies(l, d, k), n)) =>
      if n + k > |b| then None else Onto([Item(Copies(l, d, k), FormOf(st, b[0]))], List(After(k), b[n + k..]))
  }

  function Onto(x: seq<Item>, r: Option<seq<Item>>): (s: Option<seq<Item>>)
    ensures s.Some? <==> r.Some?
    ensures s.Some? ==> s.value == x + r.value
  {
    match r case None => None case Some(y) => Some(x + y)
  }

  /** The operations of a whole stream; literals at its start, counted in its first byte, are
      none. */
  function ListStream(b: seq<byte>): (r: Option<seq<Item>>)
  {
    if b != [] && b[0] > 17 then
      var t := b[0] - 17;
      if 1 + t > |b| then None else List(if t < 4 then AfterShort else AfterRun, b[1 + t..])
    else List(Top, b)
  }

  // ---- The rewriting ----

  /** The literals that come last: those behind a match, or a run. */
  function LitsOf(op: Op): (k: nat)
  {
    match op case Lits(c) => c case Copies(_, _, k) => k case Eof => 0
  }

  function WithLits(op: Op, k: nat): (r: Op)
    ensures !op.Eof? ==> LitsOf(r) == k
  {
    match op case Lits(_) => Lits(k) case Copies(l, d, _) => Copies(l, d, k) case Eof => Eof
  }

  /** What becomes of a match: it stays, it becomes literals of the match before it, it
      starts a run with the literals before and behind it, or it joins two runs. */
  datatype Change = Keep | More | NewRun | Join

  /** The literals of the run that follows the first item, or 0. */
  function RunBehind(rest: seq<Item>): (c: nat)
  {
    if |rest| > 1 && rest[1].form.Run? then LitsOf(rest[1].op) else 0
  }

  /** The case for the first of `rest` behind `items`.  Only matches of two or three bytes
      that would cost as much as the literals are changed, and a new run must have its length
      in one byte, that is, at most 18 literals. */
  function ChangeFor(items: seq<Item>, rest: seq<Item>): (c: Change)
  {
    if items == [] || rest == [] || !rest[0].op.Copies? || rest[0].op.trailing != 0 then Keep
    else
      var lit, n, run := LitsOf(items[|items| - 1].op), rest[0].op.length, RunBehind(rest);
      var fits := run > 0 && lit + n + run <= 18;
      match rest[0].form
      case M1 => if lit == 1 && run == 0 then More else if fits then NewRun else Keep
      case M2 => if n == 3 && lit > 3 && fits then Join else Keep
      case Long =>
        if n == 3 && lit == 0 && run == 0 then More else if n == 3 && lit <= 3 && fits then NewRun else Keep
      case _ => Keep
  }

  /** The last item with k literals. */
  function Recount(items: seq<Item>, k: nat): (r: seq<Item>)
    requires items != []
    ensures |r| == |items|
  {
    var z := items[|items| - 1];
    items[..|items| - 1] + [z.(op := WithLits(z.op, k))]
  }

  /** The operations after all rewrites: `items` are done, `rest` is to do. */
  function Rewrite(items: seq<Item>, rest: seq<Item>): (r: seq<Item>)
    decreases |rest|
  {
    if rest == [] then items
    else
      match ChangeFor(items, rest)
      case Keep => Rewrite(items + [rest[0]], rest[1..])
      case More => Rewrite(Recount(items, 3), rest[1..])
      case NewRun =>
        var count := LitsOf(items[|items| - 1].op) + rest[0].op.length + RunBehind(rest);
        Rewrite(Recount(items, 0) + [Item(Lits(count), Run)], rest[2..])
      case Join =>
        Rewrite(Recount(items, LitsOf(items[|items| - 1].op) + rest[0].op.length + RunBehind(rest)), rest[2..])
  }

  // ---- What the rewriting keeps ----

  /** How many bytes the operations produce. */
  function Size(items: seq<Item>): (n: nat)
    decreases |items|
  {
    if items == [] then 0 else Size(items[..|items| - 1]) + SizeOf(items[|items| - 1].op)
  }

  function SizeOf(op: Op): (n: nat)
  {
    match op case Lits(c) => c case Copies(l, _, k) => l + k case Eof => 0
  }

  /** The matches of more than three bytes, in order, as length and distance. */
  function LongMatches(items: seq<Item>): (ms: seq<(nat, nat)>)
    decreases |items|
  {
    if items == [] then [] else LongMatches(items[..|items| - 1]) + LongMatch1(items[|items| - 1].op)
  }

  function LongMatch1(op: Op): (ms: seq<(nat, nat)>)
  {
    match op case Copies(l, d, _) => if l > 3 then [(l, d)] else [] case _ => []
  }

  /** An M1 match has two bytes, a run is literals, and the end comes last. */
  predicate Proper(x: Item)
  {
    && (x.form.M1? ==> x.op.Copies? && x.op.length == 2) && (x.form.Run? <==> x.op.Lits?)
  }

  predicate AllProper(items: seq<Item>)
  {
    forall i {:trigger items[i]} :: 0 <= i < |items| ==> Proper(items[i]) && (items[i].op.Eof? ==> i == |items| - 1)
  }

  lemma {:induction false} ListProper(st: State, b: seq<byte>)
    requires List(st, b).Some?
    ensures AllProper(List(st, b).value)
    decreases |b|
  {
    hide After, Parse, FormOf, Proper;
    if Parse(st, b).Some? { ParseProper(st, b); }
    match Parse(st, b)
    case Some((Eof, n)) =>
    case Some((Lits(k), n)) =>
      ListProper(AfterRun, b[n + k..]);
      ProperOnto(Item(Lits(k), FormOf(st, b[0])), List(AfterRun, b[n + k..]).value);
    case Some((Copies(l, d, k), n)) =>
      ListProper(After(k), b[n + k..]);
      ProperOnto(Item(Copies(l, d, k), FormOf(st, b[0])), List(After(k), b[n + k..]).value);
  }

  lemma ParseProper(st: State, b: seq<byte>)
    requires Parse(st, b).Some?
    ensures Proper(Item(Parse(st, b).value.0, FormOf(st, b[0])))
  {
    hide Length;
  }

  lemma ProperOnto(x: Item, xs: seq<Item>)
    requires Proper(x) && !x.op.Eof? && AllProper(xs)
    ensures AllProper([x] + xs)
  {
    hide Proper;
    forall i | 0 <= i < |[x] + xs|
    ensures Proper(([x] + xs)[i]) && (([x] + xs)[i].op.Eof? ==> i == |[x] + xs| - 1) {
      if i > 0 { assert ([x] + xs)[i] == xs[i - 1]; }
    }
  }

  lemma {:induction false} Joined(x: seq<Item>, y: seq<Item>)
    ensures Size(x + y) == Size(x) + Size(y) && LongMatches(x + y) == LongMatches(x) + LongMatches(y)
    decreases |y|
  {
    if y == [] {
      assert x + y == x;
    } else {
      assert (x + y)[..|x + y| - 1] == x + y[..|y| - 1];
      Joined(x, y[..|y| - 1]);
    }
  }

  lemma OneItem(x: Item)
    ensures Size([x]) == SizeOf(x.op) && LongMatches([x]) == LongMatch1(x.op)
  {
    assert [x][..0] == [];
    assert LongMatches([]) == [] && Size([]) == 0;
  }

  lemma FirstItem(rest: seq<Item>)
    requires rest != []
    ensures Size(rest) == SizeOf(rest[0].op) + Size(rest[1..])
            && LongMatches(rest) == LongMatch1(rest[0].op) + LongMatches(rest[1..])
  {
    assert rest == [rest[0]] + rest[1..];
    Joined([rest[0]], rest[1..]);
    OneItem(rest[0]);
  }

  lemma Recounted(items: seq<Item>, k: nat)
    requires items != [] && !items[|items| - 1].op.Eof?
    ensures Size(Recount(items, k)) + LitsOf(items[|items| - 1].op) == Size(items) + k
            && LongMatches(Recount(items, k)) == LongMatches(items)
  {
    var z := items[|items| - 1];
    assert Recount(items, k)[..|items| - 1] == items[..|items| - 1];
  }

  /** Only matches of two or three bytes without literals are given up; a run follows where
      it is taken in. */
  lemma ChangeMeans(items: seq<Item>, rest: seq<Item>)
    requires rest != [] && AllProper(rest) && !ChangeFor(items, rest).Keep?
    ensures items != [] && rest[0].op.Copies? && 2 <= rest[0].op.length <= 3 && rest[0].op.trailing == 0
    ensures ChangeFor(items, rest).More? ==> LitsOf(items[|items| - 1].op) + rest[0].op.length == 3
    ensures !ChangeFor(items, rest).More? ==> |rest| > 1 && rest[1] == Item(Lits(RunBehind(rest)), Run)
  {
  }

  /** Operations already done, none of which is the end. */
  predicate Open(items: seq<Item>)
  {
    forall i {:trigger items[i]} :: 0 <= i < |items| ==> !items[i].op.Eof?
  }

  /** The first of the rest is a match to be given up, and a run of c literals follows. */
  predicate Gives(items: seq<Item>, rest: seq<Item>, c: nat, count: nat)
  {
    && items != [] && Open(items) && |rest| > 1 && AllProper(rest)
    && rest[0].op.Copies? && 2 <= rest[0].op.length <= 3 && rest[0].op.trailing == 0 && rest[1] == Item(Lits(c), Run)
    && count == LitsOf(items[|items| - 1].op) + rest[0].op.length + c
  }

  lemma NewRunKeeps(items: seq<Item>, rest: seq<Item>, c: nat, count: nat, items0: seq<Item>, items': seq<Item>)
    requires Gives(items, rest, c, count) && items0 == Recount(items, 0) && items' == items0 + [Item(Lits(count), Run)]
    ensures Size(items') + Size(rest[2..]) == Size(items) + Size(rest)
    ensures LongMatches(items') + LongMatches(rest[2..]) == LongMatches(items) + LongMatches(rest)
    ensures Open(items') && AllProper(rest[2..])
  {
    hide Size, LongMatches, Recount, Open, AllProper;
    TwoItems(rest, c);
    LastOpen(items);
    Recounted(items, 0);
    OpenOnto(items0, count, items');
    Joined(items0, [Item(Lits(count), Run)]);
    OneItem(Item(Lits(count), Run));
  }

  lemma OpenOnto(items: seq<Item>, count: nat, items': seq<Item>)
    requires Open(items) && items' == items + [Item(Lits(count), Run)]
    ensures Open(items')
  {
  }

  /** The end is not among the operations done, and is not moved there. */
  lemma LastOpen(items: seq<Item>)
    requires items != [] && Open(items)
    ensures !items[|items| - 1].op.Eof? && forall k: nat :: Open(Recount(items, k))
  {
    forall k: nat ensures Open(Recount(items, k)) {
      RecountOpen(items, k);
    }
  }

  lemma JoinKeeps(items: seq<Item>, rest: seq<Item>, c: nat, count: nat)
    requires Gives(items, rest, c, count)
    ensures Size(Recount(items, count)) + Size(rest[2..]) == Size(items) + Size(rest)
    ensures LongMatches(Recount(items, count)) + LongMatches(rest[2..]) == LongMatches(items) + LongMatches(rest)
    ensures Open(Recount(items, count)) && AllProper(rest[2..])
  {
    hide Size, LongMatches, Recount, Open, AllProper;
    TwoItems(rest, c);
    LastOpen(items);
    Recounted(items, count);
  }

  lemma TwoItems(rest: seq<Item>, c: nat)
    requires |rest| > 1 && AllProper(rest)
    requires rest[0].op.Copies? && 2 <= rest[0].op.length <= 3 && rest[0].op.trailing == 0
             && rest[1] == Item(Lits(c), Run)
    ensures Size(rest) == rest[0].op.length + c + Size(rest[2..]) && LongMatches(rest) == LongMatches(rest[2..])
    ensures AllProper(rest[2..])
  {
    hide Size, LongMatches;
    FirstItem(rest);
    FirstItem(rest[1..]);
    assert rest[1..][1..] == rest[2..];
  }

  lemma RecountOpen(items: seq<Item>, k: nat)
    requires items != [] && Open(items)
    ensures Open(Recount(items, k))
  {
    var r := Recount(items, k);
    forall i | 0 <= i < |r| ensures !r[i].op.Eof? {
      if i < |items| - 1 { assert r[i] == items[i]; }
    }
  }

  lemma MoreKeeps(items: seq<Item>, rest: seq<Item>)
    requires items != [] && Open(items) && rest != [] && AllProper(rest) && ChangeFor(items, rest).More?
    ensures Size(Recount(items, 3)) + Size(rest[1..]) == Size(items) + Size(rest)
    ensures LongMatches(Recount(items, 3)) + LongMatches(rest[1..]) == LongMatches(items) + LongMatches(rest)
    ensures Open(Recount(items, 3)) && AllProper(rest[1..])
  {
    hide Size, LongMatches, ChangeFor, Recount;
    ChangeMeans(items, rest);
    FirstItem(rest);
    Recounted(items, 3);
    RecountOpen(items, 3);
  }

  lemma KeepKeeps(items: seq<Item>, rest: seq<Item>)
    requires Open(items) && rest != [] && AllProper(rest)
    ensures Size(items + [rest[0]]) + Size(rest[1..]) == Size(items) + Size(rest)
    ensures LongMatches(items + [rest[0]]) + LongMatches(rest[1..]) == LongMatches(items) + LongMatches(rest)
    ensures |rest| > 1 ==> Open(items + [rest[0]])
    ensures AllProper(rest[1..])
  {
    hide Size, LongMatches;
    FirstItem(rest);
    OneItem(rest[0]);
    Joined(items, [rest[0]]);
  }

  lemma Nothing(items: seq<Item>)
    ensures Size(items) == Size(items) + Size([]) && LongMatches(items) == LongMatches(items) + LongMatches([])
  {
    assert Size([]) == 0 && LongMatches([]) == [];
  }

  /** The rewriting moves bytes between matches and literals: the operations produce as much
      as before, and of the matches only some of two or three bytes are gone. */
  lemma {:induction false} RewriteKeeps(items: seq<Item>, rest: seq<Item>)
    requires AllProper(rest) && (rest != [] ==> Open(items))
    ensures Size(Rewrite(items, rest)) == Size(items) + Size(rest)
    ensures LongMatches(Rewrite(items, rest)) == LongMatches(items) + LongMatches(rest)
    decreases |rest|
  {
    hide Size, LongMatches, ChangeFor, Recount, AllProper, Open;
    if rest == [] {
      Nothing(items);
    } else {
      if !ChangeFor(items, rest).Keep? { ChangeMeans(items, rest); }
      match ChangeFor(items, rest)
      case Keep =>
        KeepKeeps(items, rest);
        RewriteKeeps(items + [rest[0]], rest[1..]);
      case More =>
        MoreKeeps(items, rest);
        RewriteKeeps(Recount(items, 3), rest[1..]);
      case NewRun =>
        var count := LitsOf(items[|items| - 1].op) + rest[0].op.length + RunBehind(rest);
        var more := Recount(items, 0) + [Item(Lits(count), Run)];
        NewRunKeeps(items, rest, RunBehind(rest), count, Recount(items, 0), more);
        RewriteKeeps(more, rest[2..]);
      case Join =>
        var count := LitsOf(items[|items| - 1].op) + rest[0].op.length + RunBehind(rest);
        JoinKeeps(items, rest, RunBehind(rest), count);
        RewriteKeeps(Recount(items, count), rest[2..]);
    }
  }

  /** The operations of a stream produce as much after the rewriting as before. */
  lemma StreamKeeps(b: seq<byte>)
    requires ListStream(b).Some?
    ensures Size(Rewrite([], ListStream(b).value)) == Size(ListStream(b).value)
    ensures LongMatches(Rewrite([], ListStream(b).value)) == LongMatches(ListStream(b).value)
  {
    hide List, Rewrite;
    if b != [] && b[0] > 17 {
      ListProper(if b[0] - 17 < 4 then AfterShort else AfterRun, b[b[0] - 16..]);
    } else {
      ListProper(Top, b);
    }
    RewriteKeeps([], ListStream(b).value);
    assert Size([]) == 0 && LongMatches([]) == [];
  }
}
