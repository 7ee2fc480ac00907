/** The rewrites of lzo1x_optimize as changes of a byte string. */
module LzoRewrite {
  import opened Bits
  import opened Rfc1951
  import opened Lzo1x
  import opened LzoUnits

  /** Where decoding starts: position, state, output. */
  datatype Origin = Origin(z: nat, st: State, out: seq<byte>)

  /** What stands right before the current position: a match with up to three literals,
      a literal run, or nothing that can still be changed. */
  datatype Unit = NoUnit
                | MatchUnit(p: nat, st: State, out: seq<byte>, length: nat, distance: nat)
                | RunUnit(p: nat, out: seq<byte>)

  /** b up to position p decodes to out and leaves state st. */
  ghost predicate Decodes(o: Origin, b: seq<byte>, p: nat, st: State, out: seq<byte>)
  {
    o.z <= p <= |b| && Reaches(o.st, b[o.z..p], o.out, st, out)
  }

  /** The unit before position ip; litp is where its literal count is kept (-1: nowhere)
      and lit that count. */
  ghost predicate Before(u: Unit, o: Origin, b: seq<byte>, litp: int, lit: nat, ip: nat, st: State, out: seq<byte>)
  {
    ip <= |b| && match u
    case NoUnit => (litp == -1 || lit >= 16) && Decodes(o, b, ip, st, out)
    case MatchUnit(p, s0, o0, l, d) =>
      && 1 <= p && p <= litp && lit <= 3 && ip == litp + 2 + lit && st == After(lit)
      && Decodes(o, b, p, s0, o0)
      && Parse(s0, b[p..litp + 2]) == Some((Copies(l, d, lit), litp + 2 - p)) && d <= |o0|
      && out == Copy(o0, l, d) + b[litp + 2..ip]
    case RunUnit(p, o0) =>
      && litp == p && 4 <= lit <= 18 && ip == p + 1 + lit && st == AfterRun
      && Decodes(o, b, p, Top, o0) && b[p] == lit - 3 && out == o0 + b[p + 1..ip]
  }

  lemma SliceJoin<T>(b: seq<T>, i: nat, j: nat, k: nat)
    requires i <= j <= k <= |b|
    ensures b[i..k] == b[i..j] + b[j..k]
  {
  }

  lemma DecodesOn(o: Origin, b: seq<byte>, p: nat, s0: State, o0: seq<byte>, q: nat, st: State, out: seq<byte>)
    requires Decodes(o, b, p, s0, o0) && p <= q <= |b| && Reaches(s0, b[p..q], o0, st, out)
    ensures Decodes(o, b, q, st, out)
  {
    hide Reaches;
    SliceJoin(b, o.z, p, q);
    ReachesOn(o.st, b[o.z..p], o.out, s0, o0, b[p..q], st, out, b[o.z..q]);
  }

  /** Whatever the unit, everything up to ip decodes as it should. */
  lemma BeforeDecodes(u: Unit, o: Origin, b: seq<byte>, litp: int, lit: nat, ip: nat, st: State, out: seq<byte>)
    requires Before(u, o, b, litp, lit, ip, st, out)
    ensures Decodes(o, b, ip, st, out)
  {
    hide Reaches, Parse, Decode;
    match u
    case NoUnit =>
    case MatchUnit(p, s0, o0, l, d) =>
      SliceJoin(b, p, litp + 2, ip);
      MatchReaches(s0, b[p..litp + 2], o0, l, d, b[litp + 2..ip], b[p..ip], st, out);
      DecodesOn(o, b, p, s0, o0, ip, st, out);
    case RunUnit(p, o0) =>
      assert b[p..ip] == [b[p]] + b[p + 1..ip];
      RunReaches(o0, b[p], b[p + 1..ip], b[p..ip], out);
      DecodesOn(o, b, p, Top, o0, ip, st, out);
  }

  lemma DecodesSame(o: Origin, b: seq<byte>, b': seq<byte>, p: nat, st: State, out: seq<byte>)
    requires Decodes(o, b, p, st, out) && |b'| == |b| && b'[..p] == b[..p]
    ensures Decodes(o, b', p, st, out)
  {
    hide Reaches;
    assert b'[o.z..p] == b'[..p][o.z..] && b[o.z..p] == b[..p][o.z..];
  }

  // ---- The next unit, without a rewrite ----

  /** A match at ip, with its trailing literals. */
  lemma NextMatch(o: Origin, b: seq<byte>, ip: nat, st: State, out: seq<byte>, n: nat, l: nat, d: nat, k: nat,
                  litp: int, ip': nat, out': seq<byte>)
    requires 1 <= ip && Decodes(o, b, ip, st, out) && Parse(st, b[ip..]) == Some((Copies(l, d, k), n)) && d <= |out|
    requires litp == ip + n - 2 && ip' == ip + n + k && ip' <= |b| && out' == Copy(out, l, d) + b[ip + n..ip']
    ensures Before(MatchUnit(ip, st, out, l, d), o, b, litp, k, ip', After(k), out')
  {
    hide Decodes, Parse;
    assert b[ip..litp + 2] == b[ip..][..n] && b[ip..][..n][..n] == b[ip..][..n];
    ParseLocal(st, b[ip..], b[ip..litp + 2]);
  }

  /** A literal run at ip. */
  lemma NextRun(o: Origin, b: seq<byte>, ip: nat, out: seq<byte>, n: nat, k: nat, ip': nat, out': seq<byte>)
    requires Decodes(o, b, ip, Top, out) && Parse(Top, b[ip..]) == Some((Lits(k), n))
    requires ip' == ip + n + k && ip' <= |b| && out' == out + b[ip + n..ip']
    ensures b[ip] < 16
    ensures Before(if n == 1 then RunUnit(ip, out) else NoUnit, o, b, ip, k, ip', AfterRun, out')
  {
    hide Decodes;
    if n > 1 {
      var hb := b[ip..ip + n];
      assert hb == b[ip..][..n] && hb[..n] == hb;
      ParseLocal(Top, b[ip..], hb);
      SliceJoin(b, ip, ip + n, ip');
      LitsReaches(hb, out, b[ip + n..ip'], b[ip..ip'], out');
      DecodesOn(o, b, ip, Top, out, ip', AfterRun, out');
    }
  }

  // ---- Rewrites ----

  lemma RelabelUnit(s0: State, b: seq<byte>, b': seq<byte>, p: nat, litp: nat, l: nat, d: nat, k0: nat, k: nat)
    requires p <= litp && litp + 2 <= |b| == |b'| && k <= 3 && b'[..litp] == b[..litp] && b'[litp] == SetLow(b[litp], k)
             && b'[litp + 1] == b[litp + 1]
    requires Parse(s0, b[p..litp + 2]) == Some((Copies(l, d, k0), litp + 2 - p))
    ensures Parse(s0, b'[p..litp + 2]) == Some((Copies(l, d, k), litp + 2 - p))
  {
    hide Parse;
    var x, x' := b[p..litp + 2], b'[p..litp + 2];
    var n := litp + 2 - p;
    forall i | 0 <= i < n ensures x'[i] == x[n - 2 := SetLow(x[n - 2], k)][i] {
      if i < n - 2 { assert b'[p + i] == b'[..litp][p + i] == b[..litp][p + i]; }
    }
    assert x' == x[n - 2 := SetLow(x[n - 2], k)];
    Relabel(s0, x, k, x');
  }

  /** A match of |w| bytes between two matches becomes |w| more literals of the match
      before it. */
  lemma MoreLiterals(u: Unit, o: Origin, b: seq<byte>, litp: int, lit: nat, ip: nat, st: State, out: seq<byte>,
                     w: seq<byte>, b': seq<byte>)
    requires Before(u, o, b, litp, lit, ip, st, out) && u.MatchUnit? && lit + |w| == 3 && w != []
             && ip + |w| <= |b| == |b'|
    requires b'[..litp] == b[..litp] && b'[litp] == SetLow(b[litp], 3) && b'[litp + 1..ip] == b[litp + 1..ip]
             && b'[ip..ip + |w|] == w
    ensures Before(u, o, b', litp, 3, ip + |w|, AfterShort, out + w)
  {
    hide Parse, Reaches;
    assert b'[litp + 1] == b'[litp + 1..ip][0] && b[litp + 1] == b[litp + 1..ip][0];
    RelabelUnit(u.st, b, b', u.p, litp, u.length, u.distance, lit, 3);
    assert b'[..u.p] == b'[..litp][..u.p] && b[..u.p] == b[..litp][..u.p];
    DecodesSame(o, b, b', u.p, u.st, u.out);
    assert b'[litp + 2..ip] == b'[litp + 1..ip][1..] && b[litp + 2..ip] == b[litp + 1..ip][1..];
    SliceJoin(b', litp + 2, ip, ip + |w|);
  }

  /** The match before the run loses its literals. */
  lemma NoLiterals(u: Unit, o: Origin, b: seq<byte>, litp: int, lit: nat, ip: nat, st: State, out: seq<byte>,
                   b': seq<byte>, o1: seq<byte>)
    requires Before(u, o, b, litp, lit, ip, st, out) && u.MatchUnit? && |b'| == |b|
             && o1 == Copy(u.out, u.length, u.distance)
    requires b'[..litp] == b[..litp] && b'[litp] == SetLow(b[litp], 0) && b'[litp + 1] == b[litp + 1]
    ensures Decodes(o, b', litp + 2, Top, o1)
  {
    hide Parse, Reaches;
    RelabelUnit(u.st, b, b', u.p, litp, u.length, u.distance, lit, 0);
    assert b'[..u.p] == b'[..litp][..u.p] && b[..u.p] == b[..litp][..u.p];
    DecodesSame(o, b, b', u.p, u.st, u.out);
    var mb := b'[u.p..litp + 2];
    assert mb + [] == mb && o1 + [] == o1;
    MatchReaches(u.st, mb, u.out, u.length, u.distance, [], mb, Top, o1);
    DecodesOn(o, b', u.p, u.st, u.out, litp + 2, Top, o1);
  }

  /** A match of |w| bytes before a literal run joins the literals before and behind it
      into one run. */
  lemma NewRun(u: Unit, o: Origin, b: seq<byte>, litp: int, lit: nat, ip: nat, st: State, out: seq<byte>, w: seq<byte>,
               r: nat,
               b': seq<byte>, q: nat, ip': nat, out': seq<byte>, o1: seq<byte>)
    requires Before(u, o, b, litp, lit, ip, st, out) && u.MatchUnit? && o1 == Copy(u.out, u.length, u.distance)
    requires 2 <= |w| && lit + |w| + r < 16 && q == ip + |w| + 1 && ip' == q + r + 3 && ip' <= |b| == |b'|
    requires b'[..litp] == b[..litp] && b'[litp] == SetLow(b[litp], 0) && b'[litp + 1] == b[litp + 1]
             && b'[litp + 2] == lit + |w| + r
    requires b'[litp + 3..ip + 1] == b[litp + 2..ip] && b'[ip + 1..q] == w && b'[q..] == b[q..]
             && out' == out + w + b[q..ip']
    ensures Before(RunUnit(litp + 2, o1), o, b', litp + 2, lit + |w| + r + 3, ip', AfterRun, out')
  {
    hide Copy;
    NoLiterals(u, o, b, litp, lit, ip, st, out, b', o1);
    hide Parse, Reaches, Copy;
    assert b'[q..ip'] == b'[q..][..ip' - q] && b[q..ip'] == b[q..][..ip' - q];
    SliceJoin(b', litp + 3, ip + 1, q);
    SliceJoin(b', litp + 3, q, ip');
    Parts(o1, b[litp + 2..ip], w, b[q..ip']);
  }

  lemma Parts<T>(a: seq<T>, b: seq<T>, c: seq<T>, d: seq<T>)
    ensures a + b + c + d == a + (b + c + d)
  {
  }

  /** A match of three bytes between two literal runs joins them. */
  lemma JoinRuns(u: Unit, o: Origin, b: seq<byte>, litp: int, lit: nat, ip: nat, st: State, out: seq<byte>,
                 w: seq<byte>, r: nat,
                 b': seq<byte>, q: nat, ip': nat, out': seq<byte>)
    requires Before(u, o, b, litp, lit, ip, st, out) && u.RunUnit?
    requires |w| == 3 && lit + 3 + r < 16 && q == ip + 3 && ip' == q + r + 3 && ip' <= |b| == |b'|
    requires b'[..litp] == b[..litp] && b'[litp] == lit + 3 + r && b'[litp + 1..ip] == b[litp + 1..ip] && b'[ip..q] == w
             && b'[q..] == b[q..]
    requires out' == out + w + b[q..ip']
    ensures Before(u, o, b', litp, lit + 3 + r + 3, ip', AfterRun, out')
  {
    hide Reaches;
    DecodesSame(o, b, b', u.p, Top, u.out);
    assert b'[q..ip'] == b'[q..][..ip' - q] && b[q..ip'] == b[q..][..ip' - q];
    SliceJoin(b', litp + 1, ip, q);
    SliceJoin(b', litp + 1, q, ip');
    Parts(u.out, b[litp + 1..ip], w, b[q..ip']);
  }
}
