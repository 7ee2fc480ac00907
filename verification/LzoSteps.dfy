/** Each step of lzo1x_optimize keeps what is left to decode and what has been written. */
module LzoSteps {
  import opened Bits
  import opened Rfc1951
  import opened Lzo1x
  import opened LzoUnits
  import opened LzoRewrite

  /** The state the rewritten bytes leave, where st is the state of the original ones. */
  function Actual(u: Unit, lit: nat, st: State): (s: State)
  {
    match u
    case NoUnit => st
    case MatchUnit(_, _, _, _, _) => After(lit)
    case RunUnit(_, _) => AfterRun
  }

  /** What is left of the input decodes to the rest of `total`, and what is behind, as
      rewritten, to the output so far.  The two may be in different states only where
      an opcode follows that means the same in both. */
  ghost predicate Ok(st: State, total: seq<byte>, o: Origin, u: Unit, b: seq<byte>, litp: int, lit: nat, ip: nat,
                     out: seq<byte>)
  {
    && ip <= |b| && (out != [] ==> ip >= 1) && Decode(st, b[ip..], out) == Some(total)
    && (Actual(u, lit, st) == st || (ip < |b| && b[ip] >= 16))
    && Before(u, o, b, litp, lit, ip, Actual(u, lit, st), out)
  }

  lemma {:induction false} CopyGrows(out: seq<byte>, l: nat, d: nat)
    requires 1 <= d <= |out|
    ensures |Copy(out, l, d)| == |out| + l && out <= Copy(out, l, d)
    decreases l
  {
    if l > 0 { CopyGrows(out + [out[|out| - d]], l - 1, d); }
  }

  lemma {:induction false} DecodeGrows(st: State, b: seq<byte>, out: seq<byte>)
    requires Decode(st, b, out).Some?
    ensures |out| <= |Decode(st, b, out).value| && b != []
    decreases |b|
  {
    hide Parse, After, Copy;
    match Parse(st, b)
    case Some((Eof, n)) =>
    case Some((Lits(k), n)) => DecodeGrows(AfterRun, b[n + k..], out + b[n..n + k]);
    case Some((Copies(l, d, k), n)) =>
      CopyGrows(out, l, d);
      DecodeGrows(After(k), b[n + k..], Copy(out, l, d) + b[n..n + k]);
  }

  /** The next operation can be carried out. */
  lemma CanStep(st: State, total: seq<byte>, o: Origin, u: Unit, b: seq<byte>, litp: int, lit: nat, ip: nat,
                out: seq<byte>)
    requires Ok(st, total, o, u, b, litp, lit, ip, out)
    ensures ip < |b| && |out| <= |total| && Parse(st, b[ip..]).Some?
            && Parse(Actual(u, lit, st), b[ip..]) == Parse(st, b[ip..])
  {
    DecodeGrows(st, b[ip..], out);
    ParseHigh(st, Actual(u, lit, st), b[ip..]);
  }

  lemma ParseHigh(st: State, st': State, b: seq<byte>)
    ensures b != [] && b[0] >= 16 ==> Parse(st, b) == Parse(st', b)
  {
  }

  lemma DropDrop<T>(b: seq<T>, i: nat, j: nat, k: nat)
    requires i + j + k <= |b|
    ensures b[i..][j..j + k] == b[i + j..i + j + k] && b[i..][j + k..] == b[i + j + k..]
  {
  }

  lemma UnfoldMatch(st: State, r: seq<byte>, out: seq<byte>, total: seq<byte>, n: nat, l: nat, d: nat, k: nat)
    requires Decode(st, r, out) == Some(total) && Parse(st, r) == Some((Copies(l, d, k), n))
    ensures 1 <= d <= |out| && n + k <= |r| && Decode(After(k), r[n + k..],
                                                      Copy(out, l, d) + r[n..n + k]) == Some(total)
  {
    hide Copy, Parse, After;
  }

  lemma UnfoldRun(r: seq<byte>, out: seq<byte>, total: seq<byte>, n: nat, k: nat)
    requires Decode(Top, r, out) == Some(total) && Parse(Top, r) == Some((Lits(k), n))
    ensures n + k <= |r| && Decode(AfterRun, r[n + k..], out + r[n..n + k]) == Some(total)
  {
  }

  /** What decoding a match means for the rest. */
  lemma MatchRest(st: State, total: seq<byte>, b: seq<byte>, ip: nat, out: seq<byte>, n: nat, l: nat, d: nat, k: nat,
                  ip': nat, out': seq<byte>)
    requires ip <= |b| && Decode(st, b[ip..], out) == Some(total) && Parse(st, b[ip..]) == Some((Copies(l, d, k), n))
             && ip' == ip + n + k
    requires d <= |out| && ip' <= |b| ==> out' == Copy(out, l, d) + b[ip + n..ip']
    ensures d <= |out| && ip' < |b| && Decode(After(k), b[ip'..], out') == Some(total)
            && |out'| == |out| + l + k <= |total|
  {
    hide Decode, Parse, Copy;
    UnfoldMatch(st, b[ip..], out, total, n, l, d, k);
    DropDrop(b, ip, n, k);
    CopyGrows(out, l, d);
    DecodeGrows(After(k), b[ip'..], out');
  }

  lemma StepMatch(st: State, total: seq<byte>, o: Origin, u: Unit, b: seq<byte>, litp: int, lit: nat, ip: nat,
                  out: seq<byte>,
                  n: nat, l: nat, d: nat, k: nat, litp': int, ip': nat, out': seq<byte>)
    requires Ok(st, total, o, u, b, litp, lit, ip, out) && Parse(st, b[ip..]) == Some((Copies(l, d, k), n))
    requires litp' == ip + n - 2 && ip' == ip + n + k && d <= |out| && ip' <= |b|
             && out' == Copy(out, l, d) + b[ip + n..ip']
    ensures Ok(After(k), total, o, MatchUnit(ip, Actual(u, lit, st), out, l, d), b, litp', k, ip', out')
  {
    hide Parse, Reaches;
    CanStep(st, total, o, u, b, litp, lit, ip, out);
    MatchRest(st, total, b, ip, out, n, l, d, k, ip', out');
    BeforeDecodes(u, o, b, litp, lit, ip, Actual(u, lit, st), out);
    NextMatch(o, b, ip, Actual(u, lit, st), out, n, l, d, k, litp', ip', out');
  }

  lemma RunRest(total: seq<byte>, b: seq<byte>, ip: nat, out: seq<byte>, n: nat, k: nat, ip': nat, out': seq<byte>)
    requires ip <= |b| && Decode(Top, b[ip..], out) == Some(total) && Parse(Top, b[ip..]) == Some((Lits(k), n))
             && ip' == ip + n + k
    requires ip' <= |b| ==> out' == out + b[ip + n..ip']
    ensures ip' < |b| && Decode(AfterRun, b[ip'..], out') == Some(total) && |out'| == |out| + k <= |total|
  {
    hide Decode, Parse;
    UnfoldRun(b[ip..], out, total, n, k);
    DropDrop(b, ip, n, k);
    DecodeGrows(AfterRun, b[ip'..], out');
  }

  lemma StepRun(total: seq<byte>, o: Origin, u: Unit, b: seq<byte>, litp: int, lit: nat, ip: nat, out: seq<byte>,
                n: nat, k: nat, ip': nat, out': seq<byte>)
    requires Ok(Top, total, o, u, b, litp, lit, ip, out) && Parse(Top, b[ip..]) == Some((Lits(k), n))
    requires ip' == ip + n + k && ip' <= |b| && out' == out + b[ip + n..ip']
    ensures Ok(AfterRun, total, o, if n == 1 then RunUnit(ip, out) else NoUnit, b, ip, k, ip', out')
  {
    hide Reaches;
    CanStep(Top, total, o, u, b, litp, lit, ip, out);
    RunRest(total, b, ip, out, n, k, ip', out');
    BeforeDecodes(u, o, b, litp, lit, ip, Actual(u, lit, Top), out);
    NextRun(o, b, ip, out, n, k, ip', out');
  }

  // ---- Steps that rewrite ----

  /** A match without trailing literals, as the bytes w it produces. */
  lemma MatchAsBytes(st: State, total: seq<byte>, b: seq<byte>, ip: nat, out: seq<byte>, n: nat, l: nat, d: nat,
                     w: seq<byte>, q: nat)
    requires ip <= |b| && Decode(st, b[ip..], out) == Some(total) && Parse(st, b[ip..]) == Some((Copies(l, d, 0), n))
             && q == ip + n
    requires d <= |out| ==> Copy(out, l, d) == out + w
    ensures d <= |out| && q < |b| && Decode(Top, b[q..], out + w) == Some(total) && |out + w| <= |total|
  {
    hide Decode, Parse, Copy;
    UnfoldMatch(st, b[ip..], out, total, n, l, d, 0);
    assert b[q..q] == [] && out + w + [] == out + w;
    MatchRest(st, total, b, ip, out, n, l, d, 0, q, out + w);
  }

  lemma StepMore(st: State, total: seq<byte>, o: Origin, u: Unit, b: seq<byte>, litp: int, lit: nat, ip: nat,
                 out: seq<byte>,
                 l: nat, d: nat, w: seq<byte>, b': seq<byte>, q: nat, out': seq<byte>)
    requires Ok(st, total, o, u, b, litp, lit, ip, out) && u.MatchUnit?
             && Parse(st, b[ip..]) == Some((Copies(l, d, 0), |w|))
    requires d <= |out| && Copy(out, l, d) == out + w && out' == out + w && w != []
    requires lit + |w| == 3 && q == ip + |w| && q < |b| == |b'| && b[q] >= 16
    requires b'[..litp] == b[..litp] && b'[litp] == SetLow(b[litp], 3) && b'[litp + 1..ip] == b[litp + 1..ip]
             && b'[ip..q] == w && b'[q..] == b[q..]
    ensures Ok(Top, total, o, u, b', litp, 3, q, out')
  {
    hide Decode, Parse, Reaches, Copy;
    MatchAsBytes(st, total, b, ip, out, |w|, l, d, w, q);
    MoreLiterals(u, o, b, litp, lit, ip, Actual(u, lit, st), out, w, b');
    assert b'[q] == b'[q..][0] && b[q] == b[q..][0];
  }

  /** A match without trailing literals, and the literal run behind it. */
  lemma RunFollows(st: State, total: seq<byte>, b: seq<byte>, ip: nat, out: seq<byte>, n: nat, l: nat, d: nat,
                   w: seq<byte>, q: nat,
                   r: nat, ip': nat, out': seq<byte>)
    requires ip <= |b| && Decode(st, b[ip..], out) == Some(total) && Parse(st, b[ip..]) == Some((Copies(l, d, 0), n))
             && q == ip + n + 1
    requires d <= |out| ==> Copy(out, l, d) == out + w
    requires q <= |b| ==> b[q - 1] == r && 1 <= r < 16
    requires ip' == q + r + 3 && (ip' <= |b| ==> out' == out + w + b[q..ip'])
    ensures d <= |out| && ip' < |b| && Decode(AfterRun, b[ip'..], out') == Some(total)
            && |out'| == |out| + |w| + r + 3 <= |total|
  {
    hide Decode, Parse, Copy;
    MatchAsBytes(st, total, b, ip, out, n, l, d, w, q - 1);
    ParseRunByte(b[q - 1..], r);
    RunRest(total, b, q - 1, out + w, 1, r + 3, ip', out');
  }

  lemma ParseRunByte(b: seq<byte>, r: nat)
    requires b != [] && b[0] == r && 1 <= r < 16
    ensures Parse(Top, b) == Some((Lits(r + 3), 1))
  {
  }

  lemma StepNewRun(st: State, total: seq<byte>, o: Origin, u: Unit, b: seq<byte>, litp: int, lit: nat, ip: nat,
                   out: seq<byte>,
                   l: nat, d: nat, w: seq<byte>, r: nat, b': seq<byte>, q: nat, ip': nat, out': seq<byte>, u': Unit)
    requires Ok(st, total, o, u, b, litp, lit, ip, out) && u.MatchUnit?
             && Parse(st, b[ip..]) == Some((Copies(l, d, 0), |w|))
    requires d <= |out| && Copy(out, l, d) == out + w && 2 <= |w|
             && u' == RunUnit(litp + 2, Copy(u.out, u.length, u.distance))
    requires 1 <= r && lit + |w| + r < 16 && q == ip + |w| + 1 && ip' == q + r + 3 && ip' <= |b| == |b'|
             && b[q - 1] == r
    requires b'[..litp] == b[..litp] && b'[litp] == SetLow(b[litp], 0) && b'[litp + 1] == b[litp + 1]
             && b'[litp + 2] == lit + |w| + r
    requires b'[litp + 3..ip + 1] == b[litp + 2..ip] && b'[ip + 1..q] == w && b'[q..] == b[q..]
             && out' == out + w + b[q..ip']
    ensures Ok(AfterRun, total, o, u', b', litp + 2, lit + |w| + r + 3, ip', out')
  {
    hide Decode, Parse, Reaches, Copy;
    RunFollows(st, total, b, ip, out, |w|, l, d, w, q, r, ip', out');
    NewRun(u, o, b, litp, lit, ip, Actual(u, lit, st), out, w, r, b', q, ip', out', Copy(u.out, u.length, u.distance));
    assert b'[ip'..] == b'[q..][ip' - q..] && b[ip'..] == b[q..][ip' - q..];
  }

  lemma StepJoin(st: State, total: seq<byte>, o: Origin, u: Unit, b: seq<byte>, litp: int, lit: nat, ip: nat,
                 out: seq<byte>,
                 l: nat, d: nat, w: seq<byte>, r: nat, b': seq<byte>, q: nat, ip': nat, out': seq<byte>)
    requires Ok(st, total, o, u, b, litp, lit, ip, out) && u.RunUnit?
             && Parse(st, b[ip..]) == Some((Copies(l, d, 0), 2))
    requires d <= |out| && Copy(out, l, d) == out + w && |w| == 3
    requires 1 <= r && lit + 3 + r < 16 && q == ip + 3 && ip' == q + r + 3 && ip' <= |b| == |b'| && b[q - 1] == r
    requires b'[..litp] == b[..litp] && b'[litp] == lit + 3 + r && b'[litp + 1..ip] == b[litp + 1..ip] && b'[ip..q] == w
             && b'[q..] == b[q..]
    requires out' == out + w + b[q..ip']
    ensures Ok(AfterRun, total, o, u, b', litp, lit + 3 + r + 3, ip', out')
  {
    hide Decode, Parse, Reaches, Copy;
    RunFollows(st, total, b, ip, out, 2, l, d, w, q, r, ip', out');
    JoinRuns(u, o, b, litp, lit, ip, Actual(u, lit, st), out, w, r, b', q, ip', out');
    assert b'[ip'..] == b'[q..][ip' - q..] && b[ip'..] == b[q..][ip' - q..];
  }

  /** At the end marker everything has been decoded, before and after the rewrites. */
  lemma StepEnd(st: State, total: seq<byte>, o: Origin, u: Unit, b: seq<byte>, litp: int, lit: nat, ip: nat,
                out: seq<byte>, n: nat)
    requires Ok(st, total, o, u, b, litp, lit, ip, out) && Parse(st, b[ip..]) == Some((Eof, n))
    ensures out == total && ip + n == |b| && o.z <= |b| && Decode(o.st, b[o.z..], o.out) == Some(total)
  {
    hide Reaches;
    CanStep(st, total, o, u, b, litp, lit, ip, out);
    BeforeDecodes(u, o, b, litp, lit, ip, Actual(u, lit, st), out);
    SliceJoin(b, o.z, ip, |b|);
    assert b[o.z..|b|] == b[o.z..] && b[ip..|b|] == b[ip..];
    EndReached(o, b[o.z..ip], Actual(u, lit, st), out, b[ip..]);
  }

  lemma EndReached(o: Origin, a: seq<byte>, st: State, out: seq<byte>, r: seq<byte>)
    requires Reaches(o.st, a, o.out, st, out)
    ensures Decode(o.st, a + r, o.out) == Decode(st, r, out)
  {
  }
}
