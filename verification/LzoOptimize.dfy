/** lzo1x_optimize of lzop.c: short matches become literals, in place. */
module LzoOptimize {
  import opened Bits
  import opened Rfc1951
  import opened Lzo1x
  import opened LzoUnits
  import opened LzoRewrite
  import opened LzoSteps
  import opened LzoLists
  import opened LzoTracks

  /** The two bytes a match of distance d produces. */
  function Two(out: seq<byte>, d: nat): (w: seq<byte>)
    requires 1 <= d <= |out|
    ensures |w| == 2
  {
    var m := |out| - d;
    [out[m], if d == 1 then out[m] else out[m + 1]]
  }

  function Three(out: seq<byte>, d: nat): (w: seq<byte>)
    requires 1 <= d <= |out|
    ensures |w| == 3
  {
    var m := |out| - d;
    if d == 1 then [out[m], out[m], out[m]]
    else if d == 2 then [out[m], out[m + 1], out[m]]
    else [out[m], out[m + 1], out[m + 2]]
  }

  lemma CopyTwo(out: seq<byte>, d: nat)
    requires 1 <= d <= |out|
    ensures Copy(out, 2, d) == out + Two(out, d)
  {
    var a := out[|out| - d];
    var o1 := out + [a];
    assert Copy(out, 2, d) == Copy(o1, 1, d);
    var b := o1[|o1| - d];
    assert Copy(o1, 1, d) == Copy(o1 + [b], 0, d) == o1 + [b];
    assert o1 + [b] == out + [a, b];
  }

  lemma CopyThree(out: seq<byte>, d: nat)
    requires 1 <= d <= |out|
    ensures Copy(out, 3, d) == out + Three(out, d)
  {
    var a := out[|out| - d];
    var o1 := out + [a];
    var b := o1[|o1| - d];
    var o2 := o1 + [b];
    var c := o2[|o2| - d];
    assert Copy(out, 3, d) == Copy(o1, 2, d);
    assert Copy(o1, 2, d) == Copy(o2, 1, d);
    assert Copy(o2, 1, d) == Copy(o2 + [c], 0, d) == o2 + [c];
    assert o2 + [c] == out + [a, b, c];
  }

  /** The bytes a match of n bytes and distance d produces. */
  function Produced(out: seq<byte>, d: nat, n: nat): (w: seq<byte>)
    requires 1 <= d <= |out| && 2 <= n <= 3
    ensures |w| == n
  {
    if n == 2 then Two(out, d) else Three(out, d)
  }

  lemma CopyProduced(out: seq<byte>, d: nat, n: nat)
    requires 1 <= d <= |out| && 2 <= n <= 3
    ensures Copy(out, n, d) == out + Produced(out, d, n)
  {
    hide Copy;
    if n == 2 { CopyTwo(out, d); } else { CopyThree(out, d); }
  }

  /** One byte changed at litp, then the bytes from p to q. */
  lemma TwoChanges(b: seq<byte>, b1: seq<byte>, b': seq<byte>, litp: nat, x: byte, p: nat, q: nat)
    requires litp < p <= q <= |b| == |b'| && b1 == b[litp := x] && b'[..p] == b1[..p] && b'[q..] == b1[q..]
    ensures b'[..litp] == b[..litp] && b'[litp] == x && b'[litp + 1..p] == b[litp + 1..p] && b'[q..] == b[q..]
  {
    assert b'[..litp] == b'[..p][..litp] && b1[..litp] == b1[..p][..litp];
    assert b'[litp] == b'[..p][litp] && b1[litp] == b1[..p][litp];
    assert b'[litp + 1..p] == b'[..p][litp + 1..] && b1[litp + 1..p] == b1[..p][litp + 1..];
    assert b1[..litp] == b[..litp] && b1[litp + 1..p] == b[litp + 1..p] && b1[q..] == b[q..];
  }

  /** The bytes of a match and the run header behind it make room for a new header: one
      byte at litp cleared, bytes p + 1 to q replaced, the literals from litp + 2 to p
      moved up by one, and the header h put before them. */
  lemma RunChanges(b: seq<byte>, b1: seq<byte>, b2: seq<byte>, b3: seq<byte>, b': seq<byte>, litp: nat, x: byte,
                   h: byte, p: nat, q: nat)
    requires litp + 2 <= p < q <= |b| == |b'| == |b2| == |b3| && b1 == b[litp := x] && b2[..p + 1] == b1[..p + 1]
             && b2[q..] == b1[q..]
    requires b3[..litp + 3] == b2[..litp + 3] && b3[litp + 3..p + 1] == b2[litp + 2..p] && b3[p + 1..] == b2[p + 1..]
             && b' == b3[litp + 2 := h]
    ensures b'[..litp] == b[..litp] && b'[litp] == x && b'[litp + 1] == b[litp + 1] && b'[litp + 2] == h
    ensures b'[litp + 3..p + 1] == b[litp + 2..p] && b'[p + 1..q] == b2[p + 1..q] && b'[q..] == b[q..]
  {
    assert b2[..litp + 2] == b2[..p + 1][..litp + 2] && b1[..litp + 2] == b1[..p + 1][..litp + 2];
    assert b3[..litp + 2] == b3[..litp + 3][..litp + 2] && b2[..litp + 2] == b2[..litp + 3][..litp + 2];
    assert b'[..litp + 2] == b1[..litp + 2];
    assert b'[..litp] == b'[..litp + 2][..litp] && b1[..litp] == b1[..litp + 2][..litp] && b1[..litp] == b[..litp];
    assert b'[litp] == b'[..litp + 2][litp] && b'[litp + 1] == b'[..litp + 2][litp + 1];
    assert b1[litp] == b1[..litp + 2][litp] && b1[litp + 1] == b1[..litp + 2][litp + 1];
    assert b2[litp + 2..p] == b2[..p + 1][litp + 2..p] && b1[litp + 2..p] == b1[..p + 1][litp + 2..p]
           && b1[litp + 2..p] == b[litp + 2..p];
    assert b'[litp + 3..p + 1] == b3[litp + 3..p + 1];
    assert b'[p + 1..] == b3[p + 1..];
    assert b'[p + 1..q] == b'[p + 1..][..q - p - 1] && b2[p + 1..q] == b2[p + 1..][..q - p - 1];
    assert b'[q..] == b'[p + 1..][q - p - 1..] && b2[q..] == b2[p + 1..][q - p - 1..] && b1[q..] == b[q..];
  }

  /** What the start of the stream looks like is not changed by a rewrite: position 0
      only ever gets a short run's header. */
  ghost predicate HeadKept(b: seq<byte>, b': seq<byte>, z: nat)
  {
    z <= |b| == |b'| && b'[..z] == b[..z] && (z == 0 && b != [] ==> b'[0] == b[0] || b'[0] < 16)
  }

  lemma HeadOfPrefix(b: seq<byte>, b': seq<byte>, z: nat, litp: nat)
    requires z <= litp < |b| == |b'| && b'[..litp] == b[..litp] && (litp == 0 ==> b'[0] < 16)
    ensures HeadKept(b, b', z)
  {
    assert b'[..z] == b'[..litp][..z] && b[..z] == b[..litp][..z];
    if litp > 0 { assert b'[0] == b'[..litp][0] && b[0] == b[..litp][0]; }
  }

  class Optimizer {
    const inb: array<byte>
    const out: array<byte>
    var ip: nat
    var op: nat
    var litp: int     // -1 for NULL
    var lit: nat
    ghost var org: Origin
    ghost var u: Unit
    ghost var items: seq<Item>   // the operations behind ip, after the rewriting
    ghost var rest: seq<Item>    // those that lie ahead
    ghost var goal: seq<Item>    // what the rewriting of all comes to

    ghost predicate Good(st: State, total: seq<byte>)
      reads this, inb, out
    {
      Fine(st, total, ip)
    }

    /** The state of things when the operation at position p began. */
    ghost predicate Fine(st: State, total: seq<byte>, p: nat)
      reads this, inb, out
    {
      && inb != out && op <= out.Length && |total| <= out.Length
      && Ok(st, total, org, u, inb[..], litp, lit, p, out[..op])
    }

    /** The operations are being rewritten as they should, up to position p. */
    ghost predicate Track(st: State, p: nat)
      reads this, inb
    {
      OnTrack(st, org, u, inb[..], litp, lit, p, items, rest, goal)
    }

    constructor (inb: array<byte>, out: array<byte>)
      ensures this.inb == inb && this.out == out && ip == 0 && op == 0 && litp == -1 && lit == 0
    {
      this.inb, this.out, ip, op, litp, lit := inb, out, 0, 0, -1, 0;
    }

    /** *op++ = *m_pos++, n times. */
    method CopyOut(d: nat, n: nat)
      requires 1 <= d <= op && op + n <= out.Length
      modifies this`op, out
      ensures op == old(op) + n && out[..op] == Copy(old(out[..op]), n, d)
    {
      var i := n;
      ghost var goal := Copy(out[..op], n, d);
      while i > 0
        invariant 0 <= i <= n && op == old(op) + n - i && Copy(out[..op], i, d) == goal
      {
        out[op] := out[op - d];
        assert out[..op + 1] == out[..op] + [out[op - d]];
        op := op + 1;
        i := i - 1;
      }
    }

    /** *op++ = *ip++, n times. */
    method CopyIn(n: nat)
      requires inb != out && ip + n <= inb.Length && op + n <= out.Length
      modifies this`ip, this`op, out
      ensures ip == old(ip) + n && op == old(op) + n && out[..op] == old(out[..op]) + inb[old(ip)..ip]
    {
      var i := 0;
      while i < n
        invariant 0 <= i <= n && ip == old(ip) + i && op == old(op) + i
        invariant out[..op] == old(out[..op]) + inb[old(ip)..ip]
      {
        out[op] := inb[ip];
        assert out[..op + 1] == out[..op] + [inb[ip]];
        assert inb[old(ip)..ip + 1] == inb[old(ip)..ip] + [inb[ip]];
        op := op + 1;
        ip := ip + 1;
        i := i + 1;
      }
    }

    method Copy2(at: nat, d: nat)
      requires inb != out && at + 2 <= inb.Length && 1 <= d <= op <= out.Length
      modifies inb
      ensures inb[..at] == old(inb[..at]) && inb[at..at + 2] == Two(out[..op], d) && inb[at + 2..] == old(inb[at + 2..])
    {
      var m := op - d;
      inb[at] := out[m];
      if d == 1 {
        inb[at + 1] := out[m];
      } else {
        inb[at + 1] := out[m + 1];
      }
    }

    method Copy3(at: nat, d: nat)
      requires inb != out && at + 3 <= inb.Length && 1 <= d <= op <= out.Length
      modifies inb
      ensures inb[..at] == old(inb[..at]) && inb[at..at + 3] == Three(out[..op], d)
              && inb[at + 3..] == old(inb[at + 3..])
    {
      var m := op - d;
      inb[at] := out[m];
      if d == 1 {
        inb[at + 1] := out[m];
        inb[at + 2] := out[m];
      } else if d == 2 {
        inb[at + 1] := out[m + 1];
        inb[at + 2] := out[m];
      } else {
        inb[at + 1] := out[m + 1];
        inb[at + 2] := out[m + 2];
      }
    }

    /** A length field, or the bytes that continue it. */
    method ReadLength(field: nat, most: nat, ghost p: nat) returns (v: nat)
      requires p + 1 == ip <= inb.Length && Length(field, most, inb[p..]).Some?
      modifies this`ip
      ensures Length(field, most, inb[p..]) == Some((v, ip - p)) && ip <= inb.Length
    {
      v := field;
      if v == 0 {
        assert inb[p..][1..] == inb[ip..];
        v := ReadExtension(most);
      }
    }

    method ReadExtension(most: nat) returns (v: nat)
      requires ip <= inb.Length && Extended(inb[ip..]).Some?
      modifies this`ip
      ensures ip <= inb.Length && Extended(old(inb[ip..])) == Some((v - most, ip - old(ip))) && v >= most
    {
      ghost var r := Extended(inb[ip..]).value;
      v := most;
      while inb[ip] == 0
        invariant old(ip) <= ip < inb.Length && Extended(inb[ip..]).Some? && most <= v
        invariant v + Extended(inb[ip..]).value.0 == most + r.0 && ip + Extended(inb[ip..]).value.1 == old(ip) + r.1
        decreases inb.Length - ip
      {
        assert inb[ip..][1..] == inb[ip + 1..];
        v := v + 255;
        ip := ip + 1;
      }
      v := v + inb[ip];
      ip := ip + 1;
    }

    /** match_done after a match that stays as it is. */
    method PlainMatch(st: State, ghost total: seq<byte>, ghost p: nat, l: nat, d: nat, k: nat)
      requires Whole(Fine(st, total, p)) && p + 2 <= ip <= inb.Length
      requires Parse(st, inb[p..]) == Some((Copies(l, d, k), ip - p))
      requires Whole(Track(st, p)) && ChangeFor(items, rest).Keep?
      modifies this`ip, this`op, this`litp, this`lit, this`u, this`items, this`rest, out
      ensures Whole(Good(After(k), total)) && Whole(Track(After(k), ip)) && ip >= old(ip)
    {
      hide Parse, Decode, Before, Actual, OnTrack, ChangeFor, Copy;
      ghost var b, o, end := inb[..], out[..op], ip + k;
      UnfoldMatch(st, b[p..], o, total, ip - p, l, d, k);
      ghost var o' := Copy(o, l, d) + b[ip..end];
      MatchRest(st, total, b, p, o, ip - p, l, d, k, end, o');
      StepMatch(st, total, org, u, b, litp, lit, p, o, ip - p, l, d, k, ip - 2, end, o');
      KeepOnTrack(st, total, org, u, b, litp, lit, p, o, items, rest, goal, ip - p, l, d, k, ip - 2, end);
      items, rest := items + [rest[0]], rest[1..];
      CopyGrows(o, l, d);
      CopyOut(d, l);
      u := MatchUnit(p, Actual(u, lit, st), o, l, d);
      litp := ip - 2;
      lit := k;
      CopyIn(k);
    }

    method CopyN(at: nat, d: nat, n: nat)
      requires inb != out && 2 <= n <= 3 && at + n <= inb.Length && 1 <= d <= op <= out.Length
      modifies inb
      ensures inb[..at] == old(inb[..at]) && inb[at..at + n] == Produced(out[..op], d, n)
              && inb[at + n..] == old(inb[at + n..])
    {
      if n == 2 {
        Copy2(at, d);
      } else {
        Copy3(at, d);
      }
    }

    /** The match at p becomes literals of the match before it. */
    method MoreLits(ghost st: State, ghost total: seq<byte>, p: nat, n: nat, d: nat)
      requires Whole(Fine(st, total, p)) && 2 <= n <= 3 && ip == p + n && ip < inb.Length && inb[ip] >= 16
      requires Parse(st, inb[p..]) == Some((Copies(n, d, 0), n)) && u.MatchUnit? && lit + n == 3
      requires Whole(Track(st, p)) && ChangeFor(items, rest).More?
      modifies this`op, this`lit, this`items, this`rest, inb, out
      ensures Whole(Good(Top, total)) && Whole(Track(Top, ip)) && HeadKept(old(inb[..]), inb[..], org.z)
              && ip >= old(ip)
    {
      hide Parse, Decode, Copy, Reaches, Produced, OnTrack, ChangeFor;
      ghost var b, o := inb[..], out[..op];
      UnfoldMatch(st, b[p..], o, total, n, n, d, 0);
      CopyProduced(o, d, n);
      ghost var w := Produced(o, d, n);
      MatchAsBytes(st, total, b, p, o, n, n, d, w, ip);
      ghost var x := SetLow(inb[litp], 3);
      inb[litp] := SetLow(inb[litp], 3);
      CopyN(ip - n, d, n);
      TwoChanges(b, b[litp := x], inb[..], litp, x, p, ip);
      StepMore(st, total, org, u, b, litp, lit, p, o, n, d, w, inb[..], ip, o + w);
      MoreOnTrack(st, total, org, u, b, litp, lit, p, o, items, rest, goal, n, d, ip, inb[..]);
      items, rest := Recount(items, 3), rest[1..];
      HeadOfPrefix(b, inb[..], org.z, litp);
      lit := 3;
      CopyOut(d, n);
    }

    /** memmove(at + 1, at, n). */
    method MoveUp(at: nat, n: nat)
      requires at + n + 1 <= inb.Length
      modifies inb
      ensures inb[..at + 1] == old(inb[..at + 1]) && inb[at + 1..at + 1 + n] == old(inb[at..at + n])
              && inb[at + 1 + n..] == old(inb[at + 1 + n..])
    {
      forall i | at <= i < at + n {
        inb[i + 1] := inb[i];
      }
    }

    /** The bytes of the rewrite that makes a new run; r has been read. */
    method MakeRun(p: nat, n: nat, d: nat, r: nat, ghost b: seq<byte>)
      requires inb != out && b == inb[..] && 2 <= n <= 3 && ip == p + n + 1 && ip <= inb.Length
               && 1 <= d <= op <= out.Length
      requires 0 <= litp && p == litp + 2 + lit && lit + n + r < 16
      modifies this`litp, this`lit, inb
      ensures litp == old(litp) + 2 && lit == old(lit) + n + r + 3
      ensures var l0 := old(litp);
              && inb[..l0] == b[..l0] && inb[l0] == SetLow(b[l0], 0) && inb[l0 + 1] == b[l0 + 1]
                 && inb[l0 + 2] == lit - 3
              && inb[l0 + 3..p + 1] == b[l0 + 2..p] && inb[p + 1..ip] == Produced(out[..op], d, n)
                 && inb[ip..] == b[ip..]
    {
      hide Produced, SetLow;
      var l0: nat := litp;
      var x := SetLow(inb[litp], 0);
      inb[litp] := x;
      CopyN(ip - n, d, n);
      ghost var b2 := inb[..];
      ghost var b3 := PutHeader(l0 + 2, p, n + r, b2);
      RunChanges(b, b[l0 := x], b2, b3, inb[..], l0, x, lit - 3, p, ip);
    }

    /** Move the literals up to make room for the header of a run that also takes in
        `more` and three further ones. */
    method PutHeader(at: nat, p: nat, more: nat, ghost b: seq<byte>) returns (ghost b3: seq<byte>)
      requires b == inb[..] && at == litp + 2 && p == at + lit && p < inb.Length && lit + more < 16
      modifies this`litp, this`lit, inb
      ensures litp == at && lit == old(lit) + more + 3 && |b3| == |b| && inb[..] == b3[at := lit - 3]
      ensures b3[..at + 1] == b[..at + 1] && b3[at + 1..p + 1] == b[at..p] && b3[p + 1..] == b[p + 1..]
    {
      litp := at;
      if lit > 0 {
        MoveUp(litp, lit);
      }
      b3 := b[..at + 1] + b[at..p] + b[p + 1..];
      assert inb[..] == b3;
      lit := lit + more + 3;
      inb[litp] := lit - 3;
    }

    /** Copy out a match of n bytes and the `more` literals behind it. */
    method CopyBoth(d: nat, n: nat, more: nat, ghost o: seq<byte>, ghost w: seq<byte>, ghost o': seq<byte>)
      requires inb != out && op <= out.Length && o == out[..op] && 1 <= d <= op && Copy(o, n, d) == o + w && |w| == n
      requires ip + more <= inb.Length && o' == o + w + inb[ip..ip + more] && |o'| <= out.Length
      modifies this`ip, this`op, out
      ensures ip == old(ip) + more && op <= out.Length && out[..op] == o'
    {
      hide Copy;
      CopyOut(d, n);
      CopyIn(more);
    }

    /** The rewriting for a new run: w, its bytes and those of the run behind it become
        literals of one run. */
    method RewriteRun(ghost st: State, ghost total: seq<byte>, p: nat, n: nat, d: nat, r: nat, ghost b: seq<byte>,
                      ghost o: seq<byte>, ghost w: seq<byte>, ghost q: nat, ghost end: nat, ghost o': seq<byte>)
      requires inb != out && op <= out.Length && b == inb[..] && o == out[..op]
               && Ok(st, total, org, u, b, litp, lit, p, o)
      requires 2 <= n <= 3 && q == ip == p + n + 1 && end == q + r + 3 <= |b| && b[q - 1] == r && u.MatchUnit?
      requires Parse(st, b[p..]) == Some((Copies(n, d, 0), n)) && 1 <= r && lit + n + r < 16 && 1 <= d <= |o|
      requires w == Produced(o, d, n) && |w| == n && Copy(o, n, d) == o + w && o' == o + w + b[q..end]
      requires OnTrack(st, org, u, b, litp, lit, p, items, rest, goal) && ChangeFor(items, rest).NewRun?
      modifies this`litp, this`lit, this`u, this`items, this`rest, inb
      ensures OnTrack(AfterRun, org, u, inb[..], litp, lit, end, items, rest, goal)
      ensures Ok(AfterRun, total, org, u, inb[..], litp, lit, end, o')
      ensures HeadKept(b, inb[..], org.z) && inb[q..end] == b[q..end]
    {
      hide Parse, Decode, Copy, Reaches, Produced, HeadKept, OnTrack, ChangeFor;
      ghost var l0, k0, u0 := litp, lit, u;
      MakeRun(p, n, d, r, b);
      u := RunUnit(l0 + 2, Copy(u0.out, u0.length, u0.distance));
      StepNewRun(st, total, org, u0, b, l0, k0, p, o, n, d, w, r, inb[..], q, end, o', u);
      NewRunOnTrack(st, total, org, u0, b, l0, k0, p, o, items, rest, goal, n, d, r, inb[..], q, end, u);
      items, rest := Recount(items, 0) + [Item(Lits(lit), Form.Run)], rest[2..];
      HeadOfPrefix(b, inb[..], org.z, l0);
      SameSlice(inb[..], b, q, end);
    }

    /** The match at p and the run behind it join the literals before it in one run. */
    method NewRunHere(ghost st: State, ghost total: seq<byte>, p: nat, n: nat, d: nat)
      requires Whole(Fine(st, total, p)) && 2 <= n <= 3 && ip == p + n && ip < inb.Length && 1 <= inb[ip]
               && lit + n + inb[ip] < 16
      requires Parse(st, inb[p..]) == Some((Copies(n, d, 0), n)) && u.MatchUnit?
      requires Whole(Track(st, p)) && ChangeFor(items, rest).NewRun?
      modifies this`ip, this`op, this`litp, this`lit, this`u, this`items, this`rest, inb, out
      ensures Whole(Good(AfterRun, total)) && Whole(Track(AfterRun, ip)) && HeadKept(old(inb[..]), inb[..], org.z)
              && ip >= old(ip)
    {
      hide Parse, Decode, Copy, Reaches, Produced, HeadKept, OnTrack, ChangeFor, Decodes;
      ghost var b, o := inb[..], out[..op];
      UnfoldMatch(st, b[p..], o, total, n, n, d, 0);
      CopyProduced(o, d, n);
      ghost var w := Produced(o, d, n);
      var r := inb[ip];
      ip := ip + 1;
      ghost var q, end := ip, ip + r + 3;
      ghost var o' := o + w + if end <= |b| then b[q..end] else [];
      RunFollows(st, total, b, p, o, n, n, d, w, q, r, end, o');
      RewriteRun(st, total, p, n, d, r, b, o, w, q, end, o');
      CopyBoth(d, n, r + 3, o, w, o');
    }

    method MakeJoin(p: nat, d: nat, r: nat, ghost b: seq<byte>)
      requires inb != out && b == inb[..] && ip == p + 3 && ip <= inb.Length && 1 <= d <= op <= out.Length
      requires 0 <= litp < p && lit + 3 + r < 16
      modifies this`lit, inb
      ensures lit == old(lit) + 3 + r + 3 && inb[..litp] == b[..litp] && inb[litp] == lit - 3
              && inb[litp + 1..p] == b[litp + 1..p]
      ensures inb[p..ip] == Produced(out[..op], d, 3) && inb[ip..] == b[ip..]
    {
      hide Produced;
      CopyN(ip - 1 - 2, d, 3);
      ghost var b1 := inb[..];
      lit := lit + 3 + r + 3;
      inb[litp] := lit - 3;
      JoinChanges(b, b1, inb[..], litp, lit - 3, p, ip);
    }

    /** The rewriting that joins two runs: w and the run behind it become literals of the run
        before. */
    method RewriteJoin(ghost st: State, ghost total: seq<byte>, p: nat, d: nat, r: nat, ghost b: seq<byte>,
                       ghost o: seq<byte>, ghost w: seq<byte>, ghost q: nat, ghost end: nat, ghost o': seq<byte>)
      requires inb != out && op <= out.Length && b == inb[..] && o == out[..op]
               && Ok(st, total, org, u, b, litp, lit, p, o)
      requires q == ip == p + 3 && end == q + r + 3 <= |b| && b[q - 1] == r && u.RunUnit?
      requires Parse(st, b[p..]) == Some((Copies(3, d, 0), 2)) && 1 <= r && lit + 3 + r < 16 && 1 <= d <= |o|
      requires w == Produced(o, d, 3) && |w| == 3 && Copy(o, 3, d) == o + w && o' == o + w + b[q..end]
      requires OnTrack(st, org, u, b, litp, lit, p, items, rest, goal) && ChangeFor(items, rest).Join?
      modifies this`lit, this`items, this`rest, inb
      ensures OnTrack(AfterRun, org, u, inb[..], litp, lit, end, items, rest, goal)
      ensures Ok(AfterRun, total, org, u, inb[..], litp, lit, end, o')
      ensures HeadKept(b, inb[..], org.z) && inb[q..end] == b[q..end]
    {
      hide Parse, Decode, Copy, Reaches, Produced, HeadKept, OnTrack, ChangeFor;
      ghost var k0 := lit;
      MakeJoin(p, d, r, b);
      StepJoin(st, total, org, u, b, litp, k0, p, o, 3, d, w, r, inb[..], q, end, o');
      JoinOnTrack(st, total, org, u, b, litp, k0, p, o, items, rest, goal, d, r, inb[..], q, end);
      items, rest := Recount(items, lit), rest[2..];
      HeadOfPrefix(b, inb[..], org.z, litp);
      SameSlice(inb[..], b, q, end);
    }

    /** The match at p, of three bytes, joins the runs before and behind it. */
    method JoinHere(ghost st: State, ghost total: seq<byte>, p: nat, d: nat)
      requires Whole(Fine(st, total, p)) && ip == p + 2 && ip < inb.Length && 1 <= inb[ip] && lit + 3 + inb[ip] < 16
      requires Parse(st, inb[p..]) == Some((Copies(3, d, 0), 2)) && u.RunUnit?
      requires Whole(Track(st, p)) && ChangeFor(items, rest).Join?
      modifies this`ip, this`op, this`lit, this`items, this`rest, inb, out
      ensures Whole(Good(AfterRun, total)) && Whole(Track(AfterRun, ip)) && HeadKept(old(inb[..]), inb[..], org.z)
              && ip >= old(ip)
    {
      hide Parse, Decode, Copy, Reaches, Produced, HeadKept, OnTrack, ChangeFor, Decodes;
      ghost var b, o := inb[..], out[..op];
      UnfoldMatch(st, b[p..], o, total, 2, 3, d, 0);
      CopyProduced(o, d, 3);
      ghost var w := Produced(o, d, 3);
      var r := inb[ip];
      ip := ip + 1;
      ghost var q, end := ip, ip + r + 3;
      ghost var o' := o + w + if end <= |b| then b[q..end] else [];
      RunFollows(st, total, b, p, o, 2, 3, d, w, q, r, end, o');
      RewriteJoin(st, total, p, d, r, b, o, w, q, end, o');
      CopyBoth(d, 3, r + 3, o, w, o');
    }

    /** An M3 or M4 match, or the end marker: opcode, length, distance. */
    method ReadLong(st: State, p: nat) returns (v: nat, d: nat, eof: bool)
      requires p == ip < inb.Length && 16 <= inb[p] < 64 && Parse(st, inb[p..]).Some?
      modifies this`ip
      ensures p + 3 <= ip <= inb.Length && (v == 1 ==> ip == p + 3)
      ensures Parse(st, inb[p..]) == Some((if eof then Eof else Copies(v + 2, d, inb[ip - 2] % 4), ip - p))
    {
      hide Extended;
      var t := inb[ip];
      ghost var r := inb[p..];
      ip := ip + 1;
      if t >= 32 {
        v := ReadLength(t % 32, 31, p);
        assert r[ip - p] == inb[ip] && r[ip - p + 1] == inb[ip + 1];
        d := 1 + inb[ip] / 4 + 64 * (inb[ip + 1] as int);
        eof := false;
      } else {
        v := ReadLength(t % 8, 7, p);
        assert r[ip - p] == inb[ip] && r[ip - p + 1] == inb[ip + 1];
        d := (if t / 8 % 2 == 1 then 0x4000 else 0) + inb[ip] / 4 + 64 * (inb[ip + 1] as int);
        eof := d == 0;
        d := d + 0x4000;
      }
      ip := ip + 2;
    }

    lemma Peek(st: State, total: seq<byte>, p: nat, l: nat, d: nat, k: nat)
      requires Whole(Fine(st, total, p)) && p <= ip <= inb.Length
               && Parse(st, inb[p..]) == Some((Copies(l, d, k), ip - p))
      ensures ip + k < inb.Length
    {
      hide Parse, Decode, Before;
      UnfoldMatch(st, inb[..][p..], out[..op], total, ip - p, l, d, k);
      assert inb[..][p..] == inb[p..];
      MatchRest(st, total, inb[..], p, out[..op], ip - p, l, d, k, ip + k, Copy(out[..op], l, d) + inb[..][ip..ip + k]);
    }

    /** The bytes seen tell which case the rewriting of the operations calls for. */
    lemma Decide(st: State, p: nat, n: nat, l: nat, d: nat, k: nat)
      requires Whole(Track(st, p)) && p + n == ip < inb.Length && Parse(st, inb[p..]) == Some((Copies(l, d, k), n))
      ensures rest != [] && ChangeFor(items, rest) == ChangeOf(litp, lit, FormOf(st, inb[p]), l, k, inb[ip])
    {
      hide Parse, ChangeFor, ChangeOf, OnTrack, FormOf;
      assert inb[..][p..] == inb[p..];
      ChangeIs(st, org, u, inb[..], litp, lit, p, items, rest, goal, n, l, d, k, ip);
    }

    /** An M3 or M4 match of three bytes may become literals. */
    method DoLong(st: State, ghost total: seq<byte>, p: nat, v: nat, d: nat) returns (st': State)
      requires Whole(Fine(st, total, p)) && p + 3 <= ip <= inb.Length && (v == 1 ==> ip == p + 3)
      requires Parse(st, inb[p..]) == Some((Copies(v + 2, d, inb[ip - 2] % 4), ip - p))
      requires Whole(Track(st, p)) && p < inb.Length && FormOf(st, inb[p]) == Long
      modifies this`ip, this`op, this`litp, this`lit, this`u, this`items, this`rest, inb, out
      ensures Whole(Good(st', total)) && Whole(Track(st', ip)) && HeadKept(old(inb[..]), inb[..], org.z)
              && ip >= old(ip)
    {
      hide Parse, Decode, Reaches, ChangeFor, FormOf;
      var k := inb[ip - 2] % 4;
      Peek(st, total, p, v + 2, d, k);
      Decide(st, p, ip - p, v + 2, d, k);
      if litp != -1 && v == 1 && lit == 0 && k == 0 && inb[ip] >= 16 {
        MoreLits(st, total, p, 3, d);
        st' := Top;
      } else if litp != -1 && v == 1 && lit <= 3 && k == 0 && inb[ip] < 16 && inb[ip] != 0 && lit + 3 + inb[ip] < 16 {
        NewRunHere(st, total, p, 3, d);
        st' := AfterRun;
      } else {
        PlainMatch(st, total, p, v + 2, d, k);
        st' := After(k);
      }
    }

    /** An M2 match of three bytes between two runs may become literals. */
    method DoM2(st: State, ghost total: seq<byte>, p: nat) returns (st': State)
      requires Whole(Good(st, total)) && p == ip < inb.Length && inb[p] >= 64
      requires Whole(Track(st, p))
      modifies this`ip, this`op, this`litp, this`lit, this`u, this`items, this`rest, inb, out
      ensures Whole(Good(st', total)) && Whole(Track(st', ip)) && HeadKept(old(inb[..]), inb[..], org.z) && ip > p
    {
      hide Decode, Reaches, Before;
      CanStep(st, total, org, u, inb[..], litp, lit, ip, out[..op]);
      assert inb[..][p..] == inb[p..];
      var t := inb[ip];
      var d := 1 + t / 4 % 8 + 8 * (inb[ip + 1] as int);
      ip := ip + 2;
      var v := t / 32 - 1;
      st' := EndM2(st, total, p, v, d, t % 4);
    }

    method EndM2(st: State, ghost total: seq<byte>, p: nat, v: nat, d: nat, k: nat) returns (st': State)
      requires Whole(Fine(st, total, p)) && ip == p + 2 <= inb.Length
               && Parse(st, inb[p..]) == Some((Copies(v + 2, d, k), 2))
      requires Whole(Track(st, p)) && p < inb.Length && FormOf(st, inb[p]) == Form.M2
      modifies this`ip, this`op, this`litp, this`lit, this`u, this`items, this`rest, inb, out
      ensures Whole(Good(st', total)) && Whole(Track(st', ip)) && HeadKept(old(inb[..]), inb[..], org.z)
              && ip >= old(ip)
    {
      hide Parse, Decode, Reaches, ChangeFor, FormOf;
      Peek(st, total, p, v + 2, d, k);
      Decide(st, p, ip - p, v + 2, d, k);
      if litp != -1 && v == 1 && lit > 3 && k == 0 && inb[ip] < 16 && inb[ip] != 0 && lit + 3 + inb[ip] < 16 {
        JoinHere(st, total, p, d);
        st' := AfterRun;
      } else {
        PlainMatch(st, total, p, v + 2, d, k);
        st' := After(k);
      }
    }

    /** An M1 match behind short literals may become literals too. */
    method DoM1(ghost total: seq<byte>, p: nat) returns (st': State)
      requires Whole(Good(AfterShort, total)) && p == ip < inb.Length && inb[p] < 16
      requires Whole(Track(AfterShort, p))
      modifies this`ip, this`op, this`litp, this`lit, this`u, this`items, this`rest, inb, out
      ensures Whole(Good(st', total)) && Whole(Track(st', ip)) && HeadKept(old(inb[..]), inb[..], org.z) && ip > p
    {
      hide Decode, Reaches, Before;
      CanStep(AfterShort, total, org, u, inb[..], litp, lit, ip, out[..op]);
      assert inb[..][p..] == inb[p..];
      var t := inb[ip];
      var d := 1 + t / 4 + 4 * (inb[ip + 1] as int);
      ip := ip + 2;
      st' := EndM1(total, p, d, t % 4);
    }

    method EndM1(ghost total: seq<byte>, p: nat, d: nat, k: nat) returns (st': State)
      requires Whole(Fine(AfterShort, total, p)) && ip == p + 2 <= inb.Length && inb[p] < 16
      requires Parse(AfterShort, inb[p..]) == Some((Copies(2, d, k), 2))
      requires Whole(Track(AfterShort, p)) && p < inb.Length && FormOf(AfterShort, inb[p]) == M1
      modifies this`ip, this`op, this`litp, this`lit, this`u, this`items, this`rest, inb, out
      ensures Whole(Good(st', total)) && Whole(Track(st', ip)) && HeadKept(old(inb[..]), inb[..], org.z)
              && ip >= old(ip)
    {
      hide Parse, Decode, Reaches, ChangeFor, FormOf;
      Peek(AfterShort, total, p, 2, d, k);
      Decide(AfterShort, p, ip - p, 2, d, k);
      if litp != -1 && k == 0 && lit == 1 && inb[ip] >= 16 {
        MoreLits(AfterShort, total, p, 2, d);
        st' := Top;
      } else if litp != -1 && k == 0 && inb[ip] < 16 && inb[ip] != 0 && lit + 2 + inb[ip] < 16 {
        NewRunHere(AfterShort, total, p, 2, d);
        st' := AfterRun;
      } else {
        PlainMatch(AfterShort, total, p, 2, d, k);
        st' := After(k);
      }
    }

    /** The match of three bytes, beyond 0x800, that only follows a long run. */
    method DoFar(ghost total: seq<byte>, p: nat) returns (st': State)
      requires Whole(Good(AfterRun, total)) && p == ip < inb.Length && inb[p] < 16
      requires Whole(Track(AfterRun, p))
      modifies this`ip, this`op, this`litp, this`lit, this`u, this`items, this`rest, out
      ensures Whole(Good(st', total)) && Whole(Track(st', ip)) && ip > p
    {
      hide Decode, Reaches, Before;
      CanStep(AfterRun, total, org, u, inb[..], litp, lit, ip, out[..op]);
      assert inb[..][p..] == inb[p..];
      var t := inb[ip];
      var d := 0x801 + t / 4 + 4 * (inb[ip + 1] as int);
      ip := ip + 2;
      Peek(AfterRun, total, p, 3, d, t % 4);
      Decide(AfterRun, p, 2, 3, d, t % 4);
      PlainMatch(AfterRun, total, p, 3, d, t % 4);
      st' := After(t % 4);
    }

    /** A long literal run. */
    method DoRun(ghost total: seq<byte>, p: nat)
      requires Whole(Good(Top, total)) && p == ip < inb.Length && inb[p] < 16
      requires Whole(Track(Top, p))
      modifies this`ip, this`op, this`litp, this`lit, this`u, this`items, this`rest, out
      ensures Whole(Good(AfterRun, total)) && Whole(Track(AfterRun, ip)) && ip > p
    {
      hide Decode, Reaches, Before;
      ghost var b, o := inb[..], out[..op];
      CanStep(Top, total, org, u, b, litp, lit, p, o);
      assert b[p..] == inb[p..];
      var t := inb[ip];
      ip := ip + 1;
      var v := ReadLength(t, 15, p);
      FinishRun(total, p, v + 3);
    }

    method FinishRun(ghost total: seq<byte>, p: nat, k: nat)
      requires Whole(Fine(Top, total, p)) && p < ip <= inb.Length && Parse(Top, inb[p..]) == Some((Lits(k), ip - p))
      requires Whole(Track(Top, p))
      modifies this`ip, this`op, this`litp, this`lit, this`u, this`items, this`rest, out
      ensures Whole(Good(AfterRun, total)) && Whole(Track(AfterRun, ip)) && ip >= old(ip)
    {
      hide Parse, Decode, Reaches, Before, OnTrack;
      ghost var b, o, n, end := inb[..], out[..op], ip - p, ip + k;
      assert b[p..] == inb[p..];
      UnfoldRun(b[p..], o, total, n, k);
      ghost var o' := o + b[ip..end];
      RunRest(total, b, p, o, n, k, end, o');
      StepRun(total, org, u, b, litp, lit, p, o, n, k, end, o');
      RunOnTrack(total, org, u, b, litp, lit, p, o, items, rest, goal, n, k, end,
                 if n == 1 then RunUnit(p, o) else NoUnit);
      items, rest := items + [rest[0]], rest[1..];
      u := if n == 1 then RunUnit(p, o) else NoUnit;
      litp := p;
      lit := k;
      CopyIn(k);
    }

    /** Where the stream starts, and that its first byte still says so. */
    ghost predicate Head()
      reads this`org, inb
    {
      inb.Length > 0 &&
      if inb[0] > 17 then
        org.z == 1 + (inb[0] - 17) && org.z <= inb.Length && org.st == (if inb[0] < 21 then AfterShort else AfterRun)
        && org.out == inb[1..org.z]
      else org == Origin(0, Top, [])
    }

    lemma HeadStays(b: seq<byte>)
      requires HeadKept(b, inb[..], org.z) && |b| > 0
      requires if b[0] > 17 then
                 org.z == 1 + (b[0] - 17) && org.z <= |b| && org.st == (if b[0] < 21 then AfterShort else AfterRun)
                 && org.out == b[1..org.z]
               else org == Origin(0, Top, [])
      ensures Head()
    {
      if org.z > 0 {
        assert inb[0] == inb[..][..org.z][0] && b[0] == b[..org.z][0];
        assert inb[1..org.z] == inb[..][..org.z][1..] && b[1..org.z] == b[..org.z][1..];
      }
    }

    lemma HeadDecodes(total: seq<byte>)
      requires Head() && org.z <= inb.Length && Decode(org.st, inb[..][org.z..], org.out) == Some(total)
      ensures DecodeStream(inb[..]) == Some(total)
    {
      hide Decode;
      assert org.z == 0 || inb[..][1..org.z] == inb[1..org.z];
      assert inb[..][0..] == inb[..];
    }

    lemma HeadLists()
      requires Head() && org.z <= inb.Length && List(org.st, inb[..][org.z..]) == Some(goal)
      ensures ListStream(inb[..]) == Some(goal)
    {
      hide List;
      assert inb[..][0..] == inb[..];
    }

    method DoLongOrEnd(st: State, ghost total: seq<byte>) returns (eof: bool, st': State)
      requires Whole(Good(st, total)) && Whole(Head()) && ip < inb.Length && 16 <= inb[ip] < 64
      requires Whole(Track(st, ip))
      modifies this`ip, this`op, this`litp, this`lit, this`u, this`items, this`rest, inb, out
      ensures !eof ==> Whole(Good(st', total)) && HeadKept(old(inb[..]), inb[..], org.z) && ip > old(ip)
                       && Whole(Track(st', ip))
      ensures eof ==> ip == inb.Length && op <= out.Length && out[..op] == total && DecodeStream(inb[..]) == Some(total)
                      && ListStream(inb[..]) == Some(goal)
    {
      hide Decode, Reaches, Before, Parse;
      ghost var b := inb[..];
      CanStep(st, total, org, u, b, litp, lit, ip, out[..op]);
      assert b[ip..] == inb[ip..];
      var p := ip;
      var v, d;
      v, d, eof := ReadLong(st, p);
      if eof {
        StepEnd(st, total, org, u, b, litp, lit, p, out[..op], ip - p);
        HeadDecodes(total);
        EndOnTrack(st, total, org, u, b, litp, lit, p, out[..op], items, rest, goal, ip - p);
        HeadLists();
        st' := st;
      } else {
        st' := DoLong(st, total, p, v, d);
      }
    }

    /** One operation. */
    method DoOp(st: State, ghost total: seq<byte>) returns (eof: bool, st': State)
      requires Whole(Good(st, total)) && Whole(Head())
      requires Whole(Track(st, ip))
      modifies this`ip, this`op, this`litp, this`lit, this`u, this`items, this`rest, inb, out
      ensures !eof ==> Whole(Good(st', total)) && Whole(Track(st', ip)) && Whole(Head()) && old(ip) < ip <= inb.Length
      ensures eof ==> ip == inb.Length && op <= out.Length && out[..op] == total && DecodeStream(inb[..]) == Some(total)
                      && ListStream(inb[..]) == Some(goal)
    {
      hide Decode, Reaches, Before, Parse;
      ghost var b, p := inb[..], ip;
      CanStep(st, total, org, u, b, litp, lit, ip, out[..op]);
      assert b[p..] == inb[p..];
      eof := false;
      var t := inb[ip];
      if t >= 64 {
        st' := DoM2(st, total, ip);
      } else if t >= 16 {
        eof, st' := DoLongOrEnd(st, total);
      } else if st.Top? {
        DoRun(total, ip);
        st' := AfterRun;
      } else if st.AfterRun? {
        st' := DoFar(total, ip);
      } else {
        st' := DoM1(total, ip);
      }
      if !eof { HeadStays(b); }
    }

    /** A first byte above 17 is a literal run of its own. */
    method FirstRun(ghost b: seq<byte>) returns (st: State)
      requires inb != out && ip == 0 && op == 0 && b == inb[..] && b != []
      requires b[0] > 17 ==> b[0] - 16 <= |b| && b[0] - 17 <= out.Length
      modifies this`ip, this`op, out
      ensures op <= out.Length
      ensures b[0] > 17 ==> ip == b[0] - 16 && st == (if b[0] < 21 then AfterShort else AfterRun)
                            && out[..op] == b[1..ip]
      ensures b[0] <= 17 ==> ip == 0 && st == Top && out[..op] == []
    {
      st := Top;
      assert out[..0] == [];
      if inb[0] > 17 {
        var t := inb[0] - 17;
        st := if t < 4 then AfterShort else AfterRun;
        ip := 1;
        CopyIn(t);
      }
    }

    method Start(ghost total: seq<byte>) returns (st: State)
      requires inb != out && ip == 0 && op == 0 && litp == -1 && lit == 0 && |total| <= out.Length
               && DecodeStream(inb[..]) == Some(total)
      modifies this`ip, this`op, this`org, this`u, this`items, this`rest, this`goal, out
      ensures Whole(Good(st, total)) && Whole(Head()) && Whole(Track(st, ip))
      ensures ListStream(inb[..]).Some? && goal == Rewrite([], ListStream(inb[..]).value)
    {
      hide Decode, DecodeStream, List, Rewrite;
      ghost var b := inb[..];
      StreamStarts(b, total);
      st := FirstRun(b);
      u, org := NoUnit, Origin(ip, st, out[..op]);
      ReachesNothing(st, out[..op]);
      assert b[ip..ip] == [];
      ListDecodes(st, b[ip..], out[..op]);
      StreamLists(b, total);
      SpellsNothing(st);
      items, rest := [], ListStream(b).value;
      goal := Rewrite(items, rest);
    }

    /** lzo1x_optimize on the buffers of this object. */
    method Run(ghost total: seq<byte>)
      requires inb != out && ip == 0 && op == 0 && litp == -1 && lit == 0 && |total| <= out.Length
               && DecodeStream(inb[..]) == Some(total)
      modifies this, inb, out
      ensures ip == inb.Length && op <= out.Length && out[..op] == total && DecodeStream(inb[..]) == Some(total)
      ensures old(ListStream(inb[..])).Some? && ListStream(inb[..]).Some?
              && ListStream(inb[..]).value == Rewrite([], old(ListStream(inb[..])).value)
    {
      hide *;
      ghost var b := inb[..];
      var st := Start(total);
      var eof := false;
      while !eof
        invariant !eof ==> Whole(Good(st, total)) && Whole(Track(st, ip)) && Whole(Head())
        invariant eof ==> ip == inb.Length && op <= out.Length && out[..op] == total
                          && DecodeStream(inb[..]) == Some(total) && ListStream(inb[..]) == Some(goal)
        invariant ListStream(b).Some? && goal == Rewrite([], ListStream(b).value)
        decreases !eof, inb.Length - ip
      {
        eof, st := DoOp(st, total);
      }
    }
  }

  lemma StreamStarts(b: seq<byte>, total: seq<byte>)
    requires DecodeStream(b) == Some(total)
    ensures b != [] && if b[0] > 17 then
                         var t := b[0] - 17;
                         1 + t <= |b| && t <= |total|
                         && Decode(if t < 4 then AfterShort else AfterRun, b[1 + t..], b[1..1 + t]) == Some(total)
                       else b[0..] == b && Decode(Top, b, []) == Some(total)
  {
    if b != [] && b[0] > 17 {
      var t := b[0] - 17;
      DecodeGrows(if t < 4 then AfterShort else AfterRun, b[1 + t..], b[1..1 + t]);
    } else {
      DecodeGrows(Top, b, []);
    }
  }

  lemma StreamLists(b: seq<byte>, total: seq<byte>)
    requires DecodeStream(b) == Some(total)
    ensures ListStream(b).Some?
  {
    if b != [] && b[0] > 17 {
      var t := b[0] - 17;
      ListDecodes(if t < 4 then AfterShort else AfterRun, b[1 + t..], b[1..1 + t]);
    } else {
      ListDecodes(Top, b, []);
    }
  }

  lemma SameSlice(b: seq<byte>, b': seq<byte>, q: nat, end: nat)
    requires q <= end <= |b| == |b'| && b[q..] == b'[q..]
    ensures b[q..end] == b'[q..end]
  {
    assert b[q..end] == b[q..][..end - q] && b'[q..end] == b'[q..][..end - q];
  }

  lemma JoinChanges(b: seq<byte>, b1: seq<byte>, b': seq<byte>, litp: nat, h: byte, p: nat, q: nat)
    requires litp < p <= q <= |b| == |b1| && b1[..p] == b[..p] && b1[q..] == b[q..] && b' == b1[litp := h]
    ensures b'[..litp] == b[..litp] && b'[litp] == h && b'[litp + 1..p] == b[litp + 1..p] && b'[p..q] == b1[p..q]
            && b'[q..] == b[q..]
  {
    assert b1[..litp] == b1[..p][..litp] && b[..litp] == b[..p][..litp];
    assert b1[litp + 1..p] == b1[..p][litp + 1..] && b[litp + 1..p] == b[..p][litp + 1..];
  }

  /** lzo1x_optimize: a valid stream is rewritten in place to one of the same length
      that decodes to the same bytes, and those bytes are in the output buffer.  The
      operations of the new stream are those of the old one after all the rewrites the
      cases of Rewrite call for, from left to right, and no others. */
  method Optimize(inb: array<byte>, out: array<byte>, ghost total: seq<byte>) returns (outLen: nat, ok: bool)
    requires inb != out && DecodeStream(inb[..]) == Some(total) && |total| <= out.Length
    modifies inb, out
    ensures DecodeStream(inb[..]) == Some(total) && ok
    ensures outLen == |total| && out[..outLen] == total
    ensures old(ListStream(inb[..])).Some? && ListStream(inb[..]).Some?
            && ListStream(inb[..]).value == Rewrite([], old(ListStream(inb[..])).value)
  {
    hide *;
    var o := new Optimizer(inb, out);
    o.Run(total);
    outLen, ok := o.op, o.ip == inb.Length;
  }
}
