/** Why rewriting short matches as literals keeps the meaning of an LZO1X stream. */
module LzoUnits {
  import opened Bits
  import opened Rfc1951
  import opened Lzo1x

  /** Decoding b from state st takes the output from `out` to out' and leaves state st',
      whatever follows. */
  ghost predicate Reaches(st: State, b: seq<byte>, out: seq<byte>, st': State, out': seq<byte>)
  {
    forall r: seq<byte> {:trigger b + r} :: Decode(st, b + r, out) == Decode(st', r, out')
  }

  lemma ReachesNothing(st: State, out: seq<byte>)
    ensures Reaches(st, [], out, st, out)
  {
    forall r: seq<byte> ensures Decode(st, [] + r, out) == Decode(st, r, out) {
      assert [] + r == r;
    }
  }

  lemma ReachesOn(st: State, a: seq<byte>, out: seq<byte>, st1: State, out1: seq<byte>, b: seq<byte>, st2: State,
                  out2: seq<byte>, ab: seq<byte>)
    requires Reaches(st, a, out, st1, out1) && Reaches(st1, b, out1, st2, out2) && ab == a + b
    ensures Reaches(st, ab, out, st2, out2)
  {
    hide Decode;
    forall r: seq<byte> ensures Decode(st, ab + r, out) == Decode(st2, r, out2) {
      assert ab + r == a + (b + r);
      assert Decode(st, a + (b + r), out) == Decode(st1, b + r, out1);
    }
  }

  // ---- An operation only depends on its own bytes ----

  lemma {:induction false} ExtendedLocal(b: seq<byte>, b': seq<byte>)
    requires Extended(b).Some? && |b'| >= Extended(b).value.1 && b'[..Extended(b).value.1] == b[..Extended(b).value.1]
    ensures Extended(b') == Extended(b)
    decreases |b|
  {
    var n := Extended(b).value.1;
    assert b'[0] == b'[..n][0] == b[0];
    if b[0] == 0 {
      assert b'[1..][..n - 1] == b'[..n][1..] && b[1..][..n - 1] == b[..n][1..];
      ExtendedLocal(b[1..], b'[1..]);
    }
  }

  lemma LengthLocal(field: nat, most: nat, b: seq<byte>, b': seq<byte>)
    requires |b| >= 1 && |b'| >= 1 && Length(field, most, b).Some?
    requires var n := Length(field, most, b).value.1; |b'| >= n && b'[..n] == b[..n]
    ensures Length(field, most, b') == Length(field, most, b)
  {
    if field == 0 {
      var n := Length(field, most, b).value.1;
      assert b'[1..][..n - 1] == b'[..n][1..] && b[1..][..n - 1] == b[..n][1..];
      ExtendedLocal(b[1..], b'[1..]);
    }
  }

  /** The length part of a long match, and the class of its opcode. */
  function LengthOf(b: seq<byte>): (r: Option<(nat, nat)>)
    requires |b| >= 1
    ensures r.Some? ==> 1 <= r.value.1 <= |b|
  {
    if b[0] >= 32 then Length(b[0] % 32, 31, b) else Length(b[0] % 8, 7, b)
  }

  lemma LongLocal(st: State, b: seq<byte>, b': seq<byte>)
    requires b != [] && 16 <= b[0] < 64 && Parse(st, b).Some?
    requires var n := Parse(st, b).value.1; |b'| >= n && b'[..n] == b[..n]
    ensures Parse(st, b') == Parse(st, b)
  {
    var n := Parse(st, b).value.1;
    var m := LengthOf(b).value.1;
    assert b'[..m] == b'[..n][..m] && b[..m] == b[..n][..m];
    assert b'[0] == b'[..n][0] && b'[m] == b'[..n][m] && b'[m + 1] == b'[..n][m + 1];
    assert b[0] == b[..n][0] && b[m] == b[..n][m] && b[m + 1] == b[..n][m + 1];
    LengthLocal(if b[0] >= 32 then b[0] % 32 else b[0] % 8, if b[0] >= 32 then 31 else 7, b, b');
  }

  lemma ParseLocal(st: State, b: seq<byte>, b': seq<byte>)
    requires Parse(st, b).Some?
    requires var n := Parse(st, b).value.1; |b'| >= n && b'[..n] == b[..n]
    ensures Parse(st, b') == Parse(st, b)
  {
    var n := Parse(st, b).value.1;
    assert b'[0] == b'[..n][0] == b[0];
    if 16 <= b[0] < 64 {
      LongLocal(st, b, b');
    } else if b[0] < 16 && st.Top? {
      LengthLocal(b[0], 15, b, b');
    } else {
      assert b'[1] == b'[..n][1] && b[1] == b[..n][1];
    }
  }

  // ---- The trailing-literal count of a match ----

  /** x & ~3 | k. */
  function SetLow(x: byte, k: nat): (r: byte)
    requires k <= 3
    ensures r / 4 == x / 4 && r % 4 == k
  {
    x - x % 4 + k
  }

  lemma RelabelShort(st: State, b: seq<byte>, k: nat, b': seq<byte>)
    requires b != [] && (b[0] >= 64 || (b[0] < 16 && !st.Top?)) && Parse(st, b).Some? && k <= 3
    requires |b| >= 2 && b' == b[0 := SetLow(b[0], k)]
    ensures Parse(st, b).value.1 == 2 && Parse(st, b).value.0.Copies?
    ensures Parse(st, b') == Some((Parse(st, b).value.0.(trailing := k), 2))
  {
    hide SetLow;
    LowBitsOnly(b[0], k);
  }

  /** Changing the low two bits leaves the fields above them. */
  lemma LowBitsOnly(t: byte, k: nat)
    requires k <= 3
    ensures var t' := SetLow(t, k); t' % 4 == k && t' / 4 == t / 4 && t' / 32 == t / 32 && t' / 4 % 8 == t / 4 % 8
    ensures var t' := SetLow(t, k); (t' >= 64 <==> t >= 64) && (t' >= 32 <==> t >= 32) && (t' >= 16 <==> t >= 16)
  {
  }

  lemma RelabelTail(length: Option<(nat, nat)>, b: seq<byte>, base: nat, k: nat, b': seq<byte>)
    requires length.Some? && 1 <= length.value.1 && length.value.1 + 2 <= |b| && k <= 3
    requires b' == b[length.value.1 := SetLow(b[length.value.1], k)]
    ensures LongMatch(length, b, base).Some? && LongMatch(length, b, base).value.0.Copies?
    ensures LongMatch(length, b', base) == Some((LongMatch(length, b, base).value.0.(trailing := k),
                                                 LongMatch(length, b, base).value.1))
  {
  }

  lemma RelabelLength(b: seq<byte>, m: nat, x: byte, b': seq<byte>)
    requires b != [] && LengthOf(b).Some? && m == LengthOf(b).value.1 < |b| && b' == b[m := x]
    ensures b'[0] == b[0] && LengthOf(b') == LengthOf(b)
  {
    assert b'[..m] == b[..m];
    LengthLocal(if b[0] >= 32 then b[0] % 32 else b[0] % 8, if b[0] >= 32 then 31 else 7, b, b');
  }

  lemma RelabelLong(st: State, b: seq<byte>, k: nat, b': seq<byte>)
    requires b != [] && 16 <= b[0] < 64 && Parse(st, b).Some? && Parse(st, b).value.0.Copies? && k <= 3
    requires var n := Parse(st, b).value.1; b' == b[n - 2 := SetLow(b[n - 2], k)]
    ensures Parse(st, b') == Some((Parse(st, b).value.0.(trailing := k), Parse(st, b).value.1))
  {
    hide Length, SetLow;
    var m := LengthOf(b).value.1;
    RelabelLength(b, m, SetLow(b[m], k), b');
    RelabelTail(LengthOf(b), b, if b[0] >= 32 then 1 else if b[0] / 8 % 2 == 1 then 0x4000 else 0, k, b');
  }

  /** Rewriting the two low bits of the last byte but one only changes how many
      literals follow the match. */
  lemma Relabel(st: State, b: seq<byte>, k: nat, b': seq<byte>)
    requires Parse(st, b).Some? && Parse(st, b).value.0.Copies? && k <= 3
    requires var n := Parse(st, b).value.1; b' == b[n - 2 := SetLow(b[n - 2], k)]
    ensures Parse(st, b') == Some((Parse(st, b).value.0.(trailing := k), Parse(st, b).value.1))
  {
    if 16 <= b[0] < 64 { RelabelLong(st, b, k, b'); } else { RelabelShort(st, b, k, b'); }
  }

  // ---- Units ----

  /** A match and its trailing literals. */
  lemma MatchReaches(st: State, mb: seq<byte>, out: seq<byte>, l: nat, d: nat, lits: seq<byte>, b: seq<byte>,
                     st': State, out': seq<byte>)
    requires Parse(st, mb) == Some((Copies(l, d, |lits|), |mb|)) && d <= |out| && b == mb + lits
    requires st' == After(|lits|) && out' == Copy(out, l, d) + lits
    ensures Reaches(st, b, out, st', out')
  {
    forall r: seq<byte> ensures Decode(st, b + r, out) == Decode(st', r, out') {
      var x, n := b + r, |mb|;
      assert x[..n] == mb[..n] && x[n..n + |lits|] == lits && x[n + |lits|..] == r;
      ParseLocal(st, mb, x);
    }
  }

  /** A literal run whose length is in its first byte. */
  lemma RunReaches(out: seq<byte>, h: byte, lits: seq<byte>, b: seq<byte>, out': seq<byte>)
    requires 1 <= h < 16 && |lits| == h + 3 && b == [h] + lits && out' == out + lits
    ensures Reaches(Top, b, out, AfterRun, out')
  {
    forall r: seq<byte> ensures Decode(Top, b + r, out) == Decode(AfterRun, r, out') {
      var x := b + r;
      assert x[0] == h && x[1..1 + |lits|] == lits && x[1 + |lits|..] == r;
    }
  }

  /** A literal run of any length. */
  lemma LitsReaches(hb: seq<byte>, out: seq<byte>, lits: seq<byte>, b: seq<byte>, out': seq<byte>)
    requires Parse(Top, hb) == Some((Lits(|lits|), |hb|)) && b == hb + lits && out' == out + lits
    ensures Reaches(Top, b, out, AfterRun, out')
  {
    forall r: seq<byte> ensures Decode(Top, b + r, out) == Decode(AfterRun, r, out') {
      var x, n := b + r, |hb|;
      assert x[..n] == hb[..n] && x[n..n + |lits|] == lits && x[n + |lits|..] == r;
      ParseLocal(Top, hb, x);
    }
  }
}
