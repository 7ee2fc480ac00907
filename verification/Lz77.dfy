/** What appending a token to a block does to the bytes it stands for. */
module Lz77 {
  import opened Bits
  import opened Rfc1951
  import opened StoredBound

  lemma {:induction false} ExpandAppend(out: seq<byte>, ts: seq<Token>, t: Token, mid: seq<byte>)
    requires Expand(out, ts) == Some(mid)
    ensures Expand(out, ts + [t]) == ExpandToken(mid, t)
    decreases |ts|
  {
    if ts == [] {
      assert ts + [t] == [t] && [t][1..] == [];
    } else {
      assert (ts + [t])[1..] == ts[1..] + [t];
      ExpandAppend(ExpandToken(out, ts[0]).value, ts[1..], t, mid);
    }
  }

  lemma LengthAppend(ts: seq<Token>, t: Token)
    ensures TokensLength(ts + [t]) == TokensLength(ts) + if t.Match? then t.length else 1
  {
    assert (ts + [t])[..|ts + [t]| - 1] == ts;
  }

  ghost predicate RepeatAt(input: seq<byte>, e: nat, d: nat, k: nat)
  {
    d <= e && e + k < |input| && input[e + k] == input[e + k - d]
  }

  /** From e on, n bytes of the input repeat what is d bytes before them. */
  ghost predicate Repeats(input: seq<byte>, e: nat, d: nat, n: nat)
  {
    forall k {:trigger RepeatAt(input, e, d, k)} :: 0 <= k < n ==> RepeatAt(input, e, d, k)
  }

  lemma RepeatTail(input: seq<byte>, e: nat, d: nat, n: nat)
    requires Repeats(input, e, d, n) && n > 0
    ensures Repeats(input, e + 1, d, n - 1)
  {
    var e', n' := e + 1, n - 1;
    forall k | 0 <= k < n' ensures RepeatAt(input, e', d, k) {
      assert RepeatAt(input, e, d, k + 1);
    }
  }

  /** A copy, overlapping or not, reproduces repeated input. */
  lemma {:induction false} CopyRepeats(input: seq<byte>, e: nat, d: nat, n: nat)
    requires 1 <= d <= e && e + n <= |input| && Repeats(input, e, d, n)
    ensures Copy(input[..e], n, d) == input[..e + n]
    decreases n
  {
    if n > 0 {
      assert RepeatAt(input, e, d, 0);
      assert input[..e] + [input[e - d]] == input[..e + 1];
      RepeatTail(input, e, d, n);
      CopyRepeats(input, e + 1, d, n - 1);
    }
  }

  /** Tokens that stand for the input from b to e. */
  ghost predicate TokensCover(input: seq<byte>, b: nat, e: nat, ts: seq<Token>)
  {
    b <= e <= |input| && Expand(input[..b], ts) == Some(input[..e]) && TokensLength(ts) == e - b
  }

  lemma CoversNone(input: seq<byte>, b: nat)
    requires b <= |input|
    ensures TokensCover(input, b, b, [])
  {
  }

  lemma CoversLiteral(input: seq<byte>, b: nat, e: nat, ts: seq<Token>)
    requires TokensCover(input, b, e, ts) && e < |input|
    ensures TokensCover(input, b, e + 1, ts + [Literal(input[e])])
  {
    ExpandAppend(input[..b], ts, Literal(input[e]), input[..e]);
    LengthAppend(ts, Literal(input[e]));
    assert input[..e] + [input[e]] == input[..e + 1];
  }

  lemma CoversMatch(input: seq<byte>, b: nat, e: nat, ts: seq<Token>, n: nat, d: nat)
    requires TokensCover(input, b, e, ts) && 1 <= d <= e && e + n <= |input| && Repeats(input, e, d, n)
    ensures TokensCover(input, b, e + n, ts + [Match(n, d)])
  {
    ExpandAppend(input[..b], ts, Match(n, d), input[..e]);
    LengthAppend(ts, Match(n, d));
    CopyRepeats(input, e, d, n);
  }
}
