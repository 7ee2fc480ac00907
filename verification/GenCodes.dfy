/** gen_codes and bi_reverse of gzip.c: the codes written into the tree are the
    canonical codes of section 3.2.2 of RFC 1951, bit-reversed for send_bits. */
module GenCodes {
  import opened Bits
  import opened Rfc1951
  import opened Canonical

  const MAX_BITS: nat := 15

  /** bl_count counts the non-zero lengths; its entry for length 0 stays 0. */
  ghost predicate IsHistogram(blCount: seq<nat>, lens: seq<nat>)
  {
    && |blCount| == MAX_BITS + 1 && blCount[0] == 0
    && forall b :: 1 <= b <= MAX_BITS ==> blCount[b] == Count(lens, b)
  }

  /** The code stored for n, sent low bit first, is n's canonical code word. */
  ghost predicate HasCode(lens: seq<nat>, code: nat, n: nat)
    requires n < |lens|
  {
    code < Pow2(lens[n]) && ToBits(code, lens[n]) == Codeword(lens, n)
  }

  /** Every symbol of non-zero length has its code. */
  ghost predicate HasCodes(lens: seq<nat>, codes: seq<nat>)
  {
    |lens| <= |codes| && forall n :: 0 <= n < |lens| && lens[n] > 0 ==> HasCode(lens, codes[n], n)
  }

  lemma {:induction false} MsbHead(v: nat, j: nat)
    ensures MsbBits(v, j + 1) == [Shr(v, j) % 2 == 1] + MsbBits(v, j)
  {
    if j == 0 {
      assert MsbBits(v, 1) == MsbBits(v / 2, 0) + [v % 2 == 1];
    } else {
      MsbHead(v / 2, j - 1);
      assert MsbBits(v, j + 1) == MsbBits(v / 2, j) + [v % 2 == 1];
    }
  }

  lemma {:induction false} ShrStep(v: nat, j: nat)
    ensures Shr(v, j) / 2 == Shr(v, j + 1)
  {
    if j > 0 { ShrStep(v / 2, j - 1); }
  }

  lemma ToBitsHead(r: nat, b: nat, j: nat)
    requires b < 2
    ensures ToBits(2 * r + b, j + 1) == [b == 1] + ToBits(r, j)
  {
    assert (2 * r + b) / 2 == r;
  }

  /** Reverse the first len bits of a code. */
  method BiReverse(code: nat, len: nat) returns (res: nat)
    requires 1 <= len
    ensures res < Pow2(len) && ToBits(res, len) == MsbBits(code, len)
  {
    res := 0;
    var c, left := code, len;
    ghost var r, j := 0, 0;
    while true
      invariant res == 2 * r && left == len - j && j < len
      invariant c == Shr(code, j) && r < Pow2(j)
      invariant ToBits(r, j) == MsbBits(code, j)
      decreases left
    {
      OrDisjoint(c % 2, 1, r);
      res := Or(c % 2, res);
      ToBitsHead(r, c % 2, j);
      MsbHead(code, j);
      left := left - 1;
      if left <= 0 { return; }
      ShrStep(code, j);
      c := c / 2;
      r, j := res, j + 1;
      res := 2 * res;
    }
  }

  /** Fill next_code: the smallest code of every length. */
  method NextCodes(blCount: array<nat>, ghost lens: seq<nat>) returns (next: array<nat>)
    requires IsHistogram(blCount[..], lens)
    ensures fresh(next) && next.Length == MAX_BITS + 1
    ensures NextOk(next[..], lens, 0)
  {
    next := new nat[MAX_BITS + 1](_ => 0);
    var code, bits := 0, 1;
    while bits <= MAX_BITS
      invariant 1 <= bits <= MAX_BITS + 1
      invariant code == FirstCode(lens, bits - 1)
      invariant forall b :: 1 <= b < bits ==> next[b] == FirstCode(lens, b)
    {
      assert blCount[bits - 1] == blCount[..][bits - 1];
      code := (code + blCount[bits - 1]) * 2;
      next[bits] := code;
      bits := bits + 1;
    }
  }

  /** next_code after the symbols below n have their codes. */
  ghost predicate NextOk(next: seq<nat>, lens: seq<nat>, n: nat)
    requires n <= |lens|
  {
    && |next| == MAX_BITS + 1
    && forall b :: 1 <= b <= MAX_BITS ==> next[b] == FirstCode(lens, b) + Count(lens[..n], b)
  }

  lemma NextStep(next: seq<nat>, lens: seq<nat>, n: nat)
    requires n < |lens| && lens[n] <= MAX_BITS && NextOk(next, lens, n)
    ensures lens[n] == 0 ==> NextOk(next, lens, n + 1)
    ensures lens[n] > 0 ==> next[lens[n]] == CodeValue(lens, n)
    ensures lens[n] > 0 ==> NextOk(next[lens[n] := next[lens[n]] + 1], lens, n + 1)
  {
    assert lens[..n + 1][..n] == lens[..n];
  }

  method GiveCode(l: nat, n: nat, ghost lens: seq<nat>, next: array<nat>, code: array<nat>)
    requires next != code && n < |lens| && l == lens[n] && n < code.Length
    requires Fits(lens, MAX_BITS) && NextOk(next[..], lens, n)
    modifies next, code
    ensures NextOk(next[..], lens, n + 1)
    ensures l > 0 ==> HasCode(lens, code[n], n)
    ensures forall i :: 0 <= i < code.Length && i != n ==> code[i] == old(code[i])
  {
    NextStep(next[..], lens, n);
    if l != 0 {
      CodeFits(lens, MAX_BITS, n);
      var c := BiReverse(next[l], l);
      code[n] := c;
      next[l] := next[l] + 1;
    }
  }

  /** Give codes to all symbols 0..maxCode of non-zero length. */
  method Generate(len: array<nat>, code: array<nat>, blCount: array<nat>, maxCode: nat)
    requires code != len && code != blCount && maxCode < len.Length <= code.Length
    requires IsHistogram(blCount[..], len[..maxCode + 1]) && Fits(len[..maxCode + 1], MAX_BITS)
    modifies code
    ensures HasCodes(len[..maxCode + 1], code[..])
    ensures forall n :: maxCode < n < code.Length ==> code[n] == old(code[n])
  {
    ghost var lens := len[..maxCode + 1];
    var next := NextCodes(blCount, lens);
    var n := 0;
    while n <= maxCode
      invariant 0 <= n <= maxCode + 1
      invariant len[..maxCode + 1] == lens
      invariant NextOk(next[..], lens, n)
      invariant forall i :: 0 <= i < n && lens[i] > 0 ==> HasCode(lens, code[i], i)
      invariant forall i :: maxCode < i < code.Length ==> code[i] == old(code[i])
    {
      assert len[n] == lens[n];
      GiveCode(len[n], n, lens, next, code);
      n := n + 1;
    }
  }
}
