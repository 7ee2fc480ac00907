/** Canonical Huffman codes: lengths that do not oversubscribe the code space give
    codes that fit their length and none of which starts another, so the
    decoder of Rfc1951 recovers every symbol. */
module Canonical {
  import opened Bits
  import opened Rfc1951

  /** Codes of up to b bits, counted in units of one b-bit code.  The Kraft sum
      of the lengths is CodeEnd(lens, b) / 2^b when no length exceeds b. */
  function CodeEnd(lens: seq<nat>, b: nat): (e: nat)
  {
    FirstCode(lens, b) + if b == 0 then 0 else Count(lens, b)
  }

  /** All lengths are at most max and the code space is not oversubscribed. */
  ghost predicate Fits(lens: seq<nat>, max: nat)
  {
    (forall s :: 0 <= s < |lens| ==> lens[s] <= max) && CodeEnd(lens, max) <= Pow2(max)
  }

  lemma {:induction false} CodeEndBound(lens: seq<nat>, b: nat, max: nat)
    requires b <= max && CodeEnd(lens, max) <= Pow2(max)
    ensures CodeEnd(lens, b) <= Pow2(b)
    decreases max - b
  {
    if b < max {
      CodeEndBound(lens, b + 1, max);
      assert CodeEnd(lens, b + 1) == 2 * CodeEnd(lens, b) + Count(lens, b + 1);
    }
  }

  lemma {:induction false} CountPrefix(lens: seq<nat>, s: nat, t: nat, b: nat)
    requires s < t <= |lens|
    ensures Count(lens[..s], b) <= Count(lens[..t], b)
    ensures lens[s] == b ==> Count(lens[..s], b) < Count(lens[..t], b)
    decreases t
  {
    assert lens[..t][..t - 1] == lens[..t - 1];
    if s + 1 < t { CountPrefix(lens, s, t - 1, b); }
  }

  lemma CodeBelowEnd(lens: seq<nat>, s: nat)
    requires s < |lens| && lens[s] > 0
    ensures FirstCode(lens, lens[s]) <= CodeValue(lens, s) < CodeEnd(lens, lens[s])
  {
    CountPrefix(lens, s, |lens|, lens[s]);
    assert lens[..|lens|] == lens;
  }

  /** Every code fits in its length. */
  lemma CodeFits(lens: seq<nat>, max: nat, s: nat)
    requires Fits(lens, max) && s < |lens| && lens[s] > 0
    ensures CodeValue(lens, s) < Pow2(lens[s])
  {
    CodeBelowEnd(lens, s);
    CodeEndBound(lens, lens[s], max);
  }

  lemma {:induction false} ShrMonotone(v: nat, w: nat, k: nat)
    requires v <= w
    ensures Shr(v, k) <= Shr(w, k)
  {
    if k > 0 { ShrMonotone(v / 2, w / 2, k - 1); }
  }

  /** The codes of b bits all lie below the codes of any longer length. */
  lemma {:induction false} LongerCodesAbove(lens: seq<nat>, a: nat, b: nat)
    requires 0 < a < b
    ensures CodeEnd(lens, a) <= Shr(FirstCode(lens, b), b - a)
    decreases b
  {
    var half := CodeEnd(lens, b - 1);
    assert FirstCode(lens, b) / 2 == half;
    assert Shr(FirstCode(lens, b), b - a) == Shr(half, b - a - 1);
    if a + 1 < b {
      LongerCodesAbove(lens, a, b - 1);
      ShrMonotone(FirstCode(lens, b - 1), half, b - 1 - a);
    }
  }

  lemma {:induction false} MsbPrefix(v: nat, n: nat, k: nat)
    requires k <= n
    ensures MsbBits(v, n)[..k] == MsbBits(Shr(v, n - k), k)
  {
    if k < n {
      MsbPrefix(v / 2, n - 1, k);
      assert MsbBits(v, n)[..k] == MsbBits(v / 2, n - 1)[..k];
    } else {
      assert MsbBits(v, n)[..n] == MsbBits(v, n);
    }
  }

  lemma {:induction false} MsbInjective(v: nat, w: nat, n: nat)
    requires v < Pow2(n) && w < Pow2(n) && MsbBits(v, n) == MsbBits(w, n)
    ensures v == w
  {
    if n > 0 {
      var x, y := MsbBits(v, n), MsbBits(w, n);
      assert x[n - 1] == (v % 2 == 1) && y[n - 1] == (w % 2 == 1);
      assert x[..n - 1] == MsbBits(v / 2, n - 1) && y[..n - 1] == MsbBits(w / 2, n - 1);
      MsbInjective(v / 2, w / 2, n - 1);
    }
  }

  /** No code starts another. */
  lemma PrefixFree(lens: seq<nat>, max: nat, s: nat, t: nat)
    requires Fits(lens, max) && s < |lens| && t < |lens| && s != t
    requires 0 < lens[s] <= lens[t]
    ensures Codeword(lens, t)[..lens[s]] != Codeword(lens, s)
  {
    var a, b := lens[s], lens[t];
    var v, w := CodeValue(lens, s), CodeValue(lens, t);
    CodeFits(lens, max, s);
    CodeFits(lens, max, t);
    ShrBound(w, b - a, b);
    MsbPrefix(w, b, a);
    assert v != Shr(w, b - a) by {
      CodeBelowEnd(lens, s);
      CodeBelowEnd(lens, t);
      if a < b {
        LongerCodesAbove(lens, a, b);
        ShrMonotone(FirstCode(lens, b), w, b - a);
      } else {
        CountPrefix(lens, if s < t then s else t, if s < t then t else s, a);
      }
    }
    if Codeword(lens, t)[..a] == Codeword(lens, s) {
      MsbInjective(v, Shr(w, b - a), a);
    }
  }

  lemma {:induction false} FindsSymbol(lens: seq<nat>, max: nat, s: nat, rest: Bits, from: nat)
    requires Fits(lens, max) && from <= s < |lens| && lens[s] > 0
    ensures FindSymbol(lens, Codeword(lens, s) + rest, from) == Some((s, rest))
    decreases s - from
  {
    var bits := Codeword(lens, s) + rest;
    if from == s {
      assert bits[lens[s]..] == rest;
    } else {
      if lens[from] > 0 {
        if lens[from] <= lens[s] {
          assert bits[..lens[from]] == Codeword(lens, s)[..lens[from]];
          PrefixFree(lens, max, from, s);
        } else {
          assert bits[..lens[s]] == Codeword(lens, s);
          assert Codeword(lens, from) <= bits ==> Codeword(lens, from)[..lens[s]] == bits[..lens[s]];
          PrefixFree(lens, max, s, from);
        }
      }
      FindsSymbol(lens, max, s, rest, from + 1);
    }
  }

  /** Decoding inverts the code: the symbol comes back, and so do the bits after it. */
  lemma DecodesSymbol(lens: seq<nat>, max: nat, s: nat, rest: Bits)
    requires Fits(lens, max) && s < |lens| && lens[s] > 0
    ensures DecodeSymbol(lens, Codeword(lens, s) + rest) == Some((s, rest))
  {
    FindsSymbol(lens, max, s, rest, 0);
  }
}
