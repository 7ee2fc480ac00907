/** Bit strings, the numbers they stand for, and the bitwise operators gzip.c
    uses, written over unbounded naturals. */
module Bits {

  type byte = b: int | 0 <= b < 256
  type Bits = seq<bool>

  datatype Option<+T> = None | Some(value: T)

  /** The same condition.  Around a predicate of many conjuncts in a contract it makes the
      verifier take the predicate in one piece at the call, and unfold it only where a
      proof needs its parts; proofs get much cheaper by it. */
  predicate Whole(b: bool) { b == true }

  function Pow2(n: nat): (r: nat)
    ensures r >= 1
  {
    if n == 0 then 1 else 2 * Pow2(n - 1)
  }

  lemma {:induction false} Pow2Monotone(m: nat, n: nat)
    requires m <= n
    ensures Pow2(m) <= Pow2(n)
  {
    if m < n { Pow2Monotone(m, n - 1); }
  }

  lemma Pow2Values()
    ensures Pow2(3) == 8 && Pow2(5) == 32 && Pow2(7) == 128 && Pow2(8) == 256
    ensures Pow2(10) == 1024 && Pow2(13) == 8192 && Pow2(15) == 32768 && Pow2(16) == 65536
  {
    assert Pow2(3) == 8;
    assert Pow2(5) == 4 * Pow2(3);
    assert Pow2(7) == 4 * Pow2(5);
    assert Pow2(8) == 2 * Pow2(7);
    assert Pow2(10) == 4 * Pow2(8);
    assert Pow2(12) == 4 * Pow2(10);
    assert Pow2(13) == 2 * Pow2(12);
    assert Pow2(15) == 4 * Pow2(13);
    assert Pow2(16) == 2 * Pow2(15);
  }

  /** The low n bits of v, least significant bit first (section 3.1.1 of RFC 1951). */
  function ToBits(v: nat, n: nat): (b: Bits)
    ensures |b| == n
  {
    if n == 0 then [] else [v % 2 == 1] + ToBits(v / 2, n - 1)
  }

  /** The number a bit string stands for, least significant bit first. */
  function FromBits(b: Bits): (v: nat)
    decreases |b|
  {
    if b == [] then 0 else (if b[0] then 1 else 0) + 2 * FromBits(b[1..])
  }

  /** The low n bits of v, most significant bit first, as Huffman codes are packed. */
  function MsbBits(v: nat, n: nat): (b: Bits)
    ensures |b| == n
  {
    if n == 0 then [] else MsbBits(v / 2, n - 1) + [v % 2 == 1]
  }

  lemma {:induction false} FromToBits(v: nat, n: nat)
    requires v < Pow2(n)
    ensures FromBits(ToBits(v, n)) == v
  {
    if n > 0 {
      FromToBits(v / 2, n - 1);
      assert ToBits(v, n)[1..] == ToBits(v / 2, n - 1);
    }
  }

  /** v << k. */
  function Shl(v: nat, k: nat): (r: nat)
  {
    if k == 0 then v else 2 * Shl(v, k - 1)
  }

  /** v >> k. */
  function Shr(v: nat, k: nat): (r: nat)
  {
    if k == 0 then v else Shr(v / 2, k - 1)
  }

  /** The low k bits of v, as truncation to a k-bit word keeps them. */
  function Low(v: nat, k: nat): (r: nat)
    ensures r < Pow2(k)
  {
    if k == 0 then 0 else v % 2 + 2 * Low(v / 2, k - 1)
  }

  lemma {:induction false} SplitLow(v: nat, k: nat)
    ensures v == Low(v, k) + Shl(Shr(v, k), k)
  {
    if k > 0 { SplitLow(v / 2, k - 1); }
  }

  lemma {:induction false} LowOfSmall(v: nat, k: nat)
    requires v < Pow2(k)
    ensures Low(v, k) == v
  {
    if k > 0 { LowOfSmall(v / 2, k - 1); }
  }

  lemma {:induction false} ShrBound(v: nat, k: nat, n: nat)
    requires k <= n && v < Pow2(n)
    ensures Shr(v, k) < Pow2(n - k)
  {
    if k > 0 { ShrBound(v / 2, k - 1, n - 1); }
  }

  lemma {:induction false} LowShl(v: nat, k: nat, n: nat)
    requires k <= n
    ensures Low(Shl(v, k), n) == Shl(Low(v, n - k), k)
  {
    if k > 0 { LowShl(v, k - 1, n - 1); }
  }

  lemma {:induction false} ShlBound(v: nat, k: nat, n: nat)
    requires v < Pow2(n)
    ensures Shl(v, k) + Pow2(k) <= Pow2(n + k)
  {
    if k > 0 { ShlBound(v, k - 1, n); } else { assert n + k == n; }
  }

  /** Gluing two bit fields: the low field first. */
  lemma {:induction false} ToBitsConcat(a: nat, m: nat, b: nat, n: nat)
    requires a < Pow2(m)
    ensures ToBits(a + Shl(b, m), m + n) == ToBits(a, m) + ToBits(b, n)
  {
    if m > 0 {
      var v := a + Shl(b, m);
      assert v / 2 == a / 2 + Shl(b, m - 1) && v % 2 == a % 2;
      ToBitsConcat(a / 2, m - 1, b, n);
      assert [a % 2 == 1] + (ToBits(a / 2, m - 1) + ToBits(b, n)) == [a % 2 == 1] + ToBits(a / 2, m - 1) + ToBits(b, n);
    } else {
      assert ToBits(a, m) + ToBits(b, n) == ToBits(b, n);
    }
  }

  /** The bits of a byte string, byte by byte, low bit first. */
  function BytesToBits(s: seq<byte>): (b: Bits)
    ensures |b| == 8 * |s|
  {
    if s == [] then [] else ToBits(s[0], 8) + BytesToBits(s[1..])
  }

  lemma {:induction false} BytesToBitsConcat(s: seq<byte>, t: seq<byte>)
    ensures BytesToBits(s + t) == BytesToBits(s) + BytesToBits(t)
  {
    if s == [] {
      assert s + t == t;
    } else {
      BytesToBitsConcat(s[1..], t);
      assert (s + t)[1..] == s[1..] + t;
      assert ToBits(s[0], 8) + (BytesToBits(s[1..]) + BytesToBits(t)) == BytesToBits(s) + BytesToBits(t);
    }
  }

  lemma BytesToBitsOne(b: byte)
    ensures BytesToBits([b]) == ToBits(b, 8)
  {
    assert [b][1..] == [];
    assert BytesToBits([b]) == ToBits(b, 8) + [];
  }

  lemma Assoc<T>(a: seq<T>, b: seq<T>, c: seq<T>)
    ensures a + (b + c) == (a + b) + c
  {
  }

  lemma InitAppend<T>(s: seq<T>, after: seq<T>)
    requires s != []
    ensures s[..|s| - 1] + ([s[|s| - 1]] + after) == s + after
  {
  }

  /** Bitwise or. */
  function Or(a: nat, b: nat): (r: nat)
    decreases a + b
  {
    if a == 0 then b else if b == 0 then a
    else (if a % 2 == 1 || b % 2 == 1 then 1 else 0) + 2 * Or(a / 2, b / 2)
  }

  /** Bitwise exclusive or. */
  function Xor(a: nat, b: nat): (r: nat)
    decreases a + b
  {
    if a == 0 && b == 0 then 0 else (a % 2 + b % 2) % 2 + 2 * Xor(a / 2, b / 2)
  }

  /** Or-ing a field into the zero bits above another is adding it. */
  lemma {:induction false} OrDisjoint(a: nat, m: nat, b: nat)
    requires a < Pow2(m)
    ensures Or(a, Shl(b, m)) == a + Shl(b, m)
  {
    if a > 0 && Shl(b, m) > 0 {
      OrDisjoint(a / 2, m - 1, b);
    }
  }
}
