/** UPDATE_HASH of gzip.c: a rolling hash that remembers exactly three bytes. */
module Hashing {
  import opened Bits

  const HASH_BITS: nat := 13
  const HASH_SIZE: nat := 8192
  const H_SHIFT: nat := 5

  /** h << H_SHIFT ^ c, cut to HASH_BITS bits. */
  function Update(h: nat, c: nat): (r: nat)
    ensures r < Pow2(HASH_BITS)
  {
    Low(Xor(Shl(h, H_SHIFT), c), HASH_BITS)
  }

  /** The hash of a string of three bytes. */
  function Hash(a: byte, b: byte, c: byte): (h: nat)
    ensures h < HASH_SIZE
  {
    Pow2Values();
    Update(Update(Update(0, a), b), c)
  }

  lemma {:induction false} XorCancel(y: nat, c: nat, d: nat, k: nat)
    requires Low(Xor(y, c), k) == Low(Xor(y, d), k)
    ensures Low(c, k) == Low(d, k)
    decreases k
  {
    hide Xor;
    if k > 0 {
      XorHalf(y, c);
      XorHalf(y, d);
      XorCancel(y / 2, c / 2, d / 2, k - 1);
    }
  }

  lemma XorHalf(a: nat, b: nat)
    ensures Xor(a, b) / 2 == Xor(a / 2, b / 2) && Xor(a, b) % 2 == (a % 2 + b % 2) % 2
  {
  }

  lemma {:induction false} XorLow(x: nat, y: nat, c: nat, k: nat)
    requires Low(x, k) == Low(y, k)
    ensures Low(Xor(x, c), k) == Low(Xor(y, c), k)
    decreases k
  {
    hide Xor;
    if k > 0 {
      XorHalf(x, c);
      XorHalf(y, c);
      XorLow(x / 2, y / 2, c / 2, k - 1);
    }
  }

  lemma {:induction false} LowLow(x: nat, k: nat, n: nat)
    requires k <= n
    ensures Low(Low(x, n), k) == Low(x, k)
    decreases k
  {
    if k > 0 {
      LowLow(x / 2, k - 1, n - 1);
    }
  }

  /** Hashes that agree in their low k bits agree in five more after an update. */
  lemma UpdateAgrees(g: nat, h: nat, c: nat, k: nat, n: nat, shift: nat, bits: nat)
    requires Low(g, k) == Low(h, k) && n <= k + shift && n <= bits && shift <= n
    ensures Low(Low(Xor(Shl(g, shift), c), bits), n) == Low(Low(Xor(Shl(h, shift), c), bits), n)
  {
    LowLow(g, n - shift, k);
    LowLow(h, n - shift, k);
    LowShl(g, shift, n);
    LowShl(h, shift, n);
    XorLow(Shl(g, shift), Shl(h, shift), c, n);
    LowLow(Xor(Shl(g, shift), c), n, bits);
    LowLow(Xor(Shl(h, shift), c), n, bits);
  }

  /** After three updates nothing is left of the hash before. */
  lemma Forgets(g: nat, h: nat, a: byte, b: byte, c: byte, shift: nat, bits: nat)
    requires shift == H_SHIFT && bits == HASH_BITS
    ensures Update(Update(Update(g, a), b), c) == Update(Update(Update(h, a), b), c)
  {
    UpdateAgrees(g, h, a, 0, shift, shift, bits);
    var g1, h1 := Update(g, a), Update(h, a);
    UpdateAgrees(g1, h1, b, shift, 2 * shift, shift, bits);
    var g2, h2 := Update(g1, b), Update(h1, b);
    UpdateAgrees(g2, h2, c, 2 * shift, bits, shift, bits);
    LowOfSmall(Update(g2, c), bits);
    LowOfSmall(Update(h2, c), bits);
  }

  /** Strings with equal hashes and two equal bytes are equal in the third. */
  lemma ThirdByte(a: byte, b: byte, c: byte, d: byte, bits: nat)
    requires Hash(a, b, c) == Hash(a, b, d) && bits == HASH_BITS
    ensures c == d
  {
    Pow2Values();
    XorCancel(Shl(Update(Update(0, a), b), H_SHIFT), c, d, bits);
    LowOfSmall(c, bits);
    LowOfSmall(d, bits);
  }

  /** insH has taken in a and b: updating it with any c gives the hash of a, b, c. */
  ghost predicate Primed(insH: nat, a: byte, b: byte)
  {
    forall c: byte {:trigger Update(insH, c)} :: Update(insH, c) == Hash(a, b, c)
  }

  lemma PrimedBy(g: nat, a: byte, b: byte, insH: nat)
    requires insH == Update(Update(g, a), b)
    ensures Primed(insH, a, b)
  {
    forall c: byte ensures Update(insH, c) == Hash(a, b, c) {
      Forgets(g, 0, a, b, c, H_SHIFT, HASH_BITS);
    }
  }

  lemma PrimedNext(insH: nat, a: byte, b: byte, c: byte)
    requires Primed(insH, a, b)
    ensures Update(insH, c) == Hash(a, b, c) && Primed(Hash(a, b, c), b, c)
  {
    PrimedBy(Update(0, a), b, c, Hash(a, b, c));
  }
}
