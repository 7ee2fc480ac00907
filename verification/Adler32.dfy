/** lzo_adler32 of lzop.c: one modulus for up to 5552 bytes. */
module Adler32 {
  import opened Bits

  const BASE: nat := 65521
  const NMAX: nat := 5552
  const WORD: nat := 0x1_0000_0000

  /** Section 8.2 of RFC 1950: both sums modulo BASE after every byte. */
  datatype Sums = Sums(s1: nat, s2: nat)

  function Step(s: Sums, b: byte): (r: Sums)
    ensures r.s1 < BASE && r.s2 < BASE
  {
    var a := (s.s1 + b) % BASE;
    Sums(a, (s.s2 + a) % BASE)
  }

  function Reference(s: Sums, data: seq<byte>): (r: Sums)
    decreases |data|
  {
    if data == [] then s else Step(Reference(s, data[..|data| - 1]), data[|data| - 1])
  }

  lemma {:induction false} ReferenceConcat(s: Sums, a: seq<byte>, b: seq<byte>)
    ensures Reference(s, a + b) == Reference(Reference(s, a), b)
    decreases |b|
  {
    if b == [] {
      assert a + b == a;
    } else {
      assert (a + b)[..|a + b| - 1] == a + b[..|b| - 1];
      ReferenceConcat(s, a, b[..|b| - 1]);
    }
  }

  /** Without any modulus. */
  function Raw(s: Sums, data: seq<byte>): (r: Sums)
    decreases |data|
  {
    if data == [] then s
    else
      var p := Raw(s, data[..|data| - 1]);
      var a := p.s1 + data[|data| - 1];
      Sums(a, p.s2 + a)
  }

  lemma {:induction false} ModShift(q: nat, z: nat)
    ensures (q * BASE + z) % BASE == z % BASE
    decreases q
  {
    if q > 0 {
      ModShift(q - 1, z);
      assert q * BASE + z == (q - 1) * BASE + z + BASE;
    }
  }

  lemma ModAdd(x: nat, y: nat)
    ensures (x + y) % BASE == (x % BASE + y) % BASE
  {
    ModShift(x / BASE, x % BASE + y);
  }

  /** Sums that agree modulo BASE. */
  predicate Agree(p: Sums, q: Sums)
  {
    p.s1 % BASE == q.s1 % BASE && p.s2 % BASE == q.s2 % BASE
  }

  lemma AgreeStep(p: Sums, q: Sums, b: byte)
    requires Agree(p, q)
    ensures Step(q, b) == Sums((p.s1 + b) % BASE, (p.s2 + (p.s1 + b)) % BASE)
  {
    ModAdd(p.s1, b);
    ModAdd(q.s1, b);
    var a, c := p.s1 + b, (q.s1 + b) % BASE;
    ModAdd(p.s2, a);
    ModAdd(a, p.s2 % BASE);
    ModAdd(q.s2, c);
  }

  /** The unreduced sums agree with the reduced ones modulo BASE. */
  lemma {:induction false} RawAgrees(s: Sums, data: seq<byte>)
    ensures Agree(Raw(s, data), Reference(s, data))
    ensures data != [] ==> Reference(s, data) == Sums(Raw(s, data).s1 % BASE, Raw(s, data).s2 % BASE)
    decreases |data|
  {
    if data != [] {
      var init, b := data[..|data| - 1], data[|data| - 1];
      RawAgrees(s, init);
      AgreeStep(Raw(s, init), Reference(s, init), b);
    }
  }

  /** n bytes add at most this much to the second sum, which starts below `top` with a
      first sum below `top`. */
  function Most(n: nat, top: nat): (m: nat)
  {
    if n == 0 then top else Most(n - 1, top) + top + 255 * n
  }

  lemma {:induction false} RawBound(s: Sums, data: seq<byte>, top: nat)
    requires s.s1 <= top && s.s2 <= top
    ensures Raw(s, data).s1 <= top + 255 * |data| && Raw(s, data).s2 <= Most(|data|, top)
    decreases |data|
  {
    if data != [] { RawBound(s, data[..|data| - 1], top); }
  }

  lemma {:induction false} MostIs(n: nat, top: nat)
    ensures 2 * Most(n, top) == 2 * (n + 1) * top + 255 * n * (n + 1)
  {
    if n > 0 {
      MostIs(n - 1, top);
      MostStep(n, top);
    }
  }

  lemma MostStep(n: nat, top: nat)
    requires n > 0
    ensures 2 * n * top + 255 * (n - 1) * n + 2 * top + 510 * n == 2 * (n + 1) * top + 255 * n * (n + 1)
  {
    assert 255 * n * (n + 1) - 255 * (n - 1) * n == 510 * n by { Product(n); }
  }

  lemma Product(n: nat)
    requires n > 0
    ensures 255 * n * (n + 1) - 255 * (n - 1) * n == 510 * n
  {
    assert n * (n + 1) == n * n + n && (n - 1) * n == n * n - n;
  }

  /** NMAX bytes do not overflow 32 bits, whatever 16-bit sums they start from. */
  lemma NoOverflow(s: Sums, data: seq<byte>)
    requires s.s1 < 65536 && s.s2 < 65536 && |data| <= NMAX
    ensures Raw(s, data).s1 < WORD && Raw(s, data).s2 < WORD
  {
    RawBound(s, data, 65535);
    MostMonotone(|data|, NMAX, 65535);
    MostIs(NMAX, 65535);
  }

  lemma {:induction false} MostMonotone(m: nat, n: nat, top: nat)
    requires m <= n
    ensures Most(m, top) <= Most(n, top)
    decreases n
  {
    if m < n { MostMonotone(m, n - 1, top); }
  }

  /** Bytes of 255 reach the bound. */
  lemma {:induction false} RawOfLargest(n: nat, top: nat)
    ensures Raw(Sums(top, top), seq(n, _ => 255)) == Sums(top + 255 * n, Most(n, top))
  {
    if n > 0 {
      RawOfLargest(n - 1, top);
      assert seq(n, _ => 255)[..n - 1] == seq(n - 1, _ => 255);
    }
  }

  /** NMAX is the largest number of bytes that cannot overflow for sums below BASE: one
      more, all 255, does. */
  lemma OneMoreOverflows()
    ensures forall s: Sums, data: seq<byte> {:trigger Raw(s, data)} ::
              s.s1 < BASE && s.s2 < BASE && |data| <= NMAX ==> Raw(s, data).s2 < WORD
    ensures Raw(Sums(BASE - 1, BASE - 1), seq(NMAX + 1, _ => 255)).s2 >= WORD
  {
    hide Raw, Most;
    forall s: Sums, data: seq<byte> | s.s1 < BASE && s.s2 < BASE && |data| <= NMAX ensures Raw(s, data).s2 < WORD {
      NoOverflow(s, data);
    }
    RawOfLargest(NMAX + 1, BASE - 1);
    MostIs(NMAX + 1, BASE - 1);
  }

  /** Up to NMAX bytes from position p on, without a modulus. */
  method AddChunk(data: seq<byte>, p: nat, k: nat, s0: Sums) returns (s: Sums)
    requires p + k <= |data| && k <= NMAX && s0.s1 < 65536 && s0.s2 < 65536
    ensures s == Raw(s0, data[p..p + k]) && s.s1 < WORD && s.s2 < WORD
  {
    s := s0;
    var i := 0;
    assert data[p..p] == [];
    while i < k
      invariant 0 <= i <= k && s == Raw(s0, data[p..p + i])
    {
      var part := data[p..p + i + 1];
      assert part[..|part| - 1] == data[p..p + i];
      NoOverflow(s0, part);
      // Neither addition leaves 32 bits.
      var a := s.s1 + data[p + i];
      assert a < WORD && s.s2 + a < WORD;
      s := Sums(a, s.s2 + a);
      i := i + 1;
    }
    NoOverflow(s0, data[p..p + k]);
  }

  function Unpack(adler: nat): (s: Sums)
    requires adler < WORD
    ensures s.s1 < 65536 && s.s2 < 65536
  {
    Sums(adler % 65536, adler / 65536)
  }

  function Pack(s: Sums): (adler: nat)
    requires s.s1 < 65536 && s.s2 < 65536
    ensures adler < WORD && Unpack(adler) == s
  {
    s.s2 * 65536 + s.s1
  }

  /** The loop of lzo_adler32, for any starting value. */
  method Checksum(adler: nat, data: seq<byte>) returns (r: nat)
    requires adler < WORD
    ensures r < WORD && Unpack(r) == Reference(Unpack(adler), data)
  {
    var s, done := Unpack(adler), 0;
    assert data[..0] == [];
    while done < |data|
      invariant 0 <= done <= |data| && s == Reference(Unpack(adler), data[..done]) && s.s1 < 65536 && s.s2 < 65536
      decreases |data| - done
    {
      var k := if |data| - done < NMAX then |data| - done else NMAX;
      var part := data[done..done + k];
      var raw := AddChunk(data, done, k, s);
      RawAgrees(s, part);
      ReferenceConcat(Unpack(adler), data[..done], part);
      assert data[..done] + part == data[..done + k];
      s := Sums(raw.s1 % BASE, raw.s2 % BASE);
      done := done + k;
    }
    assert data[..done] == data;
    r := Pack(s);
  }

  /** lzo_adler32: without a buffer it gives the initial value. */
  method LzoAdler32(adler: nat, buf: Option<seq<byte>>) returns (r: nat)
    requires adler < WORD
    ensures r < WORD && (buf.None? ==> r == 1) && (buf.Some? ==> Unpack(r) == Reference(Unpack(adler), buf.value))
  {
    if buf.None? {
      return 1;
    }
    r := Checksum(adler, buf.value);
  }

  /** add_bytes_to_chksum, piece after piece: the checksum is that of the whole. */
  method InPieces(pieces: seq<seq<byte>>) returns (r: nat)
    ensures r < WORD && Unpack(r) == Reference(Sums(1, 0), Concatenated(pieces))
  {
    r := 1;
    var i := 0;
    while i < |pieces|
      invariant 0 <= i <= |pieces| && r < WORD && Unpack(r) == Reference(Sums(1, 0), Concatenated(pieces[..i]))
    {
      r := LzoAdler32(r, Some(pieces[i]));
      ReferenceConcat(Sums(1, 0), Concatenated(pieces[..i]), pieces[i]);
      assert pieces[..i + 1][..i] == pieces[..i];
      i := i + 1;
    }
    assert pieces[..i] == pieces;
  }

  function Concatenated(pieces: seq<seq<byte>>): (data: seq<byte>)
    decreases |pieces|
  {
    if pieces == [] then [] else Concatenated(pieces[..|pieces| - 1]) + pieces[|pieces| - 1]
  }
}
