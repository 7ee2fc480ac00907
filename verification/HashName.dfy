/** hash_name of count_masked_bytes/main.c: a path component is hashed a word at a time,
    up to the first '/' or NUL. */
module HashName {
  const ONE_BITS: bv64 := 0x0101010101010101
  const HIGH_BITS: bv64 := 0x8080808080808080
  const SLASHES: bv64 := 0x2f2f2f2f2f2f2f2f

  // ---- Words ----

  /** Bytes as a little-endian word, zeros behind them. */
  function Pack(b: seq<bv8>): (w: bv64)
    decreases |b|
  {
    if b == [] then 0 else (b[0] as bv64) | (Pack(b[1..]) << 8)
  }

  /** The byte at i; loads beyond the end of memory give zeros. */
  function ByteAt(mem: seq<bv8>, i: nat): (b: bv8)
  {
    if i < |mem| then mem[i] else 0
  }

  /** load_unaligned_zeropad. */
  function Load(mem: seq<bv8>, at: nat): (w: bv64)
  {
    Pack(Bytes(mem, at))
  }

  function Bytes(mem: seq<bv8>, at: nat): (b: seq<bv8>)
    ensures |b| == 8 && forall i {:trigger b[i]} :: 0 <= i < 8 ==> b[i] == ByteAt(mem, at + i)
  {
    seq(8, i requires 0 <= i < 8 => ByteAt(mem, at + i))
  }

  predicate Stops(b: bv8) { b == 0 || b == 0x2f }

  /** has_zero: a marker on every zero byte, and perhaps on bytes above the first. */
  function HasZero(a: bv64): (bits: bv64)
  {
    ((a - ONE_BITS) & !a) & HIGH_BITS
  }

  /** create_zero_mask: the bits of the bytes below the lowest marker. */
  function CreateZeroMask(bits: bv64): (mask: bv64)
  {
    ((bits - 1) & !bits) >> 7
  }

  function CountMaskedBytes(mask: bv64): (n: bv64)
  {
    (mask * 0x0001020304050608) >> 56
  }

  function Markers(a: bv64): (bits: bv64)
  {
    HasZero(a) | HasZero(a ^ SLASHES)
  }

  /** Byte i of a word. */
  function Byte(a: bv64, i: nat): (b: bv64)
    requires i < 8
  {
    if i == 0 then a & 0xff else if i == 1 then (a >> 8) & 0xff else if i == 2 then (a >> 16) & 0xff
    else if i == 3 then (a >> 24) & 0xff
    else if i == 4 then (a >> 32) & 0xff else if i == 5 then (a >> 40) & 0xff else if i == 6 then (a >> 48) & 0xff
    else a >> 56
  }

  predicate StopAt(a: bv64, i: nat)
    requires i < 8
  {
    Byte(a, i) == 0 || Byte(a, i) == 0x2f
  }

  /** The bits of the first k bytes. */
  function LowBytes(k: nat): (mask: bv64)
    requires k < 8
  {
    if k == 0 then 0 else if k == 1 then 0xff else if k == 2 then 0xffff else if k == 3 then 0xff_ffff
    else if k == 4 then 0xffff_ffff else if k == 5 then 0xff_ffff_ffff else if k == 6 then 0xffff_ffff_ffff
    else 0xff_ffff_ffff_ffff
  }

  /** Byte k is the first stop of the word. */
  predicate FirstStop(a: bv64, k: nat)
    requires k < 8
  {
    && StopAt(a, k) && (k > 0 ==> !StopAt(a, 0)) && (k > 1 ==> !StopAt(a, 1)) && (k > 2 ==> !StopAt(a, 2))
       && (k > 3 ==> !StopAt(a, 3))
    && (k > 4 ==> !StopAt(a, 4)) && (k > 5 ==> !StopAt(a, 5)) && (k > 6 ==> !StopAt(a, 6))
  }

  /** There are markers exactly if there is a stop. */
  lemma SomeMarker(a: bv64)
    ensures Markers(a) == 0 <==> !StopAt(a, 0) && !StopAt(a, 1) && !StopAt(a, 2) && !StopAt(a, 3) && !StopAt(a, 4)
                                 && !StopAt(a, 5) && !StopAt(a, 6) && !StopAt(a, 7)
  {
  }

  /** False markers above the first stop do not show in the mask. */
  lemma MaskBelow(a: bv64, k: nat)
    requires k < 8 && FirstStop(a, k)
    ensures CreateZeroMask(Markers(a)) == LowBytes(k)
  {
    if k == 0 {
    } else if k == 1 {
    } else if k == 2 {
    } else if k == 3 {
    } else if k == 4 {
    } else if k == 5 {
    } else if k == 6 {
    } else {
    }
  }

  lemma CountsBytes(k: nat)
    requires k < 8
    ensures CountMaskedBytes(LowBytes(k)) as int == k
  {
  }

  // ---- Bytes of a packed word ----

  lemma ShiftedByte(b: bv8, w: bv64, i: nat)
    requires i < 7
    ensures Byte((b as bv64) | (w << 8), i + 1) == Byte(w, i)
  {
  }

  lemma LowestByte(b: bv8, w: bv64)
    ensures Byte((b as bv64) | (w << 8), 0) == b as bv64
  {
  }

  lemma {:induction false} PackedByte(b: seq<bv8>, i: nat)
    requires i < |b| <= 8
    ensures Byte(Pack(b), i) == b[i] as bv64
    decreases |b|
  {
    hide Byte;
    if i == 0 {
      LowestByte(b[0], Pack(b[1..]));
    } else {
      PackedByte(b[1..], i - 1);
      ShiftedByte(b[0], Pack(b[1..]), i - 1);
    }
  }

  lemma MaskShifted(b: bv8, w: bv64, k: nat)
    requires 0 < k < 8
    ensures ((b as bv64) | (w << 8)) & LowBytes(k) == (b as bv64) | ((w & LowBytes(k - 1)) << 8)
  {
  }

  lemma PackIs(b: seq<bv8>)
    requires b != []
    ensures Pack(b) == (b[0] as bv64) | (Pack(b[1..]) << 8)
  {
  }

  lemma PackNone(w: bv64, b: seq<bv8>)
    requires b == []
    ensures w & LowBytes(0) == Pack(b)
  {
  }

  /** Masking a word keeps its first k bytes. */
  lemma {:induction false} MaskedPack(b: seq<bv8>, k: nat)
    requires k < 8 && k <= |b| <= 8
    ensures Pack(b) & LowBytes(k) == Pack(b[..k])
    decreases |b|
  {
    hide LowBytes, Pack;
    if k > 0 {
      MaskedPack(b[1..], k - 1);
      MaskShifted(b[0], Pack(b[1..]), k);
      assert b[..k][1..] == b[1..][..k - 1];
      PackIs(b);
      PackIs(b[..k]);
    } else {
      PackNone(Pack(b), b[..0]);
    }
  }

  // ---- The hash ----

  datatype State = State(x: bv64, y: bv64)

  function Rol64(w: bv64, shift: nat): (r: bv64)
    requires 0 < shift < 64
  {
    (w << shift) | (w >> (64 - shift))
  }

  function Xor(v: bv64, w: bv64): (r: bv64) { v ^ w }

  function Plus(v: bv64, w: bv64): (r: bv64) { v + w }

  function Nine(w: bv64): (r: bv64) { w * 9 }

  function Golden(w: bv64): (r: bv64) { w * 0x61C8864680B583EB }

  /** HASH_MIX. */
  function Mix(s: State, a: bv64): (r: State)
  {
    var x := Xor(s.x, a);
    var y := Xor(s.y, x);
    State(Plus(Rol64(x, 12), y), Nine(Rol64(y, 45)))
  }

  function FoldHash(s: State): (h: bv64)
  {
    Golden(Xor(s.y, Golden(s.x))) >> 32
  }

  function Ror64(w: bv64, shift: nat): (r: bv64)
    requires 0 < shift < 64
  {
    (w >> shift) | (w << (64 - shift))
  }

  // Each operation in its own words; elsewhere they are taken as they are.

  lemma XorIs(v: bv64, w: bv64)
    ensures Xor(v, w) == v ^ w
  {
  }

  lemma PlusIs(v: bv64, w: bv64)
    ensures Plus(v, w) == v + w
  {
  }

  lemma MinusOf(v: bv64, w: bv64)
    ensures Minus(v + w, w) == v
  {
  }

  lemma NineIs(w: bv64)
    ensures Nine(w) == w * 9
  {
  }

  lemma GoldenOf(w: bv64)
    ensures Golden(w * 0x0e217c1e66c88cc3) == w
  {
  }

  lemma UngoldenIs(w: bv64)
    ensures Ungolden(w) == w * 0x0e217c1e66c88cc3
  {
  }

  lemma RolRor(w: bv64)
    ensures Ror64(Rol64(w, 12), 12) == w && Ror64(Rol64(w, 45), 45) == w
  {
  }

  lemma RolTells(v: bv64, w: bv64)
    ensures (Rol64(v, 12) == Rol64(w, 12) ==> v == w) && (Rol64(v, 45) == Rol64(w, 45) ==> v == w)
  {
    hide Rol64, Ror64;
    RolRor(v);
    RolRor(w);
  }

  lemma NineTells(v: bv64, w: bv64)
    requires Nine(v) == Nine(w)
    ensures v == w
  {
  }

  ghost function Minus(v: bv64, w: bv64): (r: bv64) { v - w }

  lemma PlusMinus(v: bv64, u: bv64)
    ensures Minus(Plus(v, u), u) == v
  {
    hide Plus, Minus;
    PlusIs(v, u);
    MinusOf(v, u);
  }

  lemma PlusTells(u: bv64, v: bv64, w: bv64)
    requires Plus(v, u) == Plus(w, u)
    ensures v == w
  {
    hide Plus, Minus;
    PlusMinus(v, u);
    PlusMinus(w, u);
  }

  lemma XorTells(u: bv64, v: bv64, w: bv64)
    ensures Xor(u, v) == Xor(u, w) ==> v == w
    ensures Xor(v, u) == Xor(w, u) ==> v == w
  {
  }

  /** The mixed state tells the word: names that differ in a word differ in the state after
      it.  And what follows does not undo it: different states mix with a word to different
      states. */
  lemma MixTells(s: State, a: bv64, t: State, b: bv64)
    requires Mix(s, a) == Mix(t, b)
    ensures s == t <==> a == b
  {
    hide Rol64, Nine, Plus, Xor;
    var x, u := Xor(s.x, a), Xor(t.x, b);
    var y, v := Xor(s.y, x), Xor(t.y, u);
    NineTells(Rol64(y, 45), Rol64(v, 45));
    RolTells(y, v);
    PlusTells(y, Rol64(x, 12), Rol64(u, 12));
    RolTells(x, u);
    XorTells(x, s.y, t.y);
    XorTells(s.x, a, b);
    XorTells(a, s.x, t.x);
  }

  /** The word whose product with the golden ratio is w. */
  ghost function Ungolden(w: bv64): (r: bv64) { w * 0x0e217c1e66c88cc3 }

  lemma GoldenUndone(w: bv64)
    ensures Golden(Ungolden(w)) == w
  {
    hide Golden, Ungolden;
    UngoldenIs(w);
    GoldenOf(w);
  }

  lemma XorUndone(v: bv64, w: bv64)
    ensures Xor(Xor(v, w), w) == v && Xor(w, Xor(v, w)) == v
  {
  }

  /** Both halves of the state decide the hash: whatever one half is, the upper half of any
      word comes out for some other half. */
  lemma FoldReaches(x: bv64, y: bv64, w: bv64)
    ensures FoldHash(State(x, Xor(Ungolden(w), Golden(x)))) == w >> 32
    ensures FoldHash(State(Ungolden(Xor(Ungolden(w), y)), y)) == w >> 32
  {
    hide Golden, Ungolden, Xor;
    var z := Ungolden(w);
    GoldenUndone(w);
    XorUndone(z, Golden(x));
    GoldenUndone(Xor(z, y));
    XorUndone(z, y);
  }

  /** The hash of a component: whole words are mixed in, the rest is added to x. */
  function Digest(s: State, p: seq<bv8>): (r: State)
    decreases |p|
  {
    if |p| < 8 then State(Xor(s.x, Pack(p)), s.y) else Digest(Mix(s, Pack(p[..8])), p[8..])
  }

  /** The index of the first '/' or NUL from i on. */
  function End(mem: seq<bv8>, i: nat): (e: nat)
    requires i <= |mem|
    ensures i <= e <= |mem| && (e < |mem| ==> Stops(mem[e])) && forall j :: i <= j < e ==> !Stops(mem[j])
    decreases |mem| - i
  {
    if i == |mem| || Stops(mem[i]) then i else End(mem, i + 1)
  }

  /** The name up to there. */
  function Component(mem: seq<bv8>): (p: seq<bv8>)
  {
    mem[..End(mem, 0)]
  }

  lemma LoadedByte(mem: seq<bv8>, at: nat, i: nat)
    requires i < 8
    ensures StopAt(Load(mem, at), i) <==> Stops(ByteAt(mem, at + i))
  {
    hide Byte, Pack;
    PackedByte(Bytes(mem, at), i);
  }

  lemma LoadedStops(mem: seq<bv8>, at: nat, e: nat)
    requires at <= |mem| && e == End(mem, at)
    ensures Markers(Load(mem, at)) == 0 <==> e >= at + 8
    ensures e < at + 8 ==> FirstStop(Load(mem, at), e - at)
  {
    hide Byte, Load, Markers, StopAt;
    SomeMarker(Load(mem, at));
    forall i | 0 <= i < 8 ensures (at + i < e ==> !StopAt(Load(mem, at), i))
    && (at + i == e ==> StopAt(Load(mem, at), i)) {
      LoadedByte(mem, at, i);
    }
    if e < at + 8 { assert StopAt(Load(mem, at), e - at); }
  }

  /** The mask at the end of the word loop. */
  lemma LastMask(mem: seq<bv8>, p: seq<bv8>, len: nat, k: nat, a: bv64, mask: bv64)
    requires p == Component(mem) && len <= |p| && End(mem, len) == |p| && k == |p| - len
    requires a == Load(mem, len) && Markers(a) != 0 && mask == CreateZeroMask(Markers(a))
    ensures k < 8 && mask == LowBytes(k) && a & mask == Pack(p[len..])
  {
    hide Pack, Load, Markers, CreateZeroMask, LowBytes, FirstStop;
    LoadedStops(mem, len, |p|);
    MaskBelow(a, k);
    LastWord(mem, p, len, k);
  }

  lemma DigestEnd(s: State, p: seq<bv8>)
    requires |p| < 8
    ensures Digest(s, p) == State(Xor(s.x, Pack(p)), s.y)
  {
  }

  method HashMix(s: State, a: bv64) returns (r: State)
    ensures r == Mix(s, a)
  {
    hide Rol64, Nine, Plus, Xor;
    var x, y := s.x, s.y;
    XorIs(x, a);
    x := x ^ a;
    XorIs(y, x);
    y := y ^ x;
    x := Rol64(x, 12);
    PlusIs(x, y);
    x := x + y;
    y := Rol64(y, 45);
    NineIs(y);
    y := y * 9;
    r := State(x, y);
  }

  /** The end of the word loop: what is left of the component is added, and counted. */
  method Finish(s: State, a: bv64, mem: seq<bv8>, len: nat, ghost p: seq<bv8>) returns (hash: bv64, res: nat)
    requires p == Component(mem) && len <= |p| && End(mem, len) == |p| && a == Load(mem, len) && Markers(a) != 0
    ensures len + res == |p| && hash == FoldHash(Digest(s, p[len..]))
  {
    hide Pack, Load, Markers, FoldHash, CreateZeroMask, LowBytes, CountMaskedBytes, Digest, End, Component;
    ghost var k := |p| - len;
    var mask := CreateZeroMask(Markers(a));
    LastMask(mem, p, len, k, a, mask);
    CountsBytes(k);
    DigestEnd(s, p[len..]);
    hash := FoldHash(State(Xor(s.x, a & mask), s.y));
    res := CountMaskedBytes(mask) as int;
  }

  /** hash_name: the component's length is len plus the bytes the mask counts, and the
      hash depends on the salt and the component alone. */
  method HashOf(salt: bv64, mem: seq<bv8>) returns (hash: bv64, len: nat, res: nat)
    ensures len + res == |Component(mem)|
    ensures hash == FoldHash(Digest(State(0, salt), Component(mem)))
  {
    hide Pack, Load, Markers, FoldHash, Mix, FirstStop, Digest, End;
    ghost var p := Component(mem);
    assert p[0..] == p;
    var s := State(0, salt);
    len := 0;
    var a := Load(mem, 0);
    while Markers(a) == 0
      invariant len <= |mem| && End(mem, len) == |p| && a == Load(mem, len)
      invariant len <= |p| && Digest(s, p[len..]) == Digest(State(0, salt), p)
      decreases |mem| - len
    {
      LoadedStops(mem, len, |p|);
      WholeWord(mem, p, len);
      DigestStep(s, p, len);
      s := HashMix(s, a);
      len := len + 8;
      a := Load(mem, len);
    }
    hash, res := Finish(s, a, mem, len, p);
  }

  lemma WholeWord(mem: seq<bv8>, p: seq<bv8>, len: nat)
    requires p == Component(mem) && len <= |mem| && End(mem, len) == |p| && len + 8 <= |p|
    ensures Load(mem, len) == Pack(p[len..][..8]) && End(mem, len + 8) == |p|
  {
    hide Pack;
    forall i | 0 <= i < 8 ensures Bytes(mem, len)[i] == p[len..][..8][i] {
      assert p[len..][..8][i] == p[len + i] == mem[len + i];
    }
    assert Bytes(mem, len) == p[len..][..8];
    EndFrom(mem, len, len + 8);
  }

  lemma {:induction false} EndFrom(mem: seq<bv8>, i: nat, j: nat)
    requires i <= |mem| && i <= j <= End(mem, i)
    ensures End(mem, j) == End(mem, i)
    decreases j - i
  {
    if i < j { EndFrom(mem, i + 1, j); }
  }

  lemma DigestStep(s: State, p: seq<bv8>, len: nat)
    requires len + 8 <= |p|
    ensures Digest(s, p[len..]) == Digest(Mix(s, Pack(p[len..][..8])), p[len + 8..])
  {
    hide Mix, Pack;
    assert p[len..][8..] == p[len + 8..];
  }

  lemma LastWord(mem: seq<bv8>, p: seq<bv8>, len: nat, k: nat)
    requires p == Component(mem) && len <= |p| && k == |p| - len < 8
    ensures Load(mem, len) & LowBytes(k) == Pack(p[len..])
  {
    hide Pack, LowBytes;
    MaskedPack(Bytes(mem, len), k);
    forall i | 0 <= i < k ensures Bytes(mem, len)[..k][i] == p[len..][i] {
      assert p[len..][i] == p[len + i] == mem[len + i];
    }
    assert Bytes(mem, len)[..k] == p[len..];
  }

  // ---- The hash tells names apart ----

  lemma PackTells(p: seq<bv8>, q: seq<bv8>)
    requires |p| == |q| <= 8 && Pack(p) == Pack(q)
    ensures p == q
  {
    hide Pack, Byte;
    forall i | 0 <= i < |p| ensures p[i] == q[i] {
      PackedByte(p, i);
      PackedByte(q, i);
      Widened(p[i], q[i]);
    }
  }

  lemma Widened(b: bv8, c: bv8)
    requires b as bv64 == c as bv64
    ensures b == c
  {
  }

  /** What follows never makes different states equal again. */
  lemma {:induction false} DigestKeeps(s: State, t: State, p: seq<bv8>)
    requires s != t
    ensures Digest(s, p) != Digest(t, p)
    decreases |p|
  {
    hide Pack, Mix, Xor;
    if |p| < 8 {
      XorTells(Pack(p), s.x, t.x);
    } else {
      var w := Pack(p[..8]);
      if Mix(s, w) == Mix(t, w) { MixTells(s, w, t, w); }
      DigestKeeps(Mix(s, w), Mix(t, w), p[8..]);
    }
  }

  /** Names of one length that differ in one word only have different states before the
      fold, wherever the word is. */
  lemma {:induction false} DigestTells(s: State, p: seq<bv8>, q: seq<bv8>, k: nat)
    requires |p| == |q| && p != q && forall i :: 0 <= i < |p| && p[i] != q[i] ==> 8 * k <= i < 8 * k + 8
    ensures Digest(s, p) != Digest(s, q)
    decreases |p|
  {
    hide Pack, Mix, Xor;
    if |p| < 8 {
      if Pack(p) == Pack(q) { PackTells(p, q); }
      XorTells(s.x, Pack(p), Pack(q));
    } else if k > 0 {
      assert p[..8] == q[..8];
      assert p == p[..8] + p[8..] && q == q[..8] + q[8..];
      DigestTells(Mix(s, Pack(p[..8])), p[8..], q[8..], k - 1);
    } else {
      assert p[8..] == q[8..];
      assert p == p[..8] + p[8..] && q == q[..8] + q[8..];
      var v, w := Pack(p[..8]), Pack(q[..8]);
      if v == w { PackTells(p[..8], q[..8]); }
      if Mix(s, v) == Mix(s, w) { MixTells(s, v, s, w); }
      DigestKeeps(Mix(s, v), Mix(s, w), p[8..]);
    }
  }
}
