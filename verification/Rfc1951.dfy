/** A decoder for the DEFLATE format, written from RFC 1951 alone.  It is the
    reference the compressor is proved against and shares no code with it. */
module Rfc1951 {
  import opened Bits

  datatype Token = Literal(value: byte) | Match(length: nat, distance: nat)

  // ---- Section 3.2.2: canonical Huffman codes from code lengths ----

  function Count(lens: seq<nat>, b: nat): (n: nat)
    ensures n <= |lens|
  {
    if lens == [] then 0
    else Count(lens[..|lens| - 1], b) + if lens[|lens| - 1] == b then 1 else 0
  }

  /** Smallest code of b bits: the RFC's next_code before any code is given out. */
  function FirstCode(lens: seq<nat>, b: nat): (c: nat)
  {
    if b == 0 then 0
    else 2 * (FirstCode(lens, b - 1) + if b == 1 then 0 else Count(lens, b - 1))
  }

  function CodeValue(lens: seq<nat>, s: nat): (c: nat)
    requires s < |lens|
  {
    FirstCode(lens, lens[s]) + Count(lens[..s], lens[s])
  }

  function Codeword(lens: seq<nat>, s: nat): (b: Bits)
    requires s < |lens|
    ensures |b| == lens[s]
  {
    MsbBits(CodeValue(lens, s), lens[s])
  }

  /** The first symbol from s on whose code starts the bits, and what follows it. */
  function FindSymbol(lens: seq<nat>, bits: Bits, s: nat): (r: Option<(nat, Bits)>)
    requires s <= |lens|
    ensures r.Some? ==> r.value.0 < |lens| && |r.value.1| < |bits|
    decreases |lens| - s
  {
    if s == |lens| then None
    else if lens[s] > 0 && Codeword(lens, s) <= bits then Some((s, bits[lens[s]..]))
    else FindSymbol(lens, bits, s + 1)
  }

  function DecodeSymbol(lens: seq<nat>, bits: Bits): (r: Option<(nat, Bits)>)
    ensures r.Some? ==> r.value.0 < |lens| && |r.value.1| < |bits|
  {
    FindSymbol(lens, bits, 0)
  }

  function ReadBits(bits: Bits, n: nat): (r: Option<(nat, Bits)>)
    ensures r.Some? ==> |r.value.1| <= |bits|
  {
    if |bits| < n then None else Some((FromBits(bits[..n]), bits[n..]))
  }

  // ---- Section 3.2.5: length and distance codes ----

  /** Extra bits of length code 257 + c. */
  function LengthExtra(c: nat): (n: nat)
  {
    if c < 8 || c >= 28 then 0 else c / 4 - 1
  }

  /** Shortest length of code 257 + c: the ranges follow each other, except that
      length 258 has the last code to itself. */
  function LengthBase(c: nat): (n: nat)
  {
    if c == 0 then 3 else if c >= 28 then 258 else LengthBase(c - 1) + Pow2(LengthExtra(c - 1))
  }

  function DistExtra(c: nat): (n: nat)
  {
    if c < 4 then 0 else c / 2 - 1
  }

  function DistBase(c: nat): (n: nat)
  {
    if c == 0 then 1 else DistBase(c - 1) + Pow2(DistExtra(c - 1))
  }

  /** The distance half of a match: a distance code and its extra bits. */
  function DecodeDistance(dlens: seq<nat>, bits: Bits): (r: Option<(nat, Bits)>)
    ensures r.Some? ==> |r.value.1| < |bits|
  {
    match DecodeSymbol(dlens, bits)
    case None => None
    case Some((d, rest)) =>
      if d >= 30 then None
      else match ReadBits(rest, DistExtra(d))
        case None => None
        case Some((x, rest2)) => Some((DistBase(d) + x, rest2))
  }

  /** A match whose length symbol (257 + l) has been read. */
  function DecodeMatch(dlens: seq<nat>, l: nat, bits: Bits): (r: Option<(Token, Bits)>)
    requires l < 29
    ensures r.Some? ==> |r.value.1| < |bits|
  {
    match ReadBits(bits, LengthExtra(l))
    case None => None
    case Some((x, rest)) =>
      match DecodeDistance(dlens, rest)
      case None => None
      case Some((dist, rest2)) => Some((Match(LengthBase(l) + x, dist), rest2))
  }

  /** Section 3.2.3: the tokens of a compressed block, up to the end-of-block symbol. */
  function DecodeTokens(llens: seq<nat>, dlens: seq<nat>, bits: Bits): (r: Option<(seq<Token>, Bits)>)
    ensures r.Some? ==> |r.value.1| < |bits|
    decreases |bits|
  {
    match DecodeSymbol(llens, bits)
    case None => None
    case Some((s, rest)) =>
      if s == 256 then Some(([], rest))
      else if s < 256 then Prepend(Literal(s), DecodeTokens(llens, dlens, rest))
      else if s > 285 then None
      else match DecodeMatch(dlens, s - 257, rest)
        case None => None
        case Some((t, rest2)) => Prepend(t, DecodeTokens(llens, dlens, rest2))
  }

  function Prepend<T>(t: T, r: Option<(seq<T>, Bits)>): (p: Option<(seq<T>, Bits)>)
    ensures p.Some? <==> r.Some?
    ensures p.Some? ==> p.value.1 == r.value.1
  {
    match r
    case None => None
    case Some((ts, rest)) => Some(([t] + ts, rest))
  }

  // ---- LZ77: what the tokens stand for ----

  /** Copy `length` bytes from `distance` back, one at a time, so that a match
      may overlap the bytes it produces. */
  function Copy(out: seq<byte>, length: nat, distance: nat): (r: seq<byte>)
    requires 1 <= distance <= |out|
    decreases length
  {
    if length == 0 then out else Copy(out + [out[|out| - distance]], length - 1, distance)
  }

  function ExpandToken(out: seq<byte>, t: Token): (r: Option<seq<byte>>)
  {
    match t
    case Literal(b) => Some(out + [b])
    case Match(length, distance) =>
      if 1 <= distance <= |out| then Some(Copy(out, length, distance)) else None
  }

  function Expand(out: seq<byte>, ts: seq<Token>): (r: Option<seq<byte>>)
    decreases |ts|
  {
    if ts == [] then Some(out)
    else match ExpandToken(out, ts[0])
      case None => None
      case Some(o) => Expand(o, ts[1..])
  }

  // ---- Section 3.2.7: code lengths of a dynamic block ----

  const CL_ORDER: seq<nat> := [16, 17, 18, 0, 8, 7, 9, 6, 10, 5, 11, 4, 12, 3, 13, 2, 14, 1, 15]

  /** The first n code length code lengths, three bits each, in header order. */
  function ReadClLens(bits: Bits, n: nat): (r: Option<(seq<nat>, Bits)>)
    ensures r.Some? ==> |r.value.0| == n && |r.value.1| <= |bits|
    decreases n
  {
    if n == 0 then Some(([], bits))
    else match ReadBits(bits, 3)
      case None => None
      case Some((x, rest)) => Prepend(x, ReadClLens(rest, n - 1))
  }

  /** Code length code lengths by symbol: position i of the header is symbol CL_ORDER[i]. */
  function Unpermute(sent: seq<nat>): (lens: seq<nat>)
    requires |sent| <= 19
    ensures |lens| == 19
  {
    seq(19, s requires 0 <= s < 19 => SentLength(sent, s, 0))
  }

  function SentLength(sent: seq<nat>, s: nat, i: nat): (l: nat)
    requires i <= |sent| <= 19
    decreases |sent| - i
  {
    if i == |sent| then 0 else if CL_ORDER[i] == s then sent[i] else SentLength(sent, s, i + 1)
  }

  function Repeat(x: nat, n: nat): (r: seq<nat>)
    ensures |r| == n
  {
    seq(n, i => x)
  }

  /** Read code lengths until `total` of them are known. */
  function DecodeLens(cl: seq<nat>, bits: Bits, have: seq<nat>, total: nat): (r: Option<(seq<nat>, Bits)>)
    ensures r.Some? ==> |r.value.0| == total && |r.value.1| <= |bits|
    decreases |bits|
  {
    if |have| == total then Some((have, bits))
    else if |have| > total then None
    else match DecodeSymbol(cl, bits)
      case None => None
      case Some((s, rest)) =>
        if s < 16 then DecodeLens(cl, rest, have + [s], total)
        else if s > 18 || (s == 16 && have == []) then None
        else match ReadBits(rest, if s == 16 then 2 else if s == 17 then 3 else 7)
          case None => None
          case Some((x, rest2)) =>
            var run := if s == 16 then Repeat(have[|have| - 1], 3 + x)
                       else if s == 17 then Repeat(0, 3 + x) else Repeat(0, 11 + x);
            DecodeLens(cl, rest2, have + run, total)
  }

  /** The code length code and the lengths coded with it: hlit literal/length
      lengths followed by hdist distance lengths. */
  function DecodeTrees(hlit: nat, hdist: nat, hclen: nat, bits: Bits): (r: Option<(seq<nat>, seq<nat>, Bits)>)
    ensures r.Some? ==> |r.value.2| <= |bits|
  {
    if hclen > 19 then None
    else match ReadClLens(bits, hclen)
      case None => None
      case Some((sent, rest)) =>
        match DecodeLens(Unpermute(sent), rest, [], hlit + hdist)
        case None => None
        case Some((lens, rest2)) => Some((lens[..hlit], lens[hlit..], rest2))
  }

  function DecodeHclen(hlit: nat, hdist: nat, bits: Bits): (r: Option<(seq<nat>, seq<nat>, Bits)>)
    ensures r.Some? ==> |r.value.2| <= |bits|
  {
    match ReadBits(bits, 4)
    case None => None
    case Some((x, rest)) => DecodeTrees(hlit, hdist, x + 4, rest)
  }

  function DecodeHdist(hlit: nat, bits: Bits): (r: Option<(seq<nat>, seq<nat>, Bits)>)
    ensures r.Some? ==> |r.value.2| <= |bits|
  {
    match ReadBits(bits, 5)
    case None => None
    case Some((x, rest)) => DecodeHclen(hlit, x + 1, rest)
  }

  /** The literal/length and distance code lengths of a dynamic block: HLIT, HDIST,
      HCLEN, then the trees. */
  function DecodeHeader(bits: Bits): (r: Option<(seq<nat>, seq<nat>, Bits)>)
    ensures r.Some? ==> |r.value.2| <= |bits|
  {
    match ReadBits(bits, 5)
    case None => None
    case Some((x, rest)) => DecodeHdist(x + 257, rest)
  }

  // ---- Section 3.2.6: fixed codes ----

  function FixedLength(s: nat): (l: nat)
  {
    if s <= 143 then 8 else if s <= 255 then 9 else if s <= 279 then 7 else 8
  }

  function FixedLitLens(): (lens: seq<nat>)
    ensures |lens| == 288 && forall s :: 0 <= s < 288 ==> lens[s] == FixedLength(s)
  {
    seq(288, s requires 0 <= s < 288 => FixedLength(s))
  }

  function FixedDistLens(): (lens: seq<nat>)
    ensures |lens| == 32 && forall s :: 0 <= s < 32 ==> lens[s] == 5
  {
    seq(32, s => 5)
  }

  // ---- Sections 3.2.3 and 3.2.4: blocks ----

  function Padding(pos: nat): (p: nat)
    ensures p < 8 && (pos + p) % 8 == 0
  {
    (8 - pos % 8) % 8
  }

  function ReadBytes(bits: Bits, n: nat): (r: Option<(seq<byte>, Bits)>)
    ensures r.Some? ==> |r.value.1| <= |bits|
    decreases n
  {
    if n == 0 then Some(([], bits))
    else if |bits| < 8 then None
    else
      FromBitsBound(bits[..8]);
      Prepend(FromBits(bits[..8]), ReadBytes(bits[8..], n - 1))
  }

  lemma FromBitsBound(b: Bits)
    requires |b| == 8
    ensures FromBits(b) < 256
  {
    assert FromBits(b[7..]) < 2 by { assert b[7..][1..] == []; }
    assert FromBits(b[6..]) < 4 by { assert b[6..][1..] == b[7..]; }
    assert FromBits(b[5..]) < 8 by { assert b[5..][1..] == b[6..]; }
    assert FromBits(b[4..]) < 16 by { assert b[4..][1..] == b[5..]; }
    assert FromBits(b[3..]) < 32 by { assert b[3..][1..] == b[4..]; }
    assert FromBits(b[2..]) < 64 by { assert b[2..][1..] == b[3..]; }
    assert FromBits(b[1..]) < 128 by { assert b[1..][1..] == b[2..]; }
  }

  /** A stored block from bit position pos on: padding, LEN, NLEN, LEN bytes. */
  function DecodeStored(pos: nat, bits: Bits): (r: Option<(seq<byte>, Bits)>)
    ensures r.Some? ==> |r.value.1| <= |bits|
  {
    if |bits| < Padding(pos) then None
    else match ReadBits(bits[Padding(pos)..], 16)
      case None => None
      case Some((len, b1)) =>
        match ReadBits(b1, 16)
        case None => None
        case Some((nlen, b2)) => if len + nlen != 65535 then None else ReadBytes(b2, len)
  }

  function AfterTokens(final: bool, out: seq<byte>, r: Option<(seq<Token>, Bits)>): (a: Option<(bool, Bits, seq<byte>)>)
    ensures a.Some? ==> r.Some? && a.value.1 == r.value.1
  {
    match r
    case None => None
    case Some((ts, rest)) =>
      match Expand(out, ts)
      case None => None
      case Some(o) => Some((final, rest, o))
  }

  /** One block starting at bit position pos: its BFINAL flag, the bits after it, and
      the output so far extended by what the block stands for. */
  function DecodeBlock(pos: nat, bits: Bits, out: seq<byte>): (r: Option<(bool, Bits, seq<byte>)>)
    ensures r.Some? ==> |r.value.1| < |bits|
  {
    if |bits| < 3 then None
    else
      var final, kind, rest := bits[0], FromBits(bits[1..3]), bits[3..];
      if kind == 0 then
        match DecodeStored(pos + 3, rest)
        case None => None
        case Some((data, b)) => Some((final, b, out + data))
      else if kind == 1 then
        AfterTokens(final, out, DecodeTokens(FixedLitLens(), FixedDistLens(), rest))
      else if kind == 2 then
        match DecodeHeader(rest)
        case None => None
        case Some((llens, dlens, b)) => AfterTokens(final, out, DecodeTokens(llens, dlens, b))
      else None
  }

  /** Decode blocks until one is marked final.  Gives the output and the bits left. */
  function Inflate(pos: nat, bits: Bits, out: seq<byte>): (r: Option<(seq<byte>, Bits)>)
    decreases |bits|
  {
    match DecodeBlock(pos, bits, out)
    case None => None
    case Some((final, rest, o)) =>
      if final then Some((o, rest)) else Inflate(pos + |bits| - |rest|, rest, o)
  }
}
