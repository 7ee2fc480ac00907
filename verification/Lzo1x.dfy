/** A decoder for LZO1X streams: the reference lzo1x_optimize is proved against. */
module Lzo1x {
  import opened Bits
  import opened Rfc1951

  /** What came last: a match without literals (or nothing), a long literal run, or one
      to three literals.  It decides what an opcode below 16 means. */
  datatype State = Top | AfterRun | AfterShort

  datatype Op = Lits(count: nat) | Copies(length: nat, distance: nat, trailing: nat) | Eof

  /** A length continued in further bytes: 255 for each zero byte, then the first
      other byte.  Gives the sum and the number of bytes. */
  function Extended(b: seq<byte>): (r: Option<(nat, nat)>)
    ensures r.Some? ==> 1 <= r.value.1 <= |b| && 1 <= r.value.0
    decreases |b|
  {
    if b == [] then None
    else if b[0] != 0 then Some((b[0], 1))
    else match Extended(b[1..])
      case None => None
      case Some((v, n)) => Some((255 + v, n + 1))
  }

  /** A length held in an opcode, or behind it when the opcode's field is 0. */
  function Length(field: nat, most: nat, b: seq<byte>): (r: Option<(nat, nat)>)
    requires |b| >= 1
    ensures r.Some? ==> 1 <= r.value.1 <= |b| && 1 <= r.value.0
  {
    if field != 0 then Some((field, 1))
    else match Extended(b[1..])
      case None => None
      case Some((v, n)) => Some((most + v, n + 1))
  }

  /** A two-byte match: distance and trailing literals are in the opcode t too. */
  function ShortMatch(length: nat, base: nat, t: byte, b: seq<byte>): (r: Option<(Op, nat)>)
    requires |b| >= 1
  {
    if |b| < 2 then None else Some((Copies(length, base + t / 4 + 4 * (b[1] as int), t % 4), 2))
  }

  function M2(t: byte, b: seq<byte>): (r: Option<(Op, nat)>)
    requires |b| >= 1 && t >= 64
  {
    if |b| < 2 then None else Some((Copies(t / 32 + 1, 1 + t / 4 % 8 + 8 * (b[1] as int), t % 4), 2))
  }

  /** A match whose distance is in the last two of its bytes. */
  function LongMatch(length: Option<(nat, nat)>, b: seq<byte>, base: nat): (r: Option<(Op, nat)>)
    requires length.Some? ==> 1 <= length.value.1 <= |b|
  {
    match length
    case None => None
    case Some((l, n)) =>
      if |b| < n + 2 then None else Some((Copies(l + 2, base + b[n] / 4 + 64 * (b[n + 1] as int), b[n] % 4), n + 2))
  }

  /** Distance 0 in an M4 match marks the end of the stream; other distances begin
      beyond 0x4000. */
  function M4(r: Option<(Op, nat)>): (o: Option<(Op, nat)>)
  {
    match r
    case Some((Copies(l, d, k), n)) => if d == 0 then Some((Eof, n)) else Some((Copies(l, d + 0x4000, k), n))
    case _ => None
  }

  /** The next operation and the number of bytes it takes. */
  function Parse(st: State, b: seq<byte>): (r: Option<(Op, nat)>)
    ensures r.Some? ==> 1 <= r.value.1 <= |b|
    ensures r.Some? && r.value.0.Copies? ==> 2 <= r.value.1 && 1 <= r.value.0.distance && r.value.0.trailing <= 3
  {
    if b == [] then None
    else
      var t := b[0];
      if t >= 64 then M2(t, b)
      else if t >= 32 then LongMatch(Length(t % 32, 31, b), b, 1)
      else if t >= 16 then M4(LongMatch(Length(t % 8, 7, b), b, if t / 8 % 2 == 1 then 0x4000 else 0))
      else match st
        case Top => (match Length(t, 15, b) case None => None case Some((l, n)) => Some((Lits(l + 3), n)))
        case AfterRun => ShortMatch(3, 0x801, t, b)
        case AfterShort => ShortMatch(2, 1, t, b)
  }

  function After(trailing: nat): (st: State)
  {
    if trailing == 0 then Top else AfterShort
  }

  /** The output of the stream b, which must end with the end marker, when decoding is
      in state st and has produced `out`. */
  function Decode(st: State, b: seq<byte>, out: seq<byte>): (r: Option<seq<byte>>)
    decreases |b|
  {
    match Parse(st, b)
    case None => None
    case Some((Eof, n)) => if n == |b| then Some(out) else None
    case Some((Lits(k), n)) => if n + k > |b| then None else Decode(AfterRun, b[n + k..], out + b[n..n + k])
    case Some((Copies(l, d, k), n)) =>
      if d > |out| || n + k > |b| then None else Decode(After(k), b[n + k..], Copy(out, l, d) + b[n..n + k])
  }

  /** A whole stream; a first byte above 17 stands for a literal run. */
  function DecodeStream(b: seq<byte>): (r: Option<seq<byte>>)
  {
    if b != [] && b[0] > 17 then
      var t := b[0] - 17;
      if 1 + t > |b| then None else Decode(if t < 4 then AfterShort else AfterRun, b[1 + t..], b[1..1 + t])
    else Decode(Top, b, [])
  }
}
