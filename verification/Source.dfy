/** Files that are read piece by piece. */
module Sources {
  import opened Bits

  /** The input file.  Each read gives some bytes, as many as `chunk` says at most,
      and none only at the end of the file. */
  class Source {
    const input: seq<byte>
    const chunk: nat -> nat
    var pos: nat
    var calls: nat

    constructor (input: seq<byte>, chunk: nat -> nat)
      ensures this.input == input && pos == 0
    {
      this.input, this.chunk, pos, calls := input, chunk, 0, 0;
    }

    /** file_read. */
    method Read(buf: array<byte>, off: nat, size: nat) returns (n: nat)
      requires pos <= |input| && 1 <= size && off + size <= buf.Length
      modifies this, buf
      ensures n <= size && pos == old(pos) + n <= |input| && (n == 0 <==> old(pos) == |input|)
      ensures buf[..off] == old(buf[..off]) && buf[off..off + n] == input[old(pos)..pos]
              && buf[off + n..] == old(buf[off + n..])
    {
      n := if chunk(calls) == 0 then 1 else chunk(calls);
      n := if n > size then size else n;
      n := if n > |input| - pos then |input| - pos else n;
      calls := calls + 1;
      forall i | 0 <= i < n {
        buf[off + i] := input[pos + i];
      }
      pos := pos + n;
    }
  }
}
