/**
 * The table's input file stream: an immutable byte sequence and a read position
 * that every seek and read moves.
 */
module FileStream {
  import opened Bytes

  class Stream {
    const data: seq<u8>
    var pos: nat

    /** The stream as `std::ios::binary | std::ios::ate` opens it: positioned at the end. */
    constructor (file: seq<u8>)
      ensures data == file && pos == |file|
    {
      data := file;
      pos := |file|;
    }

    method Seek(p: nat)
      modifies this
      ensures pos == p
    {
      pos := p;
    }

    /** An unchecked read of `n` bytes into a caller's buffer. */
    method ReadInto(buffer: array<u8>, n: nat)
      requires n <= buffer.Length
      requires pos + n <= |data|
      modifies this, buffer
      ensures pos == old(pos) + n
      ensures buffer[..n] == data[old(pos) .. old(pos) + n]
      ensures buffer[n..] == old(buffer[n..])
    {
      forall i | 0 <= i < n {
        buffer[i] := data[pos + i];
      }
      pos := pos + n;
    }

    /**
     * A checked read of `n` bytes: it fails, leaving the stream at its end,
     * when fewer than `n` bytes remain.
     */
    method Read(n: nat) returns (ok: bool, bytes: seq<u8>)
      modifies this
      ensures ok <==> old(pos) + n <= |data|
      ensures ok ==> bytes == data[old(pos) .. old(pos) + n] && pos == old(pos) + n
      ensures !ok ==> pos == |data|
    {
      if pos + n <= |data| {
        ok, bytes := true, data[pos .. pos + n];
        pos := pos + n;
      } else {
        ok, bytes := false, [];
        pos := |data|;
      }
    }
  }
}
