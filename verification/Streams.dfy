/**
 * Byte streams as the workers see them. A reader may deliver its content in pieces of any size and may
 * fail at any time; what a method promises about a reader it promises for every such behaviour.
 */
module Streams {
  import opened Bytes

  datatype IoError = Io | UnexpectedEof

  class Reader {
    /** What the peer has yet to deliver before the end of the stream. */
    var rest: seq<u8>
    /** Whether a read has failed. */
    var broken: bool
    /** The bytes of every read that delivered some. */
    ghost var chunks: seq<seq<u8>>

    constructor (content: seq<u8>)
      ensures rest == content && !broken && chunks == []
    {
      rest, broken, chunks := content, false, [];
    }

    /** `Read::read` into `buffer[from..to]`: zero means an empty slice or the end of the stream. */
    method Read(buffer: array<u8>, from: nat, to: nat) returns (r: Result<nat, IoError>)
      requires from <= to <= buffer.Length
      modifies this, buffer
      ensures buffer[..from] == old(buffer[..from])
      ensures broken == (old(broken) || r.Failure?)
      ensures r.Failure? ==> r.error == Io && rest == old(rest)
      ensures r.Success? ==> r.value <= to - from && r.value <= |old(rest)|
      ensures r.Success? ==> buffer[from..from + r.value] == old(rest)[..r.value] && rest == old(rest)[r.value..]
      ensures chunks == old(chunks) + if r.Success? && r.value > 0 then [old(rest)[..r.value]] else []
      ensures r.Success? && r.value == 0 ==> from == to || old(rest) == []
    {
      if * {
        broken := true;
        return Failure(Io);
      }
      if from == to || rest == [] {
        return Success(0);
      }
      var n: nat :| 1 <= n <= to - from && n <= |rest|;
      for i := 0 to n
        invariant rest == old(rest) && broken == old(broken) && chunks == old(chunks)
        invariant buffer[..from] == old(buffer[..from]) && buffer[from..from + i] == rest[..i]
      {
        buffer[from + i] := rest[i];
      }
      chunks := chunks + [rest[..n]];
      rest := rest[n..];
      return Success(n);
    }

    /** `Read::read_exact`. */
    method ReadExact(n: nat) returns (r: Result<seq<u8>, IoError>)
      modifies this
      ensures broken == (old(broken) || r == Failure(Io))
      ensures r.Success? ==> n <= |old(rest)| && r.value == old(rest)[..n] && rest == old(rest)[n..]
      ensures r.Failure? && r.error == UnexpectedEof ==> |old(rest)| < n && rest == []
    {
      var buffer := new u8[n](i => 0);
      var cursor := 0;
      while cursor < n
        invariant cursor <= n && cursor <= |old(rest)| && broken == old(broken)
        invariant buffer[..cursor] == old(rest)[..cursor] && rest == old(rest)[cursor..]
        decreases n - cursor
      {
        var read := Read(buffer, cursor, n);
        if read.Failure? {
          return Failure(Io);
        }
        if read.value == 0 {
          return Failure(UnexpectedEof);
        }
        assert buffer[..cursor + read.value] == buffer[..cursor] + buffer[cursor..cursor + read.value];
        cursor := cursor + read.value;
      }
      return Success(buffer[..]);
    }
  }

  class Writer {
    /** Everything written so far. */
    var written: seq<u8>
    /** Whether a write has failed. */
    var broken: bool
    /** How much had been written at every flush that succeeded. */
    ghost var flushes: seq<nat>

    constructor ()
      ensures written == [] && !broken && flushes == []
    {
      written, broken, flushes := [], false, [];
    }

    /** Everything written so far has been flushed. */
    ghost predicate Synced()
      reads this
    {
      flushes != [] && flushes[|flushes| - 1] == |written|
    }

    /** `Write::write_all`: a failure may leave any part of the bytes written. */
    method WriteAll(bytes: seq<u8>) returns (ok: bool)
      modifies this
      ensures broken == (old(broken) || !ok) && flushes == old(flushes)
      ensures old(written) <= written <= old(written) + bytes
      ensures ok ==> written == old(written) + bytes
    {
      var n: nat :| n <= |bytes|;
      ok := n == |bytes|;
      written := written + bytes[..n];
      broken := broken || !ok;
    }

    /** `Write::flush`. */
    method Flush() returns (ok: bool)
      modifies this
      ensures written == old(written) && broken == (old(broken) || !ok)
      ensures flushes == old(flushes) + if ok then [|written|] else []
    {
      ok := *;
      broken := broken || !ok;
      flushes := flushes + if ok then [|written|] else [];
    }
  }
}
