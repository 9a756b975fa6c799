/**
 * `java.io.BufferedOutputStream` with its default 8192-byte buffer, as the
 * cache's tee writes through it: which bytes have reached the underlying
 * file and which still sit in the buffer.
 */
module BufferedOutput {
  import opened Common

  const Capacity: nat := 8192

  /** `flushed` has reached the underlying stream; `pending` is still buffered. */
  datatype Buffered = Buffered(flushed: seq<byte>, pending: seq<byte>)

  function Empty(): Buffered
  {
    Buffered([], [])
  }

  /** Everything written so far, flushed or not. */
  function Accepted(s: Buffered): seq<byte>
  {
    s.flushed + s.pending
  }

  predicate WithinCapacity(s: Buffered)
  {
    |s.pending| <= Capacity
  }

  /**
   * `write(b, off, len)`: a write at least as long as the buffer flushes and
   * goes straight through; one that does not fit flushes first; otherwise it
   * is buffered. `write(int)` behaves as a one-byte write.
   */
  function Write(s: Buffered, bytes: seq<byte>): (r: Buffered)
    ensures Accepted(r) == Accepted(s) + bytes
    ensures WithinCapacity(r)
    ensures StartsWithSeq(r.flushed, s.flushed)
  {
    if |bytes| >= Capacity then Buffered(s.flushed + s.pending + bytes, [])
    else if |bytes| > Capacity - |s.pending| then Buffered(s.flushed + s.pending, bytes)
    else Buffered(s.flushed, s.pending + bytes)
  }

  predicate StartsWithSeq(a: seq<byte>, prefix: seq<byte>)
  {
    |prefix| <= |a| && a[..|prefix|] == prefix
  }

  /** `flush()`: the buffer is written out. */
  function Flush(s: Buffered): (r: Buffered)
    ensures r.flushed == Accepted(s) && r.pending == []
  {
    Buffered(s.flushed + s.pending, [])
  }

  function Concat(chunks: seq<seq<byte>>): seq<byte>
  {
    if chunks == [] then [] else Concat(chunks[..|chunks| - 1]) + chunks[|chunks| - 1]
  }

  /** The buffered stream after the writes `chunks`, in order. */
  function WriteAll(s: Buffered, chunks: seq<seq<byte>>): Buffered
  {
    if chunks == [] then s else Write(WriteAll(s, chunks[..|chunks| - 1]), chunks[|chunks| - 1])
  }

  /** Nothing written is lost: flushed and buffered bytes together are all the writes. */
  lemma {:induction false} WriteAllAccepts(chunks: seq<seq<byte>>)
    ensures Accepted(WriteAll(Empty(), chunks)) == Concat(chunks)
  {
    if chunks != [] {
      WriteAllAccepts(chunks[..|chunks| - 1]);
    }
  }

  /**
   * The cache file as written: the tee's buffer is never flushed before the
   * temporary file is moved into place, so only the flushed part arrives.
   */
  function CacheFileAsWritten(chunks: seq<seq<byte>>): seq<byte>
  {
    WriteAll(Empty(), chunks).flushed
  }

  /** The cache file when the buffer is flushed before the move. */
  function CacheFileFlushed(chunks: seq<seq<byte>>): (r: seq<byte>)
    ensures r == Concat(chunks)
  {
    WriteAllAccepts(chunks);
    Flush(WriteAll(Empty(), chunks)).flushed
  }

  /** A three-byte stream read with `read()` leaves an empty cache file as written. */
  lemma SmallStreamLostAsWritten()
    ensures CacheFileAsWritten([[1], [2], [3]]) == []
    ensures Concat([[1], [2], [3]]) == [1, 2, 3]
  {
    var chunks: seq<seq<byte>> := [[1], [2], [3]];
    assert chunks[..2] == [[1], [2]] && chunks[..1] == [[1]] && chunks[..0] == [];
    assert WriteAll(Empty(), chunks[..1]) == Buffered([], [1]);
    assert WriteAll(Empty(), chunks[..2]) == Buffered([], [1, 2]);
    assert Concat(chunks[..1]) == [1];
    assert Concat(chunks[..2]) == [1, 2];
  }

  /** As written, at most the last buffer's worth of bytes is missing from the cache file. */
  lemma {:induction false} AsWrittenIsPrefix(chunks: seq<seq<byte>>)
    ensures StartsWithSeq(Concat(chunks), CacheFileAsWritten(chunks))
    ensures |Concat(chunks)| - |CacheFileAsWritten(chunks)| <= Capacity
  {
    WriteAllAccepts(chunks);
    var s := WriteAll(Empty(), chunks);
    assert Concat(chunks) == s.flushed + s.pending;
    assert (s.flushed + s.pending)[..|s.flushed|] == s.flushed;
    if chunks != [] {
      assert WithinCapacity(s);
    }
  }
}
