/**
 * The collaborators the stream wrappers decorate: a wrapped input stream, a
 * wrapped output stream, a `MessageDigest` and a `MutableLong` counter.
 *
 * A `MessageDigest` is represented by the bytes it has absorbed: the
 * SHA-256 value of FIPS 180-4 is a function of exactly those bytes, so
 * "the digest equals SHA-256 of the stream" is stated as "the digest was
 * fed exactly the stream's bytes".
 */
module Streams {
  import opened Common

  /** Bytes a `read(b, off, len)` of the wrapped stream yields: 0 for len 0, -1 at end, else up to len. */
  function ChunkLength(remaining: nat, len: nat): (n: int)
    ensures len == 0 ==> n == 0
    ensures len > 0 && remaining == 0 ==> n == -1
    ensures len > 0 && remaining > 0 ==> 0 < n <= len && n <= remaining
  {
    if len == 0 then 0 else if remaining == 0 then -1 else if len <= remaining then len else remaining
  }

  function Max0(n: int): nat
  {
    if n < 0 then 0 else n
  }

  /** A wrapped `InputStream` over a fixed byte sequence, with its read position. */
  class ByteSource {
    const data: seq<byte>
    var pos: nat

    predicate Valid()
      reads this
    {
      pos <= |data|
    }

    constructor (data: seq<byte>)
      ensures Valid() && this.data == data && pos == 0
    {
      this.data := data;
      pos := 0;
    }

    /** `read()`: the next byte as 0..255, or -1 at the end. */
    method Read() returns (b: int)
      requires Valid()
      modifies this
      ensures Valid()
      ensures old(pos) < |data| ==> b == data[old(pos)] as int && pos == old(pos) + 1
      ensures old(pos) == |data| ==> b == -1 && pos == old(pos)
    {
      if pos == |data| {
        return -1;
      }
      b := data[pos] as int;
      pos := pos + 1;
    }

    /** `read(buf, off, len)`: fills buf[off..off+n) with the next n bytes. */
    method ReadInto(buf: array<byte>, off: nat, len: nat) returns (n: int)
      requires Valid() && off + len <= buf.Length
      modifies this, buf
      ensures Valid()
      ensures n == ChunkLength(|data| - old(pos), len)
      ensures pos == old(pos) + Max0(n)
      ensures buf[off..off + Max0(n)] == data[old(pos)..pos]
      ensures forall i :: 0 <= i < buf.Length && !(off <= i < off + Max0(n)) ==> buf[i] == old(buf[i])
    {
      n := ChunkLength(|data| - pos, len);
      if n > 0 {
        var p := pos;
        forall i | off <= i < off + n {
          buf[i] := data[p + i - off];
        }
        pos := pos + n;
      }
    }
  }

  /** A wrapped `OutputStream`; when `failing` every write throws IOException and writes nothing. */
  class ByteSink {
    var written: seq<byte>
    const failing: bool

    constructor (failing: bool)
      ensures written == [] && this.failing == failing
    {
      written := [];
      this.failing := failing;
    }

    method Write(bytes: seq<byte>) returns (ok: bool)
      modifies this
      ensures ok == !failing
      ensures written == if ok then old(written) + bytes else old(written)
    {
      ok := !failing;
      if ok {
        written := written + bytes;
      }
    }
  }

  /** A `MessageDigest`, represented by the bytes it has been fed since the last `digest()`. */
  class MessageDigest {
    var fed: seq<byte>

    constructor ()
      ensures fed == []
    {
      fed := [];
    }

    method Update(bytes: seq<byte>)
      modifies this
      ensures fed == old(fed) + bytes
    {
      fed := fed + bytes;
    }

    /** `digest()`: the digest of everything fed, after which the digest starts over. */
    method Digest() returns (input: seq<byte>)
      modifies this
      ensures input == old(fed) && fed == []
    {
      input := fed;
      fed := [];
    }
  }

  /** A `MutableLong` counter (64-bit overflow is not modelled). */
  class MutableLong {
    var value: int

    constructor (v: int)
      ensures value == v
    {
      value := v;
    }

    method Add(n: int)
      modifies this
      ensures value == old(value) + n
    {
      value := value + n;
    }
  }
}
