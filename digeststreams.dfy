/**
 * `MessageDigestInputStream` and `MessageDigestOutputStream`: stream filters
 * that feed every byte passing through to a shared `MessageDigest` and add
 * the byte count to a shared `MutableLong`.
 */
module DigestStreams {
  import opened Common
  import opened Streams

  class MessageDigestInputStream {
    const digest: MessageDigest
    const counter: MutableLong
    const source: ByteSource
    /** The bytes this filter has handed to its reader. */
    ghost var Delivered: seq<byte>
    ghost const start: nat
    ghost const fedBefore: seq<byte>
    ghost const countBefore: int

    /** The digest has absorbed, and the counter counted, exactly the bytes delivered. */
    ghost predicate Valid()
      reads this, digest, counter, source
    {
      source.Valid() &&
      start + |Delivered| == source.pos &&
      Delivered == source.data[start..source.pos] &&
      digest.fed == fedBefore + Delivered &&
      counter.value == countBefore + |Delivered|
    }

    constructor (digest: MessageDigest, counter: MutableLong, source: ByteSource)
      requires source.Valid()
      ensures Valid() && Delivered == []
      ensures fedBefore == digest.fed && countBefore == counter.value && start == source.pos
      ensures this.digest == digest && this.counter == counter && this.source == source
    {
      this.digest := digest;
      this.counter := counter;
      this.source := source;
      Delivered := [];
      start := source.pos;
      fedBefore := digest.fed;
      countBefore := counter.value;
    }

    /** `read()`. */
    method Read() returns (b: int)
      requires Valid()
      modifies this, source, digest, counter
      ensures Valid()
      ensures b == if old(source.pos) < |source.data| then source.data[old(source.pos)] as int else -1
      ensures Delivered == if b >= 0 then old(Delivered) + [b as byte] else old(Delivered)
    {
      b := source.Read();
      if b >= 0 {
        digest.Update([LowByte(b)]);
        counter.Add(1);
        Delivered := Delivered + [b as byte];
      }
    }

    /** `read(buf, off, len)`: the digest is fed buf[off..off+n) for a positive result n. */
    method ReadInto(buf: array<byte>, off: nat, len: nat) returns (n: int)
      requires Valid() && off + len <= buf.Length
      modifies this, source, digest, counter, buf
      ensures Valid()
      ensures n == ChunkLength(|source.data| - old(source.pos), len)
      ensures Delivered == old(Delivered) + buf[off..off + Max0(n)]
      ensures forall i :: 0 <= i < buf.Length && !(off <= i < off + Max0(n)) ==> buf[i] == old(buf[i])
    {
      n := source.ReadInto(buf, off, len);
      if n > 0 {
        digest.Update(buf[off..off + n]);
        counter.Add(n);
        Delivered := Delivered + buf[off..off + n];
      }
    }

    /** `read(buf)`. */
    method ReadAll(buf: array<byte>) returns (n: int)
      requires Valid()
      modifies this, source, digest, counter, buf
      ensures Valid()
      ensures n == ChunkLength(|source.data| - old(source.pos), buf.Length)
      ensures Delivered == old(Delivered) + buf[..Max0(n)]
    {
      n := ReadInto(buf, 0, buf.Length);
    }
  }

  class MessageDigestOutputStream {
    const digest: MessageDigest
    const counter: MutableLong
    const sink: ByteSink
    /** Bytes offered to this filter: the digest sees them before the wrapped write. */
    ghost var Offered: seq<byte>
    /** Bytes the wrapped stream accepted. */
    ghost var Forwarded: seq<byte>
    ghost const before: seq<byte>
    ghost const fedBefore: seq<byte>
    ghost const countBefore: int

    ghost predicate Valid()
      reads this, digest, counter, sink
    {
      digest.fed == fedBefore + Offered &&
      sink.written == before + Forwarded &&
      counter.value == countBefore + |Forwarded|
    }

    constructor (digest: MessageDigest, counter: MutableLong, sink: ByteSink)
      ensures Valid() && Offered == [] && Forwarded == []
      ensures fedBefore == digest.fed && countBefore == counter.value && before == sink.written
      ensures this.digest == digest && this.counter == counter && this.sink == sink
    {
      this.digest := digest;
      this.counter := counter;
      this.sink := sink;
      Offered := [];
      Forwarded := [];
      before := sink.written;
      fedBefore := digest.fed;
      countBefore := counter.value;
    }

    /**
     * `write(buf, offset, len)`: the digest is updated first, so a write the
     * wrapped stream rejects is in the digest but not in the count.
     */
    method WriteRange(buf: seq<byte>, offset: nat, len: nat) returns (ok: bool)
      requires Valid() && offset + len <= |buf|
      modifies this, sink, digest, counter
      ensures Valid()
      ensures ok == !sink.failing
      ensures Offered == old(Offered) + buf[offset..offset + len]
      ensures Forwarded == if ok then old(Forwarded) + buf[offset..offset + len] else old(Forwarded)
    {
      digest.Update(buf[offset..offset + len]);
      Offered := Offered + buf[offset..offset + len];
      ok := sink.Write(buf[offset..offset + len]);
      if ok {
        Forwarded := Forwarded + buf[offset..offset + len];
        counter.Add(len);
      }
    }

    /** `write(buf)`. */
    method WriteAll(buf: seq<byte>) returns (ok: bool)
      requires Valid()
      modifies this, sink, digest, counter
      ensures Valid()
      ensures ok == !sink.failing
      ensures Offered == old(Offered) + buf
      ensures Forwarded == if ok then old(Forwarded) + buf else old(Forwarded)
    {
      ok := WriteRange(buf, 0, |buf|);
      assert buf[0..|buf|] == buf;
    }

    /** `write(int)`: the digest takes `(byte) b`, as does the wrapped stream. */
    method WriteByte(b: int) returns (ok: bool)
      requires Valid()
      modifies this, sink, digest, counter
      ensures Valid()
      ensures ok == !sink.failing
      ensures Offered == old(Offered) + [LowByte(b)]
      ensures Forwarded == if ok then old(Forwarded) + [LowByte(b)] else old(Forwarded)
    {
      ok := WriteRange([LowByte(b)], 0, 1);
    }

    /** While every write succeeded, the digest is the digest of exactly what was written. */
    lemma DigestMatchesOutput()
      requires Valid() && Offered == Forwarded
      ensures digest.fed == fedBefore + (sink.written[|before|..])
      ensures counter.value - countBefore == |sink.written| - |before|
    {
      assert sink.written[|before|..] == Forwarded;
    }
  }
}
