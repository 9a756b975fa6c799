/**
 * `TaskStepTrackerInputStream` and `TaskStepTrackerOutputStream`: stream
 * filters that count the bytes passing through and report
 * count / expected as the current step's percent complete.
 */
module TrackerStreams {
  import opened Common
  import opened Streams
  import opened StepTracker

  /**
   * The fraction a filter reports after `count` of `expected` bytes, as
   * Java's double division gives it. A positive count over an expected
   * length of 0 is +Infinity, which only ever reaches the tracker's clamp;
   * it is represented by 1, what the clamp makes of it.
   */
  function Fraction(count: int, expected: int): real
  {
    if expected == 0 then 1.0 else count as real / expected as real
  }

  /** Over no expected bytes, any progress reads as complete once clamped. */
  lemma FractionOverNothing(count: nat)
    requires count > 0
    ensures Clamp(Fraction(count, 0)) == 1.0
    ensures forall expected: int :: expected < 0 ==> Clamp(Fraction(count, expected)) == 0.0
  {
    forall expected: int | expected < 0
      ensures Clamp(Fraction(count, expected)) == 0.0
    {
      assert count as real / expected as real <= 0.0;
    }
  }

  /** Progress reported by a filter grows with the byte count and reaches 1 at the expected length. */
  lemma FractionProgress(c1: nat, c2: nat, expected: int)
    requires expected > 0 && c1 <= c2
    ensures Clamp(Fraction(c1, expected)) <= Clamp(Fraction(c2, expected))
    ensures c2 == expected ==> Clamp(Fraction(c2, expected)) == 1.0
    ensures c2 <= expected ==> Clamp(Fraction(c2, expected)) == Fraction(c2, expected)
    ensures c2 >= expected ==> Clamp(Fraction(c2, expected)) == 1.0
  {
    FractionBounds(c1, expected);
    FractionBounds(c2, expected);
    FractionMonotone(c1, c2, expected);
  }

  /** A count over a positive expected length is a non-negative fraction, at most 1 exactly up to that length. */
  lemma FractionBounds(c: nat, expected: int)
    requires expected > 0
    ensures 0.0 <= Fraction(c, expected)
    ensures Fraction(c, expected) <= 1.0 <==> c <= expected
    ensures c == expected ==> Fraction(c, expected) == 1.0
  {
    var e := expected as real;
    DivideMonotone(0.0, c as real, e);
    assert 0.0 / e == 0.0;
    assert e / e == 1.0;
    if c <= expected {
      DivideMonotone(c as real, e, e);
    } else {
      DivideStrictlyMonotone(e, c as real, e);
    }
  }

  lemma FractionMonotone(c1: nat, c2: nat, expected: int)
    requires expected > 0 && c1 <= c2
    ensures Fraction(c1, expected) <= Fraction(c2, expected)
  {
    DivideMonotone(c1 as real, c2 as real, expected as real);
  }

  lemma DivideStrictlyMonotone(a: real, b: real, n: real)
    requires n > 0.0 && a < b
    ensures a / n < b / n
  {
  }

  class TaskStepTrackerInputStream {
    const expected: int
    const tracker: TaskStepTracker
    const source: ByteSource
    var count: int
    /** The bytes this filter has handed to its reader. */
    ghost var Delivered: seq<byte>
    ghost const start: nat

    ghost predicate Valid()
      reads this, tracker, source
    {
      tracker.Valid() && source.Valid() &&
      start + |Delivered| == source.pos &&
      Delivered == source.data[start..source.pos] &&
      count == |Delivered|
    }

    constructor (expectedLength: int, tracker: TaskStepTracker, source: ByteSource)
      requires tracker.Valid() && source.Valid()
      ensures Valid() && count == 0 && Delivered == []
      ensures this.expected == expectedLength && this.tracker == tracker && this.source == source
    {
      expected := expectedLength;
      this.tracker := tracker;
      this.source := source;
      count := 0;
      Delivered := [];
      start := source.pos;
    }

    /** `read()`: a byte counts one and updates the tracker; -1 at the end changes nothing. */
    method Read() returns (b: int)
      requires Valid()
      modifies this, source, tracker
      ensures Valid()
      ensures b == if old(source.pos) < |source.data| then source.data[old(source.pos)] as int else -1
      ensures b >= 0 ==> Delivered == old(Delivered) + [b as byte] &&
                         tracker.State() == SetStepPercent(old(tracker.State()), Fraction(count, expected))
      ensures b < 0 ==> Delivered == old(Delivered) && tracker.State() == old(tracker.State())
      ensures tracker.message == old(tracker.message) && tracker.completedDate == old(tracker.completedDate)
    {
      b := source.Read();
      if b >= 0 {
        Delivered := Delivered + [b as byte];
        count := count + 1;
        tracker.SetStepPercentComplete(Fraction(count, expected));
      }
    }

    /** `read(buf, off, len)`: passes the wrapped read through and counts a positive result. */
    method ReadInto(buf: array<byte>, off: nat, len: nat) returns (n: int)
      requires Valid() && off + len <= buf.Length
      modifies this, source, tracker, buf
      ensures Valid()
      ensures n == ChunkLength(|source.data| - old(source.pos), len)
      ensures Delivered == old(Delivered) + buf[off..off + Max0(n)]
      ensures n > 0 ==> tracker.State() == SetStepPercent(old(tracker.State()), Fraction(count, expected))
      ensures n <= 0 ==> tracker.State() == old(tracker.State())
      ensures tracker.message == old(tracker.message) && tracker.completedDate == old(tracker.completedDate)
    {
      n := source.ReadInto(buf, off, len);
      if n > 0 {
        Delivered := Delivered + buf[off..off + n];
        count := count + n;
        tracker.SetStepPercentComplete(Fraction(count, expected));
      }
    }

    /** `read(buf)`: the whole array is offered to the wrapped stream. */
    method ReadAll(buf: array<byte>) returns (n: int)
      requires Valid()
      modifies this, source, tracker, buf
      ensures Valid()
      ensures n == ChunkLength(|source.data| - old(source.pos), buf.Length)
      ensures Delivered == old(Delivered) + buf[..Max0(n)]
      ensures n > 0 ==> tracker.State() == SetStepPercent(old(tracker.State()), Fraction(count, expected))
      ensures n <= 0 ==> tracker.State() == old(tracker.State())
      ensures tracker.message == old(tracker.message) && tracker.completedDate == old(tracker.completedDate)
    {
      n := ReadInto(buf, 0, buf.Length);
    }
  }

  class TaskStepTrackerOutputStream {
    const expected: int
    const tracker: TaskStepTracker
    const sink: ByteSink
    var count: int
    /** The bytes this filter has passed on to the wrapped stream. */
    ghost var Forwarded: seq<byte>
    ghost const before: seq<byte>

    ghost predicate Valid()
      reads this, tracker, sink
    {
      tracker.Valid() &&
      sink.written == before + Forwarded &&
      count == |Forwarded|
    }

    constructor (expectedLength: int, tracker: TaskStepTracker, sink: ByteSink)
      requires tracker.Valid()
      ensures Valid() && count == 0 && Forwarded == []
      ensures this.expected == expectedLength && this.tracker == tracker && this.sink == sink
    {
      expected := expectedLength;
      this.tracker := tracker;
      this.sink := sink;
      count := 0;
      Forwarded := [];
      before := sink.written;
    }

    /**
     * `write(buf, offset, len)`: the tracker is updated after every successful
     * write, an empty one included; a failing write changes neither count nor tracker.
     */
    method WriteRange(buf: seq<byte>, offset: nat, len: nat) returns (ok: bool)
      requires Valid() && offset + len <= |buf|
      modifies this, sink, tracker
      ensures Valid()
      ensures ok == !sink.failing
      ensures Forwarded == if ok then old(Forwarded) + buf[offset..offset + len] else old(Forwarded)
      ensures ok ==> tracker.State() == SetStepPercent(old(tracker.State()), Fraction(count, expected))
      ensures !ok ==> tracker.State() == old(tracker.State())
      ensures tracker.message == old(tracker.message) && tracker.completedDate == old(tracker.completedDate)
    {
      ok := sink.Write(buf[offset..offset + len]);
      if ok {
        Forwarded := Forwarded + buf[offset..offset + len];
        count := count + len;
        tracker.SetStepPercentComplete(Fraction(count, expected));
      }
    }

    /** `write(buf)`. */
    method WriteAll(buf: seq<byte>) returns (ok: bool)
      requires Valid()
      modifies this, sink, tracker
      ensures Valid()
      ensures ok == !sink.failing
      ensures Forwarded == if ok then old(Forwarded) + buf else old(Forwarded)
      ensures ok ==> tracker.State() == SetStepPercent(old(tracker.State()), Fraction(count, expected))
      ensures !ok ==> tracker.State() == old(tracker.State())
      ensures tracker.message == old(tracker.message) && tracker.completedDate == old(tracker.completedDate)
    {
      ok := WriteRange(buf, 0, |buf|);
      assert buf[0..|buf|] == buf;
    }

    /** `write(int)`: the wrapped stream keeps the low eight bits; the count grows by one. */
    method WriteByte(b: int) returns (ok: bool)
      requires Valid()
      modifies this, sink, tracker
      ensures Valid()
      ensures ok == !sink.failing
      ensures Forwarded == if ok then old(Forwarded) + [LowByte(b)] else old(Forwarded)
      ensures ok ==> tracker.State() == SetStepPercent(old(tracker.State()), Fraction(count, expected))
      ensures !ok ==> tracker.State() == old(tracker.State())
      ensures tracker.message == old(tracker.message) && tracker.completedDate == old(tracker.completedDate)
    {
      ok := WriteRange([LowByte(b)], 0, 1);
    }
  }
}
