// The raw output of a terminal session: a bounded window onto an unbounded stream, with absolute offsets.

module RingBuffer {
  import opened Basics

  const MAX_RAW_BYTES: nat := 8 * 1024 * 1024

  datatype Ring = Ring(raw: Bytes, baseOffset: U64, totalOffset: U64, readerOffset: U64)

  const EMPTY_RING := Ring([], 0, 0, 0)

  function Append(ring: Ring, bytes: Bytes): Ring {
    var raw := ring.raw + bytes;
    var remove := Max(|raw| - MAX_RAW_BYTES, 0);
    ring.(raw := raw[remove..],
          totalOffset := SaturatingAdd(ring.totalOffset, |bytes|),
          baseOffset := if remove > 0 then SaturatingAdd(ring.baseOffset, remove) else ring.baseOffset)
  }

  datatype ReadReply = CursorGap | Output(bytes: Bytes, range: Option<(U64, U64)>)

  /** A read from an absolute cursor, and the ring with its reader moved to the end. */
  function Read(ring: Ring, segment: U64, offset: U64): (ReadReply, Ring) {
    if segment != 1 || offset < ring.baseOffset || offset > ring.totalOffset then (CursorGap, ring)
    else (Output(Skip(ring.raw, offset - ring.baseOffset), if offset == ring.totalOffset then None
        else Some((offset, ring.totalOffset))),
          ring.(readerOffset := ring.totalOffset))
  }

  /** The iterator's `skip`: past the end there is nothing left. */
  function Skip(bytes: Bytes, count: nat): Bytes {
    if count >= |bytes| then [] else bytes[count..]
  }

  datatype Glimpse = CursorAhead | Glimpse(cursorStart: U64, cursorEnd: U64, rawGap: bool, output: Bytes)

  /** What the monitor worker sees from its own cursor. */
  function Observe(ring: Ring, afterOffset: U64): Glimpse {
    if afterOffset > ring.totalOffset then CursorAhead
    else
      var cursorStart := Max(afterOffset, ring.baseOffset);
      Glimpse(cursorStart, ring.totalOffset, afterOffset < ring.baseOffset,
          Skip(ring.raw, cursorStart - ring.baseOffset))
  }

  // The window always shows the end of the stream.

  /** Short of 2^64 bytes: everything is kept until the cap, and then exactly the last cap bytes. */
  predicate Shows(ring: Ring, stream: Bytes) {
    |stream| <= MAX_U64 ==>
      && ring.totalOffset == |stream|
      && ring.baseOffset == Max(|stream| - MAX_RAW_BYTES, 0)
      && ring.raw == stream[ring.baseOffset..]
      && ring.readerOffset <= |stream|
  }

  lemma AppendShows(ring: Ring, stream: Bytes, bytes: Bytes)
    requires Shows(ring, stream)
    ensures Shows(Append(ring, bytes), stream + bytes)
  {
    if |stream + bytes| <= MAX_U64 {
      var raw := ring.raw + bytes;
      assert raw == (stream + bytes)[ring.baseOffset..];
      var remove := Max(|raw| - MAX_RAW_BYTES, 0);
      assert raw[remove..] == (stream + bytes)[ring.baseOffset + remove..];
    }
  }

  /** A read returns the stream from its offset to the end, or reports that the bytes are gone or not yet there. */
  lemma ReadReturnsStream(ring: Ring, stream: Bytes, offset: U64)
    requires Shows(ring, stream) && |stream| <= MAX_U64
    ensures var (reply, after) := Read(ring, 1, offset);
            && (reply.CursorGap? <==> offset < |stream| - MAX_RAW_BYTES || offset > |stream|)
            && (reply.Output? ==> reply.bytes == stream[offset..] && after.readerOffset == |stream|)
            && (reply.Output? ==> reply.range == if offset == |stream| then None else Some((offset, |stream|)))
            && Shows(after, stream)
            && after.raw == ring.raw
  {
    if ring.baseOffset <= offset <= |stream| {
      assert Skip(ring.raw, offset - ring.baseOffset) == stream[offset..];
    }
  }

  lemma GlimpseShowsStream(ring: Ring, stream: Bytes, afterOffset: U64)
    requires Shows(ring, stream) && |stream| <= MAX_U64 && afterOffset <= |stream|
    ensures var seen := Observe(ring, afterOffset);
            && seen.Glimpse?
            && seen.cursorEnd == |stream|
            && seen.cursorStart <= seen.cursorEnd
            && seen.output == stream[seen.cursorStart..]
            && (seen.rawGap <==> afterOffset < |stream| - MAX_RAW_BYTES)
            && (!seen.rawGap ==> seen.cursorStart == afterOffset)
            && (seen.rawGap ==> afterOffset < seen.cursorStart && seen.output != [])
  {
    var seen := Observe(ring, afterOffset);
    assert Skip(ring.raw, seen.cursorStart - ring.baseOffset) == stream[seen.cursorStart..];
  }

  // A reader that always continues where its last read ended.

  datatype Step = Write(bytes: Bytes) | ReadOn

  datatype Chain = Chain(ring: Ring, stream: Bytes, cursor: nat, received: Bytes, gapped: bool)

  function Follow(chain: Chain, step: Step): Chain {
    match step
    case Write(bytes) => chain.(ring := Append(chain.ring, bytes), stream := chain.stream + bytes)
    case ReadOn =>
      if chain.gapped || chain.cursor > MAX_U64 then chain
      else
        match Read(chain.ring, 1, chain.cursor)
        case (CursorGap, _) => chain.(gapped := true)
        case (Output(bytes, _), after) =>
            chain.(ring := after, cursor := after.totalOffset, received := chain.received + bytes)
  }

  function FollowAll(chain: Chain, steps: seq<Step>): Chain
    decreases |steps|
  {
    if steps == [] then chain else FollowAll(Follow(chain, steps[0]), steps[1..])
  }

  predicate ChainInv(chain: Chain, start: nat) {
    && Shows(chain.ring, chain.stream)
    && (|chain.stream| <= MAX_U64 ==>
          && start <= chain.cursor <= |chain.stream|
          && chain.received == chain.stream[start..chain.cursor])
  }

  /** Reads chained at the previous end receive a contiguous stretch of the stream, nothing lost or repeated. */
  lemma {:induction false} ChainedReadsAreContiguous(chain: Chain, start: nat, steps: seq<Step>)
    requires ChainInv(chain, start)
    ensures ChainInv(FollowAll(chain, steps), start)
    decreases |steps|
  {
    if steps != [] {
      var next := Follow(chain, steps[0]);
      if steps[0].Write? {
        AppendShows(chain.ring, chain.stream, steps[0].bytes);
        assert |next.stream| <= MAX_U64 ==> chain.stream[start..chain.cursor] == next.stream[start..chain.cursor];
      } else if |chain.stream| <= MAX_U64 && !chain.gapped {
        ReadReturnsStream(chain.ring, chain.stream, chain.cursor);
        assert chain.stream[start..] == chain.stream[start..chain.cursor] + chain.stream[chain.cursor..];
      }
      ChainedReadsAreContiguous(next, start, steps[1..]);
    }
  }

  /** The session state behind its lock; `stream` is everything ever written to it. */
  class SessionState {
    var raw: Bytes
    var baseOffset: U64
    var totalOffset: U64
    var readerOffset: U64
    ghost var stream: Bytes

    function Value(): Ring
      reads this
    {
      Ring(raw, baseOffset, totalOffset, readerOffset)
    }

    ghost predicate Valid()
      reads this
    {
      Shows(Value(), stream)
    }

    constructor ()
      ensures Valid() && stream == [] && Value() == EMPTY_RING
    {
      raw := [];
      baseOffset := 0;
      totalOffset := 0;
      readerOffset := 0;
      stream := [];
    }

    method AppendBytes(bytes: Bytes)
      requires Valid()
      modifies this
      ensures Valid() && stream == old(stream) + bytes && Value() == Append(old(Value()), bytes)
    {
      AppendShows(Value(), stream, bytes);
      stream := stream + bytes;
      raw := raw + bytes;
      totalOffset := SaturatingAdd(totalOffset, |bytes|);
      if |raw| > MAX_RAW_BYTES {
        var remove := |raw| - MAX_RAW_BYTES;
        raw := raw[remove..];
        baseOffset := SaturatingAdd(baseOffset, remove);
      }
    }

    method ReadFrom(segment: U64, offset: U64) returns (reply: ReadReply)
      requires Valid()
      modifies this`readerOffset
      ensures Valid() && (reply, Value()) == Read(old(Value()), segment, offset)
    {
      if segment != 1 || offset < baseOffset || offset > totalOffset {
        return CursorGap;
      }
      var bytes := Skip(raw, offset - baseOffset);
      readerOffset := totalOffset;
      return Output(bytes, if offset == totalOffset then None else Some((offset, totalOffset)));
    }

    /** Observing moves no cursor and changes nothing. */
    method ObserveFrom(afterOffset: U64) returns (seen: Glimpse)
      requires Valid()
      ensures seen == Observe(Value(), afterOffset)
    {
      if afterOffset > totalOffset {
        return CursorAhead;
      }
      var rawGap := afterOffset < baseOffset;
      var cursorStart := Max(afterOffset, baseOffset);
      return Glimpse(cursorStart, totalOffset, rawGap, Skip(raw, cursorStart - baseOffset));
    }
  }
}
