// A command's output stream, captured as its first and last bytes, and shown within a budget.

module CapturedOutput {
  import opened Basics

  /** `div_ceil(2)`. */
  function HalfUp(n: nat): (half: nat)
    ensures half <= n && n - half <= half <= n - half + 1
  {
    (n + 1) / 2
  }

  function First(bytes: Bytes, count: nat): Bytes {
    if count < |bytes| then bytes[..count] else bytes
  }

  function Last(bytes: Bytes, count: nat): Bytes {
    if count < |bytes| then bytes[|bytes| - count..] else bytes
  }

  /** What `render` makes of a stream; the truncated form carries the reported number of missing bytes. */
  datatype Rendering = Nothing | Whole(bytes: Bytes) | Truncated(head: Bytes, missing: nat, tail: Bytes)
  {
    function Shown(): nat {
      match this
      case Nothing => 0
      case Whole(bytes) => |bytes|
      case Truncated(head, _, tail) => |head| + |tail|
    }
  }

  class CapturedStream {
    var head: Bytes
    var tail: Bytes
    var totalBytes: U64
    const maxBytes: U64

    /** Of everything appended so far: the first half of the limit, rounded up, and the last half, rounded down. */
    ghost predicate Holds(stream: Bytes)
      reads this
    {
      && head == First(stream, HalfUp(maxBytes))
      && tail == Last(stream, maxBytes - HalfUp(maxBytes))
      && totalBytes == Min(|stream|, MAX_U64)
    }

    constructor (maxBytes: U64)
      ensures this.maxBytes == maxBytes && Holds([])
    {
      head, tail, totalBytes, this.maxBytes := [], [], 0, maxBytes;
    }

    method Append(bytes: Bytes, ghost stream: Bytes)
      requires Holds(stream)
      modifies this
      ensures Holds(stream + bytes)
    {
      totalBytes := SaturatingAdd(totalBytes, |bytes|);
      var headLimit := HalfUp(maxBytes);
      var tailLimit := maxBytes - headLimit;
      HeadGrows(stream, bytes, headLimit);
      TailMoves(stream, bytes, tailLimit);
      AppendHead(bytes, headLimit);
      if tailLimit == 0 {
        assert bytes[|bytes|..] == [] && Last(stream, 0) == [];
        return;
      }
      AppendTail(bytes, tailLimit);
    }

    method AppendHead(bytes: Bytes, headLimit: nat)
      modifies this`head
      ensures head == HeadStep(old(head), bytes, headLimit)
    {
      if |head| < headLimit {
        var take := Min(headLimit - |head|, |bytes|);
        head := head + bytes[..take];
      }
    }

    method AppendTail(bytes: Bytes, tailLimit: nat)
      requires |tail| <= tailLimit
      modifies this`tail
      ensures tail == TailStep(old(tail), bytes, tailLimit)
    {
      if |bytes| >= tailLimit {
        tail := bytes[|bytes| - tailLimit..];
      } else {
        var overflow := Max(|tail| + |bytes| - tailLimit, 0);
        if overflow > 0 {
          tail := tail[overflow..];
        }
        tail := tail + bytes;
      }
    }

    method Render(budget: nat, ghost stream: Bytes) returns (rendering: Rendering)
      requires Holds(stream)
      ensures |stream| <= MAX_U64 && budget <= maxBytes ==> rendering == RenderingOf(stream, budget)
    {
      if |stream| <= MAX_U64 && budget <= maxBytes {
        FieldsSuffice(stream, maxBytes, budget);
      }
      if totalBytes == 0 {
        return Nothing;
      }
      if totalBytes <= budget {
        var overlap := Max(|head| + |tail| - totalBytes, 0);
        return Whole(head + (if overlap <= |tail| then tail[overlap..] else []));
      }
      var headBudget := HalfUp(budget);
      var tailBudget := budget - headBudget;
      var shownHead := head[..Min(|head|, headBudget)];
      var shownTail := tail[Max(|tail| - tailBudget, 0)..];
      rendering := Truncated(shownHead, Max(totalBytes - budget, 0), shownTail);
    }
  }

  function Joined(chunks: seq<Bytes>): Bytes {
    if chunks == [] then [] else Joined(chunks[..|chunks| - 1]) + chunks[|chunks| - 1]
  }

  /** `capture_stream`: what is held depends on the bytes read, and not on how they were read. */
  method CaptureStream(chunks: seq<Bytes>, maxBytes: U64) returns (captured: CapturedStream)
    ensures captured.maxBytes == maxBytes && captured.Holds(Joined(chunks))
  {
    captured := new CapturedStream(maxBytes);
    for i := 0 to |chunks|
      invariant fresh(captured) && captured.maxBytes == maxBytes && captured.Holds(Joined(chunks[..i]))
    {
      assert chunks[..i + 1][..i] == chunks[..i];
      captured.Append(chunks[i], Joined(chunks[..i]));
    }
    assert chunks[..|chunks|] == chunks;
  }

  /** What appending makes of the captured head. */
  function HeadStep(head: Bytes, bytes: Bytes, limit: nat): Bytes {
    if |head| < limit then head + bytes[..Min(limit - |head|, |bytes|)] else head
  }

  function TailStep(tail: Bytes, bytes: Bytes, limit: nat): Bytes {
    if |bytes| >= limit then bytes[|bytes| - limit..] else tail[Min(Max(|tail| + |bytes| - limit, 0), |tail|)..] + bytes
  }

  lemma HeadGrows(stream: Bytes, bytes: Bytes, limit: nat)
    ensures First(stream + bytes, limit) == HeadStep(First(stream, limit), bytes, limit)
  {
  }

  lemma DropOfConcat(stream: Bytes, bytes: Bytes, count: nat)
    requires count <= |stream| + |bytes|
    ensures (stream + bytes)[count..] == if count <= |stream| then stream[count..] + bytes
            else bytes[count - |stream|..]
  {
  }

  lemma DropTwice(stream: Bytes, first: nat, second: nat)
    requires first + second <= |stream|
    ensures stream[first..][second..] == stream[first + second..]
  {
  }

  lemma TailReplaced(stream: Bytes, bytes: Bytes, limit: nat)
    requires |bytes| >= limit
    ensures Last(stream + bytes, limit) == bytes[|bytes| - limit..]
  {
    DropOfConcat(stream, bytes, |stream| + |bytes| - limit);
  }

  lemma TailShifts(stream: Bytes, bytes: Bytes, limit: nat)
    requires |bytes| < limit < |stream|
    ensures Last(stream + bytes, limit) == Last(stream, limit)[|bytes|..] + bytes
  {
    DropOfConcat(stream, bytes, |stream| + |bytes| - limit);
    DropTwice(stream, |stream| - limit, |bytes|);
  }

  lemma TailFills(stream: Bytes, bytes: Bytes, limit: nat)
    requires |bytes| < limit && |stream| <= limit
    ensures Last(stream + bytes, limit) == stream[Max(|stream| + |bytes| - limit, 0)..] + bytes
  {
    DropOfConcat(stream, bytes, Max(|stream| + |bytes| - limit, 0));
  }

  lemma TailMoves(stream: Bytes, bytes: Bytes, limit: nat)
    ensures Last(stream + bytes, limit) == TailStep(Last(stream, limit), bytes, limit)
  {
    if |bytes| >= limit {
      TailReplaced(stream, bytes, limit);
    } else if limit < |stream| {
      TailShifts(stream, bytes, limit);
    } else {
      TailFills(stream, bytes, limit);
    }
  }

  /** The specification: all of the stream if the budget allows, else its two ends. */
  function RenderingOf(stream: Bytes, budget: nat): Rendering {
    if stream == [] then Nothing
    else if |stream| <= budget then Whole(stream)
    else Truncated(stream[..HalfUp(budget)], |stream| - budget, stream[|stream| - (budget - HalfUp(budget))..])
  }

  /** What the fields alone yield. */
  function RenderFields(head: Bytes, tail: Bytes, total: nat, budget: nat): Rendering {
    if total == 0 then Nothing
    else if total <= budget then
      var overlap := Max(|head| + |tail| - total, 0);
      Whole(head + (if overlap <= |tail| then tail[overlap..] else []))
    else
      var headBudget := HalfUp(budget);
      var tailBudget := budget - headBudget;
      Truncated(head[..Min(|head|, headBudget)], Max(total - budget, 0), tail[Max(|tail| - tailBudget, 0)..])
  }

  /** Within the captured limit the two ends are enough: nothing is shown twice, and nothing shown is lost. */
  lemma FieldsSuffice(stream: Bytes, maxBytes: nat, budget: nat)
    requires budget <= maxBytes
    ensures RenderFields(First(stream, HalfUp(maxBytes)), Last(stream, maxBytes - HalfUp(maxBytes)), |stream|, budget)
            == RenderingOf(stream, budget)
  {
    var head, tail := First(stream, HalfUp(maxBytes)), Last(stream, maxBytes - HalfUp(maxBytes));
    if 0 < |stream| <= budget {
      var overlap := Max(|head| + |tail| - |stream|, 0);
      assert overlap <= |tail|;
      assert head + tail[overlap..] == stream;
    }
  }

  // The budget split.

  method SplitBudget(stdoutBytes: U64, stderrBytes: U64, limit: U64)
    returns (truncated: bool, outBudget: nat, errBudget: nat)
    requires stdoutBytes + stderrBytes <= MAX_U64
    ensures truncated <==> stdoutBytes + stderrBytes > limit
    ensures outBudget <= limit && errBudget <= limit
    ensures truncated ==> outBudget + errBudget == limit
    ensures !truncated ==> stdoutBytes <= outBudget && stderrBytes <= errBudget
    ensures stdoutBytes > 0 && stderrBytes > 0 && truncated ==> errBudget <= outBudget <= errBudget + 1
    ensures truncated && stderrBytes == 0 ==> errBudget == 0
    ensures truncated && stdoutBytes == 0 ==> outBudget == 0
  {
    var total := SaturatingAdd(stdoutBytes, stderrBytes);
    truncated := total > limit;
    outBudget, errBudget := limit, limit;
    if truncated {
      if stderrBytes == 0 {
        errBudget := 0;
      } else if stdoutBytes == 0 {
        outBudget := 0;
      } else {
        outBudget := HalfUp(limit);
        errBudget := limit - outBudget;
      }
    }
  }

  /** `format_result`, where `limit` is also what each stream was captured with. */
  method ShowBoth(stdout: CapturedStream, stderr: CapturedStream, limit: U64, ghost out: Bytes, ghost err: Bytes)
    returns (shownOut: Rendering, shownErr: Rendering, truncated: bool)
    requires stdout.Holds(out) && stderr.Holds(err) && stdout.maxBytes == limit && stderr.maxBytes == limit
    requires |out| + |err| <= MAX_U64
    ensures truncated <==> |out| + |err| > limit
    ensures !truncated ==> shownOut == RenderingOf(out, |out|) && shownErr == RenderingOf(err, |err|)
    ensures truncated && out != [] && err != [] ==>
              shownOut == RenderingOf(out, HalfUp(limit)) && shownErr == RenderingOf(err, limit - HalfUp(limit))
    ensures truncated && err == [] ==> shownOut == RenderingOf(out, limit) && shownErr.Nothing?
    ensures truncated && out == [] ==> shownErr == RenderingOf(err, limit) && shownOut.Nothing?
  {
    var outBudget, errBudget;
    truncated, outBudget, errBudget := SplitBudget(stdout.totalBytes, stderr.totalBytes, limit);
    shownOut := stdout.Render(outBudget, out);
    shownErr := stderr.Render(errBudget, err);
  }

  /**
   * The stream itself if it fits; else exactly `budget` bytes of it, apart from each other, and a true count of the
   * rest.
   */
  lemma RenderingShowsBudget(stream: Bytes, budget: nat)
    ensures var r := RenderingOf(stream, budget);
            && r.Shown() == Min(|stream|, budget)
            && (r.Truncated? <==> |stream| > budget)
            && (r.Truncated? ==> r.missing == |stream| - budget > 0 && exists middle: Bytes ::
                |middle| == r.missing && r.head + middle + r.tail == stream)
            && (r.Whole? ==> r.bytes == stream)
  {
    var r := RenderingOf(stream, budget);
    if r.Truncated? {
      var middle := stream[|r.head|..|stream| - |r.tail|];
      assert r.head + middle + r.tail == stream;
    }
  }

  /** Two streams over the limit together: what is shown stays within it, and at least one of them is cut. */
  lemma BothStayWithinTheLimit(out: Bytes, err: Bytes, limit: nat)
    requires |out| + |err| > limit && out != [] && err != []
    ensures var shownOut, shownErr := RenderingOf(out, HalfUp(limit)), RenderingOf(err, limit - HalfUp(limit));
            && shownOut.Shown() + shownErr.Shown() <= limit
            && (shownOut.Truncated? || shownErr.Truncated?)
            && shownOut.Shown() == Min(|out|, HalfUp(limit))
            && shownErr.Shown() == Min(|err|, limit - HalfUp(limit))
  {
    RenderingShowsBudget(out, HalfUp(limit));
    RenderingShowsBudget(err, limit - HalfUp(limit));
  }
}
