/** Line framing of the JSON-RPC server: chunks of standard input in, complete lines out
    (src/mcp/protocol.ts). */
module Framing {
  import opened Wrappers

  const NEWLINE: Byte := 0x0a
  const CARRIAGE_RETURN: Byte := 0x0d

  /** What the server does with a line: hand it on, or answer with the size error. */
  datatype Output = Dispatched(line: Bytes) | Oversized

  // ----- What the whole stream means -----

  /** decodeLine, up to the decoding of its characters. */
  function DecodeLine(line: Bytes): Bytes {
    if line != [] && line[|line| - 1] == CARRIAGE_RETURN then line[..|line| - 1] else line
  }

  function Handle(line: Bytes, maxMessageBytes: nat): Output {
    if |line| > maxMessageBytes then Oversized else Dispatched(DecodeLine(line))
  }

  /** The first newline, or the end. */
  function LineEnd(stream: Bytes): (n: nat)
    ensures n <= |stream| && NEWLINE !in stream[..n]
    ensures n < |stream| ==> stream[n] == NEWLINE
  {
    if stream == [] || stream[0] == NEWLINE then 0
    else
      var n := LineEnd(stream[1..]);
      assert stream[..n + 1] == [stream[0]] + stream[1..][..n];
      n + 1
  }

  /** The stream cut at its newlines, each line handled. What follows the last newline is a line too,
      unless it is empty. */
  function Answers(stream: Bytes, maxMessageBytes: nat): seq<Output> {
    if stream == [] then []
    else
      var n := LineEnd(stream);
      if n == |stream| then [Handle(stream, maxMessageBytes)]
      else [Handle(stream[..n], maxMessageBytes)] + Answers(stream[n + 1..], maxMessageBytes)
  }

  function Flatten(chunks: seq<Bytes>): Bytes {
    if chunks == [] then [] else chunks[0] + Flatten(chunks[1..])
  }

  lemma {:induction false} LineEndAt(line: Bytes, rest: Bytes)
    requires NEWLINE !in line
    ensures LineEnd(line + [NEWLINE] + rest) == |line|
    ensures LineEnd(line) == |line|
  {
    var stream := line + [NEWLINE] + rest;
    if line != [] {
      assert stream[0] == line[0] && line[0] in line;
      assert stream[1..] == line[1..] + [NEWLINE] + rest;
      LineEndAt(line[1..], rest);
    }
  }

  /** Cutting off the first line. */
  lemma FirstLine(line: Bytes, rest: Bytes, max: nat)
    requires NEWLINE !in line
    ensures Answers(line + [NEWLINE] + rest, max) == [Handle(line, max)] + Answers(rest, max)
    ensures line != [] ==> Answers(line, max) == [Handle(line, max)]
  {
    LineEndAt(line, rest);
    var stream := line + [NEWLINE] + rest;
    assert stream[..|line|] == line && stream[|line| + 1..] == rest;
  }

  /** Lines, each ended by a newline. */
  function Terminated(lines: seq<Bytes>): Bytes {
    if lines == [] then [] else lines[0] + [NEWLINE] + Terminated(lines[1..])
  }

  /** A stream written line by line is answered line by line, in order, each by its own size and text. */
  lemma {:induction false} AnswersOfLines(lines: seq<Bytes>, max: nat)
    requires forall i :: 0 <= i < |lines| ==> NEWLINE !in lines[i]
    ensures |Answers(Terminated(lines), max)| == |lines|
    ensures forall i :: 0 <= i < |lines| ==> Answers(Terminated(lines), max)[i] == Handle(lines[i], max)
  {
    if lines != [] {
      AnswersOfLines(lines[1..], max);
      FirstLine(lines[0], Terminated(lines[1..]), max);
      forall i | 0 <= i < |lines| ensures Answers(Terminated(lines), max)[i] == Handle(lines[i], max) {
        if i > 0 { assert lines[i] == lines[1..][i - 1]; }
      }
    }
  }

  // ----- The loop over chunks -----

  /** `chunk.indexOf(0x0a, offset)`, with the end of the chunk for -1. */
  method IndexOfNewline(chunk: Bytes, offset: nat) returns (n: nat)
    requires offset <= |chunk|
    ensures offset <= n <= |chunk| && NEWLINE !in chunk[offset..n]
    ensures n < |chunk| ==> chunk[n] == NEWLINE
  {
    n := offset;
    while n < |chunk| && chunk[n] != NEWLINE
      invariant offset <= n <= |chunk| && NEWLINE !in chunk[offset..n]
    {
      assert chunk[offset..n + 1] == chunk[offset..n] + [chunk[n]];
      n := n + 1;
    }
  }

  /** The pieces kept of the current line are the line, or its size has been exceeded. */
  ghost predicate Buffered(line: Bytes, lineChunks: seq<Bytes>, lineBytes: nat, discarding: bool, max: nat) {
    && NEWLINE !in line
    && (if discarding then |line| > max && lineChunks == [] && lineBytes == 0
        else Flatten(lineChunks) == line && lineBytes == |line| <= max)
  }

  lemma {:induction false} FlattenSnoc(chunks: seq<Bytes>, c: Bytes)
    ensures Flatten(chunks + [c]) == Flatten(chunks) + c
  {
    if chunks == [] {
      assert Flatten([c]) == c + Flatten([]);
    } else {
      FlattenSnoc(chunks[1..], c);
      assert (chunks + [c])[1..] == chunks[1..] + [c];
    }
  }

  /** One step over a chunk: the next newline ends a line, and leaves the stream behind it. */
  lemma CutsLine(line: Bytes, chunk: Bytes, offset: nat, end: nat, rest: Bytes, max: nat)
    requires offset <= end < |chunk| && chunk[end] == NEWLINE
    requires NEWLINE !in line && NEWLINE !in chunk[offset..end]
    ensures Answers(line + (chunk[offset..] + rest), max)
         == [Handle(line + chunk[offset..end], max)] + Answers([] + (chunk[end + 1..] + rest), max)
  {
    var whole, tail := line + chunk[offset..end], chunk[end + 1..] + rest;
    assert chunk[offset..] == chunk[offset..end] + [NEWLINE] + chunk[end + 1..];
    assert line + (chunk[offset..] + rest) == whole + [NEWLINE] + tail;
    FirstLine(whole, tail, max);
    assert [] + tail == tail;
  }

  /** What is answered so far, with what is still owed for the line begun and the bytes not yet seen. */
  ghost predicate Owes(goal: seq<Output>, out: seq<Output>, line: Bytes, chunk: Bytes, offset: nat, rest: Bytes, max: nat)
  {
    offset <= |chunk| && goal == out + Answers(line + (chunk[offset..] + rest), max)
  }

  lemma OwesLess(goal: seq<Output>, out: seq<Output>, line: Bytes, chunk: Bytes, offset: nat, end: nat, rest: Bytes, max: nat)
    requires Owes(goal, out, line, chunk, offset, rest, max) && offset <= end < |chunk| && chunk[end] == NEWLINE
    requires NEWLINE !in line && NEWLINE !in chunk[offset..end]
    ensures Owes(goal, out + [Handle(line + chunk[offset..end], max)], [], chunk, end + 1, rest, max)
  {
    CutsLine(line, chunk, offset, end, rest, max);
  }

  lemma OwesRest(goal: seq<Output>, out: seq<Output>, line: Bytes, chunk: Bytes, offset: nat, rest: Bytes, max: nat)
    requires Owes(goal, out, line, chunk, offset, rest, max)
    ensures goal == out + Answers(line + chunk[offset..|chunk|] + rest, max)
  {
    assert line + (chunk[offset..] + rest) == line + chunk[offset..|chunk|] + rest;
  }

  /** decodeLine or the size error, for a finished line. */
  method FinishLine(lineChunks: seq<Bytes>, discarding: bool, max: nat, ghost line: Bytes) returns (o: Output)
    requires Buffered(line, lineChunks, if discarding then 0 else |line|, discarding, max)
    ensures o == Handle(line, max)
  {
    if discarding { return Oversized; }
    return Dispatched(DecodeLine(Flatten(lineChunks)));
  }

  /** A segment without a newline joins the buffered line, or exceeds its size for good. */
  method BufferSegment(segment: Bytes, max: nat, lineChunks: seq<Bytes>, lineBytes: nat, discarding: bool, ghost line: Bytes)
    returns (chunks: seq<Bytes>, bytes: nat, discards: bool)
    requires Buffered(line, lineChunks, lineBytes, discarding, max) && NEWLINE !in segment
    ensures Buffered(line + segment, chunks, bytes, discards, max)
  {
    chunks, bytes, discards := lineChunks, lineBytes, discarding;
    if !discarding {
      if lineBytes + |segment| > max {
        chunks, bytes, discards := [], 0, true;
      } else if |segment| > 0 {
        FlattenSnoc(lineChunks, segment);
        chunks, bytes := lineChunks + [segment], lineBytes + |segment|;
      } else {
        assert line + segment == line;
      }
    }
  }

  /** The segment up to the next newline, or to the chunk's end, joins the buffered line. */
  method TakeSegment(chunk: Bytes, offset: nat, max: nat, lineChunks: seq<Bytes>, lineBytes: nat, discarding: bool,
                     ghost line: Bytes)
    returns (end: nat, chunks: seq<Bytes>, bytes: nat, discards: bool)
    requires offset < |chunk| && Buffered(line, lineChunks, lineBytes, discarding, max)
    ensures offset <= end <= |chunk| && NEWLINE !in chunk[offset..end]
    ensures end < |chunk| ==> chunk[end] == NEWLINE
    ensures Buffered(line + chunk[offset..end], chunks, bytes, discards, max)
  {
    end := IndexOfNewline(chunk, offset);
    chunks, bytes, discards := BufferSegment(chunk[offset..end], max, lineChunks, lineBytes, discarding, line);
  }

  /** One chunk: the lines it completes go out, and the rest stays buffered. */
  method Feed(chunk: Bytes, max: nat, before: seq<Bytes>, bytesBefore: nat, discardingBefore: bool, ghost start: Bytes,
              ghost rest: Bytes)
    returns (out: seq<Output>, lineChunks: seq<Bytes>, lineBytes: nat, discarding: bool, ghost line: Bytes)
    requires Buffered(start, before, bytesBefore, discardingBefore, max)
    ensures Buffered(line, lineChunks, lineBytes, discarding, max)
    ensures Answers(start + (chunk + rest), max) == out + Answers(line + rest, max)
  {
    ghost var goal := Answers(start + (chunk + rest), max);
    assert chunk[0..] == chunk;
    out, lineChunks, lineBytes, discarding, line := [], before, bytesBefore, discardingBefore, start;
    var offset: nat := 0;
    while offset < |chunk|
      invariant Buffered(line, lineChunks, lineBytes, discarding, max)
      invariant Owes(goal, out, line, chunk, offset, rest, max)
    {
      var end;
      end, lineChunks, lineBytes, discarding := TakeSegment(chunk, offset, max, lineChunks, lineBytes, discarding, line);
      if end == |chunk| {
        OwesRest(goal, out, line, chunk, offset, rest, max);
        line := line + chunk[offset..end];
        return;
      }
      OwesLess(goal, out, line, chunk, offset, end, rest, max);
      var o := FinishLine(lineChunks, discarding, max, line + chunk[offset..end]);
      out := out + [o];
      lineChunks, lineBytes, discarding, line, offset := [], 0, false, [], end + 1;
    }
    OwesRest(goal, out, line, chunk, offset, rest, max);
    assert line + chunk[offset..|chunk|] == line;
  }

  /** listen: however the input is cut into chunks, what goes out is what the whole stream means. */
  method Listen(input: seq<Bytes>, maxMessageBytes: nat) returns (out: seq<Output>)
    ensures out == Answers(Flatten(input), maxMessageBytes)
  {
    out := [];
    var lineChunks: seq<Bytes>, lineBytes: nat, discarding := [], 0, false;
    ghost var line: Bytes := [];
    ghost var goal := Answers(Flatten(input), maxMessageBytes);
    assert line + Flatten(input) == Flatten(input) && input[0..] == input;
    for i := 0 to |input|
      invariant Buffered(line, lineChunks, lineBytes, discarding, maxMessageBytes)
      invariant goal == out + Answers(line + Flatten(input[i..]), maxMessageBytes)
    {
      assert input[i..][0] == input[i] && input[i..][1..] == input[i + 1..];
      var more;
      more, lineChunks, lineBytes, discarding, line :=
        Feed(input[i], maxMessageBytes, lineChunks, lineBytes, discarding, line, Flatten(input[i + 1..]));
      out := out + more;
    }
    assert line + Flatten(input[|input|..]) == line;
    FirstLine(line, [], maxMessageBytes);
    if discarding {
      out := out + [Oversized];
    } else if lineBytes > 0 {
      out := out + [Dispatched(DecodeLine(Flatten(lineChunks)))];
    }
  }
}
