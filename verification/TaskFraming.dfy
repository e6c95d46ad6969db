/** The byte layer of backend/src/agent-task-client.ts: event-stream lines are collected in a bounded
    buffer, decoded one complete line at a time and joined into frames at blank lines.

    Text is represented by its UTF-8 bytes. A byte order mark at the start of a line is dropped, because
    each line is decoded by its own TextDecoder.decode call. */
module TaskFraming {
  import opened Optional

  type Byte = b: int | 0 <= b < 256

  const LF: Byte := 10
  const CR: Byte := 13
  const SPACE: Byte := 32
  const COLON: Byte := 58
  /** "data:" */
  const DATA: seq<Byte> := [100, 97, 116, 97, 58]
  const MAX_FRAME_BYTES: nat := 131072

  // ---- UTF-8 --------------------------------------------------------------------------------------

  predicate Within(s: seq<Byte>, i: nat, lo: int, hi: int) { i < |s| && lo <= s[i] <= hi }

  predicate Tail(s: seq<Byte>, i: nat) { Within(s, i, 0x80, 0xBF) }

  /** The length of the well-formed UTF-8 character at the front of s, 0 when there is none. */
  function CharLength(s: seq<Byte>): (n: nat)
    ensures n <= |s| && n <= 4
  {
    if Within(s, 0, 0, 0x7F) then 1
    else if Within(s, 0, 0xC2, 0xDF) && Tail(s, 1) then 2
    else if ((Within(s, 0, 0xE0, 0xE0) && Within(s, 1, 0xA0, 0xBF)) || (Within(s, 0, 0xE1, 0xEC) && Tail(s, 1))
             || (Within(s, 0, 0xED, 0xED) && Within(s, 1, 0x80, 0x9F))
             || (Within(s, 0, 0xEE, 0xEF) && Tail(s, 1))) && Tail(s, 2) then 3
    else if ((Within(s, 0, 0xF0, 0xF0) && Within(s, 1, 0x90, 0xBF)) || (Within(s, 0, 0xF1, 0xF3) && Tail(s, 1))
             || (Within(s, 0, 0xF4, 0xF4) && Within(s, 1, 0x80, 0x8F))) && Tail(s, 2) && Tail(s, 3) then 4
    else 0
  }

  predicate Utf8(s: seq<Byte>) {
    s == [] || (CharLength(s) > 0 && Utf8(s[CharLength(s)..]))
  }

  function Decode(line: seq<Byte>): Option<seq<Byte>> {
    if !Utf8(line) then None
    else if line[..if |line| < 3 then |line| else 3] == [0xEF, 0xBB, 0xBF] then Some(line[3..])
    else Some(line)
  }

  // ---- One byte at a time -------------------------------------------------------------------------

  datatype Error = SizeLimit | Malformed

  datatype Framing = Framing(line: seq<Byte>, data: seq<seq<Byte>>, frameBytes: nat)

  /** What one byte leads to: nothing yet, a complete frame payload, or the failure of the run. */
  datatype Event = Quiet(framing: Framing) | Frame(framing: Framing, payload: seq<Byte>) | Fail(error: Error)

  const FRESH_FRAMING := Framing([], [], 0)

  function StripCR(line: seq<Byte>): seq<Byte> {
    if |line| > 0 && line[|line| - 1] == CR then line[..|line| - 1] else line
  }

  function Join(lines: seq<seq<Byte>>): seq<Byte> {
    if lines == [] then []
    else if |lines| == 1 then lines[0]
    else lines[0] + [LF] + Join(lines[1..])
  }

  function StripSpace(s: seq<Byte>): seq<Byte> { if |s| > 0 && s[0] == SPACE then s[1..] else s }

  /** The end of a line: a blank line ends the frame, a data line is kept, a comment is skipped. */
  function EndLine(line: seq<Byte>, data: seq<seq<Byte>>, frameBytes: nat): (event: Event)
    ensures !event.Fail? ==> event.framing.line == []
  {
    match Decode(line)
    case None => Fail(Malformed)
    case Some(decoded) =>
      var text := StripCR(decoded);
      if text == [] then (if data == [] then Quiet(FRESH_FRAMING) else Frame(FRESH_FRAMING, Join(data)))
      else if DATA <= text then Quiet(Framing([], data + [StripSpace(text[5..])], frameBytes))
      else if text[0] == COLON then Quiet(Framing([], data, frameBytes))
      else Fail(Malformed)
  }

  function PushByte(f: Framing, b: Byte): Event {
    if f.frameBytes + 1 > MAX_FRAME_BYTES then Fail(SizeLimit)
    else if b == LF then EndLine(f.line, f.data, f.frameBytes + 1)
    else Quiet(Framing(f.line + [b], f.data, f.frameBytes + 1))
  }

  /** How the bytes so far end: still open, or failed. */
  datatype End = Open(framing: Framing) | Failed(error: Error)
  datatype Stream = Stream(frames: seq<seq<Byte>>, end: End)

  /** The frames that a run of bytes completes, reading byte by byte. */
  function Frames(f: Framing, bytes: seq<Byte>): Stream
    decreases |bytes|
  {
    if bytes == [] then Stream([], Open(f))
    else
      match PushByte(f, bytes[0])
      case Quiet(g) => Frames(g, bytes[1..])
      case Frame(g, payload) => var rest := Frames(g, bytes[1..]); Stream([payload] + rest.frames, rest.end)
      case Fail(error) => Stream([], Failed(error))
  }

  // ---- The reader ---------------------------------------------------------------------------------

  /** The reader of the source: a fixed line buffer with a fill count, the data lines and the byte count
      of the current frame. */
  class FrameReader {
    const lineBuffer: array<Byte>
    var lineSize: nat
    var dataLines: seq<seq<Byte>>
    var frameBytes: nat

    /** The buffer never overflows: a line is never longer than the bytes counted for its frame. */
    ghost predicate Valid() reads this {
      lineBuffer.Length == MAX_FRAME_BYTES && lineSize <= frameBytes <= MAX_FRAME_BYTES
    }

    ghost function Contents(): Framing
      reads this, lineBuffer
      requires Valid()
    {
      Framing(lineBuffer[..lineSize], dataLines, frameBytes)
    }

    constructor ()
      ensures Valid() && fresh(lineBuffer) && Contents() == FRESH_FRAMING
    {
      lineBuffer := new Byte[MAX_FRAME_BYTES];
      lineSize, dataLines, frameBytes := 0, [], 0;
    }

    /** Reads one byte. Unless it fails, the new state and the frame are those of PushByte. */
    method Push(b: Byte) returns (event: Event)
      requires Valid()
      modifies this`lineSize, this`dataLines, this`frameBytes, lineBuffer
      ensures Valid()
      ensures event == PushByte(old(Contents()), b)
      ensures !event.Fail? ==> Contents() == event.framing
    {
      ghost var before := Contents();
      if frameBytes + 1 > MAX_FRAME_BYTES {
        return Fail(SizeLimit);
      }
      frameBytes := frameBytes + 1;
      lineBuffer[lineSize] := b;
      lineSize := lineSize + 1;
      assert lineBuffer[..lineSize] == before.line + [b];
      if b != LF {
        return Quiet(Framing(lineBuffer[..lineSize], dataLines, frameBytes));
      }
      var line := lineBuffer[..lineSize - 1];
      assert line == before.line;
      var decoded := Decode(line);
      lineSize := 0;
      assert lineBuffer[..lineSize] == [];
      if decoded.None? {
        return Fail(Malformed);
      }
      var text := StripCR(decoded.value);
      if text == [] {
        var payload, complete := Join(dataLines), dataLines != [];
        dataLines, frameBytes := [], 0;
        return if complete then Frame(FRESH_FRAMING, payload) else Quiet(FRESH_FRAMING);
      } else if DATA <= text {
        dataLines := dataLines + [StripSpace(text[5..])];
      } else if text[0] != COLON {
        return Fail(Malformed);
      }
      return Quiet(Framing([], dataLines, frameBytes));
    }
  }

  // ---- Chunks do not matter -----------------------------------------------------------------------

  /** Reading a and then b from where a ended. */
  function Resume(s: Stream, b: seq<Byte>): Stream {
    match s.end
    case Failed(_) => s
    case Open(f) => var rest := Frames(f, b); Stream(s.frames + rest.frames, rest.end)
  }

  lemma {:induction false} FramesConcat(f: Framing, a: seq<Byte>, b: seq<Byte>)
    ensures Frames(f, a + b) == Resume(Frames(f, a), b)
    decreases |a|
  {
    if a == [] {
      assert a + b == b;
      assert [] + Frames(f, b).frames == Frames(f, b).frames;
    } else {
      assert (a + b)[1..] == a[1..] + b;
      var event := PushByte(f, a[0]);
      if !event.Fail? {
        FramesConcat(event.framing, a[1..], b);
        if event.Frame? && Frames(event.framing, a[1..]).end.Open? {
          var first, rest := Frames(event.framing, a[1..]), Frames(Frames(event.framing, a[1..]).end.framing, b);
          assert [event.payload] + (first.frames + rest.frames) == ([event.payload] + first.frames) + rest.frames;
        }
      }
    }
  }

  function Flatten(chunks: seq<seq<Byte>>): seq<Byte> {
    if chunks == [] then [] else Flatten(chunks[..|chunks| - 1]) + chunks[|chunks| - 1]
  }

  function FramesOfChunks(f: Framing, chunks: seq<seq<Byte>>): Stream {
    if chunks == [] then Stream([], Open(f))
    else Resume(FramesOfChunks(f, chunks[..|chunks| - 1]), chunks[|chunks| - 1])
  }

  /** The frames depend only on the concatenated bytes, not on how they were chunked. */
  lemma {:induction false} ChunkingIsInvisible(f: Framing, chunks: seq<seq<Byte>>)
    ensures FramesOfChunks(f, chunks) == Frames(f, Flatten(chunks))
    decreases |chunks|
  {
    if chunks != [] {
      ChunkingIsInvisible(f, chunks[..|chunks| - 1]);
      FramesConcat(f, Flatten(chunks[..|chunks| - 1]), chunks[|chunks| - 1]);
    }
  }

  // ---- The line-wise specification ----------------------------------------------------------------

  /** The position of the first line feed, |s| when there is none. */
  function LineEnd(s: seq<Byte>): (n: nat)
    ensures n <= |s|
    ensures n < |s| ==> s[n] == LF
    ensures LF !in s[..n]
  {
    if s == [] then 0
    else if s[0] == LF then 0
    else
      var n := LineEnd(s[1..]);
      assert s[..n + 1] == [s[0]] + s[1..][..n];
      n + 1
  }

  /** The specification: split the bytes at line feeds and handle whole lines. `used` is the size of the
      frame so far; a frame of more than MAX_FRAME_BYTES bytes, line feeds included, is an error. */
  function FramesByLine(data: seq<seq<Byte>>, used: nat, bytes: seq<Byte>): Stream
    decreases |bytes|
  {
    var n := LineEnd(bytes);
    if n == |bytes| then
      Stream([], if bytes != [] && used + n > MAX_FRAME_BYTES then Failed(SizeLimit)
        else Open(Framing(bytes, data, used + n)))
    else if used + n + 1 > MAX_FRAME_BYTES then Stream([], Failed(SizeLimit))
    else
      var rest := bytes[n + 1..];
      match EndLine(bytes[..n], data, used + n + 1)
      case Fail(error) => Stream([], Failed(error))
      case Quiet(g) => FramesByLine(g.data, g.frameBytes, rest)
      case Frame(g, payload) => var s := FramesByLine(g.data, g.frameBytes, rest); Stream([payload] + s.frames, s.end)
  }

  /** Bytes without a line feed only fill the buffer. */
  lemma {:induction false} FillLine(f: Framing, text: seq<Byte>)
    requires LF !in text
    ensures Frames(f, text) == Stream([], if text != []
      && f.frameBytes + |text| > MAX_FRAME_BYTES then Failed(SizeLimit)
                                          else Open(Framing(f.line + text, f.data, f.frameBytes + |text|)))
    decreases |text|
  {
    if text == [] {
      assert f.line + text == f.line;
    } else if f.frameBytes + 1 <= MAX_FRAME_BYTES {
      assert text[0] != LF;
      FillLine(Framing(f.line + [text[0]], f.data, f.frameBytes + 1), text[1..]);
      assert f.line + [text[0]] + text[1..] == f.line + text;
    }
  }

  /** What a complete line and the bytes after it lead to. */
  function AfterLine(event: Event, rest: seq<Byte>): Stream {
    match event
    case Fail(error) => Stream([], Failed(error))
    case Quiet(g) => Frames(g, rest)
    case Frame(g, payload) => var s := Frames(g, rest); Stream([payload] + s.frames, s.end)
  }

  lemma FirstByte(f: Framing, b: Byte, rest: seq<Byte>)
    ensures Frames(f, [b] + rest) == AfterLine(PushByte(f, b), rest)
  {
    var bytes := [b] + rest;
    assert bytes[0] == b && bytes[1..] == rest;
  }

  lemma ResumeOpen(f: Framing, b: seq<Byte>)
    ensures Resume(Stream([], Open(f)), b) == Frames(f, b)
  {
    assert [] + Frames(f, b).frames == Frames(f, b).frames;
  }

  lemma LineThenRest(data: seq<seq<Byte>>, used: nat, line: seq<Byte>, rest: seq<Byte>)
    requires LF !in line
    ensures Frames(Framing([], data, used), line + ([LF] + rest)) ==
            if used + |line| + 1 > MAX_FRAME_BYTES then Stream([], Failed(SizeLimit))
            else AfterLine(EndLine(line, data, used + |line| + 1), rest)
  {
    hide Frames, EndLine;
    var f := Framing([], data, used);
    FillLine(f, line);
    FramesConcat(f, line, [LF] + rest);
    if line == [] || used + |line| <= MAX_FRAME_BYTES {
      var g := Framing(line, data, used + |line|);
      assert [] + line == line;
      ResumeOpen(g, [LF] + rest);
      FirstByte(g, LF, rest);
    }
  }

  lemma CutAtLF(bytes: seq<Byte>, n: nat)
    requires n < |bytes| && bytes[n] == LF
    ensures bytes == bytes[..n] + ([LF] + bytes[n + 1..])
  {
  }

  /** Reading byte by byte with the bounded buffer is the same as handling whole lines. */
  lemma {:induction false} FramesMatchLines(data: seq<seq<Byte>>, used: nat, bytes: seq<Byte>)
    ensures Frames(Framing([], data, used), bytes) == FramesByLine(data, used, bytes)
    decreases |bytes|
  {
    hide Frames, EndLine;
    var n := LineEnd(bytes);
    hide LineEnd;
    if n == |bytes| {
      assert bytes[..n] == bytes;
      FillLine(Framing([], data, used), bytes);
      assert [] + bytes == bytes;
    } else {
      var rest := bytes[n + 1..];
      CutAtLF(bytes, n);
      LineThenRest(data, used, bytes[..n], rest);
      if used + n + 1 <= MAX_FRAME_BYTES {
        var event := EndLine(bytes[..n], data, used + n + 1);
        if !event.Fail? {
          FramesMatchLines(event.framing.data, event.framing.frameBytes, rest);
        }
      }
    }
  }

  // ---- Round trip ---------------------------------------------------------------------------------

  function SplitLines(s: seq<Byte>): seq<seq<Byte>>
    decreases |s|
  {
    var n := LineEnd(s);
    if n == |s| then [s] else [s[..n]] + SplitLines(s[n + 1..])
  }

  function EncodeLines(lines: seq<seq<Byte>>): seq<Byte> {
    if lines == [] then [LF] else DATA + [SPACE] + lines[0] + ([LF] + EncodeLines(lines[1..]))
  }

  /** One data line per line of the payload, then a blank line. */
  function Encode(payload: seq<Byte>): seq<Byte> { EncodeLines(SplitLines(payload)) }

  function EncodeAll(payloads: seq<seq<Byte>>): seq<Byte> {
    if payloads == [] then [] else Encode(payloads[0]) + EncodeAll(payloads[1..])
  }

  lemma {:induction false} JoinSplit(s: seq<Byte>)
    ensures SplitLines(s) != [] && Join(SplitLines(s)) == s
    decreases |s|
  {
    var n := LineEnd(s);
    if n < |s| {
      JoinSplit(s[n + 1..]);
      assert ([s[..n]] + SplitLines(s[n + 1..]))[1..] == SplitLines(s[n + 1..]);
      assert s == s[..n] + [LF] + s[n + 1..];
    }
  }

  lemma DropConcat(a: seq<Byte>, b: seq<Byte>, n: nat)
    requires n <= |a|
    ensures (a + b)[n..] == a[n..] + b
  {
  }

  /** A character that fits into the first part of a concatenation is a character of that part. */
  lemma CharOfPrefix(a: seq<Byte>, b: seq<Byte>)
    ensures 0 < CharLength(a) ==> CharLength(a + b) == CharLength(a)
    ensures 0 < CharLength(a + b) <= |a| ==> CharLength(a) == CharLength(a + b)
  {
    assert forall i :: 0 <= i < |a| ==> (a + b)[i] == a[i];
  }

  /** No character of more than one byte contains a line feed. */
  lemma CharStopsAtLF(a: seq<Byte>, b: seq<Byte>)
    requires a != []
    ensures CharLength(a + ([LF] + b)) <= |a|
  {
    assert (a + ([LF] + b))[|a|] == LF;
  }

  lemma Utf8Step(s: seq<Byte>, n: nat)
    requires n == CharLength(s) > 0
    ensures Utf8(s) <==> Utf8(s[n..])
  {
  }

  lemma Utf8HasChar(s: seq<Byte>)
    requires Utf8(s) && s != []
    ensures CharLength(s) > 0
  {
  }

  lemma {:induction false} Utf8Prefix(a: seq<Byte>, b: seq<Byte>)
    requires Utf8(a)
    ensures Utf8(a + b) <==> Utf8(b)
    decreases |a|
  {
    if a == [] {
      assert a + b == b;
    } else {
      hide Utf8, CharLength;
      Utf8HasChar(a);
      var n := CharLength(a);
      CharOfPrefix(a, b);
      DropConcat(a, b, n);
      Utf8Step(a, n);
      Utf8Step(a + b, n);
      Utf8Prefix(a[n..], b);
    }
  }

  /** Cutting well-formed UTF-8 at a line feed leaves well-formed pieces. */
  lemma {:induction false} Utf8Split(a: seq<Byte>, b: seq<Byte>)
    requires LF !in a && Utf8(a + ([LF] + b))
    ensures Utf8(a) && Utf8(b)
    decreases |a|
  {
    if a == [] {
      Utf8AfterLF(b);
      assert a + ([LF] + b) == [LF] + b;
    } else {
      hide Utf8, CharLength;
      var rest := [LF] + b;
      Utf8HasChar(a + rest);
      var n := CharLength(a + rest);
      CharStopsAtLF(a, b);
      CharOfPrefix(a, rest);
      DropConcat(a, rest, n);
      Utf8Step(a + rest, n);
      Utf8Step(a, n);
      Utf8Split(a[n..], b);
    }
  }

  lemma Utf8AfterLF(b: seq<Byte>)
    ensures Utf8([LF] + b) <==> Utf8(b)
  {
    assert ([LF] + b)[1..] == b;
  }

  ghost predicate CleanLine(line: seq<Byte>) { LF !in line && CR !in line && Utf8(line) }

  ghost predicate CleanLines(lines: seq<seq<Byte>>) { forall i :: 0 <= i < |lines| ==> CleanLine(lines[i]) }

  /** The first line and the rest of bytes that are clean as a whole. */
  lemma FirstLineIsClean(s: seq<Byte>, n: nat)
    requires Utf8(s) && CR !in s && n < |s| && s[n] == LF && LF !in s[..n]
    ensures CleanLine(s[..n]) && Utf8(s[n + 1..]) && CR !in s[n + 1..]
  {
    hide Utf8;
    assert s == s[..n] + ([LF] + s[n + 1..]);
    Utf8Split(s[..n], s[n + 1..]);
  }

  lemma CleanCons(line: seq<Byte>, lines: seq<seq<Byte>>)
    requires CleanLine(line) && CleanLines(lines)
    ensures CleanLines([line] + lines)
  {
    hide CleanLine;
  }

  lemma {:induction false} SplitIsClean(s: seq<Byte>)
    requires Utf8(s) && CR !in s
    ensures CleanLines(SplitLines(s))
    decreases |s|
  {
    var n := LineEnd(s);
    hide Utf8, LineEnd, CleanLine, CleanLines;
    if n == |s| {
      OneCleanLine(s);
    } else {
      FirstLineIsClean(s, n);
      SplitIsClean(s[n + 1..]);
      CleanCons(s[..n], SplitLines(s[n + 1..]));
    }
  }

  lemma OneCleanLine(s: seq<Byte>)
    requires Utf8(s) && CR !in s && LineEnd(s) == |s|
    ensures CleanLines([s])
  {
    hide Utf8;
    assert s[..|s|] == s;
  }

  lemma {:induction false} AsciiIsUtf8(s: seq<Byte>)
    requires forall i :: 0 <= i < |s| ==> s[i] < 0x80
    ensures Utf8(s)
  {
    if s != [] { AsciiIsUtf8(s[1..]); }
  }

  /** An encoded data line is decoded to the line itself. */
  lemma DataLine(line: seq<Byte>, data: seq<seq<Byte>>, used: nat)
    requires CleanLine(line)
    ensures EndLine(DATA + [SPACE] + line, data, used) == Quiet(Framing([], data + [line], used))
  {
    hide Utf8;
    var text := DATA + [SPACE] + line;
    AsciiIsUtf8(DATA + [SPACE]);
    Utf8Prefix(DATA + [SPACE], line);
    assert text[..3][0] == 100;
    assert Decode(text) == Some(text);
    assert text[|text| - 1] != CR;
    assert text[5..] == [SPACE] + line;
  }

  lemma BlankLine(data: seq<seq<Byte>>, used: nat)
    requires data != []
    ensures EndLine([], data, used) == Frame(FRESH_FRAMING, Join(data))
  {}

  lemma {:induction false} EncodedLines(lines: seq<seq<Byte>>, data: seq<seq<Byte>>, used: nat, rest: seq<Byte>)
    requires CleanLines(lines)
    requires used + |EncodeLines(lines)| <= MAX_FRAME_BYTES && data + lines != []
    ensures Frames(Framing([], data, used), EncodeLines(lines) + rest)
      == AfterLine(Frame(FRESH_FRAMING, Join(data + lines)), rest)
    decreases |lines|
  {
    hide Frames, Decode, Utf8, EndLine;
    if lines == [] {
      BlankLine(data, used + 1);
      assert EncodeLines(lines) + rest == [] + ([LF] + rest);
      LineThenRest(data, used, [], rest);
      assert data + lines == data;
    } else {
      var line := DATA + [SPACE] + lines[0];
      assert EncodeLines(lines) + rest == line + ([LF] + (EncodeLines(lines[1..]) + rest));
      LineThenRest(data, used, line, EncodeLines(lines[1..]) + rest);
      DataLine(lines[0], data, used + |line| + 1);
      assert data + [lines[0]] + lines[1..] == data + lines;
      EncodedLines(lines[1..], data + [lines[0]], used + |line| + 1, rest);
    }
  }

  /** Encoding payloads that are valid UTF-8 without carriage returns, each within the frame limit, and
      reading the bytes gives exactly the payloads back. */
  lemma {:induction false} RoundTrip(payloads: seq<seq<Byte>>)
    requires forall i ::
        0 <= i < |payloads| ==> Utf8(payloads[i]) && CR !in payloads[i] && |Encode(payloads[i])| <= MAX_FRAME_BYTES
    ensures Frames(FRESH_FRAMING, EncodeAll(payloads)) == Stream(payloads, Open(FRESH_FRAMING))
    decreases |payloads|
  {
    if payloads != [] {
      SplitIsClean(payloads[0]);
      JoinSplit(payloads[0]);
      assert [] + SplitLines(payloads[0]) == SplitLines(payloads[0]);
      EncodedLines(SplitLines(payloads[0]), [], 0, EncodeAll(payloads[1..]));
      RoundTrip(payloads[1..]);
    }
  }
}
