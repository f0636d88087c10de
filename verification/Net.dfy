/** Line framing over a byte stream: `read_command_line` and `write_command_line`. */
module Net {
  import opened Address
  import opened Options
  import opened Utf8
  import opened Sequences

  type Bytes = seq<Byte>

  /** What one `recv_from` brings. */
  datatype Received =
    | Datagram(text: string, src: Addr)
    | NotText
    | TimedOut
    | Failed

  datatype ReadResult = EndOfStream | TooLong | NotUtf8 | Line(text: string)

  /** What `read_until(b'\n')` consumes: everything up to and including the first newline. */
  function Chunk(b: Bytes): (c: Bytes)
    ensures c <= b && (b != [] ==> c != [])
  {
    if b == [] then []
    else if b[0] == NEWLINE then [NEWLINE]
    else [b[0]] + Chunk(b[1..])
  }

  function AfterChunk(b: Bytes): Bytes {
    b[|Chunk(b)|..]
  }

  predicate IsEol(x: Byte) {
    x == NEWLINE || x == RETURN
  }

  function StripEol(b: Bytes): (t: Bytes)
    ensures t <= b
    ensures t != [] ==> !IsEol(t[|t| - 1])
  {
    if b != [] && IsEol(b[|b| - 1]) then StripEol(b[..|b| - 1]) else b
  }

  function TextOf(b: Bytes): ReadResult {
    match Decode(b)
    case None => NotUtf8
    case Some(text) => Line(text)
  }

  function ReadLine(b: Bytes, max: nat): ReadResult {
    var chunk := Chunk(b);
    if chunk == [] then EndOfStream
    else if |chunk| > max then TooLong
    else TextOf(StripEol(chunk))
  }

  function Frame(line: string): Bytes {
    Encode(line) + [NEWLINE]
  }

  function Frames(lines: seq<string>): Bytes {
    if lines == [] then [] else Frame(lines[0]) + Frames(lines[1..])
  }

  /** All lines read from a stream, and whether reading ended at the end of the stream. */
  datatype Transcript = Transcript(lines: seq<string>, clean: bool)

  function ReadAll(b: Bytes, max: nat): Transcript
    decreases |b|
  {
    match ReadLine(b, max)
    case EndOfStream => Transcript([], true)
    case TooLong => Transcript([], false)
    case NotUtf8 => Transcript([], false)
    case Line(text) =>
      var rest := ReadAll(AfterChunk(b), max);
      Transcript([text] + rest.lines, rest.clean)
  }

  class LineReader {
    var unread: Bytes

    constructor (bytes: Bytes)
      ensures unread == bytes
    {
      unread := bytes;
    }

    /** Each read consumes one chunk; nothing is consumed only at the end of the stream. */
    method ReadCommandLine(max: nat) returns (r: ReadResult)
      modifies this
      ensures r == ReadLine(old(unread), max) && unread == AfterChunk(old(unread))
      ensures if old(unread) == [] then r.EndOfStream? else !r.EndOfStream? && |unread| < |old(unread)|
    {
      var buf := Chunk(unread);
      unread := unread[|buf|..];
      if |buf| == 0 {
        return EndOfStream;
      }
      if |buf| > max {
        return TooLong;
      }
      ghost var chunk := buf;
      while buf != [] && IsEol(buf[|buf| - 1])
        invariant StripEol(buf) == StripEol(chunk)
        decreases |buf|
      {
        buf := buf[..|buf| - 1];
      }
      r := TextOf(buf);
    }
  }

  class LineWriter {
    var written: Bytes

    constructor ()
      ensures written == []
    {
      written := [];
    }

    method WriteCommandLine(line: string)
      modifies this
      ensures written == old(written) + Frame(line)
    {
      written := written + Encode(line);
      written := written + [NEWLINE];
      ConcatAssoc(old(written), Encode(line), [NEWLINE]);
    }
  }

  // ---------------------------------------------------------------- framing

  /** The lines that survive framing under the limit. */
  predicate Framable(line: string, max: nat) {
    '\n' !in line && (line == "" || line[|line| - 1] != '\r') && Size(line) + 1 <= max
  }

  lemma {:induction false} ChunkEnds(b: Bytes)
    ensures Chunk(b) == b || (Chunk(b) != [] && Chunk(b)[|Chunk(b)| - 1] == NEWLINE)
    ensures forall i | 0 <= i < |Chunk(b)| - 1 :: Chunk(b)[i] != NEWLINE
  {
    if b != [] && b[0] != NEWLINE {
      assert b == [b[0]] + b[1..];
      ChunkEnds(b[1..]);
    }
  }

  lemma {:induction false} ChunkOf(body: Bytes, rest: Bytes)
    requires NEWLINE !in body
    ensures Chunk(body + [NEWLINE] + rest) == body + [NEWLINE]
  {
    var b := body + [NEWLINE] + rest;
    if body == [] {
      assert b[0] == NEWLINE;
    } else {
      assert b[1..] == body[1..] + [NEWLINE] + rest;
      ChunkOf(body[1..], rest);
      assert [body[0]] + (body[1..] + [NEWLINE]) == body + [NEWLINE];
    }
  }

  lemma ChunkOfFrame(line: string, rest: Bytes)
    requires '\n' !in line
    ensures Chunk(Frame(line) + rest) == Frame(line) && AfterChunk(Frame(line) + rest) == rest
  {
    AsciiBytes(line, '\n');
    ChunkOf(Encode(line), rest);
  }

  /** A line's bytes end like the line. */
  lemma LineEnd(line: string)
    requires line != ""
    ensures Encode(line) != []
    ensures IsEol(Encode(line)[|Encode(line)| - 1]) <==> line[|line| - 1] == '\n' || line[|line| - 1] == '\r'
  {
    LastByte(line, '\n');
    LastByte(line, '\r');
  }

  lemma StripOne(body: Bytes, eol: Byte)
    requires IsEol(eol)
    ensures StripEol(body + [eol]) == StripEol(body)
  {
    assert (body + [eol])[..|body|] == body;
  }

  lemma StripOfLine(line: string)
    requires line == "" || (line[|line| - 1] != '\n' && line[|line| - 1] != '\r')
    ensures StripEol(Frame(line)) == Encode(line)
  {
    StripOne(Encode(line), NEWLINE);
    if line != "" {
      LineEnd(line);
    }
  }

  lemma TextOfEncode(line: string)
    ensures TextOf(Encode(line)) == Line(line)
  {
    DecodeOfEncode(line);
  }

  /** A newline inside the line ends the chunk early. */
  lemma CutAtNewline(line: string, rest: Bytes)
    requires '\n' in line
    ensures Chunk(Frame(line) + rest) != [] && |StripEol(Chunk(Frame(line) + rest))| < |Encode(line)|
  {
    hide Chunk, Encode;
    var b := Frame(line) + rest;
    ChunkEnds(b);
    AsciiBytes(line, '\n');
    var k :| 0 <= k < |Encode(line)| && Encode(line)[k] == NEWLINE;
    assert b[k] == NEWLINE;
    var c := Chunk(b);
    assert |c| <= k + 1 && c != [];
    assert IsEol(c[|c| - 1]);
  }

  /** The bytes a line was read from are the line's bytes. */
  lemma ReadBytes(b: Bytes, max: nat)
    requires ReadLine(b, max).Line?
    ensures Encode(ReadLine(b, max).text) == StripEol(Chunk(b)) && |Chunk(b)| <= max
  {
    EncodeOfDecode(StripEol(Chunk(b)));
  }

  /** One framed line is read back, leaving the rest of the stream, exactly when it is framable. */
  lemma ReadFrame(line: string, rest: Bytes, max: nat)
    ensures ReadLine(Frame(line) + rest, max) == Line(line) <==> Framable(line, max)
    ensures Framable(line, max) ==> AfterChunk(Frame(line) + rest) == rest
  {
    hide Chunk, StripEol, Encode, TextOf;
    var b := Frame(line) + rest;
    if ReadLine(b, max) == Line(line) {
      ReadBytes(b, max);
      if '\n' in line {
        CutAtNewline(line, rest);
      } else {
        ChunkOfFrame(line, rest);
        if line != "" {
          LineEnd(line);
        }
      }
    } else if Framable(line, max) {
      ReadFramable(line, rest, max);
    }
    if Framable(line, max) {
      ChunkOfFrame(line, rest);
    }
  }

  lemma ReadFramable(line: string, rest: Bytes, max: nat)
    requires Framable(line, max)
    ensures ReadLine(Frame(line) + rest, max) == Line(line)
  {
    hide Chunk, StripEol, Encode, TextOf;
    ChunkOfFrame(line, rest);
    if line != "" {
      assert line[|line| - 1] in line;
    }
    StripOfLine(line);
    TextOfEncode(line);
  }

  /** A line that ends in CR LF is delivered without either. */
  lemma ReadCrLf(line: string, rest: Bytes, max: nat)
    requires Framable(line, max) && Size(line) + 2 <= max
    ensures ReadLine(Frame(line + "\r") + rest, max) == Line(line) && AfterChunk(Frame(line + "\r") + rest) == rest
  {
    hide Chunk, StripEol, TextOf;
    var sent := line + "\r";
    assert Encode("\r") == [RETURN] by { EncodeOne('\r'); }
    EncodeConcat(line, "\r");
    ChunkOfFrame(sent, rest);
    StripOne(Encode(sent), NEWLINE);
    StripOne(Encode(line), RETURN);
    StripOne(Encode(line), NEWLINE);
    if line != "" {
      assert line[|line| - 1] in line;
    }
    StripOfLine(line);
    TextOfEncode(line);
  }

  /** A last line without a newline is delivered all the same. */
  lemma ReadLastLine(line: string, max: nat)
    requires line != "" && '\n' !in line && line[|line| - 1] != '\r' && Size(line) <= max
    ensures ReadLine(Encode(line), max) == Line(line) && AfterChunk(Encode(line)) == []
  {
    hide Chunk, StripEol, TextOf, Encode;
    LastChunk(line);
    TextOfEncode(line);
  }

  lemma LastChunk(line: string)
    requires line != "" && '\n' !in line && line[|line| - 1] != '\r'
    ensures Encode(line) != [] && Chunk(Encode(line)) == Encode(line) == StripEol(Encode(line))
  {
    hide Chunk, StripEol, Encode, Size;
    AsciiBytes(line, '\n');
    ChunkOfLast(Encode(line));
    assert line[|line| - 1] in line;
    LineEnd(line);
    StripNothing(Encode(line));
  }

  lemma {:induction false} ChunkOfLast(b: Bytes)
    requires NEWLINE !in b
    ensures Chunk(b) == b
  {
    if b != [] {
      assert b[0] in b && b == [b[0]] + b[1..];
      ChunkOfLast(b[1..]);
    }
  }

  lemma StripNothing(b: Bytes)
    requires b != [] && !IsEol(b[|b| - 1])
    ensures StripEol(b) == b
  {
  }

  /** A line is too long exactly when it does not fit the limit with its newline. */
  lemma ReadTooLong(line: string, rest: Bytes, max: nat)
    requires '\n' !in line
    ensures ReadLine(Frame(line) + rest, max).TooLong? <==> Size(line) + 1 > max
    ensures !ReadLine(Frame(line) + rest, max).EndOfStream?
  {
    hide Chunk, StripEol, Decode;
    ChunkOfFrame(line, rest);
  }

  /** Bytes that are no text's encoding are not delivered. */
  lemma ReadNotText(body: Bytes, rest: Bytes, max: nat)
    requires NEWLINE !in body && |body| + 1 <= max && body != [] && body[|body| - 1] != RETURN
    ensures ReadLine(body + [NEWLINE] + rest, max).NotUtf8? <==> forall s :: Encode(s) != body
  {
    hide Chunk, StripEol, Decode, Encode;
    ChunkOf(body, rest);
    assert body[|body| - 1] in body;
    StripOne(body, NEWLINE);
    StripNothing(body);
    if Decode(body).Some? {
      DecodeExact(body, Decode(body).value);
    }
    forall s ensures Decode(body) == Some(s) <==> Encode(s) == body {
      DecodeExact(body, s);
    }
  }

  lemma ReadAllStep(line: string, rest: Bytes, max: nat)
    requires Framable(line, max)
    ensures ReadAll(Frame(line) + rest, max)
         == Transcript([line] + ReadAll(rest, max).lines, ReadAll(rest, max).clean)
  {
    hide Frame, ReadLine, AfterChunk;
    ReadFrame(line, rest, max);
  }

  /**
   Writing lines one after another and reading them back gives exactly the lines written and then the
   end of the stream, if and only if every line is framable.
   */
  lemma {:induction false} FramingExact(lines: seq<string>, max: nat)
    ensures ReadAll(Frames(lines), max) == Transcript(lines, true) <==> forall l | l in lines :: Framable(l, max)
  {
    if lines != [] {
      var l, tail := lines[0], lines[1..];
      FramingExact(tail, max);
      FirstFrame(l, Frames(tail), max);
      hide Frame, ReadLine, AfterChunk, Framable, ReadAll;
      assert lines == [l] + tail;
      var rest := ReadAll(Frames(tail), max);
      assert [l] + rest.lines == [l] + tail ==> rest.lines == tail by {
        assert ([l] + rest.lines)[1..] == rest.lines && ([l] + tail)[1..] == tail;
      }
    }
  }

  lemma FirstFrame(l: string, rest: Bytes, max: nat)
    ensures var t, more := ReadAll(Frame(l) + rest, max), ReadAll(rest, max);
      if Framable(l, max) then t == Transcript([l] + more.lines, more.clean)
      else !t.clean || t.lines == [] || t.lines[0] != l
  {
    ReadFrame(l, rest, max);
    if Framable(l, max) {
      ReadAllStep(l, rest, max);
    }
    hide Frame, ReadLine, AfterChunk, Framable;
  }

  /** Framed lines are read first, and reading then goes on with whatever follows them. */
  lemma {:induction false} ReadFramesThen(lines: seq<string>, tail: Bytes, max: nat)
    requires forall l | l in lines :: Framable(l, max)
    ensures ReadAll(Frames(lines) + tail, max)
         == Transcript(lines + ReadAll(tail, max).lines, ReadAll(tail, max).clean)
  {
    hide Frame, ReadLine, AfterChunk, Framable;
    if lines == [] {
      assert Frames(lines) + tail == tail;
    } else {
      var l, more := lines[0], lines[1..];
      forall x | x in more ensures x in lines {}
      ReadFramesThen(more, tail, max);
      assert l in lines;
      var after := Frames(more) + tail;
      ReadAllStep(l, after, max);
      ConcatAssoc(Frame(l), Frames(more), tail);
      ConcatAssoc([l], more, ReadAll(tail, max).lines);
      assert lines == [l] + more;
    }
  }

  /** A delivered line never exceeds the limit, never holds a newline and never ends in a carriage return. */
  lemma DeliveredLine(b: Bytes, max: nat)
    requires ReadLine(b, max).Line?
    ensures Size(ReadLine(b, max).text) <= max && '\n' !in ReadLine(b, max).text
    ensures ReadLine(b, max).text != "" ==> ReadLine(b, max).text[|ReadLine(b, max).text| - 1] != '\r'
  {
    hide Chunk, StripEol, Encode, TextOf;
    var text := ReadLine(b, max).text;
    ReadBytes(b, max);
    ChunkEnds(b);
    PrefixWithout(Encode(text), Chunk(b), NEWLINE);
    AsciiBytes(text, '\n');
    if text != "" {
      LineEnd(text);
    }
  }

  lemma PrefixWithout(t: Bytes, chunk: Bytes, x: Byte)
    requires t <= chunk && (t != [] ==> t[|t| - 1] != x)
    requires forall i | 0 <= i < |chunk| - 1 :: chunk[i] != x
    ensures x !in t
  {
    forall i | 0 <= i < |t| ensures t[i] != x {
      assert t[i] == chunk[i];
    }
  }

  lemma {:induction false} FramesConcat(a: seq<string>, b: seq<string>)
    ensures Frames(a + b) == Frames(a) + Frames(b)
  {
    if a == [] {
      assert a + b == b;
    } else {
      assert (a + b)[1..] == a[1..] + b;
      FramesConcat(a[1..], b);
      ConcatAssoc(Frame(a[0]), Frames(a[1..]), Frames(b));
    }
  }
}
