/** What a whole session looks like on the wire, for any bytes that come in. */
module SessionTrace {
  import opened Utf8
  import opened Sequences
  import opened Text
  import opened Protocol
  import opened Net
  import opened Session

  function Commands(lines: seq<string>): seq<Command> {
    if lines == [] then [] else [Parse(lines[0])] + Commands(lines[1..])
  }

  /** The commands the session gets through: all of them, or those before the first it panics over. */
  function Handled(cmds: seq<Command>): seq<Command> {
    if cmds == [] || CutsCharacter(cmds[0]) then [] else [cmds[0]] + Handled(cmds[1..])
  }

  function RepliesTo(cmds: seq<Command>, allowed: seq<string>): seq<string> {
    if cmds == [] then [] else Lines(ReactionTo(cmds[0], allowed)) + RepliesTo(cmds[1..], allowed)
  }

  function AdmittedBy(cmds: seq<Command>, allowed: seq<string>): seq<Subscription> {
    if cmds == [] then [] else List(Admits(cmds[0], allowed)) + AdmittedBy(cmds[1..], allowed)
  }

  /** The session over these commands, when reading ends cleanly or not. */
  function SessionOf(cmds: seq<Command>, clean: bool, allowed: seq<string>): Outcome {
    var done := Handled(cmds);
    Outcome(RepliesTo(done, allowed), AdmittedBy(done, allowed),
            if |done| < |cmds| then Crashed else if clean then Closed else Aborted)
  }

  lemma {:induction false} HandledPrefix(cmds: seq<Command>)
    ensures Handled(cmds) <= cmds
    ensures forall c | c in Handled(cmds) :: !CutsCharacter(c)
    ensures |Handled(cmds)| < |cmds| <==> exists c | c in cmds :: CutsCharacter(c)
  {
    hide CutsCharacter;
    if cmds != [] {
      HandledPrefix(cmds[1..]);
      assert cmds == [cmds[0]] + cmds[1..];
      assert CutsCharacter(cmds[0]) ==> cmds[0] in cmds;
    }
  }

  lemma SessionCons(c: Command, cmds: seq<Command>, clean: bool, allowed: seq<string>)
    ensures SessionOf([c] + cmds, clean, allowed)
         == if CutsCharacter(c) then Outcome([], [], Crashed)
            else var rest := SessionOf(cmds, clean, allowed);
              Outcome(Lines(ReactionTo(c, allowed)) + rest.replies, List(Admits(c, allowed)) + rest.accepted, rest.end)
  {
    hide CutsCharacter, ReactionTo, Admits;
    assert ([c] + cmds)[1..] == cmds;
    if !CutsCharacter(c) {
      assert ([c] + Handled(cmds))[1..] == Handled(cmds);
    }
  }

  /** The session answers the commands of the input line by line, in order, until reading or a panic stops it. */
  lemma {:induction false} SessionFollowsInput(input: Bytes, allowed: seq<string>)
    ensures var t := ReadAll(input, MAX_COMMAND_LINE_BYTES);
      Serve(input, allowed) == SessionOf(Commands(t.lines), t.clean, allowed)
    decreases |input|
  {
    var r := ReadLine(input, MAX_COMMAND_LINE_BYTES);
    if r.Line? {
      hide Parse, ReactionTo, Admits, CutsCharacter, SessionOf, ReadLine;
      SessionFollowsInput(AfterChunk(input), allowed);
      var t := ReadAll(AfterChunk(input), MAX_COMMAND_LINE_BYTES);
      assert ([r.text] + t.lines)[1..] == t.lines;
      SessionCons(Parse(r.text), Commands(t.lines), t.clean, allowed);
      PanicsExactly(Parse(r.text), allowed);
    }
  }

  lemma {:induction false} LinesDelivered(input: Bytes)
    ensures forall l | l in ReadAll(input, MAX_COMMAND_LINE_BYTES).lines ::
      Size(l) <= MAX_COMMAND_LINE_BYTES && '\n' !in l
    decreases |input|
  {
    if ReadLine(input, MAX_COMMAND_LINE_BYTES).Line? {
      DeliveredLine(input, MAX_COMMAND_LINE_BYTES);
      LinesDelivered(AfterChunk(input));
    }
  }

  /** No line that reading delivers is too long for the parser: its own size check never applies. */
  lemma OversizeUnreachable(input: Bytes)
    ensures forall l | l in ReadAll(input, MAX_COMMAND_LINE_BYTES).lines :: Parse(l) == ParseTrimmed(Trim(l))
  {
    LinesDelivered(input);
  }

  lemma {:induction false} CommandsOf(lines: seq<string>)
    ensures |Commands(lines)| == |lines| && forall i | 0 <= i < |lines| :: Commands(lines)[i] == Parse(lines[i])
  {
    if lines != [] {
      CommandsOf(lines[1..]);
    }
  }

  /**
   The session panics exactly when one of its lines is an unknown command of more than 200 bytes, once trimmed,
   whose byte 200 is inside a character.
   */
  lemma SessionCrashes(input: Bytes, allowed: seq<string>)
    ensures Serve(input, allowed).end == Crashed
       <==> exists l | l in ReadAll(input, MAX_COMMAND_LINE_BYTES).lines ::
              Parse(l) == Unknown(Trim(l)) && Size(Trim(l)) > 200 && Continuation(Encode(Trim(l))[200])
  {
    hide Parse, ReadAll, Serve, ParseTrimmed;
    SessionFollowsInput(input, allowed);
    OversizeUnreachable(input);
    var lines := ReadAll(input, MAX_COMMAND_LINE_BYTES).lines;
    HandledPrefix(Commands(lines));
    forall l | l in lines
      ensures CutsCharacter(Parse(l))
         <==> Parse(l) == Unknown(Trim(l)) && Size(Trim(l)) > 200 && Continuation(Encode(Trim(l))[200])
    {
      UnknownIsTrimmed(l);
    }
    CutsOfLines(lines);
  }

  lemma CutsOfLines(lines: seq<string>)
    ensures (exists c | c in Commands(lines) :: CutsCharacter(c)) <==> exists l | l in lines :: CutsCharacter(Parse(l))
  {
    hide Parse, CutsCharacter;
    CommandsOf(lines);
    if c :| c in Commands(lines) && CutsCharacter(c) {
      var i :| 0 <= i < |lines| && Commands(lines)[i] == c;
      assert lines[i] in lines;
    }
    if l :| l in lines && CutsCharacter(Parse(l)) {
      var i :| 0 <= i < |lines| && lines[i] == l;
      assert Commands(lines)[i] in Commands(lines);
    }
  }

  lemma UnknownIsTrimmed(line: string)
    requires Parse(line) == ParseTrimmed(Trim(line))
    ensures Parse(line).Unknown? ==> Parse(line) == Unknown(Trim(line))
  {
  }

  lemma {:induction false} CommandsAnswered(lines: seq<string>, allowed: seq<string>)
    requires forall l | l in lines :: Size(l) <= MAX_COMMAND_LINE_BYTES && '\n' !in l
    ensures forall c | c in Commands(lines) :: WellAnswered(c, allowed)
  {
    hide Parse, WellAnswered, Size;
    if lines != [] {
      assert lines[0] in lines;
      ReplyOnWire(lines[0], allowed);
      forall l | l in lines[1..] ensures l in lines {}
      CommandsAnswered(lines[1..], allowed);
    }
  }

  lemma {:induction false} RepliesOnWire(cmds: seq<Command>, allowed: seq<string>)
    requires forall c | c in cmds :: WellAnswered(c, allowed) && !CutsCharacter(c)
    ensures var replies := RepliesTo(cmds, allowed);
      && (forall r | r in replies :: Readable(r))
      && |replies| + Count(cmds, Pong) == |cmds|
      && Count(replies, RESPONSE_OK_LINE) == |AdmittedBy(cmds, allowed)|
  {
    hide ReactionTo, Admits, CutsCharacter, Readable;
    if cmds != [] {
      assert cmds[0] in cmds;
      forall c | c in cmds[1..] ensures c in cmds {}
      RepliesOnWire(cmds[1..], allowed);
      var reaction, rest := ReactionTo(cmds[0], allowed), RepliesTo(cmds[1..], allowed);
      if reaction.Replies? {
        assert ([reaction.line] + rest)[1..] == rest;
      } else {
        assert Lines(reaction) + rest == rest;
      }
    }
  }

  lemma SessionReplies(input: Bytes, allowed: seq<string>)
    ensures var o := Serve(input, allowed);
      var done := Handled(Commands(ReadAll(input, MAX_COMMAND_LINE_BYTES).lines));
      && (forall r | r in o.replies :: Readable(r))
      && |o.replies| + Count(done, Pong) == |done|
      && Count(o.replies, RESPONSE_OK_LINE) == |o.accepted|
  {
    hide Serve, ReadAll, WellAnswered, Readable, CutsCharacter, Size;
    SessionFollowsInput(input, allowed);
    LinesDelivered(input);
    var cmds := Commands(ReadAll(input, MAX_COMMAND_LINE_BYTES).lines);
    CommandsAnswered(ReadAll(input, MAX_COMMAND_LINE_BYTES).lines, allowed);
    HandledPrefix(cmds);
    forall c | c in Handled(cmds) ensures c in cmds {}
    RepliesOnWire(Handled(cmds), allowed);
  }

  /**
   For any input at all: the peer reads back exactly the replies the session wrote, whole and in order; there is
   one reply to every command the session got through but `PONG`; and the `OK` lines are as many as the
   subscriptions.
   */
  lemma SessionOnWire(input: Bytes, allowed: seq<string>)
    ensures var o := Serve(input, allowed);
      var done := Handled(Commands(ReadAll(input, MAX_COMMAND_LINE_BYTES).lines));
      && ReadAll(Frames(o.replies), MAX_COMMAND_LINE_BYTES) == Transcript(o.replies, true)
      && |o.replies| + Count(done, Pong) == |done|
      && Count(o.replies, RESPONSE_OK_LINE) == |o.accepted|
  {
    hide Serve, ReadAll, Framable, ParseResponse;
    SessionReplies(input, allowed);
    var replies := Serve(input, allowed).replies;
    forall r | r in replies ensures Framable(r, MAX_COMMAND_LINE_BYTES) {
      assert Readable(r);
    }
    FramingExact(replies, MAX_COMMAND_LINE_BYTES);
  }

  /** A line that is too long or not UTF-8 ends the session with an error, after the replies to all earlier lines. */
  lemma UnreadableLineEndsSession(lines: seq<string>, tail: Bytes, allowed: seq<string>)
    requires forall l | l in lines :: Framable(l, MAX_COMMAND_LINE_BYTES)
    requires ReadLine(tail, MAX_COMMAND_LINE_BYTES).TooLong? || ReadLine(tail, MAX_COMMAND_LINE_BYTES).NotUtf8?
    ensures Serve(Frames(lines) + tail, allowed) == SessionOf(Commands(lines), false, allowed)
  {
    hide Serve, Framable, Frames, ReadLine, SessionOf;
    ReadFramesThen(lines, tail, MAX_COMMAND_LINE_BYTES);
    assert lines + [] == lines;
    SessionFollowsInput(Frames(lines) + tail, allowed);
  }
}
