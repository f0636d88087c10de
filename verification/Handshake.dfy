/** The client half of the command channel (`send_stream_expect_response`) against the server session. */
module Handshake {
  import opened Options
  import opened Sequences
  import opened Utf8
  import opened Text
  import opened Address
  import opened Protocol
  import opened Net
  import opened Session
  import opened SessionTrace

  const REJECTED := "STREAM rejected: "

  datatype ClientResult = Accepted | NotAStream | NoReply | Unreadable | Refused(message: string) | Panicked

  /** What the client makes of the first line the server wrote. */
  function Verdict(reply: ReadResult): ClientResult {
    match reply
    case EndOfStream => NoReply
    case TooLong => Unreadable
    case NotUtf8 => Unreadable
    case Line(text) =>
      match ParseResponse(text)
      case Accepted => ClientResult.Accepted
      case Rejected(message) => Refused(REJECTED + message)
      case Panicked => ClientResult.Panicked
  }

  /** The whole exchange: the client's line, the session it starts, the first line of the answer. */
  function Exchange(cmd: Command, allowed: seq<string>): ClientResult {
    if !cmd.Stream? then NotAStream
    else Verdict(ReadLine(Frames(Serve(Frame(ToString(cmd)), allowed).replies), MAX_COMMAND_LINE_BYTES))
  }

  /** One line sent over a fresh connection and the first line of the answer, the session in between. */
  method SendLineReadLine(line: string, server: Server) returns (reply: ReadResult)
    modifies server, server.hub
    ensures var o := Serve(Frame(line), server.allowed);
      && reply == ReadLine(Frames(o.replies), MAX_COMMAND_LINE_BYTES)
      && server.hub.subscribers == old(server.hub.subscribers) + NewSubscribers(o.accepted)
      && server.workers == old(server.workers) + Starts(o.accepted, |old(server.hub.subscribers)|)
  {
    var toServer := new LineWriter();
    toServer.WriteCommandLine(line);
    assert [] + Frame(line) == Frame(line);
    var request := new LineReader(toServer.written);
    var toClient := new LineWriter();
    var _ := server.HandleTcpClient(request, toClient);
    ghost var replies := Serve(Frame(line), server.allowed).replies;
    assert [] + Frames(replies) == Frames(replies);
    var response := new LineReader(toClient.written);
    reply := response.ReadCommandLine(MAX_COMMAND_LINE_BYTES);
  }

  method SendStreamExpectResponse(cmd: Command, server: Server) returns (result: ClientResult)
    modifies server, server.hub
    ensures result == Exchange(cmd, server.allowed)
    ensures var accepted := if cmd.Stream? then Serve(Frame(ToString(cmd)), server.allowed).accepted else [];
      && server.hub.subscribers == old(server.hub.subscribers) + NewSubscribers(accepted)
      && server.workers == old(server.workers) + Starts(accepted, |old(server.hub.subscribers)|)
  {
    if !cmd.Stream? {
      assert server.hub.subscribers == server.hub.subscribers + [] && server.workers == server.workers + [];
      return NotAStream;
    }
    var reply := SendLineReadLine(ToString(cmd), server);
    result := Verdict(reply);
  }

  /** The client succeeds exactly on a line that is `OK` but for whitespace; no reply is exactly the end of input. */
  lemma VerdictExact(reply: ReadResult)
    ensures Verdict(reply) == ClientResult.Accepted <==> reply.Line? && Trim(reply.text) == "OK"
    ensures Verdict(reply) == NoReply <==> reply.EndOfStream?
    ensures Verdict(reply) == Unreadable <==> reply.TooLong? || reply.NotUtf8?
    ensures forall m: string :: Verdict(reply) == Refused("STREAM rejected: " + m)
                           <==> reply.Line? && ParseResponse(reply.text) == Rejected(m)
  {
    if reply.Line? {
      ResponseOk(reply.text);
    }
    hide ParseResponse, Trim;
    forall m: string
      ensures Verdict(reply) == Refused("STREAM rejected: " + m)
         <==> reply.Line? && ParseResponse(reply.text) == Rejected(m)
    {
      if Verdict(reply).Refused? {
        var n := ParseResponse(reply.text).message;
        assert REJECTED + n == REJECTED + m ==> n == m by {
          SameTail(REJECTED, n, m);
        }
      }
    }
  }

  // ---------------------------------------------------------------- one line, one answer

  /** The line as it is delivered. */
  function StripReturns(s: string): (t: string)
    ensures t <= s
    ensures t != "" ==> t[|t| - 1] != '\r'
  {
    if s != "" && s[|s| - 1] == '\r' then StripReturns(s[..|s| - 1]) else s
  }

  lemma {:induction false} StripReturnsBytes(s: string)
    requires '\n' !in s
    ensures StripEol(Encode(s)) == Encode(StripReturns(s))
  {
    if s != "" {
      hide Encode, StripEol;
      var init, last := s[..|s| - 1], s[|s| - 1];
      assert s == init + [last] && last in s;
      LineEnd(s);
      if last == '\r' {
        StripReturnsBytes(init);
        EncodeConcat(init, "\r");
        EncodeOne('\r');
        StripOne(Encode(init), RETURN);
      }
    }
  }

  lemma DeliveredFrame(line: string)
    requires '\n' !in line
    ensures Chunk(Frame(line)) == Frame(line)
    ensures ReadLine(Frame(line), MAX_COMMAND_LINE_BYTES)
         == if Size(line) + 1 > MAX_COMMAND_LINE_BYTES then TooLong else Line(StripReturns(line))
  {
    hide Chunk, StripEol, Encode, TextOf, StripReturns;
    ChunkOfFrame(line, []);
    assert Frame(line) + [] == Frame(line);
    StripOne(Encode(line), NEWLINE);
    StripReturnsBytes(line);
    TextOfEncode(StripReturns(line));
  }

  lemma ServeNothing(allowed: seq<string>)
    ensures Serve([], allowed) == Outcome([], [], Closed)
  {
  }

  lemma ServeOneFrame(line: string, allowed: seq<string>)
    requires '\n' !in line
    ensures var c := Parse(StripReturns(line));
      Serve(Frame(line), allowed)
      == if Size(line) + 1 > MAX_COMMAND_LINE_BYTES then Outcome([], [], Aborted)
         else if ReactionTo(c, allowed).Panics? then Outcome([], [], Crashed)
         else Outcome(Lines(ReactionTo(c, allowed)), List(Admits(c, allowed)), Closed)
  {
    hide Chunk, StripReturns, Parse, ReactionTo, Admits, ReadLine;
    DeliveredFrame(line);
    assert AfterChunk(Frame(line)) == [];
    ServeNothing(allowed);
    var c := Parse(StripReturns(line));
    assert Lines(ReactionTo(c, allowed)) + [] == Lines(ReactionTo(c, allowed));
    assert List(Admits(c, allowed)) + [] == List(Admits(c, allowed));
  }

  lemma FirstLine(reply: string, more: seq<string>)
    requires Framable(reply, MAX_COMMAND_LINE_BYTES)
    ensures ReadLine(Frames([reply] + more), MAX_COMMAND_LINE_BYTES) == Line(reply)
  {
    hide Frame, ReadLine;
    assert ([reply] + more)[1..] == more;
    ReadFrame(reply, Frames(more), MAX_COMMAND_LINE_BYTES);
  }

  lemma OnlyLine(reply: string)
    requires Framable(reply, MAX_COMMAND_LINE_BYTES)
    ensures ReadLine(Frames([reply]), MAX_COMMAND_LINE_BYTES) == Line(reply)
  {
    FirstLine(reply, []);
    assert [reply] + [] == [reply];
  }

  lemma ReplyVerdict(c: Command, allowed: seq<string>)
    requires ReactionTo(c, allowed).Replies?
    ensures ParseResponse(ReactionTo(c, allowed).line) == Response.Accepted <==> Admits(c, allowed).Some?
  {
    match c
    case Stream(_, tickers) =>
      match Validate(tickers, allowed) {
        case Valid => OkAccepted();
        case Invalid(message) => ErrRejected(message);
      }
    case Ping => TrimOfTrimmed(PONG_COMMAND);
    case Unknown(raw) => ErrRejected(UnknownMessage(raw).value);
  }

  /**
   Client and server always agree: for any stream command that prints to one line, canonical or not, the
   client sees success exactly when the server subscribed, and it subscribed at most once.
   */
  lemma Agreement(cmd: Command, allowed: seq<string>)
    requires cmd.Stream? && '\n' !in ToString(cmd)
    ensures Exchange(cmd, allowed) == ClientResult.Accepted <==> |Serve(Frame(ToString(cmd)), allowed).accepted| == 1
    ensures |Serve(Frame(ToString(cmd)), allowed).accepted| <= 1
  {
    hide Parse, ReactionTo, Admits, Serve, ToString, ParseResponse, StripReturns, Framable;
    var line := ToString(cmd);
    ServeOneFrame(line, allowed);
    if Size(line) + 1 <= MAX_COMMAND_LINE_BYTES {
      var c := Parse(StripReturns(line));
      DeliveredFrame(line);
      DeliveredLine(Frame(line), MAX_COMMAND_LINE_BYTES);
      ReplyOnWire(StripReturns(line), allowed);
      match ReactionTo(c, allowed)
      case Replies(reply) =>
        OnlyLine(reply);
        ReplyVerdict(c, allowed);
      case Silent => assert Frames([]) == [];
      case Panics => PanicChangesNothing(c, allowed);
    }
  }

  /** No false success: a client that sees it was subscribed, whatever it sent, newlines included. */
  lemma SuccessMeansServed(cmd: Command, allowed: seq<string>)
    requires Exchange(cmd, allowed) == ClientResult.Accepted
    ensures Serve(Frame(ToString(cmd)), allowed).accepted != []
  {
    hide Serve, ToString, Readable, ReadAll, Frames, Frame, Verdict;
    var o := Serve(Frame(ToString(cmd)), allowed);
    SessionReplies(Frame(ToString(cmd)), allowed);
    SuccessIsOk(o.replies);
    assert Count(o.replies, RESPONSE_OK_LINE) > 0;
  }

  lemma SuccessIsOk(replies: seq<string>)
    requires forall r | r in replies :: Readable(r)
    requires Verdict(ReadLine(Frames(replies), MAX_COMMAND_LINE_BYTES)) == ClientResult.Accepted
    ensures replies != [] && replies[0] == RESPONSE_OK_LINE
  {
    hide Framable, ParseResponse, Frames;
    if replies == [] {
      NoFrames();
    } else {
      assert replies == [replies[0]] + replies[1..] && Readable(replies[0]);
      FirstLine(replies[0], replies[1..]);
    }
  }

  /** The client never panics on an answer of this server, whatever it sent. */
  lemma NeverPanics(cmd: Command, allowed: seq<string>)
    ensures Exchange(cmd, allowed) != ClientResult.Panicked
  {
    hide Serve, ToString, Readable, ReadAll, Frames, Frame, Verdict;
    if cmd.Stream? {
      SessionReplies(Frame(ToString(cmd)), allowed);
      VerdictOnReplies(Serve(Frame(ToString(cmd)), allowed).replies);
    }
  }

  lemma VerdictOnReplies(replies: seq<string>)
    requires forall r | r in replies :: Readable(r)
    ensures Verdict(ReadLine(Frames(replies), MAX_COMMAND_LINE_BYTES)) != ClientResult.Panicked
  {
    hide Framable, ParseResponse, Frames;
    if replies == [] {
      NoFrames();
    } else {
      assert replies == [replies[0]] + replies[1..] && Readable(replies[0]);
      FirstLine(replies[0], replies[1..]);
    }
  }

  lemma NoFrames()
    ensures Frames([]) == []
  {
  }

  // ---------------------------------------------------------------- the handshake

  lemma StreamLineWithout(target: string, list: string, c: char)
    requires c !in target && c !in list && c !in STREAM_WORD && c != ' '
    ensures c !in StreamLine(target, list)
  {
    ConcatWithout(" ", list, c);
    ConcatWithout(target, " " + list, c);
    ConcatWithout(" ", target + (" " + list), c);
    ConcatWithout(STREAM_WORD, " " + (target + (" " + list)), c);
  }

  /** The line of a canonical stream command has no newline in it and no carriage return at its end. */
  lemma CanonicalLine(a: Addr, ts: seq<string>)
    requires AllCanonical(ts)
    ensures '\n' !in ToString(Stream(a, ts)) && StripReturns(ToString(Stream(a, ts))) == ToString(Stream(a, ts))
  {
    hide Target, Join, Spaced, Trimmed, StreamLine;
    CanonicalList(ts);
    TargetWord(a);
    assert '\n' !in Target(a);
    StreamLineWithout(Target(a), Join(ts, ","), '\n');
    StreamLineEnd(Target(a), Join(ts, ","));
  }

  lemma CanonicalList(ts: seq<string>)
    requires AllCanonical(ts)
    ensures '\n' !in Join(ts, ",") && Trimmed(Join(ts, ","))
  {
    hide Join, Spaced, Trimmed;
    forall t | t in ts ensures '\n' !in t && t != "" && Normal(t) {
      assert Canonical(t);
      CanonicalWithout(t, '\n');
    }
    JoinWithout(ts, ",", '\n');
    JoinNormal(ts, ',');
  }

  lemma StreamLineEnd(target: string, list: string)
    requires Trimmed(list)
    ensures var line := StreamLine(target, list); line != "" && line[|line| - 1] != '\r'
  {
    var line, tail := StreamLine(target, list), " " + list;
    assert line[|line| - 1] == tail[|tail| - 1];
    assert list != "" ==> tail[|tail| - 1] == list[|list| - 1];
  }

  lemma ParseCanonical(a: Addr, ts: seq<string>, allowed: seq<string>)
    requires AllCanonical(ts) && Size(ToString(Stream(a, ts))) + 1 <= MAX_COMMAND_LINE_BYTES
    ensures var c := Parse(ToString(Stream(a, ts)));
      Admits(c, allowed) == if ValidList(ts, allowed) then Some(Subscription(a, ts)) else None
  {
    hide Parse, ToString;
    if ts == [] {
      ParsePrintedEmpty(a);
    } else {
      ParsePrintedCanonical(a, ts);
      ValidateExact(ts, allowed);
    }
  }

  /** The command can be served as the client means it: canonical tickers, a valid list, a line that fits. */
  ghost predicate Servable(a: Addr, ts: seq<string>, allowed: seq<string>) {
    AllCanonical(ts) && ValidList(ts, allowed) && Size(ToString(Stream(a, ts))) + 1 <= MAX_COMMAND_LINE_BYTES
  }

  /**
   The end-to-end claim. For every list of canonical tickers, the client's stream command succeeds exactly
   when the list is valid for the server and its line fits the limit; the server then subscribes once, with
   exactly that list and address, and otherwise not at all.
   */
  lemma EndToEnd(a: Addr, ts: seq<string>, allowed: seq<string>)
    requires AllCanonical(ts)
    ensures Exchange(Stream(a, ts), allowed) == ClientResult.Accepted <==> Servable(a, ts, allowed)
    ensures Serve(Frame(ToString(Stream(a, ts))), allowed).accepted
         == (if Servable(a, ts, allowed) then [Subscription(a, ts)] else [])
  {
    hide Parse, ReactionTo, Admits, Serve, ToString, ValidList, AllCanonical, StripReturns, Exchange;
    var line := ToString(Stream(a, ts));
    CanonicalLine(a, ts);
    ServeOneFrame(line, allowed);
    if Size(line) + 1 <= MAX_COMMAND_LINE_BYTES {
      ParseCanonical(a, ts, allowed);
      var c := Parse(line);
      if ReactionTo(c, allowed).Panics? {
        PanicChangesNothing(c, allowed);
      }
    }
    Agreement(Stream(a, ts), allowed);
  }

  /** Whatever comes in, the server only ever subscribes to valid lists of canonical tickers. */
  lemma {:induction false} AcceptedCanonical(input: Bytes, allowed: seq<string>)
    ensures forall x | x in Serve(input, allowed).accepted :: AllCanonical(x.tickers) && ValidList(x.tickers, allowed)
    decreases |input|
  {
    hide Parse, ReactionTo, AllCanonical, ValidList, ReadLine;
    if ReadLine(input, MAX_COMMAND_LINE_BYTES).Line? {
      var text := ReadLine(input, MAX_COMMAND_LINE_BYTES).text;
      var c := Parse(text);
      ReadOn(input);
      if !ReactionTo(c, allowed).Panics? {
        AcceptedCanonical(AfterChunk(input), allowed);
        if Admits(c, allowed).Some? {
          ParsedTickersCanonical(text);
          ValidateExact(c.tickers, allowed);
        }
      }
    }
  }

  lemma ReadOn(input: Bytes)
    requires ReadLine(input, MAX_COMMAND_LINE_BYTES).Line?
    ensures |AfterChunk(input)| < |input|
  {
  }

  /**
   The exact condition, for every list at all: the server subscribes to the client's own list and address, and to
   nothing else, if and only if the tickers are canonical, the list is valid and its line fits. A client that
   sees success was served its own list if and only if its tickers are canonical.
   */
  lemma ServedAsMeant(a: Addr, ts: seq<string>, allowed: seq<string>)
    ensures var accepted := Serve(Frame(ToString(Stream(a, ts))), allowed).accepted;
      && (accepted == [Subscription(a, ts)] <==> Servable(a, ts, allowed))
      && (Exchange(Stream(a, ts), allowed) == ClientResult.Accepted
          ==> (accepted == [Subscription(a, ts)] <==> AllCanonical(ts)))
  {
    hide Serve, ToString, ValidList, AllCanonical, Exchange;
    var accepted := Serve(Frame(ToString(Stream(a, ts))), allowed).accepted;
    AcceptedCanonical(Frame(ToString(Stream(a, ts))), allowed);
    if accepted == [Subscription(a, ts)] {
      assert Subscription(a, ts) in accepted;
    }
    if AllCanonical(ts) {
      EndToEnd(a, ts, allowed);
    }
  }

  // ---------------------------------------------------------------- what the client is told

  lemma RefusedWith(line: string, allowed: seq<string>, message: string)
    requires '\n' !in line && Size(line) + 1 <= MAX_COMMAND_LINE_BYTES && StripReturns(line) == line
    requires ReactionTo(Parse(line), allowed) == Replies(FormatErr(message))
    requires message != "" && Trim(message) == message
    ensures Verdict(ReadLine(Frames(Serve(Frame(line), allowed).replies), MAX_COMMAND_LINE_BYTES))
         == Refused(REJECTED + message)
  {
    hide Parse, ReactionTo, Admits, Serve, StripReturns, FormatErr, ParseResponse;
    ServeOneFrame(line, allowed);
    ReplyOnWire(line, allowed);
    OnlyLine(FormatErr(message));
    ErrRejected(message);
  }

  lemma ReasonTrimmed(ts: seq<string>, allowed: seq<string>, message: string)
    requires AllCanonical(ts) && Validate(ts, allowed) == Invalid(message)
    ensures message != "" && Trim(message) == message
  {
    FirstUnknownExact(ts, allowed);
    assert message != "" && !IsWs(message[0]) && !IsWs(message[|message| - 1]) by {
      if message != EMPTY_LIST && message != DUPLICATES {
        var t := FirstUnknown(ts, allowed).value;
        assert Canonical(t) && message == UNKNOWN_TICKER + t;
        assert message[|message| - 1] == t[|t| - 1];
      }
    }
    TrimOfTrimmed(message);
  }

  lemma RefusedEmpty(a: Addr, allowed: seq<string>)
    ensures Size(ToString(Stream(a, []))) + 1 <= MAX_COMMAND_LINE_BYTES
    ensures Exchange(Stream(a, []), allowed)
         == Refused(REJECTED + (UNKNOWN_COMMAND + (STREAM_WORD + (" " + Target(a)))))
  {
    hide Parse, Serve, Target, Verdict;
    var line, raw := ToString(Stream(a, [])), STREAM_WORD + (" " + Target(a));
    CanonicalLine(a, []);
    ParsePrintedEmpty(a);
    TargetWord(a);
    WordEnds(Target(a));
    EmptyLineFits(a);
    var message := UNKNOWN_COMMAND + raw;
    assert UnknownMessage(raw) == Some(message);
    assert message[|message| - 1] == Target(a)[|Target(a)| - 1];
    TrimOfTrimmed(message);
    RefusedWith(line, allowed, message);
  }

  lemma EmptyLineFits(a: Addr)
    ensures Size(STREAM_WORD + (" " + Target(a))) <= 200 && Size(ToString(Stream(a, []))) < 200
  {
    hide Size, ToString, Target;
    StreamSize(a, []);
    EmptyListLine(a);
    SizeConcat(STREAM_WORD + (" " + Target(a)), " ");
    AsciiSize("");
  }

  lemma EmptyListLine(a: Addr)
    ensures ToString(Stream(a, [])) == STREAM_WORD + (" " + Target(a)) + " " && Join([], ",") == ""
  {
  }

  /**
   The exact outcome for canonical tickers. The client is told the server's own reason; an empty list is
   refused as an unknown command, since its line has only two words; and a line over the limit gets no reply.
   */
  lemma ExactOutcome(a: Addr, ts: seq<string>, allowed: seq<string>)
    requires AllCanonical(ts)
    ensures Exchange(Stream(a, ts), allowed)
         == if Size(ToString(Stream(a, ts))) + 1 > MAX_COMMAND_LINE_BYTES then NoReply
            else if ts == [] then Refused(REJECTED + (UNKNOWN_COMMAND + (STREAM_WORD + (" " + Target(a)))))
            else match Validate(ts, allowed)
                 case Valid => ClientResult.Accepted
                 case Invalid(message) => Refused(REJECTED + message)
  {
    hide Parse, Serve, ToString, Target, Verdict;
    var line := ToString(Stream(a, ts));
    if Size(line) + 1 > MAX_COMMAND_LINE_BYTES {
      TooLongUnanswered(a, ts, allowed);
    } else if ts == [] {
      RefusedEmpty(a, allowed);
    } else {
      ValidateExact(ts, allowed);
      EndToEnd(a, ts, allowed);
      if Validate(ts, allowed).Invalid? {
        CanonicalLine(a, ts);
        ParsePrintedCanonical(a, ts);
        ReasonTrimmed(ts, allowed, Validate(ts, allowed).message);
        RefusedWith(line, allowed, Validate(ts, allowed).message);
      }
    }
  }

  lemma TooLongUnanswered(a: Addr, ts: seq<string>, allowed: seq<string>)
    requires AllCanonical(ts) && Size(ToString(Stream(a, ts))) + 1 > MAX_COMMAND_LINE_BYTES
    ensures Exchange(Stream(a, ts), allowed) == NoReply
  {
    hide Parse, Serve, ToString;
    CanonicalLine(a, ts);
    ServeOneFrame(ToString(Stream(a, ts)), allowed);
    NoFrames();
  }

  lemma SameLine(a: Addr, t: string, u: string)
    ensures ToString(Stream(a, [t + ("," + u)])) == ToString(Stream(a, [t, u]))
  {
    JoinTwo(t, u, ",");
  }

  /**
   An instance: one entry that holds a comma is read as two tickers, so the client sees success for a list the
   server does not know.
   */
  lemma CommaInTicker(a: Addr, t: string, u: string, allowed: seq<string>)
    requires t + ("," + u) !in allowed && Servable(a, [t, u], allowed)
    ensures !ValidList([t + ("," + u)], allowed)
    ensures Exchange(Stream(a, [t + ("," + u)]), allowed) == ClientResult.Accepted
    ensures Serve(Frame(ToString(Stream(a, [t + ("," + u)]))), allowed).accepted == [Subscription(a, [t, u])]
  {
    hide Serve, ToString;
    SameLine(a, t, u);
    assert [t + ("," + u)][0] == t + ("," + u);
    EndToEnd(a, [t, u], allowed);
  }

  lemma ServeFramable(line: string, rest: Bytes, allowed: seq<string>)
    requires Framable(line, MAX_COMMAND_LINE_BYTES) && !ReactionTo(Parse(line), allowed).Panics?
    ensures var c, o := Parse(line), Serve(rest, allowed);
      Serve(Frame(line) + rest, allowed)
      == Outcome(Lines(ReactionTo(c, allowed)) + o.replies, List(Admits(c, allowed)) + o.accepted, o.end)
  {
    ReadFrame(line, rest, MAX_COMMAND_LINE_BYTES);
    hide Parse, ReactionTo, Admits, ReadLine, Framable, Frame, AfterChunk;
  }

  lemma TwoLines(first: string, second: string)
    ensures Frame(first + ("\n" + second)) == Frame(first) + Frame(second)
  {
    hide Encode;
    EncodeConcat(first, "\n" + second);
    EncodeConcat("\n", second);
    EncodeOne('\n');
    assert EncodeChar('\n') == [NEWLINE];
    ConcatAssoc(Encode(first) + [NEWLINE], Encode(second), [NEWLINE]);
    ConcatAssoc(Encode(first), [NEWLINE], Encode(second));
  }

  lemma NewlineLine(a: Addr, t: string, second: string)
    ensures ToString(Stream(a, [t + ("\n" + second)])) == ToString(Stream(a, [t])) + ("\n" + second)
  {
    hide Target, Join;
    var tail, target := "\n" + second, Target(a);
    JoinOne(t, ",");
    JoinOne(t + tail, ",");
    ConcatAssoc(" ", t, tail);
    ConcatAssoc(target, " " + t, tail);
    ConcatAssoc(" ", target + (" " + t), tail);
    ConcatAssoc(STREAM_WORD, " " + (target + (" " + t)), tail);
  }

  lemma UnknownTickerLine(a: Addr, t: string, allowed: seq<string>)
    requires Canonical(t) && t !in allowed && Size(ToString(Stream(a, [t]))) + 1 <= MAX_COMMAND_LINE_BYTES
    ensures var line := ToString(Stream(a, [t])); var c := Parse(line);
      && Framable(line, MAX_COMMAND_LINE_BYTES) && Validate([t], allowed) == Invalid(UNKNOWN_TICKER + t)
      && ReactionTo(c, allowed) == Replies(FormatErr(UNKNOWN_TICKER + t)) && Admits(c, allowed).None?
  {
    hide Parse, ToString, Size, FormatErr;
    assert AllCanonical([t]);
    CanonicalLine(a, [t]);
    ParsePrintedCanonical(a, [t]);
    assert [t][0] == t;
    ValidateReason([t], allowed, 0);
  }

  /**
   A refused client may have been served all the same: an entry with a newline in it is two lines, and when the
   first is refused and the second a valid stream line, the client is told the refusal and the server subscribes.
   */
  lemma NewlineInTicker(a: Addr, t: string, b: Addr, us: seq<string>, allowed: seq<string>)
    requires Canonical(t) && t !in allowed && Size(ToString(Stream(a, [t]))) + 1 <= MAX_COMMAND_LINE_BYTES
    requires Servable(b, us, allowed)
    ensures var cmd := Stream(a, [t + ("\n" + ToString(Stream(b, us)))]);
      && Exchange(cmd, allowed) == Refused(REJECTED + (UNKNOWN_TICKER + t))
      && Serve(Frame(ToString(cmd)), allowed).accepted == [Subscription(b, us)]
  {
    hide Parse, ReactionTo, Admits, Serve, ToString, Frame, Framable, FormatErr, ParseResponse, WellAnswered, Size;
    var first, second := ToString(Stream(a, [t])), ToString(Stream(b, us));
    NewlineLine(a, t, second);
    TwoLines(first, second);
    UnknownTickerLine(a, t, allowed);
    ServeFramable(first, Frame(second), allowed);
    EndToEnd(b, us, allowed);
    var o := Serve(Frame(second), allowed);
    var reply := FormatErr(UNKNOWN_TICKER + t);
    RefusalReply(first, allowed, reply);
    FirstLine(reply, o.replies);
    assert AllCanonical([t]);
    ReasonTrimmed([t], allowed, UNKNOWN_TICKER + t);
    ErrRejected(UNKNOWN_TICKER + t);
  }

  lemma RefusalReply(line: string, allowed: seq<string>, reply: string)
    requires Framable(line, MAX_COMMAND_LINE_BYTES) && ReactionTo(Parse(line), allowed) == Replies(reply)
    ensures Framable(reply, MAX_COMMAND_LINE_BYTES)
  {
    hide Parse, ReactionTo, Admits, CutsCharacter, ParseResponse;
    ReplyOnWire(line, allowed);
  }

  // ---------------------------------------------------------------- a session that panics

  /** 199 letters and a character of two bytes: byte 200 is its second. */
  const CUT_LINE := seq(199, _ => 'a') + "\U{E9}"

  lemma CutLineShape()
    ensures Size(CUT_LINE) == 201 && Continuation(Encode(CUT_LINE)[200])
    ensures '\n' !in CUT_LINE && IsWord(CUT_LINE) && StripReturns(CUT_LINE) == CUT_LINE
  {
    var letters := seq(199, _ => 'a');
    AsciiSize(letters);
    SizeConcat(letters, "\U{E9}");
    EncodeConcat(letters, "\U{E9}");
    EncodeOne('\U{E9}');
    assert CUT_LINE[|CUT_LINE| - 1] == '\U{E9}';
    assert forall i | 0 <= i < |CUT_LINE| :: CUT_LINE[i] == 'a' || CUT_LINE[i] == '\U{E9}';
  }

  /** The panic does occur: sent this line, the session ends at once and says nothing. */
  lemma SessionCut(allowed: seq<string>)
    ensures Serve(Frame(CUT_LINE), allowed) == Outcome([], [], Crashed)
  {
    CutLineShape();
    hide CUT_LINE, Size, Encode, StripReturns, IsWord;
    CutLineParsed();
    PanicsExactly(Unknown(CUT_LINE), allowed);
    ServeOneFrame(CUT_LINE, allowed);
  }

  lemma CutLineParsed()
    ensures Parse(CUT_LINE) == Unknown(CUT_LINE)
  {
    CutLineShape();
    WordEnds(CUT_LINE);
    TrimOfTrimmed(CUT_LINE);
    SplitWsWord(CUT_LINE);
    NotPingPong(CUT_LINE);
  }
}
