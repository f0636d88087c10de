/** The server's command session: `validate_stream_command` and `handle_tcp_client`. */
module Session {
  import opened Options
  import opened Sequences
  import opened Utf8
  import opened Text
  import opened Address
  import opened Protocol
  import opened Net
  import opened Hub

  const EMPTY_LIST := "empty tickers list"
  const DUPLICATES := "duplicate tickers"
  const UNKNOWN_TICKER := "unknown ticker: "

  datatype Validation = Valid | Invalid(message: string)

  function FirstUnknown(tickers: seq<string>, allowed: seq<string>): Option<string> {
    if tickers == [] then None
    else if tickers[0] !in allowed then Some(tickers[0])
    else FirstUnknown(tickers[1..], allowed)
  }

  function Validate(tickers: seq<string>, allowed: seq<string>): Validation {
    if tickers == [] then Invalid(EMPTY_LIST)
    else if |Elements(tickers)| != |tickers| then Invalid(DUPLICATES)
    else
      match FirstUnknown(tickers, allowed)
      case Some(t) => Invalid(UNKNOWN_TICKER + t)
      case None => Valid
  }

  const UNKNOWN_COMMAND := "unknown command: "
  const ELLIPSIS := "\U{2026}"

  /** Longer commands are quoted by their first 200 bytes; `None` if that slice would cut a character. */
  function UnknownMessage(raw: string): Option<string> {
    if Size(raw) <= 200 then Some(UNKNOWN_COMMAND + raw)
    else
      match Cut(raw, 200)
      case None => None
      case Some(k) => Some(UNKNOWN_COMMAND + (raw[..k] + ELLIPSIS))
  }

  /** What the session does about a command. */
  datatype Reaction = Silent | Replies(line: string) | Panics

  function ReactionTo(cmd: Command, allowed: seq<string>): Reaction {
    match cmd
    case Stream(_, tickers) =>
      (match Validate(tickers, allowed)
       case Valid => Replies(RESPONSE_OK_LINE)
       case Invalid(message) => Replies(FormatErr(message)))
    case Ping => Replies(ToString(Pong))
    case Pong => Silent
    case Unknown(raw) =>
      (match UnknownMessage(raw)
       case None => Panics
       case Some(message) => Replies(FormatErr(message)))
  }

  function Lines(r: Reaction): seq<string> {
    match r
    case Replies(line) => [line]
    case _ => []
  }

  /** An accepted stream command. */
  datatype Subscription = Subscription(dest: Addr, tickers: seq<string>)

  function Admits(cmd: Command, allowed: seq<string>): Option<Subscription> {
    if cmd.Stream? && Validate(cmd.tickers, allowed).Valid?
    then Some(Subscription(cmd.addr, cmd.tickers))
    else None
  }

  function List<T>(o: Option<T>): seq<T> {
    match o
    case None => []
    case Some(x) => [x]
  }

  /** How a session ends: with its input, on a line it cannot read, or by a panic. */
  datatype End = Closed | Aborted | Crashed

  /** A whole session: the replies written, the streams accepted, and how it ended. */
  datatype Outcome = Outcome(replies: seq<string>, accepted: seq<Subscription>, end: End)

  function Serve(input: Bytes, allowed: seq<string>): Outcome
    decreases |input|
  {
    match ReadLine(input, MAX_COMMAND_LINE_BYTES)
    case EndOfStream => Outcome([], [], Closed)
    case TooLong => Outcome([], [], Aborted)
    case NotUtf8 => Outcome([], [], Aborted)
    case Line(text) =>
      var cmd := Parse(text);
      var reaction := ReactionTo(cmd, allowed);
      if reaction.Panics? then Outcome([], [], Crashed)
      else
        var rest := Serve(AfterChunk(input), allowed);
        Outcome(Lines(reaction) + rest.replies, List(Admits(cmd, allowed)) + rest.accepted, rest.end)
  }

  // ---------------------------------------------------------------- the session loop

  /** A stream worker that was started: where it sends, and which hub channel it drains. */
  datatype Start = Start(dest: Addr, rx: nat)

  function NewSubscribers(accepted: seq<Subscription>): seq<Subscriber> {
    if accepted == [] then [] else [NewSubscriber(accepted[0].tickers)] + NewSubscribers(accepted[1..])
  }

  function Starts(accepted: seq<Subscription>, rx: nat): seq<Start> {
    if accepted == [] then [] else [Start(accepted[0].dest, rx)] + Starts(accepted[1..], rx + 1)
  }

  lemma {:induction false} StartsConcat(a: seq<Subscription>, b: seq<Subscription>, rx: nat)
    ensures NewSubscribers(a + b) == NewSubscribers(a) + NewSubscribers(b)
    ensures Starts(a + b, rx) == Starts(a, rx) + Starts(b, rx + |a|)
    ensures |NewSubscribers(a)| == |a|
  {
    if a == [] {
      assert a + b == b;
    } else {
      var tail, whole := a[1..], a + b;
      assert whole[0] == a[0] && whole[1..] == tail + b;
      StartsConcat(tail, b, rx + 1);
      ConcatAssoc([NewSubscriber(a[0].tickers)], NewSubscribers(tail), NewSubscribers(b));
      ConcatAssoc([Start(a[0].dest, rx)], Starts(tail, rx + 1), Starts(b, rx + |a|));
    }
  }

  /** A session is what was done so far followed by what the rest of the input brings. */
  ghost predicate Continues(whole: Outcome, replies: seq<string>, accepted: seq<Subscription>, rest: Outcome) {
    whole == Outcome(replies + rest.replies, accepted + rest.accepted, rest.end)
  }

  lemma ServeStep(input: Bytes, allowed: seq<string>, whole: Outcome, replies: seq<string>, accepted: seq<Subscription>)
    requires ReadLine(input, MAX_COMMAND_LINE_BYTES).Line?
    requires !ReactionTo(Parse(ReadLine(input, MAX_COMMAND_LINE_BYTES).text), allowed).Panics?
    requires Continues(whole, replies, accepted, Serve(input, allowed))
    ensures var cmd := Parse(ReadLine(input, MAX_COMMAND_LINE_BYTES).text);
      Continues(whole, replies + Lines(ReactionTo(cmd, allowed)), accepted + List(Admits(cmd, allowed)),
                Serve(AfterChunk(input), allowed))
  {
    hide Parse, ReactionTo, Admits, ReadLine, AfterChunk;
    var cmd := Parse(ReadLine(input, MAX_COMMAND_LINE_BYTES).text);
    var rest := Serve(AfterChunk(input), allowed);
    ConcatAssoc(replies, Lines(ReactionTo(cmd, allowed)), rest.replies);
    ConcatAssoc(accepted, List(Admits(cmd, allowed)), rest.accepted);
  }

  lemma ServeEnd(input: Bytes, allowed: seq<string>, whole: Outcome,
                 replies: seq<string>, accepted: seq<Subscription>, end: End)
    requires Continues(whole, replies, accepted, Serve(input, allowed)) && Serve(input, allowed) == Outcome([], [], end)
    ensures whole == Outcome(replies, accepted, end)
  {
  }

  /** What the session has written, subscribed and started after some of its turns. */
  ghost predicate Done(written0: Bytes, written: Bytes, subs0: seq<Subscriber>, subs: seq<Subscriber>,
                       workers0: seq<Start>, workers: seq<Start>, replies: seq<string>, accepted: seq<Subscription>) {
    && written == written0 + Frames(replies)
    && subs == subs0 + NewSubscribers(accepted)
    && workers == workers0 + Starts(accepted, |subs0|)
  }

  lemma DoneTwice(w0: Bytes, w1: Bytes, w2: Bytes, s0: seq<Subscriber>, s1: seq<Subscriber>, s2: seq<Subscriber>,
                  k0: seq<Start>, k1: seq<Start>, k2: seq<Start>,
                  replies: seq<string>, accepted: seq<Subscription>, reply: seq<string>, admitted: seq<Subscription>)
    requires Done(w0, w1, s0, s1, k0, k1, replies, accepted)
    requires Done(w1, w2, s1, s2, k1, k2, reply, admitted)
    ensures Done(w0, w2, s0, s2, k0, k2, replies + reply, accepted + admitted)
  {
    FramesConcat(replies, reply);
    StartsConcat(accepted, admitted, |s0|);
    ConcatAssoc(w0, Frames(replies), Frames(reply));
    ConcatAssoc(s0, NewSubscribers(accepted), NewSubscribers(admitted));
    ConcatAssoc(k0, Starts(accepted, |s0|), Starts(admitted, |s1|));
  }

  /** What one turn does, spelled out. */
  lemma AtMostOne(r: Reaction, admitted: Option<Subscription>, rx: nat)
    ensures Frames(Lines(r)) == if r.Replies? then Frame(r.line) else []
    ensures NewSubscribers(List(admitted)) == if admitted.Some? then [NewSubscriber(admitted.value.tickers)] else []
    ensures Starts(List(admitted), rx) == if admitted.Some? then [Start(admitted.value.dest, rx)] else []
  {
    hide Frame;
    if r.Replies? {
      assert [r.line][1..] == [] && Frames([r.line]) == Frame(r.line) + [];
    }
    if admitted.Some? {
      assert [admitted.value][1..] == [];
    }
  }

  class Server {
    const hub: QuoteHub
    const allowed: seq<string>
    var workers: seq<Start>

    constructor (hub: QuoteHub, allowed: seq<string>)
      ensures this.hub == hub && this.allowed == allowed && workers == []
    {
      this.hub := hub;
      this.allowed := allowed;
      workers := [];
    }

    /** One turn of the session loop: at most one reply line, at most one subscription and worker, or a panic. */
    method Answer(cmd: Command, writer: LineWriter) returns (alive: bool)
      modifies this, hub, writer
      ensures alive <==> !ReactionTo(cmd, allowed).Panics?
      ensures Done(old(writer.written), writer.written, old(hub.subscribers), hub.subscribers, old(workers), workers,
                   Lines(ReactionTo(cmd, allowed)), List(Admits(cmd, allowed)))
    {
      hide Validate, UnknownMessage, Frame, FormatErr;
      AtMostOne(ReactionTo(cmd, allowed), Admits(cmd, allowed), |hub.subscribers|);
      match cmd {
        case Stream(addr, tickers) =>
          var v := Validate(tickers, allowed);
          match v {
            case Valid =>
              writer.WriteCommandLine(RESPONSE_OK_LINE);
              var rx := hub.Subscribe(tickers);
              workers := workers + [Start(addr, rx)];
            case Invalid(message) =>
              writer.WriteCommandLine(FormatErr(message));
          }
        case Ping =>
          writer.WriteCommandLine(ToString(Pong));
        case Pong =>
        case Unknown(raw) =>
          var message := UnknownMessage(raw);
          if message.None? {
            return false;
          }
          writer.WriteCommandLine(FormatErr(message.value));
      }
      alive := true;
    }

    /**
     Serves one connection until its input ends, a line cannot be read or a slice panics: writes the replies,
     subscribes to the hub and starts a worker for each accepted stream, exactly as `Serve` says, nothing else.
     */
    method HandleTcpClient(reader: LineReader, writer: LineWriter) returns (end: End)
      modifies this, hub, reader, writer
      ensures var o := Serve(old(reader.unread), allowed);
        && end == o.end
        && Done(old(writer.written), writer.written, old(hub.subscribers), hub.subscribers, old(workers), workers,
                o.replies, o.accepted)
    {
      hide Parse, ReactionTo, Admits, Done;
      ghost var replies: seq<string>, accepted: seq<Subscription> := [], [];
      ghost var whole := Serve(reader.unread, allowed);
      NothingDone(writer.written, hub.subscribers, workers);
      while true
        invariant Continues(whole, replies, accepted, Serve(reader.unread, allowed))
        invariant Done(old(writer.written), writer.written, old(hub.subscribers), hub.subscribers,
                       old(workers), workers, replies, accepted)
        decreases |reader.unread|
      {
        ghost var input, w1, s1, k1 := reader.unread, writer.written, hub.subscribers, workers;
        var r := reader.ReadCommandLine(MAX_COMMAND_LINE_BYTES);
        if !r.Line? {
          end := if r.EndOfStream? then Closed else Aborted;
          ServeEnd(input, allowed, whole, replies, accepted, end);
          return;
        }
        var cmd := Parse(r.text);
        ghost var reply, admitted := Lines(ReactionTo(cmd, allowed)), List(Admits(cmd, allowed));
        var alive := Answer(cmd, writer);
        DoneTwice(old(writer.written), w1, writer.written, old(hub.subscribers), s1, hub.subscribers,
                  old(workers), k1, workers, replies, accepted, reply, admitted);
        if !alive {
          PanicChangesNothing(cmd, allowed);
          assert replies + [] == replies && accepted + [] == accepted;
          ServeEnd(input, allowed, whole, replies, accepted, Crashed);
          return Crashed;
        }
        ServeStep(input, allowed, whole, replies, accepted);
        replies, accepted := replies + reply, accepted + admitted;
      }
    }
  }

  lemma NothingDone(written: Bytes, subs: seq<Subscriber>, workers: seq<Start>)
    ensures Done(written, written, subs, subs, workers, workers, [], [])
  {
  }

  lemma PanicChangesNothing(cmd: Command, allowed: seq<string>)
    requires ReactionTo(cmd, allowed).Panics?
    ensures Lines(ReactionTo(cmd, allowed)) == [] && List(Admits(cmd, allowed)) == []
  {
  }

  // ---------------------------------------------------------------- validation

  lemma {:induction false} FirstUnknownExact(tickers: seq<string>, allowed: seq<string>)
    ensures FirstUnknown(tickers, allowed).None? <==> forall t | t in tickers :: t in allowed
    ensures var u := FirstUnknown(tickers, allowed);
      u.Some? ==> u.value in tickers && u.value !in allowed
  {
    if tickers != [] {
      assert tickers == [tickers[0]] + tickers[1..];
      FirstUnknownExact(tickers[1..], allowed);
    }
  }

  ghost predicate ValidList(tickers: seq<string>, allowed: seq<string>) {
    tickers != [] && Distinct(tickers) && forall t | t in tickers :: t in allowed
  }

  lemma {:induction false} FirstUnknownIsFirst(tickers: seq<string>, allowed: seq<string>, i: nat)
    requires i < |tickers| && tickers[i] !in allowed && forall k | 0 <= k < i :: tickers[k] in allowed
    ensures FirstUnknown(tickers, allowed) == Some(tickers[i])
  {
    if i > 0 {
      FirstUnknownIsFirst(tickers[1..], allowed, i - 1);
    }
  }

  /**
   Which error a bad list gets: emptiness first, then duplicates, then the first ticker the server does not
   know, by name.
   */
  lemma ValidateReason(tickers: seq<string>, allowed: seq<string>, i: nat)
    ensures tickers == [] ==> Validate(tickers, allowed) == Invalid("empty tickers list")
    ensures tickers != [] && !Distinct(tickers) ==> Validate(tickers, allowed) == Invalid("duplicate tickers")
    ensures Distinct(tickers)
         && i < |tickers| && tickers[i] !in allowed && (forall k | 0 <= k < i :: tickers[k] in allowed)
        ==> Validate(tickers, allowed) == Invalid("unknown ticker: " + tickers[i])
  {
    DistinctCount(tickers);
    if i < |tickers| && tickers[i] !in allowed && forall k | 0 <= k < i :: tickers[k] in allowed {
      FirstUnknownIsFirst(tickers, allowed, i);
    }
  }

  /** Validation accepts exactly the non-empty, duplicate-free lists inside the server's list. */
  lemma ValidateExact(tickers: seq<string>, allowed: seq<string>)
    ensures Validate(tickers, allowed).Valid? <==> ValidList(tickers, allowed)
  {
    DistinctCount(tickers);
    FirstUnknownExact(tickers, allowed);
  }

  // ---------------------------------------------------------------- what the session says and does

  /** An unknown command is quoted whole up to 200 bytes; a longer one by its first 200 bytes and an ellipsis. */
  lemma UnknownQuoted(raw: string, start: string)
    ensures Size(raw) <= 200 ==> UnknownMessage(raw) == Some("unknown command: " + raw)
    ensures Size(raw) > 200 && start <= raw && |Encode(start)| == 200
        ==> UnknownMessage(raw) == Some("unknown command: " + (start + "\U{2026}"))
  {
    if Size(raw) > 200 && start <= raw && |Encode(start)| == 200 {
      CutPrefix(raw, start);
      assert raw[..|start|] == start;
    }
  }

  /** What each kind of command is answered. */
  lemma Answers(a: Addr, ts: seq<string>, raw: string, allowed: seq<string>)
    ensures ValidList(ts, allowed)
        ==> ReactionTo(Stream(a, ts), allowed) == Replies("OK")
    ensures ValidList(ts, allowed) ==> Admits(Stream(a, ts), allowed) == Some(Subscription(a, ts))
    ensures !ValidList(ts, allowed) ==> Admits(Stream(a, ts), allowed) == None
    ensures !ValidList(ts, allowed)
        ==> ReactionTo(Stream(a, ts), allowed) == Replies(FormatErr(Validate(ts, allowed).message))
    ensures ReactionTo(Ping, allowed) == Replies("PONG") && Admits(Ping, allowed) == None
    ensures ReactionTo(Pong, allowed) == Silent && Admits(Pong, allowed) == None
    ensures Admits(Unknown(raw), allowed) == None
    ensures raw != "" && Trimmed(raw) && Size(raw) <= 200
        ==> ReactionTo(Unknown(raw), allowed) == Replies("ERR " + ("unknown command: " + raw))
  {
    ValidateExact(ts, allowed);
    if raw != "" && Trimmed(raw) && Size(raw) <= 200 {
      UnknownText(raw);
    }
    hide Validate, FormatErr, ValidList, Trimmed, Size, UnknownMessage;
  }

  lemma UnknownText(raw: string)
    requires raw != "" && Trimmed(raw) && Size(raw) <= 200
    ensures UnknownMessage(raw) == Some(UNKNOWN_COMMAND + raw)
    ensures FormatErr(UNKNOWN_COMMAND + raw) == "ERR " + ("unknown command: " + raw)
  {
    var message := UNKNOWN_COMMAND + raw;
    assert message[|message| - 1] == raw[|raw| - 1];
    assert "" + message + "" == message;
    hide FormatErr, Size;
    ErrText("", message, "");
  }

  /** Each accepted stream gets its own channel: its filter is in the hub where its worker receives from. */
  lemma {:induction false} StartsAt(accepted: seq<Subscription>, rx: nat, i: nat)
    requires i < |accepted|
    ensures |NewSubscribers(accepted)| == |Starts(accepted, rx)| == |accepted|
    ensures NewSubscribers(accepted)[i] == NewSubscriber(accepted[i].tickers)
    ensures Starts(accepted, rx)[i].dest == accepted[i].dest && Starts(accepted, rx)[i].rx == rx + i
  {
    hide NewSubscriber;
    StartsCount(accepted, rx);
    if i > 0 {
      StartsAt(accepted[1..], rx + 1, i - 1);
    }
  }

  lemma {:induction false} StartsCount(accepted: seq<Subscription>, rx: nat)
    ensures |NewSubscribers(accepted)| == |Starts(accepted, rx)| == |accepted|
  {
    if accepted != [] {
      StartsCount(accepted[1..], rx + 1);
    }
  }

  // ---------------------------------------------------------------- panics

  /** An unknown command of more than 200 bytes whose byte 200 is inside a character. */
  predicate CutsCharacter(c: Command) {
    c.Unknown? && |Encode(c.raw)| > 200 && Continuation(Encode(c.raw)[200])
  }

  /** The session panics on exactly these commands. */
  lemma PanicsExactly(c: Command, allowed: seq<string>)
    ensures ReactionTo(c, allowed).Panics? <==> CutsCharacter(c)
  {
    if c.Unknown? {
      CutExact(c.raw, 200);
    }
  }

  // ---------------------------------------------------------------- replies on the wire

  /** A reply the client reads back whole, takes apart without a panic, and takes for acceptance only if it is `OK`. */
  ghost predicate Readable(reply: string) {
    && Framable(reply, MAX_COMMAND_LINE_BYTES) && !ParseResponse(reply).Panicked?
    && (ParseResponse(reply).Accepted? <==> reply == RESPONSE_OK_LINE)
  }

  /**
   One readable reply line to every command but `PONG`, unless the session panics: `PONG` to `PING`, and `OK`
   exactly on acceptance.
   */
  ghost predicate WellAnswered(c: Command, allowed: seq<string>) {
    var r := ReactionTo(c, allowed);
    && (r.Panics? <==> CutsCharacter(c))
    && (r.Silent? <==> c == Pong)
    && (c == Ping ==> r == Replies(PONG_COMMAND))
    && (r.Replies? ==> Readable(r.line))
    && (r == Replies(RESPONSE_OK_LINE) <==> Admits(c, allowed).Some?)
  }

  lemma TrimFramable(m: string)
    requires '\n' !in m
    ensures '\n' !in FormatErr(m)
    ensures FormatErr(m)[|FormatErr(m)| - 1] != '\r'
    ensures Size(FormatErr(m)) <= 4 + Size(m)
    ensures FormatErr(m) != RESPONSE_OK_LINE
  {
    TrimKeepsOut(m, '\n');
    TrimIdempotent(m);
    var t := Trim(m);
    SizeConcat(ERR_PREFIX, t);
    AsciiSize(ERR_PREFIX);
    assert t != "" ==> FormatErr(m)[|FormatErr(m)| - 1] == t[|t| - 1];
    assert FormatErr(m)[0] == 'E';
  }

  lemma UnknownReply(raw: string)
    requires '\n' !in raw && UnknownMessage(raw).Some?
    ensures '\n' !in UnknownMessage(raw).value && Size(UnknownMessage(raw).value) <= 220
  {
    hide Size, Cut, Encode;
    QuoteParts();
    if Size(raw) > 200 {
      var k := Cut(raw, 200).value;
      CutExact(raw, 200);
      assert |Encode(raw[..k])| == 200;
      Quoted(raw[..k] + ELLIPSIS, raw[..k], ELLIPSIS);
    } else {
      assert raw + "" == raw;
      Quoted(raw, raw, "");
    }
  }

  lemma EllipsisSize()
    ensures Size(ELLIPSIS) == 3
  {
    assert ELLIPSIS[1..] == "";
    assert Width(ELLIPSIS[0]) == 3;
  }

  lemma QuoteParts()
    ensures '\n' !in UNKNOWN_COMMAND && Size(UNKNOWN_COMMAND) == 17 && '\n' !in ELLIPSIS && Size(ELLIPSIS) == 3
    ensures Size("") == 0
  {
    EllipsisSize();
    hide Size;
    AsciiSize(UNKNOWN_COMMAND);
    AsciiSize("");
  }

  lemma Quoted(text: string, start: string, end: string)
    requires text == start + end && '\n' !in start && '\n' !in end && Size(start) <= 200 && Size(end) <= 3
    ensures '\n' !in UNKNOWN_COMMAND + text && Size(UNKNOWN_COMMAND + text) <= 220
  {
    hide Size;
    QuoteParts();
    SizeConcat(start, end);
    SizeConcat(UNKNOWN_COMMAND, text);
    ConcatWithout(start, end, '\n');
    ConcatWithout(UNKNOWN_COMMAND, text, '\n');
  }

  /** A ticker in a parsed command leaves room for the rest of its command line. */
  lemma TickerLength(line: string, t: string)
    requires Parse(line).Stream? && t in Parse(line).tickers
    ensures Size(t) + 23 <= Size(line)
  {
    hide Parse, ToString, PrintAddr;
    var c := Parse(line);
    PrintedNotLonger(line);
    var i :| 0 <= i < |c.tickers| && c.tickers[i] == t;
    JoinLength(c.tickers, i, ",");
    StreamSize(c.addr, c.tickers);
  }

  lemma FixedMessages()
    ensures '\n' !in EMPTY_LIST && '\n' !in DUPLICATES && '\n' !in UNKNOWN_TICKER
    ensures Size(EMPTY_LIST) == 18 && Size(DUPLICATES) == 17 && Size(UNKNOWN_TICKER) == 16
  {
    hide Size;
    AsciiSize(EMPTY_LIST);
    AsciiSize(DUPLICATES);
    AsciiSize(UNKNOWN_TICKER);
  }

  lemma InvalidMessage(tickers: seq<string>, allowed: seq<string>, v: Validation)
    requires forall t | t in tickers :: '\n' !in t && Size(t) <= 4073
    requires v == Validate(tickers, allowed) && v.Invalid?
    ensures '\n' !in v.message && Size(v.message) <= 4089
  {
    hide Size;
    FixedMessages();
    if v.message != EMPTY_LIST && v.message != DUPLICATES {
      FirstUnknownExact(tickers, allowed);
      var u := FirstUnknown(tickers, allowed);
      assert v.message == UNKNOWN_TICKER + u.value;
      SizeConcat(UNKNOWN_TICKER, u.value);
      ConcatWithout(UNKNOWN_TICKER, u.value, '\n');
    }
  }

  lemma StreamReply(line: string, allowed: seq<string>, tickers: seq<string>)
    requires Parse(line).Stream? && Parse(line).tickers == tickers
    requires Size(line) <= MAX_COMMAND_LINE_BYTES && '\n' !in line
    ensures var v := Validate(tickers, allowed);
      v.Invalid? ==> '\n' !in v.message && Size(v.message) <= 4089
  {
    hide Parse, Validate;
    ParsedWithout(line, '\n');
    forall t | t in tickers ensures '\n' !in t && Size(t) <= 4073 {
      TickerLength(line, t);
    }
    if Validate(tickers, allowed).Invalid? {
      InvalidMessage(tickers, allowed, Validate(tickers, allowed));
    }
  }

  lemma ErrorLine(message: string)
    requires '\n' !in message && Size(message) <= 4089
    ensures Readable(FormatErr(message)) && FormatErr(message) != RESPONSE_OK_LINE
  {
    hide FormatErr, ParseResponse;
    TrimFramable(message);
    ErrRejected(message);
  }

  lemma FixedReplies()
    ensures Readable(RESPONSE_OK_LINE) && Readable(PONG_COMMAND)
  {
    AsciiSize(RESPONSE_OK_LINE);
    AsciiSize(PONG_COMMAND);
    OkAccepted();
    TrimOfTrimmed(PONG_COMMAND);
    ResponsePanics(PONG_COMMAND);
    PongNotAccepted();
    hide ParseResponse;
  }

  lemma PongNotAccepted()
    ensures !ParseResponse(PONG_COMMAND).Accepted?
  {
    TrimOfTrimmed(PONG_COMMAND);
  }

  lemma ReplyFramable(c: Command, allowed: seq<string>)
    requires c.Unknown? ==> '\n' !in c.raw
    requires c.Stream? ==> var v := Validate(c.tickers, allowed);
      v.Invalid? ==> '\n' !in v.message && Size(v.message) <= 4089
    ensures WellAnswered(c, allowed)
  {
    hide Readable, FormatErr, UnknownMessage, CutsCharacter, Validate;
    PanicsExactly(c, allowed);
    FixedReplies();
    match c
    case Stream(_, tickers) =>
      match Validate(tickers, allowed) {
        case Valid =>
        case Invalid(message) => ErrorLine(message);
      }
    case Ping =>
    case Pong =>
    case Unknown(raw) =>
      if UnknownMessage(raw).Some? {
        UnknownReply(raw);
        ErrorLine(UnknownMessage(raw).value);
      }
  }

  /**
   The reply to any line of at most 4096 bytes is one line that fits the limit with its newline, so the
   client reads it back whole, without a panic; it is `OK` exactly when the command was accepted. There is none
   exactly to `PONG`, and when the session panics over a command cut inside a character.
   */
  lemma ReplyOnWire(line: string, allowed: seq<string>)
    requires Size(line) <= MAX_COMMAND_LINE_BYTES && '\n' !in line
    ensures WellAnswered(Parse(line), allowed)
  {
    hide Parse, WellAnswered, Validate;
    var c := Parse(line);
    ParsedWithout(line, '\n');
    if c.Stream? {
      StreamReply(line, allowed, c.tickers);
    }
    ReplyFramable(c, allowed);
  }

  lemma ErrFirst(m: string)
    requires m != "" && !IsWs(m[0])
    ensures |FormatErr(m)| > 4 && FormatErr(m)[4] == m[0]
  {
    var front, back := TrimSplits(m);
    var t := Trim(m);
    assert m == front + t + back;
    assert front == "" && t != "";
    assert m[0] == t[0];
  }

  /** The error about an empty list answers exactly the stream lines whose list is made of commas. */
  lemma EmptyListReply(line: string, allowed: seq<string>)
    ensures ReactionTo(Parse(line), allowed) == Replies(FormatErr(EMPTY_LIST)) <==> CommasOnly(line)
  {
    hide Parse, FormatErr, CommasOnly, UnknownMessage;
    EmptyStream(line);
    ErrFirst(EMPTY_LIST);
    ErrFirst(DUPLICATES);
    match Parse(line)
    case Stream(_, tickers) =>
      if tickers != [] && FirstUnknown(tickers, allowed).Some? {
        ErrFirst(UNKNOWN_TICKER + FirstUnknown(tickers, allowed).value);
      }
    case Unknown(raw) =>
      if UnknownMessage(raw).Some? {
        UnknownStarts(raw);
        ErrFirst(UnknownMessage(raw).value);
      }
    case Ping =>
    case Pong =>
  }

  lemma UnknownStarts(raw: string)
    requires UnknownMessage(raw).Some?
    ensures UNKNOWN_COMMAND <= UnknownMessage(raw).value
  {
  }
}
