/** The command protocol: `Command::parse`, `Command::to_string` and the one-line replies. */
module Protocol {
  import opened Options
  import opened Sequences
  import opened Utf8
  import opened Text
  import opened Address

  const MAX_COMMAND_LINE_BYTES: nat := 4096
  const UDP_PREFIX := "udp://"
  const STREAM_WORD := "STREAM"
  const TOO_LONG_MESSAGE := "command" + (" " + "line exceeds MAX_COMMAND_LINE_BYTES")
  const RESPONSE_OK_LINE := "OK"
  const ERR_PREFIX := "ERR "
  const UNEXPECTED := "unexpected server response: "
  const PING_COMMAND := "PING"
  const PONG_COMMAND := "PONG"

  datatype Command =
    | Stream(addr: Addr, tickers: seq<string>)
    | Ping
    | Pong
    | Unknown(raw: string)

  /** Trim every piece and keep the non-empty ones. */
  function KeepTickers(pieces: seq<string>): seq<string> {
    if pieces == [] then []
    else
      var t := Trim(pieces[0]);
      (if t == "" then [] else [t]) + KeepTickers(pieces[1..])
  }

  function ParseTickers(list: string): seq<string> {
    KeepTickers(Split(list, ','))
  }

  function ParseTokens(tokens: seq<string>): Option<Command> {
    if |tokens| >= 3 && EqIgnoreCase(tokens[0], STREAM_WORD) && UDP_PREFIX <= tokens[1] then
      var addr := ParseAddr(tokens[1][|UDP_PREFIX|..]);
      if addr.Some? then Some(Stream(addr.value, ParseTickers(Join(tokens[2..], " ")))) else None
    else None
  }

  function ParseTrimmed(t: string): Command {
    if EqIgnoreCase(t, PING_COMMAND) then Ping
    else if EqIgnoreCase(t, PONG_COMMAND) then Pong
    else
      var stream := ParseTokens(SplitWs(t));
      if stream.Some? then stream.value else Unknown(t)
  }

  function Parse(s: string): Command {
    if Size(s) > MAX_COMMAND_LINE_BYTES then Unknown(TOO_LONG_MESSAGE) else ParseTrimmed(Trim(s))
  }

  /** The line `STREAM <target> <list>`. */
  function StreamLine(target: string, list: string): string {
    STREAM_WORD + (" " + (target + (" " + list)))
  }

  function Target(addr: Addr): string {
    UDP_PREFIX + PrintAddr(addr)
  }

  function ToString(c: Command): string {
    match c
    case Ping => PING_COMMAND
    case Pong => PONG_COMMAND
    case Stream(addr, tickers) => StreamLine(Target(addr), Join(tickers, ","))
    case Unknown(raw) => raw
  }

  function FormatErr(message: string): string {
    ERR_PREFIX + Trim(message)
  }

  /** What the client makes of a reply line; slicing it inside a character panics. */
  datatype Response = Accepted | Rejected(message: string) | Panicked

  function ParseResponse(line: string): Response {
    var t := Trim(line);
    if t == RESPONSE_OK_LINE then Accepted
    else if Size(t) < |ERR_PREFIX| then Rejected(UNEXPECTED + t)
    else
      match Cut(t, |ERR_PREFIX|)
      case None => Panicked
      case Some(k) => if EqIgnoreCase(t[..k], ERR_PREFIX) then Rejected(Trim(t[k..])) else Rejected(UNEXPECTED + t)
  }

  /** The tickers a command line can carry unchanged. */
  ghost predicate Canonical(t: string) {
    t != "" && ',' !in t && Normal(t)
  }

  ghost predicate AllCanonical(ts: seq<string>) {
    forall t | t in ts :: Canonical(t)
  }

  // ---------------------------------------------------------------- the keywords

  predicate StreamKeyword(w: string) {
    Mix(w, "STREAM", "stream")
  }

  predicate PingText(t: string) {
    Mix(t, "PING", "ping")
  }

  predicate PongText(t: string) {
    Mix(t, "PONG", "pong")
  }

  lemma Keywords(w: string)
    ensures EqIgnoreCase(w, STREAM_WORD) <==> StreamKeyword(w)
    ensures EqIgnoreCase(w, PING_COMMAND) <==> PingText(w)
    ensures EqIgnoreCase(w, PONG_COMMAND) <==> PongText(w)
  {
    MixExact(w, "STREAM", "stream");
    MixExact(w, "PING", "ping");
    MixExact(w, "PONG", "pong");
  }

  // ---------------------------------------------------------------- what the parser produces

  lemma {:induction false} KeepTickersCanonical(pieces: seq<string>)
    requires forall p | p in pieces :: Spaced(p) && ',' !in p
    ensures AllCanonical(KeepTickers(pieces))
  {
    if pieces != [] {
      var p := pieces[0];
      assert p in pieces;
      TrimSpaced(p);
      TrimKeepsOut(p, ',');
      forall x | x in pieces[1..] ensures x in pieces {}
      KeepTickersCanonical(pieces[1..]);
    }
  }

  lemma ParseTickersCanonical(tokens: seq<string>)
    requires forall w | w in tokens :: IsWord(w)
    ensures AllCanonical(ParseTickers(Join(tokens, " ")))
  {
    WordsNormal(tokens);
    var list := Join(tokens, " ");
    SplitSpaced(list, ',');
    JoinOfSplit(list, ',');
    KeepTickersCanonical(Split(list, ','));
  }

  /** Every ticker the parser produces is canonical, whatever the line. */
  lemma ParsedTickersCanonical(s: string)
    requires Parse(s).Stream?
    ensures AllCanonical(Parse(s).tickers)
  {
    var tokens := SplitWs(Trim(s));
    SplitWsWords(Trim(s));
    forall w | w in tokens[2..] ensures IsWord(w) {
      assert w in tokens;
    }
    ParseTickersCanonical(tokens[2..]);
  }

  /** Characters other than the space and the comma reach a command only from its line. */
  lemma ParsedWithout(s: string, c: char)
    requires c !in s && c !in TOO_LONG_MESSAGE
    ensures Parse(s).Unknown? ==> c !in Parse(s).raw
    ensures Parse(s).Stream? && IsWs(c) ==> forall t | t in Parse(s).tickers :: c !in t
  {
    match Parse(s)
    case Stream(_, tickers) =>
      ParsedTickersCanonical(s);
      forall t | t in tickers && IsWs(c) && c != ' ' ensures c !in t {
        CanonicalWithout(t, c);
      }
    case Unknown(raw) => TrimKeepsOut(s, c);
    case Ping =>
    case Pong =>
  }

  lemma CanonicalWithout(t: string, c: char)
    requires Canonical(t) && IsWs(c) && c != ' '
    ensures c !in t
  {
    forall i | 0 <= i < |t| ensures t[i] != c {
    }
  }

  lemma {:induction false} KeepTickersShorter(pieces: seq<string>)
    ensures Size(Join(KeepTickers(pieces), ",")) <= Size(Join(pieces, ","))
  {
    if pieces != [] {
      TrimIdempotent(pieces[0]);
      KeepTickersShorter(pieces[1..]);
      var t, rest := Trim(pieces[0]), KeepTickers(pieces[1..]);
      JoinSize(pieces, ",");
      if t == "" {
        assert KeepTickers(pieces) == rest;
      } else {
        assert KeepTickers(pieces) == [t] + rest && ([t] + rest)[1..] == rest;
        JoinSize([t] + rest, ",");
      }
    }
  }

  lemma TokensLength(tokens: seq<string>)
    requires |tokens| >= 3
    ensures Size(Join(tokens, " ")) == Size(tokens[0]) + Size(tokens[1]) + Size(Join(tokens[2..], " ")) + 2
  {
    AsciiSize(" ");
    JoinSize(tokens, " ");
    JoinSize(tokens[1..], " ");
    assert tokens[1..][1..] == tokens[2..];
  }

  lemma LineSize(word: string, target: string, list: string)
    ensures Size(word + (" " + (target + (" " + list)))) == Size(word) + Size(target) + Size(list) + 2
  {
    AsciiSize(" ");
    SizeConcat(word, " " + (target + (" " + list)));
    SizeConcat(" ", target + (" " + list));
    SizeConcat(target, " " + list);
    SizeConcat(" ", list);
  }

  /** The size of a printed stream command. */
  lemma StreamSize(a: Addr, ts: seq<string>)
    ensures Size(ToString(Stream(a, ts))) == 14 + Size(PrintAddr(a)) + Size(Join(ts, ","))
    ensures 9 <= Size(PrintAddr(a)) <= 21
  {
    hide Size, PrintAddr, Join;
    LineSize(STREAM_WORD, Target(a), Join(ts, ","));
    SizeConcat(UDP_PREFIX, PrintAddr(a));
    AsciiSize(STREAM_WORD);
    AsciiSize(UDP_PREFIX);
    PrintAddrLength(a);
  }

  lemma TargetSize(target: string, a: Addr)
    requires UDP_PREFIX <= target && ParseAddr(target[|UDP_PREFIX|..]) == Some(a)
    ensures 6 + Size(PrintAddr(a)) <= Size(target)
  {
    hide Size, PrintAddr, ParseAddr;
    assert target == UDP_PREFIX + target[|UDP_PREFIX|..];
    SizeConcat(UDP_PREFIX, target[|UDP_PREFIX|..]);
    AsciiSize(UDP_PREFIX);
    PrintShorter(target[|UDP_PREFIX|..], a);
  }

  /** The canonical form of a stream command is never longer than the line it was parsed from. */
  lemma PrintedNotLonger(s: string)
    requires Parse(s).Stream?
    ensures Size(ToString(Parse(s))) <= Size(Trim(s)) <= Size(s)
  {
    hide SplitWs, ParseAddr, PrintAddr, ToString, Size, Trim;
    TrimIdempotent(s);
    var tokens := SplitWs(Trim(s));
    RejoinLength(Trim(s));
    TokensLength(tokens);
    StreamSize(Parse(s).addr, Parse(s).tickers);
    TargetSize(tokens[1], Parse(s).addr);
    var list := Join(tokens[2..], " ");
    JoinOfSplit(list, ',');
    KeepTickersShorter(Split(list, ','));
  }

  // ---------------------------------------------------------------- reading a printed command

  lemma {:induction false} KeepCanonical(ts: seq<string>)
    requires AllCanonical(ts)
    ensures KeepTickers(ts) == ts
  {
    if ts != [] {
      assert Canonical(ts[0]);
      TrimOfTrimmed(ts[0]);
      forall t | t in ts[1..] ensures t in ts {}
      KeepCanonical(ts[1..]);
    }
  }

  lemma TargetWord(a: Addr)
    ensures IsWord(Target(a)) && TargetAddr(Target(a)) == Some(a)
  {
    PrintAddrWord(a);
    ParseOfPrint(a);
    assert Target(a)[|UDP_PREFIX|..] == PrintAddr(a);
  }

  lemma WordEnds(w: string)
    requires IsWord(w)
    ensures !IsWs(w[0]) && !IsWs(w[|w| - 1])
  {
    assert w[0] in w && w[|w| - 1] in w;
  }

  lemma Letter(c: char)
    requires 'a' <= Lower(c) <= 'z'
    ensures !IsWs(c) && c as int < 0x80
  {
  }

  lemma LettersOf(word: string, keyword: string)
    requires EqIgnoreCase(word, keyword) && keyword != ""
    requires forall i | 0 <= i < |keyword| :: 'a' <= Lower(keyword[i]) <= 'z'
    ensures IsWord(word) && Size(word) == |word|
  {
    hide IsWs, Lower, Size;
    forall i | 0 <= i < |word| ensures !IsWs(word[i]) && word[i] as int < 0x80 {
      Letter(word[i]);
    }
    AsciiSize(word);
  }

  lemma Keyword(word: string)
    requires StreamKeyword(word) || PingText(word) || PongText(word)
    ensures IsWord(word) && Size(word) == |word|
  {
    hide IsWord, Size, Mix;
    Keywords(word);
    if StreamKeyword(word) {
      LettersOf(word, STREAM_WORD);
    } else if PingText(word) {
      LettersOf(word, PING_COMMAND);
    } else {
      LettersOf(word, PONG_COMMAND);
    }
  }

  /** A line of two words and a list: trimmed, and split into those parts. */
  lemma LineTokens(v: string, g: string, w: string, h: string, list: string)
    requires IsWord(v) && IsWord(w) && list != "" && !IsWs(list[|list| - 1])
    requires AllWs(g) && g != "" && AllWs(h) && h != ""
    ensures Trimmed(v + (g + (w + (h + list))))
    ensures SplitWs(v + (g + (w + (h + list)))) == [v] + ([w] + SplitWs(list))
  {
    var line := v + (g + (w + (h + list)));
    WordEnds(v);
    assert line[0] == v[0] && line[|line| - 1] == list[|list| - 1];
    SplitWsApart(v, g, w + (h + list));
    SplitWsApart(w, h, list);
  }

  /** The address a target word names, if it names one. */
  function TargetAddr(w: string): Option<Addr> {
    if UDP_PREFIX <= w then ParseAddr(w[|UDP_PREFIX|..]) else None
  }

  lemma ParseTokensOf(v: string, w: string, rest: seq<string>)
    requires rest != []
    ensures ParseTokens([v] + ([w] + rest))
         == if StreamKeyword(v) && TargetAddr(w).Some?
            then Some(Stream(TargetAddr(w).value, ParseTickers(Join(rest, " ")))) else None
  {
    Keywords(v);
    hide Mix, EqIgnoreCase, ParseAddr, ParseTickers, Join;
    var tokens := [v] + ([w] + rest);
    assert tokens[0] == v && tokens[1] == w && tokens[2..] == rest;
  }

  /**
   Every line of at least three words, with any whitespace around and between them: it is a stream command exactly
   when the first word is the keyword in any mix of capital and small letters and the second names an address;
   the rest is then the list, its words one space apart. Otherwise it is unknown, and quoted as it was sent.
   */
  lemma ParseLine(front: string, v: string, g: string, w: string, h: string, list: string, back: string)
    requires AllWs(front) && AllWs(back) && AllWs(g) && g != "" && AllWs(h) && h != ""
    requires IsWord(v) && IsWord(w) && list != "" && !IsWs(list[|list| - 1]) && SplitWs(list) != []
    requires Size(front + (v + (g + (w + (h + list)))) + back) <= MAX_COMMAND_LINE_BYTES
    ensures Parse(front + (v + (g + (w + (h + list)))) + back)
         == if StreamKeyword(v) && TargetAddr(w).Some?
            then Stream(TargetAddr(w).value, ParseTickers(Join(SplitWs(list), " ")))
            else Unknown(v + (g + (w + (h + list))))
  {
    var line := v + (g + (w + (h + list)));
    LineTokens(v, g, w, h, list);
    TrimUnique(front, line, back);
    NotPingPong(line);
    ParseTokensOf(v, w, SplitWs(list));
    hide Trim, SplitWs, ParseTokens, EqIgnoreCase, Size, TargetAddr, ParseTickers, Join, StreamKeyword;
  }

  /** A line of fewer than three words: the two one-word commands in any letter case, or unknown. */
  lemma ParseShort(s: string)
    requires Size(s) <= MAX_COMMAND_LINE_BYTES && |SplitWs(Trim(s))| < 3
    ensures Parse(s) == if PingText(Trim(s)) then Ping else if PongText(Trim(s)) then Pong else Unknown(Trim(s))
  {
    Keywords(Trim(s));
    hide Trim, SplitWs, Mix, EqIgnoreCase, Size;
  }

  /** Over the size limit a line is unknown, whatever it says. */
  lemma ParseOversize(s: string)
    requires Size(s) > 4096
    ensures Parse(s) == Unknown("command" + (" " + "line exceeds MAX_COMMAND_LINE_BYTES"))
  {
    hide Size, ParseTrimmed, Trim;
  }

  /** A list is its comma-separated pieces, each trimmed, without the blank ones, in order. */
  lemma TickersOfList(a: string, b: string)
    ensures ',' !in a ==> ParseTickers(a) == if AllWs(a) then [] else [Trim(a)]
    ensures ParseTickers(a + ("," + b)) == ParseTickers(a) + ParseTickers(b)
  {
    SplitConcat(a, ',', b);
    KeepConcat(Split(a, ','), Split(b, ','));
    if ',' !in a {
      SplitNone(a, ',');
      TrimNothing(a);
      assert [a][1..] == [];
    }
  }

  lemma {:induction false} KeepConcat(a: seq<string>, b: seq<string>)
    ensures KeepTickers(a + b) == KeepTickers(a) + KeepTickers(b)
  {
    if a == [] {
      assert a + b == b;
    } else {
      assert (a + b)[0] == a[0] && (a + b)[1..] == a[1..] + b;
      KeepConcat(a[1..], b);
      var t := Trim(a[0]);
      ConcatAssoc(if t == "" then [] else [t], KeepTickers(a[1..]), KeepTickers(b));
    }
  }

  /** A stream line, its keyword in any letter case, is parsed through its target and list parts alone. */
  lemma ParseStreamLine(word: string, target: string, a: Addr, list: string)
    requires StreamKeyword(word)
    requires IsWord(target) && TargetAddr(target) == Some(a)
    requires list != "" && !IsWs(list[|list| - 1]) && SplitWs(list) != []
    requires Size(word + (" " + (target + (" " + list)))) <= MAX_COMMAND_LINE_BYTES
    ensures Parse(word + (" " + (target + (" " + list)))) == Stream(a, ParseTickers(Join(SplitWs(list), " ")))
  {
    Keyword(word);
    Blanks();
    NoEnds(word + (" " + (target + (" " + list))));
    hide SplitWs, StreamKeyword, TargetAddr, ParseTickers, Join, Parse, Size, IsWord, AllWs, IsWs;
    ParseLine("", word, " ", target, " ", list, "");
  }

  lemma Blanks()
    ensures AllWs("") && AllWs(" ")
  {
  }

  lemma NoEnds(line: string)
    ensures "" + line + "" == line
  {
  }

  /** Without a list the trailing space is trimmed away and only two words are left. */
  lemma ParseEmptyList(word: string, target: string)
    requires StreamKeyword(word) && IsWord(target)
    requires Size(word + (" " + (target + (" " + "")))) <= MAX_COMMAND_LINE_BYTES
    ensures Parse(word + (" " + (target + (" " + "")))) == Unknown(word + (" " + target))
  {
    Keyword(word);
    WordEnds(word);
    WordEnds(target);
    var line := word + (" " + target);
    assert line[0] == word[0] && line[|line| - 1] == target[|target| - 1];
    TrimUnique("", line, " ");
    assert word + (" " + (target + (" " + ""))) == "" + line + " ";
    SplitWsAfterSpace(word, target);
    SplitWsWord(target);
    NotPingPong(line);
  }

  lemma NotPingPong(t: string)
    requires |t| > 4
    ensures !EqIgnoreCase(t, PING_COMMAND) && !EqIgnoreCase(t, PONG_COMMAND)
  {
  }

  /** A stream command without tickers is not read back: its line is an unknown command. */
  lemma ParsePrintedEmpty(a: Addr)
    ensures Parse(ToString(Stream(a, []))) == Unknown(STREAM_WORD + (" " + Target(a)))
  {
    TargetWord(a);
    StreamSize(a, []);
    ParseEmptyList(STREAM_WORD, Target(a));
  }

  lemma ParsePrintedCanonical(a: Addr, ts: seq<string>)
    requires ts != [] && AllCanonical(ts)
    requires Size(ToString(Stream(a, ts))) <= MAX_COMMAND_LINE_BYTES
    ensures Parse(ToString(Stream(a, ts))) == Stream(a, ts)
  {
    var list := Join(ts, ",");
    JoinNormal(ts, ',');
    RejoinOfNormal(list);
    TargetWord(a);
    ParseStreamLine(STREAM_WORD, Target(a), a, list);
    SplitOfJoin(ts, ',');
    KeepCanonical(ts);
  }

  /**
   A stream command survives printing and parsing exactly when it names a ticker, all its tickers are
   canonical, and its line fits the limit.
   */
  lemma StreamRoundTrip(a: Addr, ts: seq<string>)
    ensures Parse(ToString(Stream(a, ts))) == Stream(a, ts)
       <==> ts != [] && AllCanonical(ts) && Size(ToString(Stream(a, ts))) <= MAX_COMMAND_LINE_BYTES
  {
    var line := ToString(Stream(a, ts));
    if Parse(line) == Stream(a, ts) {
      ParsedTickersCanonical(line);
      if ts == [] {
        ParsePrintedEmpty(a);
      }
    } else if ts != [] && AllCanonical(ts) && Size(line) <= MAX_COMMAND_LINE_BYTES {
      ParsePrintedCanonical(a, ts);
    }
  }

  /** A line whose first word is not the keyword is unknown. */
  lemma ParseOtherWord(w: string, rest: string)
    requires IsWord(w) && |w| > 4 && !StreamKeyword(w)
    requires rest != "" && !IsWs(rest[|rest| - 1]) && Size(w + (" " + rest)) <= MAX_COMMAND_LINE_BYTES
    ensures Parse(w + (" " + rest)) == Unknown(w + (" " + rest))
  {
    var line := w + (" " + rest);
    WordEnds(w);
    assert line[0] == w[0] && line[|line| - 1] == rest[|rest| - 1];
    TrimOfTrimmed(line);
    SplitWsAfterSpace(w, rest);
    NotPingPong(line);
    Keywords(w);
  }

  // ---------------------------------------------------------------- lists without tickers

  /** Nothing but commas and whitespace. */
  predicate Blank(s: string) {
    forall i | 0 <= i < |s| :: s[i] == ',' || IsWs(s[i])
  }

  predicate Commas(s: string) {
    forall i | 0 <= i < |s| :: s[i] == ','
  }

  lemma TrimNothing(s: string)
    ensures Trim(s) == "" <==> AllWs(s)
  {
    if AllWs(s) {
      TrimUnique(s, "", "");
      assert s + "" + "" == s;
    } else {
      var front, back := TrimSplits(s);
      assert s == front + Trim(s) + back;
    }
  }

  lemma {:induction false} KeepNothing(pieces: seq<string>)
    ensures KeepTickers(pieces) == [] <==> forall p | p in pieces :: AllWs(p)
  {
    if pieces != [] {
      assert pieces == [pieces[0]] + pieces[1..];
      KeepNothing(pieces[1..]);
      TrimNothing(pieces[0]);
    }
  }

  lemma BlankConcat(a: string, b: string)
    ensures Blank(a + b) <==> Blank(a) && Blank(b)
  {
    if Blank(a + b) {
      forall i | 0 <= i < |a| ensures a[i] == ',' || IsWs(a[i]) {
        assert (a + b)[i] == a[i];
      }
      forall i | 0 <= i < |b| ensures b[i] == ',' || IsWs(b[i]) {
        assert (a + b)[|a| + i] == b[i];
      }
    }
  }

  lemma {:induction false} BlankJoin(parts: seq<string>, sep: char)
    requires sep == ',' || IsWs(sep)
    ensures Blank(Join(parts, [sep])) <==> forall p | p in parts :: Blank(p)
  {
    if |parts| > 1 {
      var rest := Join(parts[1..], [sep]);
      BlankJoin(parts[1..], sep);
      BlankConcat(parts[0], [sep] + rest);
      BlankConcat([sep], rest);
      assert parts == [parts[0]] + parts[1..];
    } else if |parts| == 1 {
      assert parts == [parts[0]];
    }
  }

  /** A ticker list yields no ticker exactly when it holds nothing but commas and whitespace. */
  lemma BlankList(list: string)
    ensures ParseTickers(list) == [] <==> Blank(list)
  {
    var pieces := Split(list, ',');
    JoinOfSplit(list, ',');
    KeepNothing(pieces);
    BlankJoin(pieces, ',');
    forall p | p in pieces ensures Blank(p) <==> AllWs(p) {
      assert ',' !in p;
    }
  }

  /** A stream line whose third and later words, of which there are some, are all made of commas. */
  predicate CommasOnly(s: string) {
    var words := SplitWs(Trim(s));
    && Size(s) <= MAX_COMMAND_LINE_BYTES && |words| >= 3
    && StreamKeyword(words[0]) && TargetAddr(words[1]).Some?
    && forall i | 2 <= i < |words| :: Commas(words[i])
  }

  /** The lines that parse to a stream command without tickers, told by their words. */
  lemma EmptyStream(s: string)
    ensures Parse(s).Stream? && Parse(s).tickers == [] <==> CommasOnly(s)
  {
    hide ParseTickers, ParseAddr, Mix, EqIgnoreCase;
    var t := Trim(s);
    var words := SplitWs(t);
    SplitWsWords(t);
    if |words| >= 3 {
      Keywords(words[0]);
      Keywords(t);
      if PingText(t) || PongText(t) {
        Keyword(t);
        SplitWsWord(t);
      }
      var list := words[2..];
      BlankJoin(list, ' ');
      BlankList(Join(list, " "));
      assert (forall w | w in list :: Blank(w)) <==> forall i | 2 <= i < |words| :: Commas(words[i]) by {
        BlankWords(words);
      }
    }
  }

  lemma BlankWords(words: seq<string>)
    requires |words| >= 2 && forall w | w in words :: IsWord(w)
    ensures (forall w | w in words[2..] :: Blank(w)) <==> forall i | 2 <= i < |words| :: Commas(words[i])
  {
    forall i | 2 <= i < |words| ensures Blank(words[i]) <==> Commas(words[i]) && words[i] in words[2..] {
      assert words[i] == words[2..][i - 2];
      forall k | 0 <= k < |words[i]| ensures !IsWs(words[i][k]) {
        assert words[i] in words && words[i][k] in words[i];
      }
    }
  }

  /**
   Printing what was parsed and parsing it again changes nothing, for every input, except exactly when the
   input is a stream line whose list is commas; that one comes back as unknown.
   */
  lemma Normalisation(s: string)
    ensures Parse(ToString(Parse(s))) == Parse(s) <==> !CommasOnly(s)
    ensures CommasOnly(s)
        ==> Parse(s).Stream? && Parse(ToString(Parse(s))) == Unknown(STREAM_WORD + (" " + Target(Parse(s).addr)))
  {
    EmptyStream(s);
    hide CommasOnly, Target, Size;
    TrimIdempotent(s);
    if Size(s) > MAX_COMMAND_LINE_BYTES {
      OversizeReparsed();
    } else {
      match Parse(s)
      case Ping =>
        AsciiSize(PING_COMMAND);
        TrimOfTrimmed(PING_COMMAND);
      case Pong =>
        AsciiSize(PONG_COMMAND);
        TrimOfTrimmed(PONG_COMMAND);
      case Unknown(raw) =>
        assert raw == Trim(s);
      case Stream(a, ts) =>
        PrintedNotLonger(s);
        ParsedTickersCanonical(s);
        if ts == [] {
          ParsePrintedEmpty(a);
        } else {
          ParsePrintedCanonical(a, ts);
        }
    }
  }

  lemma OversizeReparsed()
    ensures Parse(TOO_LONG_MESSAGE) == Unknown(TOO_LONG_MESSAGE)
  {
    hide Size;
    AsciiSize(TOO_LONG_MESSAGE);
    ParseOtherWord("command", "line exceeds MAX_COMMAND_LINE_BYTES");
  }

  /** The exception does occur: a list that is a lone comma parses to a stream command without tickers. */
  lemma LoneComma(a: Addr)
    ensures Parse(StreamLine(Target(a), ",")) == Stream(a, [])
  {
    SplitWsWord(",");
    BlankList(",");
    StreamSize(a, [","]);
    TargetWord(a);
    ParseStreamLine(STREAM_WORD, Target(a), a, ",");
  }

  // ---------------------------------------------------------------- replies

  lemma OkAccepted()
    ensures ParseResponse(RESPONSE_OK_LINE) == Accepted
  {
    TrimOfTrimmed(RESPONSE_OK_LINE);
  }

  /**
   The client reads every error line as a rejection, without ever cutting a character, and gets the server's
   message back exactly when the message is more than whitespace.
   */
  lemma ErrRejected(message: string)
    ensures ParseResponse(FormatErr(message)).Rejected?
    ensures ParseResponse(FormatErr(message)) == Rejected(Trim(message)) <==> Trim(message) != ""
  {
    var m := Trim(message);
    TrimIdempotent(message);
    var line := FormatErr(message);
    if m == "" {
      assert line == "" + "ERR" + " ";
      TrimUnique("", "ERR", " ");
      AsciiSize("ERR");
    } else {
      assert line[|line| - 1] == m[|m| - 1];
      TrimOfTrimmed(line);
      assert line[..|ERR_PREFIX|] == ERR_PREFIX && line[|ERR_PREFIX|..] == m;
      CutAscii(line, |ERR_PREFIX|);
      SizeConcat(ERR_PREFIX, m);
      AsciiSize(ERR_PREFIX);
    }
  }

  /** The text of an error line: the prefix and the message without the whitespace around it. */
  lemma ErrText(front: string, t: string, back: string)
    requires AllWs(front) && AllWs(back) && Trimmed(t)
    ensures FormatErr(front + t + back) == "ERR " + t
  {
    TrimUnique(front, t, back);
  }

  lemma ErrPrefixExact(x: string)
    ensures EqIgnoreCase(x, ERR_PREFIX) <==> |x| == 4 && Mix(x[..3], "ERR", "err") && x[3] == ' '
  {
    CaseExact(x, ERR_PREFIX);
    if |x| == 4 {
      assert x[..3][0] == x[0] && x[..3][1] == x[1] && x[..3][2] == x[2];
    }
  }

  /** The client takes a line for acceptance exactly when it is `OK` but for whitespace around it. */
  lemma ResponseOk(line: string)
    ensures ParseResponse(line) == Accepted <==> Trim(line) == "OK"
  {
    hide Trim, Cut, Size, EqIgnoreCase;
  }

  /** An error line, its prefix in any letter case, gives the client the message after it. */
  lemma ResponseErr(line: string, e: string, m: string)
    requires Trim(line) == e + (" " + m) && Mix(e, "ERR", "err")
    ensures ParseResponse(line) == Rejected(Trim(m))
  {
    var t := Trim(line);
    assert t[..4] == e + " " && t[4..] == m && t[..4][..3] == e;
    ErrPrefixExact(t[..4]);
    AsciiError(e);
    CutAscii(t, 4);
    assert Size(t) >= |t| >= 4;
    hide Trim, Cut, EqIgnoreCase, Mix;
    assert t != RESPONSE_OK_LINE;
  }

  lemma AsciiError(e: string)
    requires Mix(e, "ERR", "err")
    ensures Ascii(e + " ")
  {
  }

  /** Any other line is refused as unexpected and quoted, or makes the client panic. */
  lemma ResponseOther(line: string)
    requires var t := Trim(line);
      t != "OK" && !(|t| >= 4 && Mix(t[..3], "ERR", "err") && t[3] == ' ')
    ensures var t := Trim(line);
      ParseResponse(line)
      == if Size(t) >= 4 && !Boundary(t, 4) then Panicked else Rejected("unexpected server response: " + t)
  {
    var t := Trim(line);
    CutExact(t, 4);
    if Cut(t, 4).Some? {
      var k := Cut(t, 4).value;
      ErrPrefixExact(t[..k]);
      if k == 4 {
        assert t[..4][..3] == t[..3];
      }
    }
    hide Trim, Cut, Size, EqIgnoreCase, Boundary, Mix;
  }

  /** On any line the client panics exactly when a character goes across the fourth byte of its trimmed text. */
  lemma ResponsePanics(line: string)
    ensures ParseResponse(line).Panicked? <==> Size(Trim(line)) >= 4 && !Boundary(Trim(line), 4)
  {
    CutExact(Trim(line), 4);
    AsciiSize(RESPONSE_OK_LINE);
  }

  /** The panic does occur: three letters and a character of two bytes. */
  lemma ResponseCut()
    ensures ParseResponse("abc\U{E9}").Panicked?
  {
    var line := "abc\U{E9}";
    TrimOfTrimmed(line);
    SizeConcat("abc", "\U{E9}");
    AsciiSize("abc");
    assert line == "abc" + "\U{E9}";
    assert Cut(line, 4) == None by {
      assert line[1..] == "bc\U{E9}" && line[1..][1..] == "c\U{E9}" && line[1..][1..][1..] == "\U{E9}";
      assert Cut("\U{E9}", 1) == None;
      assert Cut("c\U{E9}", 2) == None;
      assert Cut("bc\U{E9}", 3) == None;
    }
  }
}
