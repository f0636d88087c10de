/** Cases of the repository's own unit tests for the protocol and the quote line, as facts. */
module Samples {
  import opened Decimal
  import opened Utf8
  import opened Text
  import opened Address
  import opened Protocol
  import opened Net
  import opened Session
  import opened Handshake
  import opened Quotes
  import opened QuoteCodec

  const LOCAL := Addr(127, 0, 0, 1, 34254)
  const OTHER := Addr(1, 2, 3, 4, 5678)

  lemma Numbers()
    ensures Print(0) == "0" && Print(1) == "1" && Print(2) == "2" && Print(3) == "3" && Print(4) == "4"
    ensures Print(42) == "42" && Print(99) == "99" && Print(127) == "127"
  {
    assert Print(12) == "1" + "2";
  }

  lemma Ports()
    ensures Print(5678) == "5678" && Print(34254) == "34254"
  {
    assert Print(56) == "56" && Print(567) == "567";
    assert Print(34) == "34" && Print(342) == "342" && Print(3425) == "3425";
  }

  /** The octets in their order, then the port. */
  lemma Addresses()
    ensures PrintAddr(LOCAL) == "127" + ("." + ("0" + ("." + ("0" + ("." + "1"))))) + (":" + "34254")
    ensures PrintAddr(OTHER) == "1" + ("." + ("2" + ("." + ("3" + ("." + "4"))))) + (":" + "5678")
  {
    Numbers();
    Ports();
    hide Print, Join;
    JoinFour("127", "0", "0", "1", ".");
    JoinTwo(PrintIp(LOCAL), "34254", ":");
    JoinFour("1", "2", "3", "4", ".");
    JoinTwo(PrintIp(OTHER), "5678", ":");
  }

  lemma Tickers()
    ensures Canonical("AAPL") && Canonical("TSLA")
  {
  }

  /** What a stream command for two tickers looks like. */
  lemma Printed(a: Addr)
    ensures ToString(Stream(a, ["AAPL", "TSLA"]))
         == "STREAM" + (" " + (("udp://" + PrintAddr(a)) + (" " + ("AAPL" + ("," + "TSLA")))))
  {
    hide PrintAddr, Join;
    JoinTwo("AAPL", "TSLA", ",");
  }

  /** That line, sent to a server that knows both tickers, is answered `OK`, and the stream goes to that address. */
  lemma Served(a: Addr, allowed: seq<string>)
    requires "AAPL" in allowed && "TSLA" in allowed
    ensures var line := "STREAM" + (" " + (("udp://" + PrintAddr(a)) + (" " + ("AAPL" + ("," + "TSLA")))));
      Serve(Frame(line), allowed) == Outcome(["OK"], [Subscription(a, ["AAPL", "TSLA"])], Closed)
  {
    var ts := ["AAPL", "TSLA"];
    assert ts[0] != ts[1] && forall t | t in ts :: t in allowed;
    Printed(a);
    Tickers();
    hide ToString, Parse, ReactionTo, Admits, Serve, Canonical, StripReturns, Size, Frame, PrintAddr, Join;
    assert AllCanonical(ts);
    assert ValidList(ts, allowed);
    ShortLine(a);
    CanonicalLine(a, ts);
    ParsePrintedCanonical(a, ts);
    ServeOneFrame(ToString(Stream(a, ts)), allowed);
    Answers(a, ts, "", allowed);
  }

  lemma ShortLine(a: Addr)
    ensures Size(ToString(Stream(a, ["AAPL", "TSLA"]))) < 100
  {
    hide ToString, Size, PrintAddr, Join;
    StreamSize(a, ["AAPL", "TSLA"]);
    JoinTwo("AAPL", "TSLA", ",");
    SizeConcat("AAPL", "," + "TSLA");
    SizeConcat(",", "TSLA");
    AsciiSize("AAPL");
    AsciiSize("TSLA");
    AsciiSize(",");
  }

  /** Any spacing and any letter case of the keyword: `StReAm`, with two or three spaces around and between. */
  lemma Tolerant(a: Addr)
    ensures Parse("  " + ("StReAm" + ("  " + (("udp://" + PrintAddr(a)) + ("   " + "GOOG")))) + "  ")
         == Stream(a, ["GOOG"])
  {
    TargetWord(a);
    TolerantSize(a);
    Goog();
    StreamMix();
    hide IsWord, Size, Parse, StreamKeyword, TargetAddr, PrintAddr, SplitWs, ParseTickers, Join;
    assert "udp://" + PrintAddr(a) == Target(a);
    ParseLine("  ", "StReAm", "  ", Target(a), "   ", "GOOG", "  ");
  }

  lemma StreamMix()
    ensures StreamKeyword("StReAm") && IsWord("StReAm") && AllWs("  ") && AllWs("   ") && !IsWs("GOOG"[3])
  {
  }

  lemma TolerantSize(a: Addr)
    ensures Size("  " + ("StReAm" + ("  " + (Target(a) + ("   " + "GOOG")))) + "  ") < 100
  {
    hide Size, PrintAddr;
    PrintAddrLength(a);
    SizeConcat(UDP_PREFIX, PrintAddr(a));
    AsciiSize(UDP_PREFIX);
    var list, back := "   " + "GOOG", "  ";
    AsciiSize(list);
    AsciiSize(back);
    AsciiSize("StReAm");
    SizeConcat("  " + ("StReAm" + ("  " + (Target(a) + list))), back);
    SizeConcat("  ", "StReAm" + ("  " + (Target(a) + list)));
    SizeConcat("StReAm", "  " + (Target(a) + list));
    SizeConcat("  ", Target(a) + list);
    SizeConcat(Target(a), list);
  }

  lemma Goog()
    ensures ParseTickers(Join(SplitWs("GOOG"), " ")) == ["GOOG"] && SplitWs("GOOG") == ["GOOG"]
  {
    SplitWsWord("GOOG");
    hide SplitWs;
    JoinOne("GOOG", " ");
    TickersOfList("GOOG", "");
    TrimOfTrimmed("GOOG");
  }

  /** Keywords alone. */
  lemma OneWord()
    ensures Parse("PING") == Ping && Parse("pOnG") == Pong
  {
    OneWordOf("PING");
    OneWordOf("pOnG");
  }

  lemma OneWordOf(w: string)
    requires w == "PING" || w == "pOnG"
    ensures Parse(w) == if PingText(w) then Ping else Pong
  {
    Keyword(w);
    WordEnds(w);
    TrimOfTrimmed(w);
    SplitWsWord(w);
    hide Parse, Size, SplitWs, Trim, IsWord;
    ParseShort(w);
  }

  /** A quote's pipe line, for a price whose text is `200.125`. */
  lemma QuoteLine(text: PriceText)
    requires text.show(200.125) == "200.125"
    ensures ToLine(Quote("TSLA", 200.125, 42, 99), text)
         == "TSLA" + ("|" + ("200.125" + ("|" + ("42" + ("|" + "99")))))
  {
    Numbers();
    hide Print, ToLine;
    PipeLineText(Quote("TSLA", 200.125, 42, 99), text);
  }

  lemma ResponseAccepted()
    ensures ParseResponse("OK") == Response.Accepted && ParseResponse(" " + "OK" + " \n") == Response.Accepted
  {
    TrimOfTrimmed("OK");
    TrimUnique(" ", "OK", " \n");
    hide ParseResponse, Trim;
    ResponseOk("OK");
    ResponseOk(" " + "OK" + " \n");
  }

  lemma ResponseRejected()
    ensures ParseResponse("ERR" + (" " + "bad things")) == Rejected("bad things")
  {
    var line := "ERR" + (" " + "bad things");
    assert line[|line| - 1] == 's';
    TrimOfTrimmed(line);
    TrimOfTrimmed("bad things");
    hide ParseResponse, Trim;
    ResponseErr(line, "ERR", "bad things");
  }

  lemma ResponseUnexpected()
    ensures ParseResponse("nope") == Rejected("unexpected server response: " + "nope")
  {
    TrimOfTrimmed("nope");
    AsciiSize("nope");
    assert "nope"[..3][0] == 'n';
    hide ParseResponse, Trim, Size;
    ResponseOther("nope");
  }
}
