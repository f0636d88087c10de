/** The pipe-separated quote line (`StockQuote::to_string` and `from_string`). */
module QuoteCodec {
  import opened Options
  import opened Text
  import opened Decimal
  import opened Quotes

  /** The text form of a price, which the model leaves open: any printer and any parser. */
  datatype PriceText = PriceText(show: real -> string, parse: string -> Option<real>)

  const MAX_U32: nat := 0xFFFF_FFFF
  const MAX_U64: nat := 0xFFFF_FFFF_FFFF_FFFF

  function ToLine(q: Quote, text: PriceText): string {
    Join([q.ticker, text.show(q.price), Print(q.volume), Print(q.timestamp)], "|")
  }

  function FromLine(s: string, text: PriceText): Option<Quote> {
    var parts := Split(s, '|');
    if |parts| != 4 then None
    else
      var price, volume, timestamp :=
        text.parse(parts[1]), ParseUnsigned(parts[2], MAX_U32), ParseUnsigned(parts[3], MAX_U64);
      if price.None? || volume.None? || timestamp.None? then None
      else
        ParsedFits(parts[2], MAX_U32);
        ParsedFits(parts[3], MAX_U64);
        Some(Quote(parts[0], price.value, volume.value, timestamp.value))
  }

  lemma ParsedFits(s: string, max: nat)
    ensures ParseUnsigned(s, max).Some? ==> ParseUnsigned(s, max).value <= max
  {
    AccumulateIsValue(s, 0, max);
    if s != "" {
      AccumulateIsValue(s[1..], 0, max);
    }
  }

  /** What four fields are read as: the text, the price, and two numbers that fit 32 and 64 bits. */
  lemma FourFields(a: string, b: string, c: string, d: string, text: PriceText)
    requires '|' !in a && '|' !in b && '|' !in c && '|' !in d
    ensures var p, v, ts := text.parse(b), ParseUnsigned(c, 0xFFFF_FFFF), ParseUnsigned(d, 0xFFFF_FFFF_FFFF_FFFF);
      var q := FromLine(a + ("|" + (b + ("|" + (c + ("|" + d))))), text);
      && (q.Some? <==> p.Some? && v.Some? && ts.Some?)
      && (q.Some? ==>
            && q.value.ticker == a && q.value.price == p.value
            && q.value.volume == v.value && q.value.timestamp == ts.value)
  {
    JoinFour(a, b, c, d, "|");
    SplitOfJoin([a, b, c, d], '|');
    hide Split, Join, ParseUnsigned;
  }

  /** Any other number of fields is no quote. */
  lemma WrongFieldCount(parts: seq<string>, text: PriceText)
    requires parts != [] && |parts| != 4 && forall p | p in parts :: '|' !in p
    ensures FromLine(Join(parts, "|"), text) == None
  {
    SplitOfJoin(parts, '|');
  }

  /** The line: ticker, price text, volume and timestamp in decimal, with a pipe between. */
  lemma PipeLineText(q: Quote, text: PriceText)
    ensures ToLine(q, text)
         == q.ticker + ("|" + (text.show(q.price) + ("|" + (Print(q.volume) + ("|" + Print(q.timestamp))))))
  {
    JoinFour(q.ticker, text.show(q.price), Print(q.volume), Print(q.timestamp), "|");
  }

  lemma PipeParts(q: Quote, text: PriceText)
    ensures var shown := text.show(q.price);
      Split(ToLine(q, text), '|')
      == Split(q.ticker, '|') + (Split(shown, '|') + [Print(q.volume), Print(q.timestamp)])
  {
    var shown, numbers := text.show(q.price), [Print(q.volume), Print(q.timestamp)];
    assert [shown] + numbers == [shown, numbers[0], numbers[1]] && ([shown] + numbers)[1..] == numbers;
    assert [q.ticker] + ([shown] + numbers) == [q.ticker, shown, numbers[0], numbers[1]];
    assert ([q.ticker] + ([shown] + numbers))[1..] == [shown] + numbers;
    assert '|' !in Print(q.volume) && '|' !in Print(q.timestamp);
    SplitOfJoin(numbers, '|');
    SplitConcat(shown, '|', Join(numbers, "|"));
    SplitConcat(q.ticker, '|', Join([shown] + numbers, "|"));
  }

  /**
   What a quote's pipe line is read back as, for any text form of prices: nothing if the ticker or the price text
   holds a pipe; otherwise the same quote at the price its text is parsed to, or nothing if it is not.
   */
  lemma PipeLineReadBack(q: Quote, text: PriceText)
    ensures var shown := text.show(q.price);
      FromLine(ToLine(q, text), text)
      == if '|' in q.ticker || '|' in shown || text.parse(shown).None? then None
         else Some(q.(price := text.parse(shown).value))
  {
    var shown := text.show(q.price);
    PipeParts(q, text);
    SplitCount(q.ticker, '|');
    SplitCount(shown, '|');
    if '|' !in q.ticker && '|' !in shown {
      SplitNone(q.ticker, '|');
      SplitNone(shown, '|');
      ParseUnsignedOfPrint(q.volume, MAX_U32);
      ParseUnsignedOfPrint(q.timestamp, MAX_U64);
    }
  }

  /**
   A quote survives its pipe line if and only if neither its ticker nor its price text holds a pipe and its own
   price survives printing and parsing. A pipe in the ticker is always rejected.
   */
  lemma PipeLineRoundTrip(q: Quote, text: PriceText)
    ensures FromLine(ToLine(q, text), text) == Some(q)
       <==> '|' !in q.ticker && '|' !in text.show(q.price) && text.parse(text.show(q.price)) == Some(q.price)
    ensures '|' in q.ticker ==> FromLine(ToLine(q, text), text) == None
  {
    hide FromLine, ToLine;
    PipeLineReadBack(q, text);
  }
}
