/** IPv4 socket addresses: the text form `a.b.c.d:port` and its parser (`net::parse_addr`). */
module Address {
  import opened Options
  import opened Utf8
  import opened Text
  import opened Decimal

  type Octet = n: nat | n < 256
  type Port = n: nat | n < 65536

  datatype Addr = Addr(a: Octet, b: Octet, c: Octet, d: Octet, port: Port)

  /** One to three digits, no leading zero in a longer number, at most 255. */
  function ParseOctet(s: string): (r: Option<Octet>)
    ensures r.Some? ==> s != "" && AllDigits(s) && r.value == Value(s)
  {
    if s == "" || |s| > 3 || (s[0] == '0' && |s| > 1) then None
    else
      AccumulateIsValue(s, 0, 255);
      Accumulate(s, 0, 255)
  }

  /** Any number of digits, leading zeros included, at most 65535. */
  function ParsePort(s: string): (r: Option<Port>)
    ensures r.Some? ==> s != "" && AllDigits(s) && r.value == Value(s)
  {
    if s == "" then None
    else
      AccumulateIsValue(s, 0, 65535);
      Accumulate(s, 0, 65535)
  }

  function Build(a: Option<Octet>, b: Option<Octet>, c: Option<Octet>, d: Option<Octet>, p: Option<Port>)
    : Option<Addr>
  {
    if a.Some? && b.Some? && c.Some? && d.Some? && p.Some?
    then Some(Addr(a.value, b.value, c.value, d.value, p.value))
    else None
  }

  function ParseSocketAddr(s: string): Option<Addr> {
    var halves := Split(s, ':');
    if |halves| != 2 then None
    else
      var ip := Split(halves[0], '.');
      if |ip| != 4 then None
      else Build(ParseOctet(ip[0]), ParseOctet(ip[1]), ParseOctet(ip[2]), ParseOctet(ip[3]), ParsePort(halves[1]))
  }

  function ParseAddr(s: string): Option<Addr> {
    ParseSocketAddr(Trim(s))
  }

  function PrintIp(x: Addr): string {
    Join([Print(x.a), Print(x.b), Print(x.c), Print(x.d)], ".")
  }

  function PrintAddr(x: Addr): string {
    Join([PrintIp(x), Print(x.port)], ":")
  }

  // ---------------------------------------------------------------- round trip

  lemma DigitsHold(s: string, c: char)
    requires AllDigits(s) && !IsDigit(c)
    ensures c !in s && forall x | x in s :: !IsWs(x)
  {
  }

  lemma ParseOctetOfPrint(n: Octet)
    ensures ParseOctet(Print(n)) == Some(n)
  {
    ValueOfPrint(n);
    AccumulateIsValue(Print(n), 0, 255);
    if n >= 10 {
      assert Print(n) == Print(n / 10) + [DigitChar(n % 10)];
      if n >= 100 {
        assert Print(n / 10) == Print(n / 100) + [DigitChar(n / 10 % 10)];
      }
    }
  }

  /** An octet is accepted in its printed form and in no other: no sign, no leading zero, nothing above 255. */
  lemma ParseOctetExact(s: string, n: Octet)
    ensures ParseOctet(s) == Some(n) <==> s == Print(n)
  {
    if ParseOctet(s) == Some(n) {
      PrintOfValue(s);
    }
    ParseOctetOfPrint(n);
  }

  lemma PrintAddrLength(x: Addr)
    ensures 9 <= Size(PrintAddr(x)) == |PrintAddr(x)| <= 21
  {
    assert Pow10(3) == 1000 && Pow10(5) == 100000 by {
      assert Pow10(2) == 100;
      assert Pow10(4) == 10000;
    }
    PrintLength(x.a, 3);
    PrintLength(x.b, 3);
    PrintLength(x.c, 3);
    PrintLength(x.d, 3);
    PrintLength(x.port, 5);
    JoinFour(Print(x.a), Print(x.b), Print(x.c), Print(x.d), ".");
    JoinTwo(PrintIp(x), Print(x.port), ":");
    AsciiSize(PrintAddr(x));
  }

  /** The printed address is one word, so splitting a command line at whitespace keeps it whole. */
  lemma PrintAddrWord(x: Addr)
    ensures IsWord(PrintAddr(x))
  {
    JoinFour(Print(x.a), Print(x.b), Print(x.c), Print(x.d), ".");
    JoinTwo(PrintIp(x), Print(x.port), ":");
    DigitsHold(Print(x.a), ':');
    DigitsHold(Print(x.b), ':');
    DigitsHold(Print(x.c), ':');
    DigitsHold(Print(x.d), ':');
    DigitsHold(Print(x.port), ':');
  }

  lemma SplitOfPrintIp(x: Addr)
    ensures Split(PrintIp(x), '.') == [Print(x.a), Print(x.b), Print(x.c), Print(x.d)]
    ensures ':' !in PrintIp(x)
  {
    hide Print, Join, Split;
    var octets := [Print(x.a), Print(x.b), Print(x.c), Print(x.d)];
    forall p | p in octets ensures '.' !in p && ':' !in p {
      DigitsHold(p, '.');
      DigitsHold(p, ':');
    }
    SplitOfJoin(octets, '.');
    JoinWithout(octets, ".", ':');
  }

  lemma SplitOfPrintAddr(x: Addr)
    ensures Split(Trim(PrintAddr(x)), ':') == [PrintIp(x), Print(x.port)]
  {
    hide PrintIp;
    SplitOfPrintIp(x);
    DigitsHold(Print(x.port), ':');
    SplitOfJoin([PrintIp(x), Print(x.port)], ':');
    PrintAddrWord(x);
    var t := PrintAddr(x);
    assert t[0] in t && t[|t| - 1] in t;
    TrimOfTrimmed(t);
  }

  lemma ParsePortOfPrint(n: Port)
    ensures ParsePort(Print(n)) == Some(n)
  {
    ValueOfPrint(n);
    AccumulateIsValue(Print(n), 0, 65535);
  }

  /** Parsing a printed address gives the address back. */
  lemma ParseOfPrint(x: Addr)
    ensures ParseAddr(PrintAddr(x)) == Some(x)
  {
    hide PrintIp, PrintAddr, ParseOctet, ParsePort;
    SplitOfPrintAddr(x);
    SplitOfPrintIp(x);
    ParseOctetOfPrint(x.a);
    ParseOctetOfPrint(x.b);
    ParseOctetOfPrint(x.c);
    ParseOctetOfPrint(x.d);
    ParsePortOfPrint(x.port);
  }

  /** Any digits worth the port, leading zeros included, and nothing else. */
  lemma ParsePortExact(s: string, n: Port)
    ensures ParsePort(s) == Some(n) <==> s != "" && AllDigits(s) && Value(s) == n
  {
    AccumulateIsValue(s, 0, 65535);
  }

  /**
   The texts of an address: whitespace around it is ignored, its octets are in their printed form and in order,
   and its port is any digits of that value.
   */
  lemma ParseAddrExact(s: string, x: Addr)
    ensures ParseAddr(s) == Some(x)
       <==> exists p :: p != "" && AllDigits(p) && Value(p) == x.port && Trim(s) == PrintIp(x) + (":" + p)
  {
    if ParseAddr(s) == Some(x) {
      var p := ParsedParts(s, x);
      ParsePortExact(p, x.port);
    }
    if p :| p != "" && AllDigits(p) && Value(p) == x.port && Trim(s) == PrintIp(x) + (":" + p) {
      PartsParsed(s, x, p);
    }
  }

  lemma ParsedParts(s: string, x: Addr) returns (p: string)
    requires ParseAddr(s) == Some(x)
    ensures ParsePort(p) == Some(x.port) && Trim(s) == PrintIp(x) + (":" + p)
  {
    hide ParseOctet, ParsePort, Print, Trim, Split;
    var halves := Split(Trim(s), ':');
    JoinOfSplit(Trim(s), ':');
    var ip := Split(halves[0], '.');
    JoinOfSplit(halves[0], '.');
    ParseOctetExact(ip[0], x.a);
    ParseOctetExact(ip[1], x.b);
    ParseOctetExact(ip[2], x.c);
    ParseOctetExact(ip[3], x.d);
    assert ip == [ip[0], ip[1], ip[2], ip[3]] && halves == [halves[0], halves[1]];
    JoinTwo(halves[0], halves[1], ":");
    p := halves[1];
  }

  lemma PartsParsed(s: string, x: Addr, p: string)
    requires p != "" && AllDigits(p) && Value(p) == x.port && Trim(s) == PrintIp(x) + (":" + p)
    ensures ParseAddr(s) == Some(x)
  {
    SplitOfPrintIp(x);
    DigitsHold(p, ':');
    ParsePortExact(p, x.port);
    hide PrintIp, ParseOctet, ParsePort, Print, Trim, Split, Join;
    JoinTwo(PrintIp(x), p, ":");
    SplitOfJoin([PrintIp(x), p], ':');
    ParseOctetOfPrint(x.a);
    ParseOctetOfPrint(x.b);
    ParseOctetOfPrint(x.c);
    ParseOctetOfPrint(x.d);
  }

  /** Re-printing a parsed address never makes it longer. */
  lemma PrintShorter(s: string, x: Addr)
    requires ParseAddr(s) == Some(x)
    ensures Size(PrintAddr(x)) <= Size(s)
  {
    TrimIdempotent(s);
    PrintAddrLength(x);
    PrintFewer(s, x);
  }

  lemma PrintFewer(s: string, x: Addr)
    requires ParseAddr(s) == Some(x)
    ensures |PrintAddr(x)| <= |Trim(s)|
  {
    var halves := Split(Trim(s), ':');
    JoinOfSplit(Trim(s), ':');
    var ip := Split(halves[0], '.');
    JoinOfSplit(halves[0], '.');
    assert ip == [ip[0], ip[1], ip[2], ip[3]] && halves == [halves[0], halves[1]];
    JoinFour(ip[0], ip[1], ip[2], ip[3], ".");
    JoinTwo(halves[0], halves[1], ":");
    PrintShortest(ip[0]);
    PrintShortest(ip[1]);
    PrintShortest(ip[2]);
    PrintShortest(ip[3]);
    PrintShortest(halves[1]);
    JoinFour(Print(x.a), Print(x.b), Print(x.c), Print(x.d), ".");
    JoinTwo(PrintIp(x), Print(x.port), ":");
  }
}
