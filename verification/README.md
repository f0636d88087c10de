# Verified model of the quotation streaming simulator

A server simulates a market and streams quotes. A client asks for tickers with one `STREAM` line over TCP, gets
`OK` or `ERR …` back, receives the quotes of its tickers over UDP, and keeps the stream alive with `PING`
datagrams. This project models that system in Dafny and proves what it is for: that client and server agree about
every command line, that every subscriber gets exactly the quotes it asked for in every interleaving of the
threads, exactly when a client that keeps pinging can be dropped, and that the simulated market is deterministic
and stays in its bands.

| file | part of the system |
|---|---|
| `Sequences.dfy` | elements, repetitions and positions of sequences |
| `Utf8.dfy` | UTF-8 encoding and decoding, byte lengths, and cutting a text at a byte position |
| `Text.dfy`, `Decimal.dfy`, `Address.dfy` | the library text operations the protocol uses; decimal numbers; `a.b.c.d:port` |
| `Protocol.dfy` | command parser and printer, reply lines |
| `Net.dfy` | line framing over a byte stream under the 4096-byte limit: a reader and a writer object |
| `Session.dfy`, `SessionTrace.dfy` | validation, the session loop of one TCP connection, what a session looks like on the wire |
| `Handshake.dfy` | the client half of the command channel, composed with the session |
| `XorShift.dfy`, `Simulation.dfy`, `Generator.dfy` | the random source on 64-bit words, the market as a function of the words drawn, the stateful generator with its batch cache and pacing |
| `Quotes.dfy`, `QuoteCodec.dfy` | the quote record and its pipe-separated line |
| `Hub.dfy`, `Emission.dfy`, `Distribution.dfy` | subscribers and broadcast; the generator thread's rounds; the whole system of generator, hub and any number of workers as interleaved steps |
| `Workers.dfy`, `StreamLoop.dfy`, `PingThread.dfy` | one stream worker with its ping thread, stop flag, keep-alive cell and channel as a step system; the bodies of its two threads statement by statement |
| `KeepAlive.dfy` | the timed system of client, lossy network and worker |
| `ClientSystem.dfy`, `Receiver.dfy`, `Pinger.dfy` | what the client's threads share; its receive loop and its ping loop, statement by statement |
| `Samples.dfy` | cases of the repository's unit tests for the protocol and the quote line, as facts |

How the parts fit. `Session.Serve`, `Hub.Deliver`, `Simulation.MarketAt` and `Workers.Apply` are specification
functions. The methods of `Server`, `LineReader`, `QuoteHub`, `XorShift64`, `QuoteGenerator` and `StreamWorker` are
proved against them, and the lemmas say what the functions guarantee. `StreamWorker.Run` records every statement as a
step of `Workers`, with any number of steps of the other threads and any time in between, so what is proved of all
runs of the step system holds of each execution of the loop. `PingThread.PingLoop.Run` does the same for the worker's
ping thread, and `Pinger.PingLoop.Run` and `QuoteReceiver.Receive` for the client's threads and `KeepAlive`.
`Distribution` runs the worker steps for every subscriber under the hub's lock, and `KeepAlive` runs them against a
pinging client. Safety over all runs is paired with progress: from every reachable state of a worker or of the whole
distribution system, and from every one within the bound of `KeepAlive`, time can pass; while its client is alive and
nobody stops it, a worker can send all it owes; and within the bound a PING on its way can be processed.

Conventions. A `char` is one Unicode scalar value; streams are bytes, and text goes on the wire as UTF-8. Lengths and
limits are in bytes (`Utf8.Size`). Whitespace is the Unicode property White_Space. Addresses are IPv4; "any line" and
"any bytes" below leave out those that name an IPv6 target. Times are milliseconds. History fields (what was offered,
sent, drawn, when PINGs were processed) are never read by the modelled code. In `Workers` and `KeepAlive` each access
to a shared variable is one atomic step. The period of a pinging client is positive, as src/client/run.rs:39 makes it;
it includes how much a sleep may overrun (`Pinger.PingLoop.Run`).

Findings, each with a proof:

- An unknown command of more than 200 bytes whose byte 200 is inside a character makes the slice at
  src/server/run.rs:124 panic, so the session ends without a reply (`Handshake.SessionCut`). It happens on exactly
  those commands (`Session.PanicsExactly`, `SessionTrace.SessionCrashes`). The client's slice at src/protocol.rs:120
  panics on no answer of this server (`Handshake.NeverPanics`), but does on others (`Protocol.ResponsePanics`,
  `Protocol.ResponseCut`).
- A `STREAM` line whose third and later words are all made of commas parses to a stream command without tickers. It
  is the only kind of input that printing and parsing again changes: it comes back as unknown
  (`Protocol.EmptyStream`, `Protocol.Normalisation`).
- A client that sees `OK` was served its own list if and only if its tickers are canonical: not empty, no comma, no
  whitespace but single spaces inside (`Handshake.ServedAsMeant`). An entry with a comma, for instance, is served as
  two tickers (`Handshake.CommaInTicker`).
- A client that sees `OK` was served (`Handshake.SuccessMeansServed`), but a client that is refused may have been
  served too: an entry with a newline in it is two lines, and the second can be a valid stream command
  (`Handshake.NewlineInTicker`).
- README.md:59 of the repository promises an error about an empty ticker list. A client that sends an empty list is
  told "unknown command" instead, because its line has only two words (`Handshake.ExactOutcome`). The promised
  message answers exactly the lines whose list is made of commas (`Session.EmptyListReply`).
- A pinging client is safe if and only if its first quote came from the worker and first quote + (lost PINGs in a
  row + 1) periods + delay is at most 5 s. With the default period of 2 s one lost PING is tolerated only if first
  quote and delay take at most 1 s together (`KeepAlive.SafeFirstSource`, `KeepAlive.DefaultsTolerateOneLoss`).
- The comment at src/client/ping.rs:14 says that the address cell takes the address of the first packet from the
  server. The code takes the source of the first datagram that decodes as a quote, whoever sent it, and never
  corrects it; so a client whose first quote came from elsewhere can be dropped under any bounds
  (`KeepAlive.ForeignQuoteDrops`).

## Model

| member | source | states |
|---|---|---|
| Utf8.DecodeOfEncode | src/net.rs:63-65 | text that is encoded and sent decodes to that text |
| Utf8.EncodeOfDecode | src/net.rs:63-65 | accepted bytes are the encoding of the text they give, so no two byte sequences are the same text |
| Utf8.DecodeExact | src/net.rs:63-65 | bytes are accepted if and only if they are the encoding of some text, and then as that text |
| Utf8.KnownEncodings | src/net.rs:63-65 | the encodings of the examples in section 7 of RFC 3629, one to four bytes long |
| Utf8.CutExact | src/server/run.rs:124 | a text can be cut at a byte position if and only if no character goes across it, and the part is then those bytes |
| Text.TrimSplits | src/protocol.rs:56 | `trim` removes whitespace only, at the two ends only, and all of it |
| Text.TrimUnique | src/protocol.rs:72 | the trimmed text is the only text with no whitespace at its ends that differs from the input by whitespace at the ends |
| Text.WhiteSpaceExact | src/protocol.rs:56 | whitespace is exactly the 25 characters with the Unicode property White_Space |
| Text.CaseExact | src/protocol.rs:57-64 | two texts are equal but for case if and only if they have the same length and agree in each place up to a capital ASCII letter and its small form |
| Text.MixExact | src/protocol.rs:57-64 | a word is a keyword in any letter case if and only if each of its letters is the keyword's capital or small one |
| Text.SplitWsApart | src/protocol.rs:63 | whitespace of any kind and length separates words, and none of it is in them |
| Text.SplitOfJoin | src/protocol.rs:70-71 | splitting undoes joining for every non-empty list of separator-free parts |
| Text.JoinOfSplit | src/protocol.rs:70-71 | joining undoes splitting, and no part holds the separator |
| Text.RejoinLength | src/protocol.rs:63-66 | splitting into words and joining with single spaces never makes the text longer |
| Text.RejoinOfNormal | src/protocol.rs:63-66 | a text whose only whitespace is single spaces inside it survives splitting into words and joining |
| Decimal.AccumulateIsValue | src/model.rs:32-33 | the digit loop, which gives up at the first prefix over the maximum, accepts exactly the digit strings whose whole value fits |
| Decimal.ParseUnsignedOfPrint | src/model.rs:32-33 | a printed number parses back into a type exactly when it fits the type, so every overflow is rejected |
| Decimal.ParseUnsignedPlus | src/model.rs:32-33 | one plus sign before the digits changes nothing, as in the library's integer parser |
| Decimal.PrintShortest | src/protocol.rs:91 | re-printing a digit string never makes it longer |
| Address.ParseOfPrint | src/net.rs:31-35 | parsing a printed address gives the address back |
| Address.PrintShorter | src/net.rs:31-35 | re-printing a parsed address never makes it longer |
| Address.PrintAddrWord | src/protocol.rs:65 | a printed address holds no whitespace, so splitting a command into words keeps it whole |
| Address.ParseOctetExact | src/net.rs:31-35 | an octet is accepted in its printed form and in no other: no sign, no leading zero, nothing above 255 |
| Address.ParsePortExact | src/net.rs:31-35 | a port is any digits of its value, leading zeros included |
| Address.ParseAddrExact | src/net.rs:31-35 | a text names an address if and only if, but for whitespace around it, it is the four octets in order as they are printed, a colon and digits worth the port |
| Protocol.ParsedTickersCanonical | src/protocol.rs:63-78 | whatever the line, every ticker the parser produces is non-empty, comma-free, trimmed, and has only single spaces inside |
| Protocol.PrintedNotLonger | src/protocol.rs:63-78 | the canonical form of a parsed stream command is never longer than the trimmed line it came from |
| Protocol.ParseStreamLine | src/protocol.rs:63-78 | a line of a word that mixes the capital and small letters of `stream`, a target that names an address, and a list with a word in it is a stream command with that address and the list's tickers |
| Protocol.ParseLine | src/protocol.rs:52-83 | every line of at least three words with any whitespace around and between them: a stream command if and only if the first word mixes the capital and small letters of `stream` and the second names an address; otherwise unknown, and quoted trimmed |
| Protocol.ParseShort | src/protocol.rs:52-83 | a line of fewer than three words: `PING` or `PONG` in any mix of capital and small letters, or unknown |
| Protocol.ParseOversize | src/protocol.rs:53-55 | a line of more than 4096 bytes is unknown, with the fixed message |
| Protocol.TickersOfList | src/protocol.rs:70-74 | a list's tickers are its comma-separated pieces, each trimmed, without the blank ones, in order |
| Protocol.ParsePrintedEmpty | src/protocol.rs:64-82 | a stream command without tickers prints to a line that is an unknown command |
| Protocol.StreamRoundTrip | src/protocol.rs:52-95 | a stream command survives printing and parsing if and only if it names a ticker, all its tickers are canonical, and its line fits 4096 bytes |
| Protocol.BlankList | src/protocol.rs:70-74 | a ticker list yields no ticker if and only if it holds nothing but commas and whitespace |
| Protocol.EmptyStream | src/protocol.rs:52-83 | a line parses to a stream command without tickers if and only if it is a stream line whose third and later words, of which there are some, are all commas |
| Protocol.Normalisation | src/protocol.rs:52-95 | for every input, printing what was parsed and parsing it again changes nothing, except exactly for stream lines whose list words are all commas; those come back unknown |
| Protocol.LoneComma | src/protocol.rs:70-78 | the exception occurs: a list that is a lone comma gives such a command |
| Protocol.OkAccepted | src/protocol.rs:114-118 | the client takes the server's acceptance line as acceptance |
| Protocol.ErrRejected | src/protocol.rs:109-124 | the client takes every error line as a rejection, without a panic, and gets the server's message back exactly when it is more than whitespace |
| Protocol.ErrText | src/protocol.rs:109-111 | an error line is `ERR `, and the message without the whitespace around it |
| Protocol.ResponseOk | src/protocol.rs:114-118 | a reply is acceptance if and only if it is `OK` but for whitespace around it |
| Protocol.ResponseErr | src/protocol.rs:119-122 | a reply that starts with `ERR ` in any mix of capital and small letters is a rejection with the text after it |
| Protocol.ResponseOther | src/protocol.rs:123 | any other reply is refused as unexpected, and quoted |
| Protocol.ResponsePanics | src/protocol.rs:114-124 | on any line at all the client panics if and only if a character goes across the fourth byte of its trimmed text |
| Protocol.ResponseCut | src/protocol.rs:120 | an instance: three letters and a character of two bytes |
| Net.LineReader.ReadCommandLine | src/net.rs:48-66 | a read delivers what the first chunk says, or why it cannot, and leaves the rest of the stream; it consumes input unless the stream has ended, which is the only case it reports the end |
| Net.LineWriter.WriteCommandLine | src/net.rs:112-117 | the line and one newline are appended to what was written before |
| Net.ReadFrame | src/net.rs:48-66 | a framed line is read back unchanged if and only if it has no newline, does not end in a carriage return and fits the limit with its newline; the rest of the stream is then untouched |
| Net.ReadCrLf | src/net.rs:60-62 | a line that ends in CR LF is delivered without either, and the rest of the stream is untouched |
| Net.ReadLastLine | src/net.rs:48-66 | a last line without a newline is delivered all the same |
| Net.ReadTooLong | src/net.rs:54-59 | a line is reported as too long if and only if it does not fit the limit with its newline |
| Net.ReadNotText | src/net.rs:63-65 | bytes are refused as not UTF-8 if and only if they are the encoding of no text |
| Net.FramingExact | src/net.rs:48-117 | any sequence of lines written one after another is read back exactly, followed by the end of the stream, if and only if each of them can be framed |
| Net.DeliveredLine | src/net.rs:54-62 | a delivered line is within the limit, holds no newline and does not end in a carriage return |
| Session.FirstUnknownExact | src/server/run.rs:93-97 | the scan finds nothing exactly when all tickers are listed, and otherwise finds an unlisted ticker of the command |
| Session.ValidateExact | src/server/run.rs:81-99 | validation accepts exactly the non-empty, duplicate-free lists inside the server's list |
| Session.ValidateReason | src/server/run.rs:81-99 | which error a bad list gets: emptiness first, then duplicates, then the first ticker the server does not know |
| Session.Answers | src/server/run.rs:103-130 | what each kind of command is answered, word for word, and which are admitted, with what list and address |
| Session.UnknownQuoted | src/server/run.rs:122-128 | an unknown command is quoted whole up to 200 bytes, and otherwise by exactly its first 200 bytes and an ellipsis |
| Session.StartsAt | src/server/run.rs:109-111 | each accepted stream has its own filter in the hub and its own worker, which sends to its address and receives from that filter's channel |
| Session.TickerLength | src/protocol.rs:63-74 | a ticker in a parsed command is at least 23 bytes shorter than its line |
| Session.PanicsExactly | src/server/run.rs:122-128 | the session panics on a command if and only if it is unknown, longer than 200 bytes, and its byte 200 continues a character |
| Session.ReplyOnWire | src/server/run.rs:95-128 | the reply to any line of at most 4096 bytes is one line that fits the limit with its newline and on which the client does not panic; there is none only to `PONG` and when the session panics; `PING` gets `PONG`; it is `OK` exactly on acceptance |
| Session.EmptyListReply | src/server/run.rs:82-84 | the error about an empty list answers exactly the stream lines whose list words are all commas |
| Session.Server.Answer | src/server/run.rs:104-130 | one turn writes at most one reply line, and subscribes and starts a worker exactly for an admitted stream command, with its list and address; it survives unless the command makes the slice panic |
| Session.Server.HandleTcpClient | src/server/run.rs:101-133 | the whole session writes, subscribes and starts exactly what `Serve` says of the bytes that come in, and ends as it says: with the input, on a line it cannot read, or by a panic |
| SessionTrace.SessionFollowsInput | src/server/run.rs:101-133 | for any bytes the session answers the commands line by line, in order, and stops at the first command it panics over or where reading stops |
| SessionTrace.SessionCrashes | src/server/run.rs:122-128 | for any bytes the session panics if and only if some line it is sent is, once trimmed, an unknown command of more than 200 bytes whose byte 200 continues a character |
| SessionTrace.OversizeUnreachable | src/protocol.rs:42-55 | the parser's own size check never applies to a line that reading delivers |
| SessionTrace.SessionOnWire | src/server/run.rs:101-133 | for any bytes the peer reads back exactly the replies written, one for each command the session got through but `PONG`, and the `OK` lines are as many as the subscriptions |
| SessionTrace.UnreadableLineEndsSession | src/net.rs:54-65 | a line over the limit or not UTF-8 ends the session with an error after the replies to all earlier lines |
| Handshake.SendLineReadLine | src/client/tcp_command.rs:31-33 | the first reply line of the session started by one line, with the server's new subscriptions and workers |
| Handshake.SendStreamExpectResponse | src/client/tcp_command.rs:25-41 | the client's result and the server's whole new state, for stream and other commands |
| Handshake.Agreement | src/client/tcp_command.rs:25-41 | for any stream command that prints to one line, canonical or not, the client sees success exactly when the server subscribed, and it subscribed at most once |
| Handshake.SuccessMeansServed | src/client/tcp_command.rs:25-41 | for every stream command, newlines in it included, a client that sees success was subscribed |
| Handshake.NewlineInTicker | src/protocol.rs:90-92 | the converse fails with a newline in an entry: a client refused for its first line is served by its second |
| Handshake.SessionCut | src/server/run.rs:122-128 | an instance of the server's panic: 199 letters and a character of two bytes end the session at once, without a reply |
| Handshake.EndToEnd | src/client/tcp_command.rs:25-41 | for canonical tickers the client succeeds if and only if the list is valid and its line fits; the server then subscribes once with exactly that list and address, and otherwise not at all |
| Handshake.AcceptedCanonical | src/server/run.rs:101-111 | whatever bytes come in, the server only ever subscribes to valid lists of canonical tickers |
| Handshake.ServedAsMeant | src/client/tcp_command.rs:25-41 | for every list at all: the server subscribes to exactly the client's list and address if and only if the tickers are canonical, the list is valid and the line fits; and a client that sees success was served its own list if and only if its tickers are canonical |
| Handshake.NeverPanics | src/protocol.rs:119-122 | whatever command it sends, the client never panics on an answer of this server |
| Handshake.ExactOutcome | src/client/tcp_command.rs:25-41 | for canonical tickers the client's exact result: success, the server's own reason, an unknown command for an empty list, or no reply to a line over the limit |
| Handshake.VerdictExact | src/client/tcp_command.rs:33-40 | success exactly on a line that is `OK` but for whitespace; no reply exactly at the end of input; a refusal gives the server's message |
| Handshake.CommaInTicker | src/protocol.rs:70-74 | an instance of tickers that are not canonical: one entry with a comma in it is accepted as two tickers |
| XorShift.NextBijective | src/server/generator.rs:60-67 | the state map is a bijection on 64-bit words, with its inverse given, and only 0 is mapped to 0 |
| XorShift.ScrambleBijective | src/server/generator.rs:66 | multiplying by the odd constant modulo 2^64 is a bijection |
| XorShift.NeverZero | src/server/generator.rs:51-67 | for every seed, 0 included, no state and no drawn word is ever 0 |
| XorShift.AgreeForever | src/server/generator.rs:60-67 | two generators that agree on one drawn word agree on the state and on every later word |
| XorShift.XorShift64.NextU64 | src/server/generator.rs:60-67 | the word drawn and the new state; neither is 0 unless the state was |
| XorShift.NextBits | src/server/generator.rs:60-65 | the three stages in their order: right 12, left 25, right 27 |
| XorShift.OutputBits | src/server/generator.rs:66 | the word is the wrapping product of the new state and the multiplier |
| XorShift.KnownDraws | src/server/generator.rs:50-67 | the first two words and the first new state of seed 1, and the state of seed 0, as numbers |
| Simulation.MarketCovers | src/server/generator.rs:225-248 | every listed ticker, and no other, has a price and a volume behind every batch, so indexing never fails and no step is skipped |
| Simulation.StartTickerPlain | src/server/generator.rs:144-150 | one start in plain arithmetic: the price from one word, the volume from the next |
| Simulation.StepTickerPlain | src/server/generator.rs:242-280 | one step in plain arithmetic on the old maps: price, volume and number of words drawn, which words for what, other tickers unchanged |
| Simulation.StepFirstFront | src/server/generator.rs:184-186 | the tickers are stepped from the first to the last, each with the words after the one before |
| Simulation.StartValues | src/server/generator.rs:144-150 | a ticker's start price and volume come from words 2i and 2i + 1, i its last place in the list |
| Simulation.RawVolumeBounds | src/server/generator.rs:269-276 | the volume sum never leaves `i32`; from any band it lands in the next narrower one; the clamp can change it only on an unpopular ticker's first step |
| Simulation.ClampFires | src/server/generator.rs:274-276 | in that one case the clamp does fire |
| Simulation.VolumesBounded | src/server/generator.rs:242-280 | for every run and all words drawn, all volumes behind batch k lie in the band of k steps |
| Simulation.VolumeLimits | src/server/generator.rs:257-279 | volumes stay in [1, 10999], and from the fourth step on in [685, 6315] if popular and [43, 1157] if not |
| Simulation.StepPriceBand | src/server/generator.rs:250-255 | a step moves a price by at most 2 percent, and the epsilon clamp is never taken |
| Simulation.PriceLimits | src/server/generator.rs:250-255 | for every run and every list a ticker has taken n = k · (times listed) steps behind batch k, and its price lies in [50·0.98^n, 1000·1.02^n], so it stays positive |
| Simulation.MarketDraws | src/server/generator.rs:242-280 | k + 1 batches draw between 2 and 3 words a ticker each: how many depends on the volumes |
| Generator.QuoteGenerator.constructor | src/server/generator.rs:134-161 | a new generator holds the start market of its seed and has emitted nothing |
| Generator.QuoteGenerator.NextRange | src/server/generator.rs:74-82 | the value is the range's lower end plus the remainder of the next word by the range's size; a point range draws no word |
| Generator.QuoteGenerator.StartTicker | src/server/generator.rs:144-150 | the start of one ticker is the one in plain arithmetic, with the next two words |
| Generator.QuoteGenerator.StepTicker | src/server/generator.rs:242-280 | the new price and volume of the ticker in plain arithmetic on its old ones and the next two or three words, nothing else changed; and this is the market step of the specification |
| Generator.QuoteGenerator.RebuildBatch | src/server/generator.rs:225-240 | the cache holds one quote for every listed ticker and no other, all at the given timestamp, agreeing with the price and volume maps |
| Generator.QuoteGenerator.SetEmitInterval | src/server/generator.rs:168-170 | only the interval changes; market, draws and emissions so far do not |
| Generator.QuoteGenerator.AdvanceBatch | src/server/generator.rs:176-202 | emits the next market of the seed whatever the clock says, cached coherently under the returned timestamp, complete no earlier than one interval after the previous emission |
| Generator.QuoteGenerator.LastBatchQuotes | src/server/generator.rs:218-223 | nothing before the first emission; then one quote for every listed ticker, in list order, under one timestamp, agreeing with the maps |
| Generator.QuoteGenerator.LastBatchTimestamp | src/server/generator.rs:210-215 | the timestamp of every cached quote; none exactly before the first emission or if no ticker is listed |
| Generator.SameSeedSameMarket | src/server/generator.rs:176-202 | same seed, same list and same number of batches give the same prices, volumes and random state, whatever clocks and intervals did |
| Generator.FixedIntervalPacing | src/server/generator.rs:187-200 | with a fixed interval the k-th emission is complete no earlier than k - 1 intervals after the first |
| Text.SplitConcat | src/model.rs:25 | splitting at a separator splits the two sides on their own |
| QuoteCodec.PipeLineReadBack | src/model.rs:17-36 | what a pipe line is read back as, for any text form of prices: nothing if the ticker or the price text holds a pipe, otherwise the same quote at the price its text is parsed to, or nothing if it is not |
| QuoteCodec.PipeLineRoundTrip | src/model.rs:17-36 | a quote survives its pipe line if and only if neither its ticker nor its price text holds a pipe and its own price survives printing and parsing; a pipe in the ticker is always rejected |
| QuoteCodec.PipeLineText | src/model.rs:17-22 | the line is ticker, price text, volume and timestamp, in that order, with a pipe between |
| QuoteCodec.FourFields | src/model.rs:24-36 | four fields are a quote if and only if the price text is parsed and the two numbers fit 32 and 64 bits, and then that quote |
| QuoteCodec.WrongFieldCount | src/model.rs:25-28 | any other number of fields is no quote |
| Hub.QuoteHub.Subscribe | src/server/registry.rs:76-88 | one open subscriber is added at the end, its filter exactly the tickers of the list, its queue empty |
| Hub.QuoteHub.Broadcast | src/server/registry.rs:59-69 | every subscriber gets its own delivery of the batch, whatever the others' filters are and whether they still receive |
| Hub.ProjectMembers | src/server/registry.rs:60-64 | a message holds exactly the batch's quotes whose ticker the subscriber asked for |
| Hub.PositionsGrow | src/server/registry.rs:60-64 | the quotes of a message stand at growing positions of the batch: the order is kept and none is doubled |
| Hub.AdmittedMessage | src/server/registry.rs:59-68 | a subscriber with a valid list gets, from every coherent batch, a non-empty message: each of its tickers once, no other, in the server's order, under one timestamp |
| Hub.NewSubscriberGets | src/server/registry.rs:59-88 | from any batch a new subscriber is sent the quotes for the tickers it named, all of them and nothing else |
| Hub.NewSubscriberMessage | src/server/registry.rs:59-88 | from every coherent batch a new subscriber with a valid list is sent one full message |
| Emission.Rounds | src/server/registry.rs:49-70 | after n rounds every subscriber has been delivered the n next batches of the market, in order, with the market's prices and volumes |
| Emission.DeliveredMessages | src/server/registry.rs:59-69 | a receiving subscriber's queue grows by its non-empty messages of the batches, in order; a dead one's does not change |
| Emission.EmittedWithin | src/server/generator.rs:242-280 | every quote of the k-th emitted batch has a positive price and a volume within the limits of k steps |
| Emission.DeliveredWithin | src/server/registry.rs:59-69 | every quote that the rounds add to a subscriber's queue is for a ticker it asked for, stands in one of the emitted batches, and is within its limits |
| Workers.StepInv | src/server/streaming.rs:52-99 | every step of every thread keeps conservation, the keep-alive bound and the stop flag's meaning; a set flag stays set |
| Workers.RunConserves | src/server/streaming.rs:76-99 | in every interleaving what the worker sent is a prefix of what the hub offered; until it returns or abandons a message, sent + in hand + queued is all of it, in order |
| Workers.CutOff | src/server/streaming.rs:76-99 | if no PING is processed after T, no message is taken from the channel after T + 5.1 s, and the staleness check lets the loop pass no later than T + 5 s |
| Workers.RoundsLeft | src/server/streaming.rs:76-97 | if the clock advances from round to round, a silent worker's loop goes round at most 5000 more times |
| Workers.FinishedStops | src/server/streaming.rs:54-99 | a worker that has returned leaves the stop flag set in every continuation, and the ping thread goes at its next check |
| Workers.PingExact | src/server/streaming.rs:63-71 | a datagram is a PING if and only if its trimmed text is `PING` in any mix of capital and small letters |
| Workers.DatagramEffect | src/server/streaming.rs:59-71 | a PING, and no other datagram, resets the keep-alive to the present; the ping thread goes on listening either way |
| Workers.EverythingSent | src/server/streaming.rs:76-97 | from every reachable state in which the worker runs and its client is alive, all it was offered can be sent without time passing |
| Workers.StartsFresh | src/server/streaming.rs:34-54 | a worker whose thread starts late is as good as new, and has the messages it was offered meanwhile |
| Workers.FailsToStart | src/server/streaming.rs:35-41 | without a socket the worker is gone at once and sends nothing, in every run |
| Workers.StopObeyed | src/server/streaming.rs:76-99 | once the flag is set, in every interleaving, at most the quote about to be sent is still sent and at most the message about to be waited for still taken |
| Workers.StopEnds | src/server/streaming.rs:76-99 | a stopped worker can always return, by its own steps |
| Workers.Stoppable | src/server/streaming.rs:28-32 | at any time of any run the flag can be set, and the worker then return |
| Workers.TimePasses | src/server/streaming.rs:76-99 | no run of a worker is stuck: from every state of the invariant it can go on to any later time |
| Workers.NeverStuck | src/server/streaming.rs:76-99 | in every run, until it returns, the loop can take its next step or its receive is still within its bound |
| StreamLoop.StreamWorker.Interfere | src/server/streaming.rs:52-74 | whatever the other threads do meanwhile are steps of the step system, and a set flag stays set |
| StreamLoop.StreamWorker.RecvTimeout | src/server/streaming.rs:85-96 | the receive brings one message, taken from the head of the queue, or times out |
| StreamLoop.StreamWorker.SendAll | src/server/streaming.rs:87-92 | the message loop sends quote by quote and returns to the loop head, early when the flag is seen |
| StreamLoop.StreamWorker.Run | src/server/streaming.rs:76-99 | the loop terminates with the flag set, its execution is a run of the step system, what it sent is a prefix of what was offered, and it took no message later than the keep-alive allows |
| PingThread.PingLoop.Receive | src/server/streaming.rs:58-72 | a received PING sets the keep-alive cell to the present and is answered to its source; a timeout, other text and no text change nothing; an error ends the thread |
| PingThread.PingLoop.Run | src/server/streaming.rs:56-74 | every PING received, and nothing else, is noted with its time and answered, in order; the thread ends only on the flag or an error; every execution is a run of the step system |
| Distribution.SendNextDelivers | src/server/registry.rs:59-69 | a turn of the interleaved broadcast does to one subscriber what the hub's broadcast does, and nothing to the others |
| Distribution.SubscribeSeen | src/server/registry.rs:76-88 | subscribing adds a client that the hub sees as a new subscriber to that list, and changes no other client |
| Distribution.ActInv | src/server/registry.rs:49-88 | every step of any thread keeps, for every client, that its offered messages are the filtered batches since it joined |
| Distribution.StreamsConserved | src/server/registry.rs:49-88 | in every interleaving of any number of clients, a client's sent quotes + the rest of its message in hand + its queue are exactly the filtered quotes of the batches broadcast to it since it subscribed; always at least a prefix |
| Distribution.StreamConcat | src/server/registry.rs:59-69 | what a client gets from more batches goes on where the first ones end; from one batch it is the filtered batch |
| Distribution.BroadcastEnds | src/server/registry.rs:49-71 | in every run a broadcast under way can be completed without time passing: every client is sent the batch, and the hub is free again |
| Distribution.CaughtUp | src/server/streaming.rs:76-97 | in every run a client that is alive can be sent all it is due without time passing and without anything else changing |
| Distribution.TimePasses | src/server/registry.rs:49-71 | no run of the whole system is stuck: from every reachable state it can go on to any later time |
| Distribution.ClientCutOff | src/server/streaming.rs:76-99 | the keep-alive cut-off for each client among all the others |
| Distribution.OneMessagePerBatch | src/server/run.rs:105-111 | when the generator's batches are broadcast and the session's accepted lists are subscribed, every client is offered exactly one full message for every batch broadcast since it subscribed; the empty-filter skip never hits it |
| Distribution.RunAdmitted | src/server/run.rs:105-111 | those two guards on the steps are kept as invariants of every run: all batches coherent, all lists valid |
| Receiver.KeepAliveIgnored | src/client/udp_recv.rs:73-80 | a datagram whose trimmed text mixes the capital and small letters of `ping` or `pong` is never taken for a quote, whatever the decoder does |
| Receiver.DecodeExact | src/client/udp_recv.rs:69-81 | on any text: nothing if it is blank or one of the two keywords in any mix of letters once trimmed, otherwise what the decoder makes of the trimmed text |
| Receiver.AllHeard | src/client/udp_recv.rs:67-94 | the quotes heard are exactly those of the datagrams whose trimmed text is neither blank nor a keyword and is decoded, with no hard error before them, in order, each once, with their sources |
| Receiver.QuoteReceiver.Receive | src/client/udp_recv.rs:67-99 | all turns are taken unless a hard error ends the loop; the caller gets exactly the quotes of the datagrams that the decoder takes, trimmed, blank ones and keywords left out; the cell takes the first one's source, or keeps what it held; the flag is set; failure is reported exactly on a hard error; every execution is a run of the keep-alive system, so within the bound the client is not dropped |
| Pinger.PingLoop.Run | src/client/ping.rs:27-40 | whatever the cell holds at the start: the loop ends once the flag is set; a sleep completed with the flag clear and an address in the cell is followed by a PING, and no PING goes without a sleep; every PING goes to that address, and once there is one, no period passes without a PING; every execution is a run of the keep-alive system, so within the bound the client is not dropped |
| Pinger.PingLoop.Ping | src/client/ping.rs:32-39 | the cell is read, and a PING sent if it holds an address, with the other threads going on before and in between |
| ClientSystem.Shared.Safe | src/client/udp_recv.rs:53-62 | no execution of the client's threads within the bound, with its first quote from the worker, gets it dropped |
| Pinger.PingTimes | src/client/ping.rs:28-40 | the k-th PING is sent between k intervals and k + 1 periods after the address was known |
| KeepAlive.RunHolds | src/client/ping.rs:27-40 | within the bound, every step of client, network and worker keeps the worker fed, for whole runs |
| KeepAlive.PingsFollowFirstQuote | src/client/udp_recv.rs:81-85 | in every run no PING precedes the first quote, and every PING goes to that quote's source |
| KeepAlive.NeverDropped | src/server/keepalive.rs:8-10 | a client that keeps pinging within the bound is never dropped, and the deadline is never even exceeded, in any run |
| KeepAlive.PingsAreHeard | src/server/streaming.rs:54-68 | in every run within the bound, every PING on its way can be processed at once, and the keep-alive is then the present |
| KeepAlive.TimeGoesOn | src/server/streaming.rs:54-99 | no run within the bound is stuck: it can go on to any later time, the ping thread still listening and the client not dropped |
| KeepAlive.CanBeDropped | src/server/streaming.rs:76-83 | beyond the bound there is a run, within all timing assumptions, in which a client that keeps pinging is dropped |
| KeepAlive.NeverDroppedExactly | src/protocol.rs:98-101 | a pinging client is dropped in no run if and only if first quote + (losses + 1) periods + delay is at most the ping timeout |
| KeepAlive.SafeFirstSource | src/client/udp_recv.rs:81-85 | for every address: no run whose first quote came from it drops the client if and only if it is the worker's and the bound holds |
| KeepAlive.DefaultsTolerateOneLoss | src/protocol.rs:98-101 | with the default period one lost PING is tolerated if and only if first quote and delay fit in 1 s |
| KeepAlive.ForeignQuoteDrops | src/client/udp_recv.rs:81-85 | under any bounds, a client whose first quote came from another address can be dropped |
| Samples.Addresses | src/protocol.rs:155-166 | two addresses printed: octets in order, then the port |
| Samples.Printed | src/protocol.rs:197-204 | the printed form of a stream command for two tickers |
| Samples.Served | src/protocol.rs:155-166 | that line sent to a server that knows both tickers is answered `OK` and streamed to that address |
| Samples.Tolerant | src/protocol.rs:184-194 | `StReAm` with two and three spaces around and between parses |
| Samples.OneWord | src/protocol.rs:169-172 | `PING` and `pOnG` alone |
| Samples.QuoteLine | src/model.rs:17-22 | a quote's pipe line, field by field |
| Samples.ResponseAccepted | src/protocol.rs:207-209 | `OK` with and without whitespace |
| Samples.ResponseRejected | src/protocol.rs:210-213 | an error line gives its message |
| Samples.ResponseUnexpected | src/protocol.rs:214 | any other line is refused and quoted |

## Left out

- Sockets, binding, accepting, cloning, Ctrl+C, printing, logging and the command line: input and output are sequences and steps of the environment.
- Write and send errors: writes succeed, and a failed send to a client's UDP address counts as an attempt, as does a quote that cannot be encoded.
- IPv6 addresses: the model takes them for unparseable, so statements about any line, any list or any bytes are about those that name no IPv6 target.
- The JSON form of a quote: the receive loop takes the decoder as a parameter.
- The text form of an `f64`: the pipe line takes its printer and parser as parameters and assumes nothing about them.
- `f64` rounding: prices are reals. The unit fraction and its truncated product with a count are parameters, the fraction anywhere in [0, 1] with 1 included.
- Lock poisoning and thread spawn failure: a lock is held for one atomic step, or for one broadcast.
- Losing, delaying or reordering `PONG` answers: the worker's ping thread sends them, and the client ignores them.
- `src/error.rs`, `read_ready_listen_addr`, `udp_send_all`, `send_ping_expect_pong`, `reply_pong_to_ping` and the loading of ticker files: only easy members. The server's ticker list is a parameter.
- A disconnected quote channel: the hub keeps every sender for as long as the program runs, so the branch is never taken.
- The parallel sessions of several TCP clients: each session is modelled on its own; their subscriptions interleave in `Distribution` under the hub's lock.
- The receive loop's run time: it goes on for any number of turns, and the `until_stop` variant differs from it only in who sets the flag.
- The UDP buffers of 2048 bytes: datagrams come in whole.
- Distribution.OneMessagePerBatch: needs a duplicate-free server list, since the code would emit a ticker twice per batch otherwise.
- StreamLoop.StreamWorker.Run: termination assumes that PINGs stop at some time and that the clock advances by at least 1 ms in every receive.
- Pinger.PingLoop.Run: a sleep may be cut short by the end of the observation (`ended` is false), since a step system can always stop being observed. The thread is spawned before any quote is received, as in src/client/udp_recv.rs:57-67, but may start later than that.
- KeepAlive.NeverDropped: assumes that the ping thread's socket does not fail and that nobody else sets the worker's stop flag, which no other code holds.
