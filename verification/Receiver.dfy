/** The client's UDP receive loop: which datagrams are quotes, and whose address the PINGs will go to. */
module Receiver {
  import opened Options
  import opened Sequences
  import opened Quotes
  import opened Text
  import opened Address
  import opened Net
  import opened Protocol
  import opened KeepAlive
  import opened ClientSystem

  /** The JSON decoder, which the model leaves open. */
  type Decoder = string -> Option<Quote>

  /** Blank datagrams and protocol commands are dropped before the decoder sees them. */
  function Decode(text: string, decode: Decoder): Option<Quote> {
    var t := Trim(text);
    if t == "" || Parse(t) == Pong || Parse(t) == Ping then None else decode(t)
  }

  datatype Heard = Heard(quote: Quote, src: Addr)

  function HeardIn(r: Received, decode: Decoder): seq<Heard> {
    if r.Datagram? && Decode(r.text, decode).Some? then [Heard(Decode(r.text, decode).value, r.src)] else []
  }

  /** The quotes received up to the first hard error, with their sources, in order. */
  function Hear(events: seq<Received>, decode: Decoder): seq<Heard> {
    if events == [] || events[0].Failed? then [] else HeardIn(events[0], decode) + Hear(events[1..], decode)
  }

  function QuotesOf(h: seq<Heard>): seq<Quote> {
    if h == [] then [] else [h[0].quote] + QuotesOf(h[1..])
  }

  function SourcesOf(h: seq<Heard>): seq<Addr> {
    if h == [] then [] else [h[0].src] + SourcesOf(h[1..])
  }

  lemma {:induction false} QuotesConcat(a: seq<Heard>, b: seq<Heard>)
    ensures QuotesOf(a + b) == QuotesOf(a) + QuotesOf(b)
  {
    if a == [] {
      assert a + b == b;
    } else {
      assert (a + b)[1..] == a[1..] + b;
      QuotesConcat(a[1..], b);
      ConcatAssoc([a[0].quote], QuotesOf(a[1..]), QuotesOf(b));
    }
  }

  lemma {:induction false} SourcesConcat(a: seq<Heard>, b: seq<Heard>)
    ensures SourcesOf(a + b) == SourcesOf(a) + SourcesOf(b)
  {
    if a == [] {
      assert a + b == b;
    } else {
      assert (a + b)[1..] == a[1..] + b;
      SourcesConcat(a[1..], b);
      ConcatAssoc([a[0].src], SourcesOf(a[1..]), SourcesOf(b));
    }
  }

  /** The address cell after these quotes: the first writer wins. */
  function CellAfter(cell: Option<Addr>, h: seq<Heard>): Option<Addr> {
    if cell.Some? || h == [] then cell else Some(h[0].src)
  }

  // ---------------------------------------------------------------- which events are heard

  /**
   The quote in an event, if there is one: a datagram whose trimmed text is not blank and neither keyword in any
   mix of capital and small letters, and that the decoder takes.
   */
  function QuoteIn(r: Received, decode: Decoder): Option<Quote> {
    match r
    case Datagram(text, _) =>
      var t := Trim(text);
      if t == "" || Mix(t, "PING", "ping") || Mix(t, "PONG", "pong") then None else decode(t)
    case _ => None
  }

  /** An event is heard exactly when it has a quote, and then as that quote from its source. */
  lemma HeardInExact(r: Received, decode: Decoder)
    ensures HeardIn(r, decode) == if QuoteIn(r, decode).Some? then [Heard(QuoteIn(r, decode).value, r.src)] else []
  {
    if r.Datagram? {
      DecodeExact(r.text, decode);
    }
  }

  /** What the client makes of a datagram's text: nothing of blanks and keywords, otherwise what the decoder does. */
  lemma DecodeExact(text: string, decode: Decoder)
    ensures var t := Trim(text);
      Decode(text, decode) == if t == "" || Mix(t, "PING", "ping") || Mix(t, "PONG", "pong") then None else decode(t)
  {
    var t := Trim(text);
    TrimIdempotent(text);
    Keywords(t);
    if PingText(t) || PongText(t) {
      Keyword(t);
    }
  }

  /** An event the caller gets a quote from: it has one, and no hard error came before it. */
  predicate Delivers(events: seq<Received>, decode: Decoder, i: nat) {
    i < |events| && QuoteIn(events[i], decode).Some? && Failed !in events[..i]
  }

  /** The positions of such events among the first `n`. */
  function HeardAt(events: seq<Received>, decode: Decoder, n: nat): seq<nat> {
    if n == 0 then [] else HeardAt(events, decode, n - 1) + if Delivers(events, decode, n - 1) then [n - 1] else []
  }

  lemma {:induction false} HearSnoc(events: seq<Received>, r: Received, decode: Decoder)
    requires Failed !in events
    ensures Hear(events + [r], decode) == Hear(events, decode) + HeardIn(r, decode)
  {
    hide HeardIn;
    if events == [] {
      HearOne(r, decode);
    } else {
      assert (events + [r])[1..] == events[1..] + [r] && events[0] in events;
      HearSnoc(events[1..], r, decode);
      ConcatAssoc(HeardIn(events[0], decode), Hear(events[1..], decode), HeardIn(r, decode));
    }
  }

  lemma HearOne(r: Received, decode: Decoder)
    ensures Hear([] + [r], decode) == HeardIn(r, decode)
  {
    assert ([] + [r])[1..] == [];
  }

  lemma {:induction false} HearStops(events: seq<Received>, more: seq<Received>, decode: Decoder)
    requires Failed in events
    ensures Hear(events + more, decode) == Hear(events, decode)
  {
    hide HeardIn;
    if !events[0].Failed? {
      assert (events + more)[1..] == events[1..] + more && events == [events[0]] + events[1..];
      HearStops(events[1..], more, decode);
    }
  }

  lemma HearNext(events: seq<Received>, decode: Decoder, n: nat)
    requires n < |events|
    ensures Hear(events[..n + 1], decode)
         == Hear(events[..n], decode) + if Delivers(events, decode, n) then HeardIn(events[n], decode) else []
  {
    HeardInExact(events[n], decode);
    hide HeardIn, Hear, QuoteIn;
    assert events[..n + 1] == events[..n] + [events[n]];
    if Failed in events[..n] {
      HearStops(events[..n], [events[n]], decode);
    } else {
      HearSnoc(events[..n], events[n], decode);
    }
  }

  /** What the events so far have delivered, event by event. */
  ghost predicate HeardFrom(events: seq<Received>, decode: Decoder, at: seq<nat>, h: seq<Heard>, n: nat) {
    && |at| == |h| && Growing(at, 0, n)
    && (forall k | 0 <= k < |h| ::
          at[k] < |events| && QuoteIn(events[at[k]], decode) == Some(h[k].quote) && events[at[k]].src == h[k].src)
    && (forall i: nat :: i in at <==> i < n && Delivers(events, decode, i))
  }

  lemma NoneHeard(events: seq<Received>, decode: Decoder)
    ensures HeardFrom(events, decode, [], Hear(events[..0], decode), 0)
  {
  }

  lemma HeardFromNext(events: seq<Received>, decode: Decoder, at: seq<nat>, h: seq<Heard>, n: nat)
    requires n < |events| && HeardFrom(events, decode, at, h, n)
    ensures if Delivers(events, decode, n)
            then HeardFrom(events, decode, at + [n], h + HeardIn(events[n], decode), n + 1)
            else HeardFrom(events, decode, at, h, n + 1)
  {
    HeardInExact(events[n], decode);
    hide HeardIn, QuoteIn;
  }

  /**
   Each quote heard is the one the event at its position delivers; the positions grow, so the order is kept and
   nothing is doubled; and they are the positions of all delivering events, so nothing is missed or made up.
   */
  lemma {:induction false} HeardExactly(events: seq<Received>, decode: Decoder, n: nat)
    requires n <= |events|
    ensures HeardFrom(events, decode, HeardAt(events, decode, n), Hear(events[..n], decode), n)
  {
    hide HeardFrom, HeardIn, Hear, Delivers;
    if n == 0 {
      NoneHeard(events, decode);
    } else {
      HeardExactly(events, decode, n - 1);
      HearNext(events, decode, n - 1);
      HeardFromNext(events, decode, HeardAt(events, decode, n - 1), Hear(events[..n - 1], decode), n - 1);
      assert Hear(events[..n - 1], decode) + [] == Hear(events[..n - 1], decode);
      assert HeardAt(events, decode, n - 1) + [] == HeardAt(events, decode, n - 1);
    }
  }

  /** All the quotes of a receive loop. */
  lemma AllHeard(events: seq<Received>, decode: Decoder)
    ensures HeardFrom(events, decode, HeardAt(events, decode, |events|), Hear(events, decode), |events|)
  {
    HeardExactly(events, decode, |events|);
    assert events[..|events|] == events;
  }

  lemma {:induction false} HeardParts(h: seq<Heard>)
    ensures |QuotesOf(h)| == |SourcesOf(h)| == |h|
    ensures forall k | 0 <= k < |h| :: QuotesOf(h)[k] == h[k].quote && SourcesOf(h)[k] == h[k].src
  {
    if h != [] {
      HeardParts(h[1..]);
    }
  }

  /**
   What a receive loop adds: one quote for every event that delivers one, in their order, that event's quote; and
   the cell takes the first one's source, unless it already holds an address.
   */
  ghost predicate Gained(events: seq<Received>, decode: Decoder, quotes: seq<Quote>, more: seq<Quote>,
                         cell: Option<Addr>, after: Option<Addr>) {
    var at := HeardAt(events, decode, |events|);
    && |more| == |quotes| + |at| && quotes <= more
    && (forall k | 0 <= k < |at| :: at[k] < |events| && QuoteIn(events[at[k]], decode) == Some(more[|quotes| + k]))
    && after == if cell.Some? || at == [] then cell else Some(events[at[0]].src)
  }

  lemma GainedAll(events: seq<Received>, decode: Decoder, quotes: seq<Quote>, cell: Option<Addr>)
    ensures var h := Hear(events, decode);
      Gained(events, decode, quotes, quotes + QuotesOf(h), cell, CellAfter(cell, h))
  {
    AllHeard(events, decode);
    HeardParts(Hear(events, decode));
    hide Hear, HeardAt, QuotesOf, SourcesOf, QuoteIn;
  }

  // ---------------------------------------------------------------- the loop

  /** What can come in: the worker's quotes only after the worker has sent one. */
  predicate CanArrive(r: Received, s: Link, server: Addr) {
    r.Datagram? && r.src == server ==> s.w.attempts != []
  }

  class QuoteReceiver {
    const shared: Shared
    var quotes: seq<Quote>
    const decode: Decoder

    constructor (shared: Shared, decode: Decoder)
      ensures quotes == [] && this.shared == shared && this.decode == decode
    {
      this.shared, quotes, this.decode := shared, [], decode;
    }

    /** The client runs, and these quotes were heard since `was`. */
    ghost predicate Heeded(was: Link, h: seq<Heard>)
      reads shared
    {
      && shared.Tied() && shared.link.wake.Some?
      && shared.link.cell == CellAfter(was.cell, h) && shared.link.sources == was.sources + SourcesOf(h)
    }

    /** Waits for a datagram, a timeout or an error, while everyone else goes on. */
    method RecvFrom() returns (r: Received)
      requires shared.Tied() && shared.link.wake.Some?
      modifies shared
      ensures Heeded(old(shared.link), []) && CanArrive(r, shared.link, shared.server)
    {
      shared.OthersThanReceiver();
      r :| true;
      if r.Datagram? && r.src == shared.server && shared.link.w.attempts == [] {
        r := TimedOut;
      }
    }

    /** One received datagram. */
    method Take(text: string, src: Addr)
      requires shared.Tied() && shared.link.wake.Some? && CanArrive(Datagram(text, src), shared.link, shared.server)
      modifies shared, this`quotes
      ensures Heeded(old(shared.link), HeardIn(Datagram(text, src), decode))
      ensures quotes == old(quotes) + QuotesOf(HeardIn(Datagram(text, src), decode))
    {
      hide Decode, Reaches, SourcesOf, QuotesOf;
      NothingHeard(decode);
      OneHeard(HeardIn(Datagram(text, src), decode));
      var q := Decode(text, decode);
      if q.Some? {
        shared.Step(QuoteArrives(src));
        quotes := quotes + [q.value];
      }
    }

    /**
     Receives for so many turns, or until a hard error. The caller gets exactly the quotes heard; the cell holds
     the source of the first of them, or what it held before; the flag is set; and every execution is a run of
     the keep-alive system.
     */
    method Receive(turns: nat) returns (ok: bool, ghost events: seq<Received>)
      requires shared.Tied() && shared.link.wake.Some?
      modifies shared, this`quotes
      ensures shared.stop && (ok <==> Failed !in events)
      ensures if ok then |events| == turns else 0 < |events| <= turns && events[|events| - 1].Failed?
      ensures Gained(events, decode, old(quotes), quotes, old(shared.link).cell, shared.link.cell)
      ensures Heeded(old(shared.link), Hear(events, decode))
      ensures quotes == old(quotes) + QuotesOf(Hear(events, decode))
      ensures Tolerated(shared.b) && FirstFromServer(shared.link, shared.server) ==> !Dropped(shared.link)
    {
      hide HeardIn, QuotesOf, SourcesOf, Reaches, Tolerated, FirstFromServer, Dropped, Gained, Hear;
      NothingHeard(decode);
      events, ok := [], true;
      var turn := 0;
      while turn < turns && ok
        invariant |events| == turn <= turns && (ok <==> Failed !in events)
        invariant !ok ==> events != [] && events[|events| - 1].Failed?
        invariant Heeded(old(shared.link), Hear(events, decode))
        invariant quotes == old(quotes) + QuotesOf(Hear(events, decode))
        decreases turns - turn
      {
        ghost var heard := Hear(events, decode);
        var r := RecvFrom();
        HearSnoc(events, r, decode);
        QuotesConcat(heard, HeardIn(r, decode));
        SourcesConcat(heard, HeardIn(r, decode));
        NoDatagram(r, decode);
        if r.Datagram? {
          Take(r.text, r.src);
        }
        ok := !r.Failed?;
        events := events + [r];
        turn := turn + 1;
      }
      shared.stop := true;
      GainedAll(events, decode, old(quotes), old(shared.link).cell);
      if Tolerated(shared.b) && FirstFromServer(shared.link, shared.server) {
        shared.Safe();
      }
    }
  }

  lemma OneHeard(h: seq<Heard>)
    ensures |h| == 1 ==> QuotesOf(h) == [h[0].quote] && SourcesOf(h) == [h[0].src]
  {
    if |h| == 1 {
      assert h[1..] == [];
    }
  }

  lemma NothingHeard(decode: Decoder)
    ensures QuotesOf([]) == [] && SourcesOf([]) == [] && Hear([], decode) == []
  {
  }

  lemma NoDatagram(r: Received, decode: Decoder)
    ensures !r.Datagram? ==> HeardIn(r, decode) == []
    ensures QuotesOf([]) == [] && SourcesOf([]) == []
  {
  }

  /** A keep-alive datagram in any letter case and spacing is never taken for a quote, whatever the decoder does. */
  lemma KeepAliveIgnored(text: string, decode: Decoder)
    requires PingText(Trim(text)) || PongText(Trim(text))
    ensures Decode(text, decode).None?
  {
    DecodeExact(text, decode);
  }
}
