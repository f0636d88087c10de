/** The generator thread of the hub: emit a batch, then broadcast it, round after round. */
module Emission {
  import opened Quotes
  import opened Sequences
  import opened Hub
  import opened Simulation
  import opened Generator
  import opened Distribution

  /** These batches are the generator's, from batch number `first` on: coherent, with the market's values. */
  ghost predicate Emitted(bs: seq<Batch>, first: nat, g: QuoteGenerator)
    requires g.fl.Sound()
  {
    forall k | 0 <= k < |bs| ::
      FromMarket(bs[k], MarketAt(g.tickerOrder, first + k, SeedWords(g.seed), g.fl), g.tickerOrder)
  }

  ghost predicate FromMarket(batch: Batch, m: Market, order: seq<string>) {
    && Coherent(batch, order)
    && forall q | q in batch :: q.ticker in m.price && q.ticker in m.volume
                             && q.price == m.price[q.ticker] && q.volume == m.volume[q.ticker]
  }

  /** A subscriber after these batches. */
  function Delivered(sub: Subscriber, bs: seq<Batch>): Subscriber {
    if bs == [] then sub else Deliver(Delivered(sub, bs[..|bs| - 1]), bs[|bs| - 1])
  }

  lemma DeliveredSnoc(sub: Subscriber, bs: seq<Batch>, batch: Batch)
    ensures Delivered(sub, bs + [batch]) == Deliver(Delivered(sub, bs), batch)
  {
    assert (bs + [batch])[..|bs|] == bs;
  }

  /** A receiving subscriber gets its message of every batch, in order; a dead one nothing. */
  lemma {:induction false} DeliveredMessages(sub: Subscriber, bs: seq<Batch>)
    ensures var after := Delivered(sub, bs);
      && after.tickers == sub.tickers && after.open == sub.open
      && after.queue == sub.queue + if sub.open then Messages(bs, sub.tickers) else []
  {
    hide Project;
    if bs != [] {
      DeliveredMessages(sub, bs[..|bs| - 1]);
    }
  }

  // ---------------------------------------------------------------- what the delivered quotes are worth

  /** The bounds on a quote of batch number `k`, in the words of `PriceLimits` and `VolumeLimits`. */
  ghost predicate WithinLimits(q: Quote, k: nat, order: seq<string>) {
    var n := k * Count(order, q.ticker);
    && 0.0 < 50.0 * Pow(0.98, n) <= q.price <= 1000.0 * Pow(1.02, n)
    && 1 <= q.volume <= 10999
    && (k >= 4 ==> if Popular(q.ticker) then 685 <= q.volume <= 6315 else 43 <= q.volume <= 1157)
  }

  /** Every quote of an emitted batch is within its limits. */
  lemma EmittedWithin(bs: seq<Batch>, first: nat, g: QuoteGenerator, k: nat, q: Quote)
    requires g.fl.Sound() && Emitted(bs, first, g) && k < |bs| && q in bs[k]
    ensures WithinLimits(q, first + k, g.tickerOrder)
  {
    hide MarketAt, Pow;
    var order, words := g.tickerOrder, SeedWords(g.seed);
    var m := MarketAt(order, first + k, words, g.fl);
    assert FromMarket(bs[k], m, order);
    TickersIndex(bs[k]);
    assert q.ticker in order by {
      var i :| 0 <= i < |bs[k]| && bs[k][i] == q;
      assert order[i] == q.ticker;
    }
    PriceLimits(order, first + k, words, g.fl, q.ticker);
    VolumeLimits(order, first + k, words, g.fl, q.ticker);
  }

  lemma {:induction false} MessageSource(bs: seq<Batch>, tickers: set<string>, m: Batch) returns (k: nat)
    requires m in Messages(bs, tickers)
    ensures k < |bs| && m == Project(bs[k], tickers)
  {
    hide Project;
    var last := |bs| - 1;
    if m in Messages(bs[..last], tickers) {
      k := MessageSource(bs[..last], tickers, m);
    } else {
      k := last;
    }
  }

  /**
   Whatever is delivered to a subscriber by the generator thread: each quote added to its queue is for a ticker it
   asked for, and is within the limits of one of the batches emitted meanwhile.
   */
  lemma DeliveredWithin(sub: Subscriber, bs: seq<Batch>, first: nat, g: QuoteGenerator,
                        added: seq<Batch>, m: Batch, q: Quote)
    returns (k: nat)
    requires g.fl.Sound() && Emitted(bs, first, g)
    requires Delivered(sub, bs).queue == sub.queue + added && m in added && q in m
    ensures k < |bs| && q in bs[k] && q.ticker in sub.tickers && WithinLimits(q, first + k, g.tickerOrder)
  {
    hide Emitted, WithinLimits, Project, Delivered, Messages;
    DeliveredMessages(sub, bs);
    SameTail(sub.queue, added, if sub.open then Messages(bs, sub.tickers) else []);
    k := MessageSource(bs, sub.tickers, m);
    ProjectMembers(bs[k], sub.tickers);
    EmittedWithin(bs, first, g, k, q);
  }

  // ---------------------------------------------------------------- the rounds

  lemma ValidSound(g: QuoteGenerator)
    requires g.Valid()
    ensures g.fl.Sound()
  {
  }

  lemma EmittedSnoc(bs: seq<Batch>, batch: Batch, first: nat, g: QuoteGenerator)
    requires g.fl.Sound() && Emitted(bs, first, g)
    requires FromMarket(batch, MarketAt(g.tickerOrder, first + |bs|, SeedWords(g.seed), g.fl), g.tickerOrder)
    ensures Emitted(bs + [batch], first, g)
  {
    hide FromMarket, MarketAt;
  }

  lemma NothingYet(subs: seq<Subscriber>, g: QuoteGenerator)
    requires g.fl.Sound()
    ensures Emitted([], g.batches, g) && forall j | 0 <= j < |subs| :: Delivered(subs[j], []) == subs[j]
  {
  }

  /** `n` rounds of the endless loop. Every subscriber's queue grows by its messages of the `n` emitted batches. */
  method Rounds(g: QuoteGenerator, hub: QuoteHub, n: nat) returns (ghost bs: seq<Batch>)
    requires g.Valid()
    modifies g, g.rng, g.clock, hub
    ensures g.Valid() && g.batches == old(g.batches) + n
    ensures |bs| == n && Emitted(bs, old(g.batches), g)
    ensures |hub.subscribers| == |old(hub.subscribers)|
    ensures forall i | 0 <= i < |hub.subscribers| :: hub.subscribers[i] == Delivered(old(hub.subscribers)[i], bs)
  {
    hide *;
    ValidSound(g);
    bs := [];
    NothingYet(hub.subscribers, g);
    var i := 0;
    while i < n
      invariant 0 <= i <= n && g.Valid() && g.batches == old(g.batches) + i
      invariant |bs| == i && Emitted(bs, old(g.batches), g)
      invariant |hub.subscribers| == |old(hub.subscribers)|
      invariant forall j | 0 <= j < |hub.subscribers| :: hub.subscribers[j] == Delivered(old(hub.subscribers)[j], bs)
    {
      var batch := Round(g, hub);
      forall j | 0 <= j < |hub.subscribers|
        ensures hub.subscribers[j] == Delivered(old(hub.subscribers)[j], bs + [batch])
      {
        DeliveredSnoc(old(hub.subscribers)[j], bs, batch);
      }
      EmittedSnoc(bs, batch, old(g.batches), g);
      bs := bs + [batch];
      i := i + 1;
    }
  }

  /** One round. */
  method Round(g: QuoteGenerator, hub: QuoteHub) returns (batch: Batch)
    requires g.Valid()
    modifies g, g.rng, g.clock, hub
    ensures g.Valid() && g.batches == old(g.batches) + 1
    ensures FromMarket(batch, MarketAt(g.tickerOrder, old(g.batches), SeedWords(g.seed), g.fl), g.tickerOrder)
    ensures |hub.subscribers| == |old(hub.subscribers)|
    ensures forall i | 0 <= i < |hub.subscribers| :: hub.subscribers[i] == Deliver(old(hub.subscribers)[i], batch)
  {
    hide SeedWords, MarketAt, Coherent, Deliver;
    var _ := g.AdvanceBatch();
    batch := g.LastBatchQuotes();
    hub.Broadcast(batch);
  }
}
