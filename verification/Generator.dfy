/** `QuoteGenerator`: the stateful generator, its batch cache and its pacing. */
module Generator {
  import opened Options
  import opened Sequences
  import opened Quotes
  import opened XorShift
  import opened Hub
  import opened Simulation

  /** The time source: a monotone clock, a sleep that lasts at least as long as asked, and a wall clock. */
  class Clock {
    var now: nat

    method Now() returns (t: nat)
      modifies this
      ensures t == now >= old(now)
    {
      var passed :| passed >= 0;
      now := now + passed;
      t := now;
    }

    method Sleep(d: nat)
      modifies this
      ensures now >= old(now) + d
    {
      var extra :| extra >= 0;
      now := now + d + extra;
    }

    method MillisSinceEpoch() returns (ts: U64)
    {
      ts :| 0 <= ts < 0x1_0000_0000_0000_0000;
    }
  }

  /** The words the generator draws from a seed. */
  function SeedWords(seed: bv64): Words {
    n => Draw(Seeded(seed), n) as nat
  }

  function QuoteOf(m: Market, t: string, ts: U64): Quote
    requires t in m.price && t in m.volume
  {
    Quote(t, m.price[t], m.volume[t], ts)
  }

  /** `filter_map` over the order: the cached quote of every listed ticker that has one. */
  function Listed(order: seq<string>, batch: map<string, Quote>): Batch {
    if order == [] then []
    else (if order[0] in batch then [batch[order[0]]] else []) + Listed(order[1..], batch)
  }

  function Sum(s: seq<nat>): nat {
    if s == [] then 0 else Sum(s[..|s| - 1]) + s[|s| - 1]
  }

  lemma SumEmpty()
    ensures Sum([]) == 0
  {
  }

  lemma SumSnoc(s: seq<nat>, d: nat)
    ensures Sum(s + [d]) == Sum(s) + d
  {
    assert (s + [d])[..|s|] == s;
  }

  class QuoteGenerator {
    var emitInterval: nat
    const rng: XorShift64
    const tickerOrder: seq<string>
    const fl: Floats
    var lastPrice: map<string, real>
    var lastVolume: map<string, U32>
    var currentBatch: map<string, Quote>
    var lastEmitEnd: Option<nat>

    const clock: Clock
    ghost const seed: bv64
    ghost var drawn: nat        // words drawn so far
    ghost var batches: nat      // batches emitted so far
    ghost var firstEnd: nat     // when the first one was complete
    ghost var gaps: seq<nat>    // the interval in force at each later one
    ghost var stamp: U64        // the timestamp of the last one

    ghost function Now(): Market
      reads this`drawn, this`lastPrice, this`lastVolume
    {
      Market(drawn, lastPrice, lastVolume)
    }

    /** The random source stands where `drawn` words from the seed lead. */
    ghost predicate RngAt(n: nat)
      reads rng
    {
      rng.state == StateAfter(Seeded(seed), n)
    }

    /** The cache holds one quote for every listed ticker and no other, all at `ts`, as in the maps. */
    ghost predicate BatchAt(ts: U64)
      reads this`drawn, this`lastPrice, this`lastVolume, this`currentBatch
    {
      && Covers(Now(), tickerOrder)
      && currentBatch.Keys == Elements(tickerOrder)
      && forall t | t in tickerOrder :: currentBatch[t] == QuoteOf(Now(), t, ts)
    }

    /** The next emission is due no earlier than all the intervals in force since the first one allow. */
    ghost predicate Paced()
      reads this, clock
    {
      && lastEmitEnd.Some? && |gaps| == batches - 1
      && firstEnd + Sum(gaps) <= lastEmitEnd.value <= clock.now
    }

    ghost predicate Valid()
      reads this, rng, clock
    {
      && fl.Sound() && RngAt(drawn)
      && Now() == MarketAt(tickerOrder, if batches == 0 then 0 else batches - 1, SeedWords(seed), fl)
      && if batches == 0 then lastEmitEnd.None? && gaps == [] && currentBatch == map[] else Paced() && BatchAt(stamp)
    }

    constructor (order: seq<string>, seed: bv64, emitInterval: nat, fl: Floats, clock: Clock)
      requires fl.Sound()
      ensures Valid() && fresh(rng) && batches == 0
      ensures this.tickerOrder == order && this.seed == seed && this.fl == fl && this.clock == clock
      ensures this.emitInterval == emitInterval
    {
      hide SeedWords, StateAfter, StartFirst;
      this.emitInterval, this.fl, this.clock, this.seed := emitInterval, fl, clock, seed;
      rng := new XorShift64(seed);
      tickerOrder := order;
      lastPrice, lastVolume, currentBatch, lastEmitEnd := map[], map[], map[], None;
      drawn, batches, firstEnd, gaps, stamp := 0, 0, 0, [], 0;
      new;
      assert RngAt(0);
      StartTickers();
    }

    /** The start values: two draws a ticker, in list order. */
    method StartTickers()
      requires fl.Sound() && RngAt(drawn) && Now() == Market(0, map[], map[])
      modifies this`lastPrice, this`lastVolume, this`drawn, rng
      ensures RngAt(drawn) && Now() == StartFirst(tickerOrder, |tickerOrder|, SeedWords(seed), fl)
    {
      hide SeedWords, RngAt, Simulation.StartTicker;
      var i := 0;
      while i < |tickerOrder|
        invariant 0 <= i <= |tickerOrder|
        invariant RngAt(drawn) && Now() == StartFirst(tickerOrder, i, SeedWords(seed), fl)
      {
        StartTicker(tickerOrder[i]);
        i := i + 1;
      }
    }

    method StartTicker(ticker: string)
      requires fl.Sound() && RngAt(drawn)
      modifies this`lastPrice, this`lastVolume, this`drawn, rng
      ensures RngAt(drawn) && Now() == Simulation.StartTicker(old(Now()), ticker, SeedWords(seed), fl)
      ensures Started(old(Now()), Now(), ticker, SeedWords(seed), fl)
    {
      StartTickerPlain(Now(), ticker, SeedWords(seed), fl);
      hide Started;
      hide SeedWords, RngAt, StartPrice, StartVolume;
      var priceWord := DrawWord();
      var startPrice := StartPrice(priceWord, fl);
      var volumeWord := DrawWord();
      var startVolume := StartVolume(volumeWord);
      lastPrice := lastPrice[ticker := startPrice];
      lastVolume := lastVolume[ticker := startVolume];
    }

    /** One draw, as a number. */
    method DrawWord() returns (word: nat)
      requires RngAt(drawn)
      modifies this`drawn, rng
      ensures RngAt(drawn) && drawn == old(drawn) + 1 && word == SeedWords(seed)(old(drawn))
    {
      var w := rng.NextU64();
      word := w as nat;
      drawn := drawn + 1;
    }

    method NextRange(min: int, max: int) returns (v: int)
      requires min <= max && RngAt(drawn)
      modifies this`drawn, rng
      ensures RngAt(drawn) && drawn == old(drawn) + RangeDraws(min, max)
      ensures v == RangeValue(SeedWords(seed)(old(drawn)), min, max)
      ensures var span := max - min + 1;
        min <= v <= max && (v - min) % span == SeedWords(seed)(old(drawn)) % span
    {
      if min == max {
        return min;
      }
      var word := DrawWord();
      v := RangeValue(word, min, max);
    }

    method SetEmitInterval(interval: nat)
      requires Valid()
      modifies this`emitInterval
      ensures Valid() && emitInterval == interval
    {
      hide SeedWords, StateAfter;
      emitInterval := interval;
    }

    /** The price part of a step: one draw. */
    method NextPrice(oldPrice: real) returns (newPrice: real)
      requires RngAt(drawn)
      modifies this`drawn, rng
      ensures RngAt(drawn) && drawn == old(drawn) + 1
      ensures newPrice == StepPrice(oldPrice, RangeValue(SeedWords(seed)(old(drawn)), -200, 200))
    {
      hide SeedWords, RngAt, RangeValue, Moved;
      var bps := NextRange(-200, 200);
      newPrice := Moved(oldPrice, bps);
      if newPrice <= 0.0 {
        newPrice := EPSILON;
      }
    }

    /** The volume part of a step: one draw, and a second one unless the drift is 0. */
    method NextVolume(popular: bool, oldVolume: U32) returns (newVolume: int)
      requires fl.Sound() && RngAt(drawn)
      modifies this`drawn, rng
      ensures RngAt(drawn) && drawn == old(drawn) + StepDraws(oldVolume) - 1
      ensures var words := SeedWords(seed);
        newVolume == StepVolume(popular, oldVolume, words(old(drawn)), words(old(drawn) + 1), fl)
    {
      hide SeedWords, RngAt, RangeValue;
      var randWord := DrawWord();
      var randAdd := fl.share(fl.unit(randWord), ExtraVolume(popular));
      var drift: int := Drift(oldVolume);
      var driftAdd := NextRange(-drift, drift);
      newVolume := RawVolume(popular, randAdd, driftAdd);
      if newVolume < 1 {
        newVolume := 1;
      }
    }

    method StepTicker(ticker: string)
      requires fl.Sound() && RngAt(drawn)
      modifies this`lastPrice, this`lastVolume, this`drawn, rng
      ensures RngAt(drawn) && Now() == Simulation.StepTicker(old(Now()), ticker, SeedWords(seed), fl)
      ensures if ticker in old(lastPrice) && ticker in old(lastVolume)
              then Stepped(old(Now()), Now(), ticker, SeedWords(seed), fl) else Now() == old(Now())
    {
      hide Stepped, SeedWords, RngAt, StepPrice, RangeValue, Popular, StepDraws;
      StepTickerPlain(Now(), ticker, SeedWords(seed), fl);
      if ticker !in lastPrice || ticker !in lastVolume {
        return;
      }
      var newPrice := NextPrice(lastPrice[ticker]);
      var newVolume := NextVolume(Popular(ticker), lastVolume[ticker]);
      lastPrice := lastPrice[ticker := newPrice];
      lastVolume := lastVolume[ticker := newVolume];
    }

    method RebuildBatch(ts: U64)
      requires Covers(Now(), tickerOrder)
      modifies this`currentBatch, this`stamp
      ensures BatchAt(ts) && stamp == ts
    {
      currentBatch, stamp := map[], ts;
      var i := 0;
      while i < |tickerOrder|
        invariant 0 <= i <= |tickerOrder|
        invariant currentBatch.Keys == Elements(tickerOrder[..i])
        invariant forall t | t in currentBatch :: t in tickerOrder && currentBatch[t] == QuoteOf(Now(), t, ts)
        modifies this`currentBatch
      {
        var ticker := tickerOrder[i];
        assert ticker in tickerOrder && tickerOrder[..i + 1] == tickerOrder[..i] + [ticker];
        currentBatch := currentBatch[ticker := Quote(ticker, lastPrice[ticker], lastVolume[ticker], ts)];
        i := i + 1;
      }
      assert tickerOrder[..i] == tickerOrder;
    }

    method StepTickers()
      requires fl.Sound() && RngAt(drawn)
      modifies this`lastPrice, this`lastVolume, this`drawn, rng
      ensures RngAt(drawn) && Now() == StepFirst(old(Now()), tickerOrder, |tickerOrder|, SeedWords(seed), fl)
    {
      hide SeedWords, RngAt, Simulation.StepTicker;
      var i := 0;
      while i < |tickerOrder|
        invariant 0 <= i <= |tickerOrder| && RngAt(drawn)
        invariant Now() == StepFirst(old(Now()), tickerOrder, i, SeedWords(seed), fl)
      {
        StepTicker(tickerOrder[i]);
        i := i + 1;
      }
    }

    /** Waits until one interval after the previous emission, unless that has already passed. */
    method AwaitDeadline()
      requires lastEmitEnd.Some?
      modifies clock
      ensures clock.now >= old(clock.now) && clock.now >= lastEmitEnd.value + emitInterval
    {
      var afterRegen := clock.Now();
      var deadline := lastEmitEnd.value + emitInterval;
      if deadline > afterRegen {
        clock.Sleep(deadline - afterRegen);
      }
    }

    /** Stamps and caches the batch, and notes when it was complete. */
    method Emit() returns (ts: U64)
      requires Covers(Now(), tickerOrder)
      modifies this`currentBatch, this`stamp, this`lastEmitEnd, clock
      ensures BatchAt(ts) && stamp == ts && lastEmitEnd == Some(clock.now) && clock.now >= old(clock.now)
    {
      ts := clock.MillisSinceEpoch();
      RebuildBatch(ts);
      var end := clock.Now();
      lastEmitEnd := Some(end);
    }

    /**
     Emits a batch: the next one of the seed, whatever the clock says; cached coherently under the returned
     timestamp; and complete no earlier than one interval after the previous one.
     */
    method AdvanceBatch() returns (ts: U64)
      requires Valid()
      modifies this`lastPrice, this`lastVolume, this`currentBatch, this`lastEmitEnd,
               this`drawn, this`batches, this`firstEnd, this`gaps, this`stamp, rng, clock
      ensures Valid() && BatchAt(ts) && stamp == ts && batches == old(batches) + 1
      ensures Now() == MarketAt(tickerOrder, old(batches), SeedWords(seed), fl)
      ensures old(batches) > 0 ==> gaps == old(gaps) + [emitInterval] && firstEnd == old(firstEnd)
      ensures old(batches) > 0 ==> lastEmitEnd.value >= old(lastEmitEnd).value + emitInterval
    {
      hide SeedWords, RngAt, StepFirst, StartFirst, BatchAt, Covers, Sum;
      MarketCovers(tickerOrder, batches, SeedWords(seed), fl);
      if lastEmitEnd.None? {
        ts := Emit();
        batches, firstEnd := 1, lastEmitEnd.value;
        assert Sum(gaps) == 0 by { SumEmpty(); }
        return;
      }
      StepTickers();
      AwaitDeadline();
      ts := Emit();
      SumSnoc(gaps, emitInterval);
      batches, gaps := batches + 1, gaps + [emitInterval];
    }

    /** The last batch in ticker order: what the hub broadcasts. Before the first emission it is empty. */
    method LastBatchQuotes() returns (batch: Batch)
      requires Valid()
      ensures if batches == 0 then batch == [] else Coherent(batch, tickerOrder)
      ensures forall q | q in batch :: q.ticker in tickerOrder && q == QuoteOf(Now(), q.ticker, stamp)
    {
      batch := Listed(tickerOrder, currentBatch);
      if batches == 0 {
        NothingListed(tickerOrder);
      } else {
        ListedCoherent(tickerOrder, currentBatch, Now(), stamp);
      }
    }

    method LastBatchTimestamp() returns (ts: Option<U64>)
      requires Valid()
      ensures ts.None? <==> batches == 0 || tickerOrder == []
      ensures ts.Some? ==> forall t | t in tickerOrder :: currentBatch[t].timestamp == ts.value
    {
      if tickerOrder == [] || tickerOrder[0] !in currentBatch {
        return None;
      }
      ts := Some(currentBatch[tickerOrder[0]].timestamp);
    }
  }

  lemma {:induction false} NothingListed(order: seq<string>)
    ensures Listed(order, map[]) == []
  {
    if order != [] {
      NothingListed(order[1..]);
    }
  }

  lemma {:induction false} ListedCoherent(order: seq<string>, batch: map<string, Quote>, m: Market, ts: U64)
    requires forall t | t in order :: t in batch && t in m.price && t in m.volume && batch[t] == QuoteOf(m, t, ts)
    ensures Tickers(Listed(order, batch)) == order
    ensures forall q | q in Listed(order, batch) :: q.ticker in order && q == QuoteOf(m, q.ticker, ts)
  {
    if order != [] {
      assert order[0] in order;
      forall t | t in order[1..] ensures t in order {}
      ListedCoherent(order[1..], batch, m, ts);
    }
  }

  /**
   Two generators with the same seed and list hold the same prices and volumes after the same number of
   batches, whatever their clocks and intervals did in between.
   */
  lemma SameSeedSameMarket(a: QuoteGenerator, b: QuoteGenerator)
    requires a.Valid() && b.Valid()
    requires a.seed == b.seed && a.tickerOrder == b.tickerOrder && a.fl == b.fl && a.batches == b.batches
    ensures a.lastPrice == b.lastPrice && a.lastVolume == b.lastVolume && a.rng.state == b.rng.state
  {
  }

  lemma {:induction false} SumConstant(s: seq<nat>, d: nat)
    requires forall i | 0 <= i < |s| :: s[i] == d
    ensures Sum(s) == |s| * d
  {
    if s != [] {
      SumConstant(s[..|s| - 1], d);
      assert |s| * d == (|s| - 1) * d + d;
    }
  }

  /** With a fixed interval the k-th emission is complete no earlier than k - 1 intervals after the first. */
  lemma FixedIntervalPacing(g: QuoteGenerator, d: nat)
    requires g.Valid() && g.batches > 0
    requires forall i | 0 <= i < |g.gaps| :: g.gaps[i] == d
    ensures g.lastEmitEnd.value >= g.firstEnd + (g.batches - 1) * d
  {
    SumConstant(g.gaps, d);
  }
}
