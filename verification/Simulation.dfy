/**
 The simulated market as a function of the words drawn: start prices and volumes, and one step of every
 ticker. Prices are reals. What the model leaves open about `f64` is a parameter (`Floats`).
 */
module Simulation {
  import opened Quotes
  import opened Sequences

  /** `next_f64_01` of a drawn word, and the truncated product of such a fraction and a count. */
  datatype Floats = Floats(unit: nat -> real, share: (real, nat) -> nat) {
    /** The fraction may reach 1.0, since `u64 as f64` can round up to 2^64. */
    ghost predicate Sound() {
      && (forall w :: 0.0 <= unit(w) <= 1.0)
      && (forall u, n | 0.0 <= u <= 1.0 :: share(u, n) <= n)
    }
  }

  /** The words a generator draws, by position. */
  type Words = nat -> nat

  /** How many words were drawn, and the last price and volume of every ticker. */
  datatype Market = Market(drawn: nat, price: map<string, real>, volume: map<string, U32>)

  const POPULAR_TICKERS := ["AAPL", "MSFT", "TSLA"]

  predicate Popular(t: string) {
    t in POPULAR_TICKERS
  }

  function BaseVolume(popular: bool): nat {
    if popular then 1000 else 100
  }

  function ExtraVolume(popular: bool): nat {
    if popular then 5000 else 1000
  }

  /** `next_i32_range`: a point range draws nothing. */
  function RangeValue(word: nat, min: int, max: int): (v: int)
    requires min <= max
    ensures min <= v <= max
    ensures var span := max - min + 1; (v - min) % span == word % span
  {
    if min == max then min else min + word % (max - min + 1)
  }

  function RangeDraws(min: int, max: int): nat {
    if min == max then 0 else 1
  }

  function Drift(volume: U32): nat {
    volume / 20
  }

  /** The volume before the clamp. */
  function RawVolume(popular: bool, randAdd: nat, driftAdd: int): int {
    BaseVolume(popular) + randAdd + driftAdd
  }

  function Clamped(v: int): int {
    if v < 1 then 1 else v
  }

  /** The price moved by some hundredths of a percent. */
  function Moved(price: real, bps: int): real {
    price * (1.0 + bps as real / 10000.0)
  }

  function StepPrice(price: real, bps: int): real {
    if Moved(price, bps) <= 0.0 then EPSILON else Moved(price, bps)
  }

  /** `f64::EPSILON`, 2^-52. */
  const EPSILON: real := 1.0 / 4503599627370496.0

  function StepVolume(popular: bool, was: U32, randWord: nat, driftWord: nat, fl: Floats): U32
    requires fl.Sound()
  {
    var randAdd := fl.share(fl.unit(randWord), ExtraVolume(popular));
    var drift: int := Drift(was);
    Clamped(RawVolume(popular, randAdd, RangeValue(driftWord, -drift, drift)))
  }

  function StepDraws(was: U32): nat {
    var drift: int := Drift(was);
    2 + RangeDraws(-drift, drift)
  }

  /** One ticker's step: two draws, and a third one unless the drift is 0. */
  function StepTicker(m: Market, t: string, words: Words, fl: Floats): Market
    requires fl.Sound()
  {
    if t !in m.price || t !in m.volume then m
    else
      var n := m.drawn;
      Market(n + StepDraws(m.volume[t]),
             m.price[t := StepPrice(m.price[t], RangeValue(words(n), -200, 200))],
             m.volume[t := StepVolume(Popular(t), m.volume[t], words(n + 1), words(n + 2), fl)])
  }

  function StartPrice(word: nat, fl: Floats): (p: real)
    requires fl.Sound()
    ensures 50.0 <= p <= 1000.0
  {
    50.0 + fl.unit(word) * 950.0
  }

  function StartVolume(word: nat): (v: U32)
    ensures 1000 <= v <= 10999
  {
    1000 + word % 10000
  }

  function StartTicker(m: Market, t: string, words: Words, fl: Floats): Market
    requires fl.Sound()
  {
    var n := m.drawn;
    Market(n + 2, m.price[t := StartPrice(words(n), fl)], m.volume[t := StartVolume(words(n + 1))])
  }

  /** The market after the first `n` tickers of the list got their start values. */
  function StartFirst(order: seq<string>, n: nat, words: Words, fl: Floats): Market
    requires fl.Sound() && n <= |order|
  {
    if n == 0 then Market(0, map[], map[])
    else StartTicker(StartFirst(order, n - 1, words, fl), order[n - 1], words, fl)
  }

  /** The market after the first `n` tickers of the list were stepped. */
  function StepFirst(m: Market, order: seq<string>, n: nat, words: Words, fl: Floats): Market
    requires fl.Sound() && n <= |order|
  {
    if n == 0 then m else StepTicker(StepFirst(m, order, n - 1, words, fl), order[n - 1], words, fl)
  }

  /** The market behind the batch with index `k`: the drawn words, the ticker list and `k` decide it, nothing else. */
  function MarketAt(order: seq<string>, k: nat, words: Words, fl: Floats): Market
    requires fl.Sound()
  {
    if k == 0 then StartFirst(order, |order|, words, fl)
    else StepFirst(MarketAt(order, k - 1, words, fl), order, |order|, words, fl)
  }

  // ---------------------------------------------------------------- the steps in plain arithmetic

  /** One start: the price in [50, 1000] from one word, the volume in [1000, 10999] from the next. */
  ghost predicate Started(m: Market, next: Market, t: string, words: Words, fl: Floats) {
    && next.drawn == m.drawn + 2
    && next.price == m.price[t := 50.0 + fl.unit(words(m.drawn)) * 950.0]
    && next.volume.Keys == m.volume.Keys + {t} && next.volume[t] == 1000 + words(m.drawn + 1) % 10000
    && (forall u | u in m.volume && u != t :: next.volume[u] == m.volume[u])
  }

  /** A word moves a price by -200 to 200 hundredths of a percent. */
  function MovedPrice(p: real, word: nat): real {
    var bps: int := word % 401 - 200;
    var moved := p * (1.0 + bps as real / 10000.0);
    if moved > 0.0 then moved else 1.0 / 4503599627370496.0
  }

  /** A drift of at most a twentieth of the volume either way. */
  function DriftOf(v: nat, word: nat): int {
    var drift: int := v / 20;
    if drift == 0 then 0 else word % (2 * drift + 1) - drift
  }

  /** The base volume, a fraction of the extra volume, and the drift, but at least 1. */
  function SteppedVolume(t: string, v: nat, randWord: nat, driftWord: nat, fl: Floats): int {
    var popular := t == "AAPL" || t == "MSFT" || t == "TSLA";
    var added := fl.share(fl.unit(randWord), if popular then 5000 else 1000);
    var volume := (if popular then 1000 else 100) + added + DriftOf(v, driftWord);
    if volume < 1 then 1 else volume
  }

  /** One step: a word for the price, a second for the extra volume, a third for the drift unless it can only be 0. */
  ghost predicate Stepped(m: Market, next: Market, t: string, words: Words, fl: Floats)
    requires t in m.price && t in m.volume
  {
    var n, v := m.drawn, m.volume[t];
    && next.drawn == n + (if v < 20 then 2 else 3)
    && next.price == m.price[t := MovedPrice(m.price[t], words(n))]
    && t in next.volume && next.volume == m.volume[t := next.volume[t]]
    && next.volume[t] == SteppedVolume(t, v, words(n + 1), words(n + 2), fl)
  }

  lemma StartTickerPlain(m: Market, t: string, words: Words, fl: Floats)
    requires fl.Sound()
    ensures Started(m, StartTicker(m, t, words, fl), t, words, fl)
  {
  }

  lemma RangePlain(word: nat, max: int)
    requires max >= 0
    ensures RangeValue(word, -max, max) == if max == 0 then 0 else word % (2 * max + 1) - max
  {
  }

  lemma PopularPlain(t: string)
    ensures Popular(t) <==> t == "AAPL" || t == "MSFT" || t == "TSLA"
  {
  }

  lemma PricePlain(p: real, word: nat)
    ensures StepPrice(p, RangeValue(word, -200, 200)) == MovedPrice(p, word)
  {
    RangePlain(word, 200);
    hide RangeValue;
  }

  lemma VolumePlain(t: string, v: U32, randWord: nat, driftWord: nat, fl: Floats)
    requires fl.Sound()
    ensures StepVolume(Popular(t), v, randWord, driftWord, fl) == SteppedVolume(t, v, randWord, driftWord, fl)
    ensures StepDraws(v) == if v < 20 then 2 else 3
  {
    PopularPlain(t);
    RangePlain(driftWord, Drift(v));
    hide RangeValue, Popular;
  }

  lemma StepTickerPlain(m: Market, t: string, words: Words, fl: Floats)
    requires fl.Sound()
    ensures if t in m.price && t in m.volume then Stepped(m, StepTicker(m, t, words, fl), t, words, fl)
            else StepTicker(m, t, words, fl) == m
  {
    if t in m.price && t in m.volume {
      PricePlain(m.price[t], words(m.drawn));
      VolumePlain(t, m.volume[t], words(m.drawn + 1), words(m.drawn + 2), fl);
      hide RangeValue, Popular, StepPrice, StepVolume, StepDraws, MovedPrice, SteppedVolume;
    }
  }

  /** The tickers are stepped from the first to the last. */
  lemma {:induction false} StepFirstFront(m: Market, t: string, rest: seq<string>, n: nat, words: Words, fl: Floats)
    requires fl.Sound() && n <= |rest|
    ensures StepFirst(m, [t] + rest, n + 1, words, fl) == StepFirst(StepTicker(m, t, words, fl), rest, n, words, fl)
  {
    hide StepTicker;
    if n == 0 {
      assert StepFirst(m, [t] + rest, 0, words, fl) == m;
    } else {
      StepFirstFront(m, t, rest, n - 1, words, fl);
    }
  }

  /** The start values of a ticker, from its last place in the list: words 2·i and 2·i + 1. */
  lemma {:induction false} StartValues(order: seq<string>, n: nat, i: nat, words: Words, fl: Floats)
    requires fl.Sound() && i < n <= |order| && forall j | i < j < n :: order[j] != order[i]
    ensures var m := StartFirst(order, n, words, fl);
      && order[i] in m.price && m.price[order[i]] == 50.0 + fl.unit(words(2 * i)) * 950.0
      && order[i] in m.volume && m.volume[order[i]] == 1000 + words(2 * i + 1) % 10000
  {
    StartDraws(order, n - 1, words, fl);
    StartTickerPlain(StartFirst(order, n - 1, words, fl), order[n - 1], words, fl);
    hide StartTicker;
    if i < n - 1 {
      StartValues(order, n - 1, i, words, fl);
    }
  }

  // ---------------------------------------------------------------- every ticker is always there

  ghost predicate Covers(m: Market, order: seq<string>) {
    m.price.Keys == Elements(order) && m.volume.Keys == Elements(order)
  }

  lemma {:induction false} StartCovers(order: seq<string>, n: nat, words: Words, fl: Floats)
    requires fl.Sound() && n <= |order|
    ensures Covers(StartFirst(order, n, words, fl), order[..n])
  {
    if n > 0 {
      StartCovers(order, n - 1, words, fl);
      assert order[..n] == order[..n - 1] + [order[n - 1]];
    }
  }

  lemma {:induction false} StepCovers(m: Market, order: seq<string>, n: nat, words: Words, fl: Floats)
    requires fl.Sound() && n <= |order| && Covers(m, order)
    ensures Covers(StepFirst(m, order, n, words, fl), order)
  {
    if n > 0 {
      StepCovers(m, order, n - 1, words, fl);
      assert order[n - 1] in order;
    }
  }

  lemma {:induction false} MarketCovers(order: seq<string>, k: nat, words: Words, fl: Floats)
    requires fl.Sound()
    ensures Covers(MarketAt(order, k, words, fl), order)
  {
    if k == 0 {
      StartCovers(order, |order|, words, fl);
      assert order[..|order|] == order;
    } else {
      MarketCovers(order, k - 1, words, fl);
      StepCovers(MarketAt(order, k - 1, words, fl), order, |order|, words, fl);
    }
  }

  // ---------------------------------------------------------------- volumes

  /** Bounds on a volume after `n` steps of its ticker. */
  function VolumeLow(popular: bool, n: nat): nat {
    if n == 0 then 1
    else if popular then (if n == 1 then 451 else if n == 2 then 673 else if n == 3 then 684 else 685)
    else (if n == 1 then 1 else if n == 2 then 18 else if n == 3 then 41 else 43)
  }

  function VolumeHigh(popular: bool, n: nat): nat {
    if n == 0 then 10999
    else if popular then (if n == 1 then 6549 else if n == 2 then 6327 else if n == 3 then 6316 else 6315)
    else (if n == 1 then 1649 else if n == 2 then 1182 else if n == 3 then 1159 else 1157)
  }

  ghost predicate InBand(t: string, n: nat, v: int) {
    VolumeLow(Popular(t), n) <= v <= VolumeHigh(Popular(t), n)
  }

  /**
   The sum never leaves `i32`, whatever the previous volume; from a volume in its band it lands in the next
   band; and the clamp to 1 can change it only on the first step of an unpopular ticker.
   */
  lemma RawVolumeBounds(t: string, n: nat, was: U32, randAdd: nat, driftAdd: int)
    requires var drift: int := Drift(was); randAdd <= ExtraVolume(Popular(t)) && -drift <= driftAdd <= drift
    ensures var raw := RawVolume(Popular(t), randAdd, driftAdd);
      && -0x8000_0000 <= raw < 0x8000_0000
      && (InBand(t, n, was) ==> InBand(t, n + 1, Clamped(raw)))
      && (InBand(t, n, was) && (n > 0 || Popular(t)) ==> Clamped(raw) == raw)
  {
  }

  /** The clamp is needed: it fires on the first step from the largest start volume and the lowest draws. */
  lemma ClampFires(t: string)
    requires !Popular(t)
    ensures InBand(t, 0, 10999)
    ensures var drift: int := Drift(10999); Clamped(RawVolume(false, 0, -drift)) != RawVolume(false, 0, -drift)
  {
  }

  lemma {:induction false} StartVolumes(order: seq<string>, n: nat, words: Words, fl: Floats)
    requires fl.Sound() && n <= |order|
    ensures forall t | t in StartFirst(order, n, words, fl).volume ::
      1000 <= StartFirst(order, n, words, fl).volume[t] <= 10999
  {
    if n > 0 {
      StartVolumes(order, n - 1, words, fl);
    }
  }

  lemma StepVolumeBand(t: string, n: nat, was: U32, randWord: nat, driftWord: nat, fl: Floats)
    requires fl.Sound() && InBand(t, n, was)
    ensures InBand(t, n + 1, StepVolume(Popular(t), was, randWord, driftWord, fl))
  {
    var drift: int := Drift(was);
    var randAdd := fl.share(fl.unit(randWord), ExtraVolume(Popular(t)));
    RawVolumeBounds(t, n, was, randAdd, RangeValue(driftWord, -drift, drift));
  }

  /** Each band lies inside the one before. */
  lemma BandsShrink(t: string, n: nat, v: int)
    requires InBand(t, n + 1, v)
    ensures InBand(t, n, v)
  {
  }

  /** Volumes while a batch is under way: everyone's band of `k` steps, the first `n` tickers' of `k + 1`. */
  ghost predicate VolumesIn(volume: map<string, U32>, order: seq<string>, n: nat, k: nat)
    requires n <= |order|
  {
    && volume.Keys == Elements(order)
    && (forall t | t in order :: InBand(t, k, volume[t]))
    && (forall t | t in order[..n] :: InBand(t, k + 1, volume[t]))
  }

  lemma VolumesAdvance(volume: map<string, U32>, next: map<string, U32>, order: seq<string>, n: nat, k: nat)
    requires n < |order| && VolumesIn(volume, order, n, k)
    requires order[n] in next && next == volume[order[n] := next[order[n]]] && InBand(order[n], k + 1, next[order[n]])
    ensures VolumesIn(next, order, n + 1, k)
  {
    assert order[..n + 1] == order[..n] + [order[n]] && order[n] in order;
    BandsShrink(order[n], k, next[order[n]]);
  }

  lemma StepTickerVolume(m: Market, u: string, words: Words, fl: Floats, k: nat)
    requires fl.Sound() && u in m.price && u in m.volume && InBand(u, k, m.volume[u])
    ensures var volume := StepTicker(m, u, words, fl).volume;
      u in volume && volume == m.volume[u := volume[u]] && InBand(u, k + 1, volume[u])
  {
    StepVolumeBand(u, k, m.volume[u], words(m.drawn + 1), words(m.drawn + 2), fl);
  }

  lemma StepTickerVolumes(m: Market, order: seq<string>, n: nat, words: Words, fl: Floats, k: nat)
    requires fl.Sound() && n < |order| && Covers(m, order) && VolumesIn(m.volume, order, n, k)
    ensures VolumesIn(StepTicker(m, order[n], words, fl).volume, order, n + 1, k)
  {
    assert order[n] in order;
    StepTickerVolume(m, order[n], words, fl, k);
    var volume := StepTicker(m, order[n], words, fl).volume;
    VolumesAdvance(m.volume, volume, order, n, k);
  }

  lemma StepVolumesNext(m: Market, order: seq<string>, n: nat, words: Words, fl: Floats, k: nat)
    requires fl.Sound() && n < |order| && Covers(m, order)
    requires VolumesIn(StepFirst(m, order, n, words, fl).volume, order, n, k)
    ensures VolumesIn(StepFirst(m, order, n + 1, words, fl).volume, order, n + 1, k)
  {
    StepCovers(m, order, n, words, fl);
    StepTickerVolumes(StepFirst(m, order, n, words, fl), order, n, words, fl, k);
  }

  lemma {:induction false} StepVolumes(m: Market, order: seq<string>, n: nat, words: Words, fl: Floats, k: nat)
    requires fl.Sound() && n <= |order| && Covers(m, order) && VolumesIn(m.volume, order, 0, k)
    ensures VolumesIn(StepFirst(m, order, n, words, fl).volume, order, n, k)
  {
    hide StepTicker;
    if n > 0 {
      StepVolumes(m, order, n - 1, words, fl, k);
      StepVolumesNext(m, order, n - 1, words, fl, k);
    }
  }

  lemma BatchVolumes(m: Market, order: seq<string>, words: Words, fl: Floats, k: nat)
    requires fl.Sound() && Covers(m, order) && VolumesIn(m.volume, order, 0, k)
    ensures VolumesIn(StepFirst(m, order, |order|, words, fl).volume, order, 0, k + 1)
  {
    StepVolumes(m, order, |order|, words, fl, k);
    assert order[..|order|] == order;
  }

  lemma FirstVolumes(order: seq<string>, words: Words, fl: Floats)
    requires fl.Sound()
    ensures VolumesIn(MarketAt(order, 0, words, fl).volume, order, 0, 0)
  {
    MarketCovers(order, 0, words, fl);
    StartVolumes(order, |order|, words, fl);
  }

  lemma NextVolumes(order: seq<string>, k: nat, words: Words, fl: Floats)
    requires fl.Sound() && VolumesIn(MarketAt(order, k, words, fl).volume, order, 0, k)
    ensures VolumesIn(MarketAt(order, k + 1, words, fl).volume, order, 0, k + 1)
  {
    MarketCovers(order, k, words, fl);
    BatchVolumes(MarketAt(order, k, words, fl), order, words, fl, k);
  }

  /** For every run, whatever words are drawn: all volumes behind batch `k` lie in the band of `k` steps. */
  lemma {:induction false} VolumesBounded(order: seq<string>, k: nat, words: Words, fl: Floats)
    requires fl.Sound()
    ensures VolumesIn(MarketAt(order, k, words, fl).volume, order, 0, k)
  {
    if k == 0 {
      FirstVolumes(order, words, fl);
    } else {
      VolumesBounded(order, k - 1, words, fl);
      NextVolumes(order, k - 1, words, fl);
    }
  }

  /** Volumes stay in [1, 10999]; from the fourth step on in [685, 6315] if popular and [43, 1157] if not. */
  lemma VolumeLimits(order: seq<string>, k: nat, words: Words, fl: Floats, t: string)
    requires fl.Sound() && t in order
    ensures var volume := MarketAt(order, k, words, fl).volume;
      && t in volume && 1 <= volume[t] <= 10999
      && (k >= 4 ==> if Popular(t) then 685 <= volume[t] <= 6315 else 43 <= volume[t] <= 1157)
  {
    VolumesBounded(order, k, words, fl);
    assert InBand(t, k, MarketAt(order, k, words, fl).volume[t]);
  }

  // ---------------------------------------------------------------- prices

  function Pow(x: real, n: nat): real {
    if n == 0 then 1.0 else x * Pow(x, n - 1)
  }

  function PriceLow(n: nat): real {
    50.0 * Pow(0.98, n)
  }

  function PriceHigh(n: nat): real {
    1000.0 * Pow(1.02, n)
  }

  lemma {:induction false} PowPositive(x: real, n: nat)
    requires x > 0.0
    ensures Pow(x, n) > 0.0
  {
    if n > 0 {
      PowPositive(x, n - 1);
    }
  }

  lemma PriceBands(n: nat)
    ensures PriceLow(n + 1) == 0.98 * PriceLow(n) && PriceHigh(n + 1) == 1.02 * PriceHigh(n)
    ensures PriceLow(n) > 0.0
  {
    PowPositive(0.98, n);
  }

  lemma ScaleBetween(p: real, low: real, high: real, f: real)
    requires 0.0 < low <= p <= high && 0.98 <= f <= 1.02
    ensures 0.0 < 0.98 * low <= p * f <= 1.02 * high
  {
    assert 0.98 * low <= 0.98 * p <= f * p;
    assert f * p <= 1.02 * p <= 1.02 * high;
  }

  /** A step moves a price by at most 2 percent, and never takes the epsilon clamp. */
  lemma StepPriceBand(p: real, bps: int, n: nat)
    requires PriceLow(n) <= p <= PriceHigh(n) && -200 <= bps <= 200
    ensures Moved(p, bps) > 0.0 && StepPrice(p, bps) == Moved(p, bps)
    ensures PriceLow(n + 1) <= StepPrice(p, bps) <= PriceHigh(n + 1)
  {
    PriceBands(n);
    hide PriceLow, PriceHigh;
    var f := 1.0 + bps as real / 10000.0;
    assert 0.98 <= f <= 1.02;
    ScaleBetween(p, PriceLow(n), PriceHigh(n), f);
    assert Moved(p, bps) == p * f;
  }

  lemma {:induction false} StartPrices(order: seq<string>, n: nat, words: Words, fl: Floats)
    requires fl.Sound() && n <= |order|
    ensures forall t | t in StartFirst(order, n, words, fl).price ::
      50.0 <= StartFirst(order, n, words, fl).price[t] <= 1000.0
  {
    if n > 0 {
      StartPrices(order, n - 1, words, fl);
    }
  }

  ghost predicate PriceIn(p: real, k: nat) {
    PriceLow(k) <= p <= PriceHigh(k)
  }

  /** Steps ticker `t` has taken after `k` batches and the first `n` tickers of the next one. */
  function Steps(order: seq<string>, n: nat, k: nat, t: string): nat
    requires n <= |order|
  {
    k * Count(order, t) + Count(order[..n], t)
  }

  lemma StepsNext(order: seq<string>, n: nat, k: nat, t: string)
    requires n < |order|
    ensures Steps(order, n + 1, k, t) == Steps(order, n, k, t) + if order[n] == t then 1 else 0
  {
    assert order[..n + 1] == order[..n] + [order[n]];
    CountSnoc(order[..n], order[n], t);
  }

  lemma StepsBatch(order: seq<string>, k: nat, t: string)
    ensures Steps(order, |order|, k, t) == Steps(order, 0, k + 1, t) == (k + 1) * Count(order, t)
  {
    assert order[..|order|] == order;
    assert (k + 1) * Count(order, t) == k * Count(order, t) + Count(order, t);
  }

  /** Every price while a batch is under way: in the band of the steps its ticker has taken. */
  ghost predicate PricesIn(price: map<string, real>, order: seq<string>, n: nat, k: nat)
    requires n <= |order|
  {
    price.Keys == Elements(order) && forall t | t in order :: PriceIn(price[t], Steps(order, n, k, t))
  }

  lemma PricesAdvance(price: map<string, real>, order: seq<string>, n: nat, k: nat, p: real)
    requires n < |order| && PricesIn(price, order, n, k) && PriceIn(p, Steps(order, n, k, order[n]) + 1)
    ensures PricesIn(price[order[n] := p], order, n + 1, k)
  {
    hide PriceIn, Steps;
    assert order[n] in order;
    forall t | t in order ensures PriceIn(price[order[n] := p][t], Steps(order, n + 1, k, t)) {
      StepsNext(order, n, k, t);
    }
  }

  lemma StepTickerPrices(m: Market, order: seq<string>, n: nat, words: Words, fl: Floats, k: nat)
    requires fl.Sound() && n < |order| && Covers(m, order) && PricesIn(m.price, order, n, k)
    ensures PricesIn(StepTicker(m, order[n], words, fl).price, order, n + 1, k)
  {
    var u := order[n];
    assert u in order;
    var bps := RangeValue(words(m.drawn), -200, 200);
    StepPriceBand(m.price[u], bps, Steps(order, n, k, u));
    PricesAdvance(m.price, order, n, k, StepPrice(m.price[u], bps));
  }

  lemma StepPricesNext(m: Market, order: seq<string>, n: nat, words: Words, fl: Floats, k: nat)
    requires fl.Sound() && n < |order| && Covers(m, order)
    requires PricesIn(StepFirst(m, order, n, words, fl).price, order, n, k)
    ensures PricesIn(StepFirst(m, order, n + 1, words, fl).price, order, n + 1, k)
  {
    StepCovers(m, order, n, words, fl);
    StepTickerPrices(StepFirst(m, order, n, words, fl), order, n, words, fl, k);
  }

  lemma {:induction false} StepPrices(m: Market, order: seq<string>, n: nat, words: Words, fl: Floats, k: nat)
    requires fl.Sound() && n <= |order| && Covers(m, order) && PricesIn(m.price, order, 0, k)
    ensures PricesIn(StepFirst(m, order, n, words, fl).price, order, n, k)
  {
    hide StepTicker, PricesIn;
    if n > 0 {
      StepPrices(m, order, n - 1, words, fl, k);
      StepPricesNext(m, order, n - 1, words, fl, k);
    }
  }

  lemma StartPricesIn(price: map<string, real>, order: seq<string>)
    requires price.Keys == Elements(order) && forall t | t in price :: 50.0 <= price[t] <= 1000.0
    ensures PricesIn(price, order, 0, 0)
  {
    assert PriceLow(0) == 50.0 && PriceHigh(0) == 1000.0;
    forall t | t in order ensures PriceIn(price[t], Steps(order, 0, 0, t)) {
      assert Steps(order, 0, 0, t) == 0;
    }
  }

  lemma BatchPrices(m: Market, order: seq<string>, words: Words, fl: Floats, k: nat)
    requires fl.Sound() && Covers(m, order) && PricesIn(m.price, order, 0, k)
    ensures PricesIn(StepFirst(m, order, |order|, words, fl).price, order, 0, k + 1)
  {
    hide Steps, PriceIn, StepFirst;
    StepPrices(m, order, |order|, words, fl, k);
    forall t | t in order ensures Steps(order, |order|, k, t) == Steps(order, 0, k + 1, t) {
      StepsBatch(order, k, t);
    }
  }

  lemma FirstPrices(order: seq<string>, words: Words, fl: Floats)
    requires fl.Sound()
    ensures PricesIn(MarketAt(order, 0, words, fl).price, order, 0, 0)
  {
    MarketCovers(order, 0, words, fl);
    StartPrices(order, |order|, words, fl);
    StartPricesIn(MarketAt(order, 0, words, fl).price, order);
  }

  lemma NextPrices(order: seq<string>, k: nat, words: Words, fl: Floats)
    requires fl.Sound() && PricesIn(MarketAt(order, k, words, fl).price, order, 0, k)
    ensures PricesIn(MarketAt(order, k + 1, words, fl).price, order, 0, k + 1)
  {
    MarketCovers(order, k, words, fl);
    BatchPrices(MarketAt(order, k, words, fl), order, words, fl, k);
  }

  lemma {:induction false} PricesBounded(order: seq<string>, k: nat, words: Words, fl: Floats)
    requires fl.Sound()
    ensures PricesIn(MarketAt(order, k, words, fl).price, order, 0, k)
  {
    hide PricesIn;
    if k == 0 {
      FirstPrices(order, words, fl);
    } else {
      PricesBounded(order, k - 1, words, fl);
      NextPrices(order, k - 1, words, fl);
    }
  }

  /**
   For every run, whatever is drawn: behind batch `k` a ticker has taken `n` steps, `k` for each time it is listed,
   and its price lies in [50·0.98^n, 1000·1.02^n], so it stays positive.
   */
  lemma PriceLimits(order: seq<string>, k: nat, words: Words, fl: Floats, t: string)
    requires fl.Sound() && t in order
    ensures var price, n := MarketAt(order, k, words, fl).price, k * Count(order, t);
      && t in price && 0.0 < 50.0 * Pow(0.98, n) <= price[t] <= 1000.0 * Pow(1.02, n)
      && (Distinct(order) ==> n == k)
  {
    PricesBounded(order, k, words, fl);
    assert Steps(order, 0, k, t) == k * Count(order, t);
    assert PriceIn(MarketAt(order, k, words, fl).price[t], k * Count(order, t));
    PriceBands(k * Count(order, t));
    if Distinct(order) {
      CountDistinct(order, t);
    }
  }

  // ---------------------------------------------------------------- draws

  lemma {:induction false} StartDraws(order: seq<string>, n: nat, words: Words, fl: Floats)
    requires fl.Sound() && n <= |order|
    ensures StartFirst(order, n, words, fl).drawn == 2 * n
  {
    if n > 0 {
      StartDraws(order, n - 1, words, fl);
    }
  }

  lemma StepTickerDraws(m: Market, order: seq<string>, n: nat, words: Words, fl: Floats)
    requires fl.Sound() && n < |order| && Covers(m, order)
    ensures m.drawn + 2 <= StepTicker(m, order[n], words, fl).drawn <= m.drawn + 3
  {
    assert order[n] in order;
  }

  lemma StepFirstDrawsNext(m: Market, order: seq<string>, n: nat, words: Words, fl: Floats)
    requires fl.Sound() && n < |order| && Covers(m, order)
    requires m.drawn + 2 * n <= StepFirst(m, order, n, words, fl).drawn <= m.drawn + 3 * n
    ensures m.drawn + 2 * (n + 1) <= StepFirst(m, order, n + 1, words, fl).drawn <= m.drawn + 3 * (n + 1)
  {
    StepCovers(m, order, n, words, fl);
    StepTickerDraws(StepFirst(m, order, n, words, fl), order, n, words, fl);
  }

  lemma {:induction false} StepFirstDraws(m: Market, order: seq<string>, n: nat, words: Words, fl: Floats)
    requires fl.Sound() && n <= |order| && Covers(m, order)
    ensures m.drawn + 2 * n <= StepFirst(m, order, n, words, fl).drawn <= m.drawn + 3 * n
  {
    hide StepTicker;
    if n > 0 {
      StepFirstDraws(m, order, n - 1, words, fl);
      StepFirstDrawsNext(m, order, n - 1, words, fl);
    }
  }

  lemma NextDraws(order: seq<string>, k: nat, words: Words, fl: Floats)
    requires fl.Sound()
    ensures var before, after := MarketAt(order, k, words, fl).drawn, MarketAt(order, k + 1, words, fl).drawn;
      before + 2 * |order| <= after <= before + 3 * |order|
  {
    MarketCovers(order, k, words, fl);
    StepFirstDraws(MarketAt(order, k, words, fl), order, |order|, words, fl);
  }

  /** A batch costs two or three words a ticker, depending on the volumes. */
  lemma {:induction false} MarketDraws(order: seq<string>, k: nat, words: Words, fl: Floats)
    requires fl.Sound()
    ensures var steps := |order| * (k + 1); 2 * steps <= MarketAt(order, k, words, fl).drawn <= 3 * steps
  {
    if k == 0 {
      StartDraws(order, |order|, words, fl);
    } else {
      MarketDraws(order, k - 1, words, fl);
      NextDraws(order, k - 1, words, fl);
      assert |order| * (k + 1) == |order| * k + |order|;
    }
  }
}
