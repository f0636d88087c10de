/** The quote hub: subscribers with ticker filters, and the broadcast of one batch to all of them. */
module Hub {
  import opened Quotes
  import opened Sequences

  /** A filter, the messages waiting in its channel, and whether the receiver still exists. */
  datatype Subscriber = Subscriber(tickers: set<string>, queue: seq<Batch>, open: bool)

  function NewSubscriber(ts: seq<string>): Subscriber {
    Subscriber(Elements(ts), [], true)
  }

  /** The quotes of a batch a subscriber asked for, in batch order. */
  function Project(batch: Batch, tickers: set<string>): Batch {
    if batch == [] then []
    else (if batch[0].ticker in tickers then [batch[0]] else []) + Project(batch[1..], tickers)
  }

  /** One turn of the broadcast loop: an empty projection is skipped, a send to a dead receiver is lost. */
  function Deliver(sub: Subscriber, batch: Batch): Subscriber {
    var filtered := Project(batch, sub.tickers);
    if filtered == [] || !sub.open then sub else sub.(queue := sub.queue + [filtered])
  }

  class QuoteHub {
    var subscribers: seq<Subscriber>

    constructor ()
      ensures subscribers == []
    {
      subscribers := [];
    }

    method Subscribe(tickers: seq<string>) returns (rx: nat)
      modifies this
      ensures rx == |old(subscribers)|
      ensures subscribers == old(subscribers) + [NewSubscriber(tickers)]
      ensures var s := subscribers[rx];
        (forall t :: t in s.tickers <==> t in tickers) && s.queue == [] && s.open
    {
      rx := |subscribers|;
      subscribers := subscribers + [Subscriber(Elements(tickers), [], true)];
    }

    /** Every subscriber gets its own projection, whatever the others do. */
    method Broadcast(batch: Batch)
      modifies this
      ensures |subscribers| == |old(subscribers)|
      ensures forall i | 0 <= i < |subscribers| :: subscribers[i] == Deliver(old(subscribers)[i], batch)
    {
      var i := 0;
      while i < |subscribers|
        invariant 0 <= i <= |subscribers| == |old(subscribers)|
        invariant forall k | 0 <= k < i :: subscribers[k] == Deliver(old(subscribers)[k], batch)
        invariant forall k | i <= k < |subscribers| :: subscribers[k] == old(subscribers)[k]
      {
        var sub := subscribers[i];
        var filtered := Project(batch, sub.tickers);
        if filtered != [] && sub.open {
          subscribers := subscribers[i := sub.(queue := sub.queue + [filtered])];
        }
        i := i + 1;
      }
    }
  }

  // ---------------------------------------------------------------- what a projection holds

  function Tickers(batch: Batch): seq<string> {
    if batch == [] then [] else [batch[0].ticker] + Tickers(batch[1..])
  }

  /** A batch as the generator emits it: the server's tickers in order, one timestamp for all. */
  ghost predicate Coherent(batch: Batch, order: seq<string>) {
    && Tickers(batch) == order
    && forall p, q | p in batch && q in batch :: p.timestamp == q.timestamp
  }

  lemma {:induction false} TickersIndex(batch: Batch)
    ensures |Tickers(batch)| == |batch|
    ensures forall i | 0 <= i < |batch| :: Tickers(batch)[i] == batch[i].ticker
  {
    if batch != [] {
      TickersIndex(batch[1..]);
    }
  }

  /** A projection holds exactly the quotes asked for, from this batch and nowhere else. */
  lemma {:induction false} ProjectMembers(batch: Batch, tickers: set<string>)
    ensures forall q :: q in Project(batch, tickers) <==> q in batch && q.ticker in tickers
  {
    if batch != [] {
      ProjectMembers(batch[1..], tickers);
      assert batch == [batch[0]] + batch[1..];
    }
  }

  /** Where the projected quotes stand among the first `n` of a batch. */
  function Positions(batch: Batch, tickers: set<string>, n: nat): seq<nat>
    requires n <= |batch|
  {
    if n == 0 then []
    else Positions(batch, tickers, n - 1) + if batch[n - 1].ticker in tickers then [n - 1] else []
  }

  /** A quote on its own. */
  function Kept(q: Quote, tickers: set<string>): Batch {
    if q.ticker in tickers then [q] else []
  }

  lemma ProjectCons(q: Quote, batch: Batch, tickers: set<string>)
    ensures Project([q] + batch, tickers) == Kept(q, tickers) + Project(batch, tickers)
  {
    assert ([q] + batch)[1..] == batch;
  }

  lemma {:induction false} ProjectSnoc(batch: Batch, q: Quote, tickers: set<string>)
    ensures Project(batch + [q], tickers) == Project(batch, tickers) + Kept(q, tickers)
  {
    if batch == [] {
      ProjectCons(q, [], tickers);
      assert [] + [q] == [q] + [];
    } else {
      hide Project, Kept;
      var head, tail := batch[0], batch[1..];
      assert batch == [head] + tail && batch + [q] == [head] + (tail + [q]);
      ProjectSnoc(tail, q, tickers);
      ProjectCons(head, tail, tickers);
      ProjectCons(head, tail + [q], tickers);
      ConcatAssoc(Kept(head, tickers), Project(tail, tickers), Kept(q, tickers));
    }
  }

  /** These quotes stand at these growing positions among the first `n`. */
  ghost predicate StandAt(batch: Batch, at: seq<nat>, m: Batch, n: nat) {
    |at| == |m| && Growing(at, 0, n) && forall k | 0 <= k < |m| :: at[k] < |batch| && m[k] == batch[at[k]]
  }

  lemma StandNext(batch: Batch, at: seq<nat>, m: Batch, tickers: set<string>, n: nat)
    requires n < |batch| && StandAt(batch, at, m, n)
    ensures StandAt(batch, at + (if batch[n].ticker in tickers then [n] else []), m + Kept(batch[n], tickers), n + 1)
  {
    assert at + [] == at && m + [] == m;
  }

  lemma {:induction false} PositionsUpTo(batch: Batch, tickers: set<string>, n: nat)
    requires n <= |batch|
    ensures StandAt(batch, Positions(batch, tickers, n), Project(batch[..n], tickers), n)
  {
    hide StandAt, Project;
    if n == 0 {
      NoneStand(batch, tickers);
    } else {
      PositionsUpTo(batch, tickers, n - 1);
      assert batch[..n] == batch[..n - 1] + [batch[n - 1]];
      ProjectSnoc(batch[..n - 1], batch[n - 1], tickers);
      StandNext(batch, Positions(batch, tickers, n - 1), Project(batch[..n - 1], tickers), tickers, n - 1);
    }
  }

  lemma NoneStand(batch: Batch, tickers: set<string>)
    ensures StandAt(batch, [], Project(batch[..0], tickers), 0)
  {
  }

  /** The positions grow along the projection, so it keeps the batch order and repeats no position. */
  lemma PositionsGrow(batch: Batch, tickers: set<string>)
    ensures StandAt(batch, Positions(batch, tickers, |batch|), Project(batch, tickers), |batch|)
  {
    PositionsUpTo(batch, tickers, |batch|);
    assert batch[..|batch|] == batch;
  }

  lemma SubsequenceDistinct(batch: Batch, tickers: set<string>)
    requires Distinct(Tickers(batch))
    ensures Distinct(Tickers(Project(batch, tickers)))
  {
    PositionsGrow(batch, tickers);
    var at := Positions(batch, tickers, |batch|);
    var m := Project(batch, tickers);
    TickersIndex(batch);
    TickersIndex(m);
    forall i, j | 0 <= i < j < |m| ensures Tickers(m)[i] != Tickers(m)[j] {
      assert Tickers(batch)[at[i]] != Tickers(batch)[at[j]];
    }
  }

  lemma ProjectedTickers(batch: Batch, order: seq<string>, ts: seq<string>)
    requires Tickers(batch) == order && forall t | t in ts :: t in order
    ensures Elements(Tickers(Project(batch, Elements(ts)))) == Elements(ts)
  {
    var m := Project(batch, Elements(ts));
    ProjectMembers(batch, Elements(ts));
    TickersIndex(batch);
    TickersIndex(m);
    forall t | t in ts ensures t in Tickers(m) {
      var i :| 0 <= i < |order| && order[i] == t;
      assert batch[i] in m;
      var k :| 0 <= k < |m| && m[k] == batch[i];
      assert Tickers(m)[k] == t;
    }
    forall t | t in Tickers(m) ensures t in ts {
      var k :| 0 <= k < |m| && Tickers(m)[k] == t;
      assert m[k] in m;
    }
  }

  /**
   What a subscriber to `ts` should get from a batch: each ticker it asked for exactly once, nothing else,
   quotes of that batch under its one timestamp, in the order of the server's list.
   */
  ghost predicate FullMessage(m: Batch, batch: Batch, order: seq<string>, ts: seq<string>) {
    && |m| == |ts| && Distinct(Tickers(m)) && Elements(Tickers(m)) == Elements(ts)
    && (forall q | q in m :: q in batch)
    && (forall q, p | q in m && p in batch :: q.timestamp == p.timestamp)
    && InOrder(Tickers(m), order)
  }

  /** Of two entries, the later one stands later in the list as well. */
  ghost predicate InOrder(s: seq<string>, order: seq<string>) {
    forall j, k, p, q | 0 <= j < k < |s| && 0 <= p < |order| && 0 <= q < |order| ::
      order[p] == s[j] && order[q] == s[k] ==> p < q
  }

  lemma ProjectedInOrder(batch: Batch, order: seq<string>, tickers: set<string>)
    requires Tickers(batch) == order && Distinct(order)
    ensures InOrder(Tickers(Project(batch, tickers)), order)
  {
    PositionsGrow(batch, tickers);
    var m, at := Project(batch, tickers), Positions(batch, tickers, |batch|);
    TickersIndex(batch);
    TickersIndex(m);
    var s := Tickers(m);
    forall k, p | 0 <= k < |s| && 0 <= p < |order| && order[p] == s[k] ensures p == at[k] {
      assert order[at[k]] == s[k];
    }
  }

  /**
   A subscriber whose list is non-empty, duplicate-free and inside a duplicate-free server list gets a full
   message from every coherent batch.
   */
  lemma AdmittedMessage(batch: Batch, order: seq<string>, ts: seq<string>)
    requires Coherent(batch, order) && Distinct(order)
    requires ts != [] && Distinct(ts) && forall t | t in ts :: t in order
    ensures Project(batch, Elements(ts)) != [] && FullMessage(Project(batch, Elements(ts)), batch, order, ts)
  {
    var m := Project(batch, Elements(ts));
    ProjectedTickers(batch, order, ts);
    SubsequenceDistinct(batch, Elements(ts));
    DistinctCount(Tickers(m));
    DistinctCount(ts);
    TickersIndex(m);
    ProjectMembers(batch, Elements(ts));
    ProjectedInOrder(batch, order, Elements(ts));
  }

  // ---------------------------------------------------------------- what a new subscriber gets

  /** A new subscriber is sent the batch's quotes for the tickers it named, all of them and nothing else. */
  lemma NewSubscriberGets(ts: seq<string>, batch: Batch, q: Quote)
    ensures var s := Deliver(NewSubscriber(ts), batch);
      && |s.queue| <= 1 && s.open
      && ((exists m | m in s.queue :: q in m) <==> q in batch && q.ticker in ts)
  {
    hide Project;
    ProjectMembers(batch, Elements(ts));
    var s, m := Deliver(NewSubscriber(ts), batch), Project(batch, Elements(ts));
    if m == [] {
      assert s.queue == [];
      assert q !in m;
    } else {
      assert s.queue == [m];
      assert m in s.queue;
    }
  }

  /** A new subscriber with a valid list gets one full message from every coherent batch. */
  lemma NewSubscriberMessage(batch: Batch, order: seq<string>, ts: seq<string>)
    requires Coherent(batch, order) && Distinct(order)
    requires ts != [] && Distinct(ts) && forall t | t in ts :: t in order
    ensures var s := Deliver(NewSubscriber(ts), batch);
      |s.queue| == 1 && FullMessage(s.queue[0], batch, order, ts)
  {
    hide Project, FullMessage;
    AdmittedMessage(batch, order, ts);
  }
}
