/**
 The whole distribution system: the generator thread broadcasting under the subscriber lock, and any number of
 subscribers, each with its own worker and ping thread, all interleaved.
 */
module Distribution {
  import opened Quotes
  import opened Sequences
  import opened Hub
  import opened Workers
  import Session

  /** A subscriber and its worker; `join` is the number of batches emitted before it subscribed. */
  datatype Client = Client(list: seq<string>, join: nat, w: Worker) {
    function Filter(): set<string> {
      Elements(list)
    }
  }

  /** The generator thread: outside the lock, or sending the last batch to client number `next`. */
  datatype Broadcast = Idle | Broadcasting(next: nat)

  datatype System = System(now: nat, batches: seq<Batch>, hub: Broadcast, clients: seq<Client>)

  datatype Action =
    | Elapse(d: nat)
    | Begin(batch: Batch)             // a new batch is ready and the lock is taken
    | SendNext                        // one turn of the loop over the subscribers
    | Release
    | Subscribe(list: seq<string>)    // needs the lock
    | Local(i: nat, e: Event)         // a step of one client's threads

  function Init(now: nat): System {
    System(now, [], Idle, [])
  }

  predicate CanAct(s: System, a: Action) {
    match a
    case Elapse(d) => forall i | 0 <= i < |s.clients| :: MayWait(s.clients[i].w, s.now + d)
    case Begin(_) => s.hub.Idle?
    case SendNext => s.hub.Broadcasting? && s.hub.next < |s.clients|
    case Release => s.hub.Broadcasting? && s.hub.next == |s.clients|
    case Subscribe(_) => s.hub.Idle?
    case Local(i, e) => i < |s.clients| && !e.Offer? && Enabled(s.clients[i].w, e, s.now)
  }

  function Offered(c: Client, batch: Batch, now: nat): Client {
    var filtered := Project(batch, c.Filter());
    if filtered == [] then c else c.(w := Apply(c.w, Offer(filtered), now))
  }

  function Act(s: System, a: Action): System
    requires CanAct(s, a) && (s.hub.Broadcasting? ==> s.batches != [])
  {
    match a
    case Elapse(d) => s.(now := s.now + d)
    case Begin(batch) => s.(batches := s.batches + [batch], hub := Broadcasting(0))
    case SendNext =>
      var i := s.hub.next;
      s.(clients := s.clients[i := Offered(s.clients[i], s.batches[|s.batches| - 1], s.now)],
         hub := Broadcasting(i + 1))
    case Release => s.(hub := Idle)
    case Subscribe(list) => s.(clients := s.clients + [Client(list, |s.batches|, Unstarted(s.now))])
    case Local(i, e) => s.(clients := s.clients[i := s.clients[i].(w := Apply(s.clients[i].w, e, s.now))])
  }

  /** A client as the hub sees it. */
  function Seen(c: Client): Subscriber {
    Subscriber(c.Filter(), c.w.queue, !c.w.phase.Finished?)
  }

  /** A turn of the interleaved broadcast does to the hub's subscriber what a turn of `QuoteHub.Broadcast` does. */
  lemma SendNextDelivers(s: System)
    requires CanAct(s, SendNext) && s.batches != []
    ensures var t, last := Act(s, SendNext), s.batches[|s.batches| - 1];
      && Seen(t.clients[s.hub.next]) == Deliver(Seen(s.clients[s.hub.next]), last)
      && (forall i | 0 <= i < |s.clients| && i != s.hub.next :: t.clients[i] == s.clients[i])
  {
    hide Project;
    assert Act(s, SendNext).clients[s.hub.next] == Offered(s.clients[s.hub.next], s.batches[|s.batches| - 1], s.now);
  }

  /** Subscribing adds a client the hub sees as a new subscriber to that list, and changes no other. */
  lemma SubscribeSeen(s: System, list: seq<string>)
    requires CanAct(s, Subscribe(list)) && (s.hub.Broadcasting? ==> s.batches != [])
    ensures var t := Act(s, Subscribe(list));
      && |t.clients| == |s.clients| + 1 && Seen(t.clients[|s.clients|]) == NewSubscriber(list)
      && (forall i | 0 <= i < |s.clients| :: t.clients[i] == s.clients[i])
  {
  }

  // ---------------------------------------------------------------- what each client is owed

  /** The messages a client with this filter gets from a run of batches. */
  function Messages(bs: seq<Batch>, tickers: set<string>): seq<Batch> {
    if bs == [] then []
    else
      var m := Project(bs[|bs| - 1], tickers);
      Messages(bs[..|bs| - 1], tickers) + if m == [] then [] else [m]
  }

  /** The quotes a client with this filter gets from a run of batches. */
  function Stream(bs: seq<Batch>, tickers: set<string>): Batch {
    if bs == [] then [] else Stream(bs[..|bs| - 1], tickers) + Project(bs[|bs| - 1], tickers)
  }

  /** The batches the hub has sent to client `i` so far: all since it joined, but for one it has yet to get. */
  function Due(s: System, i: nat): seq<Batch>
    requires i < |s.clients| && s.clients[i].join <= Served(s, i) <= |s.batches|
  {
    s.batches[s.clients[i].join..Served(s, i)]
  }

  function Served(s: System, i: nat): int {
    |s.batches| - if s.hub.Broadcasting? && s.hub.next <= i then 1 else 0
  }

  ghost predicate ClientInv(s: System, i: nat)
    requires i < |s.clients|
  {
    var c := s.clients[i];
    && c.join <= Served(s, i) <= |s.batches|
    && c.w.offered == Messages(Due(s, i), c.Filter())
    && Inv(c.w, s.now)
  }

  ghost predicate SystemInv(s: System) {
    && (s.hub.Broadcasting? ==> s.batches != [] && s.hub.next <= |s.clients|)
    && forall i | 0 <= i < |s.clients| :: ClientInv(s, i)
  }

  lemma {:induction false} FlattenMessages(bs: seq<Batch>, tickers: set<string>)
    ensures Flatten(Messages(bs, tickers)) == Stream(bs, tickers)
  {
    if bs != [] {
      var front, m := bs[..|bs| - 1], Project(bs[|bs| - 1], tickers);
      FlattenMessages(front, tickers);
      if m == [] {
        assert Messages(bs, tickers) == Messages(front, tickers);
        assert Stream(bs, tickers) == Stream(front, tickers);
      } else {
        FlattenSnoc(Messages(front, tickers), m);
      }
    }
  }

  lemma MessagesSnoc(bs: seq<Batch>, batch: Batch, tickers: set<string>)
    ensures Messages(bs + [batch], tickers)
         == Messages(bs, tickers) + if Project(batch, tickers) == [] then [] else [Project(batch, tickers)]
  {
    assert (bs + [batch])[..|bs|] == bs;
  }

  lemma SendNextInv(s: System)
    requires SystemInv(s) && s.hub.Broadcasting? && s.hub.next < |s.clients|
    ensures SystemInv(Act(s, SendNext))
  {
    hide Inv, Messages, Apply, Enabled, Project;
    var t, k := Act(s, SendNext), s.hub.next;
    var c, last := s.clients[k], |s.batches| - 1;
    var batch := s.batches[last];
    assert ClientInv(s, k);
    var m := Project(batch, c.Filter());
    assert Due(t, k) == Due(s, k) + [batch];
    MessagesSnoc(Due(s, k), batch, c.Filter());
    if m == [] {
      assert Messages(Due(s, k), c.Filter()) + [] == Messages(Due(s, k), c.Filter());
    } else {
      OfferedClient(c, m, s.now);
    }
    forall i | 0 <= i < |t.clients| && i != k ensures ClientInv(t, i) {
      assert ClientInv(s, i);
      assert Due(t, i) == Due(s, i);
    }
    assert ClientInv(t, k);
  }

  lemma OfferedClient(c: Client, m: Batch, now: nat)
    requires Inv(c.w, now) && m != []
    ensures Enabled(c.w, Offer(m), now)
    ensures Inv(Apply(c.w, Offer(m), now), now) && Apply(c.w, Offer(m), now).offered == c.w.offered + [m]
  {
    hide Inv;
    StepInv(c.w, Offer(m), now);
  }

  lemma LocalInv(s: System, i: nat, e: Event)
    requires SystemInv(s) && CanAct(s, Local(i, e))
    ensures SystemInv(Act(s, Local(i, e)))
  {
    hide Inv, Messages;
    var t, w := Act(s, Local(i, e)), s.clients[i].w;
    assert ClientInv(s, i);
    StepInv(w, e, s.now);
    OfferedUnchanged(w, e, s.now);
    forall k | 0 <= k < |t.clients| ensures ClientInv(t, k) {
      assert ClientInv(s, k);
      assert Due(t, k) == Due(s, k);
    }
  }

  lemma OfferedUnchanged(w: Worker, e: Event, now: nat)
    requires Enabled(w, e, now) && !e.Offer?
    ensures Apply(w, e, now).offered == w.offered
  {
  }

  lemma BatchesInv(s: System, a: Action)
    requires SystemInv(s) && CanAct(s, a) && (a.Begin? || a.Release? || a.Subscribe?)
    ensures SystemInv(Act(s, a))
  {
    hide Inv, Messages;
    var t := Act(s, a);
    forall i | 0 <= i < |t.clients| ensures ClientInv(t, i) {
      if i < |s.clients| {
        assert ClientInv(s, i);
        assert Due(t, i) == Due(s, i);
      } else {
        FreshInv(s.now);
        assert Due(t, i) == [];
        NoMessages(t.clients[i].Filter());
      }
    }
  }

  lemma NoMessages(tickers: set<string>)
    ensures Messages([], tickers) == []
  {
  }

  lemma ElapseInv(s: System, d: nat)
    requires SystemInv(s) && CanAct(s, Elapse(d))
    ensures SystemInv(Act(s, Elapse(d)))
  {
    hide Inv, Messages;
    var t := Act(s, Elapse(d));
    forall i | 0 <= i < |t.clients| ensures ClientInv(t, i) {
      assert ClientInv(s, i);
      WaitInv(s.clients[i].w, s.now, t.now);
      assert Due(t, i) == Due(s, i);
    }
  }

  lemma ActInv(s: System, a: Action)
    requires SystemInv(s) && CanAct(s, a)
    ensures SystemInv(Act(s, a))
  {
    hide SystemInv;
    match a
    case Elapse(d) => ElapseInv(s, d);
    case SendNext => SendNextInv(s);
    case Local(i, e) => LocalInv(s, i, e);
    case _ => BatchesInv(s, a);
  }

  // ---------------------------------------------------------------- whole runs

  /** `t` is reached from `s` by this interleaving of all threads. */
  ghost predicate Reaches(s: System, run: seq<Action>, t: System)
    decreases |run|
  {
    if run == [] then s == t
    else CanAct(s, run[0]) && (s.hub.Broadcasting? ==> s.batches != []) && Reaches(Act(s, run[0]), run[1..], t)
  }

  lemma {:induction false} RunInv(s: System, run: seq<Action>, t: System)
    requires Reaches(s, run, t) && SystemInv(s)
    ensures SystemInv(t)
    decreases |run|
  {
    hide CanAct, Act, SystemInv;
    if run != [] {
      ActInv(s, run[0]);
      RunInv(Act(s, run[0]), run[1..], t);
    }
  }

  /**
   In every interleaving of any number of clients: what a client's worker has sent, the rest of the message it
   holds and its queue make up exactly the filtered quotes of the batches emitted since it subscribed (the one
   being broadcast included once it was sent to it). Once it has returned, or abandoned a message on a stop,
   what it sent is still a prefix of that. What other clients do appears nowhere.
   */
  lemma StreamsConserved(start: nat, run: seq<Action>, t: System, i: nat)
    requires Reaches(Init(start), run, t) && i < |t.clients|
    ensures var c := t.clients[i]; var w := c.w;
      && c.join <= Served(t, i) <= |t.batches|
      && w.attempts <= Stream(Due(t, i), c.Filter())
      && (!w.phase.Finished? && !w.cut
          ==> w.attempts + InHand(w.phase) + Flatten(w.queue) == Stream(Due(t, i), c.Filter()))
  {
    RunInv(Init(start), run, t);
    assert ClientInv(t, i);
    FlattenMessages(Due(t, i), t.clients[i].Filter());
    ConservedPrefix(t.clients[i].w);
  }

  /** In every interleaving, a client whose PINGs stop at `T` gets no message taken after `T` plus 5.1 seconds. */
  lemma ClientCutOff(start: nat, run: seq<Action>, t: System, i: nat, T: nat)
    requires Reaches(Init(start), run, t) && i < |t.clients|
    requires t.clients[i].w.started <= T && forall p | p in t.clients[i].w.pings :: p <= T
    ensures forall x | x in t.clients[i].w.dequeues :: x <= T + 5100
  {
    RunInv(Init(start), run, t);
    assert ClientInv(t, i);
    SignsBy(t.clients[i].w, T);
  }

  /**
   The two guards of the real system: the hub broadcasts the generator's batches, and the session subscribes
   only lists its validation accepts.
   */
  ghost predicate Admitted(a: Action, order: seq<string>) {
    match a
    case Begin(batch) => Coherent(batch, order)
    case Subscribe(list) => Session.Validate(list, order).Valid?
    case _ => true
  }

  ghost predicate AllAdmitted(s: System, order: seq<string>) {
    && (forall b | b in s.batches :: Coherent(b, order))
    && (forall c | c in s.clients :: Session.ValidList(c.list, order))
  }

  lemma ActAdmitted(s: System, a: Action, order: seq<string>)
    requires CanAct(s, a) && (s.hub.Broadcasting? ==> s.batches != []) && Admitted(a, order) && AllAdmitted(s, order)
    ensures AllAdmitted(Act(s, a), order)
  {
    hide Apply, Enabled, Coherent, Session.Validate, Session.ValidList, Project;
    if a.Subscribe? {
      Session.ValidateExact(a.list, order);
    }
    var t := Act(s, a);
    forall c | c in t.clients ensures Session.ValidList(c.list, order) {
      var i :| 0 <= i < |t.clients| && t.clients[i] == c;
      assert i < |s.clients| ==> s.clients[i] in s.clients && c.list == s.clients[i].list;
    }
  }

  lemma {:induction false} RunAdmitted(s: System, run: seq<Action>, t: System, order: seq<string>)
    requires Reaches(s, run, t) && AllAdmitted(s, order) && forall a | a in run :: Admitted(a, order)
    ensures AllAdmitted(t, order)
    decreases |run|
  {
    hide CanAct, Act, AllAdmitted, Admitted;
    if run != [] {
      assert run[0] in run;
      ActAdmitted(s, run[0], order);
      forall a | a in run[1..] ensures a in run {}
      RunAdmitted(Act(s, run[0]), run[1..], t, order);
    }
  }

  lemma {:induction false} AdmittedMessages(bs: seq<Batch>, order: seq<string>, ts: seq<string>)
    requires forall b | b in bs :: Coherent(b, order)
    requires Distinct(order) && Session.ValidList(ts, order)
    ensures var ms := Messages(bs, Elements(ts));
      |ms| == |bs| && forall k | 0 <= k < |bs| :: FullMessage(ms[k], bs[k], order, ts)
  {
    hide Project, FullMessage, Coherent;
    if bs != [] {
      var front, last := bs[..|bs| - 1], bs[|bs| - 1];
      assert last in bs;
      forall b | b in front ensures Coherent(b, order) {
        assert b in bs;
      }
      AdmittedMessages(front, order, ts);
      AdmittedMessage(last, order, ts);
    }
  }

  /**
   In every run in which the generator's batches are broadcast and only accepted lists are subscribed, every
   client gets exactly one message for every batch broadcast to it since it subscribed: each of its tickers
   once, in the server's order, under the batch's timestamp. The empty filter never skips it.
   */
  lemma OneMessagePerBatch(start: nat, run: seq<Action>, t: System, i: nat, order: seq<string>)
    requires Reaches(Init(start), run, t) && i < |t.clients|
    requires Distinct(order) && forall a | a in run :: Admitted(a, order)
    ensures var c := t.clients[i];
      && c.join <= Served(t, i) <= |t.batches| && |c.w.offered| == Served(t, i) - c.join
      && forall k | 0 <= k < |c.w.offered| :: FullMessage(c.w.offered[k], t.batches[c.join + k], order, c.list)
  {
    hide Reaches, Messages, Project, FullMessage, Coherent, Inv, Session.Validate, Session.ValidList, Admitted;
    RunInv(Init(start), run, t);
    RunAdmitted(Init(start), run, t, order);
    assert ClientInv(t, i) && t.clients[i] in t.clients;
    var due := Due(t, i);
    forall b | b in due ensures Coherent(b, order) {
      assert b in t.batches;
    }
    AdmittedMessages(due, order, t.clients[i].list);
  }

  // ---------------------------------------------------------------- the hub goes on

  lemma ReachesCons(s: System, a: Action, run: seq<Action>, t: System)
    requires CanAct(s, a) && (s.hub.Broadcasting? ==> s.batches != []) && Reaches(Act(s, a), run, t)
    ensures Reaches(s, [a] + run, t)
  {
    hide CanAct, Act;
    assert ([a] + run)[1..] == run;
  }

  lemma {:induction false} Completes(s: System) returns (run: seq<Action>, t: System)
    requires SystemInv(s) && s.hub.Broadcasting?
    ensures Reaches(s, run, t) && t.hub.Idle? && t.now == s.now && t.batches == s.batches && |t.clients| == |s.clients|
    decreases |s.clients| - s.hub.next
  {
    hide Reaches, ClientInv;
    var a := if s.hub.next < |s.clients| then SendNext else Release;
    var u := Act(s, a);
    ActInv(s, a);
    if a.SendNext? {
      var more, v := Completes(u);
      ReachesCons(s, a, more, v);
      run, t := [a] + more, v;
    } else {
      Stays(u);
      ReachesCons(s, a, [], u);
      run, t := [a] + [], u;
    }
  }

  lemma Stays(s: System)
    ensures Reaches(s, [], s)
  {
  }

  /**
   In every run a broadcast under way can be brought to its end without time passing, whatever the clients do: the
   batch is then sent to every client, and the hub is free for the next batch and for new subscribers.
   */
  lemma BroadcastEnds(start: nat, run: seq<Action>, s: System, batch: Batch, list: seq<string>)
    returns (more: seq<Action>, t: System)
    requires Reaches(Init(start), run, s)
    ensures Reaches(s, more, t) && t.now == s.now && t.batches == s.batches && |t.clients| == |s.clients|
    ensures CanAct(t, Begin(batch)) && CanAct(t, Subscribe(list))
    ensures forall i | 0 <= i < |t.clients| :: Served(t, i) == |t.batches|
  {
    hide Reaches, ClientInv;
    RunInv(Init(start), run, s);
    Stays(s);
    more, t := [], s;
    if s.hub.Broadcasting? {
      more, t := Completes(s);
    }
  }

  /** The stream of more batches goes on where that of the first ones ends; that of one batch is its projection. */
  lemma {:induction false} StreamConcat(a: seq<Batch>, b: seq<Batch>, tickers: set<string>)
    ensures Stream(a + b, tickers) == Stream(a, tickers) + Stream(b, tickers)
    ensures |b| == 1 ==> Stream(b, tickers) == Project(b[0], tickers)
  {
    hide Project;
    if b == [] {
      assert a + b == a;
    } else {
      var front, last := b[..|b| - 1], b[|b| - 1];
      assert (a + b)[..|a + b| - 1] == a + front;
      StreamConcat(a, front, tickers);
      ConcatAssoc(Stream(a, tickers), Stream(front, tickers), Project(last, tickers));
      assert |b| == 1 ==> front == [];
    }
  }

  // ---------------------------------------------------------------- every client goes on

  function With(s: System, i: nat, w: Worker): System
    requires i < |s.clients|
  {
    s.(clients := s.clients[i := s.clients[i].(w := w)])
  }

  /** What a worker can do by itself without time passing it can do in the system, with nothing else changing. */
  lemma {:induction false} Lifted(s: System, i: nat, moves: seq<Move>, u: Timed) returns (run: seq<Action>)
    requires i < |s.clients| && (s.hub.Broadcasting? ==> s.batches != [])
    requires Workers.Reaches(Timed(s.now, s.clients[i].w), moves, u)
    requires forall m | m in moves :: m.Do? && !m.e.Offer?
    ensures u.now == s.now && Reaches(s, run, With(s, i, u.w))
    decreases |moves|
  {
    hide Apply, Enabled;
    if moves == [] {
      assert With(s, i, u.w) == s;
      run := [];
    } else {
      var e := (assert moves[0] in moves; moves[0].e);
      forall m | m in moves[1..] ensures m in moves {}
      var t := Act(s, Local(i, e));
      var more := Lifted(t, i, moves[1..], u);
      assert With(t, i, u.w) == With(s, i, u.w);
      ReachesCons(s, Local(i, e), more, With(s, i, u.w));
      run := [Local(i, e)] + more;
    }
  }

  /**
   In every run, a client that is alive and not stopped can be sent all it is due, by its own worker, without time
   passing and without anything else changing.
   */
  lemma CaughtUp(start: nat, run: seq<Action>, s: System, i: nat) returns (more: seq<Action>, t: System)
    requires Reaches(Init(start), run, s) && i < |s.clients| && Running(s.clients[i].w, s.now)
    ensures Reaches(s, more, t) && |t.clients| == |s.clients| && t == With(s, i, t.clients[i].w)
    ensures s.clients[i].join <= Served(s, i) <= |s.batches|
    ensures t.clients[i].w.attempts == Stream(Due(s, i), s.clients[i].Filter())
  {
    hide Reaches, Workers.Reaches, Running, Inv;
    RunInv(Init(start), run, s);
    assert ClientInv(s, i);
    var moves, u := SendsAll(Timed(s.now, s.clients[i].w));
    more := Lifted(s, i, moves, u);
    t := With(s, i, u.w);
    FlattenMessages(Due(s, i), s.clients[i].Filter());
  }

  /** Time can pass in the whole system: clients before number `k` do not hold it up. */
  lemma {:induction false} TimeCanPass(s: System, n: nat, k: nat) returns (run: seq<Action>, t: System)
    requires SystemInv(s) && k <= |s.clients| && forall i | 0 <= i < k :: MayWait(s.clients[i].w, s.now + 1)
    ensures Reaches(s, run, t) && t.now == s.now + n
    decreases n, |s.clients| - k
  {
    hide Reaches, SystemInv, Apply, Enabled, MayWait;
    Posted(s);
    var a;
    if n == 0 {
      Stays(s);
      run, t := [], s;
      return;
    } else if k == |s.clients| {
      a := Elapse(1);
      ActInv(s, a);
      run, t := TimeCanPass(Act(s, a), n - 1, 0);
    } else {
      var v := UnblockedClient(s, k);
      if v == s.clients[k].w {
        run, t := TimeCanPass(s, n, k + 1);
        return;
      }
      a := Local(k, NextStep(s.clients[k].w));
      ActInv(s, a);
      run, t := TimeCanPass(Act(s, a), n, k + 1);
    }
    ReachesCons(s, a, run, t);
    run := [a] + run;
  }

  lemma Posted(s: System)
    requires SystemInv(s)
    ensures s.hub.Broadcasting? ==> s.batches != []
  {
  }

  lemma UnblockedClient(s: System, k: nat) returns (v: Worker)
    requires SystemInv(s) && k < |s.clients|
    ensures MayWait(v, s.now + 1)
    ensures v == s.clients[k].w
         || (s.clients[k].w.phase.Receiving? && CanAct(s, Local(k, NextStep(s.clients[k].w)))
             && v == Apply(s.clients[k].w, NextStep(s.clients[k].w), s.now))
  {
    assert ClientInv(s, k);
    v := Unblocked(s.clients[k].w, s.now);
  }

  /** No run of the system is stuck: from every reachable state it can go on to any later time. */
  lemma TimePasses(start: nat, run: seq<Action>, s: System, n: nat) returns (more: seq<Action>, t: System)
    requires Reaches(Init(start), run, s)
    ensures Reaches(s, more, t) && t.now == s.now + n
  {
    hide Reaches, SystemInv;
    StartsClean(start);
    RunInv(Init(start), run, s);
    more, t := TimeCanPass(s, n, 0);
  }

  lemma StartsClean(start: nat)
    ensures SystemInv(Init(start))
  {
  }
}
