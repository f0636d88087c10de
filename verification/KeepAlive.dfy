/**
 Keep-alive end to end: a client that goes on pinging, a network that delays and loses, and the server's worker,
 as one timed step system. The client's cell takes the source of its first quote; its pinger wakes at least once
 a period and pings the address in the cell.
 */
module KeepAlive {
  import opened Options
  import opened Quotes
  import opened Text
  import opened Address
  import opened Protocol
  import opened Workers

  /** Longest time between two wake-ups, from send to processed, PINGs lost in a row, start to first quote. */
  datatype Bounds = Bounds(period: nat, delay: nat, losses: nat, first: nat)

  datatype Link = Link(
    now: nat,
    w: Worker,
    cell: Option<Addr>,       // the client's address cell
    wake: Option<nat>,        // when the pinger wakes at the latest; `None` before the client runs
    flight: seq<nat>,         // when the PINGs on their way to the worker were sent
    lossRun: nat,             // PINGs to the worker lost since the last one that was not
    // history
    sources: seq<Addr>,       // where the client's quotes came from
    targets: seq<Addr>,       // where the client's PINGs went
    heard: Option<nat>,       // when the worker last processed one of the client's PINGs
    good: Option<nat>)        // when the last PING that was not lost was sent

  datatype Action =
    | Elapse(d: nat)
    | StartClient
    | QuoteArrives(src: Addr)
    | Wake(lost: bool)
    | Deliver(i: nat)
    | Local(e: Event)

  function Init(start: nat): Link {
    Link(start, Fresh(start), None, None, [], 0, [], [], None, None)
  }

  /**
   The timing assumptions: nobody sleeps past its bound. A quote comes from the worker only after the worker
   has sent one. The stop flag is the worker's own, so no one else sets it.
   */
  predicate CanAct(s: Link, a: Action, b: Bounds, server: Addr) {
    match a
    case Elapse(d) =>
      && MayWait(s.w, s.now + d)
      && (s.wake.Some? ==> s.now + d <= s.wake.value)
      && (s.cell.None? ==> s.now + d <= s.w.started + b.first)
      && (forall i | 0 <= i < |s.flight| :: s.now + d <= s.flight[i] + b.delay)
    case StartClient => s.wake.None?
    case QuoteArrives(src) => s.wake.Some? && (src == server ==> s.w.attempts != [])
    case Wake(lost) => s.wake.Some? && (lost ==> s.lossRun < b.losses)
    case Deliver(i) => i < |s.flight| && s.w.pinger.PingReceiving?
    case Local(e) => !e.SetStop? && !e.PingFailed? && Enabled(s.w, e, s.now)
  }

  function Act(s: Link, a: Action, b: Bounds, server: Addr): Link
    requires CanAct(s, a, b, server)
  {
    match a
    case Elapse(d) => s.(now := s.now + d)
    case StartClient => s.(wake := Some(s.now + b.period))
    case QuoteArrives(src) => s.(cell := if s.cell.None? then Some(src) else s.cell, sources := s.sources + [src])
    case Wake(lost) =>
      var t := s.(wake := Some(s.now + b.period));
      if s.cell.None? then t
      else if s.cell.value != server then t.(targets := s.targets + [s.cell.value])
      else if lost then t.(targets := s.targets + [server], lossRun := s.lossRun + 1)
      else t.(targets := s.targets + [server], lossRun := 0, flight := s.flight + [s.now], good := Some(s.now))
    case Deliver(i) =>
      s.(w := Apply(s.w, PingDatagram(PING_COMMAND), s.now), heard := Some(s.now),
         flight := s.flight[..i] + s.flight[i + 1..])
    case Local(e) => s.(w := Apply(s.w, e, s.now))
  }

  lemma WakeEffect(s: Link, lost: bool, b: Bounds, server: Addr)
    requires CanAct(s, Wake(lost), b, server)
    ensures var t := Act(s, Wake(lost), b, server);
      && t.now == s.now && t.cell == s.cell && t.wake == Some(s.now + b.period)
      && t.targets == if s.cell.Some? then s.targets + [s.cell.value] else s.targets
  {
  }

  /** `t` is reached from `s` by this interleaving of client, network and server. */
  ghost predicate Reaches(s: Link, run: seq<Action>, t: Link, b: Bounds, server: Addr)
    decreases |run|
  {
    if run == [] then s == t
    else CanAct(s, run[0], b, server) && Reaches(Act(s, run[0], b, server), run[1..], t, b, server)
  }

  // ---------------------------------------------------------------- where the PINGs go

  /** The cell is write-once: it holds the first quote's source, and every PING went there. */
  ghost predicate WriteOnce(s: Link) {
    && s.cell == (if s.sources == [] then None else Some(s.sources[0]))
    && (forall x | x in s.targets :: s.cell == Some(x))
  }

  // ---------------------------------------------------------------- why the worker stays

  function Max(x: int, y: int): int {
    if x > y then x else y
  }

  /** The time from which the next PING's arrival is bounded: the last one processed, or the latest first quote. */
  function Anchor(s: Link, b: Bounds): nat {
    if s.heard.Some? then s.heard.value else s.w.started + b.first
  }

  /** The time from which the next wake-up's success is bounded. */
  function GoodSend(s: Link, b: Bounds): nat {
    if s.good.Some? then s.good.value else s.w.started + b.first
  }

  function Before(s: Link, b: Bounds, i: nat): int
    requires i < |s.flight|
  {
    if i == 0 then Anchor(s, b) else Max(Anchor(s, b), s.flight[i - 1])
  }

  /** What the pinger and the network owe the worker. */
  ghost predicate Owed(s: Link, b: Bounds, reach: nat) {
    && s.lossRun <= b.losses
    && (s.heard.Some? ==> s.good.Some? && s.heard.value <= s.now)
    && (s.good.Some? ==> s.good.value <= s.now)
    && (s.flight != [] ==> s.good.Some?)
    && (s.cell.None? ==> s.now <= s.w.started + b.first && s.good.None? && s.lossRun == 0)
    && (s.cell.Some? ==> s.wake.Some?)
    && (s.wake.Some? ==> s.now <= s.wake.value <= GoodSend(s, b) + (s.lossRun + 1) * b.period)
    && (forall i | 0 <= i < |s.flight| :: s.flight[i] <= s.now <= s.flight[i] + b.delay)
    && (forall i | 0 <= i < |s.flight| :: s.flight[i] <= Before(s, b, i) + reach)
    && (GoodSend(s, b) <= Anchor(s, b) || (s.flight != [] && GoodSend(s, b) == s.flight[|s.flight| - 1]))
  }

  /** The worker is running, nothing has told it to stop, and its ping thread listens. */
  predicate Up(w: Worker, now: nat) {
    && !w.stop && !w.phase.Leaving? && !w.phase.Finished? && !w.phase.Spawned? && w.lastPing <= now
    && !w.pinger.PingGone? && (w.phase.Posting? ==> w.phase.rest != [])
    && (forall m | m in w.queue :: m != [])
  }

  ghost predicate Alive(s: Link, b: Bounds, reach: nat) {
    && Owed(s, b, reach)
    && Anchor(s, b) + reach + b.delay <= s.w.lastPing + PING_TIMEOUT
    && Up(s.w, s.now)
  }

  function Reach(b: Bounds): nat {
    (b.losses + 1) * b.period
  }

  /** The bound under which no client is dropped. */
  predicate Tolerated(b: Bounds) {
    b.first + Reach(b) + b.delay <= PING_TIMEOUT
  }

  ghost predicate Holds(s: Link, b: Bounds, server: Addr) {
    WriteOnce(s) && (s.cell.None? || s.cell.value == server ==> Alive(s, b, Reach(b)))
  }

  lemma ReachCovers(b: Bounds, n: nat)
    requires n <= b.losses
    ensures (n + 1) * b.period <= Reach(b)
    ensures (n + 2) * b.period == (n + 1) * b.period + b.period
  {
    assert (b.losses - n) * b.period >= 0;
    assert Reach(b) == (n + 1) * b.period + (b.losses - n) * b.period;
  }

  /** While the client's PINGs keep coming as assumed, the staleness check never succeeds. */
  lemma AliveFresh(s: Link, b: Bounds)
    requires Alive(s, b, Reach(b))
    ensures !DeadlineExceeded(s.w, s.now)
  {
    ReachCovers(b, s.lossRun);
    if s.flight != [] {
      assert s.now <= s.flight[0] + b.delay && s.flight[0] <= Before(s, b, 0) + Reach(b);
    } else if s.cell.Some? {
      assert GoodSend(s, b) <= Anchor(s, b);
    }
  }

  lemma PingIsPing()
    ensures IsPing(PING_COMMAND)
  {
    TrimOfTrimmed(PING_COMMAND);
    TrimOfTrimmed(Trim(PING_COMMAND));
  }

  lemma DeliverAlive(s: Link, b: Bounds, server: Addr, i: nat)
    requires Alive(s, b, Reach(b)) && CanAct(s, Deliver(i), b, server) && Reach(b) + b.delay <= PING_TIMEOUT
    ensures Alive(Act(s, Deliver(i), b, server), b, Reach(b))
  {
    hide IsPing, Reach;
    PingIsPing();
    var t := Act(s, Deliver(i), b, server);
    assert Anchor(t, b) == s.now;
    forall k | 0 <= k < |t.flight| ensures t.flight[k] <= s.now <= t.flight[k] + b.delay {
      assert t.flight[k] == if k < i then s.flight[k] else s.flight[k + 1];
    }
  }

  /** Waking without an address, or to a PING that gets lost: the next wake-up is one period later. */
  lemma WakeNoPing(s: Link, b: Bounds, server: Addr, lost: bool)
    requires Alive(s, b, Reach(b)) && CanAct(s, Wake(lost), b, server)
    requires s.cell.None? || (s.cell.value == server && lost)
    ensures Alive(Act(s, Wake(lost), b, server), b, Reach(b))
  {
    hide Reach;
    ReachCovers(b, s.lossRun);
    var t := Act(s, Wake(lost), b, server);
    SameBefore(s, t, b);
  }

  /** A PING that is not lost starts the count anew, no later than the losses before it allow. */
  lemma WakePing(s: Link, b: Bounds, server: Addr)
    requires Alive(s, b, Reach(b)) && CanAct(s, Wake(false), b, server) && s.cell == Some(server)
    ensures Alive(Act(s, Wake(false), b, server), b, Reach(b))
  {
    hide Reach, Before;
    ReachCovers(b, s.lossRun);
    var t := Act(s, Wake(false), b, server);
    assert s.now <= GoodSend(s, b) + Reach(b);
    SentLast(s, t, b, s.now);
  }

  lemma SentLast(s: Link, t: Link, b: Bounds, sent: nat)
    requires t.flight == s.flight + [sent] && t.heard == s.heard && t.w.started == s.w.started
    ensures forall k | 0 <= k < |s.flight| :: Before(t, b, k) == Before(s, b, k)
    ensures GoodSend(s, b) <= Anchor(s, b) || (s.flight != [] && GoodSend(s, b) == s.flight[|s.flight| - 1])
        ==> Before(t, b, |s.flight|) >= GoodSend(s, b)
  {
  }

  lemma SameBefore(s: Link, t: Link, b: Bounds)
    requires t.flight == s.flight && t.heard == s.heard && t.w.started == s.w.started
    ensures forall k | 0 <= k < |s.flight| :: Before(t, b, k) == Before(s, b, k)
  {
  }

  /** Until the staleness check succeeds, no step of the worker's own threads stops it or sets its clock back. */
  lemma LocalUp(w: Worker, e: Event, now: nat)
    requires Enabled(w, e, now) && !e.SetStop? && !e.PingFailed? && Up(w, now) && !DeadlineExceeded(w, now)
    ensures var v := Apply(w, e, now);
      Up(v, now) && v.lastPing >= w.lastPing && v.started == w.started
  {
    hide IsPing;
    var v := Apply(w, e, now);
    assert w.phase.Posting? ==> w.phase.rest != [];
    forall m | m in v.queue ensures m != [] {
      if e.Offer? {
        assert m in w.queue || m == e.message;
      } else {
        assert m in w.queue;
      }
    }
  }

  lemma LocalAlive(s: Link, b: Bounds, server: Addr, e: Event)
    requires Alive(s, b, Reach(b)) && CanAct(s, Local(e), b, server)
    ensures Alive(Act(s, Local(e), b, server), b, Reach(b))
  {
    hide Reach, Apply, Enabled, Up;
    AliveFresh(s, b);
    assert !DeadlineExceeded(s.w, s.now);
    LocalUp(s.w, e, s.now);
    SameBefore(s, Act(s, Local(e), b, server), b);
  }

  lemma QuietAlive(s: Link, b: Bounds, server: Addr, a: Action)
    requires Alive(s, b, Reach(b)) && CanAct(s, a, b, server) && (a.Elapse? || a.StartClient? || a.QuoteArrives?)
    requires s.cell.None? || s.cell.value == server
    ensures Alive(Act(s, a, b, server), b, Reach(b))
  {
    hide Reach;
    SameBefore(s, Act(s, a, b, server), b);
  }

  lemma ActWriteOnce(s: Link, a: Action, b: Bounds, server: Addr)
    requires WriteOnce(s) && CanAct(s, a, b, server)
    ensures WriteOnce(Act(s, a, b, server))
  {
    hide Apply, Enabled;
  }

  lemma CellStays(s: Link, a: Action, b: Bounds, server: Addr)
    requires CanAct(s, a, b, server) && s.cell.Some?
    ensures Act(s, a, b, server).cell == s.cell
  {
    hide Apply, Enabled;
  }

  lemma ActHolds(s: Link, a: Action, b: Bounds, server: Addr)
    requires Holds(s, b, server) && CanAct(s, a, b, server) && Tolerated(b)
    ensures Holds(Act(s, a, b, server), b, server)
  {
    hide Alive, Act, CanAct, WriteOnce;
    ActWriteOnce(s, a, b, server);
    if s.cell.Some? {
      CellStays(s, a, b, server);
    }
    if s.cell.None? || s.cell.value == server {
      match a
      case Deliver(i) => DeliverAlive(s, b, server, i);
      case Wake(lost) => {
        if s.cell.None? || lost {
          WakeNoPing(s, b, server, lost);
        } else {
          WakePing(s, b, server);
        }
      }
      case Local(e) => LocalAlive(s, b, server, e);
      case _ => QuietAlive(s, b, server, a);
    }
  }

  lemma {:induction false} RunHolds(s: Link, run: seq<Action>, t: Link, b: Bounds, server: Addr)
    requires Reaches(s, run, t, b, server) && Holds(s, b, server) && Tolerated(b)
    ensures Holds(t, b, server)
    decreases |run|
  {
    hide Holds, Act, CanAct;
    if run != [] {
      ActHolds(s, run[0], b, server);
      RunHolds(Act(s, run[0], b, server), run[1..], t, b, server);
    }
  }

  lemma {:induction false} RunWriteOnce(s: Link, run: seq<Action>, t: Link, b: Bounds, server: Addr)
    requires Reaches(s, run, t, b, server) && WriteOnce(s)
    ensures WriteOnce(t)
    decreases |run|
  {
    hide WriteOnce, Act, CanAct;
    if run != [] {
      ActWriteOnce(s, run[0], b, server);
      RunWriteOnce(Act(s, run[0], b, server), run[1..], t, b, server);
    }
  }

  /** In every run, no PING precedes the first quote, and every PING goes to that quote's source. */
  lemma PingsFollowFirstQuote(start: nat, run: seq<Action>, t: Link, b: Bounds, server: Addr)
    requires Reaches(Init(start), run, t, b, server)
    ensures t.targets != [] ==> t.sources != []
    ensures forall x | x in t.targets :: x == t.sources[0]
  {
    RunWriteOnce(Init(start), run, t, b, server);
    if t.targets != [] {
      assert t.targets[0] in t.targets;
    }
  }

  // ---------------------------------------------------------------- the exact bound

  /** The client's first quote, if any, came from the worker's own socket. */
  predicate FirstFromServer(s: Link, server: Addr) {
    s.sources == [] || s.sources[0] == server
  }

  predicate Dropped(s: Link) {
    s.w.phase == Leaving(Stale) || s.w.phase == Finished(Stale)
  }

  lemma InitHolds(start: nat, b: Bounds, server: Addr)
    requires Tolerated(b)
    ensures Holds(Init(start), b, server)
  {
    hide Reach;
  }

  /** A client that keeps pinging within the bound is never dropped, and is never even stale, in any run. */
  lemma NeverDropped(start: nat, run: seq<Action>, t: Link, b: Bounds, server: Addr)
    requires Reaches(Init(start), run, t, b, server) && FirstFromServer(t, server) && Tolerated(b)
    ensures !DeadlineExceeded(t.w, t.now) && !t.w.stop && !Dropped(t)
  {
    InitHolds(start, b, server);
    RunHolds(Init(start), run, t, b, server);
    AliveFresh(t, b);
  }

  lemma {:induction false} ReachesTrans(r: Link, run: seq<Action>, s: Link, more: seq<Action>, t: Link,
                                        b: Bounds, server: Addr)
    requires Reaches(r, run, s, b, server) && Reaches(s, more, t, b, server)
    ensures Reaches(r, run + more, t, b, server)
    decreases |run|
  {
    hide Act, CanAct;
    if run == [] {
      assert run + more == more;
    } else {
      assert (run + more)[1..] == run[1..] + more;
      ReachesTrans(Act(r, run[0], b, server), run[1..], s, more, t, b, server);
    }
  }

  lemma ReachesOne(s: Link, a: Action, b: Bounds, server: Addr)
    requires CanAct(s, a, b, server)
    ensures Reaches(s, [a], Act(s, a, b, server), b, server)
  {
    hide Act, CanAct;
    assert [a][1..] == [];
  }

  lemma ReachesTwo(s: Link, a: Action, c: Action, b: Bounds, server: Addr)
    requires CanAct(s, a, b, server) && CanAct(Act(s, a, b, server), c, b, server)
    ensures Reaches(s, [a, c], Act(Act(s, a, b, server), c, b, server), b, server)
  {
    hide Act, CanAct;
    ReachesOne(Act(s, a, b, server), c, b, server);
    assert [a, c][1..] == [c];
  }

  /** The client runs, has the server's address, has just woken, and the worker's main loop is at its head. */
  ghost predicate JustWoken(s: Link, b: Bounds, server: Addr) {
    && s.cell == Some(server) && s.sources == [server] && s.wake == Some(s.now + b.period)
    && s.w.phase.LoopHead? && !s.w.stop
  }

  lemma {:induction false} LoseSome(s: Link, k: nat, b: Bounds, server: Addr) returns (run: seq<Action>, t: Link)
    requires JustWoken(s, b, server) && s.flight == [] && s.lossRun + k <= b.losses
    ensures Reaches(s, run, t, b, server) && JustWoken(t, b, server)
    ensures t.w == s.w && t.flight == [] && t.lossRun == s.lossRun + k && t.now == s.now + k * b.period
    decreases k
  {
    if k == 0 {
      run, t := [], s;
    } else {
      var one := Act(Act(s, Elapse(b.period), b, server), Wake(true), b, server);
      ReachesTwo(s, Elapse(b.period), Wake(true), b, server);
      var more, u := LoseSome(one, k - 1, b, server);
      ReachesTrans(s, [Elapse(b.period), Wake(true)], one, more, u, b, server);
      run, t := [Elapse(b.period), Wake(true)] + more, u;
      assert k * b.period == (k - 1) * b.period + b.period;
    }
  }

  /** PINGs on their way may be as late as the delay bound allows, while the pinger keeps waking. */
  lemma {:induction false} WaitOut(s: Link, r: nat, b: Bounds, server: Addr) returns (run: seq<Action>, t: Link)
    requires JustWoken(s, b, server) && b.period > 0
    requires forall i | 0 <= i < |s.flight| :: s.now + r <= s.flight[i] + b.delay
    requires r <= b.delay
    ensures Reaches(s, run, t, b, server) && t.w == s.w && t.sources == [server] && t.now == s.now + r
    decreases r
  {
    if r <= b.period {
      run, t := [Elapse(r)], Act(s, Elapse(r), b, server);
      ReachesOne(s, Elapse(r), b, server);
    } else {
      var one := Act(Act(s, Elapse(b.period), b, server), Wake(false), b, server);
      ReachesTwo(s, Elapse(b.period), Wake(false), b, server);
      var more, u := WaitOut(one, r - b.period, b, server);
      ReachesTrans(s, [Elapse(b.period), Wake(false)], one, more, u, b, server);
      run, t := [Elapse(b.period), Wake(false)] + more, u;
    }
  }

  /** The same worker otherwise: neither told to stop nor fed since. */
  predicate SameKeepAlive(s: Link, t: Link) {
    t == s.(w := t.w) && !t.w.stop && t.w.lastPing == s.w.lastPing && t.w.started == s.w.started
  }

  lemma EntersReceive(s: Link, b: Bounds, server: Addr) returns (t: Link)
    requires s.w.phase.LoopHead? && !s.w.stop && s.w.queue == [] && !DeadlineExceeded(s.w, s.now)
    ensures Reaches(s, [Local(CheckStop), Local(CheckStale)], t, b, server)
    ensures SameKeepAlive(s, t) && t.w.phase.Receiving? && t.w.queue == []
  {
    hide Reaches;
    t := Act(Act(s, Local(CheckStop), b, server), Local(CheckStale), b, server);
    ReachesTwo(s, Local(CheckStop), Local(CheckStale), b, server);
  }

  lemma TakesMessage(s: Link, q: Quote, b: Bounds, server: Addr) returns (t: Link)
    requires s.w.phase.Receiving? && !s.w.stop && s.w.queue == []
    ensures Reaches(s, [Local(Offer([q])), Local(Dequeue)], t, b, server)
    ensures SameKeepAlive(s, t) && t.w.phase == Sending([q])
  {
    hide Reaches;
    t := Act(Act(s, Local(Offer([q])), b, server), Local(Dequeue), b, server);
    ReachesTwo(s, Local(Offer([q])), Local(Dequeue), b, server);
  }

  lemma SendsQuote(s: Link, q: Quote, b: Bounds, server: Addr) returns (t: Link)
    requires s.w.phase == Sending([q]) && !s.w.stop
    ensures Reaches(s, [Local(CheckSend), Local(Send)], t, b, server)
    ensures SameKeepAlive(s, t) && t.w.phase == Sending([]) && t.w.attempts == s.w.attempts + [q]
  {
    hide Reaches;
    t := Act(Act(s, Local(CheckSend), b, server), Local(Send), b, server);
    ReachesTwo(s, Local(CheckSend), Local(Send), b, server);
    assert [q][1..] == [];
  }

  lemma GoesRound(s: Link, b: Bounds, server: Addr) returns (t: Link)
    requires s.w.phase == Sending([]) && !s.w.stop
    ensures Reaches(s, [Local(CheckSend)], t, b, server)
    ensures SameKeepAlive(s, t) && t.w.phase.LoopHead? && t.w.attempts == s.w.attempts
  {
    hide Reaches;
    t := Act(s, Local(CheckSend), b, server);
    ReachesOne(s, Local(CheckSend), b, server);
  }

  /** The worker takes one message and sends it. */
  lemma WorkerSends(start: nat, q: Quote, b: Bounds, server: Addr) returns (run: seq<Action>, t: Link)
    ensures Reaches(Init(start), run, t, b, server) && SameKeepAlive(Init(start), t)
    ensures t.w.phase.LoopHead? && t.w.attempts != []
  {
    hide Reaches, Act, CanAct, Apply, Enabled;
    var s0 := Init(start);
    var s1 := EntersReceive(s0, b, server);
    var s2 := TakesMessage(s1, q, b, server);
    var s3 := SendsQuote(s2, q, b, server);
    t := GoesRound(s3, b, server);
    var enter, take := [Local(CheckStop), Local(CheckStale)], [Local(Offer([q])), Local(Dequeue)];
    var send, round := [Local(CheckSend), Local(Send)], [Local(CheckSend)];
    ReachesTrans(s2, send, s3, round, t, b, server);
    ReachesTrans(s1, take, s2, send + round, t, b, server);
    ReachesTrans(s0, enter, s1, take + (send + round), t, b, server);
    run := enter + (take + (send + round));
  }

  /** The latest first quote the assumptions allow, just after a wake-up that found no address. */
  lemma LateFirstQuote(start: nat, q: Quote, b: Bounds, server: Addr) returns (run: seq<Action>, t: Link)
    ensures Reaches(Init(start), run, t, b, server) && JustWoken(t, b, server)
    ensures t.w.lastPing == start && t.flight == [] && t.lossRun == 0 && t.now == start + b.first
  {
    hide Reaches;
    var sends, s0 := WorkerSends(start, q, b, server);
    var s := Act(Act(s0, Elapse(b.first), b, server), StartClient, b, server);
    ReachesTwo(s0, Elapse(b.first), StartClient, b, server);
    t := Act(s, QuoteArrives(server), b, server);
    ReachesOne(s, QuoteArrives(server), b, server);
    var late := [Elapse(b.first), StartClient] + [QuoteArrives(server)];
    ReachesTrans(s0, [Elapse(b.first), StartClient], s, [QuoteArrives(server)], t, b, server);
    run := sends + late;
    ReachesTrans(Init(start), sends, s0, late, t, b, server);
  }

  lemma StaleLeaves(s: Link, b: Bounds, server: Addr) returns (t: Link)
    requires s.w.phase.LoopHead? && !s.w.stop && DeadlineExceeded(s.w, s.now)
    ensures Reaches(s, [Local(CheckStop), Local(CheckStale)], t, b, server) && Dropped(t) && t.sources == s.sources
  {
    ReachesTwo(s, Local(CheckStop), Local(CheckStale), b, server);
    t := Act(Act(s, Local(CheckStop), b, server), Local(CheckStale), b, server);
  }

  lemma OnePing(s: Link, b: Bounds, server: Addr) returns (t: Link)
    requires JustWoken(s, b, server) && s.flight == []
    ensures Reaches(s, [Elapse(b.period), Wake(false)], t, b, server) && JustWoken(t, b, server)
    ensures t.w == s.w && t.flight == [t.now] && t.now == s.now + b.period
  {
    t := Act(Act(s, Elapse(b.period), b, server), Wake(false), b, server);
    ReachesTwo(s, Elapse(b.period), Wake(false), b, server);
  }

  /** Beyond the bound there is a run, within all the assumptions, in which a client that keeps pinging is dropped. */
  lemma CanBeDropped(start: nat, b: Bounds, server: Addr) returns (run: seq<Action>, t: Link)
    requires b.period > 0 && !Tolerated(b)
    ensures Reaches(Init(start), run, t, b, server) && t.sources == [server] && Dropped(t)
  {
    hide Reaches, Act, CanAct;
    var run0, s0 := LateFirstQuote(start, Quote("", 0.0, 0, 0), b, server);
    var run1, s1 := LoseSome(s0, b.losses, b, server);
    var s2 := OnePing(s1, b, server);
    var run3, s3 := WaitOut(s2, b.delay, b, server);
    assert Reach(b) == b.losses * b.period + b.period;
    t := StaleLeaves(s3, b, server);
    var ping, last := [Elapse(b.period), Wake(false)], [Local(CheckStop), Local(CheckStale)];
    ReachesTrans(s2, run3, s3, last, t, b, server);
    ReachesTrans(s1, ping, s2, run3 + last, t, b, server);
    ReachesTrans(s0, run1, s1, ping + (run3 + last), t, b, server);
    run := run0 + (run1 + (ping + (run3 + last)));
    ReachesTrans(Init(start), run0, s0, run1 + (ping + (run3 + last)), t, b, server);
  }

  /**
   The exact keep-alive bound: for any period above 0, a client that keeps pinging, whose first quote comes from
   the worker, is dropped in no run at all if and only if
   first quote + (losses + 1) periods + delay fit in the ping timeout.
   */
  lemma NeverDroppedExactly(start: nat, b: Bounds, server: Addr)
    requires b.period > 0
    ensures (forall run, t | Reaches(Init(start), run, t, b, server) && FirstFromServer(t, server) :: !Dropped(t))
       <==> b.first + (b.losses + 1) * b.period + b.delay <= PING_TIMEOUT
  {
    hide Reaches;
    assert Tolerated(b) <==> b.first + (b.losses + 1) * b.period + b.delay <= PING_TIMEOUT;
    if Tolerated(b) {
      forall run, t | Reaches(Init(start), run, t, b, server) && FirstFromServer(t, server) ensures !Dropped(t) {
        NeverDropped(start, run, t, b, server);
      }
    } else {
      var run, t := CanBeDropped(start, b, server);
      assert Reaches(Init(start), run, t, b, server) && FirstFromServer(t, server) && Dropped(t);
    }
  }

  lemma {:induction false} PingElsewhere(s: Link, other: Addr, n: nat, b: Bounds, server: Addr)
    returns (run: seq<Action>, t: Link)
    requires s.cell == Some(other) && other != server && s.wake == Some(s.now + b.period) && s.flight == []
    requires s.w.phase.LoopHead?
    ensures Reaches(s, run, t, b, server) && t.w == s.w && t.sources == s.sources && t.now == s.now + n * b.period
    decreases n
  {
    if n == 0 {
      run, t := [], s;
    } else {
      var one := Act(Act(s, Elapse(b.period), b, server), Wake(false), b, server);
      ReachesTwo(s, Elapse(b.period), Wake(false), b, server);
      var more, u := PingElsewhere(one, other, n - 1, b, server);
      ReachesTrans(s, [Elapse(b.period), Wake(false)], one, more, u, b, server);
      run, t := [Elapse(b.period), Wake(false)] + more, u;
      assert n * b.period == (n - 1) * b.period + b.period;
    }
  }

  /**
   Why the first quote must come from the worker: the cell is never corrected, so under any bounds at all a
   client whose first quote came from elsewhere can ping the wrong address until the worker drops it.
   */
  lemma ForeignQuoteDrops(start: nat, other: Addr, b: Bounds, server: Addr) returns (run: seq<Action>, t: Link)
    requires b.period > 0 && other != server
    ensures Reaches(Init(start), run, t, b, server) && t.sources == [other] && Dropped(t)
  {
    hide Reaches;
    var s0 := Act(Act(Init(start), StartClient, b, server), QuoteArrives(other), b, server);
    ReachesTwo(Init(start), StartClient, QuoteArrives(other), b, server);
    var run1, s1 := PingElsewhere(s0, other, PING_TIMEOUT + 1, b, server);
    assert (PING_TIMEOUT + 1) * b.period > PING_TIMEOUT;
    t := StaleLeaves(s1, b, server);
    var begin, last := [StartClient, QuoteArrives(other)], [Local(CheckStop), Local(CheckStale)];
    ReachesTrans(s0, run1, s1, last, t, b, server);
    run := begin + (run1 + last);
    ReachesTrans(Init(start), begin, s0, run1 + last, t, b, server);
  }

  /** With the default period of 2 s, one lost PING is tolerated exactly when first quote and delay fit in 1 s. */
  lemma DefaultsTolerateOneLoss(start: nat, b: Bounds, server: Addr)
    requires b.period == 2000 && b.losses == 1
    ensures (forall run, t | Reaches(Init(start), run, t, b, server) && FirstFromServer(t, server) :: !Dropped(t))
       <==> b.first + b.delay <= 1000
  {
    NeverDroppedExactly(start, b, server);
  }

  /**
   Both halves as one: no run whose first quote came from `src` drops the client if and only if `src` is the
   worker and the bound holds.
   */
  lemma SafeFirstSource(start: nat, src: Addr, b: Bounds, server: Addr)
    requires b.period > 0
    ensures (forall run, t | Reaches(Init(start), run, t, b, server) && t.sources != [] && t.sources[0] == src ::
               !Dropped(t))
       <==> src == server && Tolerated(b)
  {
    hide Reaches, Dropped, Tolerated;
    if src != server {
      var run, t := ForeignQuoteDrops(start, src, b, server);
      assert Reaches(Init(start), run, t, b, server) && t.sources[0] == src && Dropped(t);
    } else if Tolerated(b) {
      forall run, t | Reaches(Init(start), run, t, b, server) && t.sources != [] && t.sources[0] == src
        ensures !Dropped(t)
      {
        NeverDropped(start, run, t, b, server);
      }
    } else {
      var run, t := CanBeDropped(start, b, server);
      assert Reaches(Init(start), run, t, b, server) && t.sources[0] == src && Dropped(t);
    }
  }

  // ---------------------------------------------------------------- the system goes on

  /** A state of the safe runs: everything owed is paid, and the client has no address or the worker's. */
  ghost predicate Safe(s: Link, b: Bounds, server: Addr) {
    Holds(s, b, server) && Tolerated(b) && (s.cell.None? || s.cell.value == server)
  }

  lemma SafeStep(s: Link, a: Action, b: Bounds, server: Addr)
    requires Safe(s, b, server) && CanAct(s, a, b, server) && (a.QuoteArrives? ==> a.src == server)
    ensures Safe(Act(s, a, b, server), b, server) && Reaches(s, [a], Act(s, a, b, server), b, server)
  {
    hide CanAct, Tolerated, Holds, Reaches;
    ActHolds(s, a, b, server);
    ReachesOne(s, a, b, server);
    CellOnlyByQuote(s, a, b, server);
    hide Act;
  }

  lemma CellOnlyByQuote(s: Link, a: Action, b: Bounds, server: Addr)
    requires CanAct(s, a, b, server)
    ensures var t := Act(s, a, b, server);
      t.cell == if s.cell.None? && a.QuoteArrives? then Some(a.src) else s.cell
  {
    hide Apply, Enabled;
  }

  lemma SafeUp(s: Link, b: Bounds, server: Addr)
    requires Safe(s, b, server)
    ensures Up(s.w, s.now) && !DeadlineExceeded(s.w, s.now) && (s.wake.Some? ==> s.now <= s.wake.value)
    ensures s.cell.Some? ==> s.wake.Some?
  {
    AliveFresh(s, b);
  }

  /** A PING on its way can be delivered at once, and the worker's clock is then set. */
  lemma DeliverNow(s: Link, i: nat, b: Bounds, server: Addr) returns (run: seq<Action>, t: Link)
    requires Safe(s, b, server) && i < |s.flight|
    ensures Reaches(s, run, t, b, server) && Safe(t, b, server)
    ensures t.now == s.now && t.heard == Some(s.now) && t.w.lastPing == s.now
    ensures |t.flight| == |s.flight| - 1 && t.cell == s.cell && t.wake == s.wake
  {
    hide Reaches, Safe, Parse;
    SafeUp(s, b, server);
    var u, first := s, [];
    if s.w.pinger.PingHead? {
      SafeStep(s, Local(PingCheck), b, server);
      u, first := Act(s, Local(PingCheck), b, server), [Local(PingCheck)];
    } else {
      ReachesNone(s, b, server);
    }
    PingIsPing();
    SafeStep(u, Deliver(i), b, server);
    t := Act(u, Deliver(i), b, server);
    ReachesTrans(s, first, u, [Deliver(i)], t, b, server);
    run := first + [Deliver(i)];
  }

  lemma ReachesNone(s: Link, b: Bounds, server: Addr)
    ensures Reaches(s, [], s, b, server)
  {
  }

  lemma {:induction false} DeliverAll(s: Link, b: Bounds, server: Addr) returns (run: seq<Action>, t: Link)
    requires Safe(s, b, server)
    ensures Reaches(s, run, t, b, server) && Safe(t, b, server)
    ensures t.now == s.now && t.flight == [] && t.cell == s.cell && t.wake == s.wake
    decreases |s.flight|
  {
    hide Reaches, Safe;
    if s.flight == [] {
      ReachesNone(s, b, server);
      run, t := [], s;
    } else {
      var first, u := DeliverNow(s, 0, b, server);
      var more, v := DeliverAll(u, b, server);
      ReachesTrans(s, first, u, more, v, b, server);
      run, t := first + more, v;
    }
  }

  /** How far the worker is from its first quote sent. */
  function ToSend(w: Worker): nat {
    match w.phase
    case Posting(_) => 0
    case Sending(rest) => if rest == [] then 6 else 1
    case Receiving(_) => if w.queue == [] then 3 else 2
    case Gate => 4
    case LoopHead => 5
    case _ => 7
  }

  /** The next event on the way there; the hub offers a message if there is none. */
  function TowardsSend(w: Worker, q: Quote): Event
    requires !w.phase.Finished?
  {
    if w.phase.Receiving? && w.queue == [] then Offer([q]) else NextStep(w)
  }

  lemma TowardsSendStep(w: Worker, q: Quote, now: nat)
    requires Up(w, now) && !DeadlineExceeded(w, now) && w.attempts == []
    ensures var e := TowardsSend(w, q);
      && Enabled(w, e, now) && !e.SetStop? && !e.PingFailed?
      && (Apply(w, e, now).attempts != [] || ToSend(Apply(w, e, now)) < ToSend(w))
  {
    hide IsPing;
    if w.phase.Receiving? && w.queue != [] {
      assert w.queue[0] in w.queue;
    }
  }

  /** The worker can always send a first quote without time passing. */
  lemma {:induction false} FirstSent(s: Link, q: Quote, b: Bounds, server: Addr) returns (run: seq<Action>, t: Link)
    requires Safe(s, b, server)
    ensures Reaches(s, run, t, b, server) && Safe(t, b, server) && t.w.attempts != []
    ensures t == s.(w := t.w)
    decreases s.w.attempts == [], ToSend(s.w)
  {
    hide Reaches, Safe, Apply, Enabled, Up, DeadlineExceeded;
    if s.w.attempts != [] {
      ReachesNone(s, b, server);
      run, t := [], s;
    } else {
      SafeUp(s, b, server);
      UpRuns(s.w, s.now);
      TowardsSendStep(s.w, q, s.now);
      var a := Local(TowardsSend(s.w, q));
      SafeStep(s, a, b, server);
      var u := Act(s, a, b, server);
      var more, v := FirstSent(u, q, b, server);
      ReachesTrans(s, [a], u, more, v, b, server);
      run, t := [a] + more, v;
    }
  }

  lemma UpRuns(w: Worker, now: nat)
    requires Up(w, now)
    ensures !w.phase.Finished?
  {
  }

  /** The client can always have the worker's address without time passing. */
  lemma Addressed(s: Link, q: Quote, b: Bounds, server: Addr) returns (run: seq<Action>, t: Link)
    requires Safe(s, b, server)
    ensures Reaches(s, run, t, b, server) && Safe(t, b, server) && t.cell == Some(server) && t.now == s.now
  {
    hide Reaches, Safe, Apply, Enabled;
    ReachesNone(s, b, server);
    run, t := [], s;
    SafeCell(s, b, server);
    if s.cell.None? {
      if s.wake.None? {
        SafeStep(s, StartClient, b, server);
        run, t := [StartClient], Act(s, StartClient, b, server);
      }
      var more, u := FirstSent(t, q, b, server);
      ReachesTrans(s, run, t, more, u, b, server);
      SafeStep(u, QuoteArrives(server), b, server);
      t := Act(u, QuoteArrives(server), b, server);
      ReachesTrans(s, run + more, u, [QuoteArrives(server)], t, b, server);
      run := run + more + [QuoteArrives(server)];
    }
  }

  lemma SafeCell(s: Link, b: Bounds, server: Addr)
    requires Safe(s, b, server)
    ensures s.cell.None? || s.cell == Some(server)
  {
  }

  /** The client wakes if it is due, and everything it and the network owe by now is done. */
  lemma PaidUp(s: Link, b: Bounds, server: Addr) returns (run: seq<Action>, t: Link)
    requires Safe(s, b, server) && s.cell == Some(server) && b.period > 0
    ensures Reaches(s, run, t, b, server) && Safe(t, b, server) && t.now == s.now && t.cell == Some(server)
    ensures t.flight == [] && t.wake.Some? && t.now < t.wake.value
  {
    hide Reaches, Safe, Apply, Enabled;
    SafeUp(s, b, server);
    ReachesNone(s, b, server);
    var first, u := [], s;
    if s.wake.value == s.now {
      SafeStep(s, Wake(false), b, server);
      first, u := [Wake(false)], Act(s, Wake(false), b, server);
    }
    var more, v := DeliverAll(u, b, server);
    ReachesTrans(s, first, u, more, v, b, server);
    run, t := first + more, v;
  }

  /** The worker's receive returns if it is due. */
  lemma ReceiveDue(s: Link, b: Bounds, server: Addr) returns (run: seq<Action>, t: Link)
    requires Safe(s, b, server)
    ensures Reaches(s, run, t, b, server) && Safe(t, b, server) && t == s.(w := t.w)
    ensures t.w.phase.Receiving? ==> t.now < t.w.phase.until
  {
    hide Reaches, Safe;
    ReachesNone(s, b, server);
    run, t := [], s;
    if s.w.phase.Receiving? && s.now >= s.w.phase.until {
      var e := NextStep(s.w);
      SafeStep(s, Local(e), b, server);
      run, t := [Local(e)], Act(s, Local(e), b, server);
    }
  }

  lemma OneTick(s: Link, q: Quote, b: Bounds, server: Addr) returns (run: seq<Action>, t: Link)
    requires Safe(s, b, server) && b.period > 0
    ensures Reaches(s, run, t, b, server) && Safe(t, b, server) && t.now == s.now + 1
  {
    hide Reaches, Safe, Apply, Enabled;
    var r1, s1 := Addressed(s, q, b, server);
    var r2, s2 := PaidUp(s1, b, server);
    var r3, s3 := ReceiveDue(s2, b, server);
    SafeStep(s3, Elapse(1), b, server);
    t := Act(s3, Elapse(1), b, server);
    ReachesTrans(s2, r3, s3, [Elapse(1)], t, b, server);
    ReachesTrans(s1, r2, s2, r3 + [Elapse(1)], t, b, server);
    ReachesTrans(s, r1, s1, r2 + (r3 + [Elapse(1)]), t, b, server);
    run := r1 + (r2 + (r3 + [Elapse(1)]));
  }

  lemma {:induction false} Ticks(s: Link, n: nat, q: Quote, b: Bounds, server: Addr) returns (run: seq<Action>, t: Link)
    requires Safe(s, b, server) && b.period > 0
    ensures Reaches(s, run, t, b, server) && Safe(t, b, server) && t.now == s.now + n
    decreases n
  {
    hide Reaches, Safe;
    if n == 0 {
      ReachesNone(s, b, server);
      run, t := [], s;
    } else {
      var first, u := OneTick(s, q, b, server);
      var more, v := Ticks(u, n - 1, q, b, server);
      ReachesTrans(s, first, u, more, v, b, server);
      run, t := first + more, v;
    }
  }

  lemma ReachedSafe(start: nat, run: seq<Action>, t: Link, b: Bounds, server: Addr)
    requires Reaches(Init(start), run, t, b, server) && FirstFromServer(t, server) && Tolerated(b)
    ensures Safe(t, b, server)
  {
    hide Reaches, Tolerated;
    InitHolds(start, b, server);
    RunHolds(Init(start), run, t, b, server);
  }

  /** In every run within the bound, every PING on its way can be processed at once, and resets the keep-alive. */
  lemma PingsAreHeard(start: nat, run: seq<Action>, t: Link, i: nat, b: Bounds, server: Addr)
    returns (more: seq<Action>, u: Link)
    requires Reaches(Init(start), run, t, b, server) && FirstFromServer(t, server) && Tolerated(b) && i < |t.flight|
    ensures Reaches(t, more, u, b, server) && u.now == t.now && u.heard == Some(t.now) && u.w.lastPing == t.now
  {
    hide Reaches, Tolerated, FirstFromServer, Safe;
    ReachedSafe(start, run, t, b, server);
    more, u := DeliverNow(t, i, b, server);
  }

  /** No run within the bound is stuck: it can go on to any later time, with the client still not dropped. */
  lemma TimeGoesOn(start: nat, run: seq<Action>, t: Link, n: nat, q: Quote, b: Bounds, server: Addr)
    returns (more: seq<Action>, u: Link)
    requires Reaches(Init(start), run, t, b, server) && FirstFromServer(t, server) && Tolerated(b) && b.period > 0
    ensures Reaches(t, more, u, b, server) && u.now == t.now + n && !Dropped(u) && !u.w.stop && !u.w.pinger.PingGone?
  {
    hide Reaches, Tolerated, FirstFromServer, Safe;
    ReachedSafe(start, run, t, b, server);
    more, u := Ticks(t, n, q, b, server);
    SafeUp(u, b, server);
  }
}
