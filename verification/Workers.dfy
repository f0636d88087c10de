/**
 One stream worker of the server: its main loop, its ping thread, and the flag, the cell and the channel they
 share, as a step system. Every event is one atomic access; any thread may be interrupted between two of them.
 Times are milliseconds.
 */
module Workers {
  import opened Quotes
  import opened Sequences
  import opened Text
  import opened Protocol

  const PING_TIMEOUT: nat := 5000
  const QUOTE_RECV_TIMEOUT: nat := 100

  datatype Reason = Stopped | Stale | NoSocket

  /** Where the main loop stands. */
  datatype Phase =
    | Spawned                   // the thread has not bound its socket yet
    | LoopHead                  // about to load `stop`
    | Gate                      // about to look at `last_ping`
    | Receiving(until: nat)     // in `recv_timeout`, which returns by then
    | Sending(rest: Batch)      // in the message loop, about to load `stop` before the next quote
    | Posting(rest: Batch)      // about to send the first of these
    | Leaving(reason: Reason)   // about to store `stop`
    | Finished(reason: Reason)  // returned; the receiver is gone

  datatype PingThread = PingHead | PingReceiving | PingGone

  datatype Worker = Worker(
    phase: Phase,
    pinger: PingThread,
    stop: bool,
    lastPing: nat,
    queue: seq<Batch>,
    // history
    started: nat,               // when `last_ping` was initialised
    offered: seq<Batch>,        // messages the hub sent to this channel
    attempts: Batch,            // quotes handed to the socket
    cut: bool,                  // a message was abandoned halfway
    pings: seq<nat>,            // when a PING was processed
    dequeues: seq<nat>,         // when a message was taken from the channel
    passes: seq<nat>)           // when the staleness check let the loop go on

  datatype Event =
    | Start
    | StartFailed
    | CheckStop
    | CheckStale
    | Dequeue
    | RecvTimedOut
    | CheckSend
    | Send
    | Leave
    | PingCheck
    | PingDatagram(text: string)
    | PingTimedOut
    | PingFailed
    | Offer(message: Batch)
    | SetStop

  /** A worker whose channel exists but whose thread is still starting. */
  function Unstarted(now: nat): Worker {
    Worker(Spawned, PingGone, false, now, [], now, [], [], false, [], [], [])
  }

  /** A worker that has just initialised its keep-alive cell. */
  function Fresh(now: nat): Worker {
    Worker(LoopHead, PingHead, false, now, [], now, [], [], false, [], [], [])
  }

  predicate DeadlineExceeded(w: Worker, now: nat) {
    now - w.lastPing > PING_TIMEOUT
  }

  /** How the ping thread reads a datagram. */
  predicate IsPing(text: string) {
    Parse(Trim(text)) == Ping
  }

  predicate Enabled(w: Worker, e: Event, now: nat) {
    match e
    case Start => w.phase.Spawned?
    case StartFailed => w.phase.Spawned?
    case CheckStop => w.phase.LoopHead?
    case CheckStale => w.phase.Gate?
    case Dequeue => w.phase.Receiving? && w.queue != []
    case RecvTimedOut => w.phase.Receiving? && w.queue == [] && now >= w.phase.until
    case CheckSend => w.phase.Sending?
    case Send => w.phase.Posting? && w.phase.rest != []
    case Leave => w.phase.Leaving?
    case PingCheck => w.pinger.PingHead?
    case PingDatagram(_) => w.pinger.PingReceiving?
    case PingTimedOut => w.pinger.PingReceiving?
    case PingFailed => w.pinger.PingReceiving?
    case Offer(message) => message != []
    case SetStop => true
  }

  function Apply(w: Worker, e: Event, now: nat): Worker
    requires Enabled(w, e, now)
  {
    match e
    case Start => w.(phase := LoopHead, pinger := PingHead, started := now, lastPing := now)
    case StartFailed => w.(phase := Finished(NoSocket), queue := [])
    case CheckStop => w.(phase := if w.stop then Leaving(Stopped) else Gate)
    case CheckStale =>
      if DeadlineExceeded(w, now) then w.(phase := Leaving(Stale))
      else w.(phase := Receiving(now + QUOTE_RECV_TIMEOUT), passes := w.passes + [now])
    case Dequeue =>
      w.(phase := Sending(w.queue[0]), queue := w.queue[1..], dequeues := w.dequeues + [now])
    case RecvTimedOut => w.(phase := LoopHead)
    case CheckSend =>
      if w.phase.rest == [] then w.(phase := LoopHead)
      else if w.stop then w.(phase := LoopHead, cut := true)
      else w.(phase := Posting(w.phase.rest))
    case Send => w.(phase := Sending(w.phase.rest[1..]), attempts := w.attempts + [w.phase.rest[0]])
    case Leave => w.(phase := Finished(w.phase.reason), stop := true, queue := [])
    case PingCheck => w.(pinger := if w.stop then PingGone else PingReceiving)
    case PingDatagram(text) =>
      if IsPing(text) then w.(pinger := PingHead, lastPing := now, pings := w.pings + [now])
      else w.(pinger := PingHead)
    case PingTimedOut => w.(pinger := PingHead)
    case PingFailed => w.(pinger := PingGone)
    case Offer(message) =>
      w.(offered := w.offered + [message], queue := if w.phase.Finished? then w.queue else w.queue + [message])
    case SetStop => w.(stop := true)
  }

  /** `recv_timeout` returns within its bound: time does not pass it while the loop is inside. */
  predicate MayWait(w: Worker, now: nat) {
    w.phase.Receiving? ==> now <= w.phase.until
  }

  // ---------------------------------------------------------------- what every step keeps

  function Flatten(messages: seq<Batch>): Batch {
    if messages == [] then [] else messages[0] + Flatten(messages[1..])
  }

  /** The part of the message in hand that is still to be sent. */
  function InHand(p: Phase): Batch {
    match p
    case Sending(rest) => rest
    case Posting(rest) => rest
    case _ => []
  }

  /** No quote is lost, doubled or reordered between the hub and the socket. */
  ghost predicate Conserved(w: Worker) {
    if w.phase.Finished? || w.cut then w.attempts <= Flatten(w.offered)
    else w.attempts + InHand(w.phase) + Flatten(w.queue) == Flatten(w.offered)
  }

  /** When the worker was started or a PING was processed. */
  function Signs(w: Worker): seq<nat> {
    [w.started] + w.pings
  }

  /** `t` is at most `d` after a sign of life. */
  ghost predicate Fed(w: Worker, t: nat, d: nat) {
    exists p | p in Signs(w) :: p <= t <= p + d
  }

  ghost predicate Increasing(s: seq<nat>) {
    forall i, j | 0 <= i < j < |s| :: s[i] <= s[j]
  }

  /** The keep-alive cell holds the last sign of life, and all history lies in the past. */
  ghost predicate Timely(w: Worker, now: nat) {
    && Increasing(Signs(w)) && w.lastPing == Signs(w)[|w.pings|] && w.lastPing <= now
    && (w.phase.Receiving? ==> now <= w.phase.until <= w.lastPing + PING_TIMEOUT + QUOTE_RECV_TIMEOUT)
    && (forall t | t in w.dequeues :: Fed(w, t, PING_TIMEOUT + QUOTE_RECV_TIMEOUT) && t <= now)
    && (forall t | t in w.passes :: Fed(w, t, PING_TIMEOUT) && t <= now)
    && Increasing(w.passes)
    && (w.phase.Spawned? ==> w.pinger.PingGone? && w.pings == [] && w.dequeues == [] && w.passes == [])
  }

  /** What the phases say about the stop flag. */
  ghost predicate StopKept(w: Worker) {
    && (w.phase.Posting? ==> w.phase.rest != [])
    && (w.phase.Finished? && w.phase.reason != NoSocket ==> w.stop)
    && (w.cut ==> w.stop)
    && (w.cut && !w.phase.LoopHead? ==> w.phase == Leaving(Stopped) || w.phase == Finished(Stopped))
    && (w.phase == Leaving(Stopped) ==> w.stop)
  }

  ghost predicate Inv(w: Worker, now: nat) {
    Conserved(w) && Timely(w, now) && StopKept(w)
  }

  lemma {:induction false} FlattenSnoc(messages: seq<Batch>, m: Batch)
    ensures Flatten(messages + [m]) == Flatten(messages) + m
  {
    if messages == [] {
      assert Flatten([m]) == m + Flatten([]);
    } else {
      assert (messages + [m])[1..] == messages[1..] + [m];
      FlattenSnoc(messages[1..], m);
    }
  }

  lemma SendConserves(w: Worker)
    requires w.phase.Posting? && w.phase.rest != [] && Conserved(w) && StopKept(w)
    ensures Conserved(Apply(w, Send, 0))
  {
    var rest := w.phase.rest;
    assert rest == [rest[0]] + rest[1..];
    assert w.attempts + [rest[0]] + rest[1..] == w.attempts + rest;
  }

  lemma DequeueConserves(w: Worker)
    requires w.phase.Receiving? && w.queue != [] && Conserved(w)
    ensures Conserved(Apply(w, Dequeue, 0))
  {
    assert w.attempts + [] == w.attempts;
    assert w.attempts + w.queue[0] + Flatten(w.queue[1..]) == w.attempts + Flatten(w.queue);
  }

  lemma OfferConserves(w: Worker, message: Batch)
    requires message != [] && Conserved(w)
    ensures Conserved(Apply(w, Offer(message), 0))
  {
    hide Flatten;
    FlattenSnoc(w.offered, message);
    FlattenSnoc(w.queue, message);
    var before := w.attempts + InHand(w.phase);
    assert before + (Flatten(w.queue) + message) == before + Flatten(w.queue) + message;
    assert Flatten(w.offered) <= Flatten(w.offered) + message;
  }

  lemma StepConserves(w: Worker, e: Event, now: nat)
    requires Enabled(w, e, now) && Conserved(w) && StopKept(w)
    ensures Conserved(Apply(w, e, now))
  {
    hide IsPing, Flatten;
    match e
    case Offer(message) => OfferConserves(w, message);
    case Dequeue => DequeueConserves(w);
    case Send => SendConserves(w);
    case CheckSend => assert w.attempts <= w.attempts + InHand(w.phase) + Flatten(w.queue);
    case Leave => assert w.attempts <= w.attempts + InHand(w.phase) + Flatten(w.queue);
    case StartFailed => assert w.attempts <= w.attempts + InHand(w.phase) + Flatten(w.queue);
    case _ =>
  }

  lemma IncreasingSnoc(s: seq<nat>, x: nat)
    requires Increasing(s) && forall i | 0 <= i < |s| :: s[i] <= x
    ensures Increasing(s + [x])
  {
  }

  lemma SignsSnoc(w: Worker, now: nat)
    requires Increasing(Signs(w)) && Signs(w)[|w.pings|] <= now
    ensures var v := w.(pings := w.pings + [now], lastPing := now);
      Increasing(Signs(v)) && Signs(v)[|v.pings|] == now && Signs(v) == Signs(w) + [now]
  {
    IncreasingSnoc(Signs(w), now);
    assert [w.started] + (w.pings + [now]) == Signs(w) + [now];
  }

  /** More signs of life feed at least as much. */
  lemma StillFed(w: Worker, v: Worker)
    requires forall p | p in Signs(w) :: p in Signs(v)
    ensures forall t, d: nat | Fed(w, t, d) :: Fed(v, t, d)
  {
  }

  lemma CheckStaleTimely(w: Worker, now: nat)
    requires w.phase.Gate? && Timely(w, now)
    ensures Timely(Apply(w, CheckStale, now), now)
  {
    var v := Apply(w, CheckStale, now);
    StillFed(w, v);
    if !DeadlineExceeded(w, now) {
      assert w.lastPing in Signs(v);
      assert Fed(v, now, PING_TIMEOUT);
      forall i | 0 <= i < |w.passes| ensures w.passes[i] <= now {
        assert w.passes[i] in w.passes;
      }
      IncreasingSnoc(w.passes, now);
    }
  }

  lemma DequeueTimely(w: Worker, now: nat)
    requires w.phase.Receiving? && w.queue != [] && Timely(w, now)
    ensures Timely(Apply(w, Dequeue, now), now)
  {
    var v := Apply(w, Dequeue, now);
    StillFed(w, v);
    assert w.lastPing in Signs(v);
    assert Fed(v, now, PING_TIMEOUT + QUOTE_RECV_TIMEOUT);
  }

  lemma PingTimely(w: Worker, v: Worker, now: nat)
    requires Timely(w, now) && w.pinger.PingReceiving?
    requires v == w.(pinger := PingHead, lastPing := now, pings := w.pings + [now])
    ensures Timely(v, now)
  {
    SignsSnoc(w, now);
    StillFed(w, v);
  }

  lemma StepTimely(w: Worker, e: Event, now: nat)
    requires Enabled(w, e, now) && Timely(w, now)
    ensures Timely(Apply(w, e, now), now)
  {
    hide IsPing;
    var v := Apply(w, e, now);
    match e
    case CheckStale => CheckStaleTimely(w, now);
    case Dequeue => DequeueTimely(w, now);
    case Start => assert Signs(v) == [now];
    case PingDatagram(text) =>
      if IsPing(text) {
        PingTimely(w, v, now);
      } else {
        StillFed(w, v);
      }
    case _ => StillFed(w, v);
  }

  /** Every event of every thread keeps conservation, the keep-alive bound and the stop flag's meaning. */
  lemma StepInv(w: Worker, e: Event, now: nat)
    requires Enabled(w, e, now) && Inv(w, now)
    ensures Inv(Apply(w, e, now), now)
    ensures w.stop ==> Apply(w, e, now).stop
    ensures !w.phase.Spawned? ==> !Apply(w, e, now).phase.Spawned? && Apply(w, e, now).started == w.started
  {
    hide IsPing, Conserved, Timely;
    StepConserves(w, e, now);
    StepTimely(w, e, now);
  }

  lemma WaitInv(w: Worker, now: nat, later: nat)
    requires Inv(w, now) && now <= later && MayWait(w, later)
    ensures Inv(w, later)
  {
  }

  lemma FreshInv(now: nat)
    ensures Inv(Fresh(now), now) && Inv(Unstarted(now), now)
  {
  }

  // ---------------------------------------------------------------- whole runs

  /** A worker and the clock; its environment is part of the events (`Offer`, `PingDatagram`, `SetStop`). */
  datatype Timed = Timed(now: nat, w: Worker)

  datatype Move = Tick(d: nat) | Do(e: Event)

  predicate CanMove(s: Timed, m: Move) {
    match m
    case Tick(d) => MayWait(s.w, s.now + d)
    case Do(e) => Enabled(s.w, e, s.now)
  }

  function After(s: Timed, m: Move): Timed
    requires CanMove(s, m)
  {
    match m
    case Tick(d) => s.(now := s.now + d)
    case Do(e) => s.(w := Apply(s.w, e, s.now))
  }

  /** `t` is reached from `s` by this interleaving of the worker, its ping thread and the environment. */
  ghost predicate Reaches(s: Timed, run: seq<Move>, t: Timed)
    decreases |run|
  {
    if run == [] then s == t
    else CanMove(s, run[0]) && Reaches(After(s, run[0]), run[1..], t)
  }

  lemma {:induction false} ReachesSnoc(s: Timed, run: seq<Move>, t: Timed, m: Move)
    requires Reaches(s, run, t) && CanMove(t, m)
    ensures Reaches(s, run + [m], After(t, m))
    decreases |run|
  {
    hide CanMove, After;
    if run == [] {
      assert [m][1..] == [];
    } else {
      assert (run + [m])[1..] == run[1..] + [m];
      ReachesSnoc(After(s, run[0]), run[1..], t, m);
    }
  }

  lemma MoveInv(s: Timed, m: Move)
    requires CanMove(s, m) && Inv(s.w, s.now)
    ensures Inv(After(s, m).w, After(s, m).now)
    ensures s.w.stop ==> After(s, m).w.stop
    ensures !s.w.phase.Spawned? ==> !After(s, m).w.phase.Spawned? && After(s, m).w.started == s.w.started
  {
    match m
    case Tick(d) => WaitInv(s.w, s.now, s.now + d);
    case Do(e) => StepInv(s.w, e, s.now);
  }

  lemma {:induction false} RunInv(s: Timed, run: seq<Move>, t: Timed)
    requires Reaches(s, run, t) && Inv(s.w, s.now)
    ensures Inv(t.w, t.now)
    ensures s.w.stop ==> t.w.stop
    ensures !s.w.phase.Spawned? ==> !t.w.phase.Spawned? && t.w.started == s.w.started
    decreases |run|
  {
    hide CanMove, After, Inv;
    if run != [] {
      MoveInv(s, run[0]);
      RunInv(After(s, run[0]), run[1..], t);
    }
  }

  /**
   In every interleaving, what the worker has sent is a prefix of what the hub offered; and unless it has
   returned or abandoned a message on a stop, what it sent, what it holds and what is queued make up the
   whole of it, in order.
   */
  lemma RunConserves(start: nat, run: seq<Move>, t: Timed)
    requires Reaches(Timed(start, Fresh(start)), run, t)
    ensures t.w.attempts <= Flatten(t.w.offered)
    ensures !t.w.phase.Finished? && !t.w.cut
        ==> t.w.attempts + InHand(t.w.phase) + Flatten(t.w.queue) == Flatten(t.w.offered)
  {
    FreshInv(start);
    RunInv(Timed(start, Fresh(start)), run, t);
    ConservedPrefix(t.w);
  }

  lemma ConservedPrefix(w: Worker)
    requires Conserved(w)
    ensures w.attempts <= Flatten(w.offered)
  {
    assert w.attempts <= w.attempts + InHand(w.phase) + Flatten(w.queue);
  }

  /**
   The keep-alive cut-off: if no PING is processed after time `T`, no message is taken from the channel after
   `T` plus the ping timeout plus one receive timeout, in any interleaving.
   */
  lemma CutOff(start: nat, run: seq<Move>, t: Timed, T: nat)
    requires Reaches(Timed(start, Fresh(start)), run, t) && start <= T
    requires forall p | p in t.w.pings :: p <= T
    ensures forall x | x in t.w.dequeues :: x <= T + 5100
    ensures forall x | x in t.w.passes :: x <= T + 5000
  {
    FreshInv(start);
    RunInv(Timed(start, Fresh(start)), run, t);
    SignsBy(t.w, T);
  }

  lemma SignsBy(w: Worker, T: nat)
    requires w.started <= T && forall p | p in w.pings :: p <= T
    ensures forall x: nat, d: nat | Fed(w, x, d) :: x <= T + d
  {
    forall x: nat, d: nat | Fed(w, x, d) ensures x <= T + d {
      var p :| p in Signs(w) && p <= x <= p + d;
      assert p == w.started || p in w.pings;
    }
  }

  lemma {:induction false} StrictlyIncreasingCount(s: seq<nat>, low: nat, high: nat)
    requires forall i, j | 0 <= i < j < |s| :: s[i] < s[j]
    requires forall i | 0 <= i < |s| :: low < s[i] <= high
    ensures low <= high ==> |s| <= high - low
    ensures s != [] ==> low < high
  {
    if s != [] {
      var n := |s| - 1;
      StrictlyIncreasingCount(s[..n], low, s[n] - 1);
    }
  }

  /**
   When the clock advances between two rounds of the loop, the silent worker's loop goes round at most
   5000 more times: after `T` the staleness check lets it pass at most once a millisecond until it breaks.
   */
  lemma RoundsLeft(start: nat, run: seq<Move>, t: Timed, T: nat, n: nat)
    requires Reaches(Timed(start, Fresh(start)), run, t) && start <= T
    requires forall p | p in t.w.pings :: p <= T
    requires forall i, j | 0 <= i < j < |t.w.passes| :: t.w.passes[i] < t.w.passes[j]
    requires n <= |t.w.passes| && forall i | n <= i < |t.w.passes| :: t.w.passes[i] > T
    ensures |t.w.passes| - n <= 5000
  {
    CutOff(start, run, t, T);
    var late := t.w.passes[n..];
    forall i | 0 <= i < |late| ensures T < late[i] <= T + PING_TIMEOUT {
      assert late[i] in t.w.passes;
    }
    StrictlyIncreasingCount(late, T, T + PING_TIMEOUT);
  }

  /** A worker that has returned leaves `stop` set for good, and the ping thread goes at its next check. */
  lemma FinishedStops(start: nat, run: seq<Move>, s: Timed, more: seq<Move>, t: Timed)
    requires Reaches(Timed(start, Fresh(start)), run, s) && s.w.phase.Finished? && s.w.phase.reason != NoSocket
    requires Reaches(s, more, t)
    ensures t.w.stop
    ensures t.w.pinger.PingHead? ==> Enabled(t.w, PingCheck, t.now) && Apply(t.w, PingCheck, t.now).pinger.PingGone?
  {
    FreshInv(start);
    RunInv(Timed(start, Fresh(start)), run, s);
    RunInv(s, more, t);
  }

  /** The main loop's next access to shared state. */
  function NextStep(w: Worker): Event
    requires !w.phase.Finished?
  {
    match w.phase
    case Spawned => Start
    case LoopHead => CheckStop
    case Gate => CheckStale
    case Receiving(_) => if w.queue == [] then RecvTimedOut else Dequeue
    case Sending(_) => CheckSend
    case Posting(_) => Send
    case Leaving(_) => Leave
  }

  lemma NextStepEnabled(w: Worker, now: nat)
    requires StopKept(w) && !w.phase.Finished?
    ensures Enabled(w, NextStep(w), now) || (w.phase.Receiving? && w.queue == [] && now < w.phase.until)
  {
  }

  /** The loop is never stuck, in any run: until it returns it can go on, or its receive is within its bound. */
  lemma NeverStuck(start: nat, run: seq<Move>, t: Timed)
    requires Reaches(Timed(start, Fresh(start)), run, t) && !t.w.phase.Finished?
    ensures Enabled(t.w, NextStep(t.w), t.now) || (t.w.phase.Receiving? && t.w.queue == [] && t.now < t.w.phase.until)
  {
    hide Reaches, Enabled, NextStep, Timely, Conserved, StopKept;
    FreshInv(start);
    RunInv(Timed(start, Fresh(start)), run, t);
    NextStepEnabled(t.w, t.now);
  }

  // ---------------------------------------------------------------- what a datagram does

  /** A datagram counts as a PING exactly when its trimmed text is the keyword in any letter case. */
  lemma PingExact(text: string)
    ensures IsPing(text) <==> Mix(Trim(text), "PING", "ping")
  {
    TrimIdempotent(text);
    Keywords(Trim(text));
    if PingText(Trim(text)) {
      Keyword(Trim(text));
    }
  }

  /** A PING, and nothing else that comes in, resets the keep-alive; the ping thread goes on listening. */
  lemma DatagramEffect(w: Worker, text: string, now: nat)
    requires Enabled(w, PingDatagram(text), now)
    ensures var v := Apply(w, PingDatagram(text), now); var ping := Mix(Trim(text), "PING", "ping");
      && v.lastPing == (if ping then now else w.lastPing) && v.pings == (if ping then w.pings + [now] else w.pings)
      && v.pinger.PingHead? && v.phase == w.phase && v.queue == w.queue && v.stop == w.stop
  {
    PingExact(text);
    hide IsPing, Mix;
  }

  // ---------------------------------------------------------------- everything offered gets sent

  /** Steps left until the loop waits for the next message. */
  function Rank(p: Phase): nat {
    match p
    case Posting(rest) => 2 * |rest| + 3
    case Sending(rest) => 2 * |rest| + 4
    case LoopHead => 3
    case Gate => 2
    case _ => 1
  }

  /** The loop runs, nobody stops it, and the client is alive. */
  predicate Running(w: Worker, now: nat) {
    && !w.stop && !DeadlineExceeded(w, now)
    && !w.phase.Spawned? && !w.phase.Leaving? && !w.phase.Finished?
  }

  lemma NextStepRuns(w: Worker, now: nat)
    requires Running(w, now) && StopKept(w) && !(w.phase.Receiving? && w.queue == [])
    ensures Enabled(w, NextStep(w), now)
    ensures var v := Apply(w, NextStep(w), now);
      && Running(v, now) && v.offered == w.offered
      && (|v.queue| < |w.queue| || (v.queue == w.queue && Rank(v.phase) < Rank(w.phase)))
  {
    hide IsPing;
  }

  lemma ReachesCons(s: Timed, m: Move, run: seq<Move>, t: Timed)
    requires CanMove(s, m) && Reaches(After(s, m), run, t)
    ensures Reaches(s, [m] + run, t)
  {
    hide CanMove, After;
    assert ([m] + run)[1..] == run;
  }

  lemma {:induction false} Drains(s: Timed) returns (run: seq<Move>, t: Timed)
    requires Running(s.w, s.now) && Inv(s.w, s.now)
    ensures Reaches(s, run, t) && t.now == s.now && Inv(t.w, t.now) && Running(t.w, t.now)
    ensures forall m | m in run :: m.Do? && !m.e.Offer?
    ensures t.w.phase.Receiving? && t.w.queue == [] && t.w.offered == s.w.offered
    decreases |s.w.queue|, Rank(s.w.phase)
  {
    hide Apply, Enabled, Conserved, Timely, Running;
    if s.w.phase.Receiving? && s.w.queue == [] {
      run, t := [], s;
    } else {
      var e := DueStep(s);
      var u := After(s, Do(e));
      var more, v := Drains(u);
      ReachesCons(s, Do(e), more, v);
      run, t := [Do(e)] + more, v;
    }
  }

  lemma DueStep(s: Timed) returns (e: Event)
    requires Running(s.w, s.now) && Inv(s.w, s.now) && !(s.w.phase.Receiving? && s.w.queue == [])
    ensures CanMove(s, Do(e)) && !e.Offer?
    ensures var u := After(s, Do(e));
      && u.now == s.now && Inv(u.w, u.now) && Running(u.w, u.now) && u.w.offered == s.w.offered
      && (|u.w.queue| < |s.w.queue| || (u.w.queue == s.w.queue && Rank(u.w.phase) < Rank(s.w.phase)))
  {
    NextStepRuns(s.w, s.now);
    e := NextStep(s.w);
    MoveInv(s, Do(e));
    hide Apply, Enabled, Inv, Running, Rank;
  }

  /** While the client is alive and nobody stops the worker, all it was offered can be sent without time passing. */
  lemma EverythingSent(start: nat, run: seq<Move>, t: Timed) returns (more: seq<Move>, u: Timed)
    requires Reaches(Timed(start, Fresh(start)), run, t) && Running(t.w, t.now)
    ensures Reaches(t, more, u) && u.now == t.now && u.w.attempts == Flatten(t.w.offered)
  {
    hide Reaches;
    FreshInv(start);
    RunInv(Timed(start, Fresh(start)), run, t);
    more, u := SendsAll(t);
  }

  lemma SendsAll(t: Timed) returns (more: seq<Move>, u: Timed)
    requires Inv(t.w, t.now) && Running(t.w, t.now)
    ensures Reaches(t, more, u) && u.now == t.now && Inv(u.w, u.now)
    ensures forall m | m in more :: m.Do? && !m.e.Offer?
    ensures u.w.attempts == Flatten(t.w.offered) && u.w.offered == t.w.offered
  {
    hide Reaches, Apply, Flatten;
    more, u := Drains(t);
    assert u.w.attempts + [] + Flatten([]) == Flatten(u.w.offered);
    FlattenNone();
    assert u.w.attempts + [] + [] == u.w.attempts;
  }

  lemma FlattenNone()
    ensures Flatten([]) == []
  {
  }

  // ---------------------------------------------------------------- starting, stopping and waiting

  function OfferAll(w: Worker, messages: seq<Batch>, now: nat): Worker
    requires forall m | m in messages :: m != []
  {
    if messages == [] then w
    else
      var front, last := messages[..|messages| - 1], messages[|messages| - 1];
      assert last in messages && forall m | m in front :: m in messages;
      Apply(OfferAll(w, front, now), Offer(last), now)
  }

  lemma {:induction false} OfferedOnly(w: Worker, messages: seq<Batch>, now: nat)
    requires !w.phase.Finished? && forall m | m in messages :: m != []
    ensures OfferAll(w, messages, now) == w.(offered := w.offered + messages, queue := w.queue + messages)
  {
    if messages == [] {
      assert w.offered + [] == w.offered && w.queue + [] == w.queue;
    } else {
      var front, last := messages[..|messages| - 1], messages[|messages| - 1];
      assert forall m | m in front :: m in messages;
      OfferedOnly(w, front, now);
      assert messages == front + [last];
      ConcatAssoc(w.offered, front, [last]);
      ConcatAssoc(w.queue, front, [last]);
    }
  }

  /** A worker whose thread starts late is as good as new, but for the messages it was offered meanwhile. */
  lemma StartsFresh(subscribed: nat, messages: seq<Batch>, now: nat)
    requires forall m | m in messages :: m != []
    ensures var w := OfferAll(Unstarted(subscribed), messages, now);
      Enabled(w, Start, now) && Apply(w, Start, now) == OfferAll(Fresh(now), messages, now)
  {
    OfferedOnly(Unstarted(subscribed), messages, now);
    OfferedOnly(Fresh(now), messages, now);
    hide OfferAll;
  }

  /** What a worker may still do once the flag is set. */
  function MaySend(w: Worker): nat {
    |w.attempts| + if w.phase.Posting? then 1 else 0
  }

  function MayTake(w: Worker): nat {
    |w.dequeues| + if w.phase.Gate? || w.phase.Receiving? then 1 else 0
  }

  lemma StopStep(w: Worker, e: Event, now: nat)
    requires Enabled(w, e, now) && w.stop && !w.phase.Spawned?
    ensures var v := Apply(w, e, now);
      v.stop && !v.phase.Spawned? && MaySend(v) <= MaySend(w) && MayTake(v) <= MayTake(w)
  {
    hide IsPing;
  }

  /**
   Once the flag is set, in every interleaving, at most the quote about to be sent is still sent, and at most the
   message the loop is about to wait for is still taken.
   */
  lemma {:induction false} StopObeyed(s: Timed, run: seq<Move>, t: Timed)
    requires Reaches(s, run, t) && s.w.stop && !s.w.phase.Spawned?
    ensures |t.w.attempts| <= |s.w.attempts| + (if s.w.phase.Posting? then 1 else 0)
    ensures |t.w.dequeues| <= |s.w.dequeues| + (if s.w.phase.Gate? || s.w.phase.Receiving? then 1 else 0)
  {
    StopPotential(s, run, t);
  }

  lemma {:induction false} StopPotential(s: Timed, run: seq<Move>, t: Timed)
    requires Reaches(s, run, t) && s.w.stop && !s.w.phase.Spawned?
    ensures MaySend(t.w) <= MaySend(s.w) && MayTake(t.w) <= MayTake(s.w)
    decreases |run|
  {
    hide Apply, Enabled, MaySend, MayTake;
    if run != [] {
      if run[0].Do? {
        StopStep(s.w, run[0].e, s.now);
      }
      StopPotential(After(s, run[0]), run[1..], t);
    }
  }

  /** If time cannot pass, the worker can step, and then it can. */
  lemma Unblocked(w: Worker, now: nat) returns (v: Worker)
    requires Inv(w, now)
    ensures v == w || (w.phase.Receiving? && Enabled(w, NextStep(w), now) && v == Apply(w, NextStep(w), now))
    ensures MayWait(v, now + 1) && Inv(v, now)
  {
    v := w;
    if !MayWait(w, now + 1) {
      StepInv(w, NextStep(w), now);
      v := Apply(w, NextStep(w), now);
    }
  }

  /** No run is stuck: it can go on to any later time. */
  lemma {:induction false} TimePasses(s: Timed, n: nat) returns (run: seq<Move>, t: Timed)
    requires Inv(s.w, s.now)
    ensures Reaches(s, run, t) && t.now == s.now + n && Inv(t.w, t.now)
    decreases n
  {
    hide Apply, Enabled, Inv;
    if n == 0 {
      run, t := [], s;
    } else {
      var v := Unblocked(s.w, s.now);
      var u := Timed(s.now, v);
      MoveInv(u, Tick(1));
      var more, x := TimePasses(After(u, Tick(1)), n - 1);
      ReachesCons(u, Tick(1), more, x);
      run, t := [Tick(1)] + more, x;
      if v != s.w {
        ReachesCons(s, Do(NextStep(s.w)), run, t);
        run := [Do(NextStep(s.w))] + run;
      }
    }
  }

  /** Steps of its own left until a stopped worker has returned. */
  function ToEnd(p: Phase): nat {
    match p
    case Finished(_) => 0
    case Leaving(_) => 1
    case LoopHead => 2
    case Sending(_) => 3
    case Posting(_) => 4
    case Receiving(_) => 5
    case _ => 6
  }

  lemma EndStep(s: Timed) returns (m: Move)
    requires Inv(s.w, s.now) && s.w.stop && !s.w.phase.Spawned? && !s.w.phase.Finished?
    ensures CanMove(s, m)
    ensures var u := After(s, m);
      && Inv(u.w, u.now) && u.w.stop && !u.w.phase.Spawned?
      && (ToEnd(u.w.phase) < ToEnd(s.w.phase) || (m.Tick? && m.d > 0 && u.w == s.w))
      && u.now <= s.now + (if m.Tick? then m.d else 0)
      && (m.Tick? ==> s.w.phase.Receiving? && s.now + m.d == s.w.phase.until)
  {
    if s.w.phase.Receiving? && s.w.queue == [] && s.now < s.w.phase.until {
      m := Tick(s.w.phase.until - s.now);
    } else {
      m := Do(NextStep(s.w));
    }
    MoveInv(s, m);
  }

  /** A stopped worker can always return by its own steps, waiting at most for its receive. */
  lemma {:induction false} StopEnds(s: Timed) returns (run: seq<Move>, t: Timed)
    requires Inv(s.w, s.now) && s.w.stop && !s.w.phase.Spawned?
    ensures Reaches(s, run, t) && t.w.phase.Finished?
    decreases ToEnd(s.w.phase), if s.w.phase.Receiving? then s.w.phase.until - s.now else 0
  {
    hide Apply, Enabled, Conserved, Fed, ToEnd;
    if s.w.phase.Finished? {
      run, t := [], s;
    } else {
      var m := EndStep(s);
      var more, u := StopEnds(After(s, m));
      ReachesCons(s, m, more, u);
      run, t := [m] + more, u;
    }
  }

  /** At any time of any run the flag can be set by whoever holds it, and the worker can then return. */
  lemma Stoppable(start: nat, run: seq<Move>, s: Timed) returns (more: seq<Move>, t: Timed)
    requires Reaches(Timed(start, Fresh(start)), run, s)
    ensures more != [] && more[0] == Do(SetStop) && Reaches(s, more, t) && t.w.phase.Finished?
  {
    hide Reaches, Inv, Apply;
    FreshInv(start);
    RunInv(Timed(start, Fresh(start)), run, s);
    MoveInv(s, Do(SetStop));
    var u := SetsStop(s);
    var rest, v := StopEnds(u);
    ReachesCons(s, Do(SetStop), rest, v);
    more, t := [Do(SetStop)] + rest, v;
  }

  lemma SetsStop(s: Timed) returns (u: Timed)
    ensures CanMove(s, Do(SetStop)) && u == After(s, Do(SetStop)) && u.now == s.now
    ensures u.w.stop && u.w.phase == s.w.phase && u.w.queue == s.w.queue && u.w.attempts == s.w.attempts
  {
    u := After(s, Do(SetStop));
  }

  /** Without a socket the worker returns at once; it then sends nothing and its channel stays closed, in every run. */
  lemma {:induction false} NoSocketNothing(s: Timed, run: seq<Move>, t: Timed)
    requires s.w.phase == Finished(NoSocket) && s.w.queue == [] && Reaches(s, run, t)
    ensures t.w.phase == Finished(NoSocket) && t.w.queue == [] && t.w.attempts == s.w.attempts
    decreases |run|
  {
    hide IsPing;
    if run != [] {
      NoSocketNothing(After(s, run[0]), run[1..], t);
    }
  }

  lemma FailsToStart(w: Worker, now: nat, run: seq<Move>, t: Timed)
    requires w.phase.Spawned? && w.attempts == []
    ensures Enabled(w, StartFailed, now)
    ensures Reaches(Timed(now, Apply(w, StartFailed, now)), run, t)
        ==> t.w.phase == Finished(NoSocket) && t.w.queue == [] && t.w.attempts == []
  {
    hide Reaches;
    var s := Timed(now, Apply(w, StartFailed, now));
    if Reaches(s, run, t) {
      NoSocketNothing(s, run, t);
    }
  }
}
