/**
 The body of the stream worker's thread, statement by statement. Between two accesses to shared state any other
 thread may act (`Interfere`, `Preempted`). Every statement is one event of the step system, so each execution is
 one of its runs and has the properties proved there; the loop itself is proved to end once PINGs stop coming.
 */
module StreamLoop {
  import opened Quotes
  import opened Workers

  class StreamWorker {
    var now: nat
    var stop: bool
    var lastPing: nat
    var queue: seq<Batch>
    var sent: Batch
    var pinger: PingThread
    const start: nat
    const quiet: nat      // no PING is processed after this time

    ghost var w: Worker
    ghost var run: seq<Move>

    /** The shared variables are those of the step system after the recorded run. */
    ghost predicate Tied()
      reads this
    {
      && w.stop == stop && w.lastPing == lastPing && w.queue == queue && w.attempts == sent && w.pinger == pinger
      && start <= quiet && lastPing <= quiet && (forall p | p in w.pings :: p <= quiet)
      && Reaches(Timed(start, Fresh(start)), run, Timed(now, w))
    }

    constructor (now: nat, quiet: nat)
      requires now <= quiet
      ensures Tied() && w.phase.LoopHead? && start == now && this.quiet == quiet && run == []
    {
      this.now, this.start, this.quiet := now, now, quiet;
      stop, lastPing, queue, sent, pinger := false, now, [], [], PingHead;
      w, run := Fresh(now), [];
    }

    ghost method Record(e: Event)
      requires Reaches(Timed(start, Fresh(start)), run, Timed(now, w)) && Enabled(w, e, now)
      modifies this`w, this`run
      ensures Reaches(Timed(start, Fresh(start)), run, Timed(now, w)) && w == Apply(old(w), e, now)
    {
      hide Reaches, Enabled, Apply;
      ReachesSnoc(Timed(start, Fresh(start)), run, Timed(now, w), Do(e));
      w, run := Apply(w, e, now), run + [Do(e)];
    }

    /** Time passes. */
    method Pass(d: nat)
      requires Tied() && MayWait(w, now + d)
      modifies this`now, this`run
      ensures Tied() && now == old(now) + d
    {
      hide Reaches;
      ReachesSnoc(Timed(start, Fresh(start)), run, Timed(now, w), Tick(d));
      now, run := now + d, run + [Tick(d)];
    }

    /** Time passes, up to `latest`, and the hub, the ping thread and whoever else holds the flag take any steps. */
    method Interfere(latest: nat)
      requires Tied() && !w.phase.Finished? && now <= latest && MayWait(w, latest)
      modifies this`now, this`stop, this`lastPing, this`queue, this`pinger, this`w, this`run
      ensures Tied() && w.phase == old(w.phase) && (old(stop) ==> stop) && old(now) <= now <= latest
    {
      hide Reaches, IsPing;
      var steps :| steps >= 0;
      while steps > 0
        invariant Tied() && w.phase == old(w.phase) && (old(stop) ==> stop) && old(now) <= now <= latest
      {
        if * {
          var d: nat :| d <= latest - now;
          Pass(d);
        } else if * {
          stop := true;
          Record(SetStop);
        } else if * {
          var first: Quote, more: Batch :| true;
          queue := queue + [[first] + more];
          Record(Offer([first] + more));
        } else {
          PingThreadStep();
        }
        steps := steps - 1;
      }
    }

    /** The thread is preempted outside `recv_timeout`, for any time. */
    method Preempted()
      requires Tied() && !w.phase.Finished? && !w.phase.Receiving?
      modifies this`now, this`stop, this`lastPing, this`queue, this`pinger, this`w, this`run
      ensures Tied() && w.phase == old(w.phase) && (old(stop) ==> stop) && now >= old(now)
    {
      var latest: nat :| latest >= now;
      Interfere(latest);
    }

    /** One step of the ping thread. */
    method PingThreadStep()
      requires Tied()
      modifies this`lastPing, this`pinger, this`w, this`run
      ensures Tied() && w.phase == old(w.phase)
    {
      hide Reaches, IsPing;
      match pinger {
        case PingHead =>
          pinger := if stop then PingGone else PingReceiving;
          Record(PingCheck);
        case PingReceiving =>
          if * {
            pinger := PingHead;
            Record(PingTimedOut);
          } else if * {
            pinger := PingGone;
            Record(PingFailed);
          } else {
            var text: string :| true;
            if IsPing(text) {
              if now <= quiet {
                lastPing, pinger := now, PingHead;
                Record(PingDatagram(text));
              }
            } else {
              pinger := PingHead;
              Record(PingDatagram(text));
            }
          }
        case PingGone =>
      }
    }

    /** The clock advances, and by `until` there is a message or none. Back at the loop head others may act again. */
    method RecvTimeout(until: nat) returns (got: seq<Batch>)
      requires Tied() && w.phase == Receiving(until) && now < until
      modifies this`now, this`stop, this`lastPing, this`queue, this`pinger, this`w, this`run
      ensures Tied() && now > old(now) && (old(stop) ==> stop)
      ensures if got == [] then w.phase == LoopHead else w.phase == Sending(got[0]) && |got| == 1
    {
      hide Reaches;
      Pass(1);
      Interfere(until);
      if queue == [] {
        Pass(until - now);
        Record(RecvTimedOut);
        Preempted();
        return [];
      }
      got := [queue[0]];
      queue := queue[1..];
      Record(Dequeue);
    }

    /** One turn of the message loop: the quote is sent unless `stop` is seen. */
    method SendNext(quotes: Batch, i: nat) returns (posted: bool)
      requires i < |quotes| && Tied() && w.phase == Sending(quotes[i..])
      modifies this`now, this`stop, this`lastPing, this`queue, this`sent, this`pinger, this`w, this`run
      ensures Tied() && (old(stop) ==> stop) && now >= old(now)
      ensures w.phase == if posted then Sending(quotes[i + 1..]) else LoopHead
      ensures sent == if posted then old(sent) + [quotes[i]] else old(sent)
    {
      hide Reaches;
      Preempted();
      Record(CheckSend);
      if stop {
        Preempted();
        return false;
      }
      Preempted();
      sent := sent + [quotes[i]];
      Record(Send);
      assert quotes[i..][1..] == quotes[i + 1..];
      posted := true;
    }

    /** Sends a message quote by quote, or what is left of it until `stop` is seen. */
    method SendAll(quotes: Batch)
      requires Tied() && w.phase == Sending(quotes)
      modifies this`now, this`stop, this`lastPing, this`queue, this`sent, this`pinger, this`w, this`run
      ensures Tied() && w.phase == LoopHead && (old(stop) ==> stop) && now >= old(now)
    {
      hide Reaches;
      var i := 0;
      while i < |quotes|
        invariant 0 <= i <= |quotes| && Tied() && w.phase == Sending(quotes[i..])
        invariant (old(stop) ==> stop) && now >= old(now)
      {
        var posted := SendNext(quotes, i);
        if !posted {
          return;
        }
        i := i + 1;
      }
      Record(CheckSend);
      Preempted();
    }

    /** The thread stores `stop` and drops the receiver. */
    method Return()
      requires Tied() && w.phase.Leaving?
      modifies this`now, this`stop, this`lastPing, this`queue, this`pinger, this`w, this`run
      ensures Tied() && stop && w.phase.Finished?
      ensures sent <= Flatten(w.offered)
      ensures forall x | x in w.dequeues :: x <= quiet + PING_TIMEOUT + QUOTE_RECV_TIMEOUT
    {
      hide Reaches, Flatten;
      Preempted();
      stop, queue := true, [];
      Record(Leave);
      RunConserves(start, run, Timed(now, w));
      CutOff(start, run, Timed(now, w), quiet);
    }

    /**
     The main loop. It ends, with `stop` set; what it sent is a prefix of what the hub offered; and it took no
     message later than the keep-alive allows.
     */
    method Run()
      requires Tied() && w.phase.LoopHead?
      modifies this
      ensures Tied() && stop && w.phase.Finished?
      ensures sent <= Flatten(w.offered)
      ensures forall x | x in w.dequeues :: x <= quiet + PING_TIMEOUT + QUOTE_RECV_TIMEOUT
    {
      hide Reaches, Flatten;
      Preempted();
      while !stop
        invariant Tied() && w.phase.LoopHead?
        decreases quiet + PING_TIMEOUT + 1 - now
      {
        Record(CheckStop);
        Preempted();
        var stale := now - lastPing > PING_TIMEOUT;
        Record(CheckStale);
        if stale {
          break;
        }
        var got := RecvTimeout(now + QUOTE_RECV_TIMEOUT);
        if got == [] {
          continue;
        }
        SendAll(got[0]);
      }
      if w.phase.LoopHead? {
        Record(CheckStop);
      }
      Return();
    }
  }
}
