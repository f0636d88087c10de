/**
 The body of the worker's ping thread, statement by statement: it waits for a datagram, and a PING sets the keep-alive
 cell and is answered. The main loop, the hub and whoever else holds the stop flag act in between, by events of the
 step system.
 */
module PingThread {
  import opened Text
  import opened Address
  import opened Net
  import opened Workers

  /** Who is answered: the source of a datagram whose trimmed text is PING in any letter case. */
  function Answered(r: Received): seq<Addr> {
    if r.Datagram? && Mix(Trim(r.text), "PING", "ping") then [r.src] else []
  }

  function AllAnswered(received: seq<Received>): seq<Addr> {
    if received == [] then []
    else AllAnswered(received[..|received| - 1]) + Answered(received[|received| - 1])
  }

  lemma AnsweredSnoc(received: seq<Received>, r: Received)
    ensures AllAnswered(received + [r]) == AllAnswered(received) + Answered(r)
  {
    assert (received + [r])[..|received|] == received;
  }

  class PingLoop {
    var s: Timed
    var pongs: seq<Addr>      // where PONGs were sent
    const start: nat
    ghost var run: seq<Move>

    ghost predicate Tied()
      reads this
    {
      Reaches(Timed(start, Fresh(start)), run, s)
    }

    constructor (now: nat)
      ensures Tied() && s == Timed(now, Fresh(now)) && pongs == []
    {
      s, pongs, start, run := Timed(now, Fresh(now)), [], now, [];
    }

    method Step(m: Move)
      requires Tied() && CanMove(s, m)
      modifies this`s, this`run
      ensures Tied() && s == After(old(s), m)
    {
      hide Reaches, CanMove, After;
      ReachesSnoc(Timed(start, Fresh(start)), run, s, m);
      s, run := After(s, m), run + [m];
    }

    /** The steps that are not this thread's. */
    static predicate Foreign(m: Move) {
      m.Tick? || !(m.e.PingCheck? || m.e.PingDatagram? || m.e.PingTimedOut? || m.e.PingFailed? || m.e.Start?)
    }

    /** Any number of such steps. */
    method Others()
      requires Tied()
      modifies this`s, this`run
      ensures Tied() && s.w.pinger == old(s).w.pinger && s.w.pings == old(s).w.pings
      ensures s.w.lastPing == old(s).w.lastPing && s.now >= old(s).now && (old(s).w.stop ==> s.w.stop)
    {
      hide Reaches;
      var steps: nat :| true;
      while steps > 0
        invariant Tied() && s.w.pinger == old(s).w.pinger && s.w.pings == old(s).w.pings
        invariant s.w.lastPing == old(s).w.lastPing && s.now >= old(s).now && (old(s).w.stop ==> s.w.stop)
      {
        var m: Move :| true;
        if Foreign(m) && CanMove(s, m) {
          ForeignKeeps(s, m);
          Step(m);
        }
        steps := steps - 1;
      }
    }

    static lemma ForeignKeeps(s: Timed, m: Move)
      requires CanMove(s, m) && Foreign(m)
      ensures var t := After(s, m);
        && t.w.pinger == s.w.pinger && t.w.pings == s.w.pings && t.w.lastPing == s.w.lastPing
        && t.now >= s.now && (s.w.stop ==> t.w.stop)
    {
      hide IsPing;
    }

    /** The PINGs among these, and nothing else, were noted in the keep-alive cell and answered since then. */
    ghost predicate Listened(was: Worker, before: seq<Addr>, received: seq<Received>)
      reads this
    {
      var answered := AllAnswered(received);
      && pongs == before + answered
      && was.pings <= s.w.pings && |s.w.pings| == |was.pings| + |answered|
      && s.w.lastPing == if answered == [] then was.lastPing else s.w.pings[|s.w.pings| - 1]
    }

    /**
     Listens for so many datagrams and timeouts, until it sees the flag or the socket fails. Every PING received,
     and nothing else, is noted with its time in the keep-alive cell and answered to where it came from.
     */
    method Run(turns: nat) returns (ended: bool, ghost received: seq<Received>)
      requires Tied() && s.w.pinger.PingHead?
      modifies this
      ensures Tied() && s.w.pinger == if ended then PingGone else PingHead
      ensures if ended then s.w.stop || (received != [] && received[|received| - 1].Failed?) else |received| == turns
      ensures Listened(old(s).w, old(pongs), received)
    {
      NothingYet();
      hide Reaches, Listened;
      received, ended := [], false;
      var turn := 0;
      while turn < turns && !ended
        invariant Tied() && s.w.pinger == if ended then PingGone else PingHead
        invariant if ended then s.w.stop || (received != [] && received[|received| - 1].Failed?)
                  else |received| == turn <= turns
        invariant Listened(old(s).w, old(pongs), received)
        decreases turns - turn
      {
        var listens, r := Turn(old(s).w, old(pongs), received);
        if listens {
          ended := r.Failed?;
          received := received + [r];
        } else {
          ended := true;
        }
        turn := turn + 1;
      }
    }

    lemma NothingYet()
      ensures Listened(s.w, pongs, [])
    {
    }

    /** One turn of the loop: the flag is loaded and, if it is clear, something is received. */
    method Turn(ghost was: Worker, ghost before: seq<Addr>, ghost received: seq<Received>)
      returns (listens: bool, r: Received)
      requires Tied() && s.w.pinger.PingHead? && Listened(was, before, received)
      modifies this
      ensures Tied() && (!listens ==> s.w.stop)
      ensures s.w.pinger == if listens && !r.Failed? then PingHead else PingGone
      ensures Listened(was, before, if listens then received + [r] else received)
    {
      hide Reaches, Answered, AllAnswered;
      Others();
      listens := Check();
      r := TimedOut;
      if listens {
        Others();
        r :| true;
        Receive(r);
        AnsweredSnoc(received, r);
        AtMostOne(r);
      }
    }

    static lemma AtMostOne(r: Received)
      ensures |Answered(r)| <= 1
    {
    }

    /** Loads the flag. */
    method Check() returns (listens: bool)
      requires Tied() && s.w.pinger.PingHead?
      modifies this`s, this`run
      ensures Tied() && listens == !old(s).w.stop && s.w.stop == old(s).w.stop
      ensures s.w.pinger == if listens then PingReceiving else PingGone
      ensures s.w.pings == old(s).w.pings && s.w.lastPing == old(s).w.lastPing
    {
      hide Reaches;
      listens := !s.w.stop;
      Step(Do(PingCheck));
    }

    /** What `recv_from` brings: a PING sets the cell to now and is answered, anything else but an error is ignored. */
    method Receive(r: Received)
      requires Tied() && s.w.pinger.PingReceiving?
      modifies this`s, this`run, this`pongs
      ensures Tied() && s.w.stop == old(s).w.stop && s.now == old(s).now
      ensures s.w.pinger == if r.Failed? then PingGone else PingHead
      ensures pongs == old(pongs) + Answered(r)
      ensures if Answered(r) == [] then s.w.pings == old(s).w.pings && s.w.lastPing == old(s).w.lastPing
              else s.w.pings == old(s).w.pings + [s.now] && s.w.lastPing == s.now
    {
      hide Reaches, IsPing, Mix;
      match r {
        case Datagram(text, src) =>
          DatagramEffect(s.w, text, s.now);
          Step(Do(PingDatagram(text)));
          if Mix(Trim(text), "PING", "ping") {
            pongs := pongs + [src];
          }
        case NotText =>
          Step(Do(PingTimedOut));
        case TimedOut =>
          Step(Do(PingTimedOut));
        case Failed =>
          Step(Do(PingFailed));
      }
    }
  }
}
