/**
 What the client's two threads share, with the network and the worker at the other end. Each step of a thread, and
 each step of the others in between, is one action of the keep-alive system, so every execution is one of its runs.
 */
module ClientSystem {
  import opened Address
  import opened KeepAlive

  class Shared {
    var link: Link
    var stop: bool
    const b: Bounds
    const server: Addr
    const start: nat
    ghost var since: nat          // when the address cell was filled
    ghost var run: seq<Action>

    ghost predicate Tied()
      reads this
    {
      && Reaches(Init(start), run, link, b, server)
      && (if link.wake.Some? then link.now <= link.wake.value else link.cell.None?)
      && (link.cell.Some? ==> since <= link.now)
    }

    constructor (start: nat, b: Bounds, server: Addr)
      ensures Tied() && !stop && link == Init(start) && this.b == b && this.server == server
    {
      link, stop, this.b, this.server, this.start := Init(start), false, b, server, start;
      since, run := start, [];
    }

    method Step(a: Action)
      requires Tied() && CanAct(link, a, b, server)
      modifies this`link, this`since, this`run
      ensures Tied() && link == Act(old(link), a, b, server)
      ensures since == if old(link).cell.None? && link.cell.Some? then link.now else old(since)
    {
      hide Reaches;
      ReachesOne(link, a, b, server);
      ReachesTrans(Init(start), run, link, [a], Act(link, a, b, server), b, server);
      run := run + [a];
      since := if link.cell.None? && Act(link, a, b, server).cell.Some? then link.now else since;
      link := Act(link, a, b, server);
    }

    /** Any number of steps of everyone but the ping thread, up to a time. */
    method OthersThanPinger(latest: nat)
      requires Tied() && link.now <= latest
      modifies this`link, this`stop, this`since, this`run
      ensures Tied() && old(link).now <= link.now <= latest && link.wake == old(link).wake && (old(stop) ==> stop)
      ensures link.targets == old(link).targets
      ensures if old(link).cell.Some? then link.cell == old(link).cell && since == old(since)
              else link.cell.Some? ==> old(link).now <= since
    {
      hide Reaches;
      var steps: nat :| true;
      while steps > 0
        invariant Tied() && old(link).now <= link.now <= latest && link.wake == old(link).wake && (old(stop) ==> stop)
        invariant link.targets == old(link).targets
        invariant if old(link).cell.Some? then link.cell == old(link).cell && since == old(since)
                  else link.cell.Some? ==> old(link).now <= since
      {
        var a: Action, told: bool :| true;
        stop := stop || told;
        if !a.Wake? && !a.StartClient? && CanAct(link, a, b, server) && (a.Elapse? ==> link.now + a.d <= latest) {
          Step(a);
        }
        steps := steps - 1;
      }
    }

    /** Any number of steps of everyone but the receive loop. */
    method OthersThanReceiver()
      requires Tied() && link.wake.Some?
      modifies this`link, this`stop, this`since, this`run
      ensures Tied() && link.wake.Some? && (old(stop) ==> stop)
      ensures link.cell == old(link).cell && link.sources == old(link).sources
    {
      hide Reaches;
      var steps: nat :| true;
      while steps > 0
        invariant Tied() && link.wake.Some? && (old(stop) ==> stop)
        invariant link.cell == old(link).cell && link.sources == old(link).sources
      {
        var a: Action, told: bool :| true;
        stop := stop || told;
        if !a.QuoteArrives? && !a.StartClient? && CanAct(link, a, b, server) {
          Step(a);
        }
        steps := steps - 1;
      }
    }

    /** Within the bound, no execution drops a client whose first quote came from the worker. */
    lemma Safe()
      requires Tied() && Tolerated(b) && FirstFromServer(link, server)
      ensures !Dropped(link)
    {
      NeverDropped(start, run, link, b, server);
    }
  }
}
