/** The client's ping loop (`spawn_udp_ping_loop`): it sleeps, looks at the flag and the address cell, and pings. */
module Pinger {
  import opened Options
  import opened Address
  import opened KeepAlive
  import opened ClientSystem

  lemma MayWake(s: Link, lost: bool, b: Bounds, server: Addr)
    requires s.wake.Some? && (lost ==> s.lossRun < b.losses)
    ensures CanAct(s, Wake(lost), b, server)
  {
  }

  /** From each time to the next it is at least `low` and at most `high`. */
  ghost predicate Gaps(times: seq<nat>, low: nat, high: nat) {
    forall j, k | 0 <= j < k < |times| && k == j + 1 :: times[j] + low <= times[k] <= times[j] + high
  }

  lemma GapsSnoc(times: seq<nat>, t: nat, low: nat, high: nat)
    requires Gaps(times, low, high)
    requires times != [] ==> times[|times| - 1] + low <= t <= times[|times| - 1] + high
    ensures Gaps(times + [t], low, high)
  {
  }

  class PingLoop {
    const shared: Shared
    var sent: seq<nat>        // when PINGs were sent; `shared.link.targets` is where to
    var naps: nat             // sleeps completed with the flag clear
    var addressed: nat        // of these, the ones after which the cell held an address
    var cut: bool             // a sleep was not completed
    const interval: nat
    const slack: nat          // how much longer it may be from one wake-up to the next
    const end: nat            // the flag is set by then

    /** The longest time from the start, or from a PING, to the next wake-up. */
    ghost function Period(): nat {
      interval + slack
    }

    /** When the last PING was sent or, before the first one, when the cell was filled. */
    ghost function LastSign(): nat
      reads this`sent, shared`since
    {
      if sent == [] then shared.since else sent[|sent| - 1]
    }

    /** No PING without an address, all to that address, and never two of them too close or too far apart. */
    ghost predicate Paced()
      reads this, shared
    {
      && |shared.link.targets| == |sent|
      && (shared.link.cell.None? ==> sent == [])
      && (forall x | x in shared.link.targets :: shared.link.cell == Some(x))
      && (shared.link.cell.Some? ==> shared.since <= LastSign() <= shared.link.now)
      && (sent != [] ==> shared.since <= sent[0] <= shared.since + Period())
      && Gaps(sent, interval, Period())
    }

    /** The loop runs, and its next wake-up is due in time. */
    ghost predicate Valid()
      reads this, shared
    {
      && shared.Tied() && Paced() && interval > 0 && shared.b.period == Period()
      && shared.link.wake.Some? && shared.link.wake.value <= shared.link.now + Period()
      && (shared.link.cell.Some? ==> shared.link.wake.value <= LastSign() + Period())
    }

    /** Spawns the thread: it starts, and first wakes up, within a period. */
    constructor (shared: Shared, interval: nat, slack: nat, end: nat)
      requires shared.Tied() && shared.link.wake.None? && shared.link.targets == []
      requires interval > 0 && shared.b.period == interval + slack
      modifies shared
      ensures Valid() && sent == [] && this.shared == shared && this.interval == interval && this.end == end
      ensures naps == addressed == 0 && !cut
    {
      hide Reaches;
      this.shared, this.interval, this.slack, this.end, sent := shared, interval, slack, end, [];
      naps, addressed, cut := 0, 0, false;
      new;
      shared.Step(StartClient);
    }

    /** The thread is preempted, and everyone else goes on. */
    method Preempted()
      requires Valid()
      modifies shared
      ensures Valid() && shared.link.wake == old(shared.link).wake && (old(shared.stop) ==> shared.stop)
      ensures shared.link.now >= old(shared.link).now && shared.link.targets == old(shared.link).targets
      ensures var was := old(shared.link).cell;
        was.Some? ==> shared.link.cell == was && shared.since == old(shared.since)
    {
      shared.OthersThanPinger(shared.link.wake.value);
    }

    /** Sleeps for the interval or longer; `woke` is false if the observation ends before that. */
    method Sleep() returns (woke: bool)
      requires Valid()
      modifies shared, this`naps, this`addressed, this`cut
      ensures Valid() && (old(shared.stop) ==> shared.stop)
      ensures woke <==> old(shared.link).now + interval <= shared.link.now
      ensures shared.link.now >= end ==> shared.stop
      ensures cut == (old(cut) || !woke)
      ensures naps == old(naps) + if woke && !shared.stop then 1 else 0
      ensures addressed == old(addressed) + if woke && !shared.stop && shared.link.cell.Some? then 1 else 0
    {
      hide Reaches, Gaps;
      var due := shared.link.now + interval;
      Preempted();
      woke := shared.link.now >= due;
      shared.stop := shared.stop || shared.link.now >= end;
      cut := cut || !woke;
      if woke && !shared.stop {
        naps := naps + 1;
        addressed := addressed + if shared.link.cell.Some? then 1 else 0;
      }
    }

    /**
     Reads the cell and, if it holds an address, sends a PING there, which the network may lose. The thread may be
     preempted before, between and after.
     */
    method Ping()
      requires Valid() && (sent != [] ==> LastSign() + interval <= shared.link.now)
      modifies shared, this`sent
      ensures Valid() && shared.link.now >= old(shared.link).now && (old(shared.stop) ==> shared.stop)
      ensures old(sent) <= sent && |sent| <= |old(sent)| + 1
      ensures old(shared.link).cell.Some? ==> |sent| == |old(sent)| + 1
    {
      Preempted();
      var target := shared.link.cell;
      if target.None? {
        Wakes(false);
        return;
      }
      Preempted();
      var lost: bool := *;
      Wakes(lost && shared.link.lossRun < shared.b.losses);
    }

    /** The step of the keep-alive system: a PING to the address in the cell, if any, and the next sleep begins. */
    method Wakes(lost: bool)
      requires Valid() && (lost ==> shared.link.lossRun < shared.b.losses)
      requires sent != [] ==> LastSign() + interval <= shared.link.now
      modifies shared, this`sent
      ensures Valid() && shared.link.cell == old(shared.link).cell && shared.link.now == old(shared.link).now
      ensures shared.stop == old(shared.stop)
      ensures sent == if shared.link.cell.Some? then old(sent) + [shared.link.now] else old(sent)
    {
      hide Reaches, Act, CanAct, Gaps;
      if shared.link.cell.Some? {
        GapsSnoc(sent, shared.link.now, interval, Period());
      }
      MayWake(shared.link, lost, shared.b, shared.server);
      WakeEffect(shared.link, lost, shared.b, shared.server);
      shared.Step(Wake(lost));
      if shared.link.cell.Some? {
        sent := sent + [shared.link.now];
      }
    }

    /**
     Runs until the flag is set or the observation ends, whatever the cell holds when it starts. A sleep completed
     with the flag clear and an address in the cell is followed by a PING, and no PING goes without a sleep. Every
     PING goes to the address in the cell; from the moment there is one no period passes without a PING; and every
     execution is a run of the keep-alive system.
     */
    method Run() returns (ended: bool)
      requires Valid() && sent == [] && naps == addressed == 0 && !cut
      modifies shared, this`sent, this`naps, this`addressed, this`cut
      ensures Valid() && (if ended then shared.stop && !cut else cut)
      ensures addressed <= |sent| <= naps
      ensures shared.link.cell.Some? ==> shared.link.now <= LastSign() + Period()
      ensures Tolerated(shared.b) && FirstFromServer(shared.link, shared.server) ==> !Dropped(shared.link)
    {
      hide Reaches, Act, CanAct, Tolerated, FirstFromServer, Dropped;
      ended := true;
      Preempted();
      while !shared.stop
        invariant Valid() && addressed <= |sent| <= naps && ended && !cut
        decreases end - shared.link.now
      {
        var woke := Sleep();
        if !woke {
          ended := false;
          break;
        }
        if shared.stop {
          break;
        }
        Ping();
        Preempted();
      }
      if Tolerated(shared.b) && FirstFromServer(shared.link, shared.server) {
        shared.Safe();
      }
    }
  }

  /** The k-th PING is sent no earlier than k intervals after the address was known, and no later than k + 1 periods. */
  lemma {:induction false} PingTimes(l: PingLoop, k: nat)
    requires l.Valid() && k < |l.sent|
    ensures l.shared.since + k * l.interval <= l.sent[k] <= l.shared.since + (k + 1) * l.Period()
  {
    hide Reaches;
    if k > 0 {
      PingTimes(l, k - 1);
      assert l.sent[k - 1] + l.interval <= l.sent[k] <= l.sent[k - 1] + l.Period();
      OneMore(k - 1, l.interval);
      OneMore(k, l.Period());
    }
  }

  lemma OneMore(k: nat, d: nat)
    ensures (k + 1) * d == k * d + d
  {
  }
}
