/**
The heartbeat of one connection: the monitor task of `src/server/websocket/pty_io.rs` pings the client at every tick
and ends when the client was silent for too long; the message loop notes when it last heard of the client.
*/
module Heartbeat {
  import opened Wrappers
  import opened Time

  /** A tick of the monitor, with its ping sent or not; or a pong frame or ping message from the client. */
  datatype Event = Tick(at: Instant, sent: bool) | Heard(at: Instant)

  /** When the client was last heard; the connection counts as a first sign of life. */
  function LastHeard(start: Instant, events: seq<Event>): Instant {
    if events == [] then start
    else if events[|events| - 1].Heard? then events[|events| - 1].at
    else LastHeard(start, events[..|events| - 1])
  }

  /**
  The monitor ends at this event: its ping could not be sent, or the client was silent for longer than the timeout.
  */
  predicate EndsAt(start: Instant, timeout: nat, events: seq<Event>, k: nat)
    requires k < |events|
  {
    events[k].Tick? && (!events[k].sent || Since(events[k].at, LastHeard(start, events[..k])) > timeout)
  }

  /** The connection's shared timestamp, as the two tasks use it. */
  class Connection {
    const timeout: nat
    var lastPingTime: Instant

    constructor (timeout: nat, now: Instant)
      ensures this.timeout == timeout && lastPingTime == now
    {
      this.timeout := timeout;
      lastPingTime := now;
    }

    /** The message loop, on a pong frame or a ping message. */
    method Refresh(now: Instant)
      modifies this
      ensures lastPingTime == now
    {
      lastPingTime := now;
    }

    /** The monitor, on a tick. */
    method Check(now: Instant, sent: bool) returns (alive: bool)
      ensures alive == (sent && Since(now, lastPingTime) <= timeout)
    {
      if !sent {
        return false;
      }
      alive := Since(now, lastPingTime) <= timeout;
    }
  }

  lemma EndsAtMeans(start: Instant, timeout: nat, events: seq<Event>, k: nat)
    requires k < |events|
    ensures EndsAt(start, timeout, events, k) <==>
            events[k].Tick? && (!events[k].sent || events[k].at > LastHeard(start, events[..k]) + timeout)
  {
  }

  /** The monitor ends at the first event at which it has to. */
  method RunMonitor(start: Instant, timeout: nat, events: seq<Event>) returns (end: Option<nat>)
    ensures match end
            case Some(k) =>
              && k < |events| && EndsAt(start, timeout, events, k)
              && forall j | 0 <= j < k :: !EndsAt(start, timeout, events, j)
            case None => forall j | 0 <= j < |events| :: !EndsAt(start, timeout, events, j)
    ensures end.Some? ==>
              var e := events[end.value];
              e.Tick? && (!e.sent || e.at > LastHeard(start, events[..end.value]) + timeout)
    ensures forall j | 0 <= j < (if end.Some? then end.value else |events|) && events[j].Tick? ::
              events[j].sent && events[j].at <= LastHeard(start, events[..j]) + timeout
  {
    var connection := new Connection(timeout, start);
    var k := 0;
    while k < |events|
      invariant 0 <= k <= |events| && connection.lastPingTime == LastHeard(start, events[..k])
      invariant forall j | 0 <= j < k :: !EndsAt(start, timeout, events, j)
      invariant forall j | 0 <= j < k && events[j].Tick? ::
                  events[j].sent && events[j].at <= LastHeard(start, events[..j]) + timeout
    {
      EndsAtMeans(start, timeout, events, k);
      assert events[..k + 1] == events[..k] + [events[k]];
      match events[k] {
        case Heard(at) => connection.Refresh(at);
        case Tick(at, sent) =>
          var alive := connection.Check(at, sent);
          if !alive {
            return Some(k);
          }
      }
      k := k + 1;
    }
    end := None;
  }

  // ----- Timing -----

  function Ticks(events: seq<Event>): nat {
    if events == [] then 0
    else Ticks(events[..|events| - 1]) + if events[|events| - 1].Tick? then 1 else 0
  }

  /** The k-th tick comes k intervals after the start; the immediate tick of the interval was consumed before. */
  predicate OnTime(start: Instant, interval: nat, events: seq<Event>, k: nat)
    requires k < |events|
  {
    events[k].Tick? ==> events[k].at == start + (Ticks(events[..k]) + 1) * interval
  }

  predicate InOrder(start: Instant, events: seq<Event>, j: nat, k: nat)
    requires k < |events|
  {
    start <= events[k].at && (j < k ==> events[j].at <= events[k].at)
  }

  ghost predicate Timed(start: Instant, interval: nat, events: seq<Event>) {
    && (forall k {:trigger OnTime(start, interval, events, k)} | 0 <= k < |events| ::
       OnTime(start, interval, events, k))
    && (forall j, k {:trigger InOrder(start, events, j, k)} | 0 <= j <= k < |events| :: InOrder(start, events, j, k))
  }

  /** The last sign of life is the start, or an event with nothing heard between it and now. */
  lemma {:induction false} LastHeardIs(start: Instant, events: seq<Event>, n: nat) returns (at: Option<nat>)
    requires n <= |events|
    ensures at.None? ==> LastHeard(start, events[..n]) == start && forall j | 0 <= j < n :: events[j].Tick?
    ensures at.Some? ==> at.value < n && events[at.value] == Heard(LastHeard(start, events[..n]))
                         && forall j | at.value < j < n :: events[j].Tick?
  {
    if n == 0 {
      at := None;
    } else {
      assert events[..n][..n - 1] == events[..n - 1];
      if events[n - 1].Heard? {
        at := Some(n - 1);
      } else {
        at := LastHeardIs(start, events, n - 1);
      }
    }
  }

  lemma {:induction false} TickNumber(events: seq<Event>, n: nat, number: nat) returns (k: nat)
    requires n <= |events| && 1 <= number <= Ticks(events[..n])
    ensures k < n && events[k].Tick? && Ticks(events[..k]) + 1 == number
  {
    assert events[..n][..n - 1] == events[..n - 1];
    if events[n - 1].Tick? && Ticks(events[..n]) == number {
      k := n - 1;
    } else {
      k := TickNumber(events, n - 1, number);
    }
  }

  lemma {:induction false} TicksGrow(events: seq<Event>, j: nat, k: nat)
    requires j <= k <= |events|
    ensures Ticks(events[..j]) <= Ticks(events[..k])
  {
    if j < k {
      assert events[..k][..k - 1] == events[..k - 1];
      TicksGrow(events, j, k - 1);
    }
  }

  /**
  A client that goes silent is declared dead at a tick after the timeout and no later than one interval after it:
  if the monitor ends at a tick whose ping was sent, the client was last heard in that window before the tick, and the
  monitor does not run past a tick at which the silence exceeds the timeout.
  */
  lemma DeathWindow(start: Instant, interval: nat, timeout: nat, events: seq<Event>, k: nat)
    requires Timed(start, interval, events) && k < |events| && events[k].Tick? && events[k].sent
    requires forall j | 0 <= j < k :: !EndsAt(start, timeout, events, j)
    ensures var last := LastHeard(start, events[..k]);
            && events[k].at <= last + timeout + interval
            && (EndsAt(start, timeout, events, k) <==> last + timeout < events[k].at)
  {
    var heard := LastHeardIs(start, events, k);
    assert OnTime(start, interval, events, k) && InOrder(start, events, k, k);
    var number := Ticks(events[..k]);
    if heard.Some? {
      assert InOrder(start, events, heard.value, heard.value) && InOrder(start, events, heard.value, k);
    }
    if number >= 1 {
      var j := TickNumber(events, k, number);
      assert OnTime(start, interval, events, j);
      assert events[k].at == events[j].at + interval by {
        assert (number + 1) * interval == number * interval + interval;
      }
      if heard.Some? && j < heard.value {
        assert InOrder(start, events, j, heard.value);
      } else {
        SilentSince(start, events, j, k, heard);
        assert !EndsAt(start, timeout, events, j);
      }
    } else {
      assert 1 * interval == interval;
    }
  }

  /** Nothing was heard between a tick and now. */
  lemma SilentSince(start: Instant, events: seq<Event>, j: nat, k: nat, heard: Option<nat>)
    requires j < k <= |events|
    requires heard.None? ==> LastHeard(start, events[..k]) == start && forall i | 0 <= i < k :: events[i].Tick?
    requires heard.Some? ==> heard.value < j && events[heard.value] == Heard(LastHeard(start, events[..k]))
                             && forall i | heard.value < i < k :: events[i].Tick?
    ensures LastHeard(start, events[..j]) == LastHeard(start, events[..k])
  {
    var earlier := LastHeardIs(start, events, j);
  }

  /** The ping of tick j is answered before tick k: the client is heard in between. */
  predicate AnsweredBefore(events: seq<Event>, j: nat, k: nat)
    requires j <= k <= |events|
  {
    exists i :: j < i < k && events[i].Heard?
  }

  /** Each ping is answered within `slack`. */
  predicate Answers(events: seq<Event>, slack: int) {
    forall j, k | 0 <= j < k < |events| && events[j].Tick? && events[k].Tick? && events[k].at > events[j].at + slack ::
      AnsweredBefore(events, j, k)
  }

  lemma HeardAfter(start: Instant, interval: nat, events: seq<Event>, i: nat, k: nat)
    requires Timed(start, interval, events) && i < k < |events| && events[i].Heard?
    ensures LastHeard(start, events[..k]) >= events[i].at
  {
    var heard := LastHeardIs(start, events, k);
    assert InOrder(start, events, i, heard.value);
  }

  /** The number of the ping whose answer the tick `number` needs: the first one within the timeout. */
  lemma DuePing(interval: nat, timeout: nat, number: nat) returns (due: int)
    requires 0 < interval <= timeout
    ensures due < number && number * interval - timeout <= due * interval < number * interval - timeout + interval
    ensures due < 1 ==> due * interval <= 0
  {
    var q := timeout / interval;
    due := number - q;
    assert q * interval <= timeout < q * interval + interval && q >= 1;
    assert due * interval == number * interval - q * interval;
  }

  lemma AnswerArrived(start: Instant, interval: nat, events: seq<Event>, due: nat, k: nat, slack: int)
    requires Timed(start, interval, events) && Answers(events, slack)
    requires k < |events| && events[k].Tick? && 1 <= due <= Ticks(events[..k])
             && events[k].at > start + due * interval + slack
    ensures LastHeard(start, events[..k]) >= start + due * interval
  {
    var j := TickNumber(events, k, due);
    assert OnTime(start, interval, events, j);
    assert AnsweredBefore(events, j, k);
    var i :| j < i < k && events[i].Heard?;
    assert InOrder(start, events, j, i);
    HeardAfter(start, interval, events, i, k);
  }

  /** A client that answers every ping within timeout - interval is never declared dead. */
  lemma AnsweringClientLives(start: Instant, interval: nat, timeout: nat, events: seq<Event>, k: nat)
    requires 0 < interval <= timeout && Timed(start, interval, events) && Answers(events, timeout - interval)
    requires k < |events| && events[k].Tick? && events[k].sent
    ensures !EndsAt(start, timeout, events, k)
  {
    var due := DuePing(interval, timeout, Ticks(events[..k]) + 1);
    assert OnTime(start, interval, events, k);
    if due < 1 {
      var heard := LastHeardIs(start, events, k);
      if heard.Some? {
        assert InOrder(start, events, heard.value, heard.value);
      }
    } else {
      AnswerArrived(start, interval, events, due, k, timeout - interval);
    }
  }
}
