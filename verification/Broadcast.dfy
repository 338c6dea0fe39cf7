/**
The bounded broadcast channel that carries terminal output from a session's reader to its
subscribers, as a log of everything sent with one position per receiver. Only the newest
`CAPACITY` messages can still be received.
*/
module Broadcast {
  import opened Wrappers

  const CAPACITY: nat := 256

  datatype Channel<T> = Channel(log: seq<T>, open: bool)

  datatype Received<T> = Message(data: T) | Lagged(missed: nat) | Closed | Pending

  /** A send after the sender was dropped is a no-op. */
  function Send<T>(ch: Channel<T>, data: T): Channel<T> {
    if ch.open then ch.(log := ch.log + [data]) else ch
  }

  function Close<T>(ch: Channel<T>): Channel<T> {
    ch.(open := false)
  }

  /** The position of the oldest message a receiver can still get. */
  function Oldest<T>(ch: Channel<T>): (p: nat)
    ensures p <= |ch.log|
  {
    if |ch.log| <= CAPACITY then 0 else |ch.log| - CAPACITY
  }

  /** One `recv` at position `next`: the result and the new position. */
  function Receive<T>(ch: Channel<T>, next: nat): (Received<T>, nat)
    requires next <= |ch.log|
  {
    if next < Oldest(ch) then (Lagged(Oldest(ch) - next), Oldest(ch))
    else if next < |ch.log| then (Message(ch.log[next]), next + 1)
    else (if ch.open then Pending else Closed, next)
  }

  /** The position at which a new receiver starts; there is none once the sender is gone. */
  function Subscribe<T>(ch: Channel<T>): Option<nat> {
    if ch.open then Some(|ch.log|) else None
  }

  /** The messages that a receiver at `next` gets if it receives until nothing is left. */
  function Drained<T>(ch: Channel<T>, next: nat): seq<T>
    requires next <= |ch.log|
    decreases |ch.log| - next
  {
    match Receive(ch, next)
    case (Message(data), after) => [data] + Drained(ch, after)
    case (Lagged(_), after) => Drained(ch, after)
    case _ => []
  }

  function Newest<T>(messages: seq<T>): seq<T> {
    if |messages| <= CAPACITY then messages else messages[|messages| - CAPACITY..]
  }

  lemma {:induction false} DrainedIs<T>(ch: Channel<T>, next: nat)
    requires next <= |ch.log|
    ensures Drained(ch, next) == ch.log[if next < Oldest(ch) then Oldest(ch) else next..]
    decreases |ch.log| - next
  {
    if next < Oldest(ch) {
      DrainedIs(ch, Oldest(ch));
    } else if next < |ch.log| {
      DrainedIs(ch, next + 1);
    }
  }

  /** A new receiver gets exactly what is sent from then on, or the newest of it if it lags; nothing sent before. */
  lemma SubscriberGetsTheRest<T>(ch: Channel<T>, more: seq<T>, open: bool)
    requires Subscribe(ch).Some?
    ensures Drained(Channel(ch.log + more, open), Subscribe(ch).value) == Newest(more)
    ensures |more| <= 256 ==> Newest(more) == more
    ensures |more| > 256 ==> Newest(more) == more[|more| - 256..]
  {
    DrainedIs(Channel(ch.log + more, open), |ch.log|);
  }
}
