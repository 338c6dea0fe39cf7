/**
The tasks of `src/server/websocket/pty_io.rs` that move terminal output: the reader, which
coalesces what it reads into bursts, and the subscriber, which turns bursts into WebSocket frames.
*/
module PtyIo {
  import opened Wrappers
  import opened Utf8
  import opened Broadcast
  import Protocol
  import Time
  import Session

  const MAX_BURST: nat := 256 * 1024
  const READ_SIZE: nat := 16 * 1024

  type Burst = Session.Burst

  // ----- Reader -----

  /**
  What the reader sees next: a nonempty read, nothing to read for now, or the end (end of file, a
  read error such as EIO, or an error while waiting for readability).
  */
  datatype Event = Chunk(data: seq<byte>) | WouldBlock | Ended

  type IoEvent = e: Event | e.Chunk? ==> 0 < |e.data| <= READ_SIZE witness WouldBlock

  /** The reader's state between two events: the burst in progress, and whether it has stopped. */
  datatype Reader = Reader(burst: Burst, stopped: bool)

  /** One event: the next state, and the burst to broadcast (empty for none). */
  function OnEvent(r: Reader, e: IoEvent): (Reader, Burst) {
    if r.stopped then (r, [])
    else
      match e
      case Chunk(data) =>
        var burst := r.burst + data;
        if |burst| >= MAX_BURST then (Reader([], false), burst) else (Reader(burst, false), [])
      case WouldBlock => (Reader([], false), r.burst)
      case Ended => (Reader([], true), r.burst)
  }

  function Emit(bursts: seq<Burst>, burst: Burst): seq<Burst> {
    if burst == [] then bursts else bursts + [burst]
  }

  /** The bursts a reader broadcasts for a list of events, and its state afterwards. */
  function ReadAll(events: seq<IoEvent>): (Reader, seq<Burst>) {
    if events == [] then (Reader([], false), [])
    else
      var (r, bursts) := ReadAll(events[..|events| - 1]);
      var (r', burst) := OnEvent(r, events[|events| - 1]);
      (r', Emit(bursts, burst))
  }

  /** The bytes read before the end. */
  function BytesRead(events: seq<IoEvent>): seq<byte> {
    if events == [] || events[0].Ended? then []
    else (if events[0].Chunk? then events[0].data else []) + BytesRead(events[1..])
  }

  predicate HasEnded(events: seq<IoEvent>) {
    exists i :: 0 <= i < |events| && events[i].Ended?
  }

  lemma {:induction false} BytesSnoc(events: seq<IoEvent>, e: IoEvent)
    ensures BytesRead(events + [e])
            == BytesRead(events) + if !HasEnded(events) && e.Chunk? then e.data else []
  {
    if events == [] {
      assert [] + [e] == [e] && [e][1..] == [];
    } else if events[0].Ended? {
      assert (events + [e])[0] == events[0];
    } else {
      var rest := events[1..];
      assert (events + [e])[0] == events[0] && (events + [e])[1..] == rest + [e];
      BytesSnoc(rest, e);
      EndedTail(events);
    }
  }

  lemma EndedTail(events: seq<IoEvent>)
    requires events != [] && !events[0].Ended?
    ensures HasEnded(events) <==> HasEnded(events[1..])
  {
    if HasEnded(events) {
      var i :| 0 <= i < |events| && events[i].Ended?;
      assert events[1..][i - 1].Ended?;
    }
    if HasEnded(events[1..]) {
      var i :| 0 <= i < |events[1..]| && events[1..][i].Ended?;
      assert events[i + 1].Ended?;
    }
  }

  lemma EndedSnoc(events: seq<IoEvent>, e: IoEvent)
    ensures HasEnded(events + [e]) <==> HasEnded(events) || e.Ended?
  {
    var more := events + [e];
    assert more[|events|] == e;
    if HasEnded(events) {
      var i :| 0 <= i < |events| && events[i].Ended?;
      assert more[i].Ended?;
    }
  }

  predicate BurstSized(burst: Burst) {
    0 < |burst| < MAX_BURST + READ_SIZE
  }

  lemma {:induction false} FlattenSnoc(bursts: seq<Burst>, burst: Burst)
    ensures Flatten(bursts + [burst]) == Flatten(bursts) + burst
  {
    if bursts == [] {
      assert [] + [burst] == [burst] && [burst][1..] == [];
    } else {
      assert (bursts + [burst])[1..] == bursts[1..] + [burst];
      FlattenSnoc(bursts[1..], burst);
    }
  }

  lemma FlattenEmit(bursts: seq<Burst>, burst: Burst)
    ensures Flatten(Emit(bursts, burst)) == Flatten(bursts) + burst
  {
    FlattenSnoc(bursts, burst);
  }

  /** No byte is lost, duplicated or reordered by coalescing, and every burst is nonempty and bounded. */
  lemma {:induction false} BurstsConserveBytes(events: seq<IoEvent>)
    ensures var (r, bursts) := ReadAll(events);
            && Flatten(bursts) + r.burst == BytesRead(events)
            && (forall b | b in bursts :: BurstSized(b) && 0 < |b| < 262_144 + 16_384)
            && |r.burst| < MAX_BURST == 262_144
            && (r.stopped <==> HasEnded(events))
            && (r.stopped ==> r.burst == [])
  {
    if events != [] {
      var (before, e) := (events[..|events| - 1], events[|events| - 1]);
      assert events == before + [e];
      BurstsConserveBytes(before);
      BytesSnoc(before, e);
      EndedSnoc(before, e);
      var (r, bursts) := ReadAll(before);
      FlattenEmit(bursts, OnEvent(r, e).1);
      Regroup(Flatten(bursts), r.burst, if e.Chunk? then e.data else []);
    }
  }

  lemma Regroup(a: seq<byte>, b: seq<byte>, c: seq<byte>)
    ensures (a + b) + c == a + (b + c)
  {
  }

  /** Whenever a read would block, and at the end, everything read was broadcast: nothing is held back. */
  lemma NothingHeldBack(events: seq<IoEvent>)
    requires events == [] || !events[|events| - 1].Chunk?
    ensures Flatten(ReadAll(events).1) == BytesRead(events)
  {
    BurstsConserveBytes(events);
  }

  /**
  A burst goes on as long as there is something to read: an event adds one burst at most, and a read adds one only if
  the
  burst has reached its limit.
  */
  lemma ReadsAreCoalesced(events: seq<IoEvent>)
    requires events != []
    ensures var (before, bursts) := (ReadAll(events[..|events| - 1]).1, ReadAll(events).1);
            || bursts == before
            || (|bursts| == |before| + 1 && bursts[..|before|] == before
                && (events[|events| - 1].Chunk? ==> |bursts[|before|]| >= MAX_BURST))
  {
    var (before, e) := (events[..|events| - 1], events[|events| - 1]);
    var (r, bursts) := ReadAll(before);
    var (r', burst) := OnEvent(r, e);
    assert ReadAll(events) == (r', Emit(bursts, burst));
  }

  /**
  The reader task. `events` is what it sees up to the moment it is aborted or the list is
  exhausted; bursts go to the session, whose sender is dropped when the reader stops.
  */
  method RunPtyReader(session: Session.Session, events: seq<IoEvent>) returns (stopped: bool)
    modifies session`output
    ensures var (r, bursts) := ReadAll(events);
            && stopped == r.stopped
            && session.output.log == old(session.output.log) + (if old(session.output.open) then bursts else [])
            && session.output.open == (old(session.output.open) && !stopped)
    ensures stopped <==> HasEnded(events)
    ensures old(session.output.open) && (events == [] || !events[|events| - 1].Chunk?) ==>
              Flatten(session.output.log) == Flatten(old(session.output.log)) + BytesRead(events)
  {
    var i := 0;
    stopped := false;
    ghost var start := session.output;
    ghost var pending: Burst := [];
    while !stopped && i < |events|
      invariant 0 <= i <= |events|
      invariant ReadAll(events[..i]).0 == Reader(pending, stopped)
      invariant pending != [] ==> i == |events|
      invariant session.output.open == start.open
      invariant session.output.log == start.log + (if start.open then ReadAll(events[..i]).1 else [])
      decreases |events| - i
    {
      var burst: Burst := [];
      var terminated, drained := false, false;
      ghost var first, sent := i, ReadAll(events[..i]).1;
      while !drained && i < |events|
        invariant first <= i <= |events| && (drained ==> first < i)
        invariant terminated ==> drained
        invariant !drained ==> ReadAll(events[..i]) == (Reader(burst, false), sent)
        invariant drained ==> ReadAll(events[..i]) == (Reader([], terminated), Emit(sent, burst))
        decreases |events| - i, !drained
      {
        assert events[..i + 1][..i] == events[..i];
        match events[i] {
          case Ended =>
            terminated, drained := true, true;
          case Chunk(data) =>
            burst := burst + data;
            drained := |burst| >= MAX_BURST;
          case WouldBlock =>
            drained := true;
        }
        i := i + 1;
      }
      if drained {
        if burst != [] {
          session.BroadcastOutput(burst);
        }
      } else {
        pending := burst;
      }
      stopped := terminated;
    }
    if stopped {
      session.MarkPtyExited();
    }
    StoppedStays(events, i);
    ReaderOutcome(start.log, events);
  }

  lemma ReaderOutcome(log: seq<Burst>, events: seq<IoEvent>)
    ensures ReadAll(events).0.stopped <==> HasEnded(events)
    ensures events == [] || !events[|events| - 1].Chunk? ==>
              Flatten(log + ReadAll(events).1) == Flatten(log) + BytesRead(events)
  {
    BurstsConserveBytes(events);
    FlattenAppend(log, ReadAll(events).1);
  }

  lemma {:induction false} FlattenAppend(a: seq<Burst>, b: seq<Burst>)
    ensures Flatten(a + b) == Flatten(a) + Flatten(b)
  {
    if a == [] {
      assert a + b == b;
    } else {
      FlattenAppend(a[1..], b);
      assert (a + b)[0] == a[0] && (a + b)[1..] == a[1..] + b;
      Regroup(a[0], Flatten(a[1..]), Flatten(b));
    }
  }

  lemma {:induction false} StoppedStays(events: seq<IoEvent>, i: nat)
    requires i <= |events| && (ReadAll(events[..i]).0.stopped || i == |events|)
    ensures ReadAll(events) == ReadAll(events[..i])
    decreases |events|
  {
    if i < |events| {
      var before := events[..|events| - 1];
      assert before[..i] == events[..i];
      StoppedStays(before, i);
    } else {
      assert events[..i] == events;
    }
  }

  // ----- Subscriber -----

  const LAG_NOTIFY_COOLDOWN: nat := 1_000_000_000

  datatype Frame = Output(json: string) | LagError(missed: nat) | Disconnect(reason: string)

  /** A subscriber task: the time of its last lag notice, and whether its loop is still running. */
  datatype Subscriber = Subscriber(lastLagNotify: Option<int>, running: bool)

  function ShouldNotify(s: Subscriber, now: int): bool {
    s.lastLagNotify.None? || Time.Since(now, s.lastLagNotify.value) >= LAG_NOTIFY_COOLDOWN
  }

  /** One round of the loop: the next state, and the frame that reached the client, if any. */
  function Forward(s: Subscriber, r: Received<Burst>, sendOk: bool, now: int): (Subscriber, Option<Frame>) {
    if !s.running then (s, None)
    else
      match r
      case Pending => (s, None)
      case Message(data) =>
        if sendOk then (s, Some(Output(OutputJson(data)))) else (s.(running := false), None)
      case Lagged(missed) =>
        if !ShouldNotify(s, now) then (s, None)
        else if sendOk then (s.(lastLagNotify := Some(now)), Some(LagError(missed)))
        else (Subscriber(Some(now), false), None)
      case Closed =>
        (s.(running := false), if sendOk then Some(Disconnect("Shell exited")) else None)
  }

  datatype Round = Round(result: Received<Burst>, sendOk: bool, now: int)

  function AfterRounds(rounds: seq<Round>): Subscriber {
    if rounds == [] then Subscriber(None, true)
    else
      var last := rounds[|rounds| - 1];
      Forward(AfterRounds(rounds[..|rounds| - 1]), last.result, last.sendOk, last.now).0
  }

  /** When lag notices reached the client. */
  function Notices(rounds: seq<Round>): seq<int> {
    if rounds == [] then []
    else
      var (before, last) := (rounds[..|rounds| - 1], rounds[|rounds| - 1]);
      Notices(before) + if Tells(AfterRounds(before), last) then [last.now] else []
  }

  /** No result of the rounds ended the loop: no end of the channel, no frame that could not be sent. */
  predicate KeepsRunning(rounds: seq<Round>) {
    forall k | 0 <= k < |rounds| :: !rounds[k].result.Closed? && rounds[k].sendOk
  }

  lemma {:induction false} LastNoticeIsKept(rounds: seq<Round>)
    requires KeepsRunning(rounds)
    ensures AfterRounds(rounds).running
    ensures var notices := Notices(rounds);
            AfterRounds(rounds).lastLagNotify == if notices == [] then None else Some(notices[|notices| - 1])
  {
    if rounds != [] {
      LastNoticeIsKept(rounds[..|rounds| - 1]);
    }
  }

  /** Whether a lag notice reaches the client in this round. */
  predicate Tells(s: Subscriber, r: Round) {
    var frame := Forward(s, r.result, r.sendOk, r.now).1;
    frame.Some? && frame.value.LagError?
  }

  lemma TellsExactly(s: Subscriber, r: Round)
    requires s.running && r.sendOk
    ensures Tells(s, r) <==>
            r.result.Lagged? && (s.lastLagNotify.None? || s.lastLagNotify.value + 1_000_000_000 <= r.now)
  {
  }

  /** As long as nothing ends the loop,
    a client that lags is told so exactly if it was not told within the last second. */
  lemma LagIsTold(rounds: seq<Round>)
    requires KeepsRunning(rounds) && rounds != []
    ensures var (before, last) := (Notices(rounds[..|rounds| - 1]), rounds[|rounds| - 1]);
            Notices(rounds) ==
            if last.result.Lagged? && (before == [] || before[|before| - 1] + 1_000_000_000 <= last.now)
            then before + [last.now] else before
  {
    var (before, last) := (rounds[..|rounds| - 1], rounds[|rounds| - 1]);
    LastNoticeIsKept(before);
    TellsExactly(AfterRounds(before), last);
  }

  /** So it is never told twice within a second. */
  lemma {:induction false} NoticesAreSpaced(rounds: seq<Round>, i: nat)
    requires KeepsRunning(rounds) && i + 1 < |Notices(rounds)|
    ensures Notices(rounds)[i] + 1_000_000_000 <= Notices(rounds)[i + 1]
  {
    LagIsTold(rounds);
    var before := rounds[..|rounds| - 1];
    if i + 1 < |Notices(before)| {
      NoticesAreSpaced(before, i);
    }
  }

  /** The JSON text that `Protocol.OutputJson` builds. */
  function OutputJson(data: Burst): string {
    Protocol.PREFIX + Protocol.Escape(Decode(data)) + Protocol.SUFFIX
  }

  class OutputSubscriber {
    var lastLagNotify: Option<int>
    var running: bool
    /** The frames that reached the client. */
    var frames: seq<Frame>

    function State(): Subscriber
      reads this
    {
      Subscriber(lastLagNotify, running)
    }

    constructor ()
      ensures State() == Subscriber(None, true) && frames == []
    {
      lastLagNotify, running, frames := None, true, [];
    }

    /** What the loop does with one result of `recv`; `sendOk` says whether the socket accepts a frame. */
    method OnReceive(r: Received<Burst>, sendOk: bool, now: int)
      requires running
      modifies this
      ensures var (s', frame) := Forward(old(State()), r, sendOk, now);
              State() == s' && frames == old(frames) + if frame.Some? then [frame.value] else []
      ensures match r
              case Pending => running && lastLagNotify == old(lastLagNotify) && frames == old(frames)
              case Message(data) =>
                && running == sendOk && lastLagNotify == old(lastLagNotify)
                && frames == old(frames) + if sendOk then [Output(OutputJson(data))] else []
              case Lagged(missed) =>
                if old(lastLagNotify).Some? && now < old(lastLagNotify).value + 1_000_000_000
                then running && lastLagNotify == old(lastLagNotify) && frames == old(frames)
                else && running == sendOk && lastLagNotify == Some(now)
                     && frames == old(frames) + if sendOk then [LagError(missed)] else []
              case Closed =>
                && !running && lastLagNotify == old(lastLagNotify)
                && frames == old(frames) + if sendOk then [Disconnect("Shell exited")] else []
    {
      match r
      case Pending =>
      case Message(data) =>
        var json := Protocol.OutputJson(data);
        if sendOk {
          frames := frames + [Output(json)];
        } else {
          running := false;
        }
      case Lagged(missed) =>
        var shouldNotify := lastLagNotify.None?
          || Time.Since(now, lastLagNotify.value) >= LAG_NOTIFY_COOLDOWN;
        if shouldNotify {
          lastLagNotify := Some(now);
          if sendOk {
            frames := frames + [LagError(missed)];
          } else {
            running := false;
          }
        }
      case Closed =>
        if sendOk {
          frames := frames + [Disconnect("Shell exited")];
        }
        running := false;
    }
  }
}
