/**
Terminal output end to end: one reader, the broadcast channel, any number of subscribers attached at
any time, in every interleaving of their steps.
*/
module OutputPipeline {
  import opened Wrappers
  import opened Utf8
  import opened Broadcast
  import opened PtyIo
  import Protocol

  type ClientId = nat

  /**
  A subscriber with its history: where it attached, its position, the positions it delivered, the
  counts of its `Lagged` results, how many messages a failed send lost, and the frames it sent.
  */
  datatype Sub = Sub(
    from: nat, next: nat, task: Subscriber,
    delivered: seq<nat>, lags: seq<nat>, lost: nat, frames: seq<Frame>)

  /** `closedEarly`: the sender was dropped before the reader had stopped. */
  datatype Pipe = Pipe(
    events: seq<IoEvent>, channel: Channel<Burst>, closedEarly: bool, subs: map<ClientId, Sub>)

  datatype Act =
    | Read(event: IoEvent)
    | ReaderExit
    | DropSender
    | Attach(id: ClientId, sendOk: bool)
    | Poll(id: ClientId, sendOk: bool, now: int)
    | AbortSub(id: ClientId)

  const INIT: Pipe := Pipe([], Channel([], true), false, map[])

  function CurrentReader(p: Pipe): Reader {
    ReadAll(p.events).0
  }

  function DropTheSender(p: Pipe): Pipe {
    p.(channel := Close(p.channel),
       closedEarly := p.closedEarly || (p.channel.open && !CurrentReader(p).stopped))
  }

  function PollSub(ch: Channel<Burst>, s: Sub, sendOk: bool, now: int): Sub
    requires s.next <= |ch.log|
  {
    if !s.task.running then s
    else
      var (result, next) := Receive(ch, s.next);
      var (task, frame) := Forward(s.task, result, sendOk, now);
      Sub(s.from, next, task,
          if result.Message? && sendOk then s.delivered + [s.next] else s.delivered,
          if result.Lagged? then s.lags + [result.missed] else s.lags,
          if result.Message? && !sendOk then s.lost + 1 else s.lost,
          if frame.Some? then s.frames + [frame.value] else s.frames)
  }

  /** A step that is not possible in the current state changes nothing. */
  function Next(p: Pipe, act: Act): Pipe {
    match act
    case Read(event) =>
      var burst := OnEvent(CurrentReader(p), event).1;
      p.(events := p.events + [event], channel := if burst == [] then p.channel else Send(p.channel, burst))
    case ReaderExit => if CurrentReader(p).stopped then DropTheSender(p) else p
    case DropSender => DropTheSender(p)
    case Attach(id, sendOk) =>
      if id in p.subs then p
      else
        p.(subs := p.subs[id :=
             match Subscribe(p.channel)
             case Some(at) => Sub(at, at, Subscriber(None, true), [], [], 0, [])
             case None =>
               var end := |p.channel.log|;
               Sub(end, end, Subscriber(None, false), [], [], 0, if sendOk then [Disconnect("Shell exited")] else [])])
    case Poll(id, sendOk, now) =>
      if id in p.subs && p.subs[id].next <= |p.channel.log|
      then p.(subs := p.subs[id := PollSub(p.channel, p.subs[id], sendOk, now)]) else p
    case AbortSub(id) =>
      if id in p.subs then p.(subs := p.subs[id := p.subs[id].(task := p.subs[id].task.(running := false))]) else p
  }

  function Exec(p: Pipe, acts: seq<Act>): Pipe {
    if acts == [] then p else Next(Exec(p, acts[..|acts| - 1]), acts[|acts| - 1])
  }

  // ----- Invariant -----

  function Sum(ns: seq<nat>): nat {
    if ns == [] then 0 else Sum(ns[..|ns| - 1]) + ns[|ns| - 1]
  }

  /** The output frames, as JSON texts. */
  function Outputs(frames: seq<Frame>): seq<string> {
    if frames == [] then []
    else
      var before, last := Outputs(frames[..|frames| - 1]), frames[|frames| - 1];
      if last.Output? then before + [last.json] else before
  }

  /** Conservation: every message since the attachment was delivered, skipped, lost, or is pending. */
  predicate Accounted(ch: Channel<Burst>, s: Sub) {
    && s.from + |s.delivered| + Sum(s.lags) + s.lost == s.next <= |ch.log|
    && (s.lost > 0 ==> !s.task.running)
  }

  /** Messages are delivered in order and at most once, and without gaps as long as nothing was skipped. */
  predicate InOrder(s: Sub) {
    && (forall i | 0 <= i < |s.delivered| :: s.from <= s.delivered[i] < s.next)
    && (forall i, j | 0 <= i < j < |s.delivered| :: s.delivered[i] < s.delivered[j])
    && (s.lags == [] ==> forall i | 0 <= i < |s.delivered| :: s.delivered[i] == s.from + i)
  }

  /** The output frames are the delivered messages. */
  predicate Forwarded(ch: Channel<Burst>, s: Sub) {
    && (forall i | 0 <= i < |s.delivered| :: s.delivered[i] < |ch.log|)
    && |Outputs(s.frames)| == |s.delivered|
    && (forall i | 0 <= i < |s.delivered| :: Outputs(s.frames)[i] == OutputJson(ch.log[s.delivered[i]]))
  }

  /** A disconnect frame comes last, and only when everything was drained. */
  predicate DisconnectLast(ch: Channel<Burst>, s: Sub) {
    forall i | 0 <= i < |s.frames| && s.frames[i].Disconnect? ::
      i == |s.frames| - 1 && !s.task.running && !ch.open && s.next == |ch.log| && s.lost == 0
  }

  predicate SubInv(ch: Channel<Burst>, s: Sub) {
    Accounted(ch, s) && InOrder(s) && Forwarded(ch, s) && DisconnectLast(ch, s)
  }

  predicate Inv(p: Pipe) {
    && p.channel.log <= ReadAll(p.events).1
    && (!p.closedEarly ==> p.channel.log == ReadAll(p.events).1)
    && (!p.closedEarly && !p.channel.open ==> CurrentReader(p).stopped)
    && (p.closedEarly ==> !p.channel.open)
    && forall id | id in p.subs :: SubInv(p.channel, p.subs[id])
  }

  lemma SendKeepsSub(ch: Channel<Burst>, s: Sub, burst: Burst)
    requires SubInv(ch, s)
    ensures SubInv(Send(ch, burst), s)
  {
  }

  lemma OutputsSnoc(frames: seq<Frame>, frame: Frame)
    ensures Outputs(frames + [frame])
            == if frame.Output? then Outputs(frames) + [frame.json] else Outputs(frames)
  {
    assert (frames + [frame])[..|frames|] == frames;
  }

  lemma DeliverKeepsForwarded(ch: Channel<Burst>, s: Sub, s': Sub, json: string)
    requires Forwarded(ch, s) && s.next < |ch.log| && json == OutputJson(ch.log[s.next])
    requires s'.delivered == s.delivered + [s.next] && s'.frames == s.frames + [Output(json)]
    ensures Forwarded(ch, s')
  {
    OutputsSnoc(s.frames, Output(json));
  }

  lemma DeliverKeepsSub(ch: Channel<Burst>, s: Sub, json: string)
    requires SubInv(ch, s) && s.task.running && s.next < |ch.log| && json == OutputJson(ch.log[s.next])
    ensures SubInv(ch, s.(next := s.next + 1, delivered := s.delivered + [s.next], frames := s.frames + [Output(json)]))
  {
    var s' := s.(next := s.next + 1, delivered := s.delivered + [s.next], frames := s.frames + [Output(json)]);
    DeliverKeepsForwarded(ch, s, s', json);
    assert InOrder(s');
  }

  lemma SkipKeepsSub(ch: Channel<Burst>, s: Sub, missed: nat, task: Subscriber, frames: seq<Frame>)
    requires SubInv(ch, s) && s.task.running && s.next + missed <= |ch.log|
    requires frames == s.frames || frames == s.frames + [LagError(missed)]
    ensures SubInv(ch, s.(next := s.next + missed, task := task, lags := s.lags + [missed], frames := frames))
  {
    assert (s.lags + [missed])[..|s.lags|] == s.lags;
    OutputsSnoc(s.frames, LagError(missed));
  }

  lemma CloseKeepsSub(ch: Channel<Burst>, s: Sub, task: Subscriber, frames: seq<Frame>)
    requires SubInv(ch, s) && s.task.running && !task.running && !ch.open && s.next == |ch.log|
    requires frames == s.frames || frames == s.frames + [Disconnect("Shell exited")]
    ensures SubInv(ch, s.(task := task, frames := frames))
  {
    OutputsSnoc(s.frames, Disconnect("Shell exited"));
  }

  lemma LoseKeepsSub(ch: Channel<Burst>, s: Sub, task: Subscriber)
    requires SubInv(ch, s) && s.task.running && !task.running && s.next < |ch.log|
    ensures SubInv(ch, s.(next := s.next + 1, task := task, lost := s.lost + 1))
  {
  }

  /** The ways one poll can change a subscriber. */
  lemma PollCases(ch: Channel<Burst>, s: Sub, sendOk: bool, now: int) returns (result: Received<Burst>)
    requires s.task.running && s.next <= |ch.log|
    ensures result == Receive(ch, s.next).0
    ensures var s' := PollSub(ch, s, sendOk, now);
            match result
            case Message(data) =>
              && s.next < |ch.log| && data == ch.log[s.next]
              && (if sendOk then
                    s' == s.(next := s.next + 1, delivered := s.delivered + [s.next],
                             frames := s.frames + [Output(OutputJson(data))])
                  else !s'.task.running && s' == s.(next := s.next + 1, task := s'.task, lost := s.lost + 1))
            case Lagged(missed) =>
              && s.next + missed <= |ch.log|
              && (s'.frames == s.frames || s'.frames == s.frames + [LagError(missed)])
              && s' == s.(next := s.next + missed, task := s'.task, lags := s.lags + [missed], frames := s'.frames)
            case Closed =>
              && !ch.open && s.next == |ch.log| && !s'.task.running
              && s' == s.(task := s'.task,
                          frames := if sendOk then s.frames + [Disconnect("Shell exited")] else s.frames)
            case Pending => s' == s
  {
    result := Receive(ch, s.next).0;
  }

  lemma PollKeepsSub(ch: Channel<Burst>, s: Sub, sendOk: bool, now: int)
    requires SubInv(ch, s)
    ensures SubInv(ch, PollSub(ch, s, sendOk, now))
  {
    if s.task.running {
      var result := PollCases(ch, s, sendOk, now);
      var s' := PollSub(ch, s, sendOk, now);
      match result {
        case Message(data) =>
          if sendOk {
            DeliverKeepsSub(ch, s, OutputJson(data));
          } else {
            LoseKeepsSub(ch, s, s'.task);
          }
        case Lagged(missed) => SkipKeepsSub(ch, s, missed, s'.task, s'.frames);
        case Closed => CloseKeepsSub(ch, s, s'.task, s'.frames);
        case Pending =>
      }
    }
  }

  lemma ReadSnoc(events: seq<IoEvent>, e: IoEvent)
    ensures var (r, bursts) := ReadAll(events);
            ReadAll(events + [e]) == (OnEvent(r, e).0, Emit(bursts, OnEvent(r, e).1))
  {
    assert (events + [e])[..|events|] == events;
  }

  lemma ReadKeepsInv(p: Pipe, event: IoEvent)
    requires Inv(p)
    ensures Inv(Next(p, Read(event)))
  {
    ReadSnoc(p.events, event);
    var burst := OnEvent(CurrentReader(p), event).1;
    forall id | id in p.subs ensures SubInv(Next(p, Read(event)).channel, p.subs[id]) {
      SendKeepsSub(p.channel, p.subs[id], burst);
    }
  }

  lemma UpdateKeepsInv(p: Pipe, id: ClientId, s: Sub)
    requires Inv(p) && SubInv(p.channel, s)
    ensures Inv(p.(subs := p.subs[id := s]))
  {
  }

  lemma DropKeepsInv(p: Pipe)
    requires Inv(p)
    ensures Inv(DropTheSender(p))
  {
    forall id | id in p.subs ensures SubInv(Close(p.channel), p.subs[id]) {
    }
  }

  lemma NextKeepsInv(p: Pipe, act: Act)
    requires Inv(p)
    ensures Inv(Next(p, act))
  {
    match act
    case Read(event) => ReadKeepsInv(p, event);
    case ReaderExit => DropKeepsInv(p);
    case DropSender => DropKeepsInv(p);
    case Attach(id, sendOk) => AttachKeepsInv(p, id, sendOk);
    case Poll(id, sendOk, now) =>
      if id in p.subs {
        PollKeepsSub(p.channel, p.subs[id], sendOk, now);
        UpdateKeepsInv(p, id, PollSub(p.channel, p.subs[id], sendOk, now));
      }
    case AbortSub(id) =>
      if id in p.subs {
        UpdateKeepsInv(p, id, p.subs[id].(task := p.subs[id].task.(running := false)));
      }
  }

  lemma AttachKeepsInv(p: Pipe, id: ClientId, sendOk: bool)
    requires Inv(p)
    ensures Inv(Next(p, Attach(id, sendOk)))
  {
    OutputsSnoc([], Disconnect("Shell exited"));
    if id !in p.subs {
      UpdateKeepsInv(p, id, Next(p, Attach(id, sendOk)).subs[id]);
    }
  }

  lemma {:induction false} InvHolds(acts: seq<Act>)
    ensures Inv(Exec(INIT, acts))
  {
    if acts != [] {
      InvHolds(acts[..|acts| - 1]);
      NextKeepsInv(Exec(INIT, acts[..|acts| - 1]), acts[|acts| - 1]);
    }
  }

  // ----- Main results -----

  /**
  In every run, for every subscriber: delivered, skipped and pending messages (and one whose send
  failed) add up to what was broadcast since it attached; it delivers messages in order and at most once; and a
  "Shell exited" frame is its last frame, sent when the channel is closed and nothing is pending.
  */
  lemma SubscriberAccounting(acts: seq<Act>, id: ClientId)
    requires id in Exec(INIT, acts).subs
    ensures var p := Exec(INIT, acts);
            var s := p.subs[id];
            && s.next <= |p.channel.log|
            && |s.delivered| + Sum(s.lags) + s.lost + (|p.channel.log| - s.next) == |p.channel.log| - s.from
            && (forall i, j | 0 <= i < j < |s.delivered| :: s.delivered[i] < s.delivered[j])
            && (s.lags == [] ==> forall i | 0 <= i < |s.delivered| :: s.delivered[i] == s.from + i)
            && |Outputs(s.frames)| == |s.delivered|
            && (forall i | 0 <= i < |s.delivered| ::
                  s.delivered[i] < |p.channel.log| && Outputs(s.frames)[i] == OutputJson(p.channel.log[s.delivered[i]]))
            && (forall i | 0 <= i < |s.frames| && s.frames[i].Disconnect? ::
                  i == |s.frames| - 1 && !p.channel.open && s.next == |p.channel.log|)
  {
    InvHolds(acts);
  }

  /** The subscriber after `n` polls whose sends succeed. */
  function PollTimes(ch: Channel<Burst>, s: Sub, n: nat, now: int): (s': Sub)
    requires s.next <= |ch.log|
    ensures s'.next <= |ch.log|
    decreases n
  {
    if n == 0 then s else PollSub(ch, PollTimes(ch, s, n - 1, now), true, now)
  }

  lemma OnePoll(ch: Channel<Burst>, s: Sub, now: int)
    requires !ch.open && s.next <= |ch.log| && s.task.running
    ensures var s' := PollSub(ch, s, true, now);
            if s'.task.running then s.next < s'.next <= |ch.log| else Disconnected(s') && s'.next == |ch.log|
  {
  }

  lemma {:induction false} PollsAdvance(ch: Channel<Burst>, s: Sub, n: nat, now: int)
    requires !ch.open && s.next <= |ch.log| && s.task.running
    ensures var s' := PollTimes(ch, s, n, now);
            if s'.task.running then s.next + n <= s'.next else Disconnected(s') && s'.next == |ch.log|
  {
    if n > 0 {
      PollsAdvance(ch, s, n - 1, now);
      if PollTimes(ch, s, n - 1, now).task.running {
        OnePoll(ch, PollTimes(ch, s, n - 1, now), now);
      }
    }
  }

  /**
  Once the sender is gone, a subscriber whose sends succeed reaches its disconnect within one poll more than it has
  messages pending.
  */
  lemma Drains(ch: Channel<Burst>, s: Sub, now: int)
    requires !ch.open && s.next <= |ch.log| && s.task.running
    ensures var s' := PollTimes(ch, s, |ch.log| - s.next + 1, now);
            Disconnected(s') && s'.next == |ch.log| && !s'.task.running
  {
    PollsAdvance(ch, s, |ch.log| - s.next + 1, now);
  }

  /** What a client's JSON reader gets out of the output frames, joined. */
  function TextOf(jsons: seq<string>): string {
    if jsons == [] then []
    else
      match Protocol.ReadOutput(jsons[0])
      case Some(text) => text + TextOf(jsons[1..])
      case None => TextOf(jsons[1..])
  }

  lemma {:induction false} TextOfOutputs(bursts: seq<Burst>, jsons: seq<string>)
    requires |jsons| == |bursts| && forall i | 0 <= i < |bursts| :: jsons[i] == OutputJson(bursts[i])
    ensures TextOf(jsons) == DecodeEach(bursts)
  {
    if jsons != [] {
      Protocol.OutputReadsBack(Decode(bursts[0]));
      TextOfOutputs(bursts[1..], jsons[1..]);
    }
  }

  predicate Disconnected(s: Sub) {
    s.frames != [] && s.frames[|s.frames| - 1].Disconnect?
  }

  /**
  A client that was told the shell exited and never lagged has read every burst since it attached,
  decoded burst by burst. That is the text of the whole byte stream exactly when no burst boundary cuts a character.
  */
  lemma DeliveredText(acts: seq<Act>, id: ClientId)
    requires id in Exec(INIT, acts).subs
    requires var s := Exec(INIT, acts).subs[id]; Disconnected(s) && s.lags == []
    ensures var p := Exec(INIT, acts);
            var s := p.subs[id];
            && s.from <= |p.channel.log|
            && var bursts := p.channel.log[s.from..];
               && TextOf(Outputs(s.frames)) == DecodeEach(bursts)
               && (TextOf(Outputs(s.frames)) == Decode(Flatten(bursts)) <==> CleanCuts(bursts))
  {
    InvHolds(acts);
    var p := Exec(INIT, acts);
    var s := p.subs[id];
    assert Sum(s.lags) == 0;
    var bursts := p.channel.log[s.from..];
    TextOfOutputs(bursts, Outputs(s.frames));
    DecodeEachIffCleanCuts(bursts);
  }

  /**
  If moreover it attached before the first burst, the sender lived until the reader stopped, and every burst but the
  last is well-formed UTF-8, it has read exactly the text of all bytes the shell wrote.
  */
  lemma EndToEnd(acts: seq<Act>, id: ClientId)
    requires id in Exec(INIT, acts).subs
    requires var p := Exec(INIT, acts);
             var s := p.subs[id];
             && Disconnected(s) && s.lags == [] && s.from == 0 && !p.closedEarly
             && forall i | 0 <= i < |p.channel.log| - 1 :: Valid(p.channel.log[i])
    ensures var p := Exec(INIT, acts);
            TextOf(Outputs(p.subs[id].frames)) == Decode(BytesRead(p.events))
  {
    InvHolds(acts);
    DeliveredText(acts, id);
    var p := Exec(INIT, acts);
    assert p.channel.log[0..] == p.channel.log;
    ValidBurstsCutCleanly(p.channel.log);
    BurstsConserveBytes(p.events);
    assert Flatten(p.channel.log) + [] == Flatten(p.channel.log);
  }

  /**
  In every run the bursts broadcast while the sender lived are a prefix of the bytes read, and all of them are
  bounded.
  */
  lemma BroadcastIsPrefix(acts: seq<Act>)
    ensures var p := Exec(INIT, acts);
            && Flatten(p.channel.log) <= BytesRead(p.events)
            && (forall b | b in p.channel.log :: BurstSized(b))
            && (p.channel.open ==> Flatten(p.channel.log) + CurrentReader(p).burst == BytesRead(p.events))
  {
    InvHolds(acts);
    var p := Exec(INIT, acts);
    BurstsConserveBytes(p.events);
    FlattenPrefix(p.channel.log, ReadAll(p.events).1);
  }

  /** A client that comes when the output is over is told so at once, and nothing else, unless its socket is gone. */
  lemma LateComerIsTold(acts: seq<Act>, id: ClientId, sendOk: bool)
    requires id !in Exec(INIT, acts).subs && !Exec(INIT, acts).channel.open
    ensures var p := Exec(INIT, acts + [Attach(id, sendOk)]);
            && id in p.subs && !p.subs[id].task.running
            && p.subs[id].frames == if sendOk then [Disconnect("Shell exited")] else []
  {
    assert (acts + [Attach(id, sendOk)])[..|acts|] == acts;
  }

  /** Whenever a read would block, every byte read so far was broadcast, as long as the sender lives. */
  lemma BroadcastIsPrompt(acts: seq<Act>)
    requires var p := Exec(INIT, acts);
             && p.channel.open && p.events != [] && !p.events[|p.events| - 1].Chunk?
    ensures var p := Exec(INIT, acts); Flatten(p.channel.log) == BytesRead(p.events)
  {
    InvHolds(acts);
    NothingHeldBack(Exec(INIT, acts).events);
  }

  lemma {:induction false} FlattenPrefix(a: seq<Burst>, b: seq<Burst>)
    requires a <= b
    ensures Flatten(a) <= Flatten(b)
  {
    if a != [] {
      FlattenPrefix(a[1..], b[1..]);
    }
  }
}
