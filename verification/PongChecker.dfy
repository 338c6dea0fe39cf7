/**
The liveness checks of the browser side, `static/js/main.js`: the periodic pong checker, the visibility handler and
the foreground probe. Times are readings of the page's millisecond clock.
*/
module PongChecker {
  import opened Wrappers

  type Millis = int

  const PONG_TIMEOUT: nat := 90000

  const FOREGROUND_PROBE_TIMEOUT: nat := 5000

  datatype Socket = Down | Connecting | Connected

  /** `Show` finds the socket in some state; `Open` is the socket's open event. */
  datatype Event =
    | Hide(at: Millis)
    | Show(at: Millis, socket: Socket)
    | Pong(at: Millis)
    | Open(at: Millis)
    | Tick(at: Millis)
    | ProbeTimer(at: Millis)

  datatype State = State(
    hidden: bool,
    lastPongTime: Millis,
    lastHiddenAt: Millis,
    lastVisibleAt: Millis,
    probeAwaitingPong: bool,
    probeDue: Option<Millis>)

  function Loaded(hidden: bool, now: Millis): State {
    State(hidden, now, 0, 0, false, None)
  }

  /** The checker would force a reconnect. */
  predicate Suspicious(s: State, now: Millis) {
    && !s.hidden && s.lastHiddenAt <= s.lastPongTime && s.lastVisibleAt <= s.lastPongTime
    && now - s.lastPongTime > PONG_TIMEOUT
  }

  predicate ProbeFails(s: State, now: Millis) {
    s.probeDue.Some? && s.probeDue.value <= now && s.probeAwaitingPong
  }

  function Step(s: State, e: Event): State {
    match e
    case Hide(at) => s.(hidden := true, lastHiddenAt := at)
    case Show(at, socket) =>
      var seen := s.(hidden := false, lastVisibleAt := at, probeDue := None);
      if socket == Connected
      then seen.(probeAwaitingPong := true, probeDue := Some(at + FOREGROUND_PROBE_TIMEOUT))
      else seen
    case Pong(at) => s.(lastPongTime := at, probeAwaitingPong := false)
    case Open(at) => s.(lastPongTime := at)
    case Tick(_) => s
    case ProbeTimer(at) =>
      if s.probeDue.Some? && s.probeDue.value <= at then s.(probeAwaitingPong := false, probeDue := None) else s
  }

  function Run(s: State, events: seq<Event>): State {
    if events == [] then s else Step(Run(s, events[..|events| - 1]), events[|events| - 1])
  }

  /** The page would close its socket at this event. */
  predicate ClosesAt(s: State, e: Event) {
    match e
    case Tick(at) => Suspicious(s, at)
    case ProbeTimer(at) => ProbeFails(s, at)
    case _ => false
  }

  // ----- The page's script -----

  class Page {
    var hidden: bool
    var lastPongTime: Millis
    var lastHiddenAt: Millis
    var lastVisibleAt: Millis
    var probeAwaitingPong: bool
    var visibilityProbeTimer: Option<Millis>

    function Value(): State
      reads this
    {
      State(hidden, lastPongTime, lastHiddenAt, lastVisibleAt, probeAwaitingPong, visibilityProbeTimer)
    }

    constructor (hidden: bool, now: Millis)
      ensures Value() == Loaded(hidden, now)
    {
      this.hidden := hidden;
      lastPongTime := now;
      lastHiddenAt := 0;
      lastVisibleAt := 0;
      probeAwaitingPong := false;
      visibilityProbeTimer := None;
    }

    /** A probe timer that is not due does not fire. */
    method OnEvent(e: Event) returns (close: bool)
      modifies this
      ensures Value() == Step(old(Value()), e)
      ensures close == ClosesAt(old(Value()), e)
    {
      close := false;
      match e
      case Hide(at) => OnVisibilityChange(true, Down, at);
      case Show(at, socket) => OnVisibilityChange(false, socket, at);
      case Pong(at) => OnPong(at);
      case Open(at) => OnOpen(at);
      case Tick(at) => close := OnTick(at);
      case ProbeTimer(at) =>
        if visibilityProbeTimer.Some? && visibilityProbeTimer.value <= at {
          close := OnProbeTimer(at);
        }
    }

    method OnVisibilityChange(hidden: bool, socket: Socket, now: Millis)
      modifies this
      ensures Value() == Step(old(Value()), if hidden then Hide(now) else Show(now, socket))
    {
      this.hidden := hidden;
      if hidden {
        lastHiddenAt := now;
        return;
      }
      lastVisibleAt := now;
      if visibilityProbeTimer.Some? {
        visibilityProbeTimer := None;
      }
      if socket != Connected {
        return;
      }
      probeAwaitingPong := true;
      visibilityProbeTimer := Some(now + FOREGROUND_PROBE_TIMEOUT);
    }

    method OnPong(now: Millis)
      modifies this
      ensures Value() == Step(old(Value()), Pong(now))
    {
      lastPongTime := now;
      probeAwaitingPong := false;
    }

    method OnOpen(now: Millis)
      modifies this
      ensures Value() == Step(old(Value()), Open(now))
    {
      lastPongTime := now;
    }

    method OnTick(now: Millis) returns (close: bool)
      ensures close == Suspicious(Value(), now)
    {
      if hidden || lastHiddenAt > lastPongTime || lastVisibleAt > lastPongTime {
        return false;
      }
      var elapsed := now - lastPongTime;
      close := elapsed > PONG_TIMEOUT;
    }

    method OnProbeTimer(now: Millis) returns (close: bool)
      requires visibilityProbeTimer.Some? && visibilityProbeTimer.value <= now
      modifies this
      ensures Value() == Step(old(Value()), ProbeTimer(now))
      ensures close == ProbeFails(old(Value()), now)
    {
      visibilityProbeTimer := None;
      close := probeAwaitingPong;
      if probeAwaitingPong {
        probeAwaitingPong := false;
      }
    }
  }

  /** The page, driven by a trace. */
  method RunPage(hidden: bool, load: Millis, events: seq<Event>) returns (page: Page, closes: seq<bool>)
    ensures page.Value() == Run(Loaded(hidden, load), events)
    ensures |closes| == |events|
    ensures forall k | 0 <= k < |events| :: closes[k] == ClosesAt(Run(Loaded(hidden, load), events[..k]), events[k])
  {
    page := new Page(hidden, load);
    closes := [];
    ghost var start := Loaded(hidden, load);
    for i := 0 to |events|
      invariant fresh(page) && page.Value() == Run(start, events[..i])
      invariant |closes| == i
      invariant forall k | 0 <= k < i :: closes[k] == ClosesAt(Run(start, events[..k]), events[k])
    {
      assert events[..i + 1][..i] == events[..i];
      var close := page.OnEvent(events[i]);
      closes := closes + [close];
    }
    assert events[..|events|] == events;
  }

  // ----- What the trace says, without the script's variables -----

  predicate IsVisibility(e: Event) {
    e.Hide? || e.Show?
  }

  /** Whether the page was hidden at the clock reading `now`, once the events up to it were handled. */
  predicate HiddenAt(loadedHidden: bool, events: seq<Event>, now: Millis) {
    if events == [] then loadedHidden
    else
      var last := events[|events| - 1];
      if last.at <= now && IsVisibility(last) then last.Hide? else HiddenAt(loadedHidden, events[..|events| - 1], now)
  }

  /** When a pong was last recorded; loading the page and opening the socket count as one. */
  function LastPong(load: Millis, events: seq<Event>): Millis {
    if events == [] then load
    else
      var last := events[|events| - 1];
      if last.Pong? || last.Open? then last.at else LastPong(load, events[..|events| - 1])
  }

  /** The clock does not go back, and the page is hidden and shown in turn. */
  predicate Timed(loadedHidden: bool, load: Millis, events: seq<Event>) {
    events == [] ||
    var (init, last) := (events[..|events| - 1], events[|events| - 1]);
    && Timed(loadedHidden, load, init)
    && Latest(load, init) <= last.at
    && (last.Hide? ==> !HiddenAt(loadedHidden, init, last.at))
    && (last.Show? ==> HiddenAt(loadedHidden, init, last.at))
  }

  function Latest(load: Millis, events: seq<Event>): Millis {
    if events == [] then load else events[|events| - 1].at
  }

  /** The latest hide or show, if there was one. */
  function LastChange(events: seq<Event>): Option<Millis> {
    if events == [] then None
    else if IsVisibility(events[|events| - 1]) then Some(events[|events| - 1].at)
    else LastChange(events[..|events| - 1])
  }

  /** The script's variables are what the trace says. */
  lemma {:induction false} RunIs(loadedHidden: bool, load: Millis, events: seq<Event>)
    requires Timed(loadedHidden, load, events) && 0 <= load
    ensures var s := Run(Loaded(loadedHidden, load), events);
            && s.lastPongTime == LastPong(load, events)
            && load <= s.lastPongTime <= Latest(load, events) && load <= Latest(load, events)
            && s.hidden == HiddenAt(loadedHidden, events, Latest(load, events))
            && match LastChange(events)
               case None => s.lastHiddenAt == 0 && s.lastVisibleAt == 0
               case Some(at) =>
                 && s.lastHiddenAt <= at && s.lastVisibleAt <= at && load <= at <= Latest(load, events)
                 && (s.lastHiddenAt == at || s.lastVisibleAt == at)
  {
    if events != [] {
      RunIs(loadedHidden, load, events[..|events| - 1]);
      StillAt(loadedHidden, load, events[..|events| - 1], events[|events| - 1].at);
    }
  }

  /** Nothing changes between the last event and any later reading. */
  lemma {:induction false} StillAt(loadedHidden: bool, load: Millis, events: seq<Event>, now: Millis)
    requires Timed(loadedHidden, load, events) && Latest(load, events) <= now
    ensures HiddenAt(loadedHidden, events, now) == HiddenAt(loadedHidden, events, Latest(load, events))
  {
    if events != [] {
      var init := events[..|events| - 1];
      StillAt(loadedHidden, load, init, now);
      StillAt(loadedHidden, load, init, Latest(load, events));
    }
  }

  /** A page that is visible and did not change after `since` was visible at every reading after it. */
  lemma {:induction false} VisibleSince(loadedHidden: bool, load: Millis, events: seq<Event>, since: Millis, u: Millis)
    requires Timed(loadedHidden, load, events) && since <= u
    requires LastChange(events).Some? ==> LastChange(events).value <= since
    ensures HiddenAt(loadedHidden, events, u)
            == HiddenAt(loadedHidden, events, if u <= Latest(load, events) then Latest(load, events) else u)
  {
    if events != [] {
      var init, last := events[..|events| - 1], events[|events| - 1];
      if !IsVisibility(last) {
        VisibleSince(loadedHidden, load, init, since, u);
        if u <= last.at {
          StillAt(loadedHidden, load, init, last.at);
          if u > Latest(load, init) {
            StillAt(loadedHidden, load, init, u);
          }
        }
      }
    }
  }

  /**
  The checker closes the socket at a tick exactly when the page is visible, no pong was recorded for more than the
  timeout, and the page was neither hidden nor shown after the last one.
  */
  lemma ClosesExactly(loadedHidden: bool, load: Millis, events: seq<Event>, now: Millis)
    requires Timed(loadedHidden, load, events) && 0 <= load && Latest(load, events) <= now
    ensures Suspicious(Run(Loaded(loadedHidden, load), events), now) <==>
            && !HiddenAt(loadedHidden, events, now)
            && now - LastPong(load, events) > 90_000
            && (LastChange(events).Some? ==> LastChange(events).value <= LastPong(load, events))
  {
    RunIs(loadedHidden, load, events);
    StillAt(loadedHidden, load, events, now);
  }

  /**
  So a close forced by the checker means that the page was visible at every reading after the last recorded pong: the
  silence was heard by a page that was awake, whether or not it was loaded in the background.
  */
  lemma ClosesOnlyWatched(loadedHidden: bool, load: Millis, events: seq<Event>, now: Millis, u: Millis)
    requires Timed(loadedHidden, load, events) && 0 <= load && Latest(load, events) <= now
    requires Suspicious(Run(Loaded(loadedHidden, load), events), now)
    requires LastPong(load, events) < u <= now
    ensures !HiddenAt(loadedHidden, events, u) && now > LastPong(load, events) + PONG_TIMEOUT
  {
    ClosesExactly(loadedHidden, load, events, now);
    VisibleSince(loadedHidden, load, events, LastPong(load, events), u);
    StillAt(loadedHidden, load, events, now);
    if u > Latest(load, events) {
      StillAt(loadedHidden, load, events, u);
    }
  }

  /**
  The probe that was started when the page was shown at step k, with the socket connected, is still out after
  `events`: no
  pong came since, the page was not shown again, and no timer event was late enough to end it.
  */
  predicate ProbeOut(events: seq<Event>, k: nat)
    requires k < |events|
  {
    && events[k].Show? && events[k].socket == Connected
    && forall j | k < j < |events| ::
         !events[j].Pong? && !events[j].Show? && !(events[j].ProbeTimer? && events[j].at >= events[k].at + 5000)
  }

  lemma {:induction false} ProbeOutIsKnown(s: State, events: seq<Event>, k: nat)
    requires k < |events| && ProbeOut(events, k)
    ensures Run(s, events).probeAwaitingPong && Run(s, events).probeDue == Some(events[k].at + 5000)
    decreases |events|
  {
    if k < |events| - 1 {
      var init := events[..|events| - 1];
      assert forall j | 0 <= j < |init| :: init[j] == events[j];
      ProbeOutIsKnown(s, init, k);
    }
  }

  lemma {:induction false} KnownProbeIsOut(s: State, events: seq<Event>) returns (k: nat)
    requires s.probeDue.None? && Run(s, events).probeAwaitingPong && Run(s, events).probeDue.Some?
    ensures k < |events| && ProbeOut(events, k) && Run(s, events).probeDue == Some(events[k].at + 5000)
  {
    var init, last := events[..|events| - 1], events[|events| - 1];
    if last.Show? && last.socket == Connected {
      k := |events| - 1;
    } else {
      k := KnownProbeIsOut(s, init);
      assert forall j | 0 <= j < |init| :: init[j] == events[j];
    }
  }

  /**
  The probe timer closes the socket exactly if the page was shown at least five seconds ago, with the socket connected,
  and since then there was no pong, no further showing and no earlier due timer event.
  */
  lemma ProbeClosesExactly(loadedHidden: bool, load: Millis, events: seq<Event>, now: Millis)
    ensures ProbeFails(Run(Loaded(loadedHidden, load), events), now) <==>
            exists k :: 0 <= k < |events| && ProbeOut(events, k) && events[k].at + 5000 <= now
  {
    var s := Loaded(loadedHidden, load);
    if ProbeFails(Run(s, events), now) {
      var k := KnownProbeIsOut(s, events);
    }
    if k :| 0 <= k < |events| && ProbeOut(events, k) && events[k].at + 5000 <= now {
      ProbeOutIsKnown(s, events, k);
    }
  }
}
