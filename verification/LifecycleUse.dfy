/** Sessions in use, over every run: who may write, when a session was last used, and when its output has ended. */
module LifecycleUse {
  import opened Wrappers
  import opened Time
  import opened Session
  import opened SessionManager
  import opened Lifecycle
  import opened LifecycleResults
  import opened LifecycleCleanup
  import opened LifecycleFlags
  import opened LifecycleLeaks

  // ----- Who may write -----

  /** The clients of a session are the handlers that registered with it and did not unregister. */
  predicate ClientServed(g: World, t: TaskId, sid: Id) {
    sid in g.cores && t in g.cores[sid].clients ==> IsRegistered(PcOf(g, t)) && PcOf(g, t).sid == sid
  }

  predicate StaysIn(pc: Pc, pc': Pc) {
    IsRegistered(pc) ==> IsRegistered(pc') && pc'.sid == pc.sid
  }

  lemma HandlerStaysIn(g: World, act: Act, t: TaskId)
    requires !(act.Unregister? && act.t == t)
    ensures StaysIn(PcOf(g, t), PcOf(NextHandler(g, act), t))
  {
  }

  lemma CleanupStaysIn(w: Windows, g: World, act: Act, t: TaskId)
    ensures StaysIn(PcOf(g, t), PcOf(NextCleanup(w, g, act), t))
  {
  }

  lemma ShutdownStaysIn(g: World, u: TaskId, t: TaskId)
    ensures StaysIn(PcOf(g, t), PcOf(NextShutdown(g, u), t)) && StaysIn(PcOf(g, t), PcOf(NextClose(g, u), t))
  {
  }

  lemma OtherStaysIn(w: Windows, g: World, act: Act, t: TaskId)
    requires IsOtherAct(act)
    ensures StaysIn(PcOf(g, t), PcOf(Next(w, g, act), t))
  {
  }

  lemma StepStaysIn(w: Windows, g: World, act: Act, t: TaskId)
    requires !(act.Unregister? && act.t == t)
    ensures StaysIn(PcOf(g, t), PcOf(Next(w, g, act), t))
  {
    if act.ShutdownStep? || act.CloseStep? {
      ShutdownStaysIn(g, act.t, t);
    } else if IsOtherAct(act) {
      OtherStaysIn(w, g, act, t);
    } else if IsHandlerAct(act) {
      HandlerIsNext(w, g, act);
      HandlerStaysIn(g, act, t);
    } else {
      CleanupIsNext(w, g, act);
      CleanupStaysIn(w, g, act, t);
    }
  }

  /** Another handler's arrival adds no client but itself. */
  lemma ArrivalsAddThemselves(g: World, act: Act, t: TaskId, sid: Id)
    requires TakesUp(act) && !(act.Register? && act.t == t)
    ensures sid in NextHandler(g, act).cores && t in NextHandler(g, act).cores[sid].clients ==>
              sid in g.cores && t in g.cores[sid].clients
  {
  }

  lemma RegisterServes(g: World, t: TaskId, now: Instant, sid: Id)
    requires ClientServed(g, t, sid)
    ensures ClientServed(NextHandler(g, Register(t, now)), t, sid)
  {
  }

  lemma UnregisterServes(g: World, t: TaskId, now: Instant, sid: Id)
    requires ClientServed(g, t, sid)
    ensures ClientServed(NextHandler(g, Unregister(t, now)), t, sid)
  {
  }

  lemma {:induction false} ClientsAreServed(w: Windows, acts: seq<Act>, t: TaskId, sid: Id)
    ensures ClientServed(After(w, acts), t, sid)
  {
    if acts != [] {
      var (g, act) := (After(w, acts[..|acts| - 1]), acts[|acts| - 1]);
      ClientsAreServed(w, acts[..|acts| - 1], t, sid);
      if IsHandlerAct(act) {
        HandlerIsNext(w, g, act);
      }
      if act.Register? && act.t == t {
        RegisterServes(g, t, act.now, sid);
      } else if act.Unregister? && act.t == t {
        UnregisterServes(g, t, act.now, sid);
      } else {
        StepStaysIn(w, g, act, t);
        if TakesUp(act) {
          ArrivalsAddThemselves(g, act, t, sid);
        } else {
          StepKeepsCore(w, g, act, t, sid);
        }
      }
    }
  }

  /**
  In every run: only a client of the session may write, and it is one only from its registration until it is removed. A
  client may write exactly if the session is isolated, or shared for writing and the client is not marked read-only.
  */
  lemma WritesExactly(w: Windows, acts: seq<Act>, t: TaskId, sid: Id)
    requires sid in After(w, acts).cores
    ensures var (g, core) := (After(w, acts), After(w, acts).cores[sid]);
            && (t in core.clients ==> IsRegistered(PcOf(g, t)) && PcOf(g, t).sid == sid)
            && (t !in core.clients ==> !MayWrite(core, t))
            && (t in core.clients ==>
                  (MayWrite(core, t) <==>
                   core.mode == Isolated || (core.mode == SharedReadWrite && !core.clients[t].readonly)))
  {
    ClientsAreServed(w, acts, t, sid);
  }

  /** A handler that removed its client may not write any more. */
  lemma RemovedMayNotWrite(w: Windows, acts: seq<Act>, t: TaskId, now: Instant, sid: Id)
    requires PcOf(After(w, acts), t) == Ending(sid)
    ensures var g := After(w, acts + [Unregister(t, now)]); sid in g.cores && !MayWrite(g.cores[sid], t)
  {
    InvHolds(w, acts);
    TaskFact(After(w, acts), t);
    ExecSnoc(w, INIT, acts, Unregister(t, now));
    ClientsAreServed(w, acts + [Unregister(t, now)], t, sid);
  }

  /** After a forced removal has cleared the clients nobody may write, though handlers may still be at work. */
  lemma SweptMayNotWrite(w: Windows, acts: seq<Act>, t: TaskId, u: TaskId)
    requires PcOf(After(w, acts), t).Removing? && PcOf(After(w, acts), t).stage == ToClear
    ensures var (g, sid) := (After(w, acts + [ShutdownStep(t)]), PcOf(After(w, acts), t).sid);
            sid in g.cores && !MayWrite(g.cores[sid], u)
  {
    InvHolds(w, acts);
    TaskFact(After(w, acts), t);
    ExecSnoc(w, INIT, acts, ShutdownStep(t));
  }

  // ----- When a session was last used -----

  /** The step uses the session: it is created, a client comes or goes, or a client's input was written. */
  function Uses(g: World, act: Act, sid: Id): Option<Instant> {
    match act
    case Create(t, created, _, now) =>
      if created == sid && PcOf(g, t).Idle? && sid !in g.cores && WriteFree(g) then Some(now) else None
    case Register(t, now) =>
      if PcOf(g, t).Holding? && PcOf(g, t).sid == sid && sid in g.cores
         && (g.cores[sid].mode != Isolated || g.cores[sid].clients == map[]) then Some(now) else None
    case Touch(t, now) => if PcOf(g, t) == Serving(sid) && sid in g.cores then Some(now) else None
    case Unregister(t, now) =>
      if PcOf(g, t) == Ending(sid) && sid in g.cores && t in g.cores[sid].clients then Some(now) else None
    case _ => None
  }

  function LastUse(w: Windows, acts: seq<Act>, sid: Id): Option<Instant> {
    if acts == [] then None
    else
      var use := Uses(After(w, acts[..|acts| - 1]), acts[|acts| - 1], sid);
      if use.Some? then use else LastUse(w, acts[..|acts| - 1], sid)
  }

  /** What a step does to the activity of a session, and whether it creates it. */
  predicate UseStep(g: World, act: Act, g': World, sid: Id) {
    && (sid in g'.cores <==> sid in g.cores || Uses(g, act, sid).Some?)
    && (sid in g'.cores ==>
          match Uses(g, act, sid)
          case Some(now) => g'.cores[sid].lastActivity == now
          case None => sid in g.cores && g'.cores[sid].lastActivity == g.cores[sid].lastActivity)
  }

  lemma CreateUses(g: World, act: Act, sid: Id)
    requires act.Create? || act.Join?
    ensures UseStep(g, act, NextHandler(g, act), sid)
  {
  }

  lemma RegisterUses(g: World, act: Act, sid: Id)
    requires act.Register? || act.WriterFails? || act.StartReader?
    ensures UseStep(g, act, NextHandler(g, act), sid)
  {
  }

  lemma TouchUses(g: World, act: Act, sid: Id)
    requires act.Touch? || act.InputFails? || act.LoopEnds?
    ensures UseStep(g, act, NextHandler(g, act), sid)
  {
  }

  lemma UnregisterUses(g: World, act: Act, sid: Id)
    requires act.Unregister? || act.Vacate?
    ensures UseStep(g, act, NextHandler(g, act), sid)
  {
  }

  lemma StepUses(w: Windows, g: World, act: Act, sid: Id)
    ensures UseStep(g, act, Next(w, g, act), sid)
  {
    if IsHandlerAct(act) {
      HandlerIsNext(w, g, act);
      if act.Create? || act.Join? {
        CreateUses(g, act, sid);
      } else if act.Register? || act.WriterFails? || act.StartReader? {
        RegisterUses(g, act, sid);
      } else if act.Touch? || act.InputFails? || act.LoopEnds? {
        TouchUses(g, act, sid);
      } else {
        UnregisterUses(g, act, sid);
      }
    } else if sid in g.cores {
      StepActivity(w, g, act, sid);
    } else {
      OthersCreateNothing(w, g, act, sid);
    }
  }

  /** The activity of a session is the time of its last use, over every run and every interleaving. */
  lemma {:induction false} ActivityIsLastUse(w: Windows, acts: seq<Act>, sid: Id)
    ensures var g := After(w, acts);
            LastUse(w, acts, sid) == if sid in g.cores then Some(g.cores[sid].lastActivity) else None
  {
    if acts != [] {
      ActivityIsLastUse(w, acts[..|acts| - 1], sid);
      StepUses(w, After(w, acts[..|acts| - 1]), acts[|acts| - 1], sid);
    }
  }

  // ----- When the output has ended -----

  /**
  The step ends the session's output: its reader ended, a client's input could not be written, or a shutdown dropped the
  sender.
  */
  predicate EndsOutput(g: World, act: Act, sid: Id) {
    match act
    case ReaderEnds(h) => h in g.readers && g.readers[h].sid == sid && !g.readers[h].ended
    case InputFails(t) => PcOf(g, t) == Serving(sid)
    case ShutdownStep(t) => PcOf(g, t).Removing? && PcOf(g, t).sid == sid && PcOf(g, t).stage == ToDrop
    case CloseStep(t) => PcOf(g, t).Closing? && PcOf(g, t).at == Some((sid, ToDrop))
    case _ => false
  }

  predicate OutputStep(g: World, act: Act, g': World, sid: Id) {
    if sid in g.cores then
      sid in g'.cores && (g'.cores[sid].output.open <==> g.cores[sid].output.open && !EndsOutput(g, act, sid))
    else
      sid in g'.cores ==> g'.cores[sid].output.open
  }

  lemma ArrivalOutput(g: World, act: Act, sid: Id)
    requires act.Create? || act.Join? || act.Register? || act.WriterFails? || act.StartReader?
    ensures OutputStep(g, act, NextHandler(g, act), sid)
  {
  }

  lemma ServingOutput(g: World, act: Act, sid: Id)
    requires act.Touch? || act.InputFails? || act.LoopEnds? || act.Unregister? || act.Vacate?
    ensures OutputStep(g, act, NextHandler(g, act), sid)
  {
  }

  lemma ShutdownOutput(g: World, u: TaskId, sid: Id)
    ensures OutputStep(g, ShutdownStep(u), NextShutdown(g, u), sid)
  {
  }

  lemma CloseOutput(g: World, u: TaskId, sid: Id)
    ensures OutputStep(g, CloseStep(u), NextClose(g, u), sid)
  {
  }

  lemma OtherOutput(w: Windows, g: World, act: Act, sid: Id)
    requires IsOtherAct(act)
    ensures OutputStep(g, act, Next(w, g, act), sid)
  {
  }

  lemma StepOutput(w: Windows, g: World, act: Act, sid: Id)
    ensures OutputStep(g, act, Next(w, g, act), sid)
  {
    if act.ShutdownStep? {
      ShutdownOutput(g, act.t, sid);
    } else if act.CloseStep? {
      CloseOutput(g, act.t, sid);
    } else if IsOtherAct(act) {
      OtherOutput(w, g, act, sid);
    } else if act.Touch? || act.InputFails? || act.LoopEnds? || act.Unregister? || act.Vacate? {
      HandlerIsNext(w, g, act);
      ServingOutput(g, act, sid);
    } else if IsHandlerAct(act) {
      HandlerIsNext(w, g, act);
      ArrivalOutput(g, act, sid);
    } else {
      CleanupIsNext(w, g, act);
      CleanupKeepsCores(w, g, act);
    }
  }

  predicate EndsOutputAt(w: Windows, acts: seq<Act>, sid: Id, k: nat)
    requires k < |acts|
  {
    sid in After(w, acts[..k]).cores && EndsOutput(After(w, acts[..k]), acts[k], sid)
  }

  /**
  The output of a session is over exactly if its reader ended, an input failed or a shutdown dropped the sender at some
  step since the session exists; it never starts again.
  */
  lemma {:induction false} OutputIsOverExactly(w: Windows, acts: seq<Act>, sid: Id)
    requires sid in After(w, acts).cores
    ensures !After(w, acts).cores[sid].output.open <==> exists k :: 0 <= k < |acts| && EndsOutputAt(w, acts, sid, k)
  {
    var (init, act) := (acts[..|acts| - 1], acts[|acts| - 1]);
    var g := After(w, init);
    StepOutput(w, g, act, sid);
    assert EndsOutputAt(w, acts, sid, |init|) <==> sid in g.cores && EndsOutput(g, act, sid);
    if sid in g.cores {
      OutputIsOverExactly(w, init, sid);
      if k :| 0 <= k < |init| && EndsOutputAt(w, init, sid, k) {
        assert init[..k] == acts[..k];
        assert EndsOutputAt(w, acts, sid, k);
      }
      if k :| 0 <= k < |acts| && EndsOutputAt(w, acts, sid, k) && k < |init| {
        assert init[..k] == acts[..k];
        assert EndsOutputAt(w, init, sid, k);
      }
    } else {
      forall k | 0 <= k < |acts| ensures !EndsOutputAt(w, acts, sid, k) {
        if k < |init| && sid in After(w, acts[..k]).cores {
          CoresGrow(w, acts, sid, k);
        }
      }
    }
  }

  lemma {:induction false} CoresGrow(w: Windows, acts: seq<Act>, sid: Id, k: nat)
    requires k < |acts| && sid in After(w, acts[..k]).cores
    ensures sid in After(w, acts[..|acts| - 1]).cores
    decreases |acts|
  {
    var init := acts[..|acts| - 1];
    if k < |init| {
      assert init[..k] == acts[..k];
      CoresGrow(w, init, sid, k);
      StepOnward(w, After(w, init[..|init| - 1]), init[|init| - 1], sid);
    }
  }
}
