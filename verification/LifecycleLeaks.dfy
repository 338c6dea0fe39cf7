/** Isolated sessions whose creator could not open the PTY for writing, and when a session is reclaimed. */
module LifecycleLeaks {
  import opened Time
  import opened Session
  import opened SessionManager
  import opened Lifecycle
  import opened LifecycleResults

  // ----- The way to the leak -----

  /** The places from which a handler can still come to leak, and the leak itself. */
  predicate OnTheWay(pc: Pc) {
    pc.Idle? || pc.Holding? || pc.Registered? || pc.Leaked?
  }

  /** Whoever is on the way was so before, and does not leave the leak. */
  predicate WayStep(pc: Pc, pc': Pc) {
    && (OnTheWay(pc') ==> OnTheWay(pc))
    && (pc.Leaked? ==> pc' == pc)
  }

  /** A task that stays on the way took no session out of the map. */
  predicate TakesNothing(g: World, act: Act, g': World, t: TaskId) {
    OnTheWay(PcOf(g', t)) && !act.ReaderEnds? && act.t == t ==> g.filed <= g'.filed
  }

  lemma HandlerWay(g: World, act: Act, t: TaskId)
    ensures WayStep(PcOf(g, t), PcOf(NextHandler(g, act), t))
  {
  }

  lemma HandlerTakesNothing(g: World, act: Act, t: TaskId)
    ensures TakesNothing(g, act, NextHandler(g, act), t)
  {
  }

  lemma CleanupWay(w: Windows, g: World, act: Act, t: TaskId)
    ensures WayStep(PcOf(g, t), PcOf(NextCleanup(w, g, act), t))
  {
  }

  lemma CleanupTakesNothing(w: Windows, g: World, act: Act, t: TaskId)
    ensures TakesNothing(g, act, NextCleanup(w, g, act), t)
  {
  }

  lemma ShutdownWay(g: World, u: TaskId, t: TaskId)
    requires PcOf(g, u).Removing? ==> PcOf(g, u).resume.Finished? || PcOf(g, u).resume.Sweeping?
    ensures WayStep(PcOf(g, t), PcOf(NextShutdown(g, u), t)) && NextShutdown(g, u).filed == g.filed
    ensures WayStep(PcOf(g, t), PcOf(NextClose(g, u), t)) && NextClose(g, u).filed == g.filed
  {
  }

  lemma OtherWay(w: Windows, g: World, act: Act, t: TaskId)
    requires IsOtherAct(act)
    ensures WayStep(PcOf(g, t), PcOf(Next(w, g, act), t)) && TakesNothing(g, act, Next(w, g, act), t)
  {
  }

  lemma StepWay(w: Windows, g: World, act: Act, t: TaskId)
    requires TasksInv(g)
    ensures WayStep(PcOf(g, t), PcOf(Next(w, g, act), t)) && TakesNothing(g, act, Next(w, g, act), t)
  {
    if act.ShutdownStep? || act.CloseStep? {
      TaskFact(g, act.t);
      ShutdownWay(g, act.t, t);
    } else if IsOtherAct(act) {
      OtherWay(w, g, act, t);
    } else if IsHandlerAct(act) {
      HandlerIsNext(w, g, act);
      HandlerWay(g, act, t);
      HandlerTakesNothing(g, act, t);
    } else {
      CleanupIsNext(w, g, act);
      CleanupWay(w, g, act, t);
      CleanupTakesNothing(w, g, act, t);
    }
  }

  lemma {:induction false} AlwaysOnTheWay(w: Windows, acts: seq<Act>, t: TaskId, k: nat)
    requires k <= |acts| && OnTheWay(PcOf(After(w, acts), t))
    ensures OnTheWay(PcOf(After(w, acts[..k]), t))
    decreases |acts|
  {
    if k == |acts| {
      assert acts[..k] == acts;
    } else {
      var init := acts[..|acts| - 1];
      InvHolds(w, init);
      StepWay(w, After(w, init), acts[|acts| - 1], t);
      AlwaysOnTheWay(w, init, t, k);
      assert init[..k] == acts[..k];
    }
  }

  // ----- Who took a session out of the map -----

  predicate TakenAt(w: Windows, acts: seq<Act>, sid: Id, k: nat)
    requires k < |acts|
  {
    sid in After(w, acts[..k]).filed && sid !in After(w, acts[..k + 1]).filed
  }

  /** Some other task took the session out of the map. */
  predicate TakenByOther(w: Windows, acts: seq<Act>, sid: Id, t: TaskId) {
    exists k :: 0 <= k < |acts| && TakenAt(w, acts, sid, k) && !acts[k].ReaderEnds? && acts[k].t != t
  }

  lemma HandlerCreatesFiled(g: World, act: Act, sid: Id)
    ensures sid !in g.cores && sid in NextHandler(g, act).cores ==> sid in NextHandler(g, act).filed
  {
  }

  lemma OthersCreateNothing(w: Windows, g: World, act: Act, sid: Id)
    requires sid !in g.cores && !IsHandlerAct(act)
    ensures sid !in Next(w, g, act).cores
  {
  }

  lemma ReaderTakesNothing(w: Windows, g: World, act: Act)
    requires act.ReaderEnds?
    ensures Next(w, g, act).filed == g.filed
  {
  }

  lemma {:induction false} WasTaken(w: Windows, acts: seq<Act>, sid: Id) returns (k: nat)
    requires sid in After(w, acts).cores && sid !in After(w, acts).filed
    ensures k < |acts| && TakenAt(w, acts, sid, k) && !acts[k].ReaderEnds?
  {
    var init, act := acts[..|acts| - 1], acts[|acts| - 1];
    var g := After(w, init);
    assert acts[..|acts|] == acts;
    if sid in g.filed {
      k := |init|;
      if act.ReaderEnds? {
        ReaderTakesNothing(w, g, act);
      }
    } else {
      if sid !in g.cores {
        if IsHandlerAct(act) {
          HandlerIsNext(w, g, act);
          HandlerCreatesFiled(g, act, sid);
        } else {
          OthersCreateNothing(w, g, act, sid);
        }
      }
      k := WasTaken(w, init, sid);
      assert init[..k] == acts[..k] && init[..k + 1] == acts[..k + 1];
    }
  }

  /**
  Once its creator's handler has returned, an isolated session is out of the map exactly if that handler did not fail to
  open the PTY for writing, or some other task took the session out.
  */
  lemma ReclaimedExactly(w: Windows, acts: seq<Act>, sid: Id)
    requires var g := After(w, acts);
             IsIsolated(g, sid) && sid in g.owner && (PcOf(g, g.owner[sid]).Finished? || PcOf(g, g.owner[sid]).Leaked?)
    ensures var g := After(w, acts);
            sid !in g.filed <==> !PcOf(g, g.owner[sid]).Leaked? || TakenByOther(w, acts, sid, g.owner[sid])
  {
    var g := After(w, acts);
    var t := g.owner[sid];
    if sid in g.filed {
      IsolatedReclaimed(w, acts, sid);
      forall k | 0 <= k < |acts| ensures !TakenAt(w, acts, sid, k) {
        if TakenAt(w, acts, sid, k) {
          StaysOut(w, acts, sid, k + 1);
        }
      }
    } else if PcOf(g, t).Leaked? {
      var k := WasTaken(w, acts, sid);
      if acts[k].t == t {
        AlwaysOnTheWay(w, acts, t, k + 1);
        InvHolds(w, acts[..k]);
        assert acts[..k + 1] == acts[..k] + [acts[k]];
        ExecSnoc(w, INIT, acts[..k], acts[k]);
        StepWay(w, After(w, acts[..k]), acts[k], t);
      }
    }
  }

  lemma StaysOut(w: Windows, acts: seq<Act>, sid: Id, k: nat)
    requires 0 < k <= |acts| && TakenAt(w, acts, sid, k - 1)
    ensures sid !in After(w, acts).filed
  {
    var before := acts[..k - 1];
    InvHolds(w, before);
    assert acts[..k] == before + [acts[k - 1]];
    ExecSnoc(w, INIT, before, acts[k - 1]);
    StepOnward(w, After(w, before), acts[k - 1], sid);
    assert acts[..k] + acts[k..] == acts;
    ExecAppend(w, INIT, acts[..k], acts[k..]);
    NeverRefiled(w, After(w, acts[..k]), acts[k..], sid);
  }

  // ----- The leak is for ever -----

  predicate IsRegistered(pc: Pc) {
    pc.Registered? || pc.Serving? || pc.Ending? || pc.Leaked?
  }

  /** The client of a handler that did not remove it is there as long as the session is filed. */
  predicate ClientThere(g: World, t: TaskId) {
    IsRegistered(PcOf(g, t)) ==>
      var sid := PcOf(g, t).sid;
      sid in g.cores && (sid in g.filed ==> t in g.cores[sid].clients)
  }

  predicate StaysRegistered(pc: Pc, pc': Pc) {
    IsRegistered(pc') ==> IsRegistered(pc) && pc'.sid == pc.sid
  }

  predicate KeepsClient(g: World, g': World, t: TaskId, sid: Id) {
    sid in g.cores && sid in g.filed && t in g.cores[sid].clients ==> sid in g'.cores && t in g'.cores[sid].clients
  }

  lemma RegisterAddsClient(g: World, t: TaskId, now: Instant)
    requires ClientThere(g, t)
    ensures ClientThere(NextHandler(g, Register(t, now)), t)
  {
  }

  lemma UnregisterLeaves(g: World, t: TaskId, now: Instant)
    requires ClientThere(g, t)
    ensures ClientThere(NextHandler(g, Unregister(t, now)), t)
  {
  }

  lemma HandlerPlace(g: World, act: Act, t: TaskId)
    requires !(act.Register? && act.t == t)
    ensures StaysRegistered(PcOf(g, t), PcOf(NextHandler(g, act), t))
  {
  }

  lemma HandlerKeepsClient(g: World, act: Act, t: TaskId, sid: Id)
    requires !(act.Unregister? && act.t == t)
    ensures KeepsClient(g, NextHandler(g, act), t, sid)
  {
  }

  lemma CleanupPlace(w: Windows, g: World, act: Act, t: TaskId)
    ensures StaysRegistered(PcOf(g, t), PcOf(NextCleanup(w, g, act), t))
  {
  }

  lemma ShutdownPlace(g: World, u: TaskId, t: TaskId)
    requires PcOf(g, u).Removing? ==> PcOf(g, u).resume.Finished? || PcOf(g, u).resume.Sweeping?
    ensures StaysRegistered(PcOf(g, t), PcOf(NextShutdown(g, u), t))
    ensures StaysRegistered(PcOf(g, t), PcOf(NextClose(g, u), t))
  {
  }

  lemma ShutdownKeepsClient(g: World, u: TaskId, t: TaskId, sid: Id)
    requires PcOf(g, u).Removing? ==> PcOf(g, u).sid !in g.filed
    ensures KeepsClient(g, NextShutdown(g, u), t, sid)
  {
  }

  lemma CloseKeepsClient(g: World, u: TaskId, t: TaskId, sid: Id)
    ensures KeepsClient(g, NextClose(g, u), t, sid)
  {
  }

  lemma OtherPlace(w: Windows, g: World, act: Act, t: TaskId)
    requires IsOtherAct(act)
    ensures StaysRegistered(PcOf(g, t), PcOf(Next(w, g, act), t))
  {
  }

  lemma OtherKeepsClient(w: Windows, g: World, act: Act, t: TaskId, sid: Id)
    requires IsOtherAct(act)
    ensures KeepsClient(g, Next(w, g, act), t, sid)
  {
  }

  lemma StepKeepsClient(w: Windows, g: World, act: Act, t: TaskId, sid: Id)
    requires TasksInv(g) && !((act.Register? || act.Unregister?) && act.t == t)
    ensures StaysRegistered(PcOf(g, t), PcOf(Next(w, g, act), t)) && KeepsClient(g, Next(w, g, act), t, sid)
  {
    if act.ShutdownStep? {
      TaskFact(g, act.t);
      ShutdownPlace(g, act.t, t);
      ShutdownKeepsClient(g, act.t, t, sid);
    } else if act.CloseStep? {
      TaskFact(g, act.t);
      ShutdownPlace(g, act.t, t);
      CloseKeepsClient(g, act.t, t, sid);
    } else if IsOtherAct(act) {
      OtherPlace(w, g, act, t);
      OtherKeepsClient(w, g, act, t, sid);
    } else if IsHandlerAct(act) {
      HandlerIsNext(w, g, act);
      HandlerPlace(g, act, t);
      HandlerKeepsClient(g, act, t, sid);
    } else {
      CleanupIsNext(w, g, act);
      CleanupPlace(w, g, act, t);
      CleanupKeepsCores(w, g, act);
    }
  }

  lemma {:induction false} ClientsHold(w: Windows, acts: seq<Act>, t: TaskId)
    ensures ClientThere(After(w, acts), t)
  {
    if acts != [] {
      var g, act := After(w, acts[..|acts| - 1]), acts[|acts| - 1];
      ClientsHold(w, acts[..|acts| - 1], t);
      InvHolds(w, acts[..|acts| - 1]);
      if act.Register? && act.t == t {
        RegisterAddsClient(g, t, act.now);
      } else if act.Unregister? && act.t == t {
        UnregisterLeaves(g, t, act.now);
      } else if IsRegistered(PcOf(After(w, acts), t)) {
        var sid := PcOf(After(w, acts), t).sid;
        StepKeepsClient(w, g, act, t, sid);
        StepOnward(w, g, act, sid);
      }
    }
  }

  /**
  A handler that failed to open the PTY for writing leaves its client behind for good: whatever happens afterwards, the
  session never counts as empty while it is filed.
  */
  lemma {:induction false} LeakStays(w: Windows, acts: seq<Act>, more: seq<Act>, t: TaskId)
    requires PcOf(After(w, acts), t).Leaked?
    ensures var (g, pc) := (After(w, acts + more), PcOf(After(w, acts), t));
            && PcOf(g, t) == pc && pc.sid in g.cores
            && (pc.sid in g.filed ==> t in g.cores[pc.sid].clients)
    decreases |more|
  {
    if more == [] {
      assert acts + more == acts;
    } else {
      var init, last := more[..|more| - 1], more[|more| - 1];
      assert acts + more == (acts + init) + [last];
      LeakStays(w, acts, init, t);
      InvHolds(w, acts + init);
      ExecSnoc(w, INIT, acts + init, last);
      StepWay(w, After(w, acts + init), last, t);
    }
    ClientsHold(w, acts + more, t);
  }
}
