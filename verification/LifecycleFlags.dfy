/**
What a client is told about its right to write. The flag of its `Ready` message is the one it is registered with;
the session decides by its mode and that flag.
*/
module LifecycleFlags {
  import opened Session
  import opened SessionManager
  import opened Lifecycle
  import opened LifecycleResults

  /** The right flag, but for the creator. */
  predicate FlagOk(g: World, t: TaskId, sid: Id, readonly: bool) {
    sid in g.cores && sid in g.owner && (readonly <==> g.cores[sid].mode == SharedReadOnly && g.owner[sid] != t)
  }

  predicate HoldingOk(g: World, t: TaskId) {
    PcOf(g, t).Holding? ==> FlagOk(g, t, PcOf(g, t).sid, PcOf(g, t).readonly)
  }

  predicate ClientOk(g: World, t: TaskId, sid: Id) {
    sid in g.cores && t in g.cores[sid].clients ==> FlagOk(g, t, sid, g.cores[sid].clients[t].readonly)
  }

  predicate OwnerOk(g: World, t: TaskId, sid: Id) {
    && (sid in g.cores ==> sid in g.owner)
    && (sid in g.owner && g.owner[sid] == t ==> !PcOf(g, t).Idle?)
  }

  predicate FlagsOk(g: World, t: TaskId, sid: Id) {
    HoldingOk(g, t) && ClientOk(g, t, sid) && OwnerOk(g, t, sid)
  }

  /** Nobody begins, or takes a session up. */
  predicate PlaceKeeps(pc: Pc, pc': Pc) {
    pc'.Holding? || pc'.Idle? ==> pc' == pc
  }

  /** Sessions keep their mode and their creator, and no client is added. */
  predicate CoreKeeps(g: World, g': World, t: TaskId, sid: Id) {
    && g'.owner == g.owner && (sid in g.cores <==> sid in g'.cores)
    && (sid in g.cores ==> g'.cores[sid].mode == g.cores[sid].mode)
    && (sid in g'.cores && t in g'.cores[sid].clients ==>
          t in g.cores[sid].clients && g'.cores[sid].clients[t] == g.cores[sid].clients[t])
  }

  predicate TakesUp(act: Act) {
    act.Create? || act.Join? || act.Register?
  }

  lemma HandlerKeepsPlace(g: World, act: Act, t: TaskId)
    requires !TakesUp(act)
    ensures PlaceKeeps(PcOf(g, t), PcOf(NextHandler(g, act), t))
  {
  }

  lemma HandlerKeepsCore(g: World, act: Act, t: TaskId, sid: Id)
    requires !TakesUp(act)
    ensures CoreKeeps(g, NextHandler(g, act), t, sid)
  {
  }

  lemma CleanupKeepsPlace(w: Windows, g: World, act: Act, t: TaskId)
    ensures PlaceKeeps(PcOf(g, t), PcOf(NextCleanup(w, g, act), t))
  {
  }

  lemma ShutdownKeepsPlace(g: World, u: TaskId, t: TaskId)
    requires PcOf(g, u).Removing? ==> PcOf(g, u).resume.Finished? || PcOf(g, u).resume.Sweeping?
    ensures PlaceKeeps(PcOf(g, t), PcOf(NextShutdown(g, u), t)) && PlaceKeeps(PcOf(g, t), PcOf(NextClose(g, u), t))
  {
  }

  lemma ShutdownKeepsCore(g: World, u: TaskId, t: TaskId, sid: Id)
    ensures CoreKeeps(g, NextShutdown(g, u), t, sid)
  {
  }

  lemma CloseKeepsCore(g: World, u: TaskId, t: TaskId, sid: Id)
    ensures CoreKeeps(g, NextClose(g, u), t, sid)
  {
  }

  lemma OtherKeepsPlace(w: Windows, g: World, act: Act, t: TaskId)
    requires IsOtherAct(act)
    ensures PlaceKeeps(PcOf(g, t), PcOf(Next(w, g, act), t))
  {
  }

  lemma OtherKeepsCore(w: Windows, g: World, act: Act, t: TaskId, sid: Id)
    requires IsOtherAct(act)
    ensures CoreKeeps(g, Next(w, g, act), t, sid)
  {
  }

  lemma CreateFlags(g: World, act: Act, t: TaskId, sid: Id)
    requires act.Create? && FlagsOk(g, t, sid) && FlagsOk(g, t, act.sid) && OwnerOk(g, act.t, sid)
    requires PcOf(g, t).Holding? ==> FlagsOk(g, t, PcOf(g, t).sid)
    ensures FlagsOk(NextHandler(g, act), t, sid)
  {
  }

  lemma JoinFlags(g: World, act: Act, t: TaskId, sid: Id)
    requires act.Join? && FlagsOk(g, t, sid) && FlagsOk(g, t, act.sid)
    ensures FlagsOk(NextHandler(g, act), t, sid)
  {
  }

  lemma RegisterFlags(g: World, act: Act, t: TaskId, sid: Id)
    requires act.Register? && FlagsOk(g, t, sid) && FlagsOk(g, act.t, sid)
    ensures FlagsOk(NextHandler(g, act), t, sid)
  {
  }

  lemma NobodyKeepsFlags(g: World, g': World, t: TaskId, sid: Id)
    requires FlagsOk(g, t, sid) && PlaceKeeps(PcOf(g, t), PcOf(g', t)) && CoreKeeps(g, g', t, sid)
    requires PcOf(g, t).Holding? ==> CoreKeeps(g, g', t, PcOf(g, t).sid)
    ensures FlagsOk(g', t, sid)
  {
  }

  lemma StepKeepsPlace(w: Windows, g: World, act: Act, t: TaskId)
    requires TasksInv(g) && !TakesUp(act)
    ensures PlaceKeeps(PcOf(g, t), PcOf(Next(w, g, act), t))
  {
    if act.ShutdownStep? || act.CloseStep? {
      TaskFact(g, act.t);
      ShutdownKeepsPlace(g, act.t, t);
    } else if IsOtherAct(act) {
      OtherKeepsPlace(w, g, act, t);
    } else if IsHandlerAct(act) {
      HandlerIsNext(w, g, act);
      HandlerKeepsPlace(g, act, t);
    } else {
      CleanupIsNext(w, g, act);
      CleanupKeepsPlace(w, g, act, t);
    }
  }

  lemma StepKeepsCore(w: Windows, g: World, act: Act, t: TaskId, sid: Id)
    requires !TakesUp(act)
    ensures CoreKeeps(g, Next(w, g, act), t, sid)
  {
    if act.ShutdownStep? {
      ShutdownKeepsCore(g, act.t, t, sid);
    } else if act.CloseStep? {
      CloseKeepsCore(g, act.t, t, sid);
    } else if IsOtherAct(act) {
      OtherKeepsCore(w, g, act, t, sid);
    } else if IsHandlerAct(act) {
      HandlerIsNext(w, g, act);
      HandlerKeepsCore(g, act, t, sid);
    } else {
      CleanupIsNext(w, g, act);
      CleanupKeepsCores(w, g, act);
      CleanupKeepsOwners(w, g, act);
    }
  }

  lemma {:induction false} FlagsHold(w: Windows, acts: seq<Act>, t: TaskId, sid: Id)
    ensures FlagsOk(After(w, acts), t, sid)
    decreases |acts|, 0
  {
    if acts != [] {
      var init, act := acts[..|acts| - 1], acts[|acts| - 1];
      var g := After(w, init);
      FlagsHold(w, init, t, sid);
      if TakesUp(act) {
        HandlerIsNext(w, g, act);
        TakesUpFlags(w, init, act, t, sid);
      } else {
        InvHolds(w, init);
        StepKeepsPlace(w, g, act, t);
        StepKeepsCore(w, g, act, t, sid);
        if PcOf(g, t).Holding? {
          StepKeepsCore(w, g, act, t, PcOf(g, t).sid);
        }
        NobodyKeepsFlags(g, Next(w, g, act), t, sid);
      }
    }
  }

  lemma {:induction false} TakesUpFlags(w: Windows, init: seq<Act>, act: Act, t: TaskId, sid: Id)
    requires TakesUp(act)
    ensures FlagsOk(NextHandler(After(w, init), act), t, sid)
    decreases |init|, 1
  {
    var g := After(w, init);
    FlagsHold(w, init, t, sid);
    FlagsHold(w, init, act.t, sid);
    match act
    case Create(_, other, _, _) =>
      FlagsHold(w, init, t, other);
      if PcOf(g, t).Holding? {
        FlagsHold(w, init, t, PcOf(g, t).sid);
      }
      CreateFlags(g, act, t, sid);
    case Join(_, other) =>
      FlagsHold(w, init, t, other);
      JoinFlags(g, act, t, sid);
    case Register(_, _) => RegisterFlags(g, act, t, sid);
  }

  /**
  In every run, what a registered client was told is what the session enforces, unless it is the creator of a shared
  read-only session: then, and only then, it was told that it may write while every write is refused.
  */
  lemma ToldExactly(w: Windows, acts: seq<Act>, t: TaskId, sid: Id)
    requires sid in After(w, acts).cores && t in After(w, acts).cores[sid].clients
    ensures var core := After(w, acts).cores[sid];
            && sid in After(w, acts).owner
            && (core.clients[t].readonly == !MayWrite(core, t) <==>
                !(core.mode == SharedReadOnly && After(w, acts).owner[sid] == t))
            && (core.mode == SharedReadOnly ==> !MayWrite(core, t))
  {
    FlagsHold(w, acts, t, sid);
  }
}
