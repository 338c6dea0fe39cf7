/**
The cleanup of the interleaved machine, when its task runs alone: it does what `SessionManager.CleanupInactive` does,
in whatever order it looks at the sessions.
*/
module LifecycleAlone {
  import opened Wrappers
  import opened Time
  import opened Session
  import opened SessionManager
  import opened Lifecycle
  import opened LifecycleResults
  import opened LifecycleCleanup

  /** The states of the filed sessions: what the manager's map shows. */
  function FiledCores(g: World): map<Id, Core> {
    map sid | sid in g.filed && sid in g.cores :: g.cores[sid]
  }

  function Due(w: Windows, g: World, now: Instant): set<Id> {
    AllExpired(FiledCores(g), now, w)
  }

  /** What the cleanup should put on one of its lists, in the end. */
  predicate Listed(w: Windows, g: World, now: Instant, sid: Id, empty: bool) {
    sid in ExpiredIds(FiledCores(g), now, w, empty)
  }

  function Elements(sids: seq<Id>): set<Id> {
    set sid | sid in sids
  }

  /** The session after some stages of its shutdown. */
  function Partly(c: Core, stage: Stage): Core {
    match stage
    case ToCancel => c
    case ToDrop => Cancelled(c)
    case ToAbort => PtyExited(Cancelled(c))
    case ToClear => Terminated(c)
  }

  /** Exactly the sessions in `gone` were swept. */
  predicate SweptSoFar(start: World, filed: set<Id>, cores: map<Id, Core>, gone: set<Id>) {
    filed == start.filed - gone && cores == SweptStates(start.cores, gone)
  }

  /** The lists of the scan hold what is due, apart from what was not looked at yet. */
  ghost predicate ScanOk(w: Windows, start: World, now: Instant, filed: set<Id>, cores: map<Id, Core>, pc: Pc)
    requires pc.Scanning?
  {
    && pc.now == now && filed == start.filed && cores == start.cores && pc.todo <= start.filed
    && (pc.current.Some? ==>
          var (sid, lastActivity) := pc.current.value;
          sid in start.filed && sid in start.cores && sid !in pc.todo && lastActivity == start.cores[sid].lastActivity)
    && (forall sid :: sid in pc.empty <==> Listed(w, start, now, sid, true) && Looked(pc, sid))
    && (forall sid :: sid in pc.stale <==> Listed(w, start, now, sid, false) && Looked(pc, sid))
  }

  predicate Looked(pc: Pc, sid: Id)
    requires pc.Scanning?
  {
    sid !in pc.todo && !(pc.current.Some? && pc.current.value.0 == sid)
  }

  /** What is left to sweep is due, and all else that is due was swept. */
  ghost predicate SweepOk(w: Windows, start: World, now: Instant, filed: set<Id>, cores: map<Id, Core>, pc: Pc)
    requires pc.Sweeping?
  {
    && Pending(w, start, now, pc)
    && SweptSoFar(start, filed, cores, Gone(w, start, now, pc))
  }

  ghost predicate Pending(w: Windows, start: World, now: Instant, pc: Pc)
    requires pc.Sweeping?
  {
    && pc.now == now && Distinct(pc.empty) && Distinct(pc.stale)
    && (forall sid :: sid in pc.empty ==> Listed(w, start, now, sid, true))
    && (forall sid :: sid in pc.stale ==> Listed(w, start, now, sid, false))
  }

  function Gone(w: Windows, start: World, now: Instant, pc: Pc): set<Id>
    requires pc.Sweeping?
  {
    Due(w, start, now) - Elements(pc.empty) - Elements(pc.stale)
  }

  /** Everything is swept but for the session in hand, whose shutdown has come to the given stage. */
  ghost predicate RemovingOk(w: Windows, start: World, now: Instant, filed: set<Id>, cores: map<Id, Core>, pc: Pc)
    requires pc.Removing?
  {
    && pc.resume.Sweeping? && Pending(w, start, now, pc.resume)
    && var (sid, gone) := (pc.sid, Gone(w, start, now, pc.resume));
       && sid in gone && sid in start.cores && filed == start.filed - gone
       && pc.clears == (start.cores[sid].clients != map[])
       && (pc.stage.ToClear? ==> pc.clears)
       && cores == SweptStates(start.cores, gone - {sid})[sid := Partly(start.cores[sid], pc.stage)]
  }

  ghost predicate AloneOk(w: Windows, start: World, now: Instant, g: World, t: TaskId) {
    var pc := PcOf(g, t);
    match pc
    case Scanning(_, _, _, _, _) => ScanOk(w, start, now, g.filed, g.cores, pc)
    case Sweeping(_, _, _) => SweepOk(w, start, now, g.filed, g.cores, pc)
    case Removing(_, _, _, _, _) => RemovingOk(w, start, now, g.filed, g.cores, pc)
    case Finished => SweptSoFar(start, g.filed, g.cores, Due(w, start, now))
    case _ => false
  }

  // ----- One step -----

  lemma SweptNoneYet(w: Windows, start: World, now: Instant, filed: set<Id>, cores: map<Id, Core>, pc: Pc)
    requires start.filed <= start.cores.Keys
    requires pc.Scanning? && ScanOk(w, start, now, filed, cores, pc) && pc.todo == {} && pc.current.None?
    requires Distinct(pc.empty) && Distinct(pc.stale)
    ensures SweepOk(w, start, now, filed, cores, Sweeping(pc.now, pc.empty, pc.stale))
  {
    var pc' := Sweeping(pc.now, pc.empty, pc.stale);
    forall sid | sid in Due(w, start, now) ensures sid in pc.empty || sid in pc.stale {
      assert Listed(w, start, now, sid, start.cores[sid].clients == map[]);
      assert Looked(pc, sid);
    }
    assert Gone(w, start, now, pc') == {};
    SweptNone(start.cores);
  }

  lemma GoneAfterHead(w: Windows, start: World, now: Instant, pc: Pc, pc': Pc, sid: Id)
    requires pc.Sweeping? && pc'.Sweeping? && Pending(w, start, now, pc) && pc'.now == pc.now
    requires || (pc.empty != [] && sid == pc.empty[0] && pc'.empty == pc.empty[1..] && pc'.stale == pc.stale)
             || (pc.empty == [] && pc.stale != [] && sid == pc.stale[0] && pc'.empty == []
                && pc'.stale == pc.stale[1..])
    ensures Pending(w, start, now, pc')
    ensures sid !in Gone(w, start, now, pc) && Gone(w, start, now, pc') == Gone(w, start, now, pc) + {sid}
  {
    if pc.empty != [] {
      HeadGone(pc.empty, sid);
      assert forall other :: other in pc.empty <==> other == sid || other in pc'.empty;
      assert sid !in pc.stale && sid !in pc'.empty by {
        HeadGone(pc.empty, sid);
        assert Listed(w, start, now, sid, true);
      }
    } else {
      HeadGone(pc.stale, sid);
      assert forall other :: other in pc.stale <==> other == sid || other in pc'.stale;
      assert sid !in pc'.stale;
      assert Listed(w, start, now, sid, false);
    }
  }

  lemma SweptOneMore(cores: map<Id, Core>, gone: set<Id>, sid: Id)
    requires sid in cores && sid !in gone
    ensures SweptStates(cores, gone)[sid] == cores[sid]
    ensures SweptStates(cores, gone)[sid := cores[sid]] == SweptStates(cores, gone)
    ensures SweptStates(cores, gone)[sid := Swept(cores[sid])] == SweptStates(cores, gone + {sid})
  {
  }

  lemma ScanAlone(w: Windows, start: World, now: Instant, g: World, act: Act)
    requires start.filed <= start.cores.Keys && IsCleanupAct(act)
    requires PcOf(g, act.t).Scanning? && Tidy(PcOf(g, act.t)) && AloneOk(w, start, now, g, act.t)
    ensures AloneOk(w, start, now, NextCleanup(w, g, act), act.t)
  {
    var pc := PcOf(g, act.t);
    match act
    case ReadActivity(t, sid) => ReadActivityAlone(w, start, now, g, t, sid);
    case ReadEmptiness(t) => ReadEmptinessAlone(w, start, now, g, t);
    case EndScan(t) =>
      if pc.todo == {} && pc.current.None? {
        SweptNoneYet(w, start, now, g.filed, g.cores, pc);
      }
    case _ =>
  }

  lemma ReadActivityAlone(w: Windows, start: World, now: Instant, g: World, t: TaskId, sid: Id)
    requires PcOf(g, t).Scanning? && AloneOk(w, start, now, g, t)
    ensures AloneOk(w, start, now, NextCleanup(w, g, ReadActivity(t, sid)), t)
  {
    ReadActivityTakes(w, g, t, sid);
    var (pc, pc') := (PcOf(g, t), PcOf(NextCleanup(w, g, ReadActivity(t, sid)), t));
    if ReadsActivity(g, t, sid) {
      assert forall other :: Looked(pc', other) <==> Looked(pc, other);
    }
  }

  lemma ReadEmptinessAlone(w: Windows, start: World, now: Instant, g: World, t: TaskId)
    requires PcOf(g, t).Scanning? && AloneOk(w, start, now, g, t)
    ensures AloneOk(w, start, now, NextCleanup(w, g, ReadEmptiness(t)), t)
  {
    var (pc, pc') := (PcOf(g, t), PcOf(NextCleanup(w, g, ReadEmptiness(t)), t));
    if pc.current.Some? {
      var sid := pc.current.value.0;
      EmptinessNotes(w, g, t);
      NotesTheDue(w, start, now, g, t, sid, true);
      NotesTheDue(w, start, now, g, t, sid, false);
      assert forall other :: Looked(pc', other) <==> Looked(pc, other) || other == sid;
      assert !Looked(pc, sid);
    }
  }

  lemma NotesTheDue(w: Windows, start: World, now: Instant, g: World, t: TaskId, sid: Id, empty: bool)
    requires PcOf(g, t).Scanning? && AloneOk(w, start, now, g, t)
    requires PcOf(g, t).current.Some? && PcOf(g, t).current.value.0 == sid
    ensures Notes(w, g, t, sid, empty) <==> Listed(w, start, now, sid, empty)
  {
  }

  lemma EmptinessNotes(w: Windows, g: World, t: TaskId)
    requires PcOf(g, t).Scanning? && PcOf(g, t).current.Some? && PcOf(g, t).current.value.0 in g.cores
    ensures var (pc, g') := (PcOf(g, t), NextCleanup(w, g, ReadEmptiness(t)));
            var sid := pc.current.value.0;
            && g'.filed == g.filed && g'.cores == g.cores
            && PcOf(g', t) == pc.(current := None,
                                  empty := if Notes(w, g, t, sid, true) then pc.empty + [sid] else pc.empty,
                                  stale := if Notes(w, g, t, sid, false) then pc.stale + [sid] else pc.stale)
  {
  }

  lemma SweepEmptyAlone(w: Windows, start: World, now: Instant, g: World, t: TaskId)
    requires start.filed <= start.cores.Keys && PcOf(g, t).Sweeping? && AloneOk(w, start, now, g, t)
    ensures AloneOk(w, start, now, NextCleanup(w, g, SweepEmpty(t)), t)
  {
    var pc := PcOf(g, t);
    if pc.empty != [] && WriteFree(g) {
      var (sid, rest) := (pc.empty[0], Sweeping(pc.now, pc.empty[1..], pc.stale));
      assert Listed(w, start, now, sid, true);
      GoneAfterHead(w, start, now, pc, rest, sid);
      SweptOneMore(start.cores, Gone(w, start, now, pc), sid);
      assert NextCleanup(w, g, SweepEmpty(t)) == Unfile(g, t, sid, true, false, rest);
      UnfileAlone(w, start, now, g, t, sid, false, pc, rest);
    }
  }

  lemma SweepStaleAlone(w: Windows, start: World, now: Instant, g: World, t: TaskId)
    requires start.filed <= start.cores.Keys && PcOf(g, t).Sweeping? && AloneOk(w, start, now, g, t)
    ensures AloneOk(w, start, now, NextCleanup(w, g, SweepStale(t)), t)
  {
    var pc := PcOf(g, t);
    if pc.empty == [] && pc.stale != [] && WriteFree(g) {
      var (sid, rest) := (pc.stale[0], Sweeping(pc.now, [], pc.stale[1..]));
      assert Listed(w, start, now, sid, false);
      GoneAfterHead(w, start, now, pc, rest, sid);
      assert NextCleanup(w, g, SweepStale(t)) == Unfile(g, t, sid, true, true, rest);
      UnfileAlone(w, start, now, g, t, sid, true, pc, rest);
    }
  }

  lemma UnfileAlone(
      w: Windows, start: World, now: Instant, g: World, t: TaskId, sid: Id, clears: bool, pc: Pc, rest: Pc)
    requires pc.Sweeping? && rest.Sweeping? && SweepOk(w, start, now, g.filed, g.cores, pc)
    requires sid in start.cores && clears == (start.cores[sid].clients != map[])
    requires Pending(w, start, now, rest) && sid !in Gone(w, start, now, pc)
    requires Gone(w, start, now, rest) == Gone(w, start, now, pc) + {sid}
    ensures AloneOk(w, start, now, Unfile(g, t, sid, true, clears, rest), t)
  {
    var gone := Gone(w, start, now, pc);
    assert gone + {sid} - {sid} == gone;
    SweptOneMore(start.cores, gone, sid);
  }

  lemma RemovalAlone(w: Windows, start: World, now: Instant, g: World, t: TaskId)
    requires PcOf(g, t).Removing? && AloneOk(w, start, now, g, t)
    ensures AloneOk(w, start, now, NextShutdown(g, t), t)
  {
    var pc := PcOf(g, t);
    var (sid, gone) := (pc.sid, Gone(w, start, now, pc.resume));
    SweptOneMore(start.cores, gone - {sid}, sid);
    assert gone - {sid} + {sid} == gone;
    StageAlone(g, t, start.cores[sid], SweptStates(start.cores, gone - {sid}));
  }

  function NextStage(stage: Stage): Stage {
    match stage
    case ToCancel => ToDrop
    case ToDrop => ToAbort
    case _ => ToClear
  }

  predicate IsLast(pc: Pc)
    requires pc.Removing?
  {
    pc.stage.ToClear? || (pc.stage.ToAbort? && !pc.clears)
  }

  /** What a step of a shutdown does to the session in hand. */
  predicate StageDone(g: World, t: TaskId, c: Core, g': World)
    requires PcOf(g, t).Removing?
  {
    var pc := PcOf(g, t);
    && g'.filed == g.filed
    && PcOf(g', t) == (if IsLast(pc) then pc.resume else pc.(stage := NextStage(pc.stage)))
    && g'.cores == g.cores[pc.sid := if pc.stage.ToClear? then Swept(c) else Partly(c, NextStage(pc.stage))]
  }

  lemma FirstStages(g: World, t: TaskId, c: Core)
    requires PcOf(g, t).Removing? && PcOf(g, t).sid in g.cores
    requires PcOf(g, t).stage.ToCancel? || PcOf(g, t).stage.ToDrop?
    requires g.cores[PcOf(g, t).sid] == Partly(c, PcOf(g, t).stage)
    ensures StageDone(g, t, c, NextShutdown(g, t))
  {
  }

  lemma AbortStage(g: World, t: TaskId, c: Core)
    requires PcOf(g, t).Removing? && PcOf(g, t).sid in g.cores && PcOf(g, t).stage.ToAbort?
    requires g.cores[PcOf(g, t).sid] == Partly(c, ToAbort)
    ensures StageDone(g, t, c, NextShutdown(g, t))
  {
  }

  lemma ClearStage(g: World, t: TaskId, c: Core)
    requires PcOf(g, t).Removing? && PcOf(g, t).sid in g.cores && PcOf(g, t).stage.ToClear?
    requires g.cores[PcOf(g, t).sid] == Partly(c, ToClear)
    ensures StageDone(g, t, c, NextShutdown(g, t))
  {
  }

  lemma StageAlone(g: World, t: TaskId, c: Core, cores: map<Id, Core>)
    requires PcOf(g, t).Removing? && g.cores == cores[PcOf(g, t).sid := Partly(c, PcOf(g, t).stage)]
    requires PcOf(g, t).clears == (c.clients != map[])
    ensures var (pc, g') := (PcOf(g, t), NextShutdown(g, t));
            && g'.filed == g.filed
            && PcOf(g', t) == (if IsLast(pc) then pc.resume else pc.(stage := NextStage(pc.stage)))
            && g'.cores == cores[pc.sid := if IsLast(pc) then Swept(c) else Partly(c, NextStage(pc.stage))]
  {
    match PcOf(g, t).stage {
      case ToAbort => AbortStage(g, t, c);
      case ToClear => ClearStage(g, t, c);
      case _ => FirstStages(g, t, c);
    }
    assert c.clients == map[] ==> Swept(c) == Terminated(c);
  }

  // ----- Any run of the task -----

  predicate InCleanup(pc: Pc) {
    pc.Scanning? || pc.Sweeping? || pc.Removing? || pc.Finished?
  }

  lemma HandlerNotThere(g: World, act: Act)
    requires IsHandlerAct(act) && InCleanup(PcOf(g, act.t))
    ensures NextHandler(g, act) == g
  {
  }

  lemma OtherNotThere(w: Windows, g: World, act: Act)
    requires IsOtherAct(act) && !act.ReaderEnds? && InCleanup(PcOf(g, act.t))
    ensures Next(w, g, act) == g
  {
  }

  lemma CleanupNotThere(w: Windows, g: World, act: Act)
    requires IsCleanupAct(act) && (PcOf(g, act.t).Removing? || PcOf(g, act.t).Finished?)
    ensures NextCleanup(w, g, act) == g
  {
  }

  lemma SweepingAlone(w: Windows, start: World, now: Instant, g: World, act: Act)
    requires start.filed <= start.cores.Keys && IsCleanupAct(act)
    requires PcOf(g, act.t).Sweeping? && AloneOk(w, start, now, g, act.t)
    ensures AloneOk(w, start, now, NextCleanup(w, g, act), act.t)
  {
    match act
    case SweepEmpty(t) => SweepEmptyAlone(w, start, now, g, t);
    case SweepStale(t) => SweepStaleAlone(w, start, now, g, t);
    case EndSweep(t) => EndSweepAlone(w, start, now, g, t);
    case _ =>
  }

  lemma EndSweepAlone(w: Windows, start: World, now: Instant, g: World, t: TaskId)
    requires PcOf(g, t).Sweeping? && AloneOk(w, start, now, g, t)
    ensures AloneOk(w, start, now, NextCleanup(w, g, EndSweep(t)), t)
  {
    assert Elements([]) == {};
  }

  lemma StepAlone(w: Windows, start: World, now: Instant, g: World, act: Act)
    requires start.filed <= start.cores.Keys && !act.ReaderEnds?
    requires Tidy(PcOf(g, act.t)) && AloneOk(w, start, now, g, act.t)
    ensures AloneOk(w, start, now, Next(w, g, act), act.t)
  {
    var pc := PcOf(g, act.t);
    if act.ShutdownStep? {
      if pc.Removing? {
        RemovalAlone(w, start, now, g, act.t);
      }
    } else if act.CloseStep? {
    } else if IsOtherAct(act) {
      OtherNotThere(w, g, act);
    } else if IsHandlerAct(act) {
      HandlerIsNext(w, g, act);
      HandlerNotThere(g, act);
    } else {
      CleanupIsNext(w, g, act);
      if pc.Scanning? {
        ScanAlone(w, start, now, g, act);
      } else if pc.Sweeping? {
        SweepingAlone(w, start, now, g, act);
      } else {
        CleanupNotThere(w, g, act);
      }
    }
  }

  predicate OnlyBy(acts: seq<Act>, t: TaskId) {
    forall k | 0 <= k < |acts| :: !acts[k].ReaderEnds? && acts[k].t == t
  }

  lemma {:induction false} RunAlone(w: Windows, before: seq<Act>, acts: seq<Act>, t: TaskId, now: Instant)
    requires OnlyBy(acts, t) && PcOf(After(w, before), t).Idle?
    requires PcOf(After(w, before + [StartScan(t, now)]), t).Scanning?
    ensures AloneOk(w, After(w, before), now, After(w, before + [StartScan(t, now)] + acts), t)
  {
    var start := After(w, before);
    var first := before + [StartScan(t, now)];
    InvHolds(w, before);
    if acts == [] {
      assert first + acts == first;
      ExecSnoc(w, INIT, before, StartScan(t, now));
      StartsAlone(w, start, t, now);
    } else {
      var (init, act) := (acts[..|acts| - 1], acts[|acts| - 1]);
      assert first + acts == (first + init) + [act];
      RunAlone(w, before, init, t, now);
      TidyHolds(w, first + init, t);
      ExecSnoc(w, INIT, first + init, act);
      StepAlone(w, start, now, After(w, first + init), act);
    }
  }

  lemma StartsAlone(w: Windows, g: World, t: TaskId, now: Instant)
    requires g.filed <= g.cores.Keys && PcOf(g, t).Idle? && PcOf(Next(w, g, StartScan(t, now)), t).Scanning?
    ensures AloneOk(w, g, now, Next(w, g, StartScan(t, now)), t)
  {
    var g' := Next(w, g, StartScan(t, now));
    assert PcOf(g', t) == Scanning(now, g.filed, None, [], []);
    assert forall sid, empty :: Listed(w, g, now, sid, empty) ==> sid in g.filed;
  }

  /**
  From any point of any run: a cleanup that comes to its end while no other task takes a step has taken exactly the
  expired sessions out of the map, torn them down and touched no other, as the manager's method does.
  */
  lemma CleanupAlone(w: Windows, before: seq<Act>, acts: seq<Act>, t: TaskId, now: Instant)
    requires OnlyBy(acts, t) && PcOf(After(w, before), t).Idle?
    requires PcOf(After(w, before + [StartScan(t, now)]), t).Scanning?
    requires PcOf(After(w, before + [StartScan(t, now)] + acts), t).Finished?
    ensures var (start, end) := (After(w, before), After(w, before + [StartScan(t, now)] + acts));
            var gone := AllExpired(FiledCores(start), now, w);
            end.filed == start.filed - gone && end.cores == SweptStates(start.cores, gone)
  {
    RunAlone(w, before, acts, t, now);
  }

  // ----- Such a run exists -----

  /** No other task stands in the way of the lock. */
  predicate OthersFree(g: World, t: TaskId) {
    forall u | u in g.tasks && u != t :: !HoldsWrite(g.tasks[u]) && !g.tasks[u].Scanning?
  }

  /** How much of the cleanup is left: the phase, then the work in it. */
  function Phase(pc: Pc): nat {
    if pc.Scanning? then 2 else if pc.Sweeping? || pc.Removing? then 1 else 0
  }

  function SweepsLeft(pc: Pc): nat
    requires pc.Sweeping?
  {
    |pc.empty| + |pc.stale|
  }

  function StagesLeft(stage: Stage): nat {
    match stage
    case ToCancel => 4
    case ToDrop => 3
    case ToAbort => 2
    case ToClear => 1
  }

  function WorkLeft(pc: Pc): nat {
    match pc
    case Scanning(_, todo, current, _, _) => 2 * |todo| + if current.Some? then 1 else 0
    case Sweeping(_, _, _) => 5 * SweepsLeft(pc)
    case Removing(_, stage, _, _, resume) => StagesLeft(stage) + if resume.Sweeping? then 5 * SweepsLeft(resume) else 0
    case _ => 0
  }

  /** The step brings the task nearer to its end. */
  predicate Nearer(pc: Pc, pc': Pc) {
    InCleanup(pc') && (Phase(pc') < Phase(pc) || (Phase(pc') == Phase(pc) && WorkLeft(pc') < WorkLeft(pc)))
  }

  lemma CleanupMovesOwn(w: Windows, g: World, act: Act, t: TaskId)
    requires IsCleanupAct(act) && act.t == t && t in g.tasks && OthersFree(g, t)
    ensures OthersFree(NextCleanup(w, g, act), t) && t in NextCleanup(w, g, act).tasks
  {
  }

  lemma ShutdownMovesOwn(g: World, t: TaskId)
    requires t in g.tasks && OthersFree(g, t)
    ensures OthersFree(NextShutdown(g, t), t) && t in NextShutdown(g, t).tasks
  {
  }

  /** The next step of the scan. */
  lemma ScanGoesOn(w: Windows, g: World, t: TaskId) returns (act: Act)
    requires PcOf(g, t).Scanning? && LooksAtFiled(PcOf(g, t), g.filed) && g.filed <= g.cores.Keys
    ensures IsCleanupAct(act) && act.t == t && Nearer(PcOf(g, t), PcOf(NextCleanup(w, g, act), t))
  {
    var pc := PcOf(g, t);
    if pc.current.Some? {
      act := ReadEmptiness(t);
      EmptinessNotes(w, g, t);
    } else if pc.todo != {} {
      var sid :| sid in pc.todo;
      act := ReadActivity(t, sid);
      ReadActivityTakes(w, g, t, sid);
      TodoLess(pc.todo, sid);
    } else {
      act := EndScan(t);
    }
  }

  lemma TodoLess(todo: set<Id>, sid: Id)
    requires sid in todo
    ensures |todo - {sid}| < |todo|
  {
  }

  /** The next step of the sweep. */
  lemma SweepGoesOn(w: Windows, g: World, t: TaskId) returns (act: Act)
    requires PcOf(g, t).Sweeping? && OthersFree(g, t)
    ensures IsCleanupAct(act) && act.t == t && Nearer(PcOf(g, t), PcOf(NextCleanup(w, g, act), t))
  {
    var pc := PcOf(g, t);
    assert WriteFree(g);
    if pc.empty != [] {
      act := SweepEmpty(t);
      SweepEmptyMoves(w, g, t);
      SweepNearer(pc, Sweeping(pc.now, pc.empty[1..], pc.stale), PcOf(NextCleanup(w, g, act), t));
    } else if pc.stale != [] {
      act := SweepStale(t);
      SweepStaleMoves(w, g, t);
      SweepNearer(pc, Sweeping(pc.now, [], pc.stale[1..]), PcOf(NextCleanup(w, g, act), t));
    } else {
      act := EndSweep(t);
      SweepEnds(w, g, t);
    }
  }

  lemma SweepNearer(pc: Pc, rest: Pc, pc': Pc)
    requires pc.Sweeping? && rest.Sweeping? && SweepsLeft(rest) < SweepsLeft(pc) && SweepMove(pc, rest, pc')
    ensures Nearer(pc, pc')
  {
  }

  lemma SweepEnds(w: Windows, g: World, t: TaskId)
    requires PcOf(g, t).Sweeping? && PcOf(g, t).empty == [] && PcOf(g, t).stale == []
    ensures PcOf(NextCleanup(w, g, EndSweep(t)), t) == Finished
  {
  }

  /** The next step of a removal. */
  lemma RemovalGoesOn(g: World, t: TaskId, c: Core)
    requires PcOf(g, t).Removing? && PcOf(g, t).sid in g.cores && PcOf(g, t).resume.Sweeping?
    requires g.cores[PcOf(g, t).sid] == Partly(c, PcOf(g, t).stage)
    ensures Nearer(PcOf(g, t), PcOf(NextShutdown(g, t), t))
  {
    match PcOf(g, t).stage {
      case ToAbort => AbortStage(g, t, c);
      case ToClear => ClearStage(g, t, c);
      case _ => FirstStages(g, t, c);
    }
  }

  lemma GoesOn(w: Windows, start: World, now: Instant, g: World, t: TaskId) returns (act: Act)
    requires t in g.tasks && OthersFree(g, t) && AloneOk(w, start, now, g, t) && !PcOf(g, t).Finished?
    requires LooksAtFiled(PcOf(g, t), g.filed) && g.filed <= g.cores.Keys
    ensures !act.ReaderEnds? && act.t == t && Nearer(PcOf(g, t), PcOf(Next(w, g, act), t))
    ensures OthersFree(Next(w, g, act), t) && t in Next(w, g, act).tasks
  {
    var pc := PcOf(g, t);
    if pc.Removing? {
      act := ShutdownStep(t);
      RemovalGoesOn(g, t, start.cores[pc.sid]);
      ShutdownMovesOwn(g, t);
    } else {
      if pc.Scanning? {
        act := ScanGoesOn(w, g, t);
      } else {
        act := SweepGoesOn(w, g, t);
      }
      CleanupIsNext(w, g, act);
      CleanupMovesOwn(w, g, act, t);
    }
  }

  /** What the steps of the cleanup rely on. */
  ghost predicate OnCourse(w: Windows, start: World, now: Instant, g: World, t: TaskId) {
    && Inv(g) && t in g.tasks && OthersFree(g, t) && AloneOk(w, start, now, g, t)
    && LooksAtFiled(PcOf(g, t), g.filed) && Tidy(PcOf(g, t))
  }

  lemma StaysOnCourse(w: Windows, start: World, now: Instant, g: World, t: TaskId) returns (act: Act)
    requires OnCourse(w, start, now, g, t) && start.filed <= start.cores.Keys && !PcOf(g, t).Finished?
    ensures !act.ReaderEnds? && act.t == t && Nearer(PcOf(g, t), PcOf(Next(w, g, act), t))
    ensures OnCourse(w, start, now, Next(w, g, act), t)
  {
    act := GoesOn(w, start, now, g, t);
    NextKeepsInv(w, g, act);
    StepAlone(w, start, now, g, act);
    StepLooks(w, g, act, t);
    StepTidy(w, g, act, t, 0, true);
  }

  lemma {:induction false} CanEnd(w: Windows, start: World, now: Instant, g: World, t: TaskId) returns (acts: seq<Act>)
    requires OnCourse(w, start, now, g, t) && start.filed <= start.cores.Keys
    ensures OnlyBy(acts, t) && PcOf(Exec(w, g, acts), t).Finished?
    decreases Phase(PcOf(g, t)), WorkLeft(PcOf(g, t))
  {
    if PcOf(g, t).Finished? {
      acts := [];
    } else {
      var act := StaysOnCourse(w, start, now, g, t);
      var rest := CanEnd(w, start, now, Next(w, g, act), t);
      acts := [act] + rest;
      ExecAppend(w, g, [act], rest);
      assert [act][..0] == [] && Exec(w, g, []) == g;
    }
  }

  /** If no other task holds the lock, a cleanup that runs alone can come to its end, which `CleanupAlone` describes. */
  lemma CleanupEnds(w: Windows, before: seq<Act>, t: TaskId, now: Instant) returns (acts: seq<Act>)
    requires PcOf(After(w, before), t).Idle? && PcOf(After(w, before + [StartScan(t, now)]), t).Scanning?
    requires OthersFree(After(w, before + [StartScan(t, now)]), t)
    ensures OnlyBy(acts, t) && PcOf(After(w, before + [StartScan(t, now)] + acts), t).Finished?
  {
    var first := before + [StartScan(t, now)];
    RunAlone(w, before, [], t, now);
    assert first + [] == first;
    InvHolds(w, before);
    InvHolds(w, first);
    LooksHolds(w, first, t);
    TidyHolds(w, first, t);
    acts := CanEnd(w, After(w, before), now, After(w, first), t);
    ExecAppend(w, INIT, first, acts);
  }
}
