/**
The periodic cleanup among all other tasks: which sessions its two lists name, in terms of what it read itself, and
which sessions it removes. A task id runs one cleanup at most, so the reads of the task are the reads of that
cleanup.
*/
module LifecycleCleanup {
  import opened Wrappers
  import opened Time
  import opened Session
  import opened SessionManager
  import opened Lifecycle
  import opened LifecycleResults

  // ----- What a cleanup reads, finds and sweeps -----

  function Window(w: Windows, empty: bool): nat {
    if empty then w.reconnectWindow else w.sessionTimeout
  }

  /** The sessions that the cleanup noted as expired and has not swept yet: those without clients, or those with. */
  function ListOf(pc: Pc, empty: bool): seq<Id> {
    match pc
    case Scanning(_, _, _, noted, stale) => if empty then noted else stale
    case Sweeping(_, noted, stale) => if empty then noted else stale
    case Removing(_, _, _, _, resume) => ListOf(resume, empty)
    case _ => []
  }

  /** The cleanup reads the session's activity next, if that is its next act. */
  predicate ReadsActivity(g: World, t: TaskId, sid: Id) {
    PcOf(g, t).Scanning? && PcOf(g, t).current.None? && sid in PcOf(g, t).todo && sid in g.cores
  }

  /** The cleanup notes the session when it reads its emptiness. */
  predicate Notes(w: Windows, g: World, t: TaskId, sid: Id, empty: bool) {
    var pc := PcOf(g, t);
    && pc.Scanning? && pc.current.Some? && pc.current.value.0 == sid && sid in g.cores
    && Since(pc.now, pc.current.value.1) > Window(w, empty)
    && (g.cores[sid].clients == map[]) == empty
  }

  /** It is the session's turn to be swept, and the sessions lock is free. */
  predicate OnTurn(g: World, t: TaskId, sid: Id, empty: bool) {
    var pc := PcOf(g, t);
    && pc.Sweeping? && WriteFree(g)
    && if empty then pc.empty != [] && pc.empty[0] == sid else pc.empty == [] && pc.stale != [] && pc.stale[0] == sid
  }

  function SweepAct(t: TaskId, empty: bool): Act {
    if empty then SweepEmpty(t) else SweepStale(t)
  }

  /** At step i of the run the cleanup of `t` read the activity of the filed session. */
  predicate ReadAt(w: Windows, acts: seq<Act>, t: TaskId, sid: Id, i: nat)
    requires i < |acts|
  {
    var g := After(w, acts[..i]);
    acts[i] == ReadActivity(t, sid) && ReadsActivity(g, t, sid) && sid in g.filed
  }

  /**
  At step i the cleanup of `t` read an activity older than the window, and at step j, still holding that reading, it
  found the session without clients (or with clients); the session was filed both times.
  */
  predicate FoundAt(w: Windows, acts: seq<Act>, t: TaskId, sid: Id, empty: bool, i: nat, j: nat)
    requires i < j < |acts|
  {
    var (g, h) := (After(w, acts[..i]), After(w, acts[..j]));
    && ReadAt(w, acts, t, sid, i)
    && acts[j] == ReadEmptiness(t) && sid in h.filed && sid in h.cores
    && PcOf(h, t).Scanning? && PcOf(h, t).now == PcOf(g, t).now
    && PcOf(h, t).current == Some((sid, g.cores[sid].lastActivity))
    && Since(PcOf(g, t).now, g.cores[sid].lastActivity) > Window(w, empty)
    && (h.cores[sid].clients == map[]) == empty
  }

  predicate Found(w: Windows, acts: seq<Act>, t: TaskId, sid: Id, empty: bool) {
    exists i, j :: 0 <= i < j < |acts| && FoundAt(w, acts, t, sid, empty, i, j)
  }

  predicate TurnAt(w: Windows, acts: seq<Act>, t: TaskId, sid: Id, empty: bool, k: nat)
    requires k < |acts|
  {
    acts[k] == SweepAct(t, empty) && OnTurn(After(w, acts[..k]), t, sid, empty)
  }

  predicate HadTurn(w: Windows, acts: seq<Act>, t: TaskId, sid: Id, empty: bool) {
    exists k :: 0 <= k < |acts| && TurnAt(w, acts, t, sid, empty, k)
  }

  /** At step k the cleanup of `t` took the session out of the map. */
  predicate RemovedAt(w: Windows, acts: seq<Act>, t: TaskId, sid: Id, empty: bool, k: nat)
    requires k < |acts|
  {
    acts[k] == SweepAct(t, empty) && sid in After(w, acts[..k]).filed && sid !in After(w, acts[..k + 1]).filed
  }

  // ----- What one step does to the lists -----

  predicate Distinct(sids: seq<Id>) {
    forall i, j | 0 <= i < j < |sids| :: sids[i] != sids[j]
  }

  predicate Apart(sids: seq<Id>, todo: set<Id>, current: Option<(Id, Instant)>) {
    && Distinct(sids) && (forall sid | sid in sids :: sid !in todo)
    && (current.Some? ==> current.value.0 !in sids)
  }

  /** No session is noted twice, or noted before it was looked at. */
  predicate Tidy(pc: Pc) {
    match pc
    case Scanning(_, todo, current, empty, stale) =>
      && Apart(empty, todo, current) && Apart(stale, todo, current)
      && (current.Some? ==> current.value.0 !in todo)
    case Sweeping(_, empty, stale) => Distinct(empty) && Distinct(stale)
    case Removing(_, _, _, _, resume) => Tidy(resume)
    case _ => true
  }

  /** A place outside the cleanup. */
  predicate Elsewhere(pc: Pc) {
    !pc.Scanning? && !pc.Sweeping? && (pc.Removing? ==> pc.resume.Finished?)
  }

  /** The effect of a step on the lists of a task: which session it notes, and which it takes off. */
  predicate ListStep(pc: Pc, pc': Pc, sid: Id, empty: bool, noted: bool, swept: bool) {
    sid in ListOf(pc', empty) <==> (sid in ListOf(pc, empty) || noted) && !swept
  }

  predicate NotesNow(w: Windows, g: World, act: Act, t: TaskId, sid: Id, empty: bool) {
    act == ReadEmptiness(t) && Notes(w, g, t, sid, empty)
  }

  predicate SweepsNow(g: World, act: Act, t: TaskId, sid: Id, empty: bool) {
    act == SweepAct(t, empty) && OnTurn(g, t, sid, empty)
  }

  /** A step of another kind leaves a cleaning task where it is. */
  predicate Unconcerned(pc: Pc, pc': Pc) {
    pc' == pc || (Elsewhere(pc) && Elsewhere(pc') && !pc'.Idle?)
  }

  lemma HandlerUnconcerned(g: World, act: Act, t: TaskId)
    ensures Unconcerned(PcOf(g, t), PcOf(NextHandler(g, act), t))
  {
  }

  lemma CloseUnconcerned(g: World, u: TaskId, t: TaskId)
    ensures Unconcerned(PcOf(g, t), PcOf(NextClose(g, u), t))
  {
  }

  lemma OtherUnconcerned(w: Windows, g: World, act: Act, t: TaskId)
    requires IsOtherAct(act)
    ensures Unconcerned(PcOf(g, t), PcOf(Next(w, g, act), t))
  {
  }

  /** A step of a shutdown resumes what the task was doing, sooner or later. */
  predicate Resumes(pc: Pc, pc': Pc) {
    pc' == pc || (pc.Removing? && (pc' == pc.resume || (pc'.Removing? && pc'.resume == pc.resume)))
  }

  lemma ShutdownResumes(g: World, u: TaskId, t: TaskId)
    ensures Resumes(PcOf(g, t), PcOf(NextShutdown(g, u), t))
  {
  }

  lemma CleanupMovesOne(w: Windows, g: World, act: Act, t: TaskId)
    requires !IsHandlerAct(act) && !act.ReaderEnds? && act.t != t
    ensures PcOf(NextCleanup(w, g, act), t) == PcOf(g, t)
  {
  }

  /** The ways one step can move a task. */
  lemma StepCases(w: Windows, g: World, act: Act, t: TaskId)
    requires !(IsCleanupAct(act) && act.t == t)
    ensures var (pc, pc') := (PcOf(g, t), PcOf(Next(w, g, act), t)); Unconcerned(pc, pc') || Resumes(pc, pc')
  {
    if act.ShutdownStep? {
      ShutdownResumes(g, act.t, t);
    } else if act.CloseStep? {
      CloseUnconcerned(g, act.t, t);
    } else if IsOtherAct(act) {
      OtherUnconcerned(w, g, act, t);
    } else if IsHandlerAct(act) {
      HandlerIsNext(w, g, act);
      HandlerUnconcerned(g, act, t);
    } else {
      CleanupIsNext(w, g, act);
      CleanupMovesOne(w, g, act, t);
    }
  }

  lemma HeadGone(sids: seq<Id>, sid: Id)
    requires sids != [] && Distinct(sids)
    ensures sid in sids[1..] <==> sid in sids && sid != sids[0]
    ensures Distinct(sids[1..])
  {
  }

  lemma OneMore(sids: seq<Id>, todo: set<Id>, sid: Id, at: Instant)
    requires Apart(sids, todo, Some((sid, at))) && sid !in todo
    ensures Apart(sids + [sid], todo, None) && Apart(sids, todo, None)
  {
  }

  /** Where a step of the cleanup leads, in terms of the place alone. */
  predicate CleanupMove(pc: Pc, act: Act, pc': Pc, noted: bool, notedEmpty: bool) {
    pc' == pc
    || match act
       case StartScan(_, now) => pc.Idle? && pc'.Scanning? && pc'.current.None? && pc'.empty == [] && pc'.stale == []
       case ReadActivity(_, sid) =>
         && pc.Scanning? && pc.current.None? && sid in pc.todo && pc'.Scanning? && pc'.current.Some?
         && pc' == pc.(todo := pc.todo - {sid}, current := Some((sid, pc'.current.value.1)))
       case ReadEmptiness(_) =>
         && pc.Scanning? && pc.current.Some?
         && var sid := pc.current.value.0;
            pc' == if !noted then pc.(current := None)
                   else if notedEmpty then pc.(current := None, empty := pc.empty + [sid])
                   else pc.(current := None, stale := pc.stale + [sid])
       case EndScan(_) => pc.Scanning? && pc' == Sweeping(pc.now, pc.empty, pc.stale)
       case EndSweep(_) => pc.Sweeping? && pc.empty == [] && pc.stale == [] && pc' == Finished
       case _ => false
  }

  predicate SweepMove(pc: Pc, rest: Pc, pc': Pc) {
    pc' == rest || (pc'.Removing? && pc'.resume == rest)
  }

  lemma ScanMoves(w: Windows, g: World, act: Act)
    requires act.StartScan? || act.ReadActivity? || act.EndScan? || act.EndSweep?
    ensures CleanupMove(PcOf(g, act.t), act, PcOf(NextCleanup(w, g, act), act.t), false, false)
  {
  }

  lemma EmptinessMoves(w: Windows, g: World, t: TaskId)
    ensures var pc := PcOf(g, t);
            var looks := pc.Scanning? && pc.current.Some?;
            var sid := if looks then pc.current.value.0 else 0;
            var notedEmpty := Notes(w, g, t, sid, true);
            var noted := notedEmpty || Notes(w, g, t, sid, false);
            && CleanupMove(pc, ReadEmptiness(t), PcOf(NextCleanup(w, g, ReadEmptiness(t)), t), noted, notedEmpty)
            && (noted ==> PcOf(NextCleanup(w, g, ReadEmptiness(t)), t) != pc)
  {
  }

  lemma SweepEmptyMoves(w: Windows, g: World, t: TaskId)
    ensures var (pc, pc') := (PcOf(g, t), PcOf(NextCleanup(w, g, SweepEmpty(t)), t));
            if pc.Sweeping? && pc.empty != [] && WriteFree(g)
            then SweepMove(pc, Sweeping(pc.now, pc.empty[1..], pc.stale), pc')
            else pc' == pc
  {
  }

  lemma SweepStaleMoves(w: Windows, g: World, t: TaskId)
    ensures var (pc, pc') := (PcOf(g, t), PcOf(NextCleanup(w, g, SweepStale(t)), t));
            if pc.Sweeping? && pc.empty == [] && pc.stale != [] && WriteFree(g)
            then SweepMove(pc, Sweeping(pc.now, [], pc.stale[1..]), pc')
            else pc' == pc
  {
  }

  lemma ScanMoveTidy(pc: Pc, act: Act, pc': Pc, sid: Id, empty: bool)
    requires act.StartScan? || act.ReadActivity? || act.EndScan? || act.EndSweep?
    requires Tidy(pc) && CleanupMove(pc, act, pc', false, false)
    ensures Tidy(pc') && ListStep(pc, pc', sid, empty, false, false)
  {
  }

  lemma EmptinessMoveTidy(pc: Pc, t: TaskId, pc': Pc, noted: bool, notedEmpty: bool, sid: Id, empty: bool)
    requires Tidy(pc) && CleanupMove(pc, ReadEmptiness(t), pc', noted, notedEmpty) && (noted ==> pc' != pc)
    ensures Tidy(pc')
    ensures ListStep(pc, pc', sid, empty, noted && notedEmpty == empty && sid == pc.current.value.0, false)
  {
    if pc.Scanning? && pc.current.Some? {
      OneMore(pc.empty, pc.todo, pc.current.value.0, pc.current.value.1);
      OneMore(pc.stale, pc.todo, pc.current.value.0, pc.current.value.1);
    }
  }

  lemma SweepMoveTidy(pc: Pc, pc': Pc, sid: Id, empty: bool, which: bool)
    requires Tidy(pc) && pc.Sweeping?
    requires if which then pc.empty != [] && SweepMove(pc, Sweeping(pc.now, pc.empty[1..], pc.stale), pc')
             else pc.empty == [] && pc.stale != [] && SweepMove(pc, Sweeping(pc.now, [], pc.stale[1..]), pc')
    ensures Tidy(pc')
    ensures ListStep(pc, pc', sid, empty, false, which == empty && sid == (if which then pc.empty else pc.stale)[0])
  {
    HeadGone(if which then pc.empty else pc.stale, sid);
  }

  lemma ScanStepsTidy(w: Windows, g: World, act: Act, sid: Id, empty: bool)
    requires act.StartScan? || act.ReadActivity? || act.EndScan? || act.EndSweep?
    requires Tidy(PcOf(g, act.t))
    ensures var pc := PcOf(NextCleanup(w, g, act), act.t);
            Tidy(pc) && ListStep(PcOf(g, act.t), pc, sid, empty, false, false)
  {
    ScanMoves(w, g, act);
    ScanMoveTidy(PcOf(g, act.t), act, PcOf(NextCleanup(w, g, act), act.t), sid, empty);
  }

  lemma ReadEmptinessTidy(w: Windows, g: World, t: TaskId, sid: Id, empty: bool)
    requires Tidy(PcOf(g, t))
    ensures var pc := PcOf(NextCleanup(w, g, ReadEmptiness(t)), t);
            Tidy(pc) && ListStep(PcOf(g, t), pc, sid, empty, Notes(w, g, t, sid, empty), false)
  {
    var pc := PcOf(g, t);
    var pc' := PcOf(NextCleanup(w, g, ReadEmptiness(t)), t);
    EmptinessMoves(w, g, t);
    if pc.Scanning? && pc.current.Some? {
      var at := pc.current.value.0;
      var notedEmpty := Notes(w, g, t, at, true);
      EmptinessMoveTidy(pc, t, pc', notedEmpty || Notes(w, g, t, at, false), notedEmpty, sid, empty);
    }
  }

  lemma SweepTidy(w: Windows, g: World, t: TaskId, which: bool, sid: Id, empty: bool)
    requires Tidy(PcOf(g, t))
    ensures var pc := PcOf(NextCleanup(w, g, SweepAct(t, which)), t);
            Tidy(pc) && ListStep(PcOf(g, t), pc, sid, empty, false, which == empty && OnTurn(g, t, sid, empty))
  {
    var pc := PcOf(g, t);
    var pc' := PcOf(NextCleanup(w, g, SweepAct(t, which)), t);
    if which {
      SweepEmptyMoves(w, g, t);
    } else {
      SweepStaleMoves(w, g, t);
    }
    if pc != pc' {
      SweepMoveTidy(pc, pc', sid, empty, which);
    }
  }

  lemma CleanupTidy(w: Windows, g: World, act: Act, sid: Id, empty: bool)
    requires IsCleanupAct(act) && Tidy(PcOf(g, act.t))
    ensures var pc := PcOf(NextCleanup(w, g, act), act.t);
            && Tidy(pc)
            && ListStep(PcOf(g, act.t), pc, sid, empty,
                        NotesNow(w, g, act, act.t, sid, empty), SweepsNow(g, act, act.t, sid, empty))
  {
    if act.ReadEmptiness? {
      ReadEmptinessTidy(w, g, act.t, sid, empty);
    } else if act.SweepEmpty? || act.SweepStale? {
      SweepTidy(w, g, act.t, act.SweepEmpty?, sid, empty);
    } else {
      ScanStepsTidy(w, g, act, sid, empty);
    }
  }

  /** Other steps leave the lists alone. */
  lemma OtherStepTidy(pc: Pc, pc': Pc, sid: Id, empty: bool)
    requires Tidy(pc) && (Unconcerned(pc, pc') || Resumes(pc, pc'))
    ensures Tidy(pc') && ListStep(pc, pc', sid, empty, false, false)
  {
  }

  lemma StepTidy(w: Windows, g: World, act: Act, t: TaskId, sid: Id, empty: bool)
    requires Tidy(PcOf(g, t))
    ensures var pc := PcOf(Next(w, g, act), t);
            && Tidy(pc)
            && ListStep(PcOf(g, t), pc, sid, empty,
                        NotesNow(w, g, act, t, sid, empty), SweepsNow(g, act, t, sid, empty))
  {
    if IsCleanupAct(act) && act.t == t {
      CleanupIsNext(w, g, act);
      CleanupTidy(w, g, act, sid, empty);
    } else {
      StepCases(w, g, act, t);
      OtherStepTidy(PcOf(g, t), PcOf(Next(w, g, act), t), sid, empty);
    }
  }

  lemma {:induction false} TidyHolds(w: Windows, acts: seq<Act>, t: TaskId)
    ensures Tidy(PcOf(After(w, acts), t))
  {
    if acts != [] {
      TidyHolds(w, acts[..|acts| - 1], t);
      StepTidy(w, After(w, acts[..|acts| - 1]), acts[|acts| - 1], t, 0, true);
    }
  }

  // ----- The map while a cleanup looks at it -----

  /** What is being looked at, or still to be, is in the map. */
  predicate LooksAtFiled(pc: Pc, filed: set<Id>) {
    pc.Scanning? ==> pc.todo <= filed && (pc.current.Some? ==> pc.current.value.0 in filed)
  }

  /** Only steps that find the sessions lock free, or that hold it, change the map. */
  lemma HandlerLeavesScan(g: World, act: Act, t: TaskId)
    ensures PcOf(NextHandler(g, act), t).Scanning? ==> PcOf(g, t).Scanning? && NextHandler(g, act).filed == g.filed
  {
  }

  lemma CleanupLeavesScan(w: Windows, g: World, act: Act, t: TaskId)
    ensures PcOf(NextCleanup(w, g, act), t).Scanning? ==> NextCleanup(w, g, act).filed == g.filed
  {
  }

  lemma ShutdownLeavesMap(g: World, u: TaskId)
    ensures NextShutdown(g, u).filed == g.filed && NextClose(g, u).filed == g.filed
  {
  }

  lemma OtherLeavesScan(w: Windows, g: World, act: Act, t: TaskId)
    requires Exclusive(g.tasks) && IsOtherAct(act)
    ensures PcOf(Next(w, g, act), t).Scanning? ==> Next(w, g, act).filed == g.filed
  {
    match act
    case EndClose(u) =>
      if t in g.tasks && g.tasks[t].Scanning? && u in g.tasks && g.tasks[u].Closing? {
        LockFact(g.tasks, u, t);
      }
    case _ =>
  }

  lemma ScannedMapStays(w: Windows, g: World, act: Act, t: TaskId)
    requires Inv(g)
    ensures PcOf(Next(w, g, act), t).Scanning? ==> Next(w, g, act).filed == g.filed
  {
    if act.ShutdownStep? || act.CloseStep? {
      ShutdownLeavesMap(g, act.t);
    } else if IsOtherAct(act) {
      OtherLeavesScan(w, g, act, t);
    } else if IsHandlerAct(act) {
      HandlerIsNext(w, g, act);
      HandlerLeavesScan(g, act, t);
    } else {
      CleanupIsNext(w, g, act);
      CleanupLeavesScan(w, g, act, t);
    }
  }

  lemma StartScanTakesAll(w: Windows, g: World, t: TaskId, now: Instant)
    ensures var pc := PcOf(NextCleanup(w, g, StartScan(t, now)), t);
            pc != PcOf(g, t) ==> pc == Scanning(now, g.filed, None, [], [])
  {
  }

  lemma ReadActivityTakes(w: Windows, g: World, t: TaskId, sid: Id)
    ensures var pc := PcOf(NextCleanup(w, g, ReadActivity(t, sid)), t);
            if ReadsActivity(g, t, sid)
            then pc == PcOf(g, t).(todo := PcOf(g, t).todo - {sid}, current := Some((sid, g.cores[sid].lastActivity)))
            else pc == PcOf(g, t)
  {
  }

  /** A cleanup that is looking at a session read its activity in this step, or was looking at it before. */
  predicate KeepsLooking(g: World, act: Act, t: TaskId, pc: Pc) {
    pc.Scanning? && pc.current.Some? ==>
      var (sid, lastActivity) := pc.current.value;
      && PcOf(g, t).Scanning? && PcOf(g, t).now == pc.now
      && (PcOf(g, t).current == pc.current
          || (act == ReadActivity(t, sid) && ReadsActivity(g, t, sid) && lastActivity == g.cores[sid].lastActivity))
  }

  /** A task that has not begun to sweep has not begun before either; one that was never begun stays so. */
  predicate NotBack(pc: Pc, pc': Pc) {
    (pc'.Idle? ==> pc.Idle?) && (pc'.Scanning? ==> pc.Idle? || pc.Scanning?)
  }

  lemma UnconcernedLooks(g: World, act: Act, t: TaskId, pc: Pc, filed: set<Id>)
    requires Unconcerned(PcOf(g, t), pc) || Resumes(PcOf(g, t), pc)
    requires PcOf(g, t).Removing? ==> PcOf(g, t).resume.Finished? || PcOf(g, t).resume.Sweeping?
    requires LooksAtFiled(PcOf(g, t), filed)
    ensures LooksAtFiled(pc, filed) && KeepsLooking(g, act, t, pc) && NotBack(PcOf(g, t), pc)
  {
  }

  lemma CleanupLooks(w: Windows, g: World, act: Act)
    requires IsCleanupAct(act) && LooksAtFiled(PcOf(g, act.t), g.filed)
    requires PcOf(g, act.t).Removing? ==> PcOf(g, act.t).resume.Finished? || PcOf(g, act.t).resume.Sweeping?
    ensures var pc := PcOf(NextCleanup(w, g, act), act.t);
            LooksAtFiled(pc, g.filed) && KeepsLooking(g, act, act.t, pc) && NotBack(PcOf(g, act.t), pc)
  {
    match act
    case StartScan(t, now) =>
      ScanMoves(w, g, act);
      StartScanTakesAll(w, g, t, now);
    case ReadActivity(t, sid) => ReadActivityTakes(w, g, t, sid);
    case ReadEmptiness(t) => EmptinessMoves(w, g, t);
    case SweepEmpty(t) => SweepEmptyMoves(w, g, t);
    case SweepStale(t) => SweepStaleMoves(w, g, t);
    case _ => ScanMoves(w, g, act);
  }

  lemma StepLooks(w: Windows, g: World, act: Act, t: TaskId)
    requires Inv(g) && LooksAtFiled(PcOf(g, t), g.filed)
    ensures var pc := PcOf(Next(w, g, act), t);
            LooksAtFiled(pc, Next(w, g, act).filed) && KeepsLooking(g, act, t, pc) && NotBack(PcOf(g, t), pc)
  {
    TaskFact(g, t);
    ScannedMapStays(w, g, act, t);
    if IsCleanupAct(act) && act.t == t {
      CleanupIsNext(w, g, act);
      CleanupLooks(w, g, act);
    } else {
      StepCases(w, g, act, t);
      UnconcernedLooks(g, act, t, PcOf(Next(w, g, act), t), g.filed);
    }
  }

  lemma {:induction false} LooksHolds(w: Windows, acts: seq<Act>, t: TaskId)
    ensures LooksAtFiled(PcOf(After(w, acts), t), After(w, acts).filed)
  {
    if acts != [] {
      LooksHolds(w, acts[..|acts| - 1], t);
      InvHolds(w, acts[..|acts| - 1]);
      StepLooks(w, After(w, acts[..|acts| - 1]), acts[|acts| - 1], t);
    }
  }

  // ----- The lists name exactly what was found -----

  /** The activity that a cleanup holds is one it read at some step, from the session while it was filed. */
  predicate HeldFrom(w: Windows, acts: seq<Act>, t: TaskId, i: nat)
    requires i < |acts|
  {
    var (pc, g) := (PcOf(After(w, acts), t), After(w, acts[..i]));
    && pc.Scanning? && pc.current.Some? && ReadAt(w, acts, t, pc.current.value.0, i)
    && pc.now == PcOf(g, t).now && pc.current.value.1 == g.cores[pc.current.value.0].lastActivity
  }

  lemma Prefix(acts: seq<Act>, act: Act, i: nat)
    requires i <= |acts|
    ensures (acts + [act])[..i] == acts[..i] && (i < |acts| ==> (acts + [act])[i] == acts[i])
    ensures acts[..|acts|] == acts && (acts + [act])[|acts|] == act
  {
  }

  lemma {:induction false} HeldWasRead(w: Windows, acts: seq<Act>, t: TaskId) returns (i: nat)
    requires PcOf(After(w, acts), t).Scanning? && PcOf(After(w, acts), t).current.Some?
    ensures i < |acts| && HeldFrom(w, acts, t, i)
  {
    var init, act := acts[..|acts| - 1], acts[|acts| - 1];
    assert acts == init + [act];
    InvHolds(w, init);
    LooksHolds(w, init, t);
    LooksHolds(w, acts, t);
    StepLooks(w, After(w, init), act, t);
    if PcOf(After(w, init), t).current == PcOf(After(w, acts), t).current {
      i := HeldWasRead(w, init, t);
      Prefix(init, act, i);
    } else {
      i := |init|;
      Prefix(init, act, i);
      assert PcOf(After(w, init), t).todo <= After(w, init).filed;
    }
  }

  /** One step more: what was found before, and what is noted now. */
  lemma FoundSnoc(w: Windows, acts: seq<Act>, act: Act, t: TaskId, sid: Id, empty: bool)
    ensures Found(w, acts + [act], t, sid, empty)
            <==> Found(w, acts, t, sid, empty) || NotesNow(w, After(w, acts), act, t, sid, empty)
  {
    var more := acts + [act];
    if Found(w, more, t, sid, empty) {
      var i, j :| 0 <= i < j < |more| && FoundAt(w, more, t, sid, empty, i, j);
      FoundBefore(w, acts, act, t, sid, empty, i, j);
    }
    if Found(w, acts, t, sid, empty) {
      var i, j :| 0 <= i < j < |acts| && FoundAt(w, acts, t, sid, empty, i, j);
      FoundBefore(w, acts, act, t, sid, empty, i, j);
    }
    if NotesNow(w, After(w, acts), act, t, sid, empty) {
      var i := HeldWasRead(w, acts, t);
      LooksHolds(w, acts, t);
      Prefix(acts, act, i);
      Prefix(acts, act, |acts|);
      assert FoundAt(w, more, t, sid, empty, i, |acts|);
    }
  }

  lemma FoundBefore(w: Windows, acts: seq<Act>, act: Act, t: TaskId, sid: Id, empty: bool, i: nat, j: nat)
    requires i < j <= |acts|
    ensures j < |acts| ==> (FoundAt(w, acts + [act], t, sid, empty, i, j) <==> FoundAt(w, acts, t, sid, empty, i, j))
    ensures j == |acts| && FoundAt(w, acts + [act], t, sid, empty, i, j) ==>
            NotesNow(w, After(w, acts), act, t, sid, empty)
  {
    Prefix(acts, act, i);
    Prefix(acts, act, j);
  }

  lemma TurnSnoc(w: Windows, acts: seq<Act>, act: Act, t: TaskId, sid: Id, empty: bool)
    ensures HadTurn(w, acts + [act], t, sid, empty)
            <==> HadTurn(w, acts, t, sid, empty) || SweepsNow(After(w, acts), act, t, sid, empty)
  {
    var more := acts + [act];
    Prefix(acts, act, |acts|);
    if HadTurn(w, more, t, sid, empty) {
      var k :| 0 <= k < |more| && TurnAt(w, more, t, sid, empty, k);
      Prefix(acts, act, k);
      assert k < |acts| ==> TurnAt(w, acts, t, sid, empty, k);
    }
    if HadTurn(w, acts, t, sid, empty) {
      var k :| 0 <= k < |acts| && TurnAt(w, acts, t, sid, empty, k);
      Prefix(acts, act, k);
      assert TurnAt(w, more, t, sid, empty, k);
    }
    if SweepsNow(After(w, acts), act, t, sid, empty) {
      assert TurnAt(w, more, t, sid, empty, |acts|);
    }
  }

  /**
  In every run, whatever the other tasks do: a cleanup has a session on a list, waiting for its turn, exactly when
  it read an activity older than the window from the filed session and then found it without clients (or with them),
  and the session did not have its turn yet.
  */
  lemma {:induction false} ListsNameTheFound(w: Windows, acts: seq<Act>, t: TaskId, sid: Id, empty: bool)
    ensures var pc := PcOf(After(w, acts), t);
            && (sid in ListOf(pc, empty) <==> Found(w, acts, t, sid, empty) && !HadTurn(w, acts, t, sid, empty))
            && (pc.Idle? || pc.Scanning? ==> !HadTurn(w, acts, t, sid, empty))
  {
    if acts != [] {
      var init, act := acts[..|acts| - 1], acts[|acts| - 1];
      assert acts == init + [act];
      ListsNameTheFound(w, init, t, sid, empty);
      TidyHolds(w, init, t);
      StepTidy(w, After(w, init), act, t, sid, empty);
      InvHolds(w, init);
      LooksHolds(w, init, t);
      StepLooks(w, After(w, init), act, t);
      FoundSnoc(w, init, act, t, sid, empty);
      TurnSnoc(w, init, act, t, sid, empty);
    }
  }

  // ----- What is removed -----

  lemma SweepRemoves(w: Windows, g: World, t: TaskId, sid: Id, empty: bool)
    ensures sid in g.filed && sid !in NextCleanup(w, g, SweepAct(t, empty)).filed <==>
            sid in g.filed && OnTurn(g, t, sid, empty) && (empty ==> sid in g.cores && g.cores[sid].clients == map[])
  {
  }

  /**
  At any point of any run, sweeping takes a session out of the map exactly if it is that session's turn, it is still
  filed and, where it was noted without clients, it still has none; and only what the cleanup found has a turn, once.
  */
  lemma RemovalExactly(w: Windows, acts: seq<Act>, t: TaskId, sid: Id, empty: bool)
    ensures var g := After(w, acts);
            && (sid in g.filed && sid !in Next(w, g, SweepAct(t, empty)).filed <==>
                sid in g.filed && OnTurn(g, t, sid, empty)
                  && (empty ==> sid in g.cores && g.cores[sid].clients == map[]))
            && (OnTurn(g, t, sid, empty) ==> Found(w, acts, t, sid, empty) && !HadTurn(w, acts, t, sid, empty))
  {
    SweepRemoves(w, After(w, acts), t, sid, empty);
    CleanupIsNext(w, After(w, acts), SweepAct(t, empty));
    ListsNameTheFound(w, acts, t, sid, empty);
  }

  lemma RemovedAtTurn(w: Windows, acts: seq<Act>, t: TaskId, sid: Id, empty: bool, k: nat)
    requires k < |acts|
    ensures RemovedAt(w, acts, t, sid, empty, k) <==>
            var g := After(w, acts[..k]);
            && sid in g.filed && TurnAt(w, acts, t, sid, empty, k)
            && (empty ==> sid in g.cores && g.cores[sid].clients == map[])
  {
    var before := acts[..k];
    assert acts[..k + 1] == before + [acts[k]];
    ExecSnoc(w, INIT, before, acts[k]);
    RemovalExactly(w, before, t, sid, empty);
  }

  /**
  A cleanup removes a session only if its own reads found it, filed both times: idle beyond the window and then without
  clients (or with). A session removed as empty has no client at the moment it is removed.
  */
  lemma CleanupRemovesOnlySeen(w: Windows, acts: seq<Act>, t: TaskId, sid: Id, empty: bool, k: nat)
    requires k < |acts| && RemovedAt(w, acts, t, sid, empty, k)
    ensures var g := After(w, acts[..k]);
            && (exists i, j :: 0 <= i < j < k && FoundAt(w, acts, t, sid, empty, i, j))
            && (empty ==> sid in g.cores && g.cores[sid].clients == map[])
  {
    RemovedAtTurn(w, acts, t, sid, empty, k);
    RemovalExactly(w, acts[..k], t, sid, empty);
    var i, j := FoundLater(w, acts, t, sid, empty, k);
  }

  lemma FoundLater(w: Windows, acts: seq<Act>, t: TaskId, sid: Id, empty: bool, n: nat) returns (i: nat, j: nat)
    requires n <= |acts| && Found(w, acts[..n], t, sid, empty)
    ensures i < j < n && FoundAt(w, acts, t, sid, empty, i, j)
  {
    var before := acts[..n];
    i, j :| 0 <= i < j < |before| && FoundAt(w, before, t, sid, empty, i, j);
    assert before[..i] == acts[..i] && before[..j] == acts[..j];
  }

  lemma TurnsOnce(w: Windows, acts: seq<Act>, t: TaskId, sid: Id, empty: bool, k: nat, l: nat)
    requires k < l < |acts| && TurnAt(w, acts, t, sid, empty, k)
    ensures !TurnAt(w, acts, t, sid, empty, l)
  {
    var before := acts[..l];
    assert before[..k] == acts[..k];
    assert TurnAt(w, before, t, sid, empty, k);
    RemovalExactly(w, before, t, sid, empty);
  }

  /**
  Once a task is done, its cleanup has force-removed a session exactly if its reads found it idle beyond the timeout and
  then with clients, and it was still filed at its turn.
  */
  lemma ForcedRemovalExactly(w: Windows, acts: seq<Act>, t: TaskId, sid: Id)
    requires PcOf(After(w, acts), t).Finished?
    ensures (exists k :: 0 <= k < |acts| && RemovedAt(w, acts, t, sid, false, k)) <==>
            && Found(w, acts, t, sid, false)
            && (forall k | 0 <= k < |acts| && TurnAt(w, acts, t, sid, false, k) :: sid in After(w, acts[..k]).filed)
  {
    ListsNameTheFound(w, acts, t, sid, false);
    if k :| 0 <= k < |acts| && RemovedAt(w, acts, t, sid, false, k) {
      RemovedAtTurn(w, acts, t, sid, false, k);
      RemovalExactly(w, acts[..k], t, sid, false);
      var i, j := FoundLater(w, acts, t, sid, false, k);
      forall l | 0 <= l < |acts| && TurnAt(w, acts, t, sid, false, l) ensures l == k {
        if l < k {
          TurnsOnce(w, acts, t, sid, false, l, k);
        } else if k < l {
          TurnsOnce(w, acts, t, sid, false, k, l);
        }
      }
    } else if Found(w, acts, t, sid, false) {
      var k :| 0 <= k < |acts| && TurnAt(w, acts, t, sid, false, k);
      RemovedAtTurn(w, acts, t, sid, false, k);
      assert sid !in After(w, acts[..k]).filed;
    }
  }

  // ----- Sessions in use -----

  /** A cleanup reads the activity of a session once. */
  lemma {:induction false} NotReadAgain(w: Windows, acts: seq<Act>, t: TaskId, sid: Id, i: nat)
    requires i < |acts| && ReadAt(w, acts, t, sid, i)
    ensures var pc := PcOf(After(w, acts), t); !pc.Idle? && (pc.Scanning? ==> sid !in pc.todo)
  {
    var init, act := acts[..|acts| - 1], acts[|acts| - 1];
    InvHolds(w, init);
    LooksHolds(w, init, t);
    StepLooks(w, After(w, init), act, t);
    if i < |init| {
      assert init[..i] == acts[..i];
      NotReadAgain(w, init, t, sid, i);
      TodoShrinks(w, After(w, init), act, t);
    } else {
      assert init == acts[..i];
      ReadActivityTakes(w, After(w, init), t, sid);
    }
  }

  lemma TodoShrinks(w: Windows, g: World, act: Act, t: TaskId)
    requires Inv(g)
    ensures var pc := PcOf(Next(w, g, act), t); pc.Scanning? && PcOf(g, t).Scanning? ==> pc.todo <= PcOf(g, t).todo
  {
    TaskFact(g, t);
    if IsCleanupAct(act) && act.t == t {
      CleanupIsNext(w, g, act);
      if act.ReadEmptiness? {
        EmptinessMoves(w, g, t);
      } else if act.SweepEmpty? {
        SweepEmptyMoves(w, g, t);
      } else if act.SweepStale? {
        SweepStaleMoves(w, g, t);
      } else {
        ScanMoves(w, g, act);
      }
    } else {
      StepCases(w, g, act, t);
    }
  }

  lemma ReadOnce(w: Windows, acts: seq<Act>, t: TaskId, sid: Id, i: nat, j: nat)
    requires i < j < |acts| && ReadAt(w, acts, t, sid, i)
    ensures !ReadAt(w, acts, t, sid, j)
  {
    var before := acts[..j];
    assert before[..i] == acts[..i];
    NotReadAgain(w, before, t, sid, i);
  }

  /**
  A session that the cleanup read as active within the timeout is not force-removed by it, at no point of the run.
  */
  lemma ActiveIsKept(w: Windows, acts: seq<Act>, t: TaskId, sid: Id, i: nat, k: nat)
    requires i < |acts| && k < |acts| && ReadAt(w, acts, t, sid, i)
    requires var g := After(w, acts[..i]); Since(PcOf(g, t).now, g.cores[sid].lastActivity) <= w.sessionTimeout
    ensures !RemovedAt(w, acts, t, sid, false, k)
  {
    if RemovedAt(w, acts, t, sid, false, k) {
      CleanupRemovesOnlySeen(w, acts, t, sid, false, k);
      var i', j :| 0 <= i' < j < k && FoundAt(w, acts, t, sid, false, i', j);
      if i < i' {
        ReadOnce(w, acts, t, sid, i, i');
      } else if i' < i {
        ReadOnce(w, acts, t, sid, i', i);
      }
    }
  }

  /** A step that sets the activity of a session sets it to its own time. */
  predicate SetsActivity(act: Act) {
    act.Register? || act.Touch? || act.Unregister?
  }

  lemma HandlerActivity(g: World, act: Act, sid: Id)
    requires sid in g.cores
    ensures sid in NextHandler(g, act).cores
    ensures NextHandler(g, act).cores[sid].lastActivity == g.cores[sid].lastActivity
            || (SetsActivity(act) && NextHandler(g, act).cores[sid].lastActivity == act.now)
  {
  }

  lemma ShutdownActivity(g: World, u: TaskId, sid: Id)
    requires sid in g.cores
    ensures var g' := NextShutdown(g, u); sid in g'.cores && g'.cores[sid].lastActivity == g.cores[sid].lastActivity
  {
  }

  lemma CloseActivity(g: World, u: TaskId, sid: Id)
    requires sid in g.cores
    ensures var g' := NextClose(g, u); sid in g'.cores && g'.cores[sid].lastActivity == g.cores[sid].lastActivity
  {
  }

  lemma OtherActivity(w: Windows, g: World, act: Act, sid: Id)
    requires sid in g.cores && IsOtherAct(act)
    ensures var g' := Next(w, g, act); sid in g'.cores && g'.cores[sid].lastActivity == g.cores[sid].lastActivity
  {
  }

  lemma StepActivity(w: Windows, g: World, act: Act, sid: Id)
    requires sid in g.cores
    ensures var g' := Next(w, g, act);
            && sid in g'.cores
            && (g'.cores[sid].lastActivity == g.cores[sid].lastActivity
                || (SetsActivity(act) && g'.cores[sid].lastActivity == act.now))
  {
    if act.ShutdownStep? {
      ShutdownActivity(g, act.t, sid);
    } else if act.CloseStep? {
      CloseActivity(g, act.t, sid);
    } else if IsOtherAct(act) {
      OtherActivity(w, g, act, sid);
    } else if IsHandlerAct(act) {
      HandlerIsNext(w, g, act);
      HandlerActivity(g, act, sid);
    } else {
      CleanupIsNext(w, g, act);
      CleanupKeepsCores(w, g, act);
    }
  }

  /** The times noted as activity from step m to step n are not before `since`. */
  predicate ClockFrom(acts: seq<Act>, m: nat, n: nat, since: Instant)
    requires m <= n <= |acts|
  {
    forall k | m <= k < n :: SetsActivity(acts[k]) ==> since <= acts[k].now
  }

  lemma {:induction false} ActivitySince(w: Windows, acts: seq<Act>, sid: Id, m: nat, n: nat, since: Instant)
    requires m <= n <= |acts| && ClockFrom(acts, m, n, since)
    requires sid in After(w, acts[..m]).cores && since <= After(w, acts[..m]).cores[sid].lastActivity
    ensures sid in After(w, acts[..n]).cores && since <= After(w, acts[..n]).cores[sid].lastActivity
  {
    if m < n {
      ActivitySince(w, acts, sid, m, n - 1, since);
      assert acts[..n] == acts[..n - 1] + [acts[n - 1]];
      ExecSnoc(w, INIT, acts[..n - 1], acts[n - 1]);
      StepActivity(w, After(w, acts[..n - 1]), acts[n - 1], sid);
    }
  }

  /**
  What `touch` is good for: a session touched at step m, within the timeout before the cleanup began and before the
  cleanup read its activity, is not force-removed by that cleanup, as long as nothing noted an earlier time after
  the touch.
  */
  lemma TouchedIsKept(w: Windows, acts: seq<Act>, u: TaskId, at: Instant, m: nat, t: TaskId, sid: Id, i: nat, k: nat)
    requires m < i < |acts| && k < |acts|
    requires acts[m] == Touch(u, at) && PcOf(After(w, acts[..m]), u) == Serving(sid)
    requires ReadAt(w, acts, t, sid, i) && Since(PcOf(After(w, acts[..i]), t).now, at) <= w.sessionTimeout
    requires ClockFrom(acts, m + 1, i, at)
    ensures !RemovedAt(w, acts, t, sid, false, k)
  {
    var g := After(w, acts[..m]);
    InvHolds(w, acts[..m]);
    TaskFact(g, u);
    assert acts[..m + 1] == acts[..m] + [acts[m]];
    ExecSnoc(w, INIT, acts[..m], acts[m]);
    TouchSets(w, g, u, at, sid);
    ActivitySince(w, acts, sid, m + 1, i, at);
    ActiveIsKept(w, acts, t, sid, i, k);
  }

  lemma TouchSets(w: Windows, g: World, u: TaskId, at: Instant, sid: Id)
    requires PcOf(g, u) == Serving(sid) && sid in g.cores
    ensures var g' := Next(w, g, Touch(u, at)); sid in g'.cores && g'.cores[sid].lastActivity == at
  {
  }
}
