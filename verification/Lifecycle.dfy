/**
All interleavings of the tasks that share the session manager: connection handlers, REST deletes,
the periodic cleanup and the graceful shutdown. A step is one lock-protected section; the sessions
lock is held across steps exactly where the code holds its guard.
*/
module Lifecycle {
  import opened Wrappers
  import opened Time
  import opened Session
  import opened SessionManager

  type TaskId = Id

  /** What is still to do in a `Session::shutdown` (and the forced disconnect of a stale session). */
  datatype Stage = ToCancel | ToDrop | ToAbort | ToClear

  /**
  Where a task is. The handler of one connection goes from Idle through Holding (it has the
  session), Registered (its client was added), Serving (the reader was started, message loop), Ending (the loop
  returned) and, for an isolated session, Vacating (its client was removed). Leaked is the handler that
  could not open the PTY for writing and returned without removing its client.
  */
  datatype Pc =
    | Idle
    | Holding(sid: Id, readonly: bool)
    | Registered(sid: Id)
    | Serving(sid: Id)
    | Ending(sid: Id)
    | Vacating(sid: Id)
    | Leaked(sid: Id)
    | Scanning(now: Instant, todo: set<Id>, current: Option<(Id, Instant)>, empty: seq<Id>, stale: seq<Id>)
    | Sweeping(now: Instant, empty: seq<Id>, stale: seq<Id>)
    | Removing(sid: Id, stage: Stage, locked: bool, clears: bool, resume: Pc)
    | Closing(left: set<Id>, at: Option<(Id, Stage)>)
    | Finished

  datatype ReaderTask = ReaderTask(sid: Id, ended: bool, aborted: bool)

  /**
  `filed` is the manager's map (an id determines its session), `cores` all sessions ever created.
  The last three fields are history: who created a session, who took it out of the map, and which sessions had their
  reader slot emptied by a shutdown.
  */
  datatype World = World(
    filed: set<Id>,
    cores: map<Id, Core>,
    tasks: map<TaskId, Pc>,
    readers: map<Handle, ReaderTask>,
    owner: map<Id, TaskId>,
    remover: map<Id, TaskId>,
    torn: set<Id>)

  const INIT: World := World({}, map[], map[], map[], map[], map[], {})

  datatype Act =
    | Create(t: TaskId, sid: Id, mode: Mode, now: Instant)
    | Join(t: TaskId, sid: Id)
    | Register(t: TaskId, now: Instant)
    | WriterFails(t: TaskId)
    | StartReader(t: TaskId, h: Handle)
    | Touch(t: TaskId, now: Instant)
    | InputFails(t: TaskId)
    | LoopEnds(t: TaskId)
    | Unregister(t: TaskId, now: Instant)
    | Vacate(t: TaskId)
    | Delete(t: TaskId, sid: Id)
    | StartScan(t: TaskId, now: Instant)
    | ReadActivity(t: TaskId, sid: Id)
    | ReadEmptiness(t: TaskId)
    | EndScan(t: TaskId)
    | SweepEmpty(t: TaskId)
    | SweepStale(t: TaskId)
    | EndSweep(t: TaskId)
    | ShutdownStep(t: TaskId)
    | StartClose(t: TaskId)
    | CloseOne(t: TaskId, sid: Id)
    | CloseStep(t: TaskId)
    | EndClose(t: TaskId)
    | ReaderEnds(h: Handle)

  // ----- Steps -----

  function PcOf(g: World, t: TaskId): Pc {
    if t in g.tasks then g.tasks[t] else Idle
  }

  /** The task holds the write guard of the sessions lock. */
  predicate HoldsWrite(pc: Pc) {
    (pc.Removing? && pc.locked) || pc.Closing?
  }

  predicate WriteFree(g: World) {
    forall u | u in g.tasks :: !HoldsWrite(g.tasks[u]) && !g.tasks[u].Scanning?
  }

  predicate ReadFree(g: World) {
    forall u | u in g.tasks :: !HoldsWrite(g.tasks[u])
  }

  function Move(g: World, t: TaskId, pc: Pc): World {
    g.(tasks := g.tasks[t := pc])
  }

  function MoveWith(g: World, t: TaskId, pc: Pc, sid: Id, core: Core): World {
    g.(tasks := g.tasks[t := pc], cores := g.cores[sid := core])
  }

  /** A new session goes straight into the map. */
  function Created(g: World, t: TaskId, sid: Id, mode: Mode, now: Instant): World {
    MoveWith(g, t, Holding(sid, false), sid, NewCore(mode, now)).(filed := g.filed + {sid}, owner := g.owner[sid := t])
  }

  /** Takes a filed session out of the map; the task now owes it a shutdown. */
  function Unfile(g: World, t: TaskId, sid: Id, locked: bool, clears: bool, resume: Pc): World {
    Move(g, t, Removing(sid, ToCancel, locked, clears, resume))
    .(filed := g.filed - {sid}, remover := g.remover[sid := t])
  }

  /** Aborts the reader in the session's slot, if any, and empties the slot. */
  function Tear(g: World, sid: Id): World
    requires sid in g.cores
  {
    var slot := g.cores[sid].reader;
    g.(cores := g.cores[sid := ReaderAborted(g.cores[sid])],
       readers := if slot.Some? && slot.value in g.readers
                  then g.readers[slot.value := g.readers[slot.value].(aborted := true)] else g.readers,
       torn := g.torn + {sid})
  }

  function ReaderEnded(g: World, h: Handle): World
    requires h in g.readers && g.readers[h].sid in g.cores
  {
    var sid := g.readers[h].sid;
    g.(cores := g.cores[sid := PtyExited(g.cores[sid])], readers := g.readers[h := g.readers[h].(ended := true)])
  }

  /** Starts a reader if the slot is empty. */
  function FillSlot(g: World, sid: Id, h: Handle): World
    requires sid in g.cores
  {
    if g.cores[sid].reader.Some? then g
    else
      g.(cores := g.cores[sid := ReaderStarted(g.cores[sid], h)],
         readers := g.readers[h := ReaderTask(sid, false, false)])
  }

  function NextShutdown(g: World, t: TaskId): World {
    var pc := PcOf(g, t);
    if !pc.Removing? || pc.sid !in g.cores then g
    else
      var sid, core := pc.sid, g.cores[pc.sid];
      match pc.stage
      case ToCancel => MoveWith(g, t, pc.(stage := ToDrop), sid, Cancelled(core))
      case ToDrop => MoveWith(g, t, pc.(stage := ToAbort), sid, PtyExited(core))
      case ToAbort => Move(Tear(g, sid), t, if pc.clears then pc.(stage := ToClear) else pc.resume)
      case ToClear => MoveWith(g, t, pc.resume, sid, core.(clients := map[]))
  }

  function NextClose(g: World, t: TaskId): World {
    var pc := PcOf(g, t);
    if !(pc.Closing? && pc.at.Some? && pc.at.value.0 in g.cores) then g
    else
      var (sid, stage) := pc.at.value;
      match stage
      case ToCancel => MoveWith(g, t, pc.(at := Some((sid, ToDrop))), sid, Cancelled(g.cores[sid]))
      case ToDrop => MoveWith(g, t, pc.(at := Some((sid, ToAbort))), sid, PtyExited(g.cores[sid]))
      case _ => Move(Tear(g, sid), t, pc.(at := None))
  }

  /** The connection handler. */
  function NextHandler(g: World, act: Act): World {
    match act
    case Create(t, sid, mode, now) =>
      if PcOf(g, t).Idle? && sid !in g.cores && WriteFree(g)
      then Created(g, t, sid, mode, now) else g
    case Join(t, sid) =>
      if PcOf(g, t).Idle? && ReadFree(g) && sid in g.filed && sid in g.cores
      then
        var mode := g.cores[sid].mode;
        Move(g, t, if mode == Isolated then Finished else Holding(sid, mode == SharedReadOnly))
      else g
    case Register(t, now) =>
      var pc := PcOf(g, t);
      if pc.Holding? && pc.sid in g.cores then
        match ClientAdded(g.cores[pc.sid], t, Client(pc.readonly), now)
        case Some(core) => MoveWith(g, t, Registered(pc.sid), pc.sid, core)
        case None => Move(g, t, Finished)
      else g
    case WriterFails(t) =>
      var pc := PcOf(g, t);
      if pc.Registered? then Move(g, t, Leaked(pc.sid)) else g
    case StartReader(t, h) =>
      var pc := PcOf(g, t);
      if pc.Registered? && pc.sid in g.cores && h !in g.readers
      then FillSlot(Move(g, t, Serving(pc.sid)), pc.sid, h)
      else g
    case Touch(t, now) =>
      var pc := PcOf(g, t);
      if pc.Serving? && pc.sid in g.cores
      then MoveWith(g, t, pc, pc.sid, g.cores[pc.sid].(lastActivity := now)) else g
    case InputFails(t) =>
      var pc := PcOf(g, t);
      if pc.Serving? && pc.sid in g.cores
      then MoveWith(g, t, Ending(pc.sid), pc.sid, PtyExited(g.cores[pc.sid])) else g
    case LoopEnds(t) =>
      var pc := PcOf(g, t);
      if pc.Serving? then Move(g, t, Ending(pc.sid)) else g
    case Unregister(t, now) =>
      var pc := PcOf(g, t);
      if pc.Ending? && pc.sid in g.cores
      then MoveWith(g, t, if g.cores[pc.sid].mode == Isolated then Vacating(pc.sid) else Finished,
                    pc.sid, ClientRemoved(g.cores[pc.sid], t, now))
      else g
    case Vacate(t) =>
      var pc := PcOf(g, t);
      if pc.Vacating? && WriteFree(g) then NextRemoveIfEmpty(g, t, pc.sid, Finished, Finished) else g
    case _ => g
  }

  /** `remove_if_empty`: both locks are held, so the check and the removal are one step. */
  function NextRemoveIfEmpty(g: World, t: TaskId, sid: Id, removed: Pc, kept: Pc): World {
    if sid in g.filed && sid in g.cores && g.cores[sid].clients == map[]
    then Unfile(g, t, sid, true, false, removed) else Move(g, t, kept)
  }

  /** The periodic cleanup: `now` is read before the lock is taken, each session is looked at in two reads. */
  function NextCleanup(w: Windows, g: World, act: Act): World {
    match act
    case StartScan(t, now) =>
      if PcOf(g, t).Idle? && ReadFree(g) then Move(g, t, Scanning(now, g.filed, None, [], [])) else g
    case ReadActivity(t, sid) =>
      var pc := PcOf(g, t);
      if pc.Scanning? && pc.current.None? && sid in pc.todo && sid in g.cores
      then Move(g, t, pc.(todo := pc.todo - {sid}, current := Some((sid, g.cores[sid].lastActivity)))) else g
    case ReadEmptiness(t) =>
      var pc := PcOf(g, t);
      if pc.Scanning? && pc.current.Some? && pc.current.value.0 in g.cores then
        var (sid, lastActivity) := pc.current.value;
        var idleTime := Since(pc.now, lastActivity);
        if g.cores[sid].clients == map[] then
          Move(g, t, pc.(current := None, empty := if idleTime > w.reconnectWindow then pc.empty + [sid] else pc.empty))
        else
          Move(g, t, pc.(current := None, stale := if idleTime > w.sessionTimeout then pc.stale + [sid] else pc.stale))
      else g
    case EndScan(t) =>
      var pc := PcOf(g, t);
      if pc.Scanning? && pc.current.None? && pc.todo == {} then Move(g, t, Sweeping(pc.now, pc.empty, pc.stale)) else g
    case SweepEmpty(t) =>
      var pc := PcOf(g, t);
      if pc.Sweeping? && pc.empty != [] && WriteFree(g) then
        var rest := Sweeping(pc.now, pc.empty[1..], pc.stale);
        NextRemoveIfEmpty(g, t, pc.empty[0], rest, rest)
      else g
    case SweepStale(t) =>
      var pc := PcOf(g, t);
      if pc.Sweeping? && pc.empty == [] && pc.stale != [] && WriteFree(g) then
        var rest := Sweeping(pc.now, [], pc.stale[1..]);
        if pc.stale[0] in g.filed then Unfile(g, t, pc.stale[0], true, true, rest) else Move(g, t, rest)
      else g
    case EndSweep(t) =>
      var pc := PcOf(g, t);
      if pc.Sweeping? && pc.empty == [] && pc.stale == [] then Move(g, t, Finished) else g
    case _ => g
  }

  predicate IsHandlerAct(act: Act) {
    || act.Create? || act.Join? || act.Register? || act.WriterFails? || act.StartReader?
    || act.Touch? || act.InputFails? || act.LoopEnds? || act.Unregister? || act.Vacate?
  }

  /** A step that is not possible in the current state changes nothing. */
  function Next(w: Windows, g: World, act: Act): World {
    match act
    case Delete(t, sid) =>
      if PcOf(g, t).Idle? && WriteFree(g)
      then if sid in g.filed then Unfile(g, t, sid, false, false, Finished) else Move(g, t, Finished)
      else g
    case ShutdownStep(t) => NextShutdown(g, t)
    case StartClose(t) =>
      if PcOf(g, t).Idle? && WriteFree(g) then Move(g, t, Closing(g.filed, None)) else g
    case CloseOne(t, sid) =>
      var pc := PcOf(g, t);
      if pc.Closing? && pc.at.None? && sid in pc.left
      then Move(g, t, Closing(pc.left - {sid}, Some((sid, ToCancel)))) else g
    case CloseStep(t) => NextClose(g, t)
    case EndClose(t) =>
      var pc := PcOf(g, t);
      if pc.Closing? && pc.at.None? && pc.left == {} then Move(g, t, Finished).(filed := {}) else g
    case ReaderEnds(h) =>
      if h in g.readers && !g.readers[h].ended && g.readers[h].sid in g.cores
      then ReaderEnded(g, h) else g
    case _ =>
      if IsHandlerAct(act) then NextHandler(g, act) else NextCleanup(w, g, act)
  }

  function Exec(w: Windows, g: World, acts: seq<Act>): World {
    if acts == [] then g else Next(w, Exec(w, g, acts[..|acts| - 1]), acts[|acts| - 1])
  }

  // ----- Invariant -----

  predicate IsIsolated(g: World, sid: Id) {
    sid in g.cores && g.cores[sid].mode == Isolated
  }

  predicate Owns(g: World, t: TaskId, sid: Id) {
    sid in g.owner && g.owner[sid] == t
  }

  /** What holds of one task, in terms of everything but the other tasks. */
  predicate TaskOk(g: World, t: TaskId, pc: Pc) {
    match pc
    case Idle => true
    case Finished => true
    case Holding(sid, _) =>
      sid in g.cores && (IsIsolated(g, sid) ==> Owns(g, t, sid) && g.cores[sid].clients == map[])
    case Registered(sid) => Attached(g, t, sid)
    case Serving(sid) => Attached(g, t, sid)
    case Ending(sid) => Attached(g, t, sid)
    case Leaked(sid) => Attached(g, t, sid)
    case Vacating(sid) => IsIsolated(g, sid) && Owns(g, t, sid) && g.cores[sid].clients == map[]
    case Scanning(_, todo, current, _, _) =>
      todo <= g.cores.Keys && (current.Some? ==> current.value.0 in g.cores)
    case Sweeping(_, _, _) => true
    case Removing(sid, stage, _, clears, resume) =>
      && sid in g.cores && sid !in g.filed && sid in g.remover && g.remover[sid] == t
      && StageOk(g, sid, stage) && (stage.ToClear? ==> clears)
      && (resume.Finished? || resume.Sweeping?)
    case Closing(left, at) =>
      && left <= g.filed && left !! g.torn
      && (at.Some? ==> at.value.0 in g.filed - left && at.value.0 in g.cores && !at.value.1.ToClear?
                       && StageOk(g, at.value.0, at.value.1))
      && (forall sid | sid in g.filed && sid !in left && (at.None? || at.value.0 != sid) ::
            sid in g.cores && ShutDown(g.cores[sid]))
  }

  predicate Attached(g: World, t: TaskId, sid: Id) {
    sid in g.cores && (IsIsolated(g, sid) ==> Owns(g, t, sid) && g.cores[sid].clients.Keys <= {t})
  }

  predicate StageOk(g: World, sid: Id, stage: Stage)
    requires sid in g.cores
  {
    && (stage.ToCancel? || g.cores[sid].cancelled)
    && (stage.ToCancel? || stage.ToDrop? || !g.cores[sid].output.open)
    && (stage.ToClear? || sid !in g.torn)
  }

  /** Some task took the session out of the map and has not reached the given stage of its shutdown. */
  predicate Owed(g: World, sid: Id, before: set<Stage>) {
    && sid in g.remover && g.remover[sid] in g.tasks
    && var pc := g.tasks[g.remover[sid]];
       pc.Removing? && pc.sid == sid && pc.stage in before
  }

  /** A session out of the map is shut down, apart from what its remover still owes it. */
  predicate OrphanOk(g: World, sid: Id)
    requires sid in g.cores
  {
    && (g.cores[sid].cancelled || Owed(g, sid, {ToCancel}))
    && (!g.cores[sid].output.open || Owed(g, sid, {ToCancel, ToDrop}))
  }

  predicate WorksFor(pc: Pc, sid: Id) {
    (pc.Holding? || pc.Registered? || pc.Serving? || pc.Ending? || pc.Vacating? || pc.Leaked?) && pc.sid == sid
  }

  predicate SomeoneCloses(g: World) {
    exists u :: u in g.tasks && g.tasks[u].Closing?
  }

  /** An isolated session in the map still has its creator working for it. */
  predicate CreatorWorks(g: World, sid: Id) {
    sid in g.owner && g.owner[sid] in g.tasks && WorksFor(g.tasks[g.owner[sid]], sid)
  }

  predicate MapInv(g: World) {
    && g.filed <= g.cores.Keys && g.owner.Keys == g.cores.Keys && g.torn <= g.cores.Keys
    && (forall sid {:trigger OrphanOk(g, sid)} | sid in g.cores && sid !in g.filed :: OrphanOk(g, sid))
    && (forall sid {:trigger CreatorWorks(g, sid)} | sid in g.filed && IsIsolated(g, sid) :: CreatorWorks(g, sid))
    && (g.filed !! g.torn || SomeoneCloses(g))
  }

  /** Nobody else holds the sessions lock while one task holds its write guard. */
  predicate Exclusive(tasks: map<TaskId, Pc>) {
    forall t, u {:trigger HoldsWrite(tasks[t]), HoldsWrite(tasks[u])} | t in tasks && u in tasks && t != u ::
      HoldsWrite(tasks[t]) ==> !HoldsWrite(tasks[u]) && !tasks[u].Scanning?
  }

  predicate TasksInv(g: World) {
    forall t {:trigger TaskOk(g, t, g.tasks[t])} | t in g.tasks :: TaskOk(g, t, g.tasks[t])
  }

  /** The slot of a session holds exactly its reader that was not aborted. */
  predicate SlotOk(cores: map<Id, Core>, readers: map<Handle, ReaderTask>, sid: Id) {
    sid in cores && cores[sid].reader.Some? ==>
      var h := cores[sid].reader.value;
      h in readers && readers[h].sid == sid && !readers[h].aborted
  }

  predicate ReaderOk(cores: map<Id, Core>, readers: map<Handle, ReaderTask>, torn: set<Id>, h: Handle) {
    h in readers ==>
      if readers[h].aborted then readers[h].sid in torn
      else readers[h].sid in cores && cores[readers[h].sid].reader == Some(h)
  }

  predicate SameAborted(readers: map<Handle, ReaderTask>, h: Handle, k: Handle) {
    h in readers && k in readers && readers[h].aborted && readers[k].aborted && readers[h].sid == readers[k].sid ==>
      h == k
  }

  ghost predicate ReadersInv(cores: map<Id, Core>, readers: map<Handle, ReaderTask>, torn: set<Id>) {
    && (forall sid {:trigger SlotOk(cores, readers, sid)} :: SlotOk(cores, readers, sid))
    && (forall h {:trigger ReaderOk(cores, readers, torn, h)} :: ReaderOk(cores, readers, torn, h))
    && (forall h, k {:trigger SameAborted(readers, h, k)} :: SameAborted(readers, h, k))
  }

  ghost predicate Inv(g: World) {
    MapInv(g) && Exclusive(g.tasks) && TasksInv(g) && ReadersInv(g.cores, g.readers, g.torn)
  }

  // ----- Preservation: the task that moves, and at most one session -----

  /** A session changes only forwards: it is never revived, and its reader slot is left alone. */
  predicate Forward(c: Core, c': Core) {
    && c'.mode == c.mode && c'.reader == c.reader
    && (c.cancelled ==> c'.cancelled) && (!c.output.open ==> !c'.output.open)
  }

  /** `t` may move to `pc`: it has the locks it needs and abandons nothing. */
  predicate MayMove(g: World, t: TaskId, pc: Pc) {
    var before := PcOf(g, t);
    && (HoldsWrite(pc) ==> HoldsWrite(before) || WriteFree(g))
    && (pc.Scanning? ==> before.Scanning? || ReadFree(g))
    && (before.Closing? ==> pc.Closing?)
    && (forall sid | sid in g.filed && IsIsolated(g, sid) && Owns(g, t, sid) && WorksFor(before, sid) ::
       WorksFor(pc, sid))
  }

  lemma LockFact(tasks: map<TaskId, Pc>, t: TaskId, u: TaskId)
    requires Exclusive(tasks) && t in tasks && u in tasks && t != u && HoldsWrite(tasks[t])
    ensures !HoldsWrite(tasks[u]) && !tasks[u].Scanning?
  {
    assert HoldsWrite(tasks[u]) || true;
  }

  /** `t` may keep or give up what it holds of the lock, or take it when it is free. */
  lemma MoveKeepsExclusive(g: World, t: TaskId, pc: Pc)
    requires Exclusive(g.tasks)
    requires HoldsWrite(pc) ==> HoldsWrite(PcOf(g, t)) || WriteFree(g)
    requires pc.Scanning? ==> PcOf(g, t).Scanning? || ReadFree(g)
    ensures Exclusive(g.tasks[t := pc])
  {
    var after := g.tasks[t := pc];
    forall u, v | u in after && v in after && u != v && HoldsWrite(after[u])
      ensures !HoldsWrite(after[v]) && !after[v].Scanning?
    {
      if u in g.tasks && v in g.tasks {
        if HoldsWrite(g.tasks[u]) {
          LockFact(g.tasks, u, v);
        } else if HoldsWrite(g.tasks[v]) {
          LockFact(g.tasks, v, u);
        }
      }
    }
  }

  lemma MoveKeepsMap(g: World, t: TaskId, pc: Pc, sid: Id, c: Core)
    requires MapInv(g) && MayMove(g, t, pc) && sid in g.cores && Forward(g.cores[sid], c)
    requires PcOf(g, t).Removing? ==> PcOf(g, t).sid == sid
    requires var g' := MoveWith(g, t, pc, sid, c);
             sid !in g.filed ==> OrphanOk(g', sid)
    ensures MapInv(MoveWith(g, t, pc, sid, c))
  {
    var g' := MoveWith(g, t, pc, sid, c);
    forall other | other in g'.cores && other !in g'.filed ensures OrphanOk(g', other) {
      if other != sid {
        assert OrphanOk(g, other);
      }
    }
    forall other | other in g'.filed && IsIsolated(g', other) ensures CreatorWorks(g', other) {
      assert CreatorWorks(g, other);
    }
    if SomeoneCloses(g) {
      var u :| u in g.tasks && g.tasks[u].Closing?;
      assert u in g'.tasks && g'.tasks[u].Closing?;
    }
  }

  lemma CoreKeepsTask(g: World, g': World, t: TaskId, u: TaskId, sid: Id, c: Core)
    requires u in g.tasks && u != t && TaskOk(g, u, g.tasks[u])
    requires sid in g.cores && Forward(g.cores[sid], c)
    requires IsIsolated(g, sid) ==> Owns(g, t, sid) || c.clients == g.cores[sid].clients || c.clients == map[]
    requires g'.cores == g.cores[sid := c] && g'.filed == g.filed && g'.owner == g.owner
             && g'.remover == g.remover && g'.torn == g.torn
    ensures TaskOk(g', u, g.tasks[u])
  {
  }

  lemma CoreKeepsTasks(g: World, g': World, t: TaskId, pc: Pc, sid: Id, c: Core)
    requires TasksInv(g) && sid in g.cores && Forward(g.cores[sid], c)
    requires IsIsolated(g, sid) ==> Owns(g, t, sid) || c.clients == g.cores[sid].clients || c.clients == map[]
    requires g' == MoveWith(g, t, pc, sid, c) && TaskOk(g', t, pc)
    ensures TasksInv(g')
  {
    forall u | u in g'.tasks ensures TaskOk(g', u, g'.tasks[u]) {
      if u != t {
        CoreKeepsTask(g, g', t, u, sid, c);
      }
    }
  }

  lemma CoreKeepsReaders(cores: map<Id, Core>, readers: map<Handle, ReaderTask>, torn: set<Id>, sid: Id, c: Core)
    requires ReadersInv(cores, readers, torn)
    requires if sid in cores then c.reader == cores[sid].reader else c.reader == None
    ensures ReadersInv(cores[sid := c], readers, torn)
  {
    var cores' := cores[sid := c];
    forall other ensures SlotOk(cores', readers, other) {
      assert SlotOk(cores, readers, other);
    }
    forall h ensures ReaderOk(cores', readers, torn, h) {
      assert ReaderOk(cores, readers, torn, h);
    }
  }

  /** `t` moves to `pc` and changes the session `sid` to `c`. */
  lemma MoveWithKeepsInv(g: World, t: TaskId, pc: Pc, sid: Id, c: Core)
    requires Inv(g) && MayMove(g, t, pc) && sid in g.cores && Forward(g.cores[sid], c)
    requires IsIsolated(g, sid) ==> Owns(g, t, sid) || c.clients == g.cores[sid].clients || c.clients == map[]
    requires PcOf(g, t).Removing? ==> PcOf(g, t).sid == sid
    requires TaskOk(MoveWith(g, t, pc, sid, c), t, pc)
    requires sid !in g.filed ==> OrphanOk(MoveWith(g, t, pc, sid, c), sid)
    ensures Inv(MoveWith(g, t, pc, sid, c))
  {
    var g' := MoveWith(g, t, pc, sid, c);
    MoveKeepsExclusive(g, t, pc);
    MoveKeepsMap(g, t, pc, sid, c);
    CoreKeepsTasks(g, g', t, pc, sid, c);
    CoreKeepsReaders(g.cores, g.readers, g.torn, sid, c);
  }

  lemma MoveKeepsMapOnly(g: World, t: TaskId, pc: Pc)
    requires MapInv(g) && MayMove(g, t, pc) && !PcOf(g, t).Removing?
    ensures MapInv(Move(g, t, pc))
  {
    var g' := Move(g, t, pc);
    forall other | other in g'.cores && other !in g'.filed ensures OrphanOk(g', other) {
      assert OrphanOk(g, other);
    }
    forall other | other in g'.filed && IsIsolated(g', other) ensures CreatorWorks(g', other) {
      assert CreatorWorks(g, other);
    }
    if SomeoneCloses(g) {
      var u :| u in g.tasks && g.tasks[u].Closing?;
      assert u in g'.tasks && g'.tasks[u].Closing?;
    }
  }

  lemma MoveKeepsTasks(g: World, t: TaskId, pc: Pc)
    requires TasksInv(g) && TaskOk(g, t, pc)
    ensures TasksInv(Move(g, t, pc))
  {
    var g' := Move(g, t, pc);
    forall u | u in g'.tasks ensures TaskOk(g', u, g'.tasks[u]) {
      SameWorldSameTask(g, g', u, g'.tasks[u]);
    }
  }

  lemma SameWorldSameTask(g: World, g': World, u: TaskId, pc: Pc)
    requires TaskOk(g, u, pc)
    requires g'.cores == g.cores && g'.filed == g.filed && g'.owner == g.owner
             && g'.remover == g.remover && g'.torn == g.torn
    ensures TaskOk(g', u, pc)
  {
  }

  /** `t` moves to `pc`; no session changes. */
  lemma MoveKeepsInv(g: World, t: TaskId, pc: Pc)
    requires Inv(g) && MayMove(g, t, pc) && TaskOk(g, t, pc) && !PcOf(g, t).Removing?
    ensures Inv(Move(g, t, pc))
  {
    MoveKeepsExclusive(g, t, pc);
    MoveKeepsMapOnly(g, t, pc);
    MoveKeepsTasks(g, t, pc);
  }

  // ----- Preservation: steps on the map, the readers, and several sessions -----

  lemma CreateKeepsMap(g: World, t: TaskId, sid: Id, mode: Mode, now: Instant)
    requires MapInv(g) && PcOf(g, t).Idle? && sid !in g.cores && WriteFree(g)
    ensures MapInv(Created(g, t, sid, mode, now))
  {
    var g' := Created(g, t, sid, mode, now);
    forall other | other in g'.cores && other !in g'.filed ensures OrphanOk(g', other) {
      assert OrphanOk(g, other);
    }
    forall other | other in g'.filed && IsIsolated(g', other) ensures CreatorWorks(g', other) {
      if other != sid {
        assert CreatorWorks(g, other);
      }
    }
  }

  lemma CreateKeepsTasks(g: World, t: TaskId, sid: Id, mode: Mode, now: Instant)
    requires TasksInv(g) && sid !in g.cores && WriteFree(g) && g.owner.Keys == g.cores.Keys
    ensures TasksInv(Created(g, t, sid, mode, now))
  {
    var g' := Created(g, t, sid, mode, now);
    forall u | u in g'.tasks ensures TaskOk(g', u, g'.tasks[u]) {
      if u != t {
        NewSessionKeepsTask(g, g', u, sid);
      }
    }
  }

  lemma CreateKeepsInv(g: World, t: TaskId, sid: Id, mode: Mode, now: Instant)
    requires Inv(g) && PcOf(g, t).Idle? && sid !in g.cores && WriteFree(g)
    ensures Inv(Created(g, t, sid, mode, now))
  {
    MoveKeepsExclusive(g, t, Holding(sid, false));
    CreateKeepsMap(g, t, sid, mode, now);
    CreateKeepsTasks(g, t, sid, mode, now);
    CoreKeepsReaders(g.cores, g.readers, g.torn, sid, NewCore(mode, now));
  }

  lemma NewSessionKeepsTask(g: World, g': World, u: TaskId, sid: Id)
    requires u in g.tasks && TaskOk(g, u, g.tasks[u]) && !g.tasks[u].Closing? && sid !in g.cores
    requires g'.cores.Keys == g.cores.Keys + {sid}
             && (forall other | other in g.cores :: g'.cores[other] == g.cores[other])
    requires g'.filed == g.filed + {sid} && g'.remover == g.remover && g'.torn == g.torn
    requires g'.owner.Keys == g.owner.Keys + {sid}
             && (forall other | other in g.owner && other != sid :: g'.owner[other] == g.owner[other])
    ensures TaskOk(g', u, g.tasks[u])
  {
  }

  lemma UnfileKeepsInv(g: World, t: TaskId, sid: Id, locked: bool, clears: bool, resume: Pc)
    requires Inv(g) && WriteFree(g) && sid in g.filed && (resume.Finished? || resume.Sweeping?)
    requires PcOf(g, t).Idle? || PcOf(g, t) == Vacating(sid) || PcOf(g, t).Sweeping?
    ensures Inv(Unfile(g, t, sid, locked, clears, resume))
  {
    var g' := Unfile(g, t, sid, locked, clears, resume);
    var pc := Removing(sid, ToCancel, locked, clears, resume);
    MoveKeepsExclusive(g, t, pc);
    assert sid !in g.torn;
    UnfileKeepsMap(g, g', t, sid, pc);
    forall u | u in g'.tasks ensures TaskOk(g', u, g'.tasks[u]) {
      if u != t {
        UnfileKeepsTask(g, g', u, t, sid);
      }
    }
  }

  lemma UnfileKeepsMap(g: World, g': World, t: TaskId, sid: Id, pc: Pc)
    requires MapInv(g) && WriteFree(g) && sid in g.filed && pc.Removing? && pc.sid == sid && pc.stage == ToCancel
    requires PcOf(g, t).Idle? || PcOf(g, t) == Vacating(sid) || PcOf(g, t).Sweeping?
    requires g' == Move(g, t, pc).(filed := g.filed - {sid}, remover := g.remover[sid := t])
    ensures MapInv(g')
  {
    forall other | other in g'.cores && other !in g'.filed ensures OrphanOk(g', other) {
      if other != sid {
        assert OrphanOk(g, other);
      }
    }
    forall other | other in g'.filed && IsIsolated(g', other) ensures CreatorWorks(g', other) {
      assert CreatorWorks(g, other);
    }
  }

  lemma UnfileKeepsTask(g: World, g': World, u: TaskId, t: TaskId, sid: Id)
    requires u in g.tasks && TaskOk(g, u, g.tasks[u]) && !g.tasks[u].Closing? && sid in g.filed
    requires g'.cores == g.cores && g'.filed == g.filed - {sid} && g'.owner == g.owner
             && g'.remover == g.remover[sid := t] && g'.torn == g.torn
    ensures TaskOk(g', u, g.tasks[u])
  {
  }

  lemma TaskFact(g: World, t: TaskId)
    requires TasksInv(g)
    ensures TaskOk(g, t, PcOf(g, t))
  {
    if t in g.tasks {
      assert TaskOk(g, t, g.tasks[t]);
    }
  }

  lemma TearKeepsReaders(g: World, sid: Id)
    requires ReadersInv(g.cores, g.readers, g.torn) && sid in g.cores && sid !in g.torn
    ensures var g' := Tear(g, sid); ReadersInv(g'.cores, g'.readers, g'.torn)
  {
    var g' := Tear(g, sid);
    assert SlotOk(g.cores, g.readers, sid);
    forall other ensures SlotOk(g'.cores, g'.readers, other) {
      assert SlotOk(g.cores, g.readers, other);
    }
    forall h ensures ReaderOk(g'.cores, g'.readers, g'.torn, h) {
      assert ReaderOk(g.cores, g.readers, g.torn, h);
    }
    forall h, k ensures SameAborted(g'.readers, h, k) {
      assert SameAborted(g.readers, h, k);
      assert ReaderOk(g.cores, g.readers, g.torn, h) && ReaderOk(g.cores, g.readers, g.torn, k);
    }
  }

  /** `t` aborts the reader of `sid` and moves on: from the last common stage of a removal, or of a closing. */
  lemma TearKeepsInv(g: World, t: TaskId, sid: Id, pc: Pc)
    requires Inv(g) && sid in g.cores && t in g.tasks
    requires var before := g.tasks[t];
             || (before.Removing? && before.sid == sid && before.stage == ToAbort
                 && pc == (if before.clears then before.(stage := ToClear) else before.resume))
             || (before.Closing? && before.at == Some((sid, ToAbort)) && pc == before.(at := None))
    ensures Inv(Move(Tear(g, sid), t, pc))
  {
    var before, g' := g.tasks[t], Move(Tear(g, sid), t, pc);
    TaskFact(g, t);
    TearKeepsReaders(g, sid);
    MoveKeepsExclusive(g, t, pc);
    TearKeepsMap(g, t, sid, pc);
    TearKeepsTasks(g, g', t, sid, pc);
  }

  lemma TearKeepsTasks(g: World, g': World, t: TaskId, sid: Id, pc: Pc)
    requires TasksInv(g) && Exclusive(g.tasks) && sid in g.cores && t in g.tasks
    requires var before := g.tasks[t];
             || (before.Removing? && before.sid == sid && before.stage == ToAbort
                 && pc == (if before.clears then before.(stage := ToClear) else before.resume))
             || (before.Closing? && before.at == Some((sid, ToAbort)) && pc == before.(at := None))
    requires g' == Move(Tear(g, sid), t, pc)
    ensures TasksInv(g')
  {
    forall u | u in g'.tasks ensures TaskOk(g', u, g'.tasks[u]) {
      if u != t {
        TearKeepsTask(g, g', t, u, sid);
      }
    }
  }

  lemma TearKeepsMap(g: World, t: TaskId, sid: Id, pc: Pc)
    requires MapInv(g) && sid in g.cores && t in g.tasks && TaskOk(g, t, g.tasks[t])
    requires var before := g.tasks[t];
             || (before.Removing? && before.sid == sid && before.stage == ToAbort)
             || (before.Closing? && before.at == Some((sid, ToAbort)) && pc.Closing?)
    ensures MapInv(Move(Tear(g, sid), t, pc))
  {
    var g' := Move(Tear(g, sid), t, pc);
    forall other | other in g'.cores && other !in g'.filed ensures OrphanOk(g', other) {
      assert OrphanOk(g, other);
    }
    forall other | other in g'.filed && IsIsolated(g', other) ensures CreatorWorks(g', other) {
      assert CreatorWorks(g, other);
    }
    if SomeoneCloses(g) {
      var u :| u in g.tasks && g.tasks[u].Closing?;
      assert u in g'.tasks && g'.tasks[u].Closing?;
    }
    if pc.Closing? {
      assert g'.tasks[t].Closing?;
    }
  }

  lemma TearKeepsTask(g: World, g': World, t: TaskId, u: TaskId, sid: Id)
    requires t in g.tasks && u in g.tasks && u != t && TaskOk(g, u, g.tasks[u]) && TaskOk(g, t, g.tasks[t])
    requires Exclusive(g.tasks) && sid in g.cores
    requires var before := g.tasks[t];
             (before.Removing? && before.sid == sid) || (before.Closing? && before.at == Some((sid, ToAbort)))
    requires g'.cores == g.cores[sid := ReaderAborted(g.cores[sid])] && g'.filed == g.filed
             && g'.owner == g.owner && g'.remover == g.remover && g'.torn == g.torn + {sid}
    ensures TaskOk(g', u, g.tasks[u])
  {
    if HoldsWrite(g.tasks[t]) {
      LockFact(g.tasks, t, u);
    }
  }

  lemma EndCloseKeepsMap(g: World, t: TaskId)
    requires MapInv(g) && t in g.tasks && g.tasks[t] == Closing({}, None) && TaskOk(g, t, g.tasks[t])
    ensures MapInv(Move(g, t, Finished).(filed := {}))
  {
    var g' := Move(g, t, Finished).(filed := {});
    forall sid | sid in g'.cores ensures OrphanOk(g', sid) {
      if sid !in g.filed {
        assert OrphanOk(g, sid);
      }
    }
  }

  lemma EndCloseKeepsInv(g: World, t: TaskId)
    requires Inv(g) && t in g.tasks && g.tasks[t] == Closing({}, None)
    ensures Inv(Move(g, t, Finished).(filed := {}))
  {
    var g' := Move(g, t, Finished).(filed := {});
    EndCloseKeepsMap(g, t);
    EndCloseKeepsTasks(g, t);
    MoveKeepsExclusive(g, t, Finished);
    assert g'.cores == g.cores && g'.readers == g.readers && g'.torn == g.torn;
  }

  lemma EndCloseKeepsTasks(g: World, t: TaskId)
    requires TasksInv(g) && Exclusive(g.tasks) && t in g.tasks && g.tasks[t] == Closing({}, None)
    ensures TasksInv(Move(g, t, Finished).(filed := {}))
  {
    var g' := Move(g, t, Finished).(filed := {});
    forall u | u in g'.tasks ensures TaskOk(g', u, g'.tasks[u]) {
      if u != t {
        LockFact(g.tasks, t, u);
        EmptyMapKeepsTask(g, g', u);
      }
    }
  }

  lemma EmptyMapKeepsTask(g: World, g': World, u: TaskId)
    requires u in g.tasks && TaskOk(g, u, g.tasks[u]) && !g.tasks[u].Closing?
    requires g'.cores == g.cores && g'.filed == {} && g'.owner == g.owner
             && g'.remover == g.remover && g'.torn == g.torn
    ensures TaskOk(g', u, g.tasks[u])
  {
  }

  lemma StartReaderKeepsInv(g: World, t: TaskId, h: Handle)
    requires Inv(g)
    ensures Inv(NextHandler(g, StartReader(t, h)))
  {
    var pc := PcOf(g, t);
    TaskFact(g, t);
    if pc.Registered? && pc.sid in g.cores && h !in g.readers {
      MoveKeepsInv(g, t, Serving(pc.sid));
      if g.cores[pc.sid].reader.None? {
        FillSlotKeepsInv(Move(g, t, Serving(pc.sid)), pc.sid, h);
      }
    }
  }

  lemma FillSlotKeepsInv(g: World, sid: Id, h: Handle)
    requires Inv(g) && sid in g.cores && g.cores[sid].reader.None? && h !in g.readers
    ensures Inv(FillSlot(g, sid, h))
  {
    var g' := FillSlot(g, sid, h);
    SlotKeepsMap(g, g', sid);
    SlotKeepsTasks(g, g', sid);
    FillSlotKeepsReaders(g, sid, h);
  }

  lemma FillSlotKeepsReaders(g: World, sid: Id, h: Handle)
    requires ReadersInv(g.cores, g.readers, g.torn) && sid in g.cores && g.cores[sid].reader.None? && h !in g.readers
    ensures var g' := FillSlot(g, sid, h); ReadersInv(g'.cores, g'.readers, g'.torn)
  {
    var g' := FillSlot(g, sid, h);
    forall other ensures SlotOk(g'.cores, g'.readers, other) {
      assert SlotOk(g.cores, g.readers, other);
    }
    forall k ensures ReaderOk(g'.cores, g'.readers, g'.torn, k) {
      assert ReaderOk(g.cores, g.readers, g.torn, k);
    }
    forall k, l ensures SameAborted(g'.readers, k, l) {
      assert SameAborted(g.readers, k, l);
    }
  }

  /** Only the reader slot of one session differs. */
  predicate SlotChange(g: World, g': World, sid: Id) {
    && sid in g.cores && sid in g'.cores
    && g'.cores == g.cores[sid := g.cores[sid].(reader := g'.cores[sid].reader)]
    && g'.filed == g.filed && g'.owner == g.owner && g'.remover == g.remover
    && g'.torn == g.torn && g'.tasks == g.tasks
  }

  lemma SlotKeepsMap(g: World, g': World, sid: Id)
    requires MapInv(g) && SlotChange(g, g', sid)
    ensures MapInv(g')
  {
    forall other | other in g'.cores && other !in g'.filed ensures OrphanOk(g', other) {
      assert OrphanOk(g, other);
    }
    forall other | other in g'.filed && IsIsolated(g', other) ensures CreatorWorks(g', other) {
      assert CreatorWorks(g, other);
    }
  }

  lemma SlotKeepsTasks(g: World, g': World, sid: Id)
    requires TasksInv(g) && SlotChange(g, g', sid)
    ensures TasksInv(g')
  {
    forall u | u in g'.tasks ensures TaskOk(g', u, g'.tasks[u]) {
      SlotKeepsTask(g, g', u, sid);
    }
  }

  lemma SlotKeepsTask(g: World, g': World, u: TaskId, sid: Id)
    requires u in g.tasks && TaskOk(g, u, g.tasks[u]) && SlotChange(g, g', sid)
    ensures TaskOk(g', u, g'.tasks[u])
  {
  }

  lemma ReaderEndsKeepsInv(g: World, h: Handle)
    requires Inv(g) && h in g.readers && g.readers[h].sid in g.cores
    ensures Inv(ReaderEnded(g, h))
  {
    var g' := ReaderEnded(g, h);
    ReaderEndsKeepsMap(g, h);
    ExitKeepsTasks(g, g', g.readers[h].sid);
    ReaderEndsKeepsReaders(g, h);
  }

  lemma ReaderEndsKeepsMap(g: World, h: Handle)
    requires MapInv(g) && h in g.readers && g.readers[h].sid in g.cores
    ensures MapInv(ReaderEnded(g, h))
  {
    var g' := ReaderEnded(g, h);
    forall other | other in g'.cores && other !in g'.filed ensures OrphanOk(g', other) {
      assert OrphanOk(g, other);
    }
    forall other | other in g'.filed && IsIsolated(g', other) ensures CreatorWorks(g', other) {
      assert CreatorWorks(g, other);
    }
  }

  lemma ReaderEndsKeepsReaders(g: World, h: Handle)
    requires ReadersInv(g.cores, g.readers, g.torn) && h in g.readers && g.readers[h].sid in g.cores
    ensures var g' := ReaderEnded(g, h); ReadersInv(g'.cores, g'.readers, g'.torn)
  {
    var g' := ReaderEnded(g, h);
    forall other ensures SlotOk(g'.cores, g'.readers, other) {
      assert SlotOk(g.cores, g.readers, other);
    }
    forall k ensures ReaderOk(g'.cores, g'.readers, g'.torn, k) {
      assert ReaderOk(g.cores, g.readers, g.torn, k);
    }
    forall k, l ensures SameAborted(g'.readers, k, l) {
      assert SameAborted(g.readers, k, l);
    }
  }

  lemma ExitKeepsTasks(g: World, g': World, sid: Id)
    requires TasksInv(g) && sid in g.cores
    requires g'.cores == g.cores[sid := PtyExited(g.cores[sid])] && g'.filed == g.filed && g'.owner == g.owner
             && g'.remover == g.remover && g'.torn == g.torn && g'.tasks == g.tasks
    ensures TasksInv(g')
  {
    forall u | u in g'.tasks ensures TaskOk(g', u, g'.tasks[u]) {
      ExitKeepsTask(g, g', sid, u);
    }
  }

  lemma ExitKeepsTask(g: World, g': World, sid: Id, u: TaskId)
    requires u in g.tasks && TaskOk(g, u, g.tasks[u]) && sid in g.cores
    requires g'.cores == g.cores[sid := PtyExited(g.cores[sid])] && g'.filed == g.filed && g'.owner == g.owner
             && g'.remover == g.remover && g'.torn == g.torn && g'.tasks == g.tasks
    ensures TaskOk(g', u, g'.tasks[u])
  {
  }

  // ----- Preservation: every step -----

  /** What a task that works for a session can rely on. */
  lemma WorkerFacts(g: World, t: TaskId, sid: Id)
    requires Inv(g) && WorksFor(PcOf(g, t), sid)
    ensures sid in g.cores && TaskOk(g, t, PcOf(g, t)) && (sid !in g.filed ==> OrphanOk(g, sid))
  {
    TaskFact(g, t);
    assert sid !in g.filed ==> OrphanOk(g, sid);
  }

  lemma HandlerKeepsInv(g: World, act: Act)
    requires Inv(g)
    ensures Inv(NextHandler(g, act))
  {
    match act
    case Create(t, sid, mode, now) =>
      if PcOf(g, t).Idle? && sid !in g.cores && WriteFree(g) {
        CreateKeepsInv(g, t, sid, mode, now);
      }
    case Join(t, sid) => JoinKeepsInv(g, t, sid);
    case Register(t, now) => RegisterKeepsInv(g, t, now);
    case WriterFails(t) => HandlerMovesKeepInv(g, t);
    case StartReader(t, h) => StartReaderKeepsInv(g, t, h);
    case Touch(t, now) => ServingStepsKeepInv(g, t, now);
    case InputFails(t) => ServingStepsKeepInv(g, t, 0);
    case LoopEnds(t) => HandlerMovesKeepInv(g, t);
    case Unregister(t, now) => UnregisterKeepsInv(g, t, now);
    case Vacate(t) => VacateKeepsInv(g, t);
    case _ =>
  }

  lemma JoinKeepsInv(g: World, t: TaskId, sid: Id)
    requires Inv(g)
    ensures Inv(NextHandler(g, Join(t, sid)))
  {
    if PcOf(g, t).Idle? && ReadFree(g) && sid in g.filed && sid in g.cores {
      var mode := g.cores[sid].mode;
      MoveKeepsInv(g, t, if mode == Isolated then Finished else Holding(sid, mode == SharedReadOnly));
    }
  }

  lemma HandlerMovesKeepInv(g: World, t: TaskId)
    requires Inv(g)
    ensures Inv(NextHandler(g, WriterFails(t))) && Inv(NextHandler(g, LoopEnds(t)))
  {
    var pc := PcOf(g, t);
    TaskFact(g, t);
    if pc.Registered? {
      MoveKeepsInv(g, t, Leaked(pc.sid));
    }
    if pc.Serving? {
      MoveKeepsInv(g, t, Ending(pc.sid));
    }
  }

  lemma ServingStepsKeepInv(g: World, t: TaskId, now: Instant)
    requires Inv(g)
    ensures Inv(NextHandler(g, Touch(t, now))) && Inv(NextHandler(g, InputFails(t)))
  {
    var pc := PcOf(g, t);
    if pc.Serving? && pc.sid in g.cores {
      ServingKeepsInv(g, t, pc, g.cores[pc.sid].(lastActivity := now));
      ServingKeepsInv(g, t, Ending(pc.sid), PtyExited(g.cores[pc.sid]));
    }
  }

  lemma VacateKeepsInv(g: World, t: TaskId)
    requires Inv(g)
    ensures Inv(NextHandler(g, Vacate(t)))
  {
    var pc := PcOf(g, t);
    if pc.Vacating? && WriteFree(g) {
      assert IsIsolated(g, pc.sid) && g.cores[pc.sid].clients == map[] by {
        TaskFact(g, t);
      }
      var g' := NextHandler(g, Vacate(t));
      if pc.sid in g.filed {
        assert g' == Unfile(g, t, pc.sid, true, false, Finished);
        UnfileKeepsInv(g, t, pc.sid, true, false, Finished);
      } else {
        assert g' == Move(g, t, Finished);
        MoveKeepsInv(g, t, Finished);
      }
    }
  }

  /** A serving task changes its session without touching the clients. */
  lemma ServingKeepsInv(g: World, t: TaskId, pc: Pc, c: Core)
    requires Inv(g) && PcOf(g, t).Serving? && PcOf(g, t).sid in g.cores
    requires pc == PcOf(g, t) || pc == Ending(PcOf(g, t).sid)
    requires Forward(g.cores[PcOf(g, t).sid], c) && c.clients == g.cores[PcOf(g, t).sid].clients
    ensures Inv(MoveWith(g, t, pc, PcOf(g, t).sid, c))
  {
    WorkerFacts(g, t, PcOf(g, t).sid);
    MoveWithKeepsInv(g, t, pc, PcOf(g, t).sid, c);
  }

  lemma RegisterKeepsInv(g: World, t: TaskId, now: Instant)
    requires Inv(g)
    ensures Inv(NextHandler(g, Register(t, now)))
  {
    var pc := PcOf(g, t);
    if pc.Holding? && pc.sid in g.cores {
      WorkerFacts(g, t, PcOf(g, t).sid);
      match ClientAdded(g.cores[pc.sid], t, Client(pc.readonly), now) {
        case Some(c) => MoveWithKeepsInv(g, t, Registered(pc.sid), pc.sid, c);
        case None => MoveKeepsInv(g, t, Finished);
      }
    }
  }

  lemma UnregisterKeepsInv(g: World, t: TaskId, now: Instant)
    requires Inv(g)
    ensures Inv(NextHandler(g, Unregister(t, now)))
  {
    var pc := PcOf(g, t);
    if pc.Ending? && pc.sid in g.cores {
      UnregisterOne(g, t, pc.sid, ClientRemoved(g.cores[pc.sid], t, now));
    }
  }

  lemma UnregisterOne(g: World, t: TaskId, sid: Id, c: Core)
    requires Inv(g) && PcOf(g, t) == Ending(sid) && sid in g.cores
    requires c == g.cores[sid].(clients := g.cores[sid].clients - {t}, lastActivity := c.lastActivity)
    ensures Inv(MoveWith(g, t, if g.cores[sid].mode == Isolated then Vacating(sid) else Finished, sid, c))
  {
    WorkerFacts(g, t, sid);
    if g.cores[sid].mode == Isolated {
      assert c.clients.Keys == {};
      MoveWithKeepsInv(g, t, Vacating(sid), sid, c);
    } else {
      MoveWithKeepsInv(g, t, Finished, sid, c);
    }
  }

  lemma RemoveIfEmptyKeepsInv(g: World, t: TaskId, sid: Id, rest: Pc)
    requires Inv(g) && WriteFree(g) && PcOf(g, t).Sweeping? && rest.Sweeping?
    ensures Inv(NextRemoveIfEmpty(g, t, sid, rest, rest))
  {
    if sid in g.filed && sid in g.cores && g.cores[sid].clients == map[] {
      UnfileKeepsInv(g, t, sid, true, false, rest);
    } else {
      MoveKeepsInv(g, t, rest);
    }
  }

  lemma StartScanKeepsInv(w: Windows, g: World, t: TaskId, now: Instant)
    requires Inv(g)
    ensures Inv(NextCleanup(w, g, StartScan(t, now)))
  {
    if PcOf(g, t).Idle? && ReadFree(g) {
      MoveKeepsInv(g, t, Scanning(now, g.filed, None, [], []));
    }
  }

  lemma ReadActivityKeepsInv(w: Windows, g: World, t: TaskId, sid: Id)
    requires Inv(g)
    ensures Inv(NextCleanup(w, g, ReadActivity(t, sid)))
  {
    var pc := PcOf(g, t);
    if pc.Scanning? && pc.current.None? && sid in pc.todo && sid in g.cores {
      TaskFact(g, t);
      MoveKeepsInv(g, t, pc.(todo := pc.todo - {sid}, current := Some((sid, g.cores[sid].lastActivity))));
    }
  }

  lemma EndScanKeepsInv(w: Windows, g: World, t: TaskId)
    requires Inv(g)
    ensures Inv(NextCleanup(w, g, EndScan(t)))
  {
    var pc := PcOf(g, t);
    if pc.Scanning? && pc.current.None? && pc.todo == {} {
      MoveKeepsInv(g, t, Sweeping(pc.now, pc.empty, pc.stale));
    }
  }

  lemma ReadEmptinessKeepsInv(w: Windows, g: World, t: TaskId)
    requires Inv(g)
    ensures Inv(NextCleanup(w, g, ReadEmptiness(t)))
  {
    var pc := PcOf(g, t);
    if pc.Scanning? && pc.current.Some? && pc.current.value.0 in g.cores {
      TaskFact(g, t);
      var pc' := NextCleanup(w, g, ReadEmptiness(t)).tasks[t];
      assert pc'.Scanning? && pc'.todo == pc.todo && pc'.current == None;
      MoveKeepsInv(g, t, pc');
    }
  }

  lemma SweepKeepsInv(w: Windows, g: World, t: TaskId)
    requires Inv(g)
    ensures Inv(NextCleanup(w, g, SweepEmpty(t)))
    ensures Inv(NextCleanup(w, g, EndSweep(t)))
  {
    var pc := PcOf(g, t);
    if pc.Sweeping? {
      if pc.empty != [] && WriteFree(g) {
        RemoveIfEmptyKeepsInv(g, t, pc.empty[0], Sweeping(pc.now, pc.empty[1..], pc.stale));
      }
      if pc.empty == [] && pc.stale == [] {
        MoveKeepsInv(g, t, Finished);
      }
    }
  }

  lemma SweepStaleKeepsInv(w: Windows, g: World, t: TaskId)
    requires Inv(g)
    ensures Inv(NextCleanup(w, g, SweepStale(t)))
  {
    var pc := PcOf(g, t);
    if pc.Sweeping? && pc.empty == [] && pc.stale != [] && WriteFree(g) {
      var rest := Sweeping(pc.now, [], pc.stale[1..]);
      if pc.stale[0] in g.filed {
        UnfileKeepsInv(g, t, pc.stale[0], true, true, rest);
      } else {
        MoveKeepsInv(g, t, rest);
      }
    }
  }

  lemma CleanupKeepsInv(w: Windows, g: World, act: Act)
    requires Inv(g)
    ensures Inv(NextCleanup(w, g, act))
  {
    match act
    case StartScan(t, now) => StartScanKeepsInv(w, g, t, now);
    case ReadActivity(t, sid) => ReadActivityKeepsInv(w, g, t, sid);
    case ReadEmptiness(t) => ReadEmptinessKeepsInv(w, g, t);
    case EndScan(t) => EndScanKeepsInv(w, g, t);
    case SweepEmpty(t) => SweepKeepsInv(w, g, t);
    case SweepStale(t) => SweepStaleKeepsInv(w, g, t);
    case EndSweep(t) => SweepKeepsInv(w, g, t);
    case _ =>
  }

  lemma ShutdownKeepsInv(g: World, t: TaskId)
    requires Inv(g)
    ensures Inv(NextShutdown(g, t))
  {
    var pc := PcOf(g, t);
    if pc.Removing? && pc.sid in g.cores {
      var sid, core := pc.sid, g.cores[pc.sid];
      TaskFact(g, t);
      assert OrphanOk(g, sid);
      match pc.stage {
        case ToCancel => MoveWithKeepsInv(g, t, pc.(stage := ToDrop), sid, Cancelled(core));
        case ToDrop => MoveWithKeepsInv(g, t, pc.(stage := ToAbort), sid, PtyExited(core));
        case ToAbort => TearKeepsInv(g, t, sid, if pc.clears then pc.(stage := ToClear) else pc.resume);
        case ToClear => MoveWithKeepsInv(g, t, pc.resume, sid, core.(clients := map[]));
      }
    }
  }

  lemma CloseKeepsInv(g: World, t: TaskId)
    requires Inv(g)
    ensures Inv(NextClose(g, t))
  {
    var pc := PcOf(g, t);
    if pc.Closing? && pc.at.Some? && pc.at.value.0 in g.cores {
      var (sid, stage) := pc.at.value;
      TaskFact(g, t);
      match stage {
        case ToCancel => MoveWithKeepsInv(g, t, pc.(at := Some((sid, ToDrop))), sid, Cancelled(g.cores[sid]));
        case ToDrop => MoveWithKeepsInv(g, t, pc.(at := Some((sid, ToAbort))), sid, PtyExited(g.cores[sid]));
        case ToAbort => TearKeepsInv(g, t, sid, pc.(at := None));
        case ToClear => assert false;
      }
    }
  }

  lemma DeleteKeepsInv(w: Windows, g: World, t: TaskId, sid: Id)
    requires Inv(g)
    ensures Inv(Next(w, g, Delete(t, sid)))
  {
    if PcOf(g, t).Idle? && WriteFree(g) {
      if sid in g.filed {
        UnfileKeepsInv(g, t, sid, false, false, Finished);
      } else {
        MoveKeepsInv(g, t, Finished);
      }
    }
  }

  lemma StartCloseKeepsInv(w: Windows, g: World, t: TaskId)
    requires Inv(g)
    ensures Inv(Next(w, g, StartClose(t)))
  {
    if PcOf(g, t).Idle? && WriteFree(g) {
      MoveKeepsInv(g, t, Closing(g.filed, None));
    }
  }

  lemma CloseOneKeepsInv(w: Windows, g: World, t: TaskId, sid: Id)
    requires Inv(g)
    ensures Inv(Next(w, g, CloseOne(t, sid)))
  {
    var pc := PcOf(g, t);
    if pc.Closing? && pc.at.None? && sid in pc.left {
      TaskFact(g, t);
      MoveKeepsInv(g, t, Closing(pc.left - {sid}, Some((sid, ToCancel))));
    }
  }

  lemma EndingKeepsInv(w: Windows, g: World, act: Act)
    requires Inv(g) && (act.EndClose? || act.ReaderEnds?)
    ensures Inv(Next(w, g, act))
  {
    match act
    case EndClose(t) =>
      if PcOf(g, t) == Closing({}, None) {
        EndCloseKeepsInv(g, t);
      }
    case ReaderEnds(h) =>
      if h in g.readers && g.readers[h].sid in g.cores {
        ReaderEndsKeepsInv(g, h);
      }
  }

  lemma NextKeepsInv(w: Windows, g: World, act: Act)
    requires Inv(g)
    ensures Inv(Next(w, g, act))
  {
    match act
    case Delete(t, sid) => DeleteKeepsInv(w, g, t, sid);
    case ShutdownStep(t) => ShutdownKeepsInv(g, t);
    case StartClose(t) => StartCloseKeepsInv(w, g, t);
    case CloseOne(t, sid) => CloseOneKeepsInv(w, g, t, sid);
    case CloseStep(t) => CloseKeepsInv(g, t);
    case EndClose(t) => EndingKeepsInv(w, g, act);
    case ReaderEnds(h) => EndingKeepsInv(w, g, act);
    case _ =>
      if IsHandlerAct(act) {
        HandlerKeepsInv(g, act);
      } else {
        CleanupKeepsInv(w, g, act);
      }
  }

  lemma {:induction false} InvHolds(w: Windows, acts: seq<Act>)
    ensures Inv(Exec(w, INIT, acts))
  {
    if acts != [] {
      InvHolds(w, acts[..|acts| - 1]);
      NextKeepsInv(w, Exec(w, INIT, acts[..|acts| - 1]), acts[|acts| - 1]);
    }
  }
}
