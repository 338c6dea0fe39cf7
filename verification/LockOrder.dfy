/**
The locks of `src/session.rs`: which ones each method takes, in which order, and why no interleaving of
any number of tasks can block for ever.
*/
module LockOrder {
  import opened Session

  /** The manager's map, and per session its client map, its activity time, its output sender and its reader slot. */
  datatype Lock = Sessions | Clients(sid: Id) | LastActivity(sid: Id) | OutputTx(sid: Id) | ReaderTask(sid: Id)

  datatype Access = Read | Write

  function Rank(l: Lock): nat {
    match l
    case Sessions => 0
    case Clients(_) => 1
    case _ => 2
  }

  /** The async locks serve their waiters in order; the two `std::sync::Mutex` locks serve them in any order. */
  predicate Fair(l: Lock) {
    !l.OutputTx? && !l.ReaderTask?
  }

  // ----- What the methods take -----

  /** Guards live for a block: take a lock, run the body, release it, go on. */
  datatype Code = Done | With(lock: Lock, access: Access, body: Code, next: Code)

  function Then(a: Code, b: Code): Code {
    match a
    case Done => b
    case With(l, m, body, next) => With(l, m, body, Then(next, b))
  }

  function Once(l: Lock, m: Access): Code {
    With(l, m, Done, Done)
  }

  /** What a method finds under its locks is data of the call: every outcome is a call of its own. */
  datatype Call =
    | AddClient(sid: Id, refused: bool)
    | RemoveClient(sid: Id, known: bool)
    | LookAtClients(sid: Id)
    | UseActivity(sid: Id)
    | UseOutput(sid: Id)
    | StartReaderOnce(sid: Id)
    | ShutdownSession(sid: Id)
    | CreateSession
    | LookAtSessions
    | RemoveSession(sid: Id, known: bool)
    | RemoveIfEmpty(sid: Id, outcome: Emptiness)
    | CleanupInactive(scanned: seq<Id>, empty: seq<(Id, Emptiness)>, stale: seq<(Id, bool)>)
    | ShutdownManager(sids: seq<Id>)
    | Stats(sids: seq<Id>)

  datatype Emptiness = Unknown | HasClients | Empty

  /** `Session::shutdown`: cancelling the token takes no lock, `mark_pty_exited` and `abort_reader` one each. */
  function ShutdownCode(sid: Id): Code {
    With(OutputTx(sid), Write, Done, Once(ReaderTask(sid), Write))
  }

  function RemoveIfEmptyCode(sid: Id, outcome: Emptiness): Code {
    With(Sessions, Write,
         match outcome
         case Unknown => Done
         case HasClients => Once(Clients(sid), Write)
         case Empty => With(Clients(sid), Write, Done, ShutdownCode(sid)),
         Done)
  }

  function ScanCode(scanned: seq<Id>): Code {
    if scanned == [] then Done
    else With(LastActivity(scanned[0]), Write, Done, With(Clients(scanned[0]), Read, Done, ScanCode(scanned[1..])))
  }

  function SweepEmptyCode(empty: seq<(Id, Emptiness)>): Code {
    if empty == [] then Done else Then(RemoveIfEmptyCode(empty[0].0, empty[0].1), SweepEmptyCode(empty[1..]))
  }

  function SweepStaleCode(stale: seq<(Id, bool)>): Code {
    if stale == [] then Done
    else
      var (sid, known) := stale[0];
      With(Sessions, Write,
           if known then Then(ShutdownCode(sid), Once(Clients(sid), Write)) else Done,
           SweepStaleCode(stale[1..]))
  }

  function ShutdownAllCode(sids: seq<Id>): Code {
    if sids == [] then Done else Then(ShutdownCode(sids[0]), ShutdownAllCode(sids[1..]))
  }

  function CountClientsCode(sids: seq<Id>): Code {
    if sids == [] then Done else With(Clients(sids[0]), Read, Done, CountClientsCode(sids[1..]))
  }

  function CodeOf(c: Call): Code {
    match c
    case AddClient(sid, refused) =>
      With(Clients(sid), Write, if refused then Done else Once(LastActivity(sid), Write), Done)
    case RemoveClient(sid, known) =>
      With(Clients(sid), Write, if known then Once(LastActivity(sid), Write) else Done, Done)
    case LookAtClients(sid) => Once(Clients(sid), Read)
    case UseActivity(sid) => Once(LastActivity(sid), Write)
    case UseOutput(sid) => Once(OutputTx(sid), Write)
    case StartReaderOnce(sid) => Once(ReaderTask(sid), Write)
    case ShutdownSession(sid) => ShutdownCode(sid)
    case CreateSession => Once(Sessions, Write)
    case LookAtSessions => Once(Sessions, Read)
    case RemoveSession(sid, known) => With(Sessions, Write, Done, if known then ShutdownCode(sid) else Done)
    case RemoveIfEmpty(sid, outcome) => RemoveIfEmptyCode(sid, outcome)
    case CleanupInactive(scanned, empty, stale) =>
      With(Sessions, Read, ScanCode(scanned), Then(SweepEmptyCode(empty), SweepStaleCode(stale)))
    case ShutdownManager(sids) => With(Sessions, Write, ShutdownAllCode(sids), Done)
    case Stats(sids) => With(Sessions, Read, Done, CountClientsCode(sids))
  }

  /** A task calls one method after the other. */
  function Script(calls: seq<Call>): Code {
    if calls == [] then Done else Then(CodeOf(calls[0]), Script(calls[1..]))
  }

  // ----- The rank order -----

  /** Every lock is taken while only locks of smaller rank are held. */
  predicate Ranked(c: Code, floor: int) {
    match c
    case Done => true
    case With(l, _, body, next) => Rank(l) > floor && Ranked(body, Rank(l)) && Ranked(next, floor)
  }

  lemma {:induction false} RankedLower(c: Code, floor: int, lower: int)
    requires Ranked(c, floor) && lower <= floor
    ensures Ranked(c, lower)
  {
    if c.With? {
      RankedLower(c.next, floor, lower);
    }
  }

  lemma {:induction false} RankedThen(a: Code, b: Code, floor: int)
    requires Ranked(a, floor) && Ranked(b, floor)
    ensures Ranked(Then(a, b), floor)
  {
    if a.With? {
      RankedThen(a.next, b, floor);
    }
  }

  lemma OnceRanked(l: Lock, m: Access, floor: int)
    requires Rank(l) > floor
    ensures Ranked(Once(l, m), floor)
  {
    var none := Done;
    assert Ranked(none, Rank(l)) && Ranked(none, floor);
  }

  lemma ShutdownRanked(sid: Id)
    ensures Ranked(ShutdownCode(sid), 1)
  {
    OnceRanked(ReaderTask(sid), Write, 1);
  }

  lemma RemoveIfEmptyRanked(sid: Id, outcome: Emptiness)
    ensures Ranked(RemoveIfEmptyCode(sid, outcome), -1)
  {
    ShutdownRanked(sid);
    RankedLower(ShutdownCode(sid), 1, 0);
    OnceRanked(Clients(sid), Write, 0);
  }

  lemma {:induction false} ScanRanked(scanned: seq<Id>)
    ensures Ranked(ScanCode(scanned), 0)
  {
    if scanned != [] {
      ScanRanked(scanned[1..]);
    }
  }

  lemma {:induction false} SweepEmptyRanked(empty: seq<(Id, Emptiness)>)
    ensures Ranked(SweepEmptyCode(empty), -1)
  {
    if empty != [] {
      RemoveIfEmptyRanked(empty[0].0, empty[0].1);
      SweepEmptyRanked(empty[1..]);
      RankedThen(RemoveIfEmptyCode(empty[0].0, empty[0].1), SweepEmptyCode(empty[1..]), -1);
    }
  }

  lemma {:induction false} SweepStaleRanked(stale: seq<(Id, bool)>)
    ensures Ranked(SweepStaleCode(stale), -1)
  {
    if stale != [] {
      SweepStaleRanked(stale[1..]);
      ShutdownRanked(stale[0].0);
      RankedLower(ShutdownCode(stale[0].0), 1, 0);
      RankedThen(ShutdownCode(stale[0].0), Once(Clients(stale[0].0), Write), 0);
    }
  }

  lemma {:induction false} ShutdownAllRanked(sids: seq<Id>)
    ensures Ranked(ShutdownAllCode(sids), 0)
  {
    if sids != [] {
      ShutdownAllRanked(sids[1..]);
      ShutdownRanked(sids[0]);
      RankedLower(ShutdownCode(sids[0]), 1, 0);
      RankedThen(ShutdownCode(sids[0]), ShutdownAllCode(sids[1..]), 0);
    }
  }

  lemma {:induction false} CountClientsRanked(sids: seq<Id>)
    ensures Ranked(CountClientsCode(sids), -1)
  {
    if sids != [] {
      CountClientsRanked(sids[1..]);
    }
  }

  /** Every method takes its locks in rank order: the map, then one session's clients, then its other locks. */
  lemma MethodsAreRanked(c: Call)
    ensures Ranked(CodeOf(c), -1)
  {
    match c
    case CleanupInactive(scanned, empty, stale) =>
      ScanRanked(scanned);
      SweepEmptyRanked(empty);
      SweepStaleRanked(stale);
      RankedThen(SweepEmptyCode(empty), SweepStaleCode(stale), -1);
    case ShutdownManager(sids) => ShutdownAllRanked(sids);
    case Stats(sids) => CountClientsRanked(sids);
    case RemoveIfEmpty(sid, outcome) => RemoveIfEmptyRanked(sid, outcome);
    case ShutdownSession(sid) =>
      ShutdownRanked(sid);
      RankedLower(ShutdownCode(sid), 1, -1);
    case RemoveSession(sid, _) =>
      ShutdownRanked(sid);
      RankedLower(ShutdownCode(sid), 1, -1);
    case AddClient(sid, _) => OnceRanked(LastActivity(sid), Write, 1);
    case RemoveClient(sid, _) => OnceRanked(LastActivity(sid), Write, 1);
    case _ =>
  }

  lemma {:induction false} ScriptsAreRanked(calls: seq<Call>)
    ensures Ranked(Script(calls), -1)
  {
    if calls != [] {
      MethodsAreRanked(calls[0]);
      ScriptsAreRanked(calls[1..]);
      RankedThen(CodeOf(calls[0]), Script(calls[1..]), -1);
    }
  }

  // ----- The machine -----

  datatype Instr = Acquire(lock: Lock, access: Access) | Release(lock: Lock)

  function Trace(c: Code): seq<Instr> {
    match c
    case Done => []
    case With(l, m, body, next) => [Acquire(l, m)] + (Trace(body) + ([Release(l)] + Trace(next)))
  }

  datatype Task = Task(todo: seq<Instr>, held: map<Lock, Access>, waiting: bool)

  type TaskId = nat

  /** The waiters of a lock stand in the order of their requests. */
  datatype State = State(tasks: seq<Task>, queues: map<Lock, seq<TaskId>>)

  function Queue(g: State, l: Lock): seq<TaskId> {
    if l in g.queues then g.queues[l] else []
  }

  function Without(q: seq<TaskId>, t: TaskId): seq<TaskId> {
    if q == [] then [] else if q[0] == t then Without(q[1..], t) else [q[0]] + Without(q[1..], t)
  }

  lemma {:induction false} WithoutHas(q: seq<TaskId>, t: TaskId, u: TaskId)
    ensures u in Without(q, t) <==> u in q && u != t
  {
    if q != [] {
      WithoutHas(q[1..], t, u);
      assert q == [q[0]] + q[1..];
    }
  }

  /** Nobody else's guard excludes this access. */
  predicate Admits(g: State, t: TaskId, l: Lock, m: Access) {
    forall u | 0 <= u < |g.tasks| && u != t && l in g.tasks[u].held :: m == Read && g.tasks[u].held[l] == Read
  }

  datatype Act =
    | Request(t: TaskId)
    | Grant(t: TaskId)
    | Unlock(t: TaskId)
    /** The task's future is dropped: its guards and its place in the queue go with it. */
    | Abandon(t: TaskId)

  predicate CanRequest(g: State, t: TaskId) {
    t < |g.tasks| && g.tasks[t].todo != [] && g.tasks[t].todo[0].Acquire? && !g.tasks[t].waiting
  }

  predicate CanBeGranted(g: State, t: TaskId) {
    && t < |g.tasks| && g.tasks[t].waiting && g.tasks[t].todo != [] && g.tasks[t].todo[0].Acquire?
    && var l := g.tasks[t].todo[0].lock;
       && (if Fair(l) then Queue(g, l) != [] && Queue(g, l)[0] == t else t in Queue(g, l))
       && Admits(g, t, l, g.tasks[t].todo[0].access)
  }

  predicate CanUnlock(g: State, t: TaskId) {
    t < |g.tasks| && g.tasks[t].todo != [] && g.tasks[t].todo[0].Release?
  }

  predicate Enabled(g: State, act: Act) {
    match act
    case Request(t) => CanRequest(g, t)
    case Grant(t) => CanBeGranted(g, t)
    case Unlock(t) => CanUnlock(g, t)
    case Abandon(t) => t < |g.tasks| && g.tasks[t].todo != []
  }

  function LeaveQueue(g: State, t: TaskId, l: Lock, task: Task): State
    requires t < |g.tasks|
  {
    State(g.tasks[t := task], g.queues[l := Without(Queue(g, l), t)])
  }

  /** A step that is not possible in the current state changes nothing. */
  function Next(g: State, act: Act): State {
    if !Enabled(g, act) then g
    else
      var task := g.tasks[act.t];
      var l := task.todo[0].lock;
      match act
      case Request(t) =>
        State(g.tasks[t := task.(waiting := true)], g.queues[l := Queue(g, l) + [t]])
      case Grant(t) =>
        LeaveQueue(g, t, l, Task(task.todo[1..], task.held[l := task.todo[0].access], false))
      case Unlock(t) =>
        State(g.tasks[t := Task(task.todo[1..], task.held - {l}, task.waiting)], g.queues)
      case Abandon(t) => LeaveQueue(g, t, l, Task([], map[], false))
  }

  function Start(scripts: seq<seq<Call>>): State {
    State(seq(|scripts|, i requires 0 <= i < |scripts| => Task(Trace(Script(scripts[i])), map[], false)), map[])
  }

  function Exec(g: State, acts: seq<Act>): State {
    if acts == [] then g else Next(Exec(g, acts[..|acts| - 1]), acts[|acts| - 1])
  }

  // ----- Invariant -----

  /** What is left to do takes locks in rank order above the held ones, and ends with none held. */
  predicate Disciplined(held: map<Lock, Access>, todo: seq<Instr>)
    decreases |todo|
  {
    if todo == [] then held == map[]
    else
      match todo[0]
      case Acquire(l, m) => Below(held, Rank(l) - 1) && Disciplined(held[l := m], todo[1..])
      case Release(l) => l in held && Disciplined(held - {l}, todo[1..])
  }

  predicate Below(held: map<Lock, Access>, floor: int) {
    forall l | l in held :: Rank(l) <= floor
  }

  lemma {:induction false} RankedIsDisciplined(c: Code, floor: int, held: map<Lock, Access>, rest: seq<Instr>)
    requires Ranked(c, floor) && Below(held, floor) && Disciplined(held, rest)
    ensures Disciplined(held, Trace(c) + rest)
  {
    if c == Done {
      assert Trace(c) + rest == rest;
    } else {
      var after := Trace(c.next) + rest;
      RankedIsDisciplined(c.next, floor, held, rest);
      ReleaseFirst(c.lock, c.access, held, after);
      RankedIsDisciplined(c.body, Rank(c.lock), held[c.lock := c.access], [Release(c.lock)] + after);
      var todo := Trace(c.body) + ([Release(c.lock)] + after);
      Regroup([Acquire(c.lock, c.access)], Trace(c.body), [Release(c.lock)], Trace(c.next), rest);
      assert ([Acquire(c.lock, c.access)] + todo)[1..] == todo;
    }
  }

  lemma ReleaseFirst(l: Lock, m: Access, held: map<Lock, Access>, after: seq<Instr>)
    requires l !in held && Disciplined(held, after)
    ensures Disciplined(held[l := m], [Release(l)] + after)
  {
    assert ([Release(l)] + after)[1..] == after;
    assert held[l := m] - {l} == held;
  }

  lemma Regroup(a: seq<Instr>, b: seq<Instr>, c: seq<Instr>, d: seq<Instr>, e: seq<Instr>)
    ensures a + (b + (c + d)) + e == a + (b + (c + (d + e)))
  {
  }

  predicate TaskOk(queues: map<Lock, seq<TaskId>>, task: Task, t: TaskId) {
    && Disciplined(task.held, task.todo)
    && (task.waiting ==> task.todo != [] && task.todo[0].Acquire?
                         && task.todo[0].lock in queues && t in queues[task.todo[0].lock])
  }

  predicate WaiterOk(g: State, l: Lock, t: TaskId) {
    t in Queue(g, l) ==>
      t < |g.tasks| && g.tasks[t].waiting && g.tasks[t].todo != [] && g.tasks[t].todo[0].Acquire?
        && g.tasks[t].todo[0].lock == l
  }

  predicate ShareOk(g: State, t: TaskId, u: TaskId, l: Lock) {
    t < |g.tasks| && u < |g.tasks| && t != u && l in g.tasks[t].held && l in g.tasks[u].held ==>
      g.tasks[t].held[l] == Read && g.tasks[u].held[l] == Read
  }

  ghost predicate Inv(g: State) {
    && (forall t {:trigger g.tasks[t]} | 0 <= t < |g.tasks| :: TaskOk(g.queues, g.tasks[t], t))
    && (forall l, t {:trigger WaiterOk(g, l, t)} :: WaiterOk(g, l, t))
    && (forall t, u, l {:trigger ShareOk(g, t, u, l)} :: ShareOk(g, t, u, l))
  }

  lemma StartIsOk(scripts: seq<seq<Call>>)
    ensures Inv(Start(scripts))
  {
    var g := Start(scripts);
    forall t | 0 <= t < |g.tasks| ensures TaskOk(g.queues, g.tasks[t], t) {
      ScriptsAreRanked(scripts[t]);
      RankedIsDisciplined(Script(scripts[t]), -1, map[], []);
      assert Trace(Script(scripts[t])) + [] == Trace(Script(scripts[t]));
    }
  }

  lemma NextKeepsTasks(g: State, act: Act, u: TaskId)
    requires Inv(g) && u < |g.tasks|
    ensures TaskOk(Next(g, act).queues, Next(g, act).tasks[u], u)
  {
    assert TaskOk(g.queues, g.tasks[u], u);
    if Enabled(g, act) {
      assert TaskOk(g.queues, g.tasks[act.t], act.t);
      WithoutHas(Queue(g, g.tasks[act.t].todo[0].lock), act.t, u);
    }
  }

  lemma NextKeepsWaiters(g: State, act: Act, l: Lock, u: TaskId)
    requires Inv(g)
    ensures WaiterOk(Next(g, act), l, u)
  {
    assert WaiterOk(g, l, u);
    if Enabled(g, act) {
      WithoutHas(Queue(g, g.tasks[act.t].todo[0].lock), act.t, u);
      assert TaskOk(g.queues, g.tasks[act.t], act.t);
    }
  }

  lemma NextKeepsShares(g: State, act: Act, t: TaskId, u: TaskId, l: Lock)
    requires Inv(g)
    ensures ShareOk(Next(g, act), t, u, l)
  {
    assert ShareOk(g, t, u, l);
  }

  lemma NextKeepsInv(g: State, act: Act)
    requires Inv(g)
    ensures Inv(Next(g, act))
  {
    var g' := Next(g, act);
    forall u | 0 <= u < |g'.tasks| ensures TaskOk(g'.queues, g'.tasks[u], u) {
      NextKeepsTasks(g, act, u);
    }
    forall l, u ensures WaiterOk(g', l, u) {
      NextKeepsWaiters(g, act, l, u);
    }
    forall t, u, l ensures ShareOk(g', t, u, l) {
      NextKeepsShares(g, act, t, u, l);
    }
  }

  lemma {:induction false} InvHolds(scripts: seq<seq<Call>>, acts: seq<Act>)
    ensures Inv(Exec(Start(scripts), acts))
  {
    if acts == [] {
      StartIsOk(scripts);
    } else {
      InvHolds(scripts, acts[..|acts| - 1]);
      NextKeepsInv(Exec(Start(scripts), acts[..|acts| - 1]), acts[|acts| - 1]);
    }
  }

  /** Two tasks hold the same lock only if both hold it for reading. */
  lemma {:induction false} MutualExclusion(scripts: seq<seq<Call>>, acts: seq<Act>, t: TaskId, u: TaskId, l: Lock)
    requires var g := Exec(Start(scripts), acts);
             t < |g.tasks| && u < |g.tasks| && t != u && l in g.tasks[t].held && l in g.tasks[u].held
    ensures var g := Exec(Start(scripts), acts); g.tasks[t].held[l] == Read && g.tasks[u].held[l] == Read
  {
    InvHolds(scripts, acts);
    assert ShareOk(Exec(Start(scripts), acts), t, u, l);
  }

  // ----- Progress -----

  predicate AllDone(g: State) {
    forall t | 0 <= t < |g.tasks| :: g.tasks[t].todo == []
  }

  /** A waiter, or whoever it waits for in the end, can make its next step: each wait leads to a higher rank. */
  lemma {:induction false} Unblocked(g: State, t: TaskId) returns (act: Act)
    requires Inv(g) && t < |g.tasks| && g.tasks[t].todo != []
    ensures Enabled(g, act) && !act.Abandon?
    decreases if g.tasks[t].waiting then 2 - Rank(g.tasks[t].todo[0].lock) else 3
  {
    assert TaskOk(g.queues, g.tasks[t], t);
    if !g.tasks[t].waiting {
      act := if g.tasks[t].todo[0].Acquire? then Request(t) else Unlock(t);
    } else {
      var l := g.tasks[t].todo[0].lock;
      var head := Queue(g, l)[0];
      assert WaiterOk(g, l, head);
      assert TaskOk(g.queues, g.tasks[head], head);
      if Admits(g, head, l, g.tasks[head].todo[0].access) {
        act := Grant(head);
      } else {
        var u :| 0 <= u < |g.tasks| && u != head && l in g.tasks[u].held;
        act := UnblockedHolder(g, u, l);
      }
    }
  }

  lemma {:induction false} UnblockedHolder(g: State, u: TaskId, l: Lock) returns (act: Act)
    requires Inv(g) && u < |g.tasks| && l in g.tasks[u].held
    ensures Enabled(g, act) && !act.Abandon?
    decreases 2 - Rank(l), 0
  {
    assert TaskOk(g.queues, g.tasks[u], u);
    if g.tasks[u].waiting {
      assert Below(g.tasks[u].held, Rank(g.tasks[u].todo[0].lock) - 1);
      act := Unblocked(g, u);
    } else {
      act := if g.tasks[u].todo[0].Acquire? then Request(u) else Unlock(u);
    }
  }

  /** In every reachable state in which some task is not finished, some task can make its next step. */
  lemma DeadlockFreedom(scripts: seq<seq<Call>>, acts: seq<Act>)
    requires !AllDone(Exec(Start(scripts), acts))
    ensures exists act :: Enabled(Exec(Start(scripts), acts), act) && !act.Abandon?
  {
    InvHolds(scripts, acts);
    var g := Exec(Start(scripts), acts);
    var t :| 0 <= t < |g.tasks| && g.tasks[t].todo != [];
    var act := Unblocked(g, t);
  }

  /** A bound on the steps a task has left. */
  function TaskWork(task: Task): nat {
    2 * |task.todo| + if task.waiting then 0 else 1
  }

  function Work(tasks: seq<Task>): nat {
    if tasks == [] then 0 else TaskWork(tasks[0]) + Work(tasks[1..])
  }

  lemma {:induction false} WorkUpdate(tasks: seq<Task>, t: nat, task: Task)
    requires t < |tasks|
    ensures Work(tasks[t := task]) == Work(tasks) - TaskWork(tasks[t]) + TaskWork(task)
  {
    if t == 0 {
      assert tasks[t := task][1..] == tasks[1..];
    } else {
      WorkUpdate(tasks[1..], t - 1, task);
      assert tasks[t := task][1..] == tasks[1..][t - 1 := task];
    }
  }

  lemma StepUsesWork(g: State, act: Act)
    requires Inv(g) && Enabled(g, act)
    ensures Work(Next(g, act).tasks) < Work(g.tasks)
  {
    var t := act.t;
    assert TaskOk(g.queues, g.tasks[t], t);
    WorkUpdate(g.tasks, t, Next(g, act).tasks[t]);
  }

  ghost predicate AllEnabled(g: State, acts: seq<Act>) {
    forall k | 0 <= k < |acts| :: Enabled(Exec(g, acts[..k]), acts[k])
  }

  /** However the steps are scheduled, there are only so many of them. */
  lemma {:induction false} RunsAreBounded(scripts: seq<seq<Call>>, acts: seq<Act>)
    requires AllEnabled(Start(scripts), acts)
    ensures |acts| + Work(Exec(Start(scripts), acts).tasks) <= Work(Start(scripts).tasks)
  {
    if acts != [] {
      var init := acts[..|acts| - 1];
      forall k | 0 <= k < |init| ensures Enabled(Exec(Start(scripts), init[..k]), init[k]) {
        assert init[..k] == acts[..k];
      }
      RunsAreBounded(scripts, init);
      InvHolds(scripts, init);
      assert Enabled(Exec(Start(scripts), acts[..|acts| - 1]), acts[|acts| - 1]);
      StepUsesWork(Exec(Start(scripts), init), acts[|acts| - 1]);
    }
  }

  /** So every call can always be brought to its return, without dropping any task's future. */
  lemma {:induction false} EveryCallReturns(scripts: seq<seq<Call>>, acts: seq<Act>) returns (more: seq<Act>)
    ensures AllDone(Exec(Start(scripts), acts + more))
    ensures forall k | 0 <= k < |more| :: !more[k].Abandon?
    ensures |more| <= Work(Exec(Start(scripts), acts).tasks)
    decreases Work(Exec(Start(scripts), acts).tasks)
  {
    var g := Exec(Start(scripts), acts);
    if AllDone(g) {
      more := [];
      assert acts + more == acts;
    } else {
      InvHolds(scripts, acts);
      var t :| 0 <= t < |g.tasks| && g.tasks[t].todo != [];
      var act := Unblocked(g, t);
      StepUsesWork(g, act);
      assert (acts + [act])[..|acts|] == acts;
      var rest := EveryCallReturns(scripts, acts + [act]);
      more := [act] + rest;
      assert acts + more == (acts + [act]) + rest;
    }
  }
}
