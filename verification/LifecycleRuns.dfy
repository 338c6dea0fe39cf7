/** Runs that show what the code does not promise; each goes with the exact condition proved elsewhere. */
module LifecycleRuns {
  import opened Wrappers
  import opened Time
  import opened Session
  import opened SessionManager
  import opened Lifecycle
  import opened LifecycleResults

  // ----- One client, from its session's creation on -----

  lemma RunTo(w: Windows, acts: seq<Act>, act: Act, g: World, g': World)
    requires After(w, acts) == g && Next(w, g, act) == g'
    ensures After(w, acts + [act]) == g'
  {
    ExecSnoc(w, INIT, acts, act);
  }

  /** Task 1 has created session 0 and is its only client. */
  function OneClient(mode: Mode): World {
    World({0}, map[0 := NewCore(mode, 0).(clients := map[1 := Client(false)])], map[1 := Registered(0)],
          map[], map[0 := 1], map[], {})
  }

  lemma OneClientRun(w: Windows, mode: Mode) returns (acts: seq<Act>)
    ensures After(w, acts) == OneClient(mode)
  {
    var created := World({0}, map[0 := NewCore(mode, 0)], map[1 := Holding(0, false)], map[], map[0 := 1], map[], {});
    assert INIT.filed + {0} == {0};
    RunTo(w, [], Create(1, 0, mode, 0), INIT, created);
    acts := [] + [Create(1, 0, mode, 0)];
    RunTo(w, acts, Register(1, 0), created, OneClient(mode));
    acts := acts + [Register(1, 0)];
  }

  // ----- Removed although active again: see `LifecycleCleanup.ForcedRemovalExactly` -----

  /** The world in the middle of a cleanup: the session was seen stale, and its client has just been active. */
  function ActiveAgain(now: Instant): World {
    var start := NewCore(SharedReadWrite, 0);
    var core := start.(clients := map[1 := Client(false)], lastActivity := now, reader := Some(0));
    World({0}, map[0 := core], map[1 := Serving(0), 2 := Sweeping(now, [], [0])], map[0 := ReaderTask(0, false, false)],
          map[0 := 1], map[], {})
  }

  lemma ServingRun(w: Windows) returns (acts: seq<Act>)
    ensures After(w, acts) == ActiveAgain(0).(tasks := map[1 := Serving(0)])
  {
    acts := OneClientRun(w, SharedReadWrite);
    RunTo(w, acts, StartReader(1, 0), OneClient(SharedReadWrite), ActiveAgain(0).(tasks := map[1 := Serving(0)]));
    acts := acts + [StartReader(1, 0)];
  }

  /** The same world, with the cleanup at some place of its own. */
  function WithCleanup(pc: Pc): World {
    ActiveAgain(0).(tasks := map[1 := Serving(0), 2 := pc])
  }

  lemma ScanRun(w: Windows, now: Instant) returns (acts: seq<Act>)
    ensures After(w, acts) == WithCleanup(Scanning(now, {}, Some((0, 0)), [], []))
  {
    acts := ServingRun(w);
    var started := WithCleanup(Scanning(now, {0}, None, [], []));
    RunTo(w, acts, StartScan(2, now), After(w, acts), started);
    acts := acts + [StartScan(2, now)];
    assert {0 as Id} - {0} == {};
    RunTo(w, acts, ReadActivity(2, 0), started, WithCleanup(Scanning(now, {}, Some((0, 0)), [], [])));
    acts := acts + [ReadActivity(2, 0)];
  }

  lemma FindsStale(w: Windows, now: Instant)
    requires now > w.sessionTimeout
    ensures Next(w, WithCleanup(Scanning(now, {}, Some((0, 0)), [], [])), ReadEmptiness(2))
            == WithCleanup(Scanning(now, {}, None, [], [0]))
  {
    assert 1 in ActiveAgain(0).cores[0].clients;
    assert [] + [0 as Id] == [0];
  }

  lemma ThenIsActive(w: Windows, now: Instant)
    ensures Next(w, WithCleanup(Scanning(now, {}, None, [], [0])), EndScan(2)) == WithCleanup(Sweeping(now, [], [0]))
    ensures Next(w, WithCleanup(Sweeping(now, [], [0])), Touch(1, now)) == ActiveAgain(now)
  {
  }

  lemma SeenStaleRun(w: Windows, now: Instant) returns (acts: seq<Act>)
    requires now > w.sessionTimeout
    ensures After(w, acts) == ActiveAgain(now)
  {
    acts := ScanRun(w, now);
    FindsStale(w, now);
    ThenIsActive(w, now);
    var found := WithCleanup(Scanning(now, {}, None, [], [0]));
    RunTo(w, acts, ReadEmptiness(2), After(w, acts), found);
    acts := acts + [ReadEmptiness(2)];
    RunTo(w, acts, EndScan(2), found, WithCleanup(Sweeping(now, [], [0])));
    acts := acts + [EndScan(2)];
    RunTo(w, acts, Touch(1, now), WithCleanup(Sweeping(now, [], [0])), ActiveAgain(now));
    acts := acts + [Touch(1, now)];
  }

  /**
  The forced removals do not look at the activity again: whatever the timeout, there is a run in which the cleanup
  removes a session whose client was active at the very time the cleanup began, as it read the activity before that.
  */
  lemma SweepIgnoresNewActivity(w: Windows) returns (acts: seq<Act>, t: TaskId, sid: Id, now: Instant)
    ensures var g := After(w, acts);
            && PcOf(g, t).Sweeping? && PcOf(g, t).now == now
            && sid in g.cores && g.cores[sid].lastActivity == now && g.cores[sid].clients != map[]
            && sid in g.filed && sid !in Next(w, g, SweepStale(t)).filed
  {
    now, t, sid := w.sessionTimeout + 1, 2, 0;
    acts := SeenStaleRun(w, now);
    assert 1 in ActiveAgain(now).cores[0].clients;
  }

  // ----- Told wrong, and leaked -----

  /**
  The creator of a shared read-only session is told that it may write, and may not: see `LifecycleFlags.ToldExactly`.
  */
  lemma CreatorIsToldWrong(w: Windows) returns (acts: seq<Act>, t: TaskId, sid: Id)
    ensures var g := After(w, acts);
            && sid in g.cores && t in g.cores[sid].clients
            && !g.cores[sid].clients[t].readonly && !MayWrite(g.cores[sid], t)
  {
    acts := OneClientRun(w, SharedReadOnly);
    t, sid := 1, 0;
  }

  /**
  An isolated session can be filed for ever with a client that nobody serves: see `LifecycleLeaks.ReclaimedExactly`.
  */
  lemma ClientLeaks(w: Windows) returns (acts: seq<Act>, t: TaskId, sid: Id)
    ensures var g := After(w, acts);
            && IsIsolated(g, sid) && sid in g.filed && PcOf(g, t) == Leaked(sid) && t in g.cores[sid].clients
            && forall act: Act | !act.ReaderEnds? && act.t == t :: Next(w, g, act) == g
  {
    var run := OneClientRun(w, Isolated);
    var leaked := OneClient(Isolated).(tasks := map[1 := Leaked(0)]);
    RunTo(w, run, WriterFails(1), OneClient(Isolated), leaked);
    acts := run + [WriterFails(1)];
    t, sid := 1, 0;
    forall act: Act | !act.ReaderEnds? && act.t == t ensures Next(w, leaked, act) == leaked {
      LeakedIsStuck(w, leaked, act);
    }
  }

  lemma LeakedIsStuck(w: Windows, g: World, act: Act)
    requires !act.ReaderEnds? && PcOf(g, act.t).Leaked?
    ensures Next(w, g, act) == g
  {
  }

  // ----- Two readers: see `LifecycleResults.SpawnsExactly` -----

  /** Tasks 1 and 2 are clients of session 0, whose reader was started by task 1. */
  function TwoClients(): World {
    var core := NewCore(SharedReadWrite, 0).(clients := map[1 := Client(false), 2 := Client(false)], reader := Some(0));
    World({0}, map[0 := core], map[1 := Serving(0), 2 := Registered(0)], map[0 := ReaderTask(0, false, false)],
          map[0 := 1], map[], {})
  }

  lemma JoinedRun(w: Windows) returns (acts: seq<Act>)
    ensures After(w, acts) == TwoClients().(tasks := map[1 := Registered(0), 2 := Registered(0)], readers := map[],
                                            cores := map[0 := TwoClients().cores[0].(reader := None)])
  {
    acts := OneClientRun(w, SharedReadWrite);
    var g := OneClient(SharedReadWrite);
    var joining := g.(tasks := map[1 := Registered(0), 2 := Holding(0, false)]);
    RunTo(w, acts, Join(2, 0), g, joining);
    acts := acts + [Join(2, 0)];
    RunTo(w, acts, Register(2, 0), joining, Next(w, joining, Register(2, 0)));
    acts := acts + [Register(2, 0)];
  }

  lemma TwoClientsRun(w: Windows) returns (acts: seq<Act>)
    ensures After(w, acts) == TwoClients()
  {
    acts := JoinedRun(w);
    RunTo(w, acts, StartReader(1, 0), After(w, acts), TwoClients());
    acts := acts + [StartReader(1, 0)];
  }

  /** Session 0 on its way out, deleted by task 3. */
  function Deleted(core: Core, aborted: bool, pc: Pc, torn: set<Id>): World {
    World({}, map[0 := core], map[1 := Serving(0), 2 := Registered(0), 3 := pc],
          map[0 := ReaderTask(0, false, aborted)], map[0 := 1], map[0 := 3], torn)
  }

  function Tearing(stage: Stage): World {
    var core := TwoClients().cores[0];
    Deleted(match stage case ToCancel => core case ToDrop => Cancelled(core) case _ => PtyExited(Cancelled(core)),
            false, Removing(0, stage, false, false, Finished), {})
  }

  function Gone(): World {
    Deleted(Terminated(TwoClients().cores[0]), true, Finished, {0})
  }

  lemma DeleteStep(w: Windows)
    ensures Next(w, TwoClients(), Delete(3, 0)) == Tearing(ToCancel)
  {
    assert {0 as Id} - {0} == {};
  }

  lemma CancelStep(w: Windows)
    ensures Next(w, Tearing(ToCancel), ShutdownStep(3)) == Tearing(ToDrop)
  {
  }

  lemma DropStep(w: Windows)
    ensures Next(w, Tearing(ToDrop), ShutdownStep(3)) == Tearing(ToAbort)
  {
  }

  lemma AbortStep(w: Windows)
    ensures Next(w, Tearing(ToAbort), ShutdownStep(3)) == Gone()
  {
    assert {} + {0 as Id} == {0};
  }

  lemma GoneRun(w: Windows) returns (acts: seq<Act>)
    ensures After(w, acts) == Gone()
  {
    DeleteStep(w);
    CancelStep(w);
    DropStep(w);
    AbortStep(w);
    acts := TwoClientsRun(w);
    RunTo(w, acts, Delete(3, 0), TwoClients(), Tearing(ToCancel));
    acts := acts + [Delete(3, 0)];
    RunTo(w, acts, ShutdownStep(3), Tearing(ToCancel), Tearing(ToDrop));
    acts := acts + [ShutdownStep(3)];
    RunTo(w, acts, ShutdownStep(3), Tearing(ToDrop), Tearing(ToAbort));
    acts := acts + [ShutdownStep(3)];
    RunTo(w, acts, ShutdownStep(3), Tearing(ToAbort), Gone());
    acts := acts + [ShutdownStep(3)];
  }

  lemma LateStart(w: Windows)
    ensures var g := Next(w, Gone(), StartReader(2, 1));
            g.filed == {} && g.readers == map[0 := ReaderTask(0, false, true), 1 := ReaderTask(0, false, false)]
  {
  }

  /** A start that comes after a shutdown gives a session its second reader, although it is deleted. */
  lemma SecondReader(w: Windows) returns (acts: seq<Act>, h: Handle, k: Handle)
    ensures var g := After(w, acts);
            && h in g.readers && k in g.readers && h != k && g.readers[h].sid == g.readers[k].sid
            && g.readers[h].aborted && !g.readers[k].aborted && g.readers[k].sid !in g.filed
  {
    var run := GoneRun(w);
    LateStart(w);
    ExecSnoc(w, INIT, run, StartReader(2, 1));
    acts, h, k := run + [StartReader(2, 1)], 0, 1;
  }
}
