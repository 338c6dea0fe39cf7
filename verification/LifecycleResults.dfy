/** What the interleavings of `Lifecycle` guarantee, for every run from the empty server. */
module LifecycleResults {
  import opened Wrappers
  import opened Session
  import opened SessionManager
  import opened Lifecycle

  function After(w: Windows, acts: seq<Act>): World {
    Exec(w, INIT, acts)
  }

  lemma ExecSnoc(w: Windows, g: World, acts: seq<Act>, act: Act)
    ensures Exec(w, g, acts + [act]) == Next(w, Exec(w, g, acts), act)
  {
    assert (acts + [act])[..|acts|] == acts;
  }

  lemma {:induction false} ExecAppend(w: Windows, g: World, acts: seq<Act>, more: seq<Act>)
    ensures Exec(w, g, acts + more) == Exec(w, Exec(w, g, acts), more)
  {
    if more == [] {
      assert acts + more == acts;
    } else {
      var init, last := more[..|more| - 1], more[|more| - 1];
      assert acts + more == (acts + init) + [last];
      ExecSnoc(w, g, acts + init, last);
      ExecAppend(w, g, acts, init);
    }
  }

  // ----- Orphans -----

  /** Some task is still in the middle of tearing the session down. */
  predicate BeingRemoved(g: World, sid: Id) {
    exists t :: t in g.tasks && g.tasks[t].Removing? && g.tasks[t].sid == sid
  }

  /**
  What no step ever undoes: sessions are never forgotten, a session out of the map stays out, a torn session stays
  torn, and a filled reader slot changes only when it is torn.
  */
  predicate Onward(g: World, g': World, sid: Id) {
    sid in g.cores ==>
      && sid in g'.cores
      && (sid !in g.filed ==> sid !in g'.filed)
      && (sid in g.torn ==> sid in g'.torn)
      && (sid !in g'.torn && g.cores[sid].reader.Some? ==> g'.cores[sid].reader == g.cores[sid].reader)
  }

  lemma CreateOnward(g: World, act: Act, sid: Id)
    requires act.Create? || act.Join? || act.Vacate?
    ensures Onward(g, NextHandler(g, act), sid)
  {
  }

  lemma HandlerOnward(g: World, act: Act, sid: Id)
    ensures Onward(g, NextHandler(g, act), sid)
  {
    if act.Create? || act.Join? || act.Vacate? {
      CreateOnward(g, act, sid);
    }
  }

  lemma CleanupOnward(w: Windows, g: World, act: Act, sid: Id)
    ensures Onward(g, NextCleanup(w, g, act), sid)
  {
  }

  lemma ShutdownOnward(g: World, t: TaskId, sid: Id)
    ensures Onward(g, NextShutdown(g, t), sid) && Onward(g, NextClose(g, t), sid)
  {
  }

  /** The steps that belong to no connection handler and to no cleanup. */
  predicate IsOtherAct(act: Act) {
    act.Delete? || act.StartClose? || act.CloseOne? || act.EndClose? || act.ReaderEnds?
  }

  predicate IsCleanupAct(act: Act) {
    || act.StartScan? || act.ReadActivity? || act.ReadEmptiness? || act.EndScan?
    || act.SweepEmpty? || act.SweepStale? || act.EndSweep?
  }

  lemma CleanupIsNext(w: Windows, g: World, act: Act)
    requires IsCleanupAct(act)
    ensures Next(w, g, act) == NextCleanup(w, g, act)
  {
  }

  lemma HandlerIsNext(w: Windows, g: World, act: Act)
    requires IsHandlerAct(act)
    ensures Next(w, g, act) == NextHandler(g, act)
  {
  }

  lemma OtherOnward(w: Windows, g: World, act: Act, sid: Id)
    requires IsOtherAct(act)
    ensures Onward(g, Next(w, g, act), sid)
  {
  }

  lemma StepOnward(w: Windows, g: World, act: Act, sid: Id)
    ensures Onward(g, Next(w, g, act), sid)
  {
    if act.ShutdownStep? || act.CloseStep? {
      ShutdownOnward(g, act.t, sid);
    } else if IsOtherAct(act) {
      OtherOnward(w, g, act, sid);
    } else if IsHandlerAct(act) {
      HandlerOnward(g, act, sid);
    } else {
      CleanupOnward(w, g, act, sid);
    }
  }

  lemma CleanupKeepsCores(w: Windows, g: World, act: Act)
    ensures NextCleanup(w, g, act).cores == g.cores
  {
  }

  lemma SweepKeepsOwners(w: Windows, g: World, t: TaskId)
    ensures NextCleanup(w, g, SweepEmpty(t)).owner == g.owner && NextCleanup(w, g, SweepStale(t)).owner == g.owner
  {
  }

  lemma CleanupKeepsOwners(w: Windows, g: World, act: Act)
    ensures NextCleanup(w, g, act).owner == g.owner
  {
    if act.SweepEmpty? || act.SweepStale? {
      SweepKeepsOwners(w, g, act.t);
    }
  }

  lemma {:induction false} NeverRefiled(w: Windows, g: World, more: seq<Act>, sid: Id)
    requires sid in g.cores && sid !in g.filed
    ensures sid in Exec(w, g, more).cores && sid !in Exec(w, g, more).filed
  {
    if more != [] {
      NeverRefiled(w, g, more[..|more| - 1], sid);
      StepOnward(w, Exec(w, g, more[..|more| - 1]), more[|more| - 1], sid);
    }
  }

  /**
  A session that has left the map never returns, and once its remover is done with it its token is cancelled and its
  output sender is gone, so whoever still holds or gets hold of its handle sits on a cancelled session.
  */
  lemma OrphanSafety(w: Windows, acts: seq<Act>, more: seq<Act>, sid: Id)
    requires sid in After(w, acts).cores && sid !in After(w, acts).filed
    ensures var g := After(w, acts + more);
            && sid in g.cores && sid !in g.filed
            && (!BeingRemoved(g, sid) ==> ShutDown(g.cores[sid]))
  {
    ExecAppend(w, INIT, acts, more);
    NeverRefiled(w, After(w, acts), more, sid);
    var g := After(w, acts + more);
    InvHolds(w, acts + more);
    assert OrphanOk(g, sid);
  }

  // ----- Removal on request, and the graceful shutdown -----

  /** A delete that finds the sessions lock free takes exactly that session out of the map, and owes it a shutdown. */
  lemma DeleteTakesOut(w: Windows, g: World, t: TaskId, sid: Id)
    requires PcOf(g, t).Idle? && WriteFree(g)
    ensures var g' := Next(w, g, Delete(t, sid));
            && g'.filed == g.filed - {sid}
            && if sid in g.filed then PcOf(g', t) == Removing(sid, ToCancel, false, false, Finished)
               else PcOf(g', t) == Finished
  {
  }

  /** When the graceful shutdown lets go of the lock, the map is empty and every session it held is shut down. */
  lemma ShutdownEmptiesMap(w: Windows, acts: seq<Act>, t: TaskId, sid: Id)
    requires PcOf(After(w, acts), t) == Closing({}, None) && sid in After(w, acts).filed
    ensures After(w, acts + [EndClose(t)]).filed == {}
    ensures sid in After(w, acts + [EndClose(t)]).cores && ShutDown(After(w, acts + [EndClose(t)]).cores[sid])
  {
    InvHolds(w, acts);
    TaskFact(After(w, acts), t);
    ExecSnoc(w, INIT, acts, EndClose(t));
  }

  // ----- Readers -----

  /**
  At most one reader of a session was not aborted; a session whose slot no shutdown emptied has at most one reader at
  all.
  */
  lemma SingleReader(w: Windows, acts: seq<Act>, h: Handle, k: Handle)
    requires var g := After(w, acts);
             h in g.readers && k in g.readers && g.readers[h].sid == g.readers[k].sid
    ensures var g := After(w, acts);
            && (!g.readers[h].aborted && !g.readers[k].aborted ==> h == k)
            && (g.readers[h].sid !in g.torn ==> h == k)
  {
    InvHolds(w, acts);
    var g := After(w, acts);
    assert ReaderOk(g.cores, g.readers, g.torn, h) && ReaderOk(g.cores, g.readers, g.torn, k);
  }

  /** Even with a late start after a shutdown, no session ever has more than two readers. */
  lemma AtMostTwoReaders(w: Windows, acts: seq<Act>, h: Handle, k: Handle, l: Handle)
    requires var g := After(w, acts);
             && h in g.readers && k in g.readers && l in g.readers
             && g.readers[h].sid == g.readers[k].sid == g.readers[l].sid
    ensures h == k || k == l || h == l
  {
    InvHolds(w, acts);
    var g := After(w, acts);
    SingleReader(w, acts, h, k);
    SingleReader(w, acts, k, l);
    SingleReader(w, acts, h, l);
    assert SameAborted(g.readers, h, k) && SameAborted(g.readers, k, l) && SameAborted(g.readers, h, l);
  }

  /**
  A start spawns a reader exactly when every reader that the session has had was aborted, which only a shutdown does: so
  a session gets a second reader exactly by a start that comes after a shutdown emptied its slot.
  */
  lemma SpawnsExactly(w: Windows, acts: seq<Act>, t: TaskId, h: Handle)
    requires var g := After(w, acts);
             PcOf(g, t).Registered? && PcOf(g, t).sid in g.cores && h !in g.readers
    ensures var (g, sid) := (After(w, acts), PcOf(After(w, acts), t).sid);
            && (h in After(w, acts + [StartReader(t, h)]).readers <==>
                forall k | k in g.readers && g.readers[k].sid == sid :: g.readers[k].aborted)
            && (forall k | k in g.readers && g.readers[k].aborted :: g.readers[k].sid in g.torn)
  {
    InvHolds(w, acts);
    ExecSnoc(w, INIT, acts, StartReader(t, h));
    var (g, sid) := (After(w, acts), PcOf(After(w, acts), t).sid);
    assert SlotOk(g.cores, g.readers, sid);
    forall k | k in g.readers
      ensures if g.readers[k].aborted then g.readers[k].sid in g.torn
              else g.readers[k].sid in g.cores && g.cores[g.readers[k].sid].reader == Some(k)
    {
      assert ReaderOk(g.cores, g.readers, g.torn, k);
    }
  }

  lemma {:induction false} SlotKept(w: Windows, acts: seq<Act>, more: seq<Act>, sid: Id)
    requires sid in After(w, acts).cores && After(w, acts).cores[sid].reader.Some?
    ensures var g, g' := After(w, acts), After(w, acts + more);
            && sid in g'.cores && (sid in g.torn ==> sid in g'.torn)
            && (sid !in g'.torn ==> g'.cores[sid].reader == g.cores[sid].reader)
    decreases |more|
  {
    if more == [] {
      assert acts + more == acts;
    } else {
      var init, last := more[..|more| - 1], more[|more| - 1];
      assert acts + more == (acts + init) + [last];
      SlotKept(w, acts, init, sid);
      ExecSnoc(w, INIT, acts + init, last);
      StepOnward(w, After(w, acts + init), last, sid);
    }
  }

  /**
  Until a shutdown empties the slot, any positive number of starts has spawned exactly one reader: after the first
  call, whatever follows (more starts, the reader ending by itself), the session has that reader and no other.
  */
  lemma StartedOnce(w: Windows, acts: seq<Act>, t: TaskId, h: Handle, more: seq<Act>)
    requires var g := After(w, acts);
             PcOf(g, t).Registered? && PcOf(g, t).sid in g.cores && h !in g.readers
    requires PcOf(After(w, acts), t).sid !in After(w, acts + [StartReader(t, h)] + more).torn
    ensures var sid := PcOf(After(w, acts), t).sid;
            var first := After(w, acts + [StartReader(t, h)]).cores[sid].reader;
            var g := After(w, acts + [StartReader(t, h)] + more);
            && first.Some? && first.value in g.readers && g.readers[first.value].sid == sid
            && (forall k | k in g.readers && g.readers[k].sid == sid :: k == first.value)
  {
    var sid := PcOf(After(w, acts), t).sid;
    var start := acts + [StartReader(t, h)];
    ExecSnoc(w, INIT, acts, StartReader(t, h));
    SlotKept(w, start, more, sid);
    var first := After(w, start).cores[sid].reader;
    var g := After(w, start + more);
    InvHolds(w, start + more);
    assert SlotOk(g.cores, g.readers, sid);
    forall k | k in g.readers && g.readers[k].sid == sid ensures k == first.value {
      SingleReader(w, start + more, k, first.value);
    }
  }

  // ----- Isolated sessions -----

  /**
  An isolated session has no client but its creator's, and it is out of the map as soon as its creator's handler has
  returned, unless that handler failed to open the PTY for writing.
  */
  lemma IsolatedReclaimed(w: Windows, acts: seq<Act>, sid: Id)
    requires sid in After(w, acts).filed && IsIsolated(After(w, acts), sid)
    ensures var g := After(w, acts);
            && sid in g.owner && WorksFor(PcOf(g, g.owner[sid]), sid)
            && g.cores[sid].clients.Keys <= {g.owner[sid]}
  {
    InvHolds(w, acts);
    var g := After(w, acts);
    assert CreatorWorks(g, sid);
    TaskFact(g, g.owner[sid]);
  }
}
