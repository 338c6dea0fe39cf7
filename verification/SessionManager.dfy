/**
The session manager of `src/session.rs`, as one task sees it when no other task runs in between.
The interleavings are in `Lifecycle`.
*/
module SessionManager {
  import opened Wrappers
  import opened Time
  import opened Session

  datatype Windows = Windows(sessionTimeout: nat, reconnectWindow: nat)

  /** An empty session lasts for the reconnect window, a session with clients for the timeout. */
  predicate Expired(s: Core, now: Instant, w: Windows) {
    Since(now, s.lastActivity) > if s.clients == map[] then w.reconnectWindow else w.sessionTimeout
  }

  ghost function States(sessions: map<Id, Session>): map<Id, Core>
    reads sessions.Values
  {
    map id | id in sessions :: sessions[id].State()
  }

  /** The states after the sessions named in `gone` were removed by cleanup. */
  function SweptStates(cores: map<Id, Core>, gone: set<Id>): map<Id, Core> {
    map id | id in cores :: if id in gone then Swept(cores[id]) else cores[id]
  }

  /** `gone` holds exactly the candidates that were in the map. */
  predicate Chosen(gone: set<Id>, candidates: seq<Id>, keys: set<Id>) {
    && (forall id | id in gone :: id in candidates && id in keys)
    && (forall id | id in candidates && id in keys :: id in gone)
  }

  /** `removed` names each element of `gone` once. */
  predicate Lists(removed: seq<Id>, gone: set<Id>) {
    if removed == [] then gone == {}
    else removed[0] in gone && Lists(removed[1..], gone - {removed[0]})
  }

  lemma ListsOneMore(removed: seq<Id>, gone: set<Id>, id: Id)
    requires Lists(removed, gone) && id !in gone
    ensures Lists([id] + removed, gone + {id})
  {
    assert ([id] + removed)[1..] == removed && gone + {id} - {id} == gone;
  }

  lemma {:induction false} ListsSize(removed: seq<Id>, gone: set<Id>)
    requires Lists(removed, gone)
    ensures |gone| == |removed|
  {
    if removed != [] {
      ListsSize(removed[1..], gone - {removed[0]});
    }
  }

  /** The expired sessions, without clients or with them. */
  function ExpiredIds(cores: map<Id, Core>, now: Instant, w: Windows, empty: bool): set<Id> {
    set id | id in cores && Expired(cores[id], now, w) && (cores[id].clients == map[]) == empty
  }

  function AllExpired(cores: map<Id, Core>, now: Instant, w: Windows): set<Id> {
    set id | id in cores && Expired(cores[id], now, w)
  }

  lemma BothPhases(cores: map<Id, Core>, now: Instant, w: Windows,
                   emptyCandidates: seq<Id>, staleCandidates: seq<Id>, goneEmpty: set<Id>, goneStale: set<Id>)
    requires forall id :: id in emptyCandidates <==> id in ExpiredIds(cores, now, w, true)
    requires forall id :: id in staleCandidates <==> id in ExpiredIds(cores, now, w, false)
    requires Chosen(goneEmpty, emptyCandidates, EmptyIds(cores, cores.Keys))
    requires Chosen(goneStale, staleCandidates, cores.Keys - goneEmpty)
    ensures goneEmpty !! goneStale && goneEmpty + goneStale == AllExpired(cores, now, w)
    ensures SweptStates(SweptStates(cores, goneEmpty), goneStale) == SweptStates(cores, AllExpired(cores, now, w))
  {
    assert forall id :: id in goneEmpty ==> id in ExpiredIds(cores, now, w, true);
    assert forall id :: id in goneStale ==> id in ExpiredIds(cores, now, w, false);
    SweptAgain(cores, goneEmpty, goneStale);
  }

  lemma SweptNone(cores: map<Id, Core>)
    ensures SweptStates(cores, {}) == cores
  {
  }

  /** At most one session, without clients, was torn down. */
  lemma SweptOne(cores: map<Id, Core>, cores': map<Id, Core>, id: Id, removed: bool)
    requires cores'.Keys == cores.Keys
    requires forall other | other in cores && other != id :: cores'[other] == cores[other]
    requires removed ==> id in cores && cores[id].clients == map[] && cores'[id] == Terminated(cores[id])
    requires !removed && id in cores ==> cores'[id] == cores[id]
    ensures cores' == SweptStates(cores, if removed then {id} else {})
  {
  }

  lemma SweptAgain(cores: map<Id, Core>, gone: set<Id>, more: set<Id>)
    requires gone !! more
    ensures SweptStates(SweptStates(cores, gone), more) == SweptStates(cores, gone + more)
  {
  }

  /** The filed sessions without clients. */
  function EmptyIds(cores: map<Id, Core>, keys: set<Id>): set<Id> {
    set id | id in keys && id in cores && cores[id].clients == map[]
  }

  /** Expired are the sessions idle for longer than the reconnect window if empty, than the timeout otherwise. */
  lemma ExpiredMeans(cores: map<Id, Core>, now: Instant, w: Windows, id: Id)
    ensures id in AllExpired(cores, now, w) <==>
            && id in cores
            && now > cores[id].lastActivity + if cores[id].clients == map[] then w.reconnectWindow else w.sessionTimeout
  {
  }

  /**
  With a timeout of 0, cleanup removes a session with clients as soon as its last activity is in the past: a session is
  never safe from it for good.
  */
  lemma TimeoutZeroExpires(cores: map<Id, Core>, now: Instant, w: Windows, id: Id)
    requires w.sessionTimeout == 0 && id in cores && cores[id].clients != map[]
    ensures id in AllExpired(cores, now, w) <==> cores[id].lastActivity < now
  {
  }

  /** A session after cleanup removed it; only a session with clients has them cleared. */
  function Swept(s: Core): Core {
    Terminated(s).(clients := map[])
  }

  /** Why a connection gets no session. */
  datatype Refusal = NotFound | CannotJoin | CreateFailed

  class SessionManager {
    const windows: Windows
    const defaultMode: Mode
    var sessions: map<Id, Session>

    /** Every session is filed under its own id, so no session is filed twice. */
    ghost predicate Valid()
      reads this, sessions.Values
    {
      forall id | id in sessions :: sessions[id].id == id
    }

    constructor (windows: Windows, defaultMode: Mode)
      ensures Valid() && sessions == map[] && this.windows == windows && this.defaultMode == defaultMode
    {
      this.windows := windows;
      this.defaultMode := defaultMode;
      sessions := map[];
    }

    /** `ptyStarts` says whether the shell could be spawned. */
    method CreateSession(id: Id, mode: Option<Mode>, now: Instant, ptyStarts: bool) returns (r: Option<Session>)
      requires Valid()
      modifies this`sessions
      ensures Valid()
      ensures r.Some? <==> ptyStarts
      ensures r.Some? ==>
                && fresh(r.value) && sessions == old(sessions)[id := r.value]
                && r.value.State() == NewCore(if mode.Some? then mode.value else defaultMode, now)
      ensures r.None? ==> sessions == old(sessions)
    {
      if !ptyStarts {
        return None;
      }
      var session := new Session(id, if mode.Some? then mode.value else defaultMode, now);
      sessions := sessions[id := session];
      return Some(session);
    }

    /** The session for a connection, and whether its client is told that it may only read. */
    method CreateOrJoin(target: Option<Id>, newId: Id, now: Instant, ptyStarts: bool)
      returns (r: Result<(Session, bool), Refusal>)
      requires Valid()
      modifies this`sessions
      ensures Valid()
      ensures target.Some? ==>
                && sessions == old(sessions)
                && (r == Err(NotFound) <==> target.value !in sessions)
                && (r == Err(CannotJoin) <==> target.value in sessions && sessions[target.value].mode == Isolated)
                && r != Err(CreateFailed)
                && (r.Ok? ==> r.value == (sessions[target.value], sessions[target.value].mode == SharedReadOnly))
      ensures target.None? ==>
                && (r.Ok? <==> ptyStarts) && (r.Err? ==> r == Err(CreateFailed) && sessions == old(sessions))
                && (r.Ok? ==> fresh(r.value.0) && sessions == old(sessions)[newId := r.value.0] && !r.value.1
                              && r.value.0.State() == NewCore(defaultMode, now))
    {
      if target.Some? {
        var found := GetSession(target.value);
        if found.None? {
          return Err(NotFound);
        }
        if found.value.mode == Isolated {
          return Err(CannotJoin);
        }
        return Ok((found.value, found.value.mode == SharedReadOnly));
      }
      var created := CreateSession(newId, None, now, ptyStarts);
      if created.None? {
        return Err(CreateFailed);
      }
      return Ok((created.value, false));
    }

    method GetSession(id: Id) returns (r: Option<Session>)
      ensures r == if id in sessions then Some(sessions[id]) else None
    {
      if id in sessions {
        r := Some(sessions[id]);
      } else {
        r := None;
      }
    }

    /** Removes one session and tears it down; no other session changes. */
    method RemoveSession(id: Id) returns (removed: bool)
      requires Valid()
      modifies this`sessions, if id in sessions then {sessions[id]} else {}
      ensures Valid()
      ensures removed <==> id in old(sessions)
      ensures sessions == old(sessions) - {id}
      ensures removed ==> old(sessions)[id].State() == old(Terminated(sessions[id].State()))
      ensures removed ==> ShutDown(old(sessions)[id].State()) && old(sessions)[id].reader == None
    {
      removed := id in sessions;
      if removed {
        var session := sessions[id];
        sessions := sessions - {id};
        session.Shutdown();
      }
    }

    method RemoveIfEmpty(id: Id) returns (removed: bool)
      requires Valid()
      modifies this`sessions, if id in sessions then {sessions[id]} else {}
      ensures Valid()
      ensures removed <==> id in old(sessions) && old(sessions[id].clients) == map[]
      ensures sessions == if removed then old(sessions) - {id} else old(sessions)
      ensures id in old(sessions) ==>
                old(sessions)[id].State()
                == if removed then old(Terminated(sessions[id].State())) else old(sessions[id].State())
    {
      if id !in sessions {
        return false;
      }
      var session := sessions[id];
      if session.clients == map[] {
        sessions := sessions - {id};
        session.Shutdown();
        return true;
      }
      return false;
    }

    /** One round of the forced removals: tears the session down and disconnects its clients. */
    method RemoveStale(id: Id) returns (removed: bool)
      requires Valid()
      modifies this`sessions, if id in sessions then {sessions[id]} else {}
      ensures Valid()
      ensures removed <==> id in old(sessions)
      ensures sessions == old(sessions) - {id}
      ensures removed ==> old(sessions)[id].State() == old(Swept(sessions[id].State()))
      ensures removed ==> ShutDown(old(sessions)[id].State()) && old(sessions)[id].clients == map[]
    {
      removed := id in sessions;
      if removed {
        var session := sessions[id];
        sessions := sessions - {id};
        session.Shutdown();
        var n := session.ClearClients();
      }
    }

    /** The ids to remove: those of expired empty sessions, then those of expired sessions with clients. */
    method FindCandidates(now: Instant) returns (emptyCandidates: seq<Id>, staleCandidates: seq<Id>)
      requires Valid()
      ensures forall id :: id in emptyCandidates <==> id in ExpiredIds(States(sessions), now, windows, true)
      ensures forall id :: id in staleCandidates <==> id in ExpiredIds(States(sessions), now, windows, false)
    {
      emptyCandidates, staleCandidates := [], [];
      var todo := sessions.Keys;
      while todo != {}
        invariant todo <= sessions.Keys
        invariant forall id :: id in emptyCandidates <==> id in ExpiredIds(States(sessions), now, windows, true) - todo
        invariant forall id :: id in staleCandidates <==> id in ExpiredIds(States(sessions), now, windows, false) - todo
        decreases todo
      {
        var id :| id in todo;
        todo := todo - {id};
        var session := sessions[id];
        var idleTime := Since(now, session.lastActivity);
        if session.clients == map[] {
          if idleTime > windows.reconnectWindow {
            emptyCandidates := emptyCandidates + [id];
          }
        } else {
          if idleTime > windows.sessionTimeout {
            staleCandidates := staleCandidates + [id];
          }
        }
      }
    }

    /** The map holds some of the sessions it held `before`. */
    ghost predicate Within(before: map<Id, Session>)
      reads this, before.Values
    {
      && (forall id | id in before :: before[id].id == id)
      && sessions.Keys <= before.Keys
      && (forall id | id in sessions :: sessions[id] == before[id])
    }

    method SweepEmptyOne(id: Id, ghost before: map<Id, Session>) returns (removed: bool)
      requires Within(before)
      modifies this`sessions, before.Values
      ensures Within(before)
      ensures removed <==> id in old(sessions) && old(States(before))[id].clients == map[]
      ensures sessions.Keys == old(sessions).Keys - if removed then {id} else {}
      ensures States(before) == SweptStates(old(States(before)), if removed then {id} else {})
    {
      ghost var cores := States(before);
      removed := RemoveIfEmpty(id);
      SweptOne(cores, States(before), id, removed);
    }

    method SweepStaleOne(id: Id, ghost before: map<Id, Session>) returns (removed: bool)
      requires Within(before)
      modifies this`sessions, before.Values
      ensures Within(before)
      ensures removed <==> id in old(sessions)
      ensures sessions.Keys == old(sessions).Keys - {id}
      ensures States(before) == SweptStates(old(States(before)), if removed then {id} else {})
    {
      removed := RemoveStale(id);
    }

    method SweepEmpty(candidates: seq<Id>, ghost before: map<Id, Session>)
      returns (count: nat, ghost removed: seq<Id>, ghost gone: set<Id>)
      requires Within(before)
      modifies this`sessions, before.Values
      ensures Within(before)
      ensures Chosen(gone, candidates, EmptyIds(old(States(before)), old(sessions).Keys))
      ensures sessions.Keys == old(sessions).Keys - gone
      ensures States(before) == SweptStates(old(States(before)), gone)
      ensures count == |removed| && Lists(removed, gone)
    {
      count, removed, gone := 0, [], {};
      ghost var cores, keys := States(before), sessions.Keys;
      SweptNone(cores);
      for i := 0 to |candidates|
        invariant Within(before)
        invariant sessions.Keys == keys - gone && Chosen(gone, candidates[..i], EmptyIds(cores, keys))
        invariant States(before) == SweptStates(cores, gone)
        invariant count == |removed| && Lists(removed, gone)
      {
        var id := candidates[i];
        assert candidates[..i + 1] == candidates[..i] + [id];
        var wasRemoved := SweepEmptyOne(id, before);
        SweptAgain(cores, gone, if wasRemoved then {id} else {});
        if wasRemoved {
          ListsOneMore(removed, gone, id);
          count, removed, gone := count + 1, [id] + removed, gone + {id};
        } else {
          assert gone + {} == gone;
        }
      }
      assert candidates[..|candidates|] == candidates;
    }

    method SweepStale(candidates: seq<Id>, ghost before: map<Id, Session>)
      returns (count: nat, ghost removed: seq<Id>, ghost gone: set<Id>)
      requires Within(before)
      modifies this`sessions, before.Values
      ensures Within(before)
      ensures Chosen(gone, candidates, old(sessions).Keys) && sessions.Keys == old(sessions).Keys - gone
      ensures States(before) == SweptStates(old(States(before)), gone)
      ensures count == |removed| && Lists(removed, gone)
    {
      count, removed, gone := 0, [], {};
      ghost var cores, keys := States(before), sessions.Keys;
      SweptNone(cores);
      for i := 0 to |candidates|
        invariant Within(before)
        invariant sessions.Keys == keys - gone && Chosen(gone, candidates[..i], keys)
        invariant States(before) == SweptStates(cores, gone)
        invariant count == |removed| && Lists(removed, gone)
      {
        var id := candidates[i];
        assert candidates[..i + 1] == candidates[..i] + [id];
        var wasRemoved := SweepStaleOne(id, before);
        SweptAgain(cores, gone, if wasRemoved then {id} else {});
        if wasRemoved {
          ListsOneMore(removed, gone, id);
          count, removed, gone := count + 1, [id] + removed, gone + {id};
        } else {
          assert gone + {} == gone;
        }
      }
      assert candidates[..|candidates|] == candidates;
    }

    method SweepBoth(now: Instant) returns (count: nat, ghost removedEmpty: seq<Id>, ghost removedStale: seq<Id>,
                                            ghost goneEmpty: set<Id>, ghost goneStale: set<Id>)
      requires Valid()
      modifies this`sessions, sessions.Values
      ensures Within(old(sessions))
      ensures goneEmpty !! goneStale && goneEmpty + goneStale == AllExpired(old(States(sessions)), now, windows)
      ensures sessions.Keys == old(sessions).Keys - goneEmpty - goneStale
      ensures States(old(sessions)) == SweptStates(old(States(sessions)), goneEmpty + goneStale)
      ensures count == |removedEmpty| + |removedStale|
      ensures Lists(removedEmpty, goneEmpty) && Lists(removedStale, goneStale)
    {
      ghost var before, cores := sessions, States(sessions);
      var emptyCandidates, staleCandidates := FindCandidates(now);
      var swept, forced;
      swept, removedEmpty, goneEmpty := SweepEmpty(emptyCandidates, before);
      forced, removedStale, goneStale := SweepStale(staleCandidates, before);
      count := swept + forced;
      BothPhases(cores, now, windows, emptyCandidates, staleCandidates, goneEmpty, goneStale);
    }

    /** Run alone, cleanup removes exactly the expired sessions, tears them down and counts them. */
    method CleanupInactive(now: Instant) returns (count: nat)
      requires Valid()
      modifies this`sessions, sessions.Values
      ensures Valid() && Within(old(sessions))
      ensures var gone := AllExpired(old(States(sessions)), now, windows);
              && sessions.Keys == old(sessions).Keys - gone
              && States(old(sessions)) == SweptStates(old(States(sessions)), gone)
              && count == |gone|
    {
      ghost var removedEmpty, removedStale, goneEmpty, goneStale;
      count, removedEmpty, removedStale, goneEmpty, goneStale := SweepBoth(now);
      ListsSize(removedEmpty, goneEmpty);
      ListsSize(removedStale, goneStale);
    }

    /** Tears every session down and forgets them all. */
    method Shutdown()
      requires Valid()
      modifies this`sessions, sessions.Values
      ensures sessions == map[]
      ensures forall id | id in old(sessions) :: old(sessions)[id].State() == old(Terminated(sessions[id].State()))
    {
      var todo := sessions.Keys;
      while todo != {}
        invariant todo <= sessions.Keys && sessions == old(sessions)
        invariant forall id | id in sessions ::
                    sessions[id].State()
                    == if id in todo then old(sessions[id].State()) else old(Terminated(sessions[id].State()))
        decreases todo
      {
        var id :| id in todo;
        todo := todo - {id};
        sessions[id].Shutdown();
      }
      sessions := map[];
    }
  }
}
