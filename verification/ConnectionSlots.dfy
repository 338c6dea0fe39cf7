/**
The connection limit of `src/server/websocket.rs`: a shared counter that each connection claims with a weak
compare-exchange loop and gives back when it closes.
*/
module ConnectionSlots {

  /** One thread's attempt: `Looking` last read `current`; `Closed` claimed a slot and gave it back. */
  datatype Pc = Fresh | Looking(current: nat) | Refused | Holding | Closed

  /** `values` is history: everything the counter has been. */
  datatype State = State(counter: int, threads: seq<Pc>, values: set<int>)

  /**
  A relaxed load may return any value the counter has had (`seen`), and so may a failed exchange; a weak exchange
  may fail although the value matches (`spurious`).
  */
  datatype Act =
    | Load(t: nat, seen: nat)
    | Exchange(t: nat, spurious: bool, seen: nat)
    | Release(t: nat)

  function Init(n: nat): State {
    State(0, seq(n, _ => Fresh), {0})
  }

  function Next(g: State, max: nat, act: Act): State {
    if act.t >= |g.threads| then g
    else
      var pc := g.threads[act.t];
      match act
      case Load(t, seen) =>
        if pc == Fresh && seen in g.values then g.(threads := g.threads[t := Looking(seen)]) else g
      case Exchange(t, spurious, seen) =>
        if !pc.Looking? then g
        else if pc.current >= max then g.(threads := g.threads[t := Refused])
        else if !spurious && g.counter == pc.current then
          State(pc.current + 1, g.threads[t := Holding], g.values + {pc.current + 1})
        else if seen in g.values then g.(threads := g.threads[t := Looking(seen)])
        else g
      case Release(t) =>
        if pc == Holding then State(g.counter - 1, g.threads[t := Closed], g.values + {g.counter - 1}) else g
  }

  function Exec(g: State, max: nat, acts: seq<Act>): State {
    if acts == [] then g else Next(Exec(g, max, acts[..|acts| - 1]), max, acts[|acts| - 1])
  }

  datatype Kind = Waiting | Turned | Active | Gone

  function KindOf(pc: Pc): Kind {
    match pc
    case Fresh => Waiting
    case Looking(_) => Waiting
    case Refused => Turned
    case Holding => Active
    case Closed => Gone
  }

  function Count(threads: seq<Pc>, kind: Kind): nat {
    if threads == [] then 0 else (if KindOf(threads[0]) == kind then 1 else 0) + Count(threads[1..], kind)
  }

  lemma {:induction false} CountUpdate(threads: seq<Pc>, t: nat, pc: Pc, kind: Kind)
    requires t < |threads|
    ensures Count(threads[t := pc], kind)
            == Count(threads, kind) - (if KindOf(threads[t]) == kind then 1 else 0)
              + (if KindOf(pc) == kind then 1 else 0)
  {
    if t == 0 {
      assert threads[t := pc][1..] == threads[1..];
    } else {
      CountUpdate(threads[1..], t - 1, pc, kind);
      assert threads[t := pc][1..] == threads[1..][t - 1 := pc];
    }
  }

  lemma {:induction false} CountAll(threads: seq<Pc>)
    ensures Count(threads, Waiting) + Count(threads, Turned) + Count(threads, Active) + Count(threads, Gone)
            == |threads|
  {
    if threads != [] {
      CountAll(threads[1..]);
    }
  }

  lemma {:induction false} CountHas(threads: seq<Pc>, t: nat)
    requires t < |threads|
    ensures Count(threads, KindOf(threads[t])) >= 1
  {
    if t > 0 {
      CountHas(threads[1..], t - 1);
    }
  }

  lemma {:induction false} CountInit(n: nat)
    ensures Count(seq(n, _ => Fresh), Active) == 0 && Count(seq(n, _ => Fresh), Turned) == 0
            && Count(seq(n, _ => Fresh), Gone) == 0
  {
    if n > 0 {
      CountInit(n - 1);
      assert seq(n, _ => Fresh)[1..] == seq(n - 1, _ => Fresh);
    }
  }

  predicate Inv(g: State, max: nat) {
    && g.counter == Count(g.threads, Active)
    && g.counter in g.values
    && (forall v | v in g.values :: 0 <= v <= max)
    && (Count(g.threads, Gone) == 0 ==> forall v | v in g.values :: v <= g.counter)
    && (Count(g.threads, Turned) > 0 ==> max in g.values)
    && (forall t | 0 <= t < |g.threads| && g.threads[t].Looking? :: g.threads[t].current in g.values)
  }

  lemma NextKeepsInv(g: State, max: nat, act: Act)
    requires Inv(g, max)
    ensures Inv(Next(g, max, act), max)
  {
    if act.t < |g.threads| {
      var g' := Next(g, max, act);
      CountHas(g.threads, act.t);
      CountUpdate(g.threads, act.t, g'.threads[act.t], Active);
      CountUpdate(g.threads, act.t, g'.threads[act.t], Turned);
      CountUpdate(g.threads, act.t, g'.threads[act.t], Gone);
      assert g.threads[act.t := g.threads[act.t]] == g.threads;
    }
  }

  lemma {:induction false} InvHolds(n: nat, max: nat, acts: seq<Act>)
    ensures Inv(Exec(Init(n), max, acts), max)
  {
    if acts == [] {
      CountInit(n);
    } else {
      InvHolds(n, max, acts[..|acts| - 1]);
      NextKeepsInv(Exec(Init(n), max, acts[..|acts| - 1]), max, acts[|acts| - 1]);
    }
  }

  /** How often some thread took a slot, and how often one was given back, along a run. */
  function Tally(g: State, max: nat, acts: seq<Act>, from: Kind, to: Kind): nat {
    if acts == [] then 0
    else
      var (before, act) := (Exec(g, max, acts[..|acts| - 1]), acts[|acts| - 1]);
      Tally(g, max, acts[..|acts| - 1], from, to)
      + if Goes(before, act, Next(before, max, act), from, to) then 1 else 0
  }

  /** The counter is the number of acquisitions minus the number of releases; it never leaves 0..max. */
  lemma {:induction false} CounterIsExact(n: nat, max: nat, acts: seq<Act>)
    ensures var g := Exec(Init(n), max, acts);
            && g.counter == Tally(Init(n), max, acts, Waiting, Active) - Tally(Init(n), max, acts, Active, Gone)
            && 0 <= g.counter <= max
            && g.counter == Count(g.threads, Active)
  {
    InvHolds(n, max, acts);
    if acts != [] {
      CounterIsExact(n, max, acts[..|acts| - 1]);
      StepCounts(Exec(Init(n), max, acts[..|acts| - 1]), max, acts[|acts| - 1]);
    }
  }

  /** The thread of the act went from one kind to another. */
  predicate Goes(g: State, act: Act, g': State, from: Kind, to: Kind) {
    && act.t < |g.threads| && act.t < |g'.threads|
    && KindOf(g.threads[act.t]) == from && KindOf(g'.threads[act.t]) == to
  }

  lemma StepCounts(g: State, max: nat, act: Act)
    ensures var g' := Next(g, max, act);
            g'.counter == g.counter + (if Goes(g, act, g', Waiting, Active) then 1 else 0)
                                    - (if Goes(g, act, g', Active, Gone) then 1 else 0)
  {
  }

  /**
  Without releases, once every attempt is finished exactly as many succeeded as there are slots, or all of them if there
  are fewer attempts; nobody is refused while a slot is free.
  */
  lemma AttemptsFillSlots(n: nat, max: nat, acts: seq<Act>)
    requires var g := Exec(Init(n), max, acts); Count(g.threads, Waiting) == 0 && Count(g.threads, Gone) == 0
    ensures Count(Exec(Init(n), max, acts).threads, Active) == if n < max then n else max
  {
    var g := Exec(Init(n), max, acts);
    InvHolds(n, max, acts);
    CountAll(g.threads);
    ThreadsStay(n, max, acts);
  }

  lemma {:induction false} ThreadsStay(n: nat, max: nat, acts: seq<Act>)
    ensures |Exec(Init(n), max, acts).threads| == n
  {
    if acts != [] {
      ThreadsStay(n, max, acts[..|acts| - 1]);
    }
  }

  /** Even with releases, a refusal means that all slots were taken at some moment. */
  lemma RefusedOnlyWhenFull(n: nat, max: nat, acts: seq<Act>, t: nat)
    requires var g := Exec(Init(n), max, acts); t < |g.threads| && g.threads[t] == Refused
    ensures exists k :: 0 <= k <= |acts| && Exec(Init(n), max, acts[..k]).counter == max
  {
    InvHolds(n, max, acts);
    CountHas(Exec(Init(n), max, acts).threads, t);
    ValuesWere(n, max, acts, max);
  }

  lemma {:induction false} ValuesWere(n: nat, max: nat, acts: seq<Act>, v: int)
    requires v in Exec(Init(n), max, acts).values
    ensures exists k :: 0 <= k <= |acts| && Exec(Init(n), max, acts[..k]).counter == v
  {
    assert acts[..|acts|] == acts;
    if acts == [] {
      assert Exec(Init(n), max, acts[..0]).counter == v;
    } else {
      var init := acts[..|acts| - 1];
      if v in Exec(Init(n), max, init).values {
        ValuesWere(n, max, init, v);
        var k :| 0 <= k <= |init| && Exec(Init(n), max, init[..k]).counter == v;
        assert init[..k] == acts[..k];
      } else {
        assert Exec(Init(n), max, acts[..|acts|]).counter == v;
      }
    }
  }

  /** The loop as one thread runs it while no other thread touches the counter. */
  class AppState {
    const maxConnections: nat
    var activeConnections: nat

    constructor (maxConnections: nat)
      ensures activeConnections == 0 && this.maxConnections == maxConnections
    {
      this.maxConnections := maxConnections;
      activeConnections := 0;
    }

    /** The weak exchange fails `spurious` times although the value matches. */
    method TryAcquireConnection(spurious: nat) returns (ok: bool)
      modifies this
      ensures ok == (old(activeConnections) < maxConnections)
      ensures activeConnections == old(activeConnections) + if ok then 1 else 0
    {
      var current := activeConnections;
      var failures := 0;
      while true
        invariant current == activeConnections == old(activeConnections) && failures <= spurious
        decreases spurious - failures
      {
        if current >= maxConnections {
          return false;
        }
        if failures == spurious {
          activeConnections := current + 1;
          return true;
        }
        failures := failures + 1;
        current := activeConnections;
      }
    }

    /**
    A connection from its request to its end: it takes a slot for that time, or is turned away. If its upgrade is never
    completed, nobody gives the slot back.
    */
    method HandleConnection(spurious: nat, upgrades: bool) returns (served: bool)
      modifies this
      ensures served == (old(activeConnections) < maxConnections)
      ensures activeConnections == old(activeConnections) + if served && !upgrades then 1 else 0
    {
      served := TryAcquireConnection(spurious);
      if served && upgrades {
        ReleaseConnection();
      }
    }

    method ReleaseConnection()
      requires activeConnections > 0
      modifies this
      ensures activeConnections == old(activeConnections) - 1
    {
      activeConnections := activeConnections - 1;
    }
  }
}
