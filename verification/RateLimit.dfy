/**
The per-client rate limiter of `src/rate_limit.rs`.

The store is a map from client id to a fixed-window entry. Instants are integers on one clock,
durations are naturals, and the request counter is a 32-bit unsigned number that wraps.
*/
module RateLimit {
  import opened Wrappers
  import opened Time

  const U32_MODULUS: nat := 0x1_0000_0000

  type u32 = x: nat | x < U32_MODULUS

  datatype Limits = Limits(maxRequests: u32, window: Duration)

  datatype Entry = Entry(count: u32, windowStart: Instant, blockedUntil: Option<Instant>)

  /** The result of one check: admitted, or refused with the time left until the client is unblocked. */
  datatype Verdict = Admitted | Limited(retryAfter: Duration)

  type Store = map<string, Entry>

  datatype Stats = Stats(activeClients: nat, blockedClients: nat, totalTracked: nat)

  function Increment(count: u32): u32 {
    if count + 1 == U32_MODULUS then 0 else count + 1
  }

  predicate Blocked(e: Entry, now: Instant) {
    e.blockedUntil.Some? && now < e.blockedUntil.value
  }

  predicate Active(e: Entry, now: Instant, window: Duration) {
    e.blockedUntil.None? && Since(now, e.windowStart) < window
  }

  /** What `cleanup` throws away. */
  predicate Expired(e: Entry, now: Instant, window: Duration) {
    if e.blockedUntil.Some? then e.blockedUntil.value <= now
    else Since(now, e.windowStart) >= 2 * window
  }

  /**
  What one request does to an entry, in closed form: a blocked entry is left alone, an entry whose
  block or window has ended starts a new window with this request, and a request over the limit
  blocks the client until two windows after the window's start.
  */
  function Recorded(l: Limits, e: Entry, now: Instant): (Entry, Verdict) {
    if Blocked(e, now) then
      (e, Limited(e.blockedUntil.value - now))
    else
      var renewed := e.blockedUntil.Some? || Since(now, e.windowStart) >= l.window;
      var start := if renewed then now else e.windowStart;
      var count: u32 := if renewed then 1 else Increment(e.count);
      if count > l.maxRequests then
        var until := (if now < start then now else start) + 2 * l.window;
        (Entry(count, start, Some(until)), Limited(if until < now then 0 else until - now))
      else
        (Entry(count, start, None), Admitted)
  }

  function Lookup(store: Store, client: string, now: Instant): Entry {
    if client in store then store[client] else Entry(0, now, None)
  }

  function Checked(l: Limits, store: Store, client: string, now: Instant): (Store, Verdict) {
    var (entry, verdict) := Recorded(l, Lookup(store, client, now), now);
    (store[client := entry], verdict)
  }

  function Retained(store: Store, now: Instant, window: Duration): Store {
    map c | c in store && !Expired(store[c], now, window) :: store[c]
  }

  function ActiveClients(store: Store, now: Instant, window: Duration): set<string> {
    set c | c in store && Active(store[c], now, window)
  }

  function BlockedClients(store: Store, now: Instant): set<string> {
    set c | c in store && Blocked(store[c], now)
  }

  lemma CountOneLess(chosen: set<string>, todo: set<string>, c: string)
    requires c in todo
    ensures |chosen * todo| == |chosen * (todo - {c})| + if c in chosen then 1 else 0
  {
    assert chosen * todo == (chosen * (todo - {c})) + if c in chosen then {c} else {};
  }

  /** The limiter object; each method is one critical section under the store's lock. */
  class RateLimiter {
    const limits: Limits
    var store: Store

    constructor (maxRequests: u32, window: Duration)
      ensures limits == Limits(maxRequests, window) && store == map[]
    {
      limits := Limits(maxRequests, window);
      store := map[];
    }

    method Check(client: string, now: Instant) returns (verdict: Verdict)
      modifies this
      ensures (store, verdict) == Checked(limits, old(store), client, now)
      ensures client in store && store - {client} == old(store) - {client}
    {
      if client in store {
        var entry;
        entry, verdict := Record(store[client], now);
        store := store[client := entry];
      } else {
        var entry;
        entry, verdict := Record(Entry(0, now, None), now);
        store := store[client := entry];
      }
    }

    /** The statement-by-statement update of one entry, which computes the closed form `Recorded`. */
    method Record(entry: Entry, now: Instant) returns (updated: Entry, verdict: Verdict)
      ensures (updated, verdict) == Recorded(limits, entry, now)
    {
      var window := limits.window;
      updated := entry;
      if updated.blockedUntil.Some? {
        if now < updated.blockedUntil.value {
          return updated, Limited(Since(updated.blockedUntil.value, now));
        } else {
          updated := Entry(0, now, None);
        }
      }
      var elapsedInWindow := Since(now, updated.windowStart);
      if elapsedInWindow >= window {
        updated := updated.(count := 0, windowStart := now);
      }
      updated := updated.(count := Increment(updated.count));
      if updated.count > limits.maxRequests {
        var since := Since(now, updated.windowStart);
        var consumed := if since < window then since else window;
        var blockedDuration := window + (window - consumed);
        updated := updated.(blockedUntil := Some(now + blockedDuration));
        return updated, Limited(blockedDuration);
      }
      return updated, Admitted;
    }

    method Reset(client: string)
      modifies this
      ensures store == old(store) - {client}
    {
      store := store - {client};
    }

    method Cleanup(now: Instant)
      modifies this
      ensures store == Retained(old(store), now, limits.window)
      ensures forall c :: c in store <==>
                && c in old(store)
                && match old(store)[c].blockedUntil
                   case Some(until) => now < until
                   case None => 0 < limits.window && now < old(store)[c].windowStart + 2 * limits.window
    {
      store := map c | c in store
                  && (if store[c].blockedUntil.Some? then now < store[c].blockedUntil.value
                      else Since(now, store[c].windowStart) < limits.window * 2)
                  :: store[c];
    }

    method GetStats(now: Instant) returns (stats: Stats)
      ensures stats == Stats(|ActiveClients(store, now, limits.window)|, |BlockedClients(store, now)|, |store|)
    {
      var activeClients, blockedClients := CountClients(store, now, limits.window);
      stats := Stats(activeClients, blockedClients, |store|);
    }
  }

  method CountClients(store: Store, now: Instant, window: Duration) returns (activeClients: nat, blockedClients: nat)
    ensures activeClients == |ActiveClients(store, now, window)|
    ensures blockedClients == |BlockedClients(store, now)|
  {
    activeClients, blockedClients := 0, 0;
    ghost var active, blocked := ActiveClients(store, now, window), BlockedClients(store, now);
    var todo := store.Keys;
    assert active * todo == active && blocked * todo == blocked;
    while todo != {}
      invariant todo <= store.Keys
      invariant activeClients + |active * todo| == |active| && blockedClients + |blocked * todo| == |blocked|
      decreases todo
    {
      var c :| c in todo;
      var entry := store[c];
      CountOneLess(active, todo, c);
      CountOneLess(blocked, todo, c);
      todo := todo - {c};
      if entry.blockedUntil.Some? {
        if now < entry.blockedUntil.value {
          blockedClients := blockedClients + 1;
        }
      } else if Since(now, entry.windowStart) < window {
        activeClients := activeClients + 1;
      }
    }
  }

  // ----- Runs -----

  /** One call on the limiter. `reset` reads no clock. */
  datatype Op = Check(client: string, at: Instant) | Reset(client: string) | Cleanup(at: Instant)

  /** The calls happen at nondecreasing times, none before `t`. */
  predicate Ordered(ops: seq<Op>, t: Instant) {
    ops == [] ||
    if ops[0].Reset? then Ordered(ops[1..], t)
    else t <= ops[0].at && Ordered(ops[1..], ops[0].at)
  }

  function EndTime(ops: seq<Op>, t: Instant): Instant {
    if ops == [] then t
    else EndTime(ops[1..], if ops[0].Reset? then t else ops[0].at)
  }

  function Step(l: Limits, store: Store, op: Op): Store {
    match op
    case Check(client, at) => Checked(l, store, client, at).0
    case Reset(client) => store - {client}
    case Cleanup(at) => Retained(store, at, l.window)
  }

  function Final(l: Limits, store: Store, ops: seq<Op>): Store
    decreases |ops|
  {
    if ops == [] then store else Final(l, Step(l, store, ops[0]), ops[1..])
  }

  /** The results of all checks of a run, in order. */
  function Verdicts(l: Limits, store: Store, ops: seq<Op>): seq<Verdict>
    decreases |ops|
  {
    if ops == [] then []
    else
      var rest := Verdicts(l, Step(l, store, ops[0]), ops[1..]);
      if ops[0].Check? then [Checked(l, store, ops[0].client, ops[0].at).1] + rest else rest
  }

  /** The limiter, driven by a list of calls. */
  method RunCalls(maxRequests: u32, window: Duration, ops: seq<Op>)
    returns (limiter: RateLimiter, verdicts: seq<Verdict>)
    ensures limiter.limits == Limits(maxRequests, window)
    ensures limiter.store == Final(limiter.limits, map[], ops) && verdicts == Verdicts(limiter.limits, map[], ops)
  {
    limiter := new RateLimiter(maxRequests, window);
    verdicts := [];
    for i := 0 to |ops|
      invariant fresh(limiter) && limiter.limits == Limits(maxRequests, window)
      invariant Final(limiter.limits, map[], ops) == Final(limiter.limits, limiter.store, ops[i..])
      invariant Verdicts(limiter.limits, map[], ops) == verdicts + Verdicts(limiter.limits, limiter.store, ops[i..])
    {
      assert ops[i..][0] == ops[i] && ops[i..][1..] == ops[i + 1..];
      match ops[i] {
        case Check(client, at) =>
          ghost var before := limiter.store;
          var verdict := limiter.Check(client, at);
          MoveVerdict(verdicts, verdict, Verdicts(limiter.limits, limiter.store, ops[i + 1..]));
          verdicts := verdicts + [verdict];
        case Reset(client) => limiter.Reset(client);
        case Cleanup(at) => limiter.Cleanup(at);
      }
    }
    assert ops[|ops|..] == [];
  }

  lemma MoveVerdict(verdicts: seq<Verdict>, verdict: Verdict, rest: seq<Verdict>)
    ensures verdicts + ([verdict] + rest) == (verdicts + [verdict]) + rest
  {
  }

  /** After a reset the client starts anew: a limit's worth of requests in one instant is admitted. */
  lemma ResetStartsAnew(l: Limits, store: Store, client: string, at: Instant)
    requires 1 <= l.maxRequests
    ensures Checked(l, Step(l, store, Reset(client)), client, at)
            == ((store - {client})[client := Entry(1, at, None)], Admitted)
  {
  }

  function WithoutCleanups(ops: seq<Op>): seq<Op> {
    if ops == [] then []
    else if ops[0].Cleanup? then WithoutCleanups(ops[1..])
    else [ops[0]] + WithoutCleanups(ops[1..])
  }

  // ----- Cleanup is invisible -----

  /** `swept` is `full` without some entries that have expired by `t`. */
  predicate SweptFrom(swept: Store, full: Store, t: Instant, window: Duration) {
    && swept.Keys <= full.Keys
    && (forall c | c in swept :: swept[c] == full[c])
    && (forall c | c in full && c !in swept :: Expired(full[c], t, window))
  }

  lemma ExpiredActsAsAbsent(l: Limits, e: Entry, now: Instant)
    requires Expired(e, now, l.window)
    ensures Recorded(l, e, now) == Recorded(l, Entry(0, now, None), now)
  {
    assert Since(now, e.windowStart) >= 2 * l.window ==> Since(now, e.windowStart) >= l.window;
  }

  lemma SweptStepsAgree(l: Limits, swept: Store, full: Store, op: Op, t: Instant)
    requires SweptFrom(swept, full, t, l.window)
    requires op.Reset? || t <= op.at
    ensures var t' := if op.Reset? then t else op.at;
            SweptFrom(Step(l, swept, op), if op.Cleanup? then full else Step(l, full, op), t', l.window)
    ensures op.Check? ==> Checked(l, swept, op.client, op.at).1 == Checked(l, full, op.client, op.at).1
  {
    if op.Check? && op.client in full && op.client !in swept {
      ExpiredActsAsAbsent(l, full[op.client], op.at);
    }
  }

  lemma {:induction false} SweptRunsAgree(l: Limits, swept: Store, full: Store, ops: seq<Op>, t: Instant)
    requires SweptFrom(swept, full, t, l.window) && Ordered(ops, t)
    ensures Verdicts(l, swept, ops) == Verdicts(l, full, WithoutCleanups(ops))
    ensures SweptFrom(Final(l, swept, ops), Final(l, full, WithoutCleanups(ops)), EndTime(ops, t), l.window)
    decreases |ops|
  {
    if ops != [] {
      var op := ops[0];
      var t' := if op.Reset? then t else op.at;
      SweptStepsAgree(l, swept, full, op, t);
      var full' := if op.Cleanup? then full else Step(l, full, op);
      SweptRunsAgree(l, Step(l, swept, op), full', ops[1..], t');
      if !op.Cleanup? {
        assert WithoutCleanups(ops) == [op] + WithoutCleanups(ops[1..]);
        assert WithoutCleanups(ops)[1..] == WithoutCleanups(ops[1..]);
      }
    }
  }

  /** Deleting every cleanup call from a run changes no verdict and no active or blocked count, then or later. */
  lemma CleanupIsInvisible(l: Limits, ops: seq<Op>, t: Instant)
    requires Ordered(ops, t)
    ensures Verdicts(l, map[], ops) == Verdicts(l, map[], WithoutCleanups(ops))
    ensures forall now | EndTime(ops, t) <= now ::
              && ActiveClients(Final(l, map[], ops), now, l.window)
                 == ActiveClients(Final(l, map[], WithoutCleanups(ops)), now, l.window)
              && BlockedClients(Final(l, map[], ops), now)
                 == BlockedClients(Final(l, map[], WithoutCleanups(ops)), now)
  {
    SweptRunsAgree(l, map[], map[], ops, t);
    var swept, full := Final(l, map[], ops), Final(l, map[], WithoutCleanups(ops));
    forall now | EndTime(ops, t) <= now
      ensures ActiveClients(swept, now, l.window) == ActiveClients(full, now, l.window)
      ensures BlockedClients(swept, now) == BlockedClients(full, now)
    {
      forall c | c in full && c !in swept ensures !Active(full[c], now, l.window) && !Blocked(full[c], now) {
        assert Expired(full[c], EndTime(ops, t), l.window);
        assert 2 * l.window >= l.window;
      }
    }
  }

  // ----- Exact penalties -----

  /** What every entry of a reachable store satisfies at time `t`. */
  predicate Sound(l: Limits, e: Entry, t: Instant) {
    && 1 <= e.count <= l.maxRequests + 1
    && e.windowStart <= t
    && (e.blockedUntil.Some? <==> e.count == l.maxRequests + 1)
    && (e.blockedUntil.Some? ==> e.blockedUntil.value == e.windowStart + 2 * l.window)
  }

  predicate SoundStore(l: Limits, store: Store, t: Instant) {
    forall c | c in store :: Sound(l, store[c], t)
  }

  lemma {:induction false} ReachableIsSound(l: Limits, store: Store, ops: seq<Op>, t: Instant)
    requires l.maxRequests + 1 < U32_MODULUS
    requires SoundStore(l, store, t) && Ordered(ops, t)
    ensures SoundStore(l, Final(l, store, ops), EndTime(ops, t))
    decreases |ops|
  {
    if ops != [] {
      ReachableIsSound(l, Step(l, store, ops[0]), ops[1..], if ops[0].Reset? then t else ops[0].at);
    }
  }

  /**
  What the statistics count, in a store that can be reached: blocked are the clients whose check would now be refused
  without changing a thing, active those whose check would now count on in the window they have begun.
  */
  lemma StatsForesee(l: Limits, store: Store, t: Instant, now: Instant, client: string)
    requires SoundStore(l, store, t) && t <= now && l.maxRequests + 1 < U32_MODULUS
    ensures var (store', verdict) := Checked(l, store, client, now);
            && (0 < l.window || 0 < l.maxRequests ==>
                  (client in BlockedClients(store, now) <==> client in store && verdict.Limited? && store' == store))
            && (client in ActiveClients(store, now, l.window) <==>
                client in store && store'[client].count == store[client].count + 1)
  {
    if client in store {
      EntryForesees(l, store[client], t, now);
      var entry := Recorded(l, store[client], now).0;
      SameEntry(store, client, entry);
    }
  }

  lemma EntryForesees(l: Limits, e: Entry, t: Instant, now: Instant)
    requires Sound(l, e, t) && t <= now && l.maxRequests + 1 < U32_MODULUS
    ensures var (e', verdict) := Recorded(l, e, now);
            && (0 < l.window || 0 < l.maxRequests ==> (Blocked(e, now) <==> verdict.Limited? && e' == e))
            && (Active(e, now, l.window) <==> e'.count == e.count + 1)
  {
  }

  lemma SameEntry(store: Store, client: string, entry: Entry)
    requires client in store
    ensures store[client := entry] == store <==> entry == store[client]
  {
    if entry == store[client] {
      assert store[client := entry] == store;
    } else {
      assert store[client := entry][client] != store[client];
    }
  }

  /** No call of the run resets `client`. */
  predicate NoReset(ops: seq<Op>, client: string) {
    forall i | 0 <= i < |ops| :: ops[i] != Reset(client)
  }

  /** No call of the run checks `client` at `until` or later. */
  predicate NoCheckFrom(ops: seq<Op>, client: string, until: Instant) {
    forall i | 0 <= i < |ops| :: ops[i].Check? && ops[i].client == client ==> ops[i].at < until
  }

  /** The block is in the store, or it is over and its entry was cleaned up. */
  predicate BlockedOrGone(store: Store, client: string, e: Entry, until: Instant, t: Instant) {
    if client in store then store[client] == e else until <= t
  }

  lemma StepKeepsBlock(l: Limits, store: Store, op: Op, client: string, e: Entry, until: Instant, t: Instant)
    requires e.blockedUntil == Some(until) && BlockedOrGone(store, client, e, until, t)
    requires op != Reset(client) && (op.Reset? || t <= op.at)
    requires op.Check? && op.client == client ==> op.at < until
    ensures BlockedOrGone(Step(l, store, op), client, e, until, if op.Reset? then t else op.at)
  {
  }

  /**
  Whatever is called, short of a reset of the client or a check of it at or after the end of its block: its entry
  stays as
  it is, or the block is over and a cleanup dropped the entry.
  */
  lemma {:induction false} BlockPersists(
      l: Limits, store: Store, ops: seq<Op>, t: Instant, client: string, e: Entry, until: Instant)
    requires Ordered(ops, t) && NoReset(ops, client) && NoCheckFrom(ops, client, until)
    requires e.blockedUntil == Some(until) && BlockedOrGone(store, client, e, until, t)
    ensures BlockedOrGone(Final(l, store, ops), client, e, until, EndTime(ops, t))
    decreases |ops|
  {
    if ops != [] {
      var (op, rest) := (ops[0], ops[1..]);
      assert op != Reset(client);
      assert forall i | 0 <= i < |rest| :: rest[i] == ops[i + 1];
      StepKeepsBlock(l, store, op, client, e, until, t);
      BlockPersists(l, Step(l, store, op), rest, if op.Reset? then t else op.at, client, e, until);
    }
  }

  /** What a check leaves behind when it trips the limit. */
  lemma TripBlocks(l: Limits, store: Store, client: string, trip: Instant, t: Instant)
    requires l.maxRequests + 1 < U32_MODULUS && 0 < l.window && 1 <= l.maxRequests
    requires SoundStore(l, store, t) && t <= trip
    requires Checked(l, store, client, trip).1.Limited? && !Blocked(Lookup(store, client, trip), trip)
    ensures var (s, verdict) := Checked(l, store, client, trip);
            && l.window < verdict.retryAfter <= 2 * l.window
            && client in s && s[client].blockedUntil == Some(trip + verdict.retryAfter)
  {
  }

  lemma CheckAfterBlock(l: Limits, store: Store, client: string, e: Entry, until: Instant, again: Instant)
    requires 1 <= l.maxRequests && l.maxRequests + 1 < U32_MODULUS
    requires e.blockedUntil == Some(until) && BlockedOrGone(store, client, e, until, again)
    ensures var (s, verdict) := Checked(l, store, client, again);
            if again < until then verdict == Limited(until - again) && s[client] == e else verdict == Admitted
  {
  }

  /**
  A check that trips the limit announces a penalty longer than one window and at most two. It is kept to
  the instant, whatever else is called in between, as long as nobody resets the client: until then every check of the
  client is refused with the exact remainder and leaves the entry alone, and the first one at or after that instant is
  admitted.
  */
  lemma PenaltyIsExact(
      l: Limits, before: seq<Op>, client: string, trip: Instant, between: seq<Op>, again: Instant, t: Instant)
    requires 1 <= l.maxRequests && l.maxRequests + 1 < U32_MODULUS && 0 < l.window
    requires Ordered(before, t) && EndTime(before, t) <= trip
    requires Ordered(between, trip) && EndTime(between, trip) <= again && NoReset(between, client)
    requires var s := Final(l, map[], before);
             Checked(l, s, client, trip).1.Limited? && !Blocked(Lookup(s, client, trip), trip)
    requires NoCheckFrom(between, client, trip + Checked(l, Final(l, map[], before), client, trip).1.retryAfter)
    ensures
      var (s, verdict) := Checked(l, Final(l, map[], before), client, trip);
      var until := trip + verdict.retryAfter;
      var (s', verdict') := Checked(l, Final(l, s, between), client, again);
      && l.window < verdict.retryAfter <= 2 * l.window
      && (again < until ==> verdict' == Limited(until - again) && s'[client] == s[client])
      && (until <= again ==> verdict' == Admitted)
  {
    var s0 := Final(l, map[], before);
    ReachableIsSound(l, map[], before, t);
    TripBlocks(l, s0, client, trip, EndTime(before, t));
    var (s, verdict) := Checked(l, s0, client, trip);
    var until := trip + verdict.retryAfter;
    BlockPersists(l, s, between, trip, client, s[client], until);
    CheckAfterBlock(l, Final(l, s, between), client, s[client], until, again);
  }

  // ----- Admission bound -----

  /** The call is a check of `client` with `from <= at < to` that the limiter admits. */
  predicate Admits(l: Limits, store: Store, op: Op, client: string, from: Instant, to: Instant) {
    && op.Check? && op.client == client && from <= op.at < to
    && Checked(l, store, client, op.at).1 == Admitted
  }

  /** How many checks of `client` with `from <= at < to` a run admits. */
  function AdmittedIn(l: Limits, store: Store, ops: seq<Op>, client: string, from: Instant, to: Instant): nat
    decreases |ops|
  {
    if ops == [] then 0
    else
      var rest := AdmittedIn(l, Step(l, store, ops[0]), ops[1..], client, from, to);
      if Admits(l, store, ops[0], client, from, to) then rest + 1 else rest
  }

  /** The most that windows started back to back can admit in a stretch of the given length. */
  function Capacity(l: Limits, length: int): nat
    requires 0 < l.window
    decreases length
  {
    if length <= 0 then 0 else l.maxRequests + Capacity(l, length - l.window)
  }

  lemma {:induction false} CapacityGrows(l: Limits, shorter: int, longer: int)
    requires 0 < l.window && shorter <= longer
    ensures Capacity(l, shorter) <= Capacity(l, longer)
    decreases longer
  {
    if 0 < shorter {
      CapacityGrows(l, shorter - l.window, longer - l.window);
    }
  }

  lemma {:induction false} CapacityOfWindows(l: Limits, k: nat)
    requires 0 < l.window
    ensures Capacity(l, k * l.window) == k * l.maxRequests
  {
    if k > 0 {
      assert k * l.window - l.window == (k - 1) * l.window;
      assert k * l.window > 0;
      CapacityOfWindows(l, k - 1);
      assert k * l.maxRequests == l.maxRequests + (k - 1) * l.maxRequests;
    }
  }

  /** The most that the client of entry `e` can still be granted from time `now` up to `to`. */
  function Budget(l: Limits, e: Entry, now: Instant, to: Instant): int
    requires 0 < l.window
  {
    if to <= now then 0
    else if e.blockedUntil.Some? then
      Capacity(l, to - (if e.blockedUntil.value < now then now else e.blockedUntil.value))
    else if e.windowStart + l.window <= now then Capacity(l, to - now)
    else l.maxRequests - e.count + Capacity(l, to - e.windowStart - l.window)
  }

  predicate SoundOrNew(l: Limits, e: Entry, t: Instant) {
    Sound(l, e, t) || e == Entry(0, t, None)
  }

  lemma BudgetShrinks(l: Limits, e: Entry, t: Instant, t': Instant, to: Instant)
    requires 0 < l.window && SoundOrNew(l, e, t) && t <= t'
    ensures 0 <= Budget(l, e, t', to) <= Budget(l, e, t, to)
  {
    CapacityGrows(l, to - t', to - t);
    var start := if e.blockedUntil.Some? then e.blockedUntil.value else e.windowStart + l.window;
    if start <= t' {
      CapacityGrows(l, to - t', to - start);
    }
  }

  lemma RecordingSpendsBudget(l: Limits, e: Entry, now: Instant, to: Instant)
    requires 0 < l.window && 1 <= l.maxRequests && l.maxRequests + 1 < U32_MODULUS
    requires SoundOrNew(l, e, now)
    ensures var (e', verdict) := Recorded(l, e, now);
            Budget(l, e', now, to) + (if verdict == Admitted && now < to then 1 else 0) <= Budget(l, e, now, to)
  {
    var start := if Recorded(l, e, now).0.windowStart == now then now else e.windowStart;
    CapacityGrows(l, to - start - 2 * l.window, to - start - l.window);
  }

  lemma BudgetStep(l: Limits, store: Store, op: Op, client: string, t: Instant, from: Instant, to: Instant)
    requires 0 < l.window && 1 <= l.maxRequests && l.maxRequests + 1 < U32_MODULUS
    requires SoundStore(l, store, t) && op != Reset(client)
    requires op.Reset? || t == op.at
    ensures SoundStore(l, Step(l, store, op), t)
    ensures Budget(l, Lookup(Step(l, store, op), client, t), t, to)
            + (if Admits(l, store, op, client, from, to) then 1 else 0) <= Budget(l, Lookup(store, client, t), t, to)
  {
    var e := Lookup(store, client, t);
    RecordingSpendsBudget(l, e, t, to);
    if op.Cleanup? && client in store && Expired(e, t, l.window) {
      assert Budget(l, e, t, to) == Budget(l, Entry(0, t, None), t, to);
    }
  }

  lemma {:induction false} AdmittedWithinBudget(
      l: Limits, store: Store, ops: seq<Op>, client: string, t: Instant, from: Instant, to: Instant)
    requires 0 < l.window && 1 <= l.maxRequests && l.maxRequests + 1 < U32_MODULUS
    requires SoundStore(l, store, t) && Ordered(ops, t) && NoReset(ops, client)
    ensures AdmittedIn(l, store, ops, client, from, to) <= Budget(l, Lookup(store, client, t), t, to)
    decreases |ops|
  {
    if ops == [] {
      BudgetShrinks(l, Lookup(store, client, t), t, t, to);
    } else {
      var op := ops[0];
      var t' := if op.Reset? then t else op.at;
      BudgetShrinks(l, Lookup(store, client, t), t, t', to);
      if client !in store {
        assert Budget(l, Lookup(store, client, t'), t', to) <= Budget(l, Lookup(store, client, t), t, to) by {
          CapacityGrows(l, to - t', to - t);
        }
      }
      BudgetStep(l, store, op, client, t', from, to);
      assert forall i | 0 <= i < |ops[1..]| :: ops[1..][i] == ops[i + 1];
      AdmittedWithinBudget(l, Step(l, store, op), ops[1..], client, t', from, to);
    }
  }

  lemma BudgetOfOldWindow(l: Limits, store: Store, client: string, from: Instant, to: Instant)
    requires 0 < l.window && 1 <= l.maxRequests && SoundStore(l, store, from)
    requires client in store ==> store[client].windowStart < from
    ensures Budget(l, Lookup(store, client, from), from, to) <= l.maxRequests - 1 + Capacity(l, to - from)
  {
    if client in store {
      var e := store[client];
      var start := if e.blockedUntil.Some? then e.blockedUntil.value else e.windowStart + l.window;
      if from <= start {
        CapacityGrows(l, to - start, to - from);
      }
    }
  }

  lemma {:induction false} AdmittedFromBefore(
      l: Limits, store: Store, ops: seq<Op>, client: string, t: Instant, from: Instant, to: Instant)
    requires 0 < l.window && 1 <= l.maxRequests && l.maxRequests + 1 < U32_MODULUS
    requires SoundStore(l, store, t) && Ordered(ops, t) && NoReset(ops, client) && t <= from
    requires client in store ==> store[client].windowStart < from
    ensures AdmittedIn(l, store, ops, client, from, to) <= l.maxRequests - 1 + Capacity(l, to - from)
    decreases |ops|
  {
    if ops == [] {
    } else if ops[0].Reset? || ops[0].at < from {
      var op := ops[0];
      var t' := if op.Reset? then t else op.at;
      assert op != Reset(client);
      assert forall i | 0 <= i < |ops[1..]| :: ops[1..][i] == ops[i + 1];
      AdmittedFromBefore(l, Step(l, store, op), ops[1..], client, t', from, to);
    } else {
      AdmittedWithinBudget(l, store, ops, client, from, from, to);
      BudgetOfOldWindow(l, store, client, from, to);
    }
  }

  lemma {:induction false} NothingInEmptyInterval(
      l: Limits, store: Store, ops: seq<Op>, client: string, from: Instant, to: Instant)
    requires to <= from
    ensures AdmittedIn(l, store, ops, client, from, to) == 0
    decreases |ops|
  {
    if ops != [] {
      NothingInEmptyInterval(l, Step(l, store, ops[0]), ops[1..], client, from, to);
    }
  }

  lemma AdmittedInLength(l: Limits, ops: seq<Op>, client: string, t: Instant, from: Instant, to: Instant)
    requires 0 < l.window && 1 <= l.maxRequests && l.maxRequests + 1 < U32_MODULUS
    requires Ordered(ops, t) && NoReset(ops, client)
    ensures AdmittedIn(l, map[], ops, client, from, to) <= l.maxRequests - 1 + Capacity(l, to - from)
  {
    if t <= from {
      AdmittedFromBefore(l, map[], ops, client, t, from, to);
    } else {
      AdmittedWithinBudget(l, map[], ops, client, t, from, to);
      CapacityGrows(l, to - t, to - from);
    }
  }

  /** Any half-open stretch of k windows holds at most (k + 1) * max - 1 admitted requests of one client. */
  lemma AdmissionBound(l: Limits, ops: seq<Op>, client: string, t: Instant, from: Instant, k: nat)
    requires 1 <= l.maxRequests && l.maxRequests + 1 < U32_MODULUS
    requires Ordered(ops, t) && NoReset(ops, client)
    ensures AdmittedIn(l, map[], ops, client, from, from + k * l.window) <= (k + 1) * l.maxRequests - 1
  {
    assert (k + 1) * l.maxRequests == l.maxRequests + k * l.maxRequests;
    if l.window == 0 {
      NothingInEmptyInterval(l, map[], ops, client, from, from);
    } else {
      AdmittedInLength(l, ops, client, t, from, from + k * l.window);
      CapacityOfWindows(l, k);
    }
  }

  /** `n` checks of `client`, all at the instant `at`. */
  function Burst(client: string, at: Instant, n: nat): seq<Op> {
    if n == 0 then [] else [Check(client, at)] + Burst(client, at, n - 1)
  }

  /** A full burst at the start of each of the windows j, ..., k. */
  function FullWindows(l: Limits, client: string, j: nat, k: nat): seq<Op>
    decreases k + 1 - j
  {
    if k < j then []
    else Burst(client, j * l.window, l.maxRequests) + FullWindows(l, client, j + 1, k)
  }

  lemma {:induction false} BurstAdmitted(
      l: Limits, store: Store, client: string, at: Instant, n: nat, more: seq<Op>, from: Instant, to: Instant)
    requires 1 <= l.maxRequests && l.maxRequests + 1 < U32_MODULUS && 0 < l.window
    requires client in store && store[client].blockedUntil.None?
    requires store[client].windowStart <= at < store[client].windowStart + l.window
    requires store[client].count + n <= l.maxRequests && from <= at < to
    ensures var e := store[client];
            AdmittedIn(l, store, Burst(client, at, n) + more, client, from, to)
            == n + AdmittedIn(l, store[client := e.(count := e.count + n)], more, client, from, to)
    decreases n
  {
    var ops := Burst(client, at, n) + more;
    if n == 0 {
      assert ops == more && store[client := store[client]] == store;
    } else {
      assert ops[0] == Check(client, at) && ops[1..] == Burst(client, at, n - 1) + more;
      var e := store[client];
      var store' := store[client := e.(count := e.count + 1)];
      assert Checked(l, store, client, at) == (store', Admitted);
      BurstAdmitted(l, store', client, at, n - 1, more, from, to);
      assert store'[client := e.(count := e.count + n)] == store[client := e.(count := e.count + n)];
    }
  }

  lemma {:induction false} FullWindowsAdmitted(
      l: Limits, store: Store, client: string, j: nat, k: nat, from: Instant, to: Instant)
    requires 1 <= l.maxRequests && l.maxRequests + 1 < U32_MODULUS && 0 < l.window
    requires client in store && store[client].blockedUntil.None?
    requires store[client].windowStart + l.window <= j * l.window && from <= j * l.window
    requires k * l.window < to && j <= k + 1
    ensures AdmittedIn(l, store, FullWindows(l, client, j, k), client, from, to) == (k + 1 - j) * l.maxRequests
    decreases k + 1 - j
  {
    if j <= k {
      var at, more := j * l.window, FullWindows(l, client, j + 1, k);
      var ops := Burst(client, at, l.maxRequests) + more;
      assert at <= k * l.window by { MulGrows(j, k, l.window); }
      assert ops == [Check(client, at)] + (Burst(client, at, l.maxRequests - 1) + more);
      assert ops[1..] == Burst(client, at, l.maxRequests - 1) + more;
      var store' := Step(l, store, ops[0]);
      BurstAdmitted(l, store', client, at, l.maxRequests - 1, more, from, to);
      assert (j + 1) * l.window == at + l.window;
      var store'' := store'[client := Entry(l.maxRequests, at, None)];
      FullWindowsAdmitted(l, store'', client, j + 1, k, from, to);
      assert (k + 1 - j) * l.maxRequests == l.maxRequests + (k - j) * l.maxRequests;
    }
  }

  lemma MulGrows(a: nat, b: nat, w: nat)
    requires a <= b
    ensures a * w <= b * w
  {
  }

  /** The bound is reached: one early request, the rest of its window at the last moment, then full windows. */
  lemma AdmissionBoundIsTight(l: Limits, client: string, k: nat)
    requires 1 <= l.maxRequests && l.maxRequests + 1 < U32_MODULUS && 2 <= l.window && 1 <= k
    ensures var from := l.window - 1;
            var ops := [Check(client, 0)] + Burst(client, from, l.maxRequests - 1) + FullWindows(l, client, 1, k);
            AdmittedIn(l, map[], ops, client, from, from + k * l.window) == (k + 1) * l.maxRequests - 1
  {
    var from := l.window - 1;
    var more := FullWindows(l, client, 1, k);
    var ops := [Check(client, 0)] + (Burst(client, from, l.maxRequests - 1) + more);
    assert ops == [Check(client, 0)] + Burst(client, from, l.maxRequests - 1) + more;
    assert ops[1..] == Burst(client, from, l.maxRequests - 1) + more;
    MulGrows(1, k, l.window);
    assert Step(l, map[], ops[0]) == map[client := Entry(1, 0, None)];
    AfterFirst(l, client, k, from, from + k * l.window);
    assert (k + 1) * l.maxRequests == l.maxRequests + k * l.maxRequests;
  }

  /** The rest of the first window at its last moment, then k full windows. */
  lemma AfterFirst(l: Limits, client: string, k: nat, from: Instant, to: Instant)
    requires 1 <= l.maxRequests && l.maxRequests + 1 < U32_MODULUS && 2 <= l.window && 1 <= k
    requires from == l.window - 1 && to == from + k * l.window && from < to
    ensures AdmittedIn(l, map[client := Entry(1, 0, None)],
                       Burst(client, from, l.maxRequests - 1) + FullWindows(l, client, 1, k), client, from, to)
            == l.maxRequests - 1 + k * l.maxRequests
  {
    var store := map[client := Entry(1, 0, None)];
    BurstAdmitted(l, store, client, from, l.maxRequests - 1, FullWindows(l, client, 1, k), from, to);
    FullWindowsAdmitted(l, store[client := Entry(l.maxRequests, 0, None)], client, 1, k, from, to);
  }

  /** With the largest 32-bit limit the counter wraps before it can exceed it, and nothing is ever refused. */
  lemma {:induction false} LargestLimitNeverRefuses(l: Limits, store: Store, ops: seq<Op>)
    requires l.maxRequests + 1 == U32_MODULUS
    requires forall c | c in store :: store[c].blockedUntil.None?
    ensures forall i | 0 <= i < |Verdicts(l, store, ops)| :: Verdicts(l, store, ops)[i] == Admitted
    decreases |ops|
  {
    if ops != [] {
      LargestLimitNeverRefuses(l, Step(l, store, ops[0]), ops[1..]);
    }
  }

  lemma {:induction false} EmptyWindowNeverRefuses(l: Limits, store: Store, ops: seq<Op>)
    requires l.window == 0 && 1 <= l.maxRequests
    requires forall c | c in store :: store[c].blockedUntil.None?
    ensures forall i | 0 <= i < |Verdicts(l, store, ops)| :: Verdicts(l, store, ops)[i] == Admitted
    decreases |ops|
  {
    if ops != [] {
      EmptyWindowNeverRefuses(l, Step(l, store, ops[0]), ops[1..]);
    }
  }

  /** The last of enough checks at one instant is refused. */
  lemma {:induction false} BurstRefused(l: Limits, store: Store, client: string, at: Instant, n: nat)
    requires l.maxRequests + 1 < U32_MODULUS && (l.maxRequests == 0 || 0 < l.window)
    requires Lookup(store, client, at).blockedUntil.None? && Lookup(store, client, at).windowStart == at
    requires 1 <= n && Lookup(store, client, at).count + n == l.maxRequests + 1
    ensures var verdicts := Verdicts(l, store, Burst(client, at, n)); |verdicts| == n && verdicts[n - 1].Limited?
    decreases n
  {
    var ops := Burst(client, at, n);
    assert ops[0] == Check(client, at) && ops[1..] == Burst(client, at, n - 1);
    if n > 1 {
      BurstRefused(l, Step(l, store, ops[0]), client, at, n - 1);
    } else {
      assert Verdicts(l, Step(l, store, ops[0]), ops[1..]) == [];
    }
  }

  predicate NeverRefuses(l: Limits, ops: seq<Op>) {
    forall i | 0 <= i < |Verdicts(l, map[], ops)| :: Verdicts(l, map[], ops)[i] == Admitted
  }

  /**
  A limiter refuses something in some run, and does after one request too many in one instant, unless its limit is the
  largest, where the counter wraps, or its window is empty, where every request starts a new one.
  */
  lemma RefusesExactly(l: Limits)
    ensures (forall ops :: NeverRefuses(l, ops)) <==>
            l.maxRequests + 1 == U32_MODULUS || (l.window == 0 && 1 <= l.maxRequests)
  {
    if l.maxRequests + 1 == U32_MODULUS || (l.window == 0 && 1 <= l.maxRequests) {
      forall ops ensures NeverRefuses(l, ops) {
        if l.maxRequests + 1 == U32_MODULUS {
          LargestLimitNeverRefuses(l, map[], ops);
        } else {
          EmptyWindowNeverRefuses(l, map[], ops);
        }
      }
    } else {
      var ops := Burst("client", 0, l.maxRequests + 1);
      BurstRefused(l, map[], "client", 0, l.maxRequests + 1);
      assert Verdicts(l, map[], ops)[l.maxRequests] != Admitted;
      assert !NeverRefuses(l, ops);
    }
  }
}
