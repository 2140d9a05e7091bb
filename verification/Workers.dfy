/**
  Worker pools that share two budgets: the worker pool of the daemon as a step system.

  Handlers of one pool run one after the other, those of different pools interleave at every
  atomic change of a budget. A worker session is alive until its last owner lets go of it.
*/
module Workers {
  import opened Base

  type PoolId = nat
  type WorkerId = string

  /** What a spawn in progress has acquired. */
  datatype Holds = Nothing | Connection | Both

  /**
    Where the current handler of a pool stands. `Releasing` still owes the idle slots of `pins`, whose
    sessions it keeps alive, and then what a failed spawn holds.
  */
  datatype Handler =
    | Ready
    | Spawning(left: nat, holds: Holds)
    | Releasing(pins: set<WorkerId>, own: Holds, refill: bool)

  datatype Pool = Pool(
    minimum: nat, limit: nat, running: bool, stopping: bool, armed: bool,
    sessions: set<WorkerId>, available: set<WorkerId>, handler: Handler)

  /**
    `workers` are the sessions alive, with their pools; `done` those whose coroutine has ended;
    `born` all there ever were.
  */
  datatype System = System(
    idleUsed: nat, idleMax: nat, connUsed: nat, connMax: nat, pools: map<PoolId, Pool>,
    workers: map<WorkerId, PoolId>, done: set<WorkerId>, born: map<WorkerId, PoolId>)

  datatype Step =
    | Create(p: PoolId, minimum: nat, limit: nat)
    | Start(p: PoolId)
    | Request(p: PoolId, count: nat)
    // One atomic step of the pool's handler; `newborn` is the id of a new worker, none if it fails.
    | Advance(p: PoolId, newborn: Option<WorkerId>)
    | Consume(w: WorkerId)
    | Complete(w: WorkerId)
    | StopFlag(p: PoolId)
    | StopHandler(p: PoolId)
    | ForceStop(p: PoolId)
    | Destroy(w: WorkerId)

  // ---------- The steps ----------

  /** `release`, with its clamp. */
  function Release(used: nat): nat {
    if used > 0 then used - 1 else 0
  }

  /**
    What happens just before an attempt to compare and swap: the others leave `value` in the counter,
    and the attempt may fail although the counter has not changed.
  */
  datatype Attempt = Attempt(value: nat, spurious: bool)

  /**
    A budget as the pools share it. While one of them retries its compare-and-swap the others change
    the counter; after `attempts` it is left alone.
  */
  class WorkerBudget {
    const maximum: nat
    var inUse: nat

    constructor (limit: nat)
      ensures maximum >= 1 && (limit >= 1 ==> maximum == limit) && inUse == 0
    {
      maximum := if limit >= 1 then limit else 1;
      inUse := 0;
    }

    /** The counter may have been left at `value`. */
    ghost predicate Seen(before: nat, attempts: seq<Attempt>, value: nat) {
      value == before || exists i :: 0 <= i < |attempts| && attempts[i].value == value
    }

    /** Takes effect at once, on the value `last` that the others left. */
    method TryAcquire(attempts: seq<Attempt>) returns (ok: bool, ghost last: nat)
      modifies this
      ensures Seen(old(inUse), attempts, last)
      ensures ok <==> last < maximum
      ensures inUse == if ok then last + 1 else last
    {
      var current := inUse;
      var i := 0;
      while current < maximum
        invariant 0 <= i <= |attempts|
        invariant Seen(old(inUse), attempts, inUse)
        invariant current < maximum || current == inUse
        decreases |attempts| - i, if current == inUse then 0 else 1
      {
        var spurious := false;
        if i < |attempts| {
          inUse, spurious := attempts[i].value, attempts[i].spurious;
          i := i + 1;
        }
        if inUse == current && !spurious {
          last := inUse;
          inUse := current + 1;
          return true, last;
        }
        current := inUse;
      }
      return false, inUse;
    }

    method ReleaseOne(attempts: seq<Attempt>) returns (ghost last: nat)
      modifies this
      ensures Seen(old(inUse), attempts, last)
      ensures inUse == Release(last)
    {
      var current := inUse;
      var i := 0;
      while current > 0
        invariant 0 <= i <= |attempts|
        invariant Seen(old(inUse), attempts, inUse)
        invariant current > 0 || current == inUse
        decreases |attempts| - i, if current == inUse then 0 else 1
      {
        var spurious := false;
        if i < |attempts| {
          inUse, spurious := attempts[i].value, attempts[i].spurious;
          i := i + 1;
        }
        if inUse == current && !spurious {
          last := inUse;
          inUse := current - 1;
          return last;
        }
        current := inUse;
      }
      return inUse;
    }
  }

  function SpawnCount(pool: Pool, requested: nat): nat {
    if !pool.running || pool.limit <= |pool.available| then 0
    else Min(requested, pool.limit - |pool.available|)
  }

  function Refill(pool: Pool): Handler {
    Spawning(if |pool.available| < pool.minimum
             then SpawnCount(pool, pool.minimum - |pool.available|) else 0, Nothing)
  }

  predicate Allowed(s: System, step: Step) {
    match step
    case Create(p, minimum, limit) => p !in s.pools
    case Start(p) => p in s.pools && !s.pools[p].running && s.pools[p].handler.Ready?
    case Request(p, count) => p in s.pools && s.pools[p].handler.Ready?
    case Advance(p, w) =>
      p in s.pools && !s.pools[p].handler.Ready? && (w.Some? ==> w.value !in s.born)
    case Consume(w) => Runs(s, w)
    case Complete(w) => Runs(s, w)
    case StopFlag(p) => p in s.pools && s.pools[p].running
    case StopHandler(p) => p in s.pools && s.pools[p].stopping && s.pools[p].handler.Ready?
    case ForceStop(p) => p in s.pools && s.pools[p].armed && s.pools[p].handler.Ready?
    case Destroy(w) => Abandoned(s, w)
  }

  /** The worker's coroutine can run its pool's handlers. */
  predicate Runs(s: System, w: WorkerId) {
    && w in s.workers && w !in s.done
    && s.workers[w] in s.pools && s.pools[s.workers[w]].handler.Ready?
  }

  /** Nobody owns the session any more. */
  predicate Abandoned(s: System, w: WorkerId) {
    && w in s.workers && w in s.done && s.workers[w] in s.pools
    && w !in s.pools[s.workers[w]].sessions
    && w !in Pins(s.pools[s.workers[w]].handler)
  }

  function Pins(h: Handler): set<WorkerId> {
    if h.Releasing? then h.pins else {}
  }

  function Put(s: System, p: PoolId, pool: Pool): System {
    s.(pools := s.pools[p := pool])
  }

  function TakeConnection(s: System, p: PoolId): System
    requires p in s.pools && s.pools[p].handler.Spawning?
  {
    var pool := s.pools[p];
    if pool.handler.left == 0 || s.connUsed >= s.connMax then Put(s, p, pool.(handler := Ready))
    else Put(s, p, pool.(handler := pool.handler.(holds := Connection))).(connUsed := s.connUsed + 1)
  }

  function TakeIdle(s: System, p: PoolId): System
    requires p in s.pools && s.pools[p].handler.Spawning?
  {
    var pool := s.pools[p];
    if s.idleUsed >= s.idleMax then Put(s, p, pool.(handler := Releasing({}, Connection, false)))
    else Put(s, p, pool.(handler := pool.handler.(holds := Both))).(idleUsed := s.idleUsed + 1)
  }

  function Birth(s: System, p: PoolId, w: WorkerId): System
    requires p in s.pools && s.pools[p].handler.Spawning?
  {
    var pool := s.pools[p];
    var left := if pool.handler.left > 0 then pool.handler.left - 1 else 0;
    Put(s, p, pool.(sessions := pool.sessions + {w}, available := pool.available + {w},
                    handler := Spawning(left, Nothing)))
    .(workers := s.workers[w := p], born := s.born[w := p])
  }

  /** One step of `spawn_workers`. */
  function Spawn(s: System, p: PoolId, w: Option<WorkerId>): System
    requires p in s.pools && s.pools[p].handler.Spawning?
  {
    match s.pools[p].handler.holds
    case Nothing => TakeConnection(s, p)
    case Connection => TakeIdle(s, p)
    case Both =>
      if w.None? then Put(s, p, s.pools[p].(handler := Releasing({}, Both, false)))
      else Birth(s, p, w.value)
  }

  /** One step of giving back what is owed; `w` is the next of the pins. */
  function GiveBack(s: System, p: PoolId, w: WorkerId): System
    requires p in s.pools && s.pools[p].handler.Releasing?
    requires s.pools[p].handler.pins != {} ==> w in s.pools[p].handler.pins
  {
    var pool := s.pools[p];
    var h := pool.handler;
    if h.pins != {} then
      Put(s, p, pool.(handler := h.(pins := h.pins - {w}))).(idleUsed := Release(s.idleUsed))
    else
      match h.own
      case Both => Put(s, p, pool.(handler := h.(own := Connection))).(idleUsed := Release(s.idleUsed))
      case Connection =>
        Put(s, p, pool.(handler := h.(own := Nothing))).(connUsed := Release(s.connUsed))
      case Nothing => Put(s, p, pool.(handler := if h.refill then Refill(pool) else Ready))
  }

  function StartedPool(pool: Pool): Pool {
    var started := pool.(running := true);
    started.(handler := Refill(started))
  }

  function RequestedPool(pool: Pool, count: nat): Pool {
    pool.(handler := Spawning(SpawnCount(pool, count), Nothing))
  }

  /** `worker_consumed`. */
  function ConsumedPool(pool: Pool, w: WorkerId): Pool {
    if w !in pool.available then pool
    else pool.(available := pool.available - {w}, handler := Releasing({w}, Nothing, true))
  }

  /** `worker_finished`; the last session of a stopped pool calls the forced stop off. */
  function CompletedPool(pool: Pool, w: WorkerId): Pool {
    if w !in pool.sessions then pool
    else pool.(sessions := pool.sessions - {w}, available := pool.available - {w},
               armed := pool.armed && (pool.running || pool.sessions != {w}),
               handler := if w in pool.available then Releasing({w}, Nothing, false) else Ready)
  }

  /** The handler that `stop` dispatches. */
  function StoppedPool(pool: Pool): Pool {
    var rest := pool.sessions - pool.available;
    pool.(sessions := rest, available := {}, stopping := false, armed := pool.armed || rest != {},
          handler := Releasing(pool.available, Nothing, false))
  }

  ghost function Next(s: System, step: Step): System
    requires Allowed(s, step)
  {
    match step
    case Create(p, minimum, limit) =>
      Put(s, p, Pool(minimum, limit, false, false, false, {}, {}, Ready))
    case Start(p) => Put(s, p, StartedPool(s.pools[p]))
    case Request(p, count) => Put(s, p, RequestedPool(s.pools[p], count))
    case Advance(p, w) =>
      if s.pools[p].handler.Spawning? then Spawn(s, p, w)
      else if s.pools[p].handler.pins == {} then GiveBack(s, p, "")
      else var pin :| pin in s.pools[p].handler.pins; GiveBack(s, p, pin)
    case Consume(w) => Put(s, s.workers[w], ConsumedPool(s.pools[s.workers[w]], w))
    case Complete(w) =>
      Put(s, s.workers[w], CompletedPool(s.pools[s.workers[w]], w)).(done := s.done + {w})
    case StopFlag(p) => Put(s, p, s.pools[p].(running := false, stopping := true))
    case StopHandler(p) => Put(s, p, StoppedPool(s.pools[p]))
    case ForceStop(p) => Put(s, p, s.pools[p].(sessions := {}, armed := false))
    case Destroy(w) => s.(workers := s.workers - {w}, connUsed := Release(s.connUsed))
  }

  // ---------- Who holds what ----------

  predicate HoldsConnection(h: Handler) {
    match h
    case Ready => false
    case Spawning(left, holds) => !holds.Nothing?
    case Releasing(pins, own, refill) => !own.Nothing?
  }

  predicate HoldsIdle(h: Handler) {
    match h
    case Ready => false
    case Spawning(left, holds) => holds.Both?
    case Releasing(pins, own, refill) => own.Both?
  }

  /** The pools whose handler itself holds a connection slot, or an idle slot. */
  ghost function ConnectionSpawns(pools: map<PoolId, Pool>): set<PoolId> {
    set p | p in pools && HoldsConnection(pools[p].handler)
  }

  ghost function IdleSpawns(pools: map<PoolId, Pool>): set<PoolId> {
    set p | p in pools && HoldsIdle(pools[p].handler)
  }

  /** Counted as idle: available, or about to be given back. */
  ghost predicate IsIdle(pools: map<PoolId, Pool>, p: PoolId, w: WorkerId) {
    p in pools && (w in pools[p].available || w in Pins(pools[p].handler))
  }

  ghost function IdleWorkers(pools: map<PoolId, Pool>, born: map<WorkerId, PoolId>): set<WorkerId> {
    set w | w in born && IsIdle(pools, born[w], w)
  }

  ghost function IdleCount(pool: Pool): nat {
    |pool.available| + |Pins(pool.handler)|
  }

  ghost predicate BornIn(ws: set<WorkerId>, born: map<WorkerId, PoolId>, p: PoolId) {
    forall w | w in ws :: w in born && born[w] == p
  }

  ghost predicate PoolOk(pool: Pool, born: map<WorkerId, PoolId>, p: PoolId) {
    && BornIn(pool.available, born, p) && BornIn(Pins(pool.handler), born, p)
    && BornIn(pool.sessions, born, p)
    && pool.available !! Pins(pool.handler)
  }

  ghost predicate PoolsOk(s: System) {
    && (forall p | p in s.pools :: PoolOk(s.pools[p], s.born, p))
    && (forall w | w in s.workers :: w in s.born && s.born[w] == s.workers[w])
  }

  /** The budgets count their holders, and stay within their limits. */
  ghost predicate Conserved(s: System) {
    && s.connUsed == |s.workers| + |ConnectionSpawns(s.pools)| <= s.connMax
    && s.idleUsed == |IdleWorkers(s.pools, s.born)| + |IdleSpawns(s.pools)| <= s.idleMax
    && PoolsOk(s)
  }

  // ---------- What the change of one pool does to the counts ----------

  function Bit(b: bool): nat {
    if b then 1 else 0
  }

  lemma SpawnsPut(pools: map<PoolId, Pool>, p: PoolId, pool: Pool)
    requires p in pools
    ensures |ConnectionSpawns(pools[p := pool])| + Bit(HoldsConnection(pools[p].handler))
         == |ConnectionSpawns(pools)| + Bit(HoldsConnection(pool.handler))
    ensures |IdleSpawns(pools[p := pool])| + Bit(HoldsIdle(pools[p].handler))
         == |IdleSpawns(pools)| + Bit(HoldsIdle(pool.handler))
  {
    var after := pools[p := pool];
    assert ConnectionSpawns(after) - {p} == ConnectionSpawns(pools) - {p};
    assert IdleSpawns(after) - {p} == IdleSpawns(pools) - {p};
    assert p in ConnectionSpawns(pools) <==> HoldsConnection(pools[p].handler);
    assert p in IdleSpawns(pools) <==> HoldsIdle(pools[p].handler);
    Without(ConnectionSpawns(after), p);
    Without(ConnectionSpawns(pools), p);
    Without(IdleSpawns(after), p);
    Without(IdleSpawns(pools), p);
  }

  lemma Without(ps: set<PoolId>, p: PoolId)
    ensures |ps| == |ps - {p}| + Bit(p in ps)
  {
    if p in ps {
      assert ps == (ps - {p}) + {p};
    } else {
      assert ps - {p} == ps;
    }
  }

  ghost function Elsewhere(
      pools: map<PoolId, Pool>, born: map<WorkerId, PoolId>, p: PoolId): set<WorkerId>
  {
    set w | w in born && born[w] != p && IsIdle(pools, born[w], w)
  }

  lemma IdleSplits(pools: map<PoolId, Pool>, born: map<WorkerId, PoolId>, p: PoolId)
    requires p in pools && PoolOk(pools[p], born, p)
    ensures |IdleWorkers(pools, born)| == |Elsewhere(pools, born, p)| + IdleCount(pools[p])
  {
    var available, pins := pools[p].available, Pins(pools[p].handler);
    var here := set w | w in born && born[w] == p && IsIdle(pools, p, w);
    assert here == available + pins;
    assert IdleWorkers(pools, born) == Elsewhere(pools, born, p) + here;
  }

  lemma IdlePut(
      pools: map<PoolId, Pool>, born: map<WorkerId, PoolId>, p: PoolId, pool: Pool)
    requires p in pools && PoolOk(pools[p], born, p) && PoolOk(pool, born, p)
    ensures |IdleWorkers(pools[p := pool], born)| + IdleCount(pools[p])
         == |IdleWorkers(pools, born)| + IdleCount(pool)
  {
    IdleSplits(pools, born, p);
    IdleSplits(pools[p := pool], born, p);
    assert Elsewhere(pools[p := pool], born, p) == Elsewhere(pools, born, p);
  }

  lemma IdleBirth(pools: map<PoolId, Pool>, born: map<WorkerId, PoolId>, w: WorkerId, p: PoolId)
    requires w !in born && p in pools && PoolOk(pools[p], born, p)
    ensures IdleWorkers(pools, born[w := p]) == IdleWorkers(pools, born)
    ensures PoolOk(pools[p], born[w := p], p)
  {
  }

  /** A step that changes one pool, and the counters by what the pool's slots changed. */
  lemma PutKeeps(s: System, t: System, p: PoolId, pool: Pool)
    requires Conserved(s) && p in s.pools
    requires t.pools == s.pools[p := pool] && t.born == s.born && PoolOk(pool, s.born, p)
    requires t.workers == s.workers && t.idleMax == s.idleMax && t.connMax == s.connMax
    requires t.connUsed + Bit(HoldsConnection(s.pools[p].handler))
          == s.connUsed + Bit(HoldsConnection(pool.handler))
    requires t.idleUsed + IdleCount(s.pools[p]) + Bit(HoldsIdle(s.pools[p].handler))
          == s.idleUsed + IdleCount(pool) + Bit(HoldsIdle(pool.handler))
    requires t.connUsed <= t.connMax && t.idleUsed <= t.idleMax
    ensures Conserved(t)
  {
    SpawnsPut(s.pools, p, pool);
    IdlePut(s.pools, s.born, p, pool);
  }

  /** What is owed is counted. */
  lemma OwedIsCounted(s: System, p: PoolId)
    requires Conserved(s) && p in s.pools
    ensures IdleCount(s.pools[p]) + Bit(HoldsIdle(s.pools[p].handler)) <= s.idleUsed
    ensures Bit(HoldsConnection(s.pools[p].handler)) <= s.connUsed
  {
    IdleSplits(s.pools, s.born, p);
    Without(IdleSpawns(s.pools), p);
    Without(ConnectionSpawns(s.pools), p);
  }

  // ---------- Every step conserves ----------

  /** The pool keeps its slots, and its sessions at most shrink. */
  ghost predicate Quiet(before: Pool, after: Pool) {
    && IdleCount(after) == IdleCount(before) && after.sessions <= before.sessions
    && after.available <= before.available
    && Pins(after.handler) <= before.available + Pins(before.handler)
    && after.available !! Pins(after.handler)
    && HoldsConnection(after.handler) == HoldsConnection(before.handler)
    && HoldsIdle(after.handler) == HoldsIdle(before.handler)
  }

  lemma QuietKeeps(s: System, t: System, p: PoolId, pool: Pool)
    requires Conserved(s) && p in s.pools && Quiet(s.pools[p], pool)
    requires t == Put(s, p, pool).(done := t.done)
    ensures Conserved(t)
  {
    assert PoolOk(s.pools[p], s.born, p);
    PutKeeps(s, t, p, pool);
  }

  lemma ConsumedIsQuiet(pool: Pool, w: WorkerId)
    requires pool.handler.Ready?
    ensures Quiet(pool, ConsumedPool(pool, w))
  {
  }

  lemma CompletedIsQuiet(pool: Pool, w: WorkerId)
    requires pool.handler.Ready?
    ensures Quiet(pool, CompletedPool(pool, w))
  {
  }

  lemma StoppedIsQuiet(pool: Pool)
    requires pool.handler.Ready?
    ensures Quiet(pool, StoppedPool(pool))
  {
  }

  lemma SpawnKeeps(s: System, p: PoolId, w: Option<WorkerId>)
    requires Conserved(s) && p in s.pools && s.pools[p].handler.Spawning?
    requires w.Some? ==> w.value !in s.born
    ensures Conserved(Spawn(s, p, w))
  {
    match s.pools[p].handler.holds
    case Nothing => TakeConnectionKeeps(s, p);
    case Connection => TakeIdleKeeps(s, p);
    case Both =>
      if w.Some? {
        BirthKeeps(s, p, w.value);
      } else {
        HandlerKeeps(s, Spawn(s, p, w), p, Releasing({}, Both, false));
      }
  }

  lemma TakeConnectionKeeps(s: System, p: PoolId)
    requires Conserved(s) && p in s.pools && s.pools[p].handler.Spawning?
    requires s.pools[p].handler.holds.Nothing?
    ensures Conserved(TakeConnection(s, p))
  {
    HandlerKeeps(s, TakeConnection(s, p), p, TakeConnection(s, p).pools[p].handler);
  }

  lemma TakeIdleKeeps(s: System, p: PoolId)
    requires Conserved(s) && p in s.pools && s.pools[p].handler.Spawning?
    requires s.pools[p].handler.holds.Connection?
    ensures Conserved(TakeIdle(s, p))
  {
    HandlerKeeps(s, TakeIdle(s, p), p, TakeIdle(s, p).pools[p].handler);
  }

  lemma HandlerKeeps(s: System, t: System, p: PoolId, h: Handler)
    requires Conserved(s) && p in s.pools && Pins(h) == {} == Pins(s.pools[p].handler)
    requires t == Put(s, p, s.pools[p].(handler := h)).(connUsed := t.connUsed, idleUsed := t.idleUsed)
    requires t.connUsed + Bit(HoldsConnection(s.pools[p].handler)) == s.connUsed + Bit(HoldsConnection(h))
    requires t.idleUsed + Bit(HoldsIdle(s.pools[p].handler)) == s.idleUsed + Bit(HoldsIdle(h))
    requires t.connUsed <= t.connMax && t.idleUsed <= t.idleMax
    ensures Conserved(t)
  {
    assert PoolOk(s.pools[p], s.born, p);
    PutKeeps(s, t, p, s.pools[p].(handler := h));
  }

  /** A new worker takes over both slots of the spawn. */
  lemma BirthKeeps(s: System, p: PoolId, w: WorkerId)
    requires Conserved(s) && p in s.pools && s.pools[p].handler.Spawning?
    requires s.pools[p].handler.holds.Both? && w !in s.born
    ensures Conserved(Birth(s, p, w))
  {
    var t := Birth(s, p, w);
    BirthIsOk(s, p, w);
    BirthCounts(s.pools, s.born, t.pools, p, w);
    OneMore(s.workers, w, p);
  }

  lemma OneMore(workers: map<WorkerId, PoolId>, w: WorkerId, p: PoolId)
    requires w !in workers
    ensures |workers[w := p]| == |workers| + 1
  {
    assert workers[w := p].Keys == workers.Keys + {w};
    assert |workers[w := p]| == |workers[w := p].Keys| && |workers| == |workers.Keys|;
  }

  lemma BirthCounts(
      pools: map<PoolId, Pool>, born: map<WorkerId, PoolId>, after: map<PoolId, Pool>, p: PoolId,
      w: WorkerId)
    requires p in pools && p in after && after == pools[p := after[p]] && w !in born
    requires PoolOk(pools[p], born, p) && PoolOk(after[p], born[w := p], p)
    requires IdleCount(after[p]) == IdleCount(pools[p]) + 1
    requires HoldsIdle(pools[p].handler) && HoldsConnection(pools[p].handler)
    requires !HoldsIdle(after[p].handler) && !HoldsConnection(after[p].handler)
    ensures |IdleWorkers(after, born[w := p])| == |IdleWorkers(pools, born)| + 1
    ensures |IdleSpawns(after)| + 1 == |IdleSpawns(pools)|
    ensures |ConnectionSpawns(after)| + 1 == |ConnectionSpawns(pools)|
  {
    IdleBirth(pools, born, w, p);
    SpawnsPut(pools, p, after[p]);
    IdlePut(pools, born[w := p], p, after[p]);
  }

  lemma BirthIsOk(s: System, p: PoolId, w: WorkerId)
    requires PoolsOk(s) && p in s.pools && s.pools[p].handler.Spawning?
    requires s.pools[p].handler.holds.Both? && w !in s.born
    ensures PoolsOk(Birth(s, p, w)) && PoolOk(s.pools[p], s.born, p)
    ensures PoolOk(Birth(s, p, w).pools[p], s.born[w := p], p)
    ensures IdleCount(Birth(s, p, w).pools[p]) == IdleCount(s.pools[p]) + 1
  {
    var t := Birth(s, p, w);
    assert PoolOk(s.pools[p], s.born, p);
    assert w !in s.pools[p].available;
    forall q | q in t.pools
      ensures PoolOk(t.pools[q], t.born, q)
    {
      assert PoolOk(s.pools[q], s.born, q);
    }
  }

  /** Giving back: the counter is above zero each time, so the clamp is never needed. */
  lemma GiveBackKeeps(s: System, p: PoolId, w: WorkerId)
    requires Conserved(s) && p in s.pools && s.pools[p].handler.Releasing?
    requires s.pools[p].handler.pins != {} ==> w in s.pools[p].handler.pins
    ensures Conserved(GiveBack(s, p, w))
    ensures s.pools[p].handler.pins != {} || s.pools[p].handler.own.Both? ==> s.idleUsed > 0
    ensures s.pools[p].handler.pins == {} && s.pools[p].handler.own.Connection? ==> s.connUsed > 0
  {
    OwedIsCounted(s, p);
    if s.pools[p].handler.pins != {} {
      PinIsGivenBack(s, p, w);
    } else {
      HandlerKeeps(s, GiveBack(s, p, w), p, GiveBack(s, p, w).pools[p].handler);
    }
  }

  lemma PinIsGivenBack(s: System, p: PoolId, w: WorkerId)
    requires Conserved(s) && p in s.pools && s.pools[p].handler.Releasing?
    requires w in s.pools[p].handler.pins && s.idleUsed > 0
    ensures Conserved(GiveBack(s, p, w))
  {
    var t, h := GiveBack(s, p, w), s.pools[p].handler;
    assert PoolOk(s.pools[p], s.born, p);
    assert h.pins == (h.pins - {w}) + {w};
    PutKeeps(s, t, p, t.pools[p]);
  }

  lemma DestroyKeeps(s: System, w: WorkerId)
    requires Conserved(s) && Abandoned(s, w)
    ensures Conserved(Next(s, Destroy(w))) && s.connUsed > 0
  {
    var t := Next(s, Destroy(w));
    assert s.workers.Keys == t.workers.Keys + {w};
    assert |t.workers| == |t.workers.Keys| && |s.workers| == |s.workers.Keys|;
  }

  lemma CreateKeeps(s: System, step: Step)
    requires Conserved(s) && Allowed(s, step) && step.Create?
    ensures Conserved(Next(s, step))
  {
    NewPoolHoldsNothing(s.pools, s.born, step.p, Next(s, step).pools[step.p]);
  }

  lemma NewPoolHoldsNothing(
      pools: map<PoolId, Pool>, born: map<WorkerId, PoolId>, p: PoolId, pool: Pool)
    requires p !in pools && pool.handler.Ready? && pool.available == {}
    ensures ConnectionSpawns(pools[p := pool]) == ConnectionSpawns(pools)
    ensures IdleSpawns(pools[p := pool]) == IdleSpawns(pools)
    ensures IdleWorkers(pools[p := pool], born) == IdleWorkers(pools, born)
  {
    forall w
      ensures w in IdleWorkers(pools[p := pool], born) <==> w in IdleWorkers(pools, born)
    {
    }
  }

  /** Steps that leave the budgets alone. */
  lemma QuietStepKeeps(s: System, step: Step)
    requires Conserved(s) && Allowed(s, step)
    requires !step.Advance? && !step.Destroy? && !step.Create?
    ensures Conserved(Next(s, step))
  {
    var t := Next(s, step);
    match step
    case Start(p) => QuietKeeps(s, t, p, StartedPool(s.pools[p]));
    case Request(p, count) => QuietKeeps(s, t, p, RequestedPool(s.pools[p], count));
    case Consume(w) =>
      ConsumedIsQuiet(s.pools[s.workers[w]], w);
      QuietKeeps(s, t, s.workers[w], ConsumedPool(s.pools[s.workers[w]], w));
    case Complete(w) =>
      CompletedIsQuiet(s.pools[s.workers[w]], w);
      QuietKeeps(s, t, s.workers[w], CompletedPool(s.pools[s.workers[w]], w));
    case StopFlag(p) =>
      PoolStaysDisjoint(s, p);
      QuietKeeps(s, t, p, t.pools[p]);
    case StopHandler(p) =>
      StoppedIsQuiet(s.pools[p]);
      QuietKeeps(s, t, p, StoppedPool(s.pools[p]));
    case ForceStop(p) => QuietKeeps(s, t, p, t.pools[p]);
  }

  lemma PoolStaysDisjoint(s: System, p: PoolId)
    requires Conserved(s) && p in s.pools
    ensures s.pools[p].available !! Pins(s.pools[p].handler)
  {
    assert PoolOk(s.pools[p], s.born, p);
  }

  /** Every step keeps the counters equal to what is held. */
  lemma StepConserves(s: System, step: Step)
    requires Conserved(s) && Allowed(s, step)
    ensures Conserved(Next(s, step))
  {
    if step.Advance? {
      var h := s.pools[step.p].handler;
      if h.Spawning? {
        SpawnKeeps(s, step.p, step.newborn);
      } else if h.pins == {} {
        GiveBackKeeps(s, step.p, "");
      } else {
        var pin: WorkerId :| pin in h.pins && Next(s, step) == GiveBack(s, step.p, pin);
        GiveBackKeeps(s, step.p, pin);
      }
    } else if step.Destroy? {
      DestroyKeeps(s, step.w);
    } else if step.Create? {
      CreateKeeps(s, step);
    } else {
      QuietStepKeeps(s, step);
    }
  }

  ghost predicate Chain(states: seq<System>, steps: seq<Step>) {
    && |states| == |steps| + 1
    && forall i | 0 <= i < |steps| ::
         Allowed(states[i], steps[i]) && states[i + 1] == Next(states[i], steps[i])
  }

  ghost predicate Run(states: seq<System>, steps: seq<Step>) {
    && Chain(states, steps)
    && exists idleMax, connMax :: idleMax >= 1 && connMax >= 1 && states[0] == Empty(idleMax, connMax)
  }

  function Empty(idleMax: nat, connMax: nat): System {
    System(0, idleMax, 0, connMax, map[], map[], {}, map[])
  }

  /** Over every run of any number of pools. */
  lemma {:induction false} BudgetsAreConserved(states: seq<System>, steps: seq<Step>)
    requires Run(states, steps)
    ensures Conserved(states[|steps|])
    decreases |steps|
  {
    var n := |steps| - 1;
    if n >= 0 {
      BudgetsAreConserved(states[..n + 1], steps[..n]);
      StepConserves(states[n], steps[n]);
    } else {
      assert ConnectionSpawns(states[0].pools) == {} && IdleSpawns(states[0].pools) == {};
      assert IdleWorkers(states[0].pools, states[0].born) == {};
    }
  }

  // ---------- The counters as sums over the pools ----------

  ghost predicate Lists(ids: seq<PoolId>, pools: map<PoolId, Pool>) {
    && (forall i, j | 0 <= i < j < |ids| :: ids[i] != ids[j])
    && (forall p :: p in ids <==> p in pools)
  }

  function SumAvailable(pools: map<PoolId, Pool>, ids: seq<PoolId>): nat
    requires forall p | p in ids :: p in pools
  {
    if |ids| == 0 then 0 else |pools[ids[0]].available| + SumAvailable(pools, ids[1..])
  }

  lemma {:induction false} IdleIsSum(
      pools: map<PoolId, Pool>, born: map<WorkerId, PoolId>, ids: seq<PoolId>)
    requires Lists(ids, pools)
    requires forall p | p in pools :: PoolOk(pools[p], born, p) && pools[p].handler.Ready?
    ensures |IdleWorkers(pools, born)| == SumAvailable(pools, ids)
    decreases |ids|
  {
    if |ids| == 0 {
      assert IdleWorkers(pools, born) == {};
    } else {
      var p, rest := ids[0], pools - {ids[0]};
      IdleSplits(pools, born, p);
      assert Elsewhere(pools, born, p) == IdleWorkers(rest, born);
      IdleIsSum(rest, born, ids[1..]);
      SumIgnores(pools, rest, ids[1..]);
    }
  }

  lemma {:induction false} SumIgnores(
      pools: map<PoolId, Pool>, rest: map<PoolId, Pool>, ids: seq<PoolId>)
    requires forall p | p in ids :: p in pools && p in rest && rest[p] == pools[p]
    ensures SumAvailable(rest, ids) == SumAvailable(pools, ids)
  {
    if |ids| > 0 {
      SumIgnores(pools, rest, ids[1..]);
    }
  }

  /** Between handlers: idle slots are the available workers, connections the sessions alive. */
  lemma CountersAtRest(s: System, ids: seq<PoolId>)
    requires Conserved(s) && Lists(ids, s.pools)
    requires forall p | p in s.pools :: s.pools[p].handler.Ready?
    ensures s.idleUsed == SumAvailable(s.pools, ids) && s.connUsed == |s.workers|
  {
    assert ConnectionSpawns(s.pools) == {} && IdleSpawns(s.pools) == {};
    IdleIsSum(s.pools, s.born, ids);
  }

  // ---------- Idle slots never outnumber connections ----------

  /** What a pool counts as idle is alive: it owns the sessions of its available workers. */
  ghost predicate Held(pool: Pool, workers: map<WorkerId, PoolId>, p: PoolId) {
    && pool.available <= pool.sessions
    && BornIn(pool.sessions, workers, p) && BornIn(Pins(pool.handler), workers, p)
  }

  ghost predicate AllHeld(s: System) {
    forall p | p in s.pools :: Held(s.pools[p], s.workers, p)
  }

  lemma IdleWithinConnections(s: System)
    requires Conserved(s) && AllHeld(s)
    ensures s.idleUsed <= s.connUsed
  {
    forall w | w in IdleWorkers(s.pools, s.born)
      ensures w in s.workers
    {
      assert Held(s.pools[s.born[w]], s.workers, s.born[w]);
    }
    AtMost(IdleWorkers(s.pools, s.born), s.workers.Keys);
    AtMost(IdleSpawns(s.pools), ConnectionSpawns(s.pools));
    assert |s.workers| == |s.workers.Keys|;
  }

  lemma AtMost<T>(a: set<T>, b: set<T>)
    requires a <= b
    ensures |a| <= |b|
  {
    assert b == a + (b - a);
  }

  /** Idle slots whose workers are gone already, and workers that hold no idle slot. */
  ghost function Lost(s: System): set<WorkerId> {
    IdleWorkers(s.pools, s.born) - s.workers.Keys
  }

  ghost function Busy(s: System): set<WorkerId> {
    s.workers.Keys - IdleWorkers(s.pools, s.born)
  }

  /** Exactly when idle slots do not outnumber connections. */
  lemma IdleWithinConnectionsIff(s: System)
    requires Conserved(s)
    ensures s.idleUsed <= s.connUsed <==>
            |Lost(s)| + |IdleSpawns(s.pools)| <= |Busy(s)| + |ConnectionSpawns(s.pools)|
  {
    var idle, alive := IdleWorkers(s.pools, s.born), s.workers.Keys;
    SplitBy(idle, alive);
    SplitBy(alive, idle);
    assert idle * alive == alive * idle;
    assert |s.workers| == |alive|;
  }

  lemma SplitBy(a: set<WorkerId>, b: set<WorkerId>)
    ensures |a| == |a - b| + |a * b|
  {
    assert a == (a - b) + (a * b);
  }

  lemma HeldKept(s: System, step: Step)
    requires Conserved(s) && AllHeld(s) && Allowed(s, step)
    requires step.ForceStop? ==> s.pools[step.p].available == {}
    ensures AllHeld(Next(s, step))
  {
    var t := Next(s, step);
    if step.Advance? {
      AdvanceIs(s, step);
      AdvanceHolds(s, t, step.p, step.newborn);
    } else {
      forall q | q in t.pools
        ensures Held(t.pools[q], t.workers, q)
      {
        if q in s.pools {
          HeldByPool(s, step, q);
        }
      }
    }
  }

  lemma AdvanceHolds(s: System, t: System, p: PoolId, newborn: Option<WorkerId>)
    requires Conserved(s) && AllHeld(s) && p in s.pools && IsAdvance(s, t, p, newborn)
    requires newborn.Some? ==> newborn.value !in s.born
    ensures AllHeld(t)
  {
    var h := s.pools[p].handler;
    if h.Spawning? {
      forall q | q in t.pools
        ensures Held(t.pools[q], t.workers, q)
      {
        HeldBySpawn(s, p, newborn, q);
      }
    } else {
      var w: WorkerId :| (h.pins != {} ==> w in h.pins) && t == GiveBack(s, p, w);
      forall q | q in t.pools
        ensures Held(t.pools[q], t.workers, q)
      {
        GivingWinds(s, p, w);
        WindingKeepsSessions(s, t, p, q);
      }
    }
  }

  lemma HeldByPool(s: System, step: Step, q: PoolId)
    requires Conserved(s) && Allowed(s, step) && !step.Advance?
    requires q in s.pools && Held(s.pools[q], s.workers, q)
    requires step.ForceStop? ==> s.pools[step.p].available == {}
    ensures q in Next(s, step).pools
    ensures Held(Next(s, step).pools[q], Next(s, step).workers, q)
  {
    match step
    case Consume(w) => HeldShrinks(s.pools[q], ConsumedPool(s.pools[q], w), s.workers, q);
    case Complete(w) => HeldShrinks(s.pools[q], CompletedPool(s.pools[q], w), s.workers, q);
    case StopHandler(p) => HeldShrinks(s.pools[q], StoppedPool(s.pools[q]), s.workers, q);
    case _ =>
  }

  lemma HeldShrinks(before: Pool, after: Pool, workers: map<WorkerId, PoolId>, p: PoolId)
    requires Held(before, workers, p)
    requires after.available <= after.sessions <= before.sessions
    requires Pins(after.handler) <= before.sessions + Pins(before.handler)
    ensures Held(after, workers, p)
  {
  }

  lemma HeldBySpawn(s: System, p: PoolId, w: Option<WorkerId>, q: PoolId)
    requires Conserved(s) && p in s.pools && s.pools[p].handler.Spawning?
    requires w.Some? ==> w.value !in s.born
    requires q in s.pools && Held(s.pools[q], s.workers, q)
    ensures q in Spawn(s, p, w).pools
    ensures Held(Spawn(s, p, w).pools[q], Spawn(s, p, w).workers, q)
  {
    if s.pools[p].handler.holds.Both? && w.Some? {
      HeldAtBirth(s, p, w.value, q);
    } else {
      SpawnWinds(s, p, w);
      WindingKeepsSessions(s, Spawn(s, p, w), p, q);
    }
  }

  /** One step of the pool's handler, whichever it is. */
  ghost predicate IsAdvance(s: System, t: System, p: PoolId, newborn: Option<WorkerId>)
    requires p in s.pools
  {
    var h := s.pools[p].handler;
    || (h.Spawning? && t == Spawn(s, p, newborn))
    || (h.Releasing? && exists w: WorkerId :: (h.pins != {} ==> w in h.pins) && t == GiveBack(s, p, w))
  }

  lemma AdvanceIs(s: System, step: Step)
    requires Allowed(s, step) && step.Advance?
    ensures IsAdvance(s, Next(s, step), step.p, step.newborn)
  {
    var p, h := step.p, s.pools[step.p].handler;
    if h.Releasing? {
      if h.pins == {} {
        assert Next(s, step) == GiveBack(s, p, "");
      } else {
        var pin: WorkerId :| pin in h.pins && Next(s, step) == GiveBack(s, p, pin);
      }
    }
  }

  /** How many steps a handler takes at most if nothing more is born. */
  ghost function Rank(h: Handler): nat {
    match h
    case Ready => 0
    case Spawning(left, holds) => 6 - HeldBy(holds)
    case Releasing(pins, own, refill) => (if refill then 7 else 1) + HeldBy(own) + |pins|
  }

  function HeldBy(holds: Holds): nat {
    match holds
    case Nothing => 0
    case Connection => 1
    case Both => 2
  }

  /** A step that changes the handler of one pool, and budgets, and brings it closer to its end. */
  ghost predicate Winds(s: System, t: System, p: PoolId) {
    && p in s.pools && p in t.pools
    && t == s.(idleUsed := t.idleUsed, connUsed := t.connUsed, pools := t.pools)
    && t.pools == s.pools[p := s.pools[p].(handler := t.pools[p].handler)]
    && Pins(t.pools[p].handler) <= Pins(s.pools[p].handler)
    && Rank(t.pools[p].handler) < Rank(s.pools[p].handler)
  }

  lemma SpawnWinds(s: System, p: PoolId, w: Option<WorkerId>)
    requires p in s.pools && s.pools[p].handler.Spawning? && (s.pools[p].handler.holds.Both? ==> w.None?)
    ensures Winds(s, Spawn(s, p, w), p)
  {
  }

  lemma GivingWinds(s: System, p: PoolId, w: WorkerId)
    requires p in s.pools && s.pools[p].handler.Releasing?
    requires s.pools[p].handler.pins != {} ==> w in s.pools[p].handler.pins
    ensures Winds(s, GiveBack(s, p, w), p)
  {
    var pins := s.pools[p].handler.pins;
    assert pins != {} ==> pins == (pins - {w}) + {w};
  }

  lemma WindingKeepsSessions(s: System, t: System, p: PoolId, q: PoolId)
    requires Winds(s, t, p) && q in s.pools && Held(s.pools[q], s.workers, q)
    ensures q in t.pools && Held(t.pools[q], t.workers, q)
  {
    if q == p {
      HeldShrinks(s.pools[q], t.pools[q], s.workers, q);
    }
  }

  lemma HeldAtBirth(s: System, p: PoolId, w: WorkerId, q: PoolId)
    requires Conserved(s) && p in s.pools && s.pools[p].handler.Spawning? && w !in s.born
    requires q in s.pools && Held(s.pools[q], s.workers, q)
    ensures Held(Birth(s, p, w).pools[q], Birth(s, p, w).workers, q)
  {
    assert w !in s.workers;
  }

  /** A pool whose forced stop is pending has nothing available, and gets nothing. */
  ghost predicate WoundDown(pool: Pool) {
    pool.armed ==>
      && !pool.running && pool.available == {}
      && (pool.handler.Spawning? ==> pool.handler.left == 0 && pool.handler.holds.Nothing?)
      && (pool.handler.Releasing? ==> pool.handler.own.Nothing?)
  }

  /** `start` is called only on a pool that is not being stopped. */
  predicate Orderly(s: System, step: Step) {
    step.Start? && step.p in s.pools ==> !s.pools[step.p].armed && !s.pools[step.p].stopping
  }

  ghost predicate AllWoundDown(s: System) {
    forall p | p in s.pools ::
      WoundDown(s.pools[p]) && (s.pools[p].stopping ==> !s.pools[p].running)
  }

  lemma WoundDownKept(s: System, step: Step)
    requires AllWoundDown(s) && Allowed(s, step) && Orderly(s, step)
    ensures AllWoundDown(Next(s, step))
  {
    var t := Next(s, step);
    forall p | p in t.pools
      ensures WoundDown(t.pools[p]) && (t.pools[p].stopping ==> !t.pools[p].running)
    {
      if step.Advance? && p == step.p {
        HandlerWindsDown(s, step);
      }
    }
  }

  lemma HandlerWindsDown(s: System, step: Step)
    requires AllWoundDown(s) && Allowed(s, step) && step.Advance?
    ensures step.p in Next(s, step).pools
    ensures var pool := Next(s, step).pools[step.p];
            WoundDown(pool) && (pool.stopping ==> !pool.running)
  {
    var p, h := step.p, s.pools[step.p].handler;
    if h.Spawning? {
      SpawnWindsDown(s, p, step.newborn);
    } else if h.pins == {} {
      GivingWindsDown(s, p, "");
    } else {
      var pin: WorkerId :| pin in h.pins && Next(s, step) == GiveBack(s, p, pin);
      GivingWindsDown(s, p, pin);
    }
  }

  lemma SpawnWindsDown(s: System, p: PoolId, w: Option<WorkerId>)
    requires p in s.pools && s.pools[p].handler.Spawning? && WoundDown(s.pools[p])
    ensures var pool := Spawn(s, p, w).pools[p];
            WoundDown(pool) && pool.stopping == s.pools[p].stopping && pool.running == s.pools[p].running
  {
  }

  lemma GivingWindsDown(s: System, p: PoolId, w: WorkerId)
    requires p in s.pools && s.pools[p].handler.Releasing? && WoundDown(s.pools[p])
    requires s.pools[p].handler.pins != {} ==> w in s.pools[p].handler.pins
    ensures var pool := GiveBack(s, p, w).pools[p];
            WoundDown(pool) && pool.stopping == s.pools[p].stopping && pool.running == s.pools[p].running
  {
  }

  /** The forced stop that does harm is one that finds available workers. */
  ghost predicate HarmlessStop(s: System, step: Step) {
    step.ForceStop? && step.p in s.pools ==> s.pools[step.p].available == {}
  }

  lemma {:induction false} HarmlessRunHolds(states: seq<System>, steps: seq<Step>)
    requires Run(states, steps)
    requires forall i | 0 <= i < |steps| :: HarmlessStop(states[i], steps[i])
    ensures Conserved(states[|steps|]) && AllHeld(states[|steps|])
    decreases |steps|
  {
    BudgetsAreConserved(states, steps);
    var n := |steps| - 1;
    if n >= 0 {
      HarmlessRunHolds(states[..n + 1], steps[..n]);
      HeldKept(states[n], steps[n]);
    }
  }

  /**
    As long as every forced stop finds a pool without available workers, idle slots never outnumber
    connections.
  */
  lemma IdleNeverExceedsConnections(states: seq<System>, steps: seq<Step>)
    requires Run(states, steps)
    requires forall i | 0 <= i < |steps| :: HarmlessStop(states[i], steps[i])
    ensures states[|steps|].idleUsed <= states[|steps|].connUsed
  {
    HarmlessRunHolds(states, steps);
    IdleWithinConnections(states[|steps|]);
  }

  lemma {:induction false} OrderlyRunWindsDown(states: seq<System>, steps: seq<Step>)
    requires Run(states, steps)
    requires forall i | 0 <= i < |steps| :: Orderly(states[i], steps[i])
    ensures AllWoundDown(states[|steps|])
    decreases |steps|
  {
    var n := |steps| - 1;
    if n >= 0 {
      OrderlyRunWindsDown(states[..n + 1], steps[..n]);
      WoundDownKept(states[n], steps[n]);
    }
  }

  /** So it is when no pool is started again while it is being stopped. */
  lemma OrderlyStopsAreHarmless(states: seq<System>, steps: seq<Step>, i: nat)
    requires Run(states, steps) && i < |steps|
    requires forall j | 0 <= j < |steps| :: Orderly(states[j], steps[j])
    ensures HarmlessStop(states[i], steps[i])
  {
    OrderlyRunWindsDown(states[..i + 1], steps[..i]);
  }

  // ---------- A run in which they do ----------

  lemma Joined(a: seq<System>, before: seq<Step>, b: seq<System>, after: seq<Step>)
    returns (states: seq<System>, steps: seq<Step>)
    requires Chain(a, before) && Chain(b, after) && a[|before|] == b[0]
    ensures Chain(states, steps) && states[0] == a[0] && states[|steps|] == b[|after|]
    ensures states == a + b[1..] && steps == before + after
  {
    states, steps := a + b[1..], before + after;
    forall i | 0 <= i < |steps|
      ensures Allowed(states[i], steps[i]) && states[i + 1] == Next(states[i], steps[i])
    {
      if i >= |before| {
        assert states[i] == b[i - |before|] && states[i + 1] == b[i - |before| + 1];
        assert steps[i] == after[i - |before|];
      }
    }
  }

  lemma Then(a: seq<System>, before: seq<Step>, step: Step)
    returns (states: seq<System>, steps: seq<Step>)
    requires Chain(a, before) && Allowed(a[|before|], step)
    ensures Chain(states, steps) && states[0] == a[0]
    ensures states[|steps|] == Next(a[|before|], step)
  {
    var last := a[|before|];
    states, steps := Joined(a, before, [last, Next(last, step)], [step]);
  }

  /** A pool that is idle after `start`, with no minimum to fill. */
  lemma Starting(s: System, p: PoolId) returns (states: seq<System>, steps: seq<Step>)
    requires Allowed(s, Start(p)) && s.pools[p].minimum == 0
    ensures Chain(states, steps) && states[0] == s
    ensures states[|steps|] == Put(s, p, s.pools[p].(running := true))
  {
    states, steps := Then([s], [], Start(p));
    states, steps := Then(states, steps, Advance(p, None));
  }

  ghost predicate CanSpawn(s: System, p: PoolId, w: WorkerId) {
    && p in s.pools && s.pools[p].handler.Ready? && s.pools[p].running
    && s.pools[p].available == {} && s.pools[p].limit >= 1
    && s.connUsed < s.connMax && s.idleUsed < s.idleMax && w !in s.born
  }

  function Spawned(s: System, p: PoolId, w: WorkerId): System
    requires p in s.pools
  {
    var pool := s.pools[p];
    s.(idleUsed := s.idleUsed + 1, connUsed := s.connUsed + 1,
       pools := s.pools[p := pool.(sessions := pool.sessions + {w}, available := {w})],
       workers := s.workers[w := p], born := s.born[w := p])
  }

  /** The pool has acquired what one worker needs. */
  lemma Acquiring(s: System, p: PoolId, w: WorkerId) returns (states: seq<System>, steps: seq<Step>)
    requires CanSpawn(s, p, w)
    ensures Chain(states, steps) && states[0] == s
    ensures states[|steps|] == Put(s, p, s.pools[p].(handler := Spawning(1, Both)))
                               .(idleUsed := s.idleUsed + 1, connUsed := s.connUsed + 1)
  {
    states, steps := Then([s], [], Request(p, 1));
    states, steps := Then(states, steps, Advance(p, None));
    states, steps := Then(states, steps, Advance(p, None));
  }

  /** The server asks for one worker. */
  lemma SpawningOne(s: System, p: PoolId, w: WorkerId) returns (states: seq<System>, steps: seq<Step>)
    requires CanSpawn(s, p, w)
    ensures Chain(states, steps) && states[0] == s && states[|steps|] == Spawned(s, p, w)
  {
    states, steps := Acquiring(s, p, w);
    states, steps := Then(states, steps, Advance(p, Some(w)));
    states, steps := Then(states, steps, Advance(p, None));
    assert {} + {w} == {w};
    assert states[|steps|].pools[p] == Spawned(s, p, w).pools[p];
    assert states[|steps|].pools == Spawned(s, p, w).pools;
  }

  /** The only available worker is taken, and the pool has no minimum to fill up to. */
  lemma Consuming(s: System, p: PoolId, w: WorkerId) returns (states: seq<System>, steps: seq<Step>)
    requires Allowed(s, Consume(w)) && s.workers[w] == p && s.idleUsed > 0
    requires s.pools[p].available == {w} && s.pools[p].minimum == 0
    ensures Chain(states, steps) && states[0] == s
    ensures states[|steps|] == Put(s, p, s.pools[p].(available := {})).(idleUsed := s.idleUsed - 1)
  {
    states, steps := Then([s], [], Consume(w));
    assert states[|steps|].pools[p].handler.pins == {w};
    states, steps := Then(states, steps, Advance(p, None));
    assert states[|steps|].pools[p].handler == Releasing({}, Nothing, true);
    states, steps := Then(states, steps, Advance(p, None));
    states, steps := Then(states, steps, Advance(p, None));
    assert states[|steps|].pools == s.pools[p := s.pools[p].(available := {})];
  }

  /** A pool whose workers are all busy is stopped. */
  lemma Stopping(s: System, p: PoolId) returns (states: seq<System>, steps: seq<Step>)
    requires Allowed(s, StopFlag(p)) && s.pools[p].handler.Ready? && !s.pools[p].stopping
    requires s.pools[p].available == {} && s.pools[p].sessions != {}
    ensures Chain(states, steps) && states[0] == s
    ensures states[|steps|] == Put(s, p, s.pools[p].(running := false, armed := true))
  {
    states, steps := Then([s], [], StopFlag(p));
    states, steps := Then(states, steps, StopHandler(p));
    assert states[|steps|].pools[p].sessions == s.pools[p].sessions;
    states, steps := Then(states, steps, Advance(p, None));
    assert states[|steps|].pools == s.pools[p := s.pools[p].(running := false, armed := true)];
  }

  /** A worker that its pool does not count as available ends. */
  lemma Ending(s: System, p: PoolId, w: WorkerId) returns (states: seq<System>, steps: seq<Step>)
    requires Allowed(s, Complete(w)) && s.workers[w] == p && s.connUsed > 0
    requires w in s.pools[p].sessions ==> w !in s.pools[p].available && s.pools[p].running
    ensures Chain(states, steps) && states[0] == s
    ensures states[|steps|] == Put(s, p, s.pools[p].(sessions := s.pools[p].sessions - {w}))
                               .(done := s.done + {w}, workers := s.workers - {w},
                                 connUsed := s.connUsed - 1)
  {
    states, steps := Then([s], [], Complete(w));
    var pool := s.pools[p].(sessions := s.pools[p].sessions - {w});
    assert w !in s.pools[p].sessions ==> pool.sessions == s.pools[p].sessions;
    assert states[|steps|].pools[p] == pool;
    assert states[|steps|] == Put(s, p, pool).(done := s.done + {w});
    states, steps := Then(states, steps, Destroy(w));
  }

  /** One pool with no minimum, in which `v` is busy and a forced stop is pending. */
  lemma WindingDown(v: WorkerId) returns (states: seq<System>, steps: seq<Step>)
    ensures Run(states, steps)
    ensures states[|steps|] == System(0, 2, 1, 2, map[0 := Pool(0, 1, false, false, true, {v}, {}, Ready)],
                                      map[v := 0], {}, map[v := 0])
  {
    states, steps := Then([Empty(2, 2)], [], Create(0, 0, 1));
    var more, next := Starting(states[|steps|], 0);
    states, steps := Joined(states, steps, more, next);
    more, next := SpawningOne(states[|steps|], 0, v);
    states, steps := Joined(states, steps, more, next);
    more, next := Consuming(states[|steps|], 0, v);
    states, steps := Joined(states, steps, more, next);
    more, next := Stopping(states[|steps|], 0);
    states, steps := Joined(states, steps, more, next);
    assert states[0] == Empty(2, 2);
    var last := states[|steps|];
    assert last.pools[0].sessions == {v};
    assert last.pools == map[0 := Pool(0, 1, false, false, true, {v}, {}, Ready)];
    assert last.workers == map[v := 0] && last.born == map[v := 0];
  }

  /** A pool started again before its forced stop loses a worker but not the worker's idle slot. */
  lemma RestartBreaks(v: WorkerId, w: WorkerId) returns (states: seq<System>, steps: seq<Step>)
    requires v != w
    ensures Run(states, steps) && states[|steps|].idleUsed == 1 && states[|steps|].connUsed == 0
  {
    states, steps := WindingDown(v);
    var more, next := Starting(states[|steps|], 0);
    states, steps := Joined(states, steps, more, next);
    more, next := SpawningOne(states[|steps|], 0, w);
    states, steps := Joined(states, steps, more, next);
    more, next := Ending(states[|steps|], 0, v);
    states, steps := Joined(states, steps, more, next);
    states, steps := Then(states, steps, ForceStop(0));
    more, next := Ending(states[|steps|], 0, w);
    states, steps := Joined(states, steps, more, next);
  }

  // ---------- A forced stop that finds available workers can always do harm ----------

  /** Workers belong to pools, and one that has ended is no session of its pool. */
  ghost predicate Tracked(s: System) {
    && s.done <= s.born.Keys
    && forall w | w in s.workers :: WorkerTracked(s, w)
  }

  ghost predicate WorkerTracked(s: System, w: WorkerId)
    requires w in s.workers
  {
    && w in s.born && s.workers[w] in s.pools
    && (w in s.done ==> w !in s.pools[s.workers[w]].sessions)
  }

  lemma TrackedKept(s: System, step: Step)
    requires Conserved(s) && Tracked(s) && Allowed(s, step)
    ensures Tracked(Next(s, step))
  {
    var t := Next(s, step);
    if step.Advance? {
      AdvanceIs(s, step);
      AdvanceTracks(s, t, step.p, step.newborn);
    } else {
      forall w | w in t.workers
        ensures WorkerTracked(t, w)
      {
        assert WorkerTracked(s, w);
      }
    }
  }

  lemma AdvanceTracks(s: System, t: System, p: PoolId, newborn: Option<WorkerId>)
    requires Tracked(s) && p in s.pools && IsAdvance(s, t, p, newborn)
    requires newborn.Some? ==> newborn.value !in s.born
    ensures Tracked(t)
  {
    var h := s.pools[p].handler;
    if h.Spawning? && h.holds.Both? && newborn.Some? {
      BirthTracks(s, p, newborn.value);
    } else {
      if h.Spawning? {
        SpawnWinds(s, p, newborn);
      } else {
        var w: WorkerId :| (h.pins != {} ==> w in h.pins) && t == GiveBack(s, p, w);
        GivingWinds(s, p, w);
      }
      WindingTracks(s, t, p);
    }
  }

  lemma WindingTracks(s: System, t: System, p: PoolId)
    requires Tracked(s) && Winds(s, t, p)
    ensures Tracked(t)
  {
    forall w | w in t.workers
      ensures WorkerTracked(t, w)
    {
      assert WorkerTracked(s, w);
    }
  }

  lemma BirthTracks(s: System, p: PoolId, w: WorkerId)
    requires Tracked(s) && p in s.pools && s.pools[p].handler.Spawning? && w !in s.born
    ensures Tracked(Birth(s, p, w))
  {
    var t := Birth(s, p, w);
    forall v | v in t.workers
      ensures WorkerTracked(t, v)
    {
      if v != w {
        assert WorkerTracked(s, v);
      }
    }
  }

  lemma {:induction false} RunIsTracked(states: seq<System>, steps: seq<Step>)
    requires Run(states, steps)
    ensures Tracked(states[|steps|])
    decreases |steps|
  {
    var n := |steps| - 1;
    if n >= 0 {
      RunIsTracked(states[..n + 1], steps[..n]);
      BudgetsAreConserved(states[..n + 1], steps[..n]);
      TrackedKept(states[n], steps[n]);
    }
  }

  ghost predicate AllHarmless(states: seq<System>, steps: seq<Step>) {
    |states| == |steps| + 1 && forall i | 0 <= i < |steps| :: HarmlessStop(states[i], steps[i])
  }

  /** A chain without a harmful forced stop. */
  ghost predicate Path(s: System, t: System, states: seq<System>, steps: seq<Step>) {
    Chain(states, steps) && AllHarmless(states, steps) && states[0] == s && states[|steps|] == t
  }

  ghost predicate Leads(s: System, t: System) {
    exists states, steps :: Path(s, t, states, steps)
  }

  lemma Stays(s: System)
    ensures Leads(s, s)
  {
    assert Path(s, s, [s], []);
  }

  lemma LeadsOn(s: System, t: System, u: System)
    requires Leads(s, t) && Leads(t, u)
    ensures Leads(s, u)
  {
    var a, before :| Path(s, t, a, before);
    var b, after :| Path(t, u, b, after);
    var states, steps := Joined(a, before, b, after);
    HarmlessJoined(a, before, b, after);
    assert Path(s, u, states, steps);
  }

  lemma HarmlessJoined(a: seq<System>, before: seq<Step>, b: seq<System>, after: seq<Step>)
    requires AllHarmless(a, before) && AllHarmless(b, after) && a[|before|] == b[0]
    ensures AllHarmless(a + b[1..], before + after)
  {
    var states, steps := a + b[1..], before + after;
    forall i | 0 <= i < |steps|
      ensures HarmlessStop(states[i], steps[i])
    {
      if i >= |before| {
        assert states[i] == b[i - |before|] && steps[i] == after[i - |before|];
      }
    }
  }

  lemma OneStep(s: System, step: Step)
    requires Allowed(s, step) && HarmlessStop(s, step)
    ensures Leads(s, Next(s, step))
  {
    assert Path(s, Next(s, step), [s, Next(s, step)], [step]);
  }

  /** The handlers are done; nothing else but the budgets has changed. */
  ghost predicate Settled(s: System, t: System, ps: set<PoolId>) {
    && t == s.(idleUsed := t.idleUsed, connUsed := t.connUsed, pools := t.pools)
    && t.pools.Keys == s.pools.Keys
    && forall p | p in s.pools ::
         t.pools[p] == if p in ps then s.pools[p].(handler := Ready) else s.pools[p]
  }

  lemma {:induction false} SettleOne(s: System, p: PoolId) returns (t: System)
    requires p in s.pools
    ensures Leads(s, t) && Settled(s, t, {p})
    decreases Rank(s.pools[p].handler)
  {
    if s.pools[p].handler.Ready? {
      Stays(s);
      return s;
    }
    var step := Advance(p, None);
    var next := Next(s, step);
    OneStep(s, step);
    AdvanceWinds(s, step);
    t := SettleOne(next, p);
    LeadsOn(s, next, t);
  }

  lemma AdvanceWinds(s: System, step: Step)
    requires Allowed(s, step) && step.Advance? && step.newborn.None?
    ensures Winds(s, Next(s, step), step.p)
  {
    var p, h := step.p, s.pools[step.p].handler;
    AdvanceIs(s, step);
    if h.Spawning? {
      SpawnWinds(s, p, None);
    } else {
      var w: WorkerId :| (h.pins != {} ==> w in h.pins) && Next(s, step) == GiveBack(s, p, w);
      GivingWinds(s, p, w);
    }
  }

  lemma {:induction false} SettleSome(s: System, ps: set<PoolId>) returns (t: System)
    requires ps <= s.pools.Keys
    ensures Leads(s, t) && Settled(s, t, ps)
    decreases |ps|
  {
    if ps == {} {
      Stays(s);
      return s;
    }
    var p :| p in ps;
    var next := SettleOne(s, p);
    t := SettleSome(next, ps - {p});
    LeadsOn(s, next, t);
  }

  ghost predicate AtRest(s: System) {
    forall p | p in s.pools :: s.pools[p].handler.Ready?
  }

  /** A worker ends and is destroyed; a pool that has lost its sessions does not notice. */
  lemma DrainOne(s: System, w: WorkerId, p: PoolId) returns (t: System)
    requires AtRest(s) && Tracked(s) && w in s.workers && p in s.pools && s.pools[p].sessions == {}
    ensures Leads(s, t) && AtRest(t) && Tracked(t) && t.workers == s.workers - {w}
    ensures p in t.pools && t.pools[p] == s.pools[p]
  {
    var middle := EndOne(s, w, p);
    assert WorkerTracked(middle, w);
    OneStep(middle, Destroy(w));
    t := Next(middle, Destroy(w));
    LeadsOn(s, middle, t);
    forall v | v in t.workers
      ensures WorkerTracked(t, v)
    {
      assert WorkerTracked(middle, v);
    }
  }

  lemma EndOne(s: System, w: WorkerId, p: PoolId) returns (t: System)
    requires AtRest(s) && Tracked(s) && w in s.workers && p in s.pools && s.pools[p].sessions == {}
    ensures Leads(s, t) && AtRest(t) && Tracked(t) && t.workers == s.workers && w in t.done
    ensures p in t.pools && t.pools[p] == s.pools[p]
  {
    assert WorkerTracked(s, w);
    if w in s.done {
      Stays(s);
      return s;
    }
    var q := s.workers[w];
    OneStep(s, Complete(w));
    var next := Next(s, Complete(w));
    t := SettleOne(next, q);
    LeadsOn(s, next, t);
    forall v | v in t.workers
      ensures WorkerTracked(t, v)
    {
      assert WorkerTracked(s, v);
    }
  }

  lemma {:induction false} DrainAll(s: System, p: PoolId) returns (t: System)
    requires AtRest(s) && Tracked(s) && p in s.pools && s.pools[p].sessions == {}
    ensures Leads(s, t) && AtRest(t) && t.workers == map[]
    ensures p in t.pools && t.pools[p] == s.pools[p]
    decreases |s.workers|
  {
    if s.workers == map[] {
      Stays(s);
      return s;
    }
    var w :| w in s.workers;
    var next := DrainOne(s, w, p);
    assert |next.workers| < |s.workers| by {
      assert s.workers.Keys == next.workers.Keys + {w};
      assert |s.workers| == |s.workers.Keys| && |next.workers| == |next.workers.Keys|;
    }
    t := DrainAll(next, p);
    LeadsOn(s, next, t);
  }

  /** Without workers and handlers only idle slots can be in use. */
  lemma OnlyIdleIsLeft(s: System, p: PoolId)
    requires Conserved(s) && AtRest(s) && s.workers == map[]
    requires p in s.pools && s.pools[p].available != {}
    ensures s.idleUsed > s.connUsed
  {
    assert ConnectionSpawns(s.pools) == {};
    var w :| w in s.pools[p].available;
    assert PoolOk(s.pools[p], s.born, p);
    assert w in IdleWorkers(s.pools, s.born);
  }

  /** From any state of a run: after a forced stop that finds available workers all workers may end. */
  lemma ForcedStopCanBreak(states: seq<System>, steps: seq<Step>, p: PoolId) returns (t: System)
    requires Run(states, steps) && Allowed(states[|steps|], ForceStop(p))
    requires states[|steps|].pools[p].available != {}
    ensures Leads(Next(states[|steps|], ForceStop(p)), t) && t.idleUsed > t.connUsed
  {
    var stopped, all := Then(states, steps, ForceStop(p));
    var s := stopped[|all|];
    RunIsTracked(stopped, all);
    var still := SettleSome(s, s.pools.Keys);
    SettledIsTracked(s, still, s.pools.Keys);
    t := DrainAll(still, p);
    LeadsOn(s, still, t);
    var more, next :| Path(s, t, more, next);
    var run, taken := Joined(stopped, all, more, next);
    BudgetsAreConserved(run, taken);
    OnlyIdleIsLeft(t, p);
  }

  lemma SettledIsTracked(s: System, t: System, ps: set<PoolId>)
    requires Tracked(s) && Settled(s, t, ps)
    ensures Tracked(t)
  {
    forall w | w in t.workers
      ensures WorkerTracked(t, w)
    {
      assert WorkerTracked(s, w);
    }
  }

  /**
    A forced stop leaves idle slots within connections, whatever harmless steps follow, exactly when it
    finds no available workers.
  */
  lemma ForcedStopIsHarmlessIff(states: seq<System>, steps: seq<Step>, p: PoolId)
    requires Run(states, steps) && AllHarmless(states, steps)
    requires Allowed(states[|steps|], ForceStop(p))
    ensures (forall t: System | Leads(Next(states[|steps|], ForceStop(p)), t) :: t.idleUsed <= t.connUsed)
       <==> states[|steps|].pools[p].available == {}
  {
    if states[|steps|].pools[p].available != {} {
      var t := ForcedStopCanBreak(states, steps, p);
    } else {
      forall t: System | Leads(Next(states[|steps|], ForceStop(p)), t)
        ensures t.idleUsed <= t.connUsed
      {
        HarmlessAfterStop(states, steps, p, t);
      }
    }
  }

  lemma HarmlessAfterStop(states: seq<System>, steps: seq<Step>, p: PoolId, t: System)
    requires Run(states, steps) && AllHarmless(states, steps)
    requires Allowed(states[|steps|], ForceStop(p)) && states[|steps|].pools[p].available == {}
    requires Leads(Next(states[|steps|], ForceStop(p)), t)
    ensures t.idleUsed <= t.connUsed
  {
    var last, step := states[|steps|], ForceStop(p);
    OneStep(last, step);
    LeadsOn(last, Next(last, step), t);
    var more, next :| Path(last, t, more, next);
    var run, taken := Joined(states, steps, more, next);
    HarmlessJoined(states, steps, more, next);
    IdleNeverExceedsConnections(run, taken);
  }
}
