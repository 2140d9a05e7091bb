/**
  The generation and revision fence around stored tunnel state: the tunnel reconciler, the tunnel
  rows it writes, and the control operations that edit the same rows.
*/
module Fence {
  import opened Base
  import opened Responses
  import opened Trace

  type ServerId = string

  const LAST_GENERATION: u64 := 0xFFFF_FFFF_FFFF_FFFF
  const LAST_REVISION: u64 := 0x7FFF_FFFF_FFFF_FFFF

  /** A stored tunnel, as far as the fence looks at it. */
  datatype Row = Row(server: ServerId, revision: u64, desired: Desired, actual: Actual)

  /** `bumps` counts how often a server's generation was advanced since the daemon started. */
  datatype Fence = Fence(bumps: map<ServerId, nat>, rows: map<TunnelId, Row>)

  // ---------- Generations ----------

  /** The generation in force after `n` bumps; 0 stands for none. */
  function Generation(n: nat): u64 {
    if n == 0 then 0 else (n - 1) % LAST_GENERATION + 1
  }

  function NextGeneration(generation: u64): u64 {
    if generation == LAST_GENERATION then 1 else generation + 1
  }

  lemma NextIsNext(n: nat)
    ensures NextGeneration(Generation(n)) == Generation(n + 1)
    ensures Generation(n + 1) != 0
  {
    if n > 0 {
      var k, m := n - 1, LAST_GENERATION as int;
      assert k == m * (k / m) + k % m;
      if k % m == m - 1 {
        ModuloIs(k + 1, m, k / m + 1, 0);
      } else {
        ModuloIs(k + 1, m, k / m, k % m + 1);
      }
    }
  }

  lemma ModuloIs(x: int, m: int, q: int, r: int)
    requires m > 0 && 0 <= r < m && x == m * q + r
    ensures x % m == r
  {
    var d := x / m - q;
    assert m * d == r - x % m;
    MultipleIsLarge(m, d);
  }

  lemma MultipleIsLarge(m: int, d: int)
    requires m > 0
    ensures d == 0 || m * d >= m || m * d <= -m
  {
    if d >= 1 {
      assert m * d >= m;
    } else if d <= -1 {
      assert m * d <= -m;
    }
  }

  /** Two bumps issue the same token exactly when a whole cycle of 2^64 - 1 bumps lies between. */
  lemma SameTokenIff(m: nat, n: nat)
    requires 1 <= m <= n
    ensures Generation(m) == Generation(n) <==> (n - m) % LAST_GENERATION == 0
  {
    var c := LAST_GENERATION as int;
    var a, b := m - 1, n - 1;
    assert a == c * (a / c) + a % c && b == c * (b / c) + b % c;
    if a % c == b % c {
      assert n - m == c * (b / c - a / c);
      ModuloIs(n - m, c, b / c - a / c, 0);
    } else if (n - m) % c == 0 {
      assert n - m == c * ((n - m) / c);
      assert b == c * (a / c + (n - m) / c) + a % c;
      ModuloIs(b, c, a / c + (n - m) / c, a % c);
    }
  }

  predicate IsCurrent(f: Fence, server: ServerId, token: u64) {
    token != 0 && server in f.bumps && Generation(f.bumps[server]) == token
  }

  // ---------- What the reconciler does to the rows ----------

  function MarkedPending(rows: map<TunnelId, Row>, server: ServerId): map<TunnelId, Row> {
    map id | id in rows ::
      if rows[id].server == server && rows[id].desired.WantActive?
      then rows[id].(actual := Pending) else rows[id]
  }

  predicate Matches(row: Row, server: ServerId, revision: u64, state: Actual) {
    && row.server == server && row.revision == revision
    && (if state.Disabled? then row.desired.WantDisabled? else row.desired.WantActive?)
  }

  predicate Storable(revision: u64, state: Actual) {
    0 < revision <= LAST_REVISION && !state.Removing?
  }

  function Bumped(f: Fence, server: ServerId): Fence {
    f.(bumps := f.bumps[server := (if server in f.bumps then f.bumps[server] else 0) + 1])
  }

  /** `begin_generation` and `invalidate`; `stored` is whether the database took the update. */
  function Renewed(f: Fence, server: ServerId, stored: bool): Fence {
    var b := Bumped(f, server);
    if stored then b.(rows := MarkedPending(f.rows, server)) else b
  }

  function Ended(f: Fence, server: ServerId, token: u64, stored: bool): Fence {
    if IsCurrent(f, server, token) && stored
    then f.(rows := MarkedPending(f.rows, server)) else f
  }

  function Transitioned(
      f: Fence, server: ServerId, id: TunnelId, token: u64, revision: u64, state: Actual, stored: bool)
    : Fence
  {
    if IsCurrent(f, server, token) && Storable(revision, state) && stored
       && id in f.rows && Matches(f.rows[id], server, revision, state)
    then f.(rows := f.rows[id := f.rows[id].(actual := state)]) else f
  }

  class TunnelReconciler {
    var generations: map<ServerId, u64>
    var rows: map<TunnelId, Row>
    ghost var bumps: map<ServerId, nat>

    ghost predicate Valid()
      reads this
    {
      && generations.Keys == bumps.Keys
      && forall s | s in bumps :: bumps[s] > 0 && generations[s] == Generation(bumps[s])
    }

    ghost function View(): Fence
      reads this
    {
      Fence(bumps, rows)
    }

    constructor (stored: map<TunnelId, Row>)
      ensures Valid() && View() == Fence(map[], stored)
    {
      generations, rows, bumps := map[], stored, map[];
    }

    method AdvanceGeneration(server: ServerId) returns (generation: u64)
      requires Valid()
      modifies this`generations, this`bumps
      ensures Valid() && View() == Bumped(old(View()), server)
      ensures IsCurrent(View(), server, generation)
    {
      ghost var n := if server in bumps then bumps[server] else 0;
      NextIsNext(n);
      generation := if server in generations then generations[server] else 0;
      generation := if generation == LAST_GENERATION then 1 else generation + 1;
      generations := generations[server := generation];
      bumps := bumps[server := n + 1];
    }

    method BeginGeneration(server: ServerId, stored: bool) returns (r: Result<u64>)
      requires Valid()
      modifies this
      ensures Valid() && View() == Renewed(old(View()), server, stored)
      ensures r.Ok? == stored && (r.Ok? ==> IsCurrent(View(), server, r.value))
    {
      var generation := AdvanceGeneration(server);
      if !stored {
        return Err(DatabaseError);
      }
      rows := MarkedPending(rows, server);
      return Ok(generation);
    }

    method Invalidate(server: ServerId, stored: bool) returns (ok: bool)
      requires Valid()
      modifies this
      ensures Valid() && View() == Renewed(old(View()), server, stored) && ok == stored
    {
      var _ := AdvanceGeneration(server);
      if stored {
        rows := MarkedPending(rows, server);
      }
      return stored;
    }

    method EndGeneration(server: ServerId, generation: u64, stored: bool) returns (r: Result<()>)
      requires Valid()
      modifies this`rows
      ensures Valid() && View() == Ended(old(View()), server, generation, stored)
      ensures r.Ok? <==>
              generation != 0 && (stored || !IsCurrent(View(), server, generation))
    {
      if generation == 0 {
        return Err(InvalidArgument);
      }
      if server !in generations || generations[server] != generation {
        return Ok(());
      }
      if !stored {
        return Err(DatabaseError);
      }
      rows := MarkedPending(rows, server);
      return Ok(());
    }

    /** The answer says whether a row was written. */
    method Transition(
        server: ServerId, id: TunnelId, generation: u64, revision: u64, state: Actual, stored: bool)
      returns (r: Result<bool>)
      requires Valid()
      modifies this`rows
      ensures Valid()
      ensures View() == Transitioned(old(View()), server, id, generation, revision, state, stored)
      ensures r == Ok(true) <==>
                && IsCurrent(View(), server, generation) && Storable(revision, state) && stored
                && id in old(rows) && Matches(old(rows)[id], server, revision, state)
      ensures r.Err? <==>
                || generation == 0 || revision == 0
                || (IsCurrent(View(), server, generation) && !(Storable(revision, state) && stored))
    {
      if generation == 0 || revision == 0 {
        return Err(InvalidArgument);
      }
      if server !in generations || generations[server] != generation {
        return Ok(false);
      }
      if revision > LAST_REVISION || state.Removing? {
        return Err(InvalidArgument);
      }
      if !stored {
        return Err(DatabaseError);
      }
      if id !in rows || !Matches(rows[id], server, revision, state) {
        return Ok(false);
      }
      rows := rows[id := rows[id].(actual := state)];
      return Ok(true);
    }
  }

  // ---------- Edits of the rows ----------

  /** Tunnel operations of the control service, and the declarative update. */
  datatype Edit =
    | Added(id: TunnelId, server: ServerId)
    | Updated(id: TunnelId)
    | Enabled(id: TunnelId)
    | Disabled(id: TunnelId)
    | Removed(id: TunnelId)
    | ServerToggled(server: ServerId)
    | ServerRemoved(server: ServerId)
    | Erased(id: TunnelId)
    // `reset` is whether an endpoint, the protocol or the desired state changed.
    | Declared(id: TunnelId, desired: Desired, reset: bool)

  predicate Editable(rows: map<TunnelId, Row>, id: TunnelId) {
    id in rows && !rows[id].desired.WantRemoved? && rows[id].revision < LAST_REVISION
  }

  function Resting(desired: Desired): Actual {
    if desired.WantActive? then Actual.Pending else Actual.Disabled
  }

  function Reset(row: Row, desired: Desired): Row
    requires row.revision < LAST_REVISION
  {
    row.(desired := desired, actual := Resting(desired), revision := row.revision + 1)
  }

  function EditedRows(rows: map<TunnelId, Row>, e: Edit): map<TunnelId, Row> {
    match e
    case Added(id, server) => rows[id := Row(server, 1, WantActive, Pending)]
    case Updated(id) =>
      if Editable(rows, id) then rows[id := Reset(rows[id], rows[id].desired)] else rows
    case Enabled(id) =>
      if Editable(rows, id) && !rows[id].desired.WantActive?
      then rows[id := Reset(rows[id], WantActive)] else rows
    case Disabled(id) =>
      if Editable(rows, id) && !rows[id].desired.WantDisabled?
      then rows[id := Reset(rows[id], WantDisabled)] else rows
    case Removed(id) =>
      if id in rows && !rows[id].desired.WantRemoved? then rows - {id} else rows
    case ServerToggled(server) => MarkedPending(rows, server)
    case ServerRemoved(server) =>
      map id | id in rows ::
        if rows[id].server == server then rows[id].(desired := WantRemoved, actual := Removing)
        else rows[id]
    case Erased(id) =>
      if id in rows && rows[id].desired.WantRemoved? && rows[id].actual.Removing?
      then rows - {id} else rows
    case Declared(id, desired, reset) =>
      if !Editable(rows, id) then rows
      else if reset then rows[id := Reset(rows[id], desired)]
      else rows[id := rows[id].(revision := rows[id].revision + 1)]
  }

  // ---------- The whole system ----------

  /** One connection attempt of a session; `ledger` is what it exchanged with the server. */
  datatype Attempt = Attempt(server: ServerId, issued: nat, ledger: Ledger, running: bool)

  /** `seen` is the highest revision a tunnel id ever had. */
  datatype System = System(fence: Fence, attempts: map<nat, Attempt>, seen: map<TunnelId, u64>)

  datatype Step =
    | Begin(a: nat, server: ServerId, stored: bool)
    | Happen(a: nat, event: Event, stored: bool)
    | Finish(a: nat, stored: bool)
    | Supersede(server: ServerId, stored: bool)
    | Change(edit: Edit)

  /**
    What may happen next. An attempt asks only for revisions that were stored, and reports a tunnel
    as active only after it was accepted, which `Session` proves of it.
  */
  ghost predicate Allowed(s: System, step: Step) {
    match step
    case Begin(a, server, stored) => a !in s.attempts
    case Happen(a, e, stored) =>
      && a in s.attempts && s.attempts[a].running
      && HonestReport(s.attempts[a].ledger, e)
      && (e.SentRegister? ==> e.id in s.seen && e.revision <= s.seen[e.id])
    case Finish(a, stored) => a in s.attempts && s.attempts[a].running
    case Supersede(server, stored) => true
    case Change(e) =>
      && (e.Added? ==> e.id !in s.seen)
      && (e.Declared? ==> !e.desired.WantRemoved?)
      && (e.Declared? && !e.reset && e.id in s.fence.rows ==> e.desired == s.fence.rows[e.id].desired)
  }

  ghost function Reported(f: Fence, a: Attempt, e: Event, stored: bool): Fence {
    if e.Persisted?
    then Transitioned(f, a.server, e.id, Generation(a.issued), e.revision, e.actual, stored) else f
  }

  ghost function Next(s: System, step: Step): System
    requires Allowed(s, step)
  {
    match step
    case Begin(a, server, stored) =>
      var f := Renewed(s.fence, server, stored);
      s.(fence := f, attempts := s.attempts[a := Attempt(server, f.bumps[server], BLANK, stored)])
    case Happen(a, e, stored) =>
      var attempt := s.attempts[a];
      s.(fence := Reported(s.fence, attempt, e, stored),
         attempts := s.attempts[a := attempt.(ledger := Note(attempt.ledger, e))])
    case Finish(a, stored) =>
      var attempt := s.attempts[a];
      s.(fence := Ended(s.fence, attempt.server, Generation(attempt.issued), stored),
         attempts := s.attempts[a := attempt.(running := false)])
    case Supersede(server, stored) => s.(fence := Renewed(s.fence, server, stored))
    case Change(e) =>
      var rows := EditedRows(s.fence.rows, e);
      s.(fence := s.fence.(rows := rows), seen := Seen(s.seen, rows))
  }

  ghost function Seen(seen: map<TunnelId, u64>, rows: map<TunnelId, Row>): map<TunnelId, u64> {
    map id | id in seen.Keys + rows.Keys :: if id in rows then rows[id].revision else seen[id]
  }

  // ---------- What every run keeps ----------

  /** Some running attempt of the current generation was accepted by the server with the pair. */
  ghost predicate Vouched(s: System, server: ServerId, id: TunnelId, revision: u64)
    requires server in s.fence.bumps
  {
    exists a | a in s.attempts :: Vouches(s.attempts[a], s.fence.bumps[server], server, id, revision)
  }

  ghost predicate Vouches(a: Attempt, current: nat, server: ServerId, id: TunnelId, revision: u64) {
    a.running && a.server == server && a.issued == current && Accepted(a.ledger, id, revision)
  }

  /** A tunnel stored as active was accepted at that revision in the current generation. */
  ghost predicate ActiveIsAccepted(s: System) {
    forall id | id in s.fence.rows && s.fence.rows[id].actual.Active?
                && s.fence.rows[id].server in s.fence.bumps ::
      Vouched(s, s.fence.rows[id].server, id, s.fence.rows[id].revision)
  }

  ghost predicate Tidy(s: System) {
    && RowsTidy(s.fence.rows, s.seen)
    && (forall a | a in s.attempts :: AttemptTidy(s.attempts[a], s.fence.bumps, s.seen))
  }

  ghost predicate AttemptTidy(a: Attempt, bumps: map<ServerId, nat>, seen: map<TunnelId, u64>) {
    && a.server in bumps && 1 <= a.issued <= bumps[a.server]
    && (forall q | q in a.ledger.asked :: q.1 in seen && q.2 <= seen[q.1])
  }

  /** Rows may be stored already when the daemon starts; no attempt was made yet. */
  ghost predicate Initial(s: System) {
    s.fence.bumps == map[] && s.attempts == map[] && Tidy(s)
  }

  /** The database took every write, and no declarative update kept an old state. */
  predicate Smooth(step: Step) {
    match step
    case Begin(a, server, stored) => stored
    case Happen(a, e, stored) => true
    case Finish(a, stored) => stored
    case Supersede(server, stored) => stored
    case Change(e) => e.Declared? ==> e.reset
  }

  /** No generation has come round again. */
  ghost predicate NoWrap(s: System) {
    forall server | server in s.fence.bumps :: s.fence.bumps[server] <= LAST_GENERATION
  }

  ghost predicate Run(states: seq<System>, steps: seq<Step>) {
    && |states| == |steps| + 1 && Initial(states[0])
    && forall i | 0 <= i < |steps| ::
         Allowed(states[i], steps[i]) && states[i + 1] == Next(states[i], steps[i])
  }

  lemma BumpsGrow(s: System, step: Step)
    requires Allowed(s, step) && NoWrap(Next(s, step))
    ensures NoWrap(s)
  {
    var t := Next(s, step);
    forall server | server in s.fence.bumps
      ensures s.fence.bumps[server] <= LAST_GENERATION
    {
      assert t.fence.bumps[server] >= s.fence.bumps[server];
    }
  }

  ghost predicate RowsTidy(rows: map<TunnelId, Row>, seen: map<TunnelId, u64>) {
    forall id | id in rows ::
      && id in seen && seen[id] == rows[id].revision
      && (rows[id].actual.Active? ==> rows[id].desired.WantActive?)
  }

  /** Revisions never go down. */
  ghost predicate SeenGrows(seen: map<TunnelId, u64>, after: map<TunnelId, u64>) {
    forall id | id in seen :: id in after && seen[id] <= after[id]
  }

  lemma EditIsTidy(s: System, e: Edit)
    requires RowsTidy(s.fence.rows, s.seen) && Allowed(s, Change(e))
    ensures RowsTidy(EditedRows(s.fence.rows, e), Seen(s.seen, EditedRows(s.fence.rows, e)))
    ensures SeenGrows(s.seen, Seen(s.seen, EditedRows(s.fence.rows, e)))
  {
  }

  lemma TidyKept(s: System, step: Step)
    requires Tidy(s) && Allowed(s, step)
    ensures Tidy(Next(s, step))
  {
    var t := Next(s, step);
    if step.Change? {
      EditIsTidy(s, step.edit);
    }
    assert RowsTidy(t.fence.rows, t.seen) && SeenGrows(s.seen, t.seen);
    forall a | a in t.attempts
      ensures AttemptTidy(t.attempts[a], t.fence.bumps, t.seen)
    {
      if a in s.attempts {
        assert AttemptTidy(s.attempts[a], s.fence.bumps, s.seen);
        assert t.attempts[a].ledger == s.attempts[a].ledger
            || t.attempts[a].ledger == Note(s.attempts[a].ledger, step.event);
      }
    }
  }

  /** The part of the fence theorem that is about one token. */
  lemma TokenIsFresh(f: Fence, server: ServerId, issued: nat)
    requires server in f.bumps && 1 <= issued <= f.bumps[server] <= LAST_GENERATION
    requires IsCurrent(f, server, Generation(issued))
    ensures issued == f.bumps[server]
  {
  }

  lemma VouchedKept(s: System, t: System, server: ServerId, id: TunnelId, revision: u64)
    requires server in s.fence.bumps && server in t.fence.bumps
    requires t.fence.bumps[server] == s.fence.bumps[server]
    requires forall a | a in s.attempts && s.attempts[a].server == server
                        && s.attempts[a].issued == s.fence.bumps[server] ::
               && a in t.attempts && t.attempts[a].issued == s.attempts[a].issued
               && t.attempts[a].server == server && t.attempts[a].running == s.attempts[a].running
               && Knows(s.attempts[a].ledger, t.attempts[a].ledger)
    requires Vouched(s, server, id, revision)
    ensures Vouched(t, server, id, revision)
  {
    var a :| a in s.attempts && Vouches(s.attempts[a], s.fence.bumps[server], server, id, revision);
    KnowsKeeps(s.attempts[a].ledger, t.attempts[a].ledger);
    assert Vouches(t.attempts[a], t.fence.bumps[server], server, id, revision);
  }

  lemma RenewKeeps(s: System, step: Step)
    requires Tidy(s) && Allowed(s, step) && (step.Begin? || step.Supersede?) && step.stored
    requires ActiveIsAccepted(s)
    ensures ActiveIsAccepted(Next(s, step))
  {
    var t := Next(s, step);
    forall id | id in t.fence.rows && t.fence.rows[id].actual.Active?
                && t.fence.rows[id].server in t.fence.bumps
      ensures Vouched(t, t.fence.rows[id].server, id, t.fence.rows[id].revision)
    {
      VouchedKept(s, t, t.fence.rows[id].server, id, t.fence.rows[id].revision);
    }
  }

  lemma HappenKeeps(s: System, step: Step)
    requires Tidy(s) && NoWrap(s) && Allowed(s, step) && step.Happen?
    requires ActiveIsAccepted(s)
    ensures ActiveIsAccepted(Next(s, step))
  {
    var t := Next(s, step);
    var attempt, e := s.attempts[step.a], step.event;
    assert Knows(attempt.ledger, Note(attempt.ledger, e));
    forall id | id in t.fence.rows && t.fence.rows[id].actual.Active?
                && t.fence.rows[id].server in t.fence.bumps
      ensures Vouched(t, t.fence.rows[id].server, id, t.fence.rows[id].revision)
    {
      if s.fence.rows[id].actual.Active? {
        VouchedKept(s, t, t.fence.rows[id].server, id, t.fence.rows[id].revision);
      } else {
        assert AttemptTidy(attempt, s.fence.bumps, s.seen);
        TokenIsFresh(s.fence, attempt.server, attempt.issued);
        KnowsKeeps(attempt.ledger, Note(attempt.ledger, e));
        assert Vouches(t.attempts[step.a], t.fence.bumps[attempt.server], attempt.server, id,
                       e.revision);
      }
    }
  }

  lemma FinishKeeps(s: System, step: Step)
    requires Tidy(s) && Allowed(s, step) && step.Finish? && step.stored
    requires ActiveIsAccepted(s)
    ensures ActiveIsAccepted(Next(s, step))
  {
    var t := Next(s, step);
    var attempt := s.attempts[step.a];
    assert AttemptTidy(attempt, s.fence.bumps, s.seen);
    forall id | id in t.fence.rows && t.fence.rows[id].actual.Active?
                && t.fence.rows[id].server in t.fence.bumps
      ensures Vouched(t, t.fence.rows[id].server, id, t.fence.rows[id].revision)
    {
      var server, revision := t.fence.rows[id].server, t.fence.rows[id].revision;
      var a :| a in s.attempts && Vouches(s.attempts[a], s.fence.bumps[server], server, id, revision);
      assert a != step.a;
      assert Vouches(t.attempts[a], t.fence.bumps[server], server, id, revision);
    }
  }

  lemma ChangeKeeps(s: System, step: Step)
    requires Tidy(s) && Allowed(s, step) && step.Change? && Smooth(step)
    requires ActiveIsAccepted(s)
    ensures ActiveIsAccepted(Next(s, step))
  {
    var t := Next(s, step);
    forall id | id in t.fence.rows && t.fence.rows[id].actual.Active?
                && t.fence.rows[id].server in t.fence.bumps
      ensures Vouched(t, t.fence.rows[id].server, id, t.fence.rows[id].revision)
    {
      assert t.fence.rows[id] == s.fence.rows[id];
      VouchedKept(s, t, t.fence.rows[id].server, id, t.fence.rows[id].revision);
    }
  }

  /** Over every run: what is stored as active was accepted in the current generation. */
  lemma {:induction false} StoredActiveWasAccepted(states: seq<System>, steps: seq<Step>)
    requires Run(states, steps)
    requires forall i | 0 <= i < |steps| :: Smooth(steps[i])
    requires NoWrap(states[|steps|])
    ensures Tidy(states[|steps|]) && ActiveIsAccepted(states[|steps|])
    decreases |steps|
  {
    var n := |steps| - 1;
    if n >= 0 {
      var s, step := states[n], steps[n];
      BumpsGrow(s, step);
      StoredActiveWasAccepted(states[..n + 1], steps[..n]);
      TidyKept(s, step);
      match step
      case Begin(_, _, _) => RenewKeeps(s, step);
      case Supersede(_, _) => RenewKeeps(s, step);
      case Happen(_, _, _) => HappenKeeps(s, step);
      case Finish(_, _) => FinishKeeps(s, step);
      case Change(_) => ChangeKeeps(s, step);
    }
  }

  lemma {:induction false} RunIsTidy(states: seq<System>, steps: seq<Step>)
    requires Run(states, steps)
    ensures Tidy(states[|steps|])
    decreases |steps|
  {
    var n := |steps| - 1;
    if n >= 0 {
      RunIsTidy(states[..n + 1], steps[..n]);
      TidyKept(states[n], steps[n]);
    }
  }

  /**
    Over every run, whatever the database does: an attempt whose token was issued before the last
    bump of its server changes no stored row, unless a multiple of 2^64 - 1 bumps lies between.
  */
  lemma StaleAttemptIsInert(states: seq<System>, steps: seq<Step>, step: Step)
    requires Run(states, steps) && Allowed(states[|steps|], step)
    requires step.Happen? || step.Finish?
    ensures var s := states[|steps|];
            var attempt := s.attempts[step.a];
            && attempt.server in s.fence.bumps && attempt.issued <= s.fence.bumps[attempt.server]
            && ((s.fence.bumps[attempt.server] - attempt.issued) % LAST_GENERATION != 0 ==>
                  Next(s, step).fence == s.fence)
  {
    RunIsTidy(states, steps);
    var s := states[|steps|];
    var attempt := s.attempts[step.a];
    assert AttemptTidy(attempt, s.fence.bumps, s.seen);
    SameTokenIff(attempt.issued, s.fence.bumps[attempt.server]);
  }

  /** With fewer bumps than generations, only the newest token ever writes. */
  lemma OnlyNewestTokenWrites(states: seq<System>, steps: seq<Step>, step: Step)
    requires Run(states, steps) && Allowed(states[|steps|], step) && NoWrap(states[|steps|])
    requires step.Happen? || step.Finish?
    requires Next(states[|steps|], step).fence != states[|steps|].fence
    ensures var s := states[|steps|];
            var attempt := s.attempts[step.a];
            attempt.server in s.fence.bumps && attempt.issued == s.fence.bumps[attempt.server]
  {
    RunIsTidy(states, steps);
    var s := states[|steps|];
    var attempt := s.attempts[step.a];
    assert AttemptTidy(attempt, s.fence.bumps, s.seen);
    SameTokenIff(attempt.issued, s.fence.bumps[attempt.server]);
  }

  // ---------- Exactly when the claim survives a step that is not smooth ----------

  /**
    A declarative update that leaves endpoints, protocol and desired state alone raises the
    revision without resetting the state.
  */
  lemma DeclaredKeepsIff(s: System, e: Edit)
    requires Tidy(s) && ActiveIsAccepted(s) && Allowed(s, Change(e))
    requires e.Declared? && Editable(s.fence.rows, e.id)
    ensures ActiveIsAccepted(Next(s, Change(e))) <==>
            || e.reset
            || !s.fence.rows[e.id].actual.Active?
            || s.fence.rows[e.id].server !in s.fence.bumps
  {
    var t, row := Next(s, Change(e)), s.fence.rows[e.id];
    if e.reset {
      ChangeKeeps(s, Change(e));
    } else if !row.actual.Active? || row.server !in s.fence.bumps {
      forall id | id in t.fence.rows && t.fence.rows[id].actual.Active?
                  && t.fence.rows[id].server in t.fence.bumps
        ensures Vouched(t, t.fence.rows[id].server, id, t.fence.rows[id].revision)
      {
        assert t.fence.rows[id] == s.fence.rows[id];
        VouchedKept(s, t, t.fence.rows[id].server, id, t.fence.rows[id].revision);
      }
    } else {
      NeverAsked(s, t, row.server, e.id, row.revision + 1);
      assert t.fence.rows[e.id].actual.Active? && t.fence.rows[e.id].revision == row.revision + 1;
    }
  }

  lemma NeverAsked(s: System, t: System, server: ServerId, id: TunnelId, revision: u64)
    requires Tidy(s) && t.attempts == s.attempts && server in t.fence.bumps
    requires id in s.seen && s.seen[id] < revision
    ensures !Vouched(t, server, id, revision)
  {
    forall a | a in t.attempts
      ensures !Vouches(t.attempts[a], t.fence.bumps[server], server, id, revision)
    {
      assert AttemptTidy(s.attempts[a], s.fence.bumps, s.seen);
    }
  }

  lemma Then(before: seq<System>, steps: seq<Step>, step: Step)
    returns (states: seq<System>, all: seq<Step>)
    requires Run(before, steps) && Allowed(before[|steps|], step)
    ensures Run(states, all) && all == steps + [step]
    ensures states[|all|] == Next(before[|steps|], step)
  {
    states, all := before + [Next(before[|steps|], step)], steps + [step];
  }

  /** One tunnel, at revision 1, and one attempt in the first generation of its server. */
  ghost function OneTunnel(server: ServerId, id: TunnelId, actual: Actual, ledger: Ledger): System {
    System(Fence(map[server := 1], map[id := Row(server, 1, WantActive, actual)]),
           map[0 := Attempt(server, 1, ledger, true)], map[id := 1])
  }

  ghost predicate SmoothRun(states: seq<System>, steps: seq<Step>) {
    Run(states, steps) && forall i | 0 <= i < |steps| :: Smooth(steps[i])
  }

  lemma Attempted(server: ServerId, id: TunnelId) returns (states: seq<System>, steps: seq<Step>)
    ensures SmoothRun(states, steps)
    ensures states[|steps|] == OneTunnel(server, id, Pending, BLANK)
  {
    states, steps := [System(Fence(map[], map[]), map[], map[])], [];
    states, steps := Then(states, steps, Change(Added(id, server)));
    assert states[|steps|].seen == map[id := 1];
    states, steps := Then(states, steps, Begin(0, server, true));
    assert states[|steps|].fence.rows == map[id := Row(server, 1, WantActive, Pending)];
  }

  lemma Asked(server: ServerId, id: TunnelId, b: Binding)
    returns (states: seq<System>, steps: seq<Step>, ledger: Ledger)
    ensures SmoothRun(states, steps) && Accepted(ledger, id, 1)
    ensures states[|steps|] == OneTunnel(server, id, Pending, ledger)
  {
    states, steps := Attempted(server, id);
    var ask, answer := SentRegister(7, id, 1, b), Received(OkFrame(7, id, 1));
    states, steps := Then(states, steps, Happen(0, ask, true));
    assert states[|steps|] == OneTunnel(server, id, Pending, Note(BLANK, ask));
    states, steps := Then(states, steps, Happen(0, answer, true));
    ledger := Note(Note(BLANK, ask), answer);
    assert states[|steps|] == OneTunnel(server, id, Pending, ledger);
    assert (7, id, 1) in ledger.asked && OkFrame(7, id, 1) in ledger.heard;
  }

  /** A tunnel is added, registered by the server and reported as active. */
  lemma BecomesActive(server: ServerId, id: TunnelId, b: Binding)
    returns (states: seq<System>, steps: seq<Step>)
    ensures SmoothRun(states, steps) && NoWrap(states[|steps|])
    ensures var f := states[|steps|].fence;
            f.bumps == map[server := 1] && f.rows == map[id := Row(server, 1, WantActive, Active)]
  {
    var ledger;
    states, steps, ledger := Asked(server, id, b);
    states, steps := Then(states, steps, Happen(0, Persisted(id, 1, Active), true));
  }

  /** A run in which renaming an active tunnel leaves it active at a revision no server accepted. */
  lemma NameOnlyUpdateBreaks(server: ServerId, id: TunnelId, b: Binding)
    returns (states: seq<System>, steps: seq<Step>)
    ensures Run(states, steps) && !ActiveIsAccepted(states[|steps|])
  {
    states, steps := BecomesActive(server, id, b);
    StoredActiveWasAccepted(states, steps);
    var e := Declared(id, WantActive, false);
    DeclaredKeepsIff(states[|steps|], e);
    states, steps := Then(states, steps, Change(e));
  }

  /** A run in which the reset that comes with a new generation is refused. */
  lemma FailedRenewalBreaks(server: ServerId, id: TunnelId, b: Binding)
    returns (states: seq<System>, steps: seq<Step>)
    ensures Run(states, steps) && !ActiveIsAccepted(states[|steps|])
  {
    states, steps := BecomesActive(server, id, b);
    StoredActiveWasAccepted(states, steps);
    assert id in states[|steps|].fence.rows && states[|steps|].fence.rows[id].actual.Active?;
    FailedRenewalKeepsIff(states[|steps|], Supersede(server, false));
    states, steps := Then(states, steps, Supersede(server, false));
  }

  /** When the database refuses the reset that comes with a new generation. */
  lemma FailedRenewalKeepsIff(s: System, step: Step)
    requires Tidy(s) && ActiveIsAccepted(s) && Allowed(s, step)
    requires (step.Begin? || step.Supersede?) && !step.stored
    ensures ActiveIsAccepted(Next(s, step)) <==>
            forall id | id in s.fence.rows && s.fence.rows[id].server == step.server ::
              !s.fence.rows[id].actual.Active?
  {
    var t := Next(s, step);
    forall id | id in t.fence.rows && t.fence.rows[id].actual.Active?
                && t.fence.rows[id].server in t.fence.bumps
      ensures Vouched(t, t.fence.rows[id].server, id, t.fence.rows[id].revision)
              <==> t.fence.rows[id].server != step.server
    {
      var server, revision := t.fence.rows[id].server, t.fence.rows[id].revision;
      if server != step.server {
        VouchedKept(s, t, server, id, revision);
      } else {
        forall a | a in t.attempts
          ensures !Vouches(t.attempts[a], t.fence.bumps[server], server, id, revision)
        {
          if a in s.attempts {
            assert AttemptTidy(s.attempts[a], s.fence.bumps, s.seen);
          }
        }
      }
    }
  }
}
