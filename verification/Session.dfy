/**
  A server session reconciling its tunnels: `reconcile_tunnels` of the server manager.

  The server is arbitrary: `input` is whatever it sends. Writes and storage calls succeed or fail
  as `outcomes` says, and `loads` is what storage answers to a look-up; the first failure ends
  the cycle, as in the source.
*/
module Session {
  import opened Base
  import opened Responses
  import opened Trace

  /** A row of the snapshot a cycle works on. */
  datatype Tunnel = Tunnel(
    id: TunnelId, revision: u64, desired: Desired, actual: Actual, lastError: Option<ErrorCode>,
    mode: Mode, local: Endpoint, remote: Endpoint, proxy: bool)

  datatype Registered = Registered(revision: u64, remote: Endpoint)

  datatype LocalTarget = LocalTarget(endpoint: Endpoint, proxy: bool)

  datatype Stored = Stored(desired: Desired, revision: u64)

  function BindingOf(t: Tunnel): Binding {
    Binding(t.mode, t.remote)
  }

  function TargetOf(t: Tunnel): LocalTarget {
    LocalTarget(t.local, t.proxy)
  }

  /** The tunnels a snapshot wants active, by id. */
  function Wanted(snapshot: seq<Tunnel>): map<TunnelId, Tunnel> {
    if |snapshot| == 0 then map[]
    else
      var t := snapshot[|snapshot| - 1];
      var earlier := Wanted(snapshot[..|snapshot| - 1]);
      if t.desired.WantActive? then earlier[t.id := t] else earlier
  }

  ghost predicate UniqueIds(snapshot: seq<Tunnel>) {
    forall i, j | 0 <= i < j < |snapshot| :: snapshot[i].id != snapshot[j].id
  }

  lemma {:induction false} WantedIs(snapshot: seq<Tunnel>)
    requires UniqueIds(snapshot)
    ensures forall t | t in snapshot && t.desired.WantActive? ::
              t.id in Wanted(snapshot) && Wanted(snapshot)[t.id] == t
    ensures forall id | id in Wanted(snapshot) ::
              && Wanted(snapshot)[id] in snapshot
              && Wanted(snapshot)[id].id == id
              && Wanted(snapshot)[id].desired.WantActive?
  {
    if |snapshot| > 0 {
      var n := |snapshot| - 1;
      WantedIs(snapshot[..n]);
      assert snapshot == snapshot[..n] + [snapshot[n]];
      forall t | t in snapshot[..n]
        ensures t.id != snapshot[n].id
      {
        var i :| 0 <= i < n && snapshot[i] == t;
      }
    }
  }

  /** A registration the snapshot no longer asks for, or asks for at another revision. */
  predicate IsStale(id: TunnelId, r: Registered, wanted: map<TunnelId, Tunnel>) {
    id !in wanted || wanted[id].revision != r.revision
  }

  ghost predicate DistinctBindings(wanted: map<TunnelId, Tunnel>) {
    forall a, b | a in wanted && b in wanted && a != b ::
      BindingOf(wanted[a]) != BindingOf(wanted[b])
  }

  /**
    What storage promises about the snapshot and the listeners held so far: no two wanted tunnels
    share a binding, and a revision stands for one binding.
  */
  ghost predicate BindingsAgree(
      registered: map<TunnelId, Registered>, holds: map<TunnelId, Binding>,
      wanted: map<TunnelId, Tunnel>) {
    && DistinctBindings(wanted)
    && (forall id | id in registered && id in holds && !IsStale(id, registered[id], wanted) ::
          holds[id] == BindingOf(wanted[id]))
  }

  /** Only wanted listeners are held, each at the wanted binding. */
  ghost predicate HoldsWanted(holds: map<TunnelId, Binding>, wanted: map<TunnelId, Tunnel>) {
    forall id | id in holds :: id in wanted && holds[id] == BindingOf(wanted[id])
  }

  /** What one successful cycle over `wanted` leaves behind; `l` is the ledger at its end. */
  ghost predicate CycleOutcome(
      before: map<TunnelId, Registered>, wanted: map<TunnelId, Tunnel>, supported: set<Mode>,
      after: map<TunnelId, Registered>, targets: map<TunnelId, LocalTarget>, l: Ledger) {
    && Settled(wanted, supported, after, targets, l)
    && l.unregisters == StaleIds(before, wanted)
    && l.registers == MissingIds(before, wanted, supported)
  }

  /**
    Everything registered is wanted at its registered revision and relays to the wanted target;
    everything wanted is registered, or the server refused it, or its mode was not negotiated.
  */
  ghost predicate Settled(
      wanted: map<TunnelId, Tunnel>, supported: set<Mode>,
      after: map<TunnelId, Registered>, targets: map<TunnelId, LocalTarget>, l: Ledger) {
    && targets.Keys == after.Keys
    && (forall id | id in after ::
          && id in wanted && after[id].revision == wanted[id].revision
          && targets[id] == TargetOf(wanted[id]))
    && (forall id | id in wanted ::
          || id in after
          || wanted[id].mode !in supported
          || Rejected(l, id, wanted[id].revision))
  }

  ghost function StaleIds(before: map<TunnelId, Registered>, wanted: map<TunnelId, Tunnel>)
    : set<TunnelId>
  {
    set id | id in before && IsStale(id, before[id], wanted)
  }

  ghost function MissingIds(
      before: map<TunnelId, Registered>, wanted: map<TunnelId, Tunnel>, supported: set<Mode>)
    : set<TunnelId>
  {
    set id | id in wanted && wanted[id].mode in supported
             && (id in before ==> IsStale(id, before[id], wanted))
  }

  /** A second cycle over the same snapshot removes nothing and retries the refused tunnels only. */
  lemma SecondCycleRetriesRefused(
      before: map<TunnelId, Registered>, wanted: map<TunnelId, Tunnel>, supported: set<Mode>,
      middle: map<TunnelId, Registered>, targets: map<TunnelId, LocalTarget>, l: Ledger,
      after: map<TunnelId, Registered>, targets2: map<TunnelId, LocalTarget>, l2: Ledger)
    requires CycleOutcome(before, wanted, supported, middle, targets, l)
    requires CycleOutcome(middle, wanted, supported, after, targets2, l2)
    ensures l2.unregisters == {}
    ensures forall id | id in l2.registers ::
              id in wanted && id !in middle && Rejected(l, id, wanted[id].revision)
  {
    assert StaleIds(middle, wanted) == {};
  }

  /** Each registration rests on a sent REGISTER and a matching OK. */
  ghost predicate Backed(registered: map<TunnelId, Registered>, l: Ledger) {
    forall id {:trigger Accepted(l, id, registered[id].revision)} | id in registered ::
      Accepted(l, id, registered[id].revision)
  }

  predicate Is<T(==)>(a: T, b: T) {
    a == b
  }

  predicate At(j: nat, k: nat) {
    j == k
  }

  /**
    Ledger and desk are those of the trace, and no rule was broken; the one about collisions is kept
    as long as storage keeps its promise. Said of whatever equals the trace, so that only the methods
    that log look into it.
  */
  ghost predicate Recorded(trace: seq<Event>, l: Ledger, d: Desk, fair: bool) {
    forall t: seq<Event> {:trigger Is(t, trace)} | Is(t, trace) :: FaithfulRecord(t, l, d, fair)
  }

  ghost predicate FaithfulRecord(trace: seq<Event>, l: Ledger, d: Desk, fair: bool) {
    && l == LedgerOf(trace) && d == DeskOf(trace)
    && !l.misreported && !l.unordered && !d.mistaken && (fair ==> !l.collided)
  }

  lemma Recording(trace: seq<Event>, l: Ledger, d: Desk, fair: bool)
    ensures Recorded(trace, l, d, fair) <==> FaithfulRecord(trace, l, d, fair)
  {
    assert Is(trace, trace);
  }

  /** What the tables of a session have to do with each other and with the past; `filed` is the desk's. */
  ghost predicate Kept(
      registered: map<TunnelId, Registered>, buffer: Buffer, l: Ledger, filed: Buffer) {
    forall r: map<TunnelId, Registered> {:trigger Is(r, registered)} | Is(r, registered) ::
      TablesAgree(r, buffer, l, filed)
  }

  ghost predicate TablesAgree(
      registered: map<TunnelId, Registered>, buffer: Buffer, l: Ledger, filed: Buffer) {
    && BufferKeyed(buffer) && |buffer| <= SYNC_WINDOW
    && FromServer(buffer, l) && buffer == filed
    && Backed(registered, l) && RemotesHeld(registered, l)
  }

  /** What is registered is registered at the endpoint the server was asked for. */
  ghost predicate RemotesHeld(registered: map<TunnelId, Registered>, l: Ledger) {
    forall id | id in registered && id in l.holds :: l.holds[id].remote == registered[id].remote
  }

  /** No listener of a registered tunnel has changed. */
  ghost predicate HoldsStay(registered: map<TunnelId, Registered>, l: Ledger, m: Ledger) {
    forall id | id in registered && id in m.holds :: id in l.holds && m.holds[id] == l.holds[id]
  }

  lemma Keeping(registered: map<TunnelId, Registered>, buffer: Buffer, l: Ledger, filed: Buffer)
    ensures Kept(registered, buffer, l, filed) <==> TablesAgree(registered, buffer, l, filed)
  {
    assert Is(registered, registered);
  }

  lemma KeptGrows(
      registered: map<TunnelId, Registered>, buffer: Buffer, l: Ledger, m: Ledger, filed: Buffer)
    requires Kept(registered, buffer, l, filed) && Knows(l, m) && HoldsStay(registered, l, m)
    ensures Kept(registered, buffer, m, filed)
  {
    Keeping(registered, buffer, l, filed);
    KnowsKeeps(l, m);
  }

  lemma KeptWith(
      registered: map<TunnelId, Registered>, buffer: Buffer, f: Frame, l: Ledger, m: Ledger,
      filed: Buffer)
    requires Kept(registered, buffer, l, filed) && Knows(l, m) && HoldsStay(registered, l, m)
    requires IsCorrelated(f) && !IsNoise(f) && f in m.heard
    requires f.requestId !in buffer && |buffer| < SYNC_WINDOW
    ensures Kept(registered, buffer[f.requestId := f], m, Filed(filed, f))
    ensures Filed(filed, f) == buffer[f.requestId := f]
  {
    Keeping(registered, buffer, l, filed);
    KnowsKeeps(l, m);
    OneMore(buffer, f);
    Keeping(registered, buffer[f.requestId := f], m, Filed(filed, f));
  }

  lemma KeptWithout(
      registered: map<TunnelId, Registered>, id: TunnelId, buffer: Buffer, l: Ledger, filed: Buffer)
    requires Kept(registered, buffer, l, filed)
    ensures Kept(registered - {id}, buffer, l, filed)
  {
    Keeping(registered, buffer, l, filed);
  }

  ghost predicate FromServer(buffer: Buffer, l: Ledger) {
    forall k | k in buffer :: buffer[k] in l.heard
  }

  // ---------- The server ----------

  /** A REGISTER or UNREGISTER frame; those of a window are written together. */
  datatype Request = Request(requestId: u64, id: TunnelId, revision: u64, removal: bool)

  type Window = seq<Request>

  predicate IsAnswer(f: Frame, q: Request) {
    && f.requestId == q.requestId
    && (if q.removal then f.kind.UnregisterTunnelOk? && f.payload == Revision(q.id, q.revision)
        else || (f.kind.RegisterTunnelOk? && f.payload == Revision(q.id, q.revision))
             || (&& f.kind.RegisterTunnelError? && f.payload.Rejection?
                 && f.payload.id == q.id && f.payload.revision == q.revision))
  }

  ghost predicate Answered(a: Awaited, q: Request) {
    a.frame.Some? && IsAnswer(a.frame.value, q)
  }

  ghost function RequestIds(window: Window): seq<u64> {
    seq(|window|, i requires 0 <= i < |window| => window[i].requestId)
  }

  /** The reply to a window: each request is answered once, in any order, with pings in between. */
  ghost predicate AnswersAll(reply: seq<Input>, window: Window) {
    && AnsweredOnce(reply)
    && AnswersIn(reply).Keys == Elements(RequestIds(window))
    && forall i | 0 <= i < |window| ::
         && window[i].requestId in AnswersIn(reply)
         && IsAnswer(AnswersIn(reply)[window[i].requestId], window[i])
  }

  ghost predicate Cooperative(server: seq<Window> -> seq<Input>) {
    forall h: seq<Window> | |h| > 0 && IsWindow(h[|h| - 1]) :: AnswersAll(server(h), h[|h| - 1])
  }

  /** A window as a session writes it. */
  ghost predicate IsWindow(window: Window) {
    |window| <= SYNC_WINDOW && Distinct(RequestIds(window)) && 0 !in RequestIds(window)
  }

  lemma ServerAnswers(server: seq<Window> -> seq<Input>, windows: seq<Window>, window: Window)
    requires Cooperative(server) && |windows| > 0 && windows[|windows| - 1] == window
    requires IsWindow(window)
    ensures AnswersAll(server(windows), window)
  {
  }

  /** Nothing but pings is buffered or on its way. */
  ghost predicate Quiet(buffer: Buffer, input: seq<Input>) {
    && buffer == map[]
    && forall i: seq<Input> {:trigger Is(i, input)} | Is(i, input) ::
         AnsweredOnce(i) && AnswersIn(i) == map[]
  }

  ghost predicate AllAnswered(all: AwaitedAll, window: Window) {
    forall i | 0 <= i < |window| :: AnsweredAt(all, i, window[i])
  }

  ghost predicate AnsweredAt(all: AwaitedAll, k: nat, q: Request) {
    all.frames.Some? && k < |all.frames.value| && IsAnswer(all.frames.value[k], q)
  }

  lemma {:induction false} PingsFirst(pings: seq<Input>, reply: seq<Input>)
    requires AnsweredOnce(pings) && AnswersIn(pings) == map[] && AnsweredOnce(reply)
    ensures AnsweredOnce(pings + reply) && AnswersIn(pings + reply) == AnswersIn(reply)
    decreases |pings|
  {
    if |pings| == 0 {
      assert pings + reply == reply;
    } else {
      PingsOnly(pings);
      PingsFirst(pings[1..], reply);
      assert (pings + reply)[0] == pings[0] && (pings + reply)[1..] == pings[1..] + reply;
    }
  }

  lemma PingsOnly(pings: seq<Input>)
    requires |pings| > 0 && AnswersIn(pings) == map[]
    ensures IsNoise(pings[0].frame) && AnswersIn(pings[1..]) == map[]
  {
    var f := pings[0].frame;
    assert f.requestId in AnswersIn(pings[1..])[f.requestId := f];
  }

  lemma DistinctCount(ids: seq<u64>)
    requires Distinct(ids)
    ensures |Elements(ids)| == |ids|
    decreases |ids|
  {
    if |ids| == 0 {
      assert Elements(ids) == {};
    } else {
      HeadApart(ids);
      DistinctCount(ids[1..]);
      assert Elements(ids) == Elements(ids[1..]) + {ids[0]};
    }
  }

  /**
    `a` is what waiting for `id` leads to. Said of whatever equals `input`, so that a proof that has
    no use for the wait itself does not look into it.
  */
  ghost predicate Yields(buffer: Buffer, input: seq<Input>, id: u64, a: Awaited) {
    forall i: seq<Input> {:trigger Is(i, input)} | Is(i, input) :: Await(buffer, i, id) == a
  }

  /** The same for a wait that does not look into the buffer. */
  ghost predicate Scans(buffer: Buffer, input: seq<Input>, id: u64, goal: Awaited) {
    forall i: seq<Input> {:trigger Is(i, input)} | Is(i, input) :: Scan(buffer, i, id) == goal
  }

  lemma Scanning(buffer: Buffer, input: seq<Input>, id: u64, goal: Awaited)
    ensures Scans(buffer, input, id, goal) <==> Scan(buffer, input, id) == goal
  {
    assert Is(input, input);
  }

  /** What the next arrival does to the wait. */
  lemma ScanNext(buffer: Buffer, input: seq<Input>, id: u64, goal: Awaited)
    requires |input| > 0 && Scans(buffer, input, id, goal)
    ensures var f := input[0].frame;
            if !IsNoise(f) && f.requestId == id then goal == Awaited(Some(f), buffer, input[1..])
            else if IsUnusable(input[0], buffer) then goal == Awaited(None, buffer, input[1..])
            else Scans(if IsNoise(f) then buffer else buffer[f.requestId := f], input[1..], id, goal)
  {
    var f := input[0].frame;
    Scanning(buffer, input, id, goal);
    Scanning(if IsNoise(f) then buffer else buffer[f.requestId := f], input[1..], id, goal);
  }

  /** The same for the responses to several requests. */
  ghost predicate Leads(buffer: Buffer, input: seq<Input>, ids: seq<u64>, all: AwaitedAll) {
    forall i: seq<Input> {:trigger Is(i, input)} | Is(i, input) :: AwaitAll(buffer, i, ids) == all
  }

  lemma Yielding(buffer: Buffer, input: seq<Input>, id: u64)
    ensures Yields(buffer, input, id, Await(buffer, input, id))
    ensures forall a | Yields(buffer, input, id, a) :: a == Await(buffer, input, id)
  {
    assert Is(input, input);
  }

  lemma Leading(buffer: Buffer, input: seq<Input>, ids: seq<u64>)
    ensures Leads(buffer, input, ids, AwaitAll(buffer, input, ids))
    ensures forall all | Leads(buffer, input, ids, all) :: all == AwaitAll(buffer, input, ids)
  {
    assert Is(input, input);
  }

  /** A server that answers each request once leads every window to its end. */
  lemma WindowIsAnswered(buffer: Buffer, input: seq<Input>, reply: seq<Input>, window: Window)
    requires Quiet(buffer, input) && AnswersAll(reply, window)
    requires IsWindow(window)
    ensures var all := AwaitAll(buffer, input + reply, RequestIds(window));
            AllAnswered(all, window) && Quiet(all.buffer, all.input)
  {
    var ids, answers := RequestIds(window), AnswersIn(reply);
    assert Is(input, input);
    PingsFirst(input, reply);
    DistinctCount(ids);
    assert |answers| == |answers.Keys|;
    assert map[] + answers == answers;
    assert Outstanding(buffer, input + reply, answers);
    var left := AnyOrderIsMatched(buffer, input + reply, [], answers, ids);
    assert input + reply + [] == input + reply;
    NothingIsLeft(answers, ids, AwaitAll(buffer, input + reply, ids), left);
  }

  class ServerSession {
    var registered: map<TunnelId, Registered>
    var localEndpoints: map<TunnelId, LocalTarget>
    var pendingResponses: Buffer
    var nextRequestId: u64
    var supported: set<Mode>

    // The environment.
    var input: seq<Input>
    var outcomes: seq<bool>
    var loads: seq<Option<Stored>>

    // What the server sends once it has got the windows written so far, and these windows.
    const server: seq<Window> -> seq<Input>
    var windows: seq<Window>

    // The attempt so far, and whether storage kept its promise about bindings.
    ghost var trace: seq<Event>
    ghost var ledger: Ledger
    ghost var fair: bool
    ghost var desk: Desk

    // In the current cycle: whether storage or the connection refused something, the last arrival,
    // and the request whose response was given up. Only `Outcome`, `ReadFrame` and
    // `ReadReconcileResponse` set these.
    ghost var refused: bool
    ghost var lastRead: Option<Input>
    ghost var lost: Option<u64>

    /** Holds whenever the session waits for the server or for storage. */
    ghost predicate Valid()
      reads this
    {
      && registered.Keys == localEndpoints.Keys
      && Kept(registered, pendingResponses, ledger, desk.buffer)
      && nextRequestId >= FIRST_ID
      && Clean()
    }

    /** The record of the attempt is faithful, and no rule was broken. */
    ghost predicate Clean()
      reads this`trace, this`ledger, this`fair, this`desk
    {
      Recorded(trace, ledger, desk, fair)
    }

    /** The server went silent, or sent what ends the session. */
    ghost predicate Disrupted()
      reads this
    {
      && lost.Some? && lost.value !in pendingResponses
      && (|| input == []
          || (lastRead.Some? && IsUnusable(lastRead.value, pendingResponses)))
    }

    /** Why a cycle may fail: a refusal, or a server that does not answer a request as it should. */
    ghost predicate Excused()
      reads this
    {
      refused || (!Quiescent() && (Disrupted() || Misanswered(ledger)))
    }

    /** Nothing is refused any more. */
    ghost predicate Willing()
      reads this`outcomes
    {
      forall i | 0 <= i < |outcomes| :: outcomes[i]
    }

    /** Nothing stands in the way of a cycle. */
    ghost predicate Smooth()
      reads this
    {
      Willing() && Quiet(pendingResponses, input) && Cooperative(server)
    }

    /** Buffer and input are as after the wait `a`. */
    ghost predicate Waited(a: Awaited)
      reads this
    {
      pendingResponses == a.buffer && input == a.input
    }

    /** A new session, before its first attempt. */
    constructor (modes: set<Mode>, replies: seq<Window> -> seq<Input>)
      ensures server == replies && windows == [] && nextRequestId == FIRST_ID
      ensures Willing() && input == [] && Quiet(pendingResponses, input) && Quiescent() && fair
      ensures Valid() && registered == map[] && pendingResponses == map[] && ledger == BLANK
    {
      registered, localEndpoints, pendingResponses := map[], map[], map[];
      nextRequestId, supported := FIRST_ID, modes;
      input, outcomes, loads := [], [], [];
      Recording([], BLANK, CLEARED, true);
      Keeping(map[], map[], BLANK, map[]);
      server, windows := replies, [];
      trace, ledger, fair, desk := [], BLANK, true, CLEARED;
      refused, lastRead, lost := false, None, None;
    }

    /**
      `mark_tunnels_pending`, and the part of `run_attempt` that forgets buffered responses and opens
      a new connection.
    */
    method StartAttempt(modes: set<Mode>)
      requires Valid()
      modifies this`registered, this`localEndpoints, this`pendingResponses, this`supported, this`input,
               this`windows, this`trace, this`ledger, this`fair, this`desk
      ensures Valid() && registered == map[] && localEndpoints == map[] && pendingResponses == map[]
      ensures ledger == BLANK && Quiescent() && fair && supported == modes
      ensures windows == [] && Quiet(pendingResponses, input)
    {
      Recording([], BLANK, CLEARED, true);
      Keeping(map[], map[], BLANK, map[]);
      ClearTables();
      ClearRecord();
      supported := modes;
    }

    method ClearTables()
      modifies this`registered, this`localEndpoints, this`pendingResponses, this`input, this`windows
      ensures registered == map[] && localEndpoints == map[] && pendingResponses == map[]
      ensures input == [] && windows == []
    {
      registered, localEndpoints, pendingResponses := map[], map[], map[];
      input, windows := [], [];
    }

    ghost method ClearRecord()
      modifies this`trace, this`ledger, this`fair, this`desk
      ensures trace == [] && ledger == BLANK && fair && desk == CLEARED
    {
      trace, ledger, fair, desk := [], BLANK, true, CLEARED;
    }

    /** Events that do not concern requests and responses. */
    ghost method Log(e: Event)
      requires Clean() && !IsForDesk(e)
      requires HonestReport(ledger, e)
      modifies this`trace, this`ledger
      ensures Clean() && ledger == Note(old(ledger), e)
    {
      Recording(trace, ledger, desk, fair);
      LedgerGrows(trace, e);
      DeskGrows(trace, e);
      trace := trace + [e];
      ledger := Note(ledger, e);
      Recording(trace, ledger, desk, fair);
    }

    /** A frame was received, or is taken for a response. */
    ghost method LogFrame(e: Event)
      requires Clean() && (e.Received? || e.Taken?) && FairlyTaken(desk, e)
      modifies this`trace, this`ledger, this`desk
      ensures Clean() && ledger == Note(old(ledger), e) && desk == Handle(old(desk), e)
    {
      Recording(trace, ledger, desk, fair);
      LedgerGrows(trace, e);
      DeskGrows(trace, e);
      trace := trace + [e];
      ledger, desk := Note(ledger, e), Handle(desk, e);
      Recording(trace, ledger, desk, fair);
    }

    /** Requests are written. */
    ghost method LogAll(es: seq<Event>)
      requires Clean() && (forall i | 0 <= i < |es| :: IsRequest(es[i]))
      requires !NoteAll(ledger, es).misreported && !NoteAll(ledger, es).unordered
      requires fair ==> !NoteAll(ledger, es).collided
      modifies this`trace, this`ledger, this`desk
      ensures Clean() && ledger == NoteAll(old(ledger), es)
      ensures desk == WrittenAll(old(desk), es)
    {
      Recording(trace, ledger, desk, fair);
      LedgerGrowsAll(trace, es);
      DeskGrowsAll(trace, es);
      ledger := NoteAll(ledger, es);
      desk := WrittenAll(desk, es);
      trace := trace + es;
      Recording(trace, ledger, desk, fair);
    }

    method NextRequestId() returns (value: u64)
      requires Valid()
      modifies this`nextRequestId
      ensures Valid() && value == old(nextRequestId) && nextRequestId == Following(value)
    {
      value := nextRequestId;
      nextRequestId := if nextRequestId == LAST_ID then 0 else nextRequestId + 1;
      if nextRequestId == 0 {
        nextRequestId := FIRST_ID;
      }
    }

    /** The ids of the next `n` requests. */
    method AllocateIds(n: nat) returns (requests: seq<u64>)
      requires Valid()
      modifies this`nextRequestId
      ensures Valid() && requests == NextIds(old(nextRequestId), n)
      ensures nextRequestId == IdAfter(old(nextRequestId), n)
    {
      requests := [];
      for i := 0 to n
        invariant Valid()
        invariant IdAfter(nextRequestId, n - i) == IdAfter(old(nextRequestId), n)
        invariant requests + NextIds(nextRequestId, n - i) == NextIds(old(nextRequestId), n)
      {
        ghost var rest := NextIds(nextRequestId, n - i);
        var requestId := NextRequestId();
        assert rest == [requestId] + NextIds(nextRequestId, n - i - 1);
        requests := requests + [requestId];
      }
    }

    /** The outcome of one write or one storage call. */
    method Outcome() returns (ok: bool)
      modifies this`outcomes, this`refused
      ensures refused == (old(refused) || !ok)
      ensures old(Willing()) ==> ok && Willing()
    {
      ok := true;
      if |outcomes| > 0 {
        ok := outcomes[0];
        outcomes := outcomes[1..];
      }
      refused := refused || !ok;
    }

    method LoadTunnel() returns (row: Option<Stored>)
      modifies this`loads
    {
      row := if |loads| > 0 then loads[0] else None;
      loads := if |loads| > 0 then loads[1..] else [];
    }

    method PersistTunnelState(id: TunnelId, revision: u64, actual: Actual) returns (ok: bool)
      requires Valid()
      requires actual.Active? ==> Accepted(ledger, id, revision)
      modifies this`trace, this`ledger, this`outcomes, this`refused
      ensures Valid() && ledger == old(ledger) && (!ok ==> refused)
      ensures old(Willing()) ==> ok && Willing()
    {
      Log(Persisted(id, revision, actual));
      ok := Outcome();
    }

    /** The frames of a window are sent. */
    method WriteWindow(window: Window) returns (ok: bool, ghost all: AwaitedAll)
      requires Valid()
      modifies this`outcomes, this`refused, this`windows, this`input
      ensures Valid() && (!ok ==> refused)
      ensures ok ==>
                && windows == old(windows) + [window] && input == old(input) + server(windows)
                && Leads(pendingResponses, input, RequestIds(window), all)
      ensures old(Willing()) ==> ok && Willing()
      ensures old(Smooth()) && IsWindow(window) ==>
                ok && AllAnswered(all, window) && Quiet(all.buffer, all.input)
    {
      ok := Outcome();
      if ok {
        windows := windows + [window];
        input := input + server(windows);
        all := AwaitAll(pendingResponses, input, RequestIds(window));
        Leading(pendingResponses, input, RequestIds(window));
        if old(Smooth()) && IsWindow(window) {
          ServerAnswers(server, windows, window);
          WindowIsAnswered(pendingResponses, old(input), server(windows), window);
        }
      } else {
        all := AwaitedAll(None, map[], []);
      }
    }

    /** The next frame from the server. */
    method ReadFrame() returns (arrived: Input)
      requires Valid() && |input| > 0
      modifies this`input, this`lastRead
      ensures Valid() && lastRead == Some(arrived)
      ensures arrived == old(input)[0] && input == old(input)[1..]
    {
      arrived := input[0];
      input := input[1..];
      lastRead := Some(arrived);
    }

    ghost method HearPing(frame: Frame)
      requires Valid() && IsNoise(frame)
      modifies this`trace, this`ledger, this`desk
      ensures Valid() && OnlyHeard(old(ledger), ledger) && desk == old(desk)
    {
      LogFrame(Received(frame));
      KeptGrows(registered, pendingResponses, old(ledger), ledger, desk.buffer);
    }

    ghost method GiveUp(frame: Frame, requestId: u64)
      requires Valid()
      modifies this`trace, this`ledger, this`lost
      ensures Valid() && ledger == old(ledger) && lost == Some(requestId)
    {
      Log(Spoiled(frame));
      lost := Some(requestId);
    }

    /** A response to another request. */
    method PutAside(frame: Frame)
      requires Valid() && !IsNoise(frame) && IsCorrelated(frame)
      requires |pendingResponses| < SYNC_WINDOW && frame.requestId !in pendingResponses
      modifies this`pendingResponses, this`trace, this`ledger, this`desk
      ensures Valid() && OnlyHeard(old(ledger), ledger)
      ensures pendingResponses == old(pendingResponses)[frame.requestId := frame]
      ensures desk == old(desk).(buffer := pendingResponses)
    {
      LogFrame(Received(frame));
      KeptWith(registered, pendingResponses, frame, old(ledger), ledger, old(desk).buffer);
      pendingResponses := pendingResponses[frame.requestId := frame];
    }

    /** The awaited response is in the buffer. */
    method TakeBuffered(requestId: u64) returns (frame: Frame)
      requires Valid() && requestId in pendingResponses && requestId in desk.waiting
      modifies this`pendingResponses, this`trace, this`ledger, this`desk
      ensures Valid() && ledger == old(ledger) && frame == old(pendingResponses)[requestId]
      ensures frame.requestId == requestId && !IsNoise(frame) && frame in ledger.heard
      ensures pendingResponses == old(pendingResponses) - {requestId}
      ensures desk == old(desk).(buffer := pendingResponses, waiting := old(desk).waiting - {requestId})
    {
      Keeping(registered, pendingResponses, ledger, desk.buffer);
      frame := pendingResponses[requestId];
      LogFrame(Taken(requestId, frame));
      Narrowed(pendingResponses, requestId);
      pendingResponses := pendingResponses - {requestId};
      Keeping(registered, pendingResponses, ledger, desk.buffer);
    }

    /** The awaited response arrives. */
    ghost method TakeArrived(frame: Frame)
      requires Valid() && !IsNoise(frame) && frame.requestId !in pendingResponses
      requires frame.requestId in desk.waiting
      modifies this`trace, this`ledger, this`desk
      ensures Valid() && OnlyHeard(old(ledger), ledger) && frame in ledger.heard
      ensures desk == old(desk).(waiting := old(desk).waiting - {frame.requestId})
    {
      Keeping(registered, pendingResponses, ledger, desk.buffer);
      LogFrame(Received(frame));
      LogFrame(Taken(frame.requestId, frame));
      assert pendingResponses[frame.requestId := frame] - {frame.requestId} == pendingResponses;
      KeptGrows(registered, pendingResponses, old(ledger), ledger, desk.buffer);
    }

    /** `read_reconcile_response`. */
    method ReadReconcileResponse(requestId: u64, ghost a: Awaited) returns (response: Option<Frame>)
      requires Valid() && requestId in desk.waiting && Yields(pendingResponses, input, requestId, a)
      modifies this`pendingResponses, this`input, this`lastRead, this`lost, this`trace, this`ledger,
               this`desk
      ensures Valid()
      ensures Awaited(response, pendingResponses, input) == a
      ensures OnlyHeard(old(ledger), ledger)
      ensures response.Some? ==>
                && response.value.requestId == requestId && !IsNoise(response.value)
                && response.value in ledger.heard
                && desk.waiting == old(desk).waiting - {requestId} && desk.early == old(desk).early
      ensures response.None? ==> Disrupted()
    {
      Yielding(pendingResponses, input, requestId);
      if requestId in pendingResponses {
        var frame := TakeBuffered(requestId);
        return Some(frame);
      }
      response := ScanInput(requestId);
    }

    /** Reads until the response arrives. */
    method ScanInput(requestId: u64) returns (response: Option<Frame>)
      requires Valid() && requestId in desk.waiting && requestId !in pendingResponses
      modifies this`pendingResponses, this`input, this`lastRead, this`lost, this`trace, this`ledger,
               this`desk
      ensures Valid()
      ensures Awaited(response, pendingResponses, input)
           == Scan(old(pendingResponses), old(input), requestId)
      ensures OnlyHeard(old(ledger), ledger)
      ensures response.Some? ==>
                && response.value.requestId == requestId && !IsNoise(response.value)
                && response.value in ledger.heard
                && desk.waiting == old(desk).waiting - {requestId} && desk.early == old(desk).early
      ensures response.None? ==> Disrupted()
    {
      ghost var goal := Scan(pendingResponses, input, requestId);
      Scanning(pendingResponses, input, requestId, goal);
      while |input| > 0
        invariant Valid() && requestId !in pendingResponses
        invariant Scans(pendingResponses, input, requestId, goal)
        invariant OnlyHeard(old(ledger), ledger)
        invariant desk.waiting == old(desk).waiting && desk.early == old(desk).early
        decreases |input|
      {
        ScanNext(pendingResponses, input, requestId, goal);
        var arrived := ReadFrame();
        var frame := arrived.frame;
        if !IsNoise(frame) && frame.requestId == requestId {
          TakeArrived(frame);
          return Some(frame);
        }
        var ok := SetAside(arrived, requestId);
        if !ok {
          return None;
        }
      }
      Scanning(pendingResponses, input, requestId, goal);
      lost := Some(requestId);
      return None;
    }

    /** Deals with an arrival that is not the awaited response. */
    method SetAside(arrived: Input, requestId: u64) returns (ok: bool)
      requires Valid() && requestId !in pendingResponses && lastRead == Some(arrived)
      requires IsNoise(arrived.frame) || arrived.frame.requestId != requestId
      modifies this`pendingResponses, this`lost, this`trace, this`ledger, this`desk
      ensures Valid() && OnlyHeard(old(ledger), ledger) && requestId !in pendingResponses
      ensures desk.waiting == old(desk).waiting && desk.early == old(desk).early
      ensures ok <==> !IsUnusable(arrived, old(pendingResponses))
      ensures pendingResponses == if ok && !IsNoise(arrived.frame)
                                  then old(pendingResponses)[arrived.frame.requestId := arrived.frame]
                                  else old(pendingResponses)
      ensures !ok ==> Disrupted()
    {
      var frame := arrived.frame;
      if IsNoise(frame) {
        if !NoiseHandled(arrived) {
          GiveUp(frame, requestId);
          return false;
        }
        HearPing(frame);
        return true;
      }
      if !IsCorrelated(frame) || frame.requestId == 0
         || |pendingResponses| >= SYNC_WINDOW || frame.requestId in pendingResponses {
        GiveUp(frame, requestId);
        return false;
      }
      PutAside(frame);
      return true;
    }

    /** Asks the server to drop up to 32 stale listeners and takes in its acknowledgements. */
    method UnregisterWindow(stale: seq<(TunnelId, u64)>) returns (ok: bool)
      requires Valid() && |stale| <= SYNC_WINDOW
      requires ledger.registers == {} && Held(stale, registered)
      modifies this`registered, this`localEndpoints, this`pendingResponses, this`nextRequestId,
               this`input, this`lastRead, this`lost, this`outcomes, this`refused, this`loads,
               this`windows, this`trace, this`ledger, this`desk
      ensures Valid() && Knows(old(ledger), ledger) && ledger.registers == {}
      ensures !ok ==> Excused()
      ensures old(Smooth()) ==> ok && Smooth()
      ensures ok ==>
                && registered == old(registered) - Names(stale)
                && ledger.holds == old(ledger).holds - Names(stale)
                && ledger.unregisters == old(ledger).unregisters + Names(stale)
                && ledger.open == old(ledger).open - Names(stale)
    {
      var requests;
      ghost var all;
      ok, requests, all := SendRemovals(stale);
      if ok {
        ok := TakeAcknowledgements(stale, requests, all);
      }
    }

    method SendRemovals(stale: seq<(TunnelId, u64)>)
      returns (ok: bool, requests: seq<u64>, ghost all: AwaitedAll)
      requires Valid() && |stale| <= SYNC_WINDOW && ledger.registers == {}
      modifies this`nextRequestId, this`input, this`outcomes, this`refused, this`windows, this`trace,
               this`ledger, this`desk
      ensures Valid() && Knows(old(ledger), ledger) && ledger.registers == {}
      ensures ledger.holds == old(ledger).holds && ledger.open == old(ledger).open + Names(stale)
      ensures ledger.unregisters == old(ledger).unregisters + Names(stale)
      ensures AllRevoked(stale, requests, ledger) && AllIn(requests, desk.waiting) && Distinct(requests)
      ensures !ok ==> refused
      ensures ok ==> Leads(pendingResponses, input, requests, all)
      ensures old(Smooth()) ==>
                && ok && Willing() && Cooperative(server)
                && AllAnswered(all, Removals(stale, requests)) && Quiet(all.buffer, all.input)
    {
      requests := AllocateIds(|stale|);
      WindowIdsAreDistinct(old(nextRequestId), |stale|);
      LogRemovals(stale, requests);
      var window := Removals(stale, requests);
      assert RequestIds(window) == requests;
      ok, all := WriteWindow(window);
    }

    /** The UNREGISTER frames of a window are written together. */
    ghost method LogRemovals(stale: seq<(TunnelId, u64)>, requests: seq<u64>)
      requires Valid() && |requests| == |stale| && ledger.registers == {}
      modifies this`trace, this`ledger, this`desk
      ensures Valid() && Knows(old(ledger), ledger) && AllRevoked(stale, requests, ledger)
      ensures ledger.holds == old(ledger).holds && ledger.registers == {}
      ensures ledger.open == old(ledger).open + Names(stale)
      ensures ledger.unregisters == old(ledger).unregisters + Names(stale)
      ensures AllIn(requests, desk.waiting)
    {
      var es := RemovalEvents(stale, requests);
      Recording(trace, ledger, desk, fair);
      RemovalsNoted(ledger, stale, requests);
      LogAll(es);
      RevokedAre(stale, requests, ledger);
      KeptGrows(registered, pendingResponses, old(ledger), ledger, desk.buffer);
      WaitingAre(es, requests);
    }

    method TakeAcknowledgements(stale: seq<(TunnelId, u64)>, requests: seq<u64>, ghost all: AwaitedAll)
      returns (ok: bool)
      requires Valid() && |requests| == |stale| && Distinct(requests)
      requires ledger.registers == {} && Held(stale, registered)
      requires Names(stale) <= ledger.open && AllRevoked(stale, requests, ledger)
      requires AllIn(requests, desk.waiting) && Leads(pendingResponses, input, requests, all)
      modifies this`registered, this`localEndpoints, this`pendingResponses, this`input, this`lastRead,
               this`lost, this`outcomes, this`refused, this`loads, this`trace, this`ledger, this`desk
      ensures Valid() && Knows(old(ledger), ledger) && ledger.registers == {}
      ensures ledger.unregisters == old(ledger).unregisters
      ensures !ok ==> Excused()
      ensures ok ==>
                && registered == old(registered) - Names(stale)
                && ledger.holds == old(ledger).holds - Names(stale)
                && ledger.open == old(ledger).open - Names(stale)
      ensures ok ==> all.frames.Some? && pendingResponses == all.buffer && input == all.input
      ensures old(Willing()) && AllAnswered(all, Removals(stale, requests)) ==> ok && Willing()
    {
      ghost var sent := ledger;
      RevokingStarts(registered, sent, stale);
      WaitStarts(pendingResponses, input, desk.waiting, requests, all);
      for k := 0 to |stale|
        invariant Valid() && Knows(sent, ledger)
        invariant ledger.registers == {} && ledger.unregisters == sent.unregisters
        invariant Revoking(old(registered), registered, sent, ledger, stale, k)
        invariant Waits(pendingResponses, input, desk.waiting, requests, k, all)
        invariant old(Willing()) ==> Willing()
      {
        assert Removals(stale, requests)[k] == RemovalOf(requests[k], stale[k]);
        ok := AcknowledgeNext(stale, requests, k, old(registered), sent, all);
        if !ok {
          return;
        }
      }
      RevokingEnds(old(registered), registered, sent, ledger, stale);
      LastWait(pendingResponses, input, desk.waiting, requests, all);
      ok := true;
    }

    /** One turn of the loop over the acknowledgements. */
    method AcknowledgeNext(
        stale: seq<(TunnelId, u64)>, requests: seq<u64>, k: nat,
        ghost before: map<TunnelId, Registered>, ghost sent: Ledger, ghost all: AwaitedAll)
      returns (ok: bool)
      requires Valid() && k < |stale| && AllRevoked(stale, requests, ledger)
      requires Revoking(before, registered, sent, ledger, stale, k)
      requires Waits(pendingResponses, input, desk.waiting, requests, k, all)
      modifies this`registered, this`localEndpoints, this`pendingResponses, this`input, this`lastRead,
               this`lost, this`outcomes, this`refused, this`loads, this`trace, this`ledger, this`desk
      ensures Valid() && Knows(old(ledger), ledger)
      ensures ledger.registers == old(ledger).registers
      ensures ledger.unregisters == old(ledger).unregisters
      ensures !ok ==> Excused()
      ensures ok ==> Revoking(before, registered, sent, ledger, stale, k + 1)
      ensures ok ==> Waits(pendingResponses, input, desk.waiting, requests, k + 1, all)
      ensures old(Willing()) ==> Willing()
      ensures old(Willing()) && AnsweredAt(all, k, RemovalOf(requests[k], stale[k])) ==> ok
    {
      RevokingNext(before, registered, sent, ledger, stale, k);
      ghost var a := OneWait(pendingResponses, input, desk.waiting, requests, k, all);
      ok := AcknowledgeRemoval(requests[k], stale[k].0, stale[k].1, a);
    }

    /** One acknowledgement, and what storage is told about the tunnel. */
    method AcknowledgeRemoval(requestId: u64, id: TunnelId, ghost revision: u64, ghost a: Awaited)
      returns (ok: bool)
      requires Valid() && id in ledger.open && (requestId, id, revision) in ledger.revoked
      requires id in registered && registered[id].revision == revision && requestId in desk.waiting
      requires Yields(pendingResponses, input, requestId, a)
      modifies this`registered, this`localEndpoints, this`pendingResponses, this`input, this`lastRead,
               this`lost, this`outcomes, this`refused, this`loads, this`trace, this`ledger, this`desk
      ensures Valid() && Knows(old(ledger), ledger)
      ensures ledger.registers == old(ledger).registers
      ensures ledger.unregisters == old(ledger).unregisters
      ensures !ok ==> Excused()
      ensures ok ==>
                && registered == old(registered) - {id}
                && ledger.holds == old(ledger).holds - {id}
                && ledger.open == old(ledger).open - {id}
                && desk.waiting == old(desk).waiting - {requestId}
      ensures Waited(a) && (ok ==> a.frame.Some?) && (old(Willing()) ==> Willing())
      ensures old(Willing()) && Answered(a, Request(requestId, id, revision, true)) ==> ok
    {
      ok := ReadAcknowledgement(requestId, id, revision, a);
      if ok {
        Forget(id);
        ok := RecordRemoval(id);
      }
    }

    /** Waits for the acknowledgement of one removal and reads it. */
    method ReadAcknowledgement(requestId: u64, id: TunnelId, ghost revision: u64, ghost a: Awaited)
      returns (ok: bool)
      requires Valid() && id in ledger.open && (requestId, id, revision) in ledger.revoked
      requires id in registered && registered[id].revision == revision && requestId in desk.waiting
      requires Yields(pendingResponses, input, requestId, a)
      modifies this`pendingResponses, this`input, this`lastRead, this`lost, this`trace, this`ledger,
               this`desk
      ensures Valid() && OnlyHeard(old(ledger), ledger)
      ensures !ok ==> Excused()
      ensures ok ==> desk.waiting == old(desk).waiting - {requestId}
      ensures Waited(a) && (ok <==> Answered(a, Request(requestId, id, revision, true)))
    {
      var response := ReadReconcileResponse(requestId, a);
      if response.None? {
        return false;
      }
      MustAcknowledge(response.value, (requestId, id, revision), ledger);
      if !response.value.kind.UnregisterTunnelOk? {
        return false;
      }
      var payload := response.value.payload;
      ok := payload.Revision? && payload.id == id && id in registered
            && payload.revision == registered[id].revision;
    }

    /** What storage is told about a tunnel whose listener is gone. */
    method RecordRemoval(id: TunnelId) returns (ok: bool)
      requires Valid()
      modifies this`outcomes, this`refused, this`loads, this`trace, this`ledger
      ensures Valid() && ledger == old(ledger) && (!ok ==> refused)
      ensures old(Willing()) ==> ok && Willing()
    {
      var current := LoadTunnel();
      ok := true;
      if current.Some? {
        if current.value.desired.WantRemoved? {
          ok := Outcome();
        } else {
          ok := PersistTunnelState(id, current.value.revision, Disabled);
        }
      }
    }

    /** The server has confirmed that it dropped the listener. */
    method Forget(id: TunnelId)
      requires Valid()
      modifies this`registered, this`localEndpoints, this`trace, this`ledger
      ensures Valid()
      ensures registered == old(registered) - {id}
      ensures ledger == old(ledger).(holds := old(ledger).holds - {id},
                                     open := old(ledger).open - {id})
    {
      Log(Dropped(id));
      KeptGrows(registered, pendingResponses, old(ledger), ledger, desk.buffer);
      KeptWithout(registered, id, pendingResponses, ledger, desk.buffer);
      registered := registered - {id};
      localEndpoints := localEndpoints - {id};
    }

    /** Asks the server for up to 32 listeners and takes in its answers. */
    method RegisterWindow(window: seq<Tunnel>, ghost wanted: map<TunnelId, Tunnel>)
      returns (ok: bool)
      requires Valid() && |window| <= SYNC_WINDOW
      requires Among(window, wanted) && Ids(window) !! registered.Keys
      requires ledger.open == {} && ledger.holds.Keys == registered.Keys
      requires fair ==> HoldsWanted(ledger.holds, wanted) && DistinctBindings(wanted)
      modifies this`registered, this`localEndpoints, this`pendingResponses, this`nextRequestId,
               this`input, this`lastRead, this`lost, this`outcomes, this`refused, this`windows,
               this`trace, this`ledger, this`desk
      ensures Valid() && Knows(old(ledger), ledger)
      ensures ledger.unregisters == old(ledger).unregisters
      ensures !ok ==> Excused()
      ensures old(Smooth()) ==> ok && Smooth()
      ensures ok ==>
                && ledger.open == {} && ledger.holds.Keys == registered.Keys
                && (fair ==> HoldsWanted(ledger.holds, wanted))
                && ledger.registers == old(ledger).registers + Ids(window)
                && Extended(old(registered), registered, old(localEndpoints), localEndpoints, window,
                            ledger)
    {
      ok := PersistRegistering(window);
      if !ok {
        return;
      }
      var requests;
      ghost var all;
      ok, requests, all := SendRegistrations(window, wanted);
      if ok {
        ok := TakeAnswers(window, requests, wanted, all);
      }
    }

    method SendRegistrations(window: seq<Tunnel>, ghost wanted: map<TunnelId, Tunnel>)
      returns (ok: bool, requests: seq<u64>, ghost all: AwaitedAll)
      requires Valid() && |window| <= SYNC_WINDOW
      requires Among(window, wanted) && Ids(window) !! ledger.holds.Keys && ledger.open == {}
      requires Ids(window) !! registered.Keys
      requires fair ==> HoldsWanted(ledger.holds, wanted) && DistinctBindings(wanted)
      modifies this`nextRequestId, this`input, this`outcomes, this`refused, this`windows, this`trace,
               this`ledger, this`desk
      ensures Valid() && (!ok ==> refused)
      ensures Requested(old(ledger), ledger, window, requests, wanted, fair)
      ensures AllIn(requests, desk.waiting) && Distinct(requests)
      ensures requests == NextIds(old(nextRequestId), |window|)
      ensures nextRequestId == IdAfter(old(nextRequestId), |window|)
      ensures desk.early == old(desk).early
                           + EarlyIn(RegistrationEvents(window, requests), pendingResponses)
      ensures ok ==> && windows == old(windows) + [Registrations(window, requests)]
                     && input == old(input) + server(windows)
      ensures old(Willing()) ==> ok && Willing()
      ensures ok ==> Leads(pendingResponses, input, requests, all)
      ensures old(Smooth()) ==>
                && ok && Willing() && Cooperative(server)
                && AllAnswered(all, Registrations(window, requests)) && Quiet(all.buffer, all.input)
    {
      requests := AllocateIds(|window|);
      WindowIdsAreDistinct(old(nextRequestId), |window|);
      LogRegistrations(window, requests, wanted);
      assert AllIn(requests, Elements(requests));
      var frames := Registrations(window, requests);
      assert RequestIds(frames) == requests;
      ok, all := WriteWindow(frames);
    }

    /** The REGISTER frames of a window are written together. */
    ghost method LogRegistrations(window: seq<Tunnel>, requests: seq<u64>, wanted: map<TunnelId, Tunnel>)
      requires Valid() && |requests| == |window|
      requires Among(window, wanted) && Ids(window) !! ledger.holds.Keys && ledger.open == {}
      requires Ids(window) !! registered.Keys
      requires fair ==> HoldsWanted(ledger.holds, wanted) && DistinctBindings(wanted)
      modifies this`trace, this`ledger, this`desk
      ensures Valid() && Requested(old(ledger), ledger, window, requests, wanted, fair)
      ensures desk.waiting == old(desk).waiting + Elements(requests)
      ensures desk.early == old(desk).early
                           + EarlyIn(RegistrationEvents(window, requests), pendingResponses)
    {
      var es := RegistrationEvents(window, requests);
      WaitingAre(es, requests);
      Keeping(registered, pendingResponses, ledger, desk.buffer);
      LogRequests(window, requests, wanted);
      KeptGrows(registered, pendingResponses, old(ledger), ledger, desk.buffer);
    }

    ghost method LogRequests(window: seq<Tunnel>, requests: seq<u64>, wanted: map<TunnelId, Tunnel>)
      requires Clean() && |requests| == |window|
      requires Among(window, wanted) && Ids(window) !! ledger.holds.Keys && ledger.open == {}
      requires fair ==> HoldsWanted(ledger.holds, wanted) && DistinctBindings(wanted)
      modifies this`trace, this`ledger, this`desk
      ensures Clean() && Requested(old(ledger), ledger, window, requests, wanted, fair)
      ensures desk == WrittenAll(old(desk), RegistrationEvents(window, requests))
    {
      Recording(trace, ledger, desk, fair);
      RegistrationsNoted(ledger, window, requests, wanted, fair);
      LogAll(RegistrationEvents(window, requests));
    }

    method PersistRegistering(window: seq<Tunnel>) returns (ok: bool)
      requires Valid()
      modifies this`trace, this`ledger, this`outcomes, this`refused
      ensures Valid() && ledger == old(ledger) && (!ok ==> refused)
      ensures old(Willing()) ==> ok && Willing()
    {
      ok := true;
      for i := 0 to |window|
        invariant Valid() && ledger == old(ledger) && ok
        invariant old(Willing()) ==> Willing()
      {
        ok := PersistTunnelState(window[i].id, window[i].revision, Registering);
        if !ok {
          return;
        }
      }
    }

    method TakeAnswers(
        window: seq<Tunnel>, requests: seq<u64>, ghost wanted: map<TunnelId, Tunnel>,
        ghost all: AwaitedAll)
      returns (ok: bool)
      requires Valid() && |requests| == |window| && Distinct(requests)
      requires Among(window, wanted) && Ids(window) !! registered.Keys
      requires ledger.open == {} && ledger.holds.Keys == registered.Keys + Ids(window)
      requires BoundAs(window, ledger.holds) && (fair ==> HoldsWanted(ledger.holds, wanted))
      requires AllAsked(window, requests, ledger)
      requires AllIn(requests, desk.waiting) && Leads(pendingResponses, input, requests, all)
      modifies this`registered, this`localEndpoints, this`pendingResponses, this`input, this`lastRead,
               this`lost, this`outcomes, this`refused, this`trace, this`ledger, this`desk
      ensures Valid() && Knows(old(ledger), ledger)
      ensures ledger.unregisters == old(ledger).unregisters
      ensures !ok ==> Excused()
      ensures ok ==> desk.early == old(desk).early
      ensures ok ==>
                && ledger.open == {} && ledger.holds.Keys == registered.Keys
                && (fair ==> HoldsWanted(ledger.holds, wanted))
                && ledger.registers == old(ledger).registers
                && Extended(old(registered), registered, old(localEndpoints), localEndpoints, window,
                            ledger)
      ensures ok ==> AcceptedOnly(all, window, registered, |window|)
      ensures ok ==> all.frames.Some? && pendingResponses == all.buffer && input == all.input
      ensures old(Willing()) && AllAnswered(all, Registrations(window, requests)) ==> ok && Willing()
    {
      StageStarts(registered, localEndpoints, window, ledger, wanted, fair);
      WaitStarts(pendingResponses, input, desk.waiting, requests, all);
      for k := 0 to |window|
        invariant Valid() && Knows(old(ledger), ledger)
        invariant ledger.unregisters == old(ledger).unregisters
        invariant ledger.registers == old(ledger).registers
        invariant Stage(old(registered), registered, old(localEndpoints), localEndpoints, window, k,
                        ledger, wanted, fair)
        invariant Waits(pendingResponses, input, desk.waiting, requests, k, all)
        invariant AcceptedOnly(all, window, registered, k) && desk.early == old(desk).early
        invariant old(Willing()) ==> Willing()
      {
        AskedStays(window, requests, old(ledger), ledger);
        assert Registrations(window, requests)[k] == RegisterOf(requests[k], window[k]);
        ok := TakeNext(window, requests, k, wanted, old(registered), old(localEndpoints), all);
        if !ok {
          return;
        }
      }
      StageEnds(old(registered), registered, old(localEndpoints), localEndpoints, window, ledger,
                wanted, fair);
      LastWait(pendingResponses, input, desk.waiting, requests, all);
      ok := true;
    }

    /** One turn of the loop over the answers. */
    method TakeNext(
        window: seq<Tunnel>, requests: seq<u64>, k: nat, ghost wanted: map<TunnelId, Tunnel>,
        ghost before: map<TunnelId, Registered>, ghost targets: map<TunnelId, LocalTarget>,
        ghost all: AwaitedAll)
      returns (ok: bool)
      requires Valid() && k < |window| && AllAsked(window, requests, ledger)
      requires Stage(before, registered, targets, localEndpoints, window, k, ledger, wanted, fair)
      requires AcceptedOnly(all, window, registered, k) && Among(window, wanted)
      requires Waits(pendingResponses, input, desk.waiting, requests, k, all)
      modifies this`registered, this`localEndpoints, this`pendingResponses, this`input, this`lastRead,
               this`lost, this`outcomes, this`refused, this`trace, this`ledger, this`desk
      ensures Valid() && Knows(old(ledger), ledger)
      ensures ledger.unregisters == old(ledger).unregisters
      ensures ledger.registers == old(ledger).registers
      ensures !ok ==> Excused()
      ensures ok ==> desk.early == old(desk).early
      ensures ok ==> Stage(before, registered, targets, localEndpoints, window, k + 1, ledger, wanted, fair)
      ensures ok ==> AcceptedOnly(all, window, registered, k + 1)
      ensures ok ==> Waits(pendingResponses, input, desk.waiting, requests, k + 1, all)
      ensures old(Willing()) ==> Willing()
      ensures old(Willing()) && AnsweredAt(all, k, RegisterOf(requests[k], window[k])) ==> ok
    {
      StageIs(before, registered, targets, localEndpoints, window, k, ledger, wanted, fair);
      ghost var a := OneWait(pendingResponses, input, desk.waiting, requests, k, all);
      ok := TakeAnswer(requests[k], window[k], a);
      if ok {
        AcceptedNext(all, window, old(registered), registered, k, wanted);
        StageNext(before, old(registered), registered, targets, old(localEndpoints), localEndpoints,
                  window, k, old(ledger), ledger, wanted, fair);
      }
    }

    /** The answer to one REGISTER. */
    method TakeAnswer(requestId: u64, t: Tunnel, ghost a: Awaited) returns (ok: bool)
      requires Valid() && t.id !in registered && requestId in desk.waiting
      requires t.id in ledger.holds && ledger.holds[t.id] == BindingOf(t)
      requires (requestId, t.id, t.revision) in ledger.asked
      requires Yields(pendingResponses, input, requestId, a)
      modifies this`registered, this`localEndpoints, this`pendingResponses, this`input, this`lastRead,
               this`lost, this`outcomes, this`refused, this`trace, this`ledger, this`desk
      ensures Valid() && Knows(old(ledger), ledger)
      ensures ledger.unregisters == old(ledger).unregisters
      ensures ledger.registers == old(ledger).registers
      ensures !ok ==> Excused()
      ensures ok ==> desk.early == old(desk).early
      ensures ok ==> desk.waiting == old(desk).waiting - {requestId}
      ensures ok ==> Took(t, old(registered), registered, old(localEndpoints), localEndpoints,
                          old(ledger), ledger)
      ensures Waited(a) && (ok ==> a.frame.Some?) && (old(Willing()) ==> Willing())
      ensures ok ==> (t.id in registered <==> a.frame.value.kind.RegisterTunnelOk?)
      ensures old(Willing()) && Answered(a, RegisterOf(requestId, t)) ==> ok
    {
      var refusal;
      ok, refusal := ReadAnswer(requestId, t, a);
      if ok {
        if refusal.None? {
          ok := Install(requestId, t);
        } else {
          ok := Decline(requestId, t, refusal.value);
        }
      }
    }

    /** Waits for the answer to one REGISTER and reads it. */
    method ReadAnswer(requestId: u64, t: Tunnel, ghost a: Awaited)
      returns (ok: bool, refusal: Option<ErrorCode>)
      requires Valid() && t.id !in registered && t.id in ledger.holds && requestId in desk.waiting
      requires (requestId, t.id, t.revision) in ledger.asked
      requires Yields(pendingResponses, input, requestId, a)
      modifies this`localEndpoints, this`pendingResponses, this`input, this`lastRead, this`lost,
               this`trace, this`ledger, this`desk
      ensures Valid() && OnlyHeard(old(ledger), ledger) && localEndpoints == old(localEndpoints)
      ensures !ok ==> Excused()
      ensures ok ==> desk.early == old(desk).early
      ensures ok ==> desk.waiting == old(desk).waiting - {requestId}
      ensures ok && refusal.None? ==> OkFrame(requestId, t.id, t.revision) in ledger.heard
      ensures ok && refusal.Some? ==>
                ErrorFrame(requestId, t.id, refusal.value, t.revision) in ledger.heard
      ensures Waited(a) && (ok ==> a.frame.Some?)
      ensures ok ==> (refusal.None? <==> a.frame.value.kind.RegisterTunnelOk?)
      ensures Answered(a, RegisterOf(requestId, t)) ==> ok
    {
      var response := ReadReconcileResponse(requestId, a);
      if response.None? {
        return false, None;
      }
      MustAnswer(response.value, (requestId, t.id, t.revision), ledger);
      var payload := response.value.payload;
      if response.value.kind.RegisterTunnelOk? {
        ok := payload.Revision? && payload.id == t.id && payload.revision == t.revision;
        return ok, None;
      } else if response.value.kind.RegisterTunnelError? {
        ok := payload.Rejection? && payload.id == t.id && payload.revision == t.revision;
        return ok, if ok then Some(payload.code) else None;
      }
      localEndpoints := localEndpoints - {t.id};
      return false, None;
    }

    /** The server accepted a tunnel. */
    method Install(ghost requestId: u64, t: Tunnel) returns (ok: bool)
      requires Valid() && (requestId, t.id, t.revision) in ledger.asked
      requires t.id in ledger.holds ==> ledger.holds[t.id] == BindingOf(t)
      requires OkFrame(requestId, t.id, t.revision) in ledger.heard
      modifies this`registered, this`localEndpoints, this`outcomes, this`refused, this`trace, this`ledger
      ensures Valid() && ledger == old(ledger) && (!ok ==> refused) && (old(Willing()) ==> ok && Willing())
      ensures registered == old(registered)[t.id := Registered(t.revision, t.remote)]
      ensures localEndpoints == old(localEndpoints)[t.id := TargetOf(t)]
    {
      assert Accepted(ledger, t.id, t.revision);
      Keeping(registered, pendingResponses, ledger, desk.buffer);
      registered := registered[t.id := Registered(t.revision, t.remote)];
      localEndpoints := localEndpoints[t.id := TargetOf(t)];
      Keeping(registered, pendingResponses, ledger, desk.buffer);
      ok := PersistTunnelState(t.id, t.revision, Active);
    }

    /** The server refused a tunnel. */
    method Decline(ghost requestId: u64, t: Tunnel, code: ErrorCode) returns (ok: bool)
      requires Valid() && (requestId, t.id, t.revision) in ledger.asked
      requires ErrorFrame(requestId, t.id, code, t.revision) in ledger.heard
      modifies this`outcomes, this`refused, this`trace, this`ledger
      ensures Valid() && (!ok ==> refused) && (old(Willing()) ==> ok && Willing())
      ensures Rejected(ledger, t.id, t.revision)
      ensures ledger == old(ledger).(holds := old(ledger).holds - {t.id},
                                     open := old(ledger).open - {t.id})
    {
      Log(Dropped(t.id));
      KeptGrows(registered, pendingResponses, old(ledger), ledger, desk.buffer);
      ok := PersistTunnelState(t.id, t.revision, Failed);
    }

    /** Between cycles the server may hold exactly what is registered, and no removal is open. */
    ghost predicate Quiescent()
      reads this
    {
      ledger.holds.Keys == registered.Keys && ledger.open == {}
    }

    /** `reconcile_tunnels`, on the rows that storage returned. */
    method ReconcileTunnels(snapshot: seq<Tunnel>) returns (ok: bool)
      requires Valid() && Quiescent() && UniqueIds(snapshot)
      modifies this`registered, this`localEndpoints, this`pendingResponses, this`nextRequestId,
               this`input, this`lastRead, this`lost, this`outcomes, this`refused,
               this`loads, this`windows, this`trace, this`ledger, this`fair, this`desk
      ensures Valid()
      ensures !ok ==> Excused()
      ensures old(Smooth()) ==> ok && Smooth()
      ensures fair == (old(fair)
                       && BindingsAgree(old(registered), old(ledger).holds, Wanted(snapshot)))
      ensures ok ==> Quiescent()
      ensures ok && fair ==>
                && HoldsWanted(ledger.holds, Wanted(snapshot))
                && forall id | id in registered ::
                     id in Wanted(snapshot) && registered[id].remote == Wanted(snapshot)[id].remote
      ensures ok ==> CycleOutcome(old(registered), Wanted(snapshot), supported,
                                  registered, localEndpoints, ledger)
    {
      var wanted := CollectWanted(snapshot);
      BeginCycle(wanted);
      ok := RevokeStale(wanted);
      if !ok {
        return;
      }
      ok := PurgeTombstones(snapshot);
      if !ok {
        return;
      }
      ok := InstallMissing(snapshot, wanted, old(registered));
      Keeping(registered, pendingResponses, ledger, desk.buffer);
    }

    /** The second half of a cycle, with nothing stale left. */
    method InstallMissing(
        snapshot: seq<Tunnel>, wanted: map<TunnelId, Tunnel>, ghost before: map<TunnelId, Registered>)
      returns (ok: bool)
      requires Valid() && Quiescent() && UniqueIds(snapshot) && wanted == Wanted(snapshot)
      requires registered == before - StaleIds(before, wanted)
      requires ledger.registers == {} && ledger.unregisters == StaleIds(before, wanted)
      requires fair ==> HoldsWanted(ledger.holds, wanted) && DistinctBindings(wanted)
      modifies this`registered, this`localEndpoints, this`pendingResponses, this`nextRequestId,
               this`input, this`lastRead, this`lost, this`outcomes, this`refused,
               this`windows, this`trace, this`ledger, this`desk
      ensures Valid()
      ensures !ok ==> Excused()
      ensures old(Smooth()) ==> ok && Smooth()
      ensures ok ==> Quiescent() && (fair ==> HoldsWanted(ledger.holds, wanted))
      ensures ok ==> CycleOutcome(before, wanted, supported, registered, localEndpoints, ledger)
    {
      ghost var retained := registered;
      var pending;
      ok, pending := RefreshRetained(snapshot, wanted);
      if !ok {
        return;
      }
      ghost var refreshed := localEndpoints;
      ok := RegisterMissing(pending, wanted);
      if !ok {
        return;
      }
      OutcomeHolds(before, wanted, supported, retained, refreshed, pending,
                   registered, localEndpoints, ledger);
      localEndpoints := map id | id in localEndpoints && id in wanted :: localEndpoints[id];
    }

    ghost method BeginCycle(wanted: map<TunnelId, Tunnel>)
      requires Valid() && Quiescent()
      modifies this`trace, this`ledger, this`fair, this`refused, this`lastRead, this`lost
      ensures !refused && lastRead == None && lost == None
      ensures Valid() && Quiescent() && ledger.registers == {} && ledger.unregisters == {}
      ensures fair == (old(fair) && BindingsAgree(registered, ledger.holds, wanted))
      ensures ledger.holds == old(ledger).holds
    {
      refused, lastRead, lost := false, None, None;
      Log(CycleStarted);
      KeptGrows(registered, pendingResponses, old(ledger), ledger, desk.buffer);
      fair := fair && BindingsAgree(registered, ledger.holds, wanted);
    }

    /** The tunnels that should be active, by id. */
    method CollectWanted(snapshot: seq<Tunnel>) returns (wanted: map<TunnelId, Tunnel>)
      requires UniqueIds(snapshot)
      ensures wanted == Wanted(snapshot)
    {
      wanted := map[];
      for i := 0 to |snapshot|
        invariant wanted == Wanted(snapshot[..i])
      {
        var t := snapshot[i];
        assert snapshot[..i + 1][..i] == snapshot[..i];
        if t.desired.WantActive? {
          wanted := wanted[t.id := t];
        }
      }
      assert snapshot[..|snapshot|] == snapshot;
    }

    /** Registrations to revoke, in whatever order the table yields them. */
    method CollectStale(wanted: map<TunnelId, Tunnel>) returns (stale: seq<(TunnelId, u64)>)
      ensures Held(stale, registered)
      ensures Names(stale) == StaleIds(registered, wanted)
    {
      stale := [];
      var rest := registered.Keys;
      while rest != {}
        invariant rest <= registered.Keys && Held(stale, registered) && Names(stale) !! rest
        invariant Names(stale)
               == (set id | id in registered && id !in rest && IsStale(id, registered[id], wanted))
        decreases rest
      {
        var id :| id in rest;
        rest := rest - {id};
        if IsStale(id, registered[id], wanted) {
          HeldAppend(stale, id, registered);
          NamesAppend(stale, (id, registered[id].revision));
          stale := stale + [(id, registered[id].revision)];
        }
      }
    }

    method RevokeStale(wanted: map<TunnelId, Tunnel>) returns (ok: bool)
      requires Valid() && Quiescent() && ledger.registers == {} && ledger.unregisters == {}
      requires fair ==> BindingsAgree(registered, ledger.holds, wanted)
      modifies this`registered, this`localEndpoints, this`pendingResponses, this`nextRequestId,
               this`input, this`lastRead, this`lost, this`outcomes, this`refused,
               this`loads, this`windows, this`trace, this`ledger, this`desk
      ensures Valid()
      ensures !ok ==> Excused()
      ensures old(Smooth()) ==> ok && Smooth()
      ensures ok ==>
                && Quiescent() && ledger.registers == {}
                && registered == old(registered) - StaleIds(old(registered), wanted)
                && ledger.unregisters == StaleIds(old(registered), wanted)
                && (fair ==> HoldsWanted(ledger.holds, wanted))
    {
      var stale := CollectStale(wanted);
      var offset := 0;
      while offset < |stale|
        invariant 0 <= offset <= |stale|
        invariant Valid() && ledger.registers == {} && ledger.open == {}
        invariant registered == old(registered) - Names(stale[..offset])
        invariant ledger.holds == old(ledger).holds - Names(stale[..offset])
        invariant ledger.unregisters == Names(stale[..offset])
        invariant Held(stale[offset..], registered)
        invariant old(Smooth()) ==> Smooth()
        decreases |stale| - offset
      {
        var end := if offset + SYNC_WINDOW <= |stale| then offset + SYNC_WINDOW else |stale|;
        HeldSplit(stale, offset, end, registered);
        NamesJoin(stale, offset, end);
        MinusJoin(old(registered), Names(stale[..offset]), Names(stale[offset..end]));
        MinusJoin(old(ledger).holds, Names(stale[..offset]), Names(stale[offset..end]));
        ok := UnregisterWindow(stale[offset..end]);
        if !ok {
          return;
        }
        offset := end;
      }
      assert stale[..|stale|] == stale;
      ok := true;
    }

    /** Rows left behind by an interrupted removal are erased. */
    method PurgeTombstones(snapshot: seq<Tunnel>) returns (ok: bool)
      modifies this`outcomes, this`refused
      requires Valid()
      ensures Valid() && (!ok ==> refused) && (old(Willing()) ==> ok && Willing())
    {
      for i := 0 to |snapshot|
        invariant Valid() && (old(Willing()) ==> Willing())
      {
        if snapshot[i].desired.WantRemoved? {
          ok := Outcome();
          if !ok {
            return;
          }
        }
      }
      ok := true;
    }

    /** Retained tunnels get the snapshot's target; the missing ones are listed. */
    method RefreshRetained(snapshot: seq<Tunnel>, wanted: map<TunnelId, Tunnel>)
      returns (ok: bool, pending: seq<Tunnel>)
      requires Valid() && UniqueIds(snapshot) && wanted == Wanted(snapshot)
      requires forall id | id in registered :: !IsStale(id, registered[id], wanted)
      modifies this`localEndpoints, this`outcomes, this`refused, this`trace, this`ledger
      ensures Valid() && ledger == old(ledger) && (!ok ==> refused)
      ensures old(Willing()) ==> ok && Willing()
      ensures ok ==>
                && Among(pending, wanted)
                && Ids(pending) == MissingIds(registered, wanted, supported)
                && (forall id | id in registered ::
                      id in wanted && localEndpoints[id] == TargetOf(wanted[id]))
    {
      pending := [];
      SortStarts(snapshot, registered, supported, wanted, localEndpoints);
      for i := 0 to |snapshot|
        invariant Valid() && ledger == old(ledger) && (old(Willing()) ==> Willing())
        invariant SortedUpTo(snapshot, i, registered, supported, wanted, localEndpoints, pending)
      {
        ghost var targets0, pending0 := localEndpoints, pending;
        RetainedFits(snapshot, i, registered, wanted);
        var missing;
        ok, missing := RefreshRow(snapshot[i]);
        if !ok {
          return;
        }
        if missing {
          pending := pending + [snapshot[i]];
        }
        SortNext(snapshot, i, registered, supported, wanted, targets0, localEndpoints, pending0,
                 pending);
      }
      SortEnds(snapshot, registered, supported, wanted, localEndpoints, pending);
      ok := true;
    }

    method RefreshRow(t: Tunnel)
      returns (ok: bool, missing: bool)
      requires Valid()
      requires t.id in registered && t.desired.WantActive? ==> registered[t.id].revision == t.revision
      modifies this`localEndpoints, this`outcomes, this`refused, this`trace, this`ledger
      ensures Valid() && ledger == old(ledger) && (!ok ==> refused)
      ensures old(Willing()) ==> ok && Willing()
      ensures ok ==> missing == IsMissing(t, registered, supported)
      ensures localEndpoints == old(localEndpoints)
           || localEndpoints == old(localEndpoints)[t.id := TargetOf(t)]
      ensures t.id in registered && t.desired.WantActive? ==> localEndpoints[t.id] == TargetOf(t)
    {
      ok, missing := true, false;
      Keeping(registered, pendingResponses, ledger, desk.buffer);
      if t.desired.WantActive? {
        if t.id in registered {
          localEndpoints := localEndpoints[t.id := TargetOf(t)];
          if !t.actual.Active? {
            assert Accepted(ledger, t.id, registered[t.id].revision);
            ok := PersistTunnelState(t.id, t.revision, Active);
          }
        } else if t.mode !in supported {
          if !t.actual.Failed? || t.lastError != Some(UnsupportedVersion) {
            ok := PersistTunnelState(t.id, t.revision, Failed);
          }
        } else {
          missing := true;
        }
      }
    }

    method RegisterMissing(pending: seq<Tunnel>, ghost wanted: map<TunnelId, Tunnel>)
      returns (ok: bool)
      requires Valid() && Quiescent()
      requires Among(pending, wanted) && Ids(pending) !! registered.Keys
      requires fair ==> HoldsWanted(ledger.holds, wanted) && DistinctBindings(wanted)
      modifies this`registered, this`localEndpoints, this`pendingResponses, this`nextRequestId,
               this`input, this`lastRead, this`lost, this`outcomes, this`refused,
               this`windows, this`trace, this`ledger, this`desk
      ensures Valid()
      ensures !ok ==> Excused()
      ensures old(Smooth()) ==> ok && Smooth()
      ensures ok ==>
                && Quiescent() && ledger.unregisters == old(ledger).unregisters
                && (fair ==> HoldsWanted(ledger.holds, wanted))
                && ledger.registers == old(ledger).registers + Ids(pending)
                && Extended(old(registered), registered, old(localEndpoints), localEndpoints,
                            pending, ledger)
    {
      var offset := 0;
      assert Ids(pending[..0]) == {};
      while offset < |pending|
        invariant 0 <= offset <= |pending|
        invariant Valid() && Quiescent() && ledger.unregisters == old(ledger).unregisters
        invariant fair ==> HoldsWanted(ledger.holds, wanted)
        invariant old(Smooth()) ==> Smooth()
        invariant ledger.registers == old(ledger).registers + Ids(pending[..offset])
        invariant Extended(old(registered), registered, old(localEndpoints), localEndpoints,
                           pending[..offset], ledger)
        decreases |pending| - offset
      {
        var end := if offset + SYNC_WINDOW <= |pending| then offset + SYNC_WINDOW else |pending|;
        AmongSlice(pending, offset, end, wanted);
        ghost var registered0, targets0, ledger0 := registered, localEndpoints, ledger;
        ok := RegisterWindow(pending[offset..end], wanted);
        if !ok {
          return;
        }
        ExtendedJoin(old(registered), registered0, registered, old(localEndpoints), targets0,
                     localEndpoints, pending, offset, end, wanted, ledger0, ledger);
        offset := end;
      }
      assert pending[..|pending|] == pending;
      ok := true;
    }
  }

  // ---------- The frames of a window, written together ----------

  function Removals(stale: seq<(TunnelId, u64)>, requests: seq<u64>): Window
    requires |requests| == |stale|
  {
    seq(|stale|, i requires 0 <= i < |stale| => RemovalOf(requests[i], stale[i]))
  }

  function RemovalOf(requestId: u64, stale: (TunnelId, u64)): Request {
    Request(requestId, stale.0, stale.1, true)
  }

  function RegisterOf(requestId: u64, t: Tunnel): Request {
    Request(requestId, t.id, t.revision, false)
  }

  function Registrations(window: seq<Tunnel>, requests: seq<u64>): Window
    requires |requests| == |window|
  {
    seq(|window|, i requires 0 <= i < |window| => RegisterOf(requests[i], window[i]))
  }

  ghost predicate AllIn(requests: seq<u64>, waiting: set<u64>) {
    forall i | 0 <= i < |requests| :: requests[i] in waiting
  }

  lemma WaitingAre(es: seq<Event>, requests: seq<u64>)
    requires |es| == |requests|
    requires forall i | 0 <= i < |es| :: IsRequest(es[i]) && es[i].requestId == requests[i]
    ensures AllIn(requests, RequestsIn(es)) && RequestsIn(es) == Elements(requests)
  {
    forall i | 0 <= i < |requests|
      ensures requests[i] in RequestsIn(es)
    {
      assert IsRequest(es[i]) && es[i].requestId == requests[i];
    }
  }

  lemma StillIn(requests: seq<u64>, k: nat, waiting: set<u64>)
    requires k < |requests| && Distinct(requests) && AllIn(requests[k..], waiting)
    ensures requests[k] in waiting && AllIn(requests[k + 1..], waiting - {requests[k]})
  {
    var here, later := requests[k..], requests[k + 1..];
    assert here[0] == requests[k];
    forall i | 0 <= i < |later|
      ensures later[i] in waiting - {requests[k]}
    {
      assert later[i] == here[i + 1] && later[i] == requests[k + 1 + i];
    }
  }

  /** What is left of the wait `all` after its first `k` responses. */
  ghost function LeftOf(all: AwaitedAll, k: nat): AwaitedAll {
    if all.frames.Some? && k <= |all.frames.value| then all.(frames := Some(all.frames.value[k..]))
    else all.(frames := None)
  }

  /** The responses to `requests[k..]` are still to be waited for, and the wait leads to `all`. */
  ghost predicate Waits(
      buffer: Buffer, input: seq<Input>, waiting: set<u64>, requests: seq<u64>, k: nat, all: AwaitedAll) {
    forall j: nat {:trigger At(j, k)} | At(j, k) ::
      && j <= |requests| && Distinct(requests) && AllIn(requests[j..], waiting)
      && Leads(buffer, input, requests[j..], LeftOf(all, j))
  }

  lemma WaitStarts(
      buffer: Buffer, input: seq<Input>, waiting: set<u64>, requests: seq<u64>, all: AwaitedAll)
    requires AllIn(requests, waiting) && Distinct(requests) && Leads(buffer, input, requests, all)
    ensures Waits(buffer, input, waiting, requests, 0, all)
  {
    assert requests[0..] == requests && LeftOf(all, 0) == all;
  }

  /** The wait for one more response of a window. */
  lemma OneWait(
      buffer: Buffer, input: seq<Input>, waiting: set<u64>, requests: seq<u64>, k: nat, all: AwaitedAll)
    returns (a: Awaited)
    requires Waits(buffer, input, waiting, requests, k, all) && k < |requests|
    ensures requests[k] in waiting && Yields(buffer, input, requests[k], a)
    ensures a.frame.Some? ==>
              Waits(a.buffer, a.input, waiting - {requests[k]}, requests, k + 1, all)
    ensures all.frames.Some? && k < |all.frames.value| ==> a.frame == Some(all.frames.value[k])
  {
    assert At(k, k);
    a := Await(buffer, input, requests[k]);
    Yielding(buffer, input, requests[k]);
    Leading(buffer, input, requests[k..]);
    StillIn(requests, k, waiting);
    assert requests[k..][0] == requests[k] && requests[k..][1..] == requests[k + 1..];
    if a.frame.Some? {
      var later := AwaitAll(a.buffer, a.input, requests[k + 1..]);
      Leading(a.buffer, a.input, requests[k + 1..]);
      assert LeftOf(all, k) == Preceded(a.frame.value, later);
      OneLess(all, k, a.frame.value, later);
    }
  }

  lemma OneLess(all: AwaitedAll, k: nat, f: Frame, later: AwaitedAll)
    requires LeftOf(all, k) == Preceded(f, later)
    ensures later == LeftOf(all, k + 1)
  {
    if later.frames.Some? {
      var frames := all.frames.value[k..];
      assert frames == [f] + later.frames.value;
      assert frames[1..] == later.frames.value && all.frames.value[k + 1..] == frames[1..];
    }
  }

  lemma LastWait(
      buffer: Buffer, input: seq<Input>, waiting: set<u64>, requests: seq<u64>, all: AwaitedAll)
    requires Waits(buffer, input, waiting, requests, |requests|, all)
    ensures all.frames.Some? && buffer == all.buffer && input == all.input
  {
    assert At(|requests|, |requests|);
    assert requests[|requests|..] == [];
    Leading(buffer, input, []);
  }

  ghost function RemovalEvents(stale: seq<(TunnelId, u64)>, requests: seq<u64>): seq<Event>
    requires |requests| == |stale|
  {
    seq(|stale|, i requires 0 <= i < |stale| => SentUnregister(requests[i], stale[i].0, stale[i].1))
  }

  ghost function RegistrationEvents(window: seq<Tunnel>, requests: seq<u64>): seq<Event>
    requires |requests| == |window|
  {
    seq(|window|, i requires 0 <= i < |window| =>
      SentRegister(requests[i], window[i].id, window[i].revision, BindingOf(window[i])))
  }

  ghost function RevokedBy(stale: seq<(TunnelId, u64)>, requests: seq<u64>)
    : set<(u64, TunnelId, u64)>
    requires |requests| == |stale|
  {
    set i | 0 <= i < |stale| :: (requests[i], stale[i].0, stale[i].1)
  }

  ghost predicate AllRevoked(stale: seq<(TunnelId, u64)>, requests: seq<u64>, l: Ledger) {
    && |requests| == |stale|
    && forall i | 0 <= i < |stale| :: (requests[i], stale[i].0, stale[i].1) in l.revoked
  }

  lemma RevokedAre(stale: seq<(TunnelId, u64)>, requests: seq<u64>, l: Ledger)
    requires |requests| == |stale| && RevokedBy(stale, requests) <= l.revoked
    ensures AllRevoked(stale, requests, l)
  {
    forall i | 0 <= i < |stale|
      ensures (requests[i], stale[i].0, stale[i].1) in l.revoked
    {
      assert (requests[i], stale[i].0, stale[i].1) in RevokedBy(stale, requests);
    }
  }

  lemma RemovalsGrow(stale: seq<(TunnelId, u64)>, requests: seq<u64>, n: nat)
    requires n < |stale| == |requests|
    ensures RevokedBy(stale[..n + 1], requests[..n + 1])
         == RevokedBy(stale[..n], requests[..n]) + {(requests[n], stale[n].0, stale[n].1)}
  {
    var longer := RevokedBy(stale[..n + 1], requests[..n + 1]);
    forall i | 0 <= i < n
      ensures (requests[i], stale[i].0, stale[i].1) in longer
    {
      assert stale[..n + 1][i] == stale[i] && requests[..n + 1][i] == requests[i];
    }
    assert stale[..n + 1][n] == stale[n] && requests[..n + 1][n] == requests[n];
  }

  /** The ledger after UNREGISTER frames were written. */
  ghost function Revoked(l: Ledger, names: set<TunnelId>, requests: set<(u64, TunnelId, u64)>): Ledger {
    l.(open := l.open + names, unregisters := l.unregisters + names, revoked := l.revoked + requests)
  }

  lemma RemovalNoted(
      l: Ledger, names: set<TunnelId>, requests: set<(u64, TunnelId, u64)>, q: (u64, TunnelId, u64))
    requires l.registers == {}
    ensures Note(Revoked(l, names, requests), SentUnregister(q.0, q.1, q.2))
         == Revoked(l, names + {q.1}, requests + {q})
  {
    assert l.open + names + {q.1} == l.open + (names + {q.1});
    assert l.unregisters + names + {q.1} == l.unregisters + (names + {q.1});
    assert l.revoked + requests + {q} == l.revoked + (requests + {q});
  }

  lemma {:induction false} RemovalsNoted(
      l: Ledger, stale: seq<(TunnelId, u64)>, requests: seq<u64>)
    requires |requests| == |stale| && l.registers == {}
    ensures NoteAll(l, RemovalEvents(stale, requests))
         == Revoked(l, Names(stale), RevokedBy(stale, requests))
  {
    if |stale| == 0 {
      assert l.open + {} == l.open && l.unregisters + {} == l.unregisters && l.revoked + {} == l.revoked;
      assert Names(stale) == {} && RevokedBy(stale, requests) == {};
    } else {
      var n := |stale| - 1;
      var es := RemovalEvents(stale, requests);
      RemovalsNoted(l, stale[..n], requests[..n]);
      assert es[..n] == RemovalEvents(stale[..n], requests[..n]);
      NamesGrow(stale, n);
      RemovalsGrow(stale, requests, n);
      assert stale[..n + 1] == stale && requests[..n + 1] == requests;
      RemovalNoted(l, Names(stale[..n]), RevokedBy(stale[..n], requests[..n]),
                   (requests[n], stale[n].0, stale[n].1));
    }
  }

  /** The ledger after the REGISTER frames of `window` were written, starting from `l`. */
  ghost predicate Requested(
      l: Ledger, m: Ledger, window: seq<Tunnel>, requests: seq<u64>, wanted: map<TunnelId, Tunnel>,
      fair: bool) {
    && Knows(l, m) && AllAsked(window, requests, m)
    && m.open == {} && m.unregisters == l.unregisters
    && m.registers == l.registers + Ids(window)
    && m.holds.Keys == l.holds.Keys + Ids(window)
    && (forall id | id in l.holds :: m.holds[id] == l.holds[id])
    && BoundAs(window, m.holds)
    && (fair ==> HoldsWanted(m.holds, wanted) && !m.collided)
    && m.misreported == l.misreported && m.unordered == l.unordered
  }

  /** The listeners asked for are held, as far as the session knows. */
  ghost predicate BoundAs(window: seq<Tunnel>, holds: map<TunnelId, Binding>) {
    forall i | 0 <= i < |window| ::
      window[i].id in holds && holds[window[i].id] == BindingOf(window[i])
  }

  lemma BoundGrows(
      window: seq<Tunnel>, n: nat, before: map<TunnelId, Binding>, wanted: map<TunnelId, Tunnel>)
    requires n < |window| && Among(window, wanted) && BoundAs(window[..n], before)
    ensures BoundAs(window[..n + 1], before[window[n].id := BindingOf(window[n])])
  {
    var longer, shorter := window[..n + 1], window[..n];
    forall i | 0 <= i < |longer|
      ensures longer[i].id in before[window[n].id := BindingOf(window[n])]
      ensures before[window[n].id := BindingOf(window[n])][longer[i].id] == BindingOf(longer[i])
    {
      if i < n {
        assert longer[i] == shorter[i] && longer[i] == window[i];
      }
    }
  }

  lemma RequestedGrows(
      l: Ledger, m: Ledger, window: seq<Tunnel>, requests: seq<u64>, wanted: map<TunnelId, Tunnel>,
      fair: bool, n: nat)
    requires n < |window| == |requests| && Among(window, wanted) && Ids(window) !! l.holds.Keys
    requires fair ==> DistinctBindings(wanted)
    requires Requested(l, m, window[..n], requests[..n], wanted, fair)
    ensures Requested(l,
                      Note(m, SentRegister(requests[n], window[n].id, window[n].revision,
                                           BindingOf(window[n]))),
                      window[..n + 1], requests[..n + 1], wanted, fair)
  {
    IdsSplit(window, n, wanted);
    assert window[n].id !in m.holds;
    if fair {
      BindingIsFree(m.holds, wanted, window[n]);
    }
    var e := SentRegister(requests[n], window[n].id, window[n].revision, BindingOf(window[n]));
    var after := Note(m, e);
    assert after.asked == m.asked + {(requests[n], window[n].id, window[n].revision)};
    AskedGrows(window, requests, m, after, n);
    BoundGrows(window, n, m.holds, wanted);
  }

  lemma AskedStays(window: seq<Tunnel>, requests: seq<u64>, l: Ledger, m: Ledger)
    requires AllAsked(window, requests, l) && Knows(l, m)
    ensures AllAsked(window, requests, m)
  {
  }

  lemma AskedGrows(window: seq<Tunnel>, requests: seq<u64>, l: Ledger, m: Ledger, n: nat)
    requires n < |window| == |requests|
    requires AllAsked(window[..n], requests[..n], l) && l.asked <= m.asked
    requires (requests[n], window[n].id, window[n].revision) in m.asked
    ensures AllAsked(window[..n + 1], requests[..n + 1], m)
  {
    var longer, ids := window[..n + 1], requests[..n + 1];
    forall i | 0 <= i < |longer|
      ensures (ids[i], longer[i].id, longer[i].revision) in m.asked
    {
      if i < n {
        assert longer[i] == window[..n][i] && ids[i] == requests[..n][i];
      }
    }
  }

  lemma NothingRequested(
      l: Ledger, window: seq<Tunnel>, requests: seq<u64>, wanted: map<TunnelId, Tunnel>, fair: bool)
    requires |requests| == |window| == 0 && l.open == {}
    requires fair ==> HoldsWanted(l.holds, wanted) && !l.collided
    ensures Requested(l, l, window, requests, wanted, fair)
  {
    assert Ids(window) == {};
  }

  lemma {:induction false} RegistrationsNoted(
      l: Ledger, window: seq<Tunnel>, requests: seq<u64>, wanted: map<TunnelId, Tunnel>, fair: bool)
    requires |requests| == |window| && Among(window, wanted) && Ids(window) !! l.holds.Keys
    requires l.open == {}
    requires fair ==> HoldsWanted(l.holds, wanted) && DistinctBindings(wanted) && !l.collided
    ensures Requested(l, NoteAll(l, RegistrationEvents(window, requests)), window, requests, wanted,
                      fair)
  {
    if |window| == 0 {
      NothingRequested(l, window, requests, wanted, fair);
    } else {
      var n := |window| - 1;
      var es := RegistrationEvents(window, requests);
      assert es[..n] == RegistrationEvents(window[..n], requests[..n]);
      IdsSplit(window, n, wanted);
      assert window[..n + 1] == window && requests[..n + 1] == requests;
      RegistrationsNoted(l, window[..n], requests[..n], wanted, fair);
      RequestedGrows(l, NoteAll(l, es[..n]), window, requests, wanted, fair, n);
      assert es[n] == SentRegister(requests[n], window[n].id, window[n].revision, BindingOf(window[n]));
      assert NoteAll(l, es) == Note(NoteAll(l, es[..n]), es[n]);
    }
  }

  // ---------- Small facts about windows ----------

  lemma MustAcknowledge(f: Frame, q: (u64, TunnelId, u64), l: Ledger)
    requires f in l.heard && q in l.revoked && f.requestId == q.0 && !IsNoise(f)
    ensures f == RemovedFrame(q.0, q.1, q.2) || Misanswered(l)
  {
    assert f == RemovedFrame(q.0, q.1, q.2) || IsBadRemoval(f, q);
  }

  lemma MustAnswer(f: Frame, q: (u64, TunnelId, u64), l: Ledger)
    requires f in l.heard && q in l.asked && f.requestId == q.0 && !IsNoise(f)
    ensures || f == OkFrame(q.0, q.1, q.2)
            || (f.kind.RegisterTunnelError? && f.payload.Rejection?
                && f == ErrorFrame(q.0, q.1, f.payload.code, q.2))
            || Misanswered(l)
  {
    if !IsBadAnswer(f, q) && f != OkFrame(q.0, q.1, q.2) {
      var code :| f == ErrorFrame(q.0, q.1, code, q.2);
    }
  }

  /** Different registrations, each at the revision it is listed with. */
  ghost predicate Held(stale: seq<(TunnelId, u64)>, registered: map<TunnelId, Registered>) {
    && (forall i | 0 <= i < |stale| ::
          stale[i].0 in registered && registered[stale[i].0].revision == stale[i].1)
    && (forall i, j | 0 <= i < j < |stale| :: stale[i].0 != stale[j].0)
  }

  lemma HeldAppend(stale: seq<(TunnelId, u64)>, id: TunnelId, registered: map<TunnelId, Registered>)
    requires Held(stale, registered) && id in registered && id !in Names(stale)
    ensures Held(stale + [(id, registered[id].revision)], registered)
  {
  }

  /** The first of the rest can be removed, and is not among those removed before. */
  lemma HeldHead(stale: seq<(TunnelId, u64)>, k: nat, registered: map<TunnelId, Registered>)
    requires k < |stale| && Held(stale[k..], registered)
    ensures stale[k].0 in registered && registered[stale[k].0].revision == stale[k].1
    ensures Held(stale[k + 1..], registered - {stale[k].0})
  {
    var here, later := stale[k..], stale[k + 1..];
    assert here[0] == stale[k];
    assert forall i | 0 <= i < |later| :: later[i] == here[i + 1];
  }

  lemma HeldSplit(
      stale: seq<(TunnelId, u64)>, from: nat, until: nat, registered: map<TunnelId, Registered>)
    requires from <= until <= |stale| && Held(stale[from..], registered)
    ensures Held(stale[from..until], registered)
    ensures Held(stale[until..], registered - Names(stale[from..until]))
  {
    var all, first, rest := stale[from..], stale[from..until], stale[until..];
    assert forall i | 0 <= i < |first| :: first[i] == all[i];
    assert forall i | 0 <= i < |rest| :: rest[i] == all[i + (until - from)];
  }

  ghost predicate OnlyHeard(l: Ledger, m: Ledger) {
    l.heard <= m.heard && m == l.(heard := m.heard)
  }

  /**
    The registrations after a window: the earlier ones are untouched, and each tunnel of the window
    is registered as asked, or the server refused it.
  */
  ghost predicate Extended(
      before: map<TunnelId, Registered>, after: map<TunnelId, Registered>,
      targetsBefore: map<TunnelId, LocalTarget>, targets: map<TunnelId, LocalTarget>,
      window: seq<Tunnel>, l: Ledger) {
    && after.Keys == targets.Keys && before.Keys == targetsBefore.Keys
    && before.Keys <= after.Keys <= before.Keys + Ids(window)
    && (forall id | id in before ::
          after[id] == before[id] && targets[id] == targetsBefore[id])
    && (forall i | 0 <= i < |window| :: AsAsked(window[i], after, targets, l))
  }

  ghost predicate AsAsked(
      t: Tunnel, after: map<TunnelId, Registered>, targets: map<TunnelId, LocalTarget>, l: Ledger) {
    if t.id in after
    then after[t.id].revision == t.revision && t.id in targets && targets[t.id] == TargetOf(t)
    else Rejected(l, t.id, t.revision)
  }

  ghost predicate AllAsked(window: seq<Tunnel>, requests: seq<u64>, l: Ledger) {
    && |requests| == |window|
    && forall i | 0 <= i < |window| :: (requests[i], window[i].id, window[i].revision) in l.asked
  }

  /** The answers to `window[..k]` were taken, the others are awaited. */
  ghost predicate Underway(
      registered: map<TunnelId, Registered>, l: Ledger, window: seq<Tunnel>, k: nat,
      wanted: map<TunnelId, Tunnel>, fair: bool)
    requires k <= |window|
  {
    && l.open == {}
    && l.holds.Keys == registered.Keys + Ids(window[k..])
    && registered.Keys !! Ids(window[k..])
    && BoundAs(window[k..], l.holds)
    && (fair ==> HoldsWanted(l.holds, wanted))
  }

  lemma UnderwayGrows(
      registered: map<TunnelId, Registered>, after: map<TunnelId, Registered>, l: Ledger, m: Ledger,
      window: seq<Tunnel>, k: nat, wanted: map<TunnelId, Tunnel>, fair: bool)
    requires k < |window| && Among(window, wanted)
    requires Underway(registered, l, window, k, wanted, fair)
    requires m.open <= l.open
    requires || (after.Keys == registered.Keys + {window[k].id} && m.holds == l.holds)
             || (after.Keys == registered.Keys && m.holds == l.holds - {window[k].id})
    ensures Underway(after, m, window, k + 1, wanted, fair)
  {
    IdsSplit(window, k, wanted);
    BoundLater(window, k, l.holds, m.holds, wanted);
  }

  lemma BoundLater(
      window: seq<Tunnel>, k: nat, before: map<TunnelId, Binding>, after: map<TunnelId, Binding>,
      wanted: map<TunnelId, Tunnel>)
    requires k < |window| && Among(window, wanted) && BoundAs(window[k..], before)
    requires after == before || after == before - {window[k].id}
    ensures BoundAs(window[k + 1..], after)
  {
    var here, later := window[k..], window[k + 1..];
    forall i | 0 <= i < |later|
      ensures later[i].id in after && after[later[i].id] == BindingOf(later[i])
    {
      assert later[i] == here[i + 1] && later[i] == window[k + 1 + i];
    }
  }

  /** A tunnel was registered as asked, or refused. */
  ghost predicate Took(
      t: Tunnel, before: map<TunnelId, Registered>, after: map<TunnelId, Registered>,
      targetsBefore: map<TunnelId, LocalTarget>, targets: map<TunnelId, LocalTarget>, l: Ledger,
      m: Ledger) {
    && Knows(l, m) && m.open <= l.open
    && (|| (&& after == before[t.id := Registered(t.revision, t.remote)]
            && targets == targetsBefore[t.id := TargetOf(t)] && m.holds == l.holds)
        || (&& after == before && targets == targetsBefore && Rejected(m, t.id, t.revision)
            && m.holds == l.holds - {t.id}))
  }

  /**
    The answers to `window[..k]` were taken. Like `Leads`, this is said so that a proof that only
    passes it on does not look into it.
  */
  ghost predicate Stage(
      before: map<TunnelId, Registered>, after: map<TunnelId, Registered>,
      targetsBefore: map<TunnelId, LocalTarget>, targets: map<TunnelId, LocalTarget>,
      window: seq<Tunnel>, k: nat, l: Ledger, wanted: map<TunnelId, Tunnel>, fair: bool) {
    forall j: nat {:trigger At(j, k)} | At(j, k) ::
      && j <= |window| && Among(window, wanted)
      && Underway(after, l, window, j, wanted, fair)
      && Extended(before, after, targetsBefore, targets, window[..j], l)
  }

  lemma StageStarts(
      registered: map<TunnelId, Registered>, targets: map<TunnelId, LocalTarget>, window: seq<Tunnel>,
      l: Ledger, wanted: map<TunnelId, Tunnel>, fair: bool)
    requires registered.Keys == targets.Keys && Among(window, wanted)
    requires Ids(window) !! registered.Keys
    requires l.open == {} && l.holds.Keys == registered.Keys + Ids(window)
    requires BoundAs(window, l.holds) && (fair ==> HoldsWanted(l.holds, wanted))
    ensures Stage(registered, registered, targets, targets, window, 0, l, wanted, fair)
  {
    assert window[0..] == window && window[..0] == [];
  }

  lemma StageIs(
      before: map<TunnelId, Registered>, after: map<TunnelId, Registered>,
      targetsBefore: map<TunnelId, LocalTarget>, targets: map<TunnelId, LocalTarget>,
      window: seq<Tunnel>, k: nat, l: Ledger, wanted: map<TunnelId, Tunnel>, fair: bool)
    requires Stage(before, after, targetsBefore, targets, window, k, l, wanted, fair) && k < |window|
    ensures window[k].id !in after && window[k].id in l.holds
    ensures l.holds[window[k].id] == BindingOf(window[k])
  {
    assert At(k, k);
    IdsSplit(window, k, wanted);
    assert window[k..][0] == window[k];
  }

  lemma StageNext(
      before: map<TunnelId, Registered>, middle: map<TunnelId, Registered>,
      after: map<TunnelId, Registered>,
      targetsBefore: map<TunnelId, LocalTarget>, targetsMiddle: map<TunnelId, LocalTarget>,
      targets: map<TunnelId, LocalTarget>, window: seq<Tunnel>, k: nat, l: Ledger, m: Ledger,
      wanted: map<TunnelId, Tunnel>, fair: bool)
    requires k < |window|
    requires Stage(before, middle, targetsBefore, targetsMiddle, window, k, l, wanted, fair)
    requires Took(window[k], middle, after, targetsMiddle, targets, l, m)
    ensures Stage(before, after, targetsBefore, targets, window, k + 1, m, wanted, fair)
  {
    assert At(k, k);
    IdsSplit(window, k, wanted);
    TookKeys(window[k], middle, after, targetsMiddle, targets, l, m);
    UnderwayGrows(middle, after, l, m, window, k, wanted, fair);
    ExtendedGrows(before, middle, after, targetsBefore, targetsMiddle, targets, window, k, l, m);
  }

  /** Of `window[..k]`, what the server accepted is registered and nothing else. */
  ghost predicate AcceptedOnly(
      all: AwaitedAll, window: seq<Tunnel>, registered: map<TunnelId, Registered>, k: nat) {
    forall j | 0 <= j < k && j < |window| && all.frames.Some? && j < |all.frames.value| ::
      window[j].id in registered <==> all.frames.value[j].kind.RegisterTunnelOk?
  }

  lemma AcceptedNext(
      all: AwaitedAll, window: seq<Tunnel>, before: map<TunnelId, Registered>,
      after: map<TunnelId, Registered>, k: nat, wanted: map<TunnelId, Tunnel>)
    requires k < |window| && Among(window, wanted) && AcceptedOnly(all, window, before, k)
    requires after.Keys == before.Keys || after.Keys == before.Keys + {window[k].id}
    requires all.frames.Some? && k < |all.frames.value| ==>
               (window[k].id in after <==> all.frames.value[k].kind.RegisterTunnelOk?)
    ensures AcceptedOnly(all, window, after, k + 1)
  {
  }

  lemma TookKeys(
      t: Tunnel, before: map<TunnelId, Registered>, after: map<TunnelId, Registered>,
      targetsBefore: map<TunnelId, LocalTarget>, targets: map<TunnelId, LocalTarget>, l: Ledger,
      m: Ledger)
    requires Took(t, before, after, targetsBefore, targets, l, m)
    ensures || (after.Keys == before.Keys + {t.id} && m.holds == l.holds)
            || (after.Keys == before.Keys && m.holds == l.holds - {t.id})
  {
  }

  lemma StageEnds(
      before: map<TunnelId, Registered>, after: map<TunnelId, Registered>,
      targetsBefore: map<TunnelId, LocalTarget>, targets: map<TunnelId, LocalTarget>,
      window: seq<Tunnel>, l: Ledger, wanted: map<TunnelId, Tunnel>, fair: bool)
    requires Stage(before, after, targetsBefore, targets, window, |window|, l, wanted, fair)
    ensures l.open == {} && l.holds.Keys == after.Keys && (fair ==> HoldsWanted(l.holds, wanted))
    ensures Extended(before, after, targetsBefore, targets, window, l)
  {
    assert At(|window|, |window|);
    assert window[..|window|] == window && window[|window|..] == [];
  }

  /** The acknowledgements of `stale[..k]` were taken. */
  ghost predicate Revoking(
      before: map<TunnelId, Registered>, after: map<TunnelId, Registered>, sent: Ledger, l: Ledger,
      stale: seq<(TunnelId, u64)>, k: nat) {
    forall j: nat {:trigger At(j, k)} | At(j, k) ::
      && j <= |stale| && Held(stale[j..], after) && Names(stale) <= sent.open
      && after == before - Names(stale[..j])
      && l.holds == sent.holds - Names(stale[..j]) && l.open == sent.open - Names(stale[..j])
      && l.registers == sent.registers && l.unregisters == sent.unregisters
      && (forall a, b | 0 <= a < b < |stale| :: stale[a].0 != stale[b].0)
  }

  lemma RevokingStarts(registered: map<TunnelId, Registered>, l: Ledger, stale: seq<(TunnelId, u64)>)
    requires Held(stale, registered) && Names(stale) <= l.open
    ensures Revoking(registered, registered, l, l, stale, 0)
  {
    assert stale[0..] == stale && Names(stale[..0]) == {};
    assert registered - {} == registered && l.holds - {} == l.holds;
  }

  /** The next tunnel can be acknowledged; what that does is one step on. */
  lemma RevokingNext(
      before: map<TunnelId, Registered>, after: map<TunnelId, Registered>, sent: Ledger, l: Ledger,
      stale: seq<(TunnelId, u64)>, k: nat)
    requires Revoking(before, after, sent, l, stale, k) && k < |stale|
    ensures stale[k].0 in after && after[stale[k].0].revision == stale[k].1 && stale[k].0 in l.open
    ensures forall m: Ledger |
              && m.holds == l.holds - {stale[k].0} && m.open == l.open - {stale[k].0}
              && m.registers == l.registers && m.unregisters == l.unregisters ::
              Revoking(before, after - {stale[k].0}, sent, m, stale, k + 1)
  {
    assert At(k, k);
    HeldHead(stale, k, after);
    NamesGrow(stale, k);
    MinusJoin(before, Names(stale[..k]), {stale[k].0});
    MinusJoin(sent.holds, Names(stale[..k]), {stale[k].0});
    NotYetNamed(stale, k);
  }

  lemma NotYetNamed(stale: seq<(TunnelId, u64)>, k: nat)
    requires k < |stale| && (forall i, j | 0 <= i < j < |stale| :: stale[i].0 != stale[j].0)
    ensures stale[k].0 in Names(stale) && stale[k].0 !in Names(stale[..k])
  {
  }

  lemma RevokingEnds(
      before: map<TunnelId, Registered>, after: map<TunnelId, Registered>, sent: Ledger, l: Ledger,
      stale: seq<(TunnelId, u64)>)
    requires Revoking(before, after, sent, l, stale, |stale|)
    ensures after == before - Names(stale) && l.holds == sent.holds - Names(stale)
    ensures l.open == sent.open - Names(stale)
    ensures l.registers == sent.registers && l.unregisters == sent.unregisters
  {
    assert At(|stale|, |stale|);
    assert stale[..|stale|] == stale;
  }

  /** One more answer of the window was taken. */
  lemma ExtendedGrows(
      before: map<TunnelId, Registered>, middle: map<TunnelId, Registered>,
      after: map<TunnelId, Registered>,
      targetsBefore: map<TunnelId, LocalTarget>, targetsMiddle: map<TunnelId, LocalTarget>,
      targets: map<TunnelId, LocalTarget>, window: seq<Tunnel>, k: nat, l: Ledger, m: Ledger)
    requires k < |window| && Knows(l, m)
    requires window[k].id !in Ids(window[..k]) && window[k].id !in middle
    requires Extended(before, middle, targetsBefore, targetsMiddle, window[..k], l)
    requires || (&& after == middle[window[k].id := Registered(window[k].revision, window[k].remote)]
                 && targets == targetsMiddle[window[k].id := TargetOf(window[k])])
             || (&& after == middle && targets == targetsMiddle
                 && Rejected(m, window[k].id, window[k].revision))
    ensures Extended(before, after, targetsBefore, targets, window[..k + 1], m)
  {
    KnowsKeeps(l, m);
    IdsLonger(window, k);
    var longer, shorter := window[..k + 1], window[..k];
    forall i | 0 <= i < |longer|
      ensures AsAsked(longer[i], after, targets, m)
    {
      if i < k {
        assert longer[i] == shorter[i] && shorter[i].id in Ids(shorter);
        assert AsAsked(shorter[i], middle, targetsMiddle, l);
      }
    }
  }

  ghost predicate Among(window: seq<Tunnel>, wanted: map<TunnelId, Tunnel>) {
    && (forall i | 0 <= i < |window| :: window[i].id in wanted && wanted[window[i].id] == window[i])
    && (forall i, j | 0 <= i < j < |window| :: window[i].id != window[j].id)
  }

  ghost function Names(stale: seq<(TunnelId, u64)>): set<TunnelId> {
    set i | 0 <= i < |stale| :: stale[i].0
  }

  ghost function Ids(window: seq<Tunnel>): set<TunnelId> {
    set i | 0 <= i < |window| :: window[i].id
  }

  lemma NamesGrow(stale: seq<(TunnelId, u64)>, i: nat)
    requires i < |stale|
    ensures Names(stale[..i + 1]) == Names(stale[..i]) + {stale[i].0}
  {
    var longer, shorter := stale[..i + 1], stale[..i];
    assert longer[i] == stale[i];
    forall id | id in Names(shorter) ensures id in Names(longer) {
      var k :| 0 <= k < |shorter| && shorter[k].0 == id;
      assert longer[k].0 == id;
    }
  }

  lemma IdsSplit(window: seq<Tunnel>, k: nat, wanted: map<TunnelId, Tunnel>)
    requires k < |window| && Among(window, wanted)
    ensures Ids(window[k..]) == {window[k].id} + Ids(window[k + 1..])
    ensures Ids(window[..k + 1]) == Ids(window[..k]) + {window[k].id}
    ensures window[k].id !in Ids(window[k + 1..]) && window[k].id !in Ids(window[..k])
    ensures window[k].id in Ids(window)
  {
    assert window[k].id in Ids(window);
    IdsLonger(window, k);
    IdsLater(window, k);
  }

  lemma IdsLonger(window: seq<Tunnel>, k: nat)
    requires k < |window|
    ensures Ids(window[..k + 1]) == Ids(window[..k]) + {window[k].id}
  {
    var longer, shorter := window[..k + 1], window[..k];
    assert longer[k] == window[k];
    forall id | id in Ids(shorter) ensures id in Ids(longer) {
      var i :| 0 <= i < |shorter| && shorter[i].id == id;
      assert longer[i].id == id;
    }
  }

  lemma IdsLater(window: seq<Tunnel>, k: nat)
    requires k < |window|
    ensures Ids(window[k..]) == {window[k].id} + Ids(window[k + 1..])
  {
    var here, later := window[k..], window[k + 1..];
    assert here[0] == window[k];
    forall id | id in Ids(later) ensures id in Ids(here) {
      var i :| 0 <= i < |later| && later[i].id == id;
      assert here[i + 1].id == id;
    }
    forall id | id in Ids(here) ensures id in {window[k].id} + Ids(later) {
      var i :| 0 <= i < |here| && here[i].id == id;
      if i > 0 {
        assert later[i - 1].id == id;
      }
    }
  }

  lemma BindingIsFree(holds: map<TunnelId, Binding>, wanted: map<TunnelId, Tunnel>, t: Tunnel)
    requires HoldsWanted(holds, wanted) && DistinctBindings(wanted)
    requires t.id in wanted && wanted[t.id] == t && t.id !in holds
    ensures BindingOf(t) !in holds.Values
  {
  }

  lemma Narrowed(buffer: Buffer, id: u64)
    requires id in buffer
    ensures |buffer - {id}| <= |buffer|
  {
    RemoveOne(buffer, id);
  }

  lemma NamesAppend(stale: seq<(TunnelId, u64)>, x: (TunnelId, u64))
    ensures Names(stale + [x]) == Names(stale) + {x.0}
  {
    NamesGrow(stale + [x], |stale|);
    assert (stale + [x])[..|stale|] == stale && (stale + [x])[..|stale| + 1] == stale + [x];
  }

  lemma {:induction false} NamesJoin(stale: seq<(TunnelId, u64)>, from: nat, until: nat)
    requires from <= until <= |stale|
    ensures Names(stale[..until]) == Names(stale[..from]) + Names(stale[from..until])
    decreases until
  {
    if from < until {
      NamesJoin(stale, from, until - 1);
      NamesGrow(stale, until - 1);
      assert stale[from..until] == stale[from..until - 1] + [stale[until - 1]];
      NamesAppend(stale[from..until - 1], stale[until - 1]);
    } else {
      assert Names(stale[from..until]) == {};
    }
  }

  lemma MinusJoin<V>(m: map<TunnelId, V>, a: set<TunnelId>, b: set<TunnelId>)
    ensures m - a - b == m - (a + b)
  {
  }

  /** The rows of `rows` that are wanted, not registered, and of a negotiated mode. */
  ghost function MissingAmong(
      rows: seq<Tunnel>, registered: map<TunnelId, Registered>, supported: set<Mode>)
    : set<TunnelId>
  {
    set i | 0 <= i < |rows| && IsMissing(rows[i], registered, supported) :: rows[i].id
  }

  ghost predicate IsMissing(
      t: Tunnel, registered: map<TunnelId, Registered>, supported: set<Mode>) {
    t.desired.WantActive? && t.id !in registered && t.mode in supported
  }

  lemma MissingGrows(
      rows: seq<Tunnel>, i: nat, registered: map<TunnelId, Registered>, supported: set<Mode>)
    requires i < |rows|
    ensures MissingAmong(rows[..i + 1], registered, supported)
         == MissingAmong(rows[..i], registered, supported)
            + (if IsMissing(rows[i], registered, supported) then {rows[i].id} else {})
  {
    var longer, shorter := rows[..i + 1], rows[..i];
    assert longer[i] == rows[i];
    forall id | id in MissingAmong(shorter, registered, supported)
      ensures id in MissingAmong(longer, registered, supported)
    {
      var k :| 0 <= k < |shorter| && IsMissing(shorter[k], registered, supported) && shorter[k].id == id;
      assert longer[k] == shorter[k];
    }
  }

  lemma MissingIsAll(
      snapshot: seq<Tunnel>, registered: map<TunnelId, Registered>, supported: set<Mode>)
    requires UniqueIds(snapshot)
    requires forall id | id in registered :: !IsStale(id, registered[id], Wanted(snapshot))
    ensures MissingAmong(snapshot, registered, supported)
         == MissingIds(registered, Wanted(snapshot), supported)
    ensures forall id | id in registered ::
              id in Wanted(snapshot) && Wanted(snapshot)[id].id == id
              && Wanted(snapshot)[id].desired.WantActive? && Wanted(snapshot)[id] in snapshot
  {
    WantedIs(snapshot);
    var wanted := Wanted(snapshot);
    forall id | id in MissingIds(registered, wanted, supported)
      ensures id in MissingAmong(snapshot, registered, supported)
    {
      var k :| 0 <= k < |snapshot| && snapshot[k] == wanted[id];
      assert IsMissing(snapshot[k], registered, supported);
    }
  }

  /** `rows` were gone through: retained targets are refreshed and the missing tunnels listed. */
  ghost predicate Sorted(
      rows: seq<Tunnel>, registered: map<TunnelId, Registered>, supported: set<Mode>,
      wanted: map<TunnelId, Tunnel>, targets: map<TunnelId, LocalTarget>, pending: seq<Tunnel>) {
    && Among(pending, wanted)
    && Ids(pending) == MissingAmong(rows, registered, supported)
    && forall t | t in rows && t.desired.WantActive? && t.id in registered ::
         t.id in targets && targets[t.id] == TargetOf(t)
  }

  /** The first `k` rows were gone through; said like `Stage`. */
  ghost predicate SortedUpTo(
      snapshot: seq<Tunnel>, k: nat, registered: map<TunnelId, Registered>, supported: set<Mode>,
      wanted: map<TunnelId, Tunnel>, targets: map<TunnelId, LocalTarget>, pending: seq<Tunnel>) {
    forall j: nat {:trigger At(j, k)} | At(j, k) ::
      j <= |snapshot| && Sorted(snapshot[..j], registered, supported, wanted, targets, pending)
  }

  lemma SortStarts(
      snapshot: seq<Tunnel>, registered: map<TunnelId, Registered>, supported: set<Mode>,
      wanted: map<TunnelId, Tunnel>, targets: map<TunnelId, LocalTarget>)
    ensures SortedUpTo(snapshot, 0, registered, supported, wanted, targets, [])
  {
    assert snapshot[..0] == [] && MissingAmong([], registered, supported) == {};
  }

  lemma RetainedFits(
      snapshot: seq<Tunnel>, i: nat, registered: map<TunnelId, Registered>,
      wanted: map<TunnelId, Tunnel>)
    requires i < |snapshot| && UniqueIds(snapshot) && wanted == Wanted(snapshot)
    requires forall id | id in registered :: !IsStale(id, registered[id], wanted)
    ensures snapshot[i].id in registered && snapshot[i].desired.WantActive? ==>
              registered[snapshot[i].id].revision == snapshot[i].revision
  {
    WantedIs(snapshot);
    assert snapshot[i] in snapshot;
  }

  lemma SortNext(
      snapshot: seq<Tunnel>, i: nat, registered: map<TunnelId, Registered>, supported: set<Mode>,
      wanted: map<TunnelId, Tunnel>, before: map<TunnelId, LocalTarget>,
      targets: map<TunnelId, LocalTarget>, pending0: seq<Tunnel>, pending: seq<Tunnel>)
    requires i < |snapshot| && UniqueIds(snapshot) && wanted == Wanted(snapshot)
    requires SortedUpTo(snapshot, i, registered, supported, wanted, before, pending0)
    requires targets == before || targets == before[snapshot[i].id := TargetOf(snapshot[i])]
    requires snapshot[i].id in registered && snapshot[i].desired.WantActive? ==>
               snapshot[i].id in targets && targets[snapshot[i].id] == TargetOf(snapshot[i])
    requires pending == if IsMissing(snapshot[i], registered, supported)
                        then pending0 + [snapshot[i]] else pending0
    ensures SortedUpTo(snapshot, i + 1, registered, supported, wanted, targets, pending)
  {
    assert At(i, i);
    SortedGrows(snapshot, i, registered, supported, wanted, before, targets, pending0, pending);
  }

  lemma SortEnds(
      snapshot: seq<Tunnel>, registered: map<TunnelId, Registered>, supported: set<Mode>,
      wanted: map<TunnelId, Tunnel>, targets: map<TunnelId, LocalTarget>, pending: seq<Tunnel>)
    requires UniqueIds(snapshot) && wanted == Wanted(snapshot)
    requires forall id | id in registered :: !IsStale(id, registered[id], wanted)
    requires SortedUpTo(snapshot, |snapshot|, registered, supported, wanted, targets, pending)
    ensures Among(pending, wanted) && Ids(pending) == MissingIds(registered, wanted, supported)
    ensures forall id | id in registered ::
              id in wanted && id in targets && targets[id] == TargetOf(wanted[id])
  {
    assert At(|snapshot|, |snapshot|);
    assert snapshot[..|snapshot|] == snapshot;
    MissingIsAll(snapshot, registered, supported);
  }

  lemma SortedGrows(
      snapshot: seq<Tunnel>, i: nat, registered: map<TunnelId, Registered>, supported: set<Mode>,
      wanted: map<TunnelId, Tunnel>, before: map<TunnelId, LocalTarget>,
      targets: map<TunnelId, LocalTarget>, pending0: seq<Tunnel>, pending: seq<Tunnel>)
    requires i < |snapshot| && UniqueIds(snapshot) && wanted == Wanted(snapshot)
    requires Sorted(snapshot[..i], registered, supported, wanted, before, pending0)
    requires targets == before || targets == before[snapshot[i].id := TargetOf(snapshot[i])]
    requires snapshot[i].id in registered && snapshot[i].desired.WantActive? ==>
               snapshot[i].id in targets && targets[snapshot[i].id] == TargetOf(snapshot[i])
    requires pending == if IsMissing(snapshot[i], registered, supported)
                        then pending0 + [snapshot[i]] else pending0
    ensures Sorted(snapshot[..i + 1], registered, supported, wanted, targets, pending)
  {
    MissingGrows(snapshot, i, registered, supported);
    RowApart(snapshot, i);
    if IsMissing(snapshot[i], registered, supported) {
      WantedIs(snapshot);
      assert snapshot[i] in snapshot;
      AmongGrows(pending0, snapshot[i], wanted, snapshot[..i], registered, supported);
    }
  }

  lemma RowApart(snapshot: seq<Tunnel>, i: nat)
    requires i < |snapshot| && UniqueIds(snapshot)
    ensures forall t | t in snapshot[..i] :: t.id != snapshot[i].id
    ensures snapshot[..i + 1] == snapshot[..i] + [snapshot[i]]
  {
  }

  lemma AmongGrows(
      pending: seq<Tunnel>, t: Tunnel, wanted: map<TunnelId, Tunnel>, rows: seq<Tunnel>,
      registered: map<TunnelId, Registered>, supported: set<Mode>)
    requires Among(pending, wanted) && t.id in wanted && wanted[t.id] == t
    requires Ids(pending) == MissingAmong(rows, registered, supported)
    requires forall r | r in rows :: r.id != t.id
    ensures Among(pending + [t], wanted)
    ensures Ids(pending + [t]) == Ids(pending) + {t.id}
  {
    assert t.id !in Ids(pending);
    forall i | 0 <= i < |pending|
      ensures pending[i].id != t.id
    {
      assert pending[i].id in Ids(pending);
    }
    IdsLonger(pending + [t], |pending|);
    assert (pending + [t])[..|pending|] == pending && (pending + [t])[..|pending| + 1] == pending + [t];
  }

  lemma {:induction false} IdsJoin(window: seq<Tunnel>, from: nat, until: nat)
    requires from <= until <= |window|
    ensures Ids(window[..until]) == Ids(window[..from]) + Ids(window[from..until])
    decreases until
  {
    if from < until {
      IdsJoin(window, from, until - 1);
      IdsLonger(window, until - 1);
      var slice := window[from..until];
      assert slice[..|slice| - 1] == window[from..until - 1] && slice[..|slice|] == slice;
      IdsLonger(slice, |slice| - 1);
    } else {
      assert Ids(window[from..until]) == {};
    }
  }

  lemma AmongSlice(window: seq<Tunnel>, from: nat, until: nat, wanted: map<TunnelId, Tunnel>)
    requires from <= until <= |window| && Among(window, wanted)
    ensures Among(window[from..until], wanted)
    ensures Ids(window[from..until]) !! Ids(window[..from]) && Ids(window[from..until]) <= Ids(window)
    ensures Ids(window[..until]) == Ids(window[..from]) + Ids(window[from..until])
  {
    IdsJoin(window, from, until);
    var slice := window[from..until];
    forall i | 0 <= i < |slice|
      ensures slice[i].id in Ids(window) && slice[i].id !in Ids(window[..from])
    {
      assert slice[i] == window[from + i];
    }
  }

  /** Two windows one after the other. */
  lemma ExtendedJoin(
      before: map<TunnelId, Registered>, middle: map<TunnelId, Registered>,
      after: map<TunnelId, Registered>,
      targetsBefore: map<TunnelId, LocalTarget>, targetsMiddle: map<TunnelId, LocalTarget>,
      targets: map<TunnelId, LocalTarget>, pending: seq<Tunnel>, from: nat, until: nat,
      wanted: map<TunnelId, Tunnel>, l: Ledger, m: Ledger)
    requires from <= until <= |pending| && Among(pending, wanted) && Knows(l, m)
    requires Extended(before, middle, targetsBefore, targetsMiddle, pending[..from], l)
    requires Extended(middle, after, targetsMiddle, targets, pending[from..until], m)
    ensures Extended(before, after, targetsBefore, targets, pending[..until], m)
  {
    KnowsKeeps(l, m);
    AmongSlice(pending, from, until, wanted);
    var all, first, second := pending[..until], pending[..from], pending[from..until];
    forall i | 0 <= i < |all|
      ensures AsAsked(all[i], after, targets, m)
    {
      if i < from {
        assert all[i] == first[i] && first[i].id in Ids(first);
        assert AsAsked(first[i], middle, targetsMiddle, l);
      } else {
        assert all[i] == second[i - from];
        assert AsAsked(second[i - from], after, targets, m);
      }
    }
  }

  /** The phases of a cycle add up to its outcome. */
  lemma OutcomeHolds(
      before: map<TunnelId, Registered>, wanted: map<TunnelId, Tunnel>, supported: set<Mode>,
      retained: map<TunnelId, Registered>, refreshed: map<TunnelId, LocalTarget>,
      pending: seq<Tunnel>, after: map<TunnelId, Registered>, targets: map<TunnelId, LocalTarget>,
      l: Ledger)
    requires retained == before - StaleIds(before, wanted) && retained.Keys == refreshed.Keys
    requires forall id | id in retained :: id in wanted && refreshed[id] == TargetOf(wanted[id])
    requires Among(pending, wanted) && Ids(pending) == MissingIds(retained, wanted, supported)
    requires Extended(retained, after, refreshed, targets, pending, l)
    requires l.unregisters == StaleIds(before, wanted)
    requires l.registers == Ids(pending)
    ensures CycleOutcome(before, wanted, supported, after, targets, l)
    ensures (map id | id in targets && id in wanted :: targets[id]) == targets
  {
    assert MissingIds(retained, wanted, supported) == MissingIds(before, wanted, supported);
    forall id | id in wanted && id !in after && wanted[id].mode in supported
      ensures Rejected(l, id, wanted[id].revision)
    {
      assert id in Ids(pending);
      var i :| 0 <= i < |pending| && pending[i].id == id;
      assert AsAsked(pending[i], after, targets, l);
    }
    forall id | id in after
      ensures id in wanted && after[id].revision == wanted[id].revision
      ensures targets[id] == TargetOf(wanted[id])
    {
      if id !in retained {
        assert id in Ids(pending);
        var i :| 0 <= i < |pending| && pending[i].id == id;
        assert AsAsked(pending[i], after, targets, l);
      }
    }
  }

  // ---------- A server that answers each request once ----------

  function Acceptance(q: Request): Frame {
    if q.removal then RemovedFrame(q.requestId, q.id, q.revision)
    else OkFrame(q.requestId, q.id, q.revision)
  }

  function Acceptances(window: Window): seq<Input> {
    if |window| == 0 then []
    else [Arrives(Acceptance(window[0]), true)] + Acceptances(window[1..])
  }

  function AcceptAll(h: seq<Window>): seq<Input> {
    if |h| == 0 then [] else Acceptances(h[|h| - 1])
  }

  lemma {:induction false} AcceptancesAnswer(window: Window)
    requires Distinct(RequestIds(window)) && 0 !in RequestIds(window)
    ensures AnswersAll(Acceptances(window), window)
    decreases |window|
  {
    var ids := RequestIds(window);
    if |window| == 0 {
      assert Elements(ids) == {};
    } else {
      assert RequestIds(window[1..]) == ids[1..] && ids[0] == window[0].requestId;
      HeadApart(ids);
      AcceptancesAnswer(window[1..]);
      OneMoreAnswer(Acceptance(window[0]), Acceptances(window[1..]));
      OneMoreAnswered(window, Acceptances(window[1..]));
    }
  }

  lemma OneMoreAnswered(window: Window, later: seq<Input>)
    requires |window| > 0 && Distinct(RequestIds(window)) && AnswersAll(later, window[1..])
    requires AnsweredOnce([Arrives(Acceptance(window[0]), true)] + later)
    requires AnswersIn([Arrives(Acceptance(window[0]), true)] + later)
          == AnswersIn(later)[window[0].requestId := Acceptance(window[0])]
    ensures AnswersAll([Arrives(Acceptance(window[0]), true)] + later, window)
  {
    var ids, rest, answers := RequestIds(window), window[1..], AnswersIn(later);
    assert RequestIds(rest) == ids[1..] && ids[0] == window[0].requestId;
    HeadApart(ids);
    assert Elements(ids) == Elements(ids[1..]) + {ids[0]};
    var q := window[0];
    forall i | 0 <= i < |window|
      ensures window[i].requestId in answers[q.requestId := Acceptance(q)]
      ensures IsAnswer(answers[q.requestId := Acceptance(q)][window[i].requestId], window[i])
    {
      if i > 0 {
        assert window[i] == rest[i - 1] && ids[i] == window[i].requestId;
      }
    }
  }

  lemma OneMoreAnswer(f: Frame, later: seq<Input>)
    requires AnsweredOnce(later) && IsCorrelated(f) && f.requestId != 0
    requires f.requestId !in AnswersIn(later)
    ensures var reply := [Arrives(f, true)] + later;
            AnsweredOnce(reply) && AnswersIn(reply) == AnswersIn(later)[f.requestId := f]
  {
    var reply := [Arrives(f, true)] + later;
    assert reply[0].frame == f && reply[1..] == later;
  }

  /** There are such servers: for one, the server that accepts everything. */
  lemma AcceptAllCooperates()
    ensures Cooperative(AcceptAll)
  {
    forall h: seq<Window> | |h| > 0 && IsWindow(h[|h| - 1])
      ensures AnswersAll(AcceptAll(h), h[|h| - 1])
    {
      AcceptancesAnswer(h[|h| - 1]);
    }
  }

  // ---------- Responses that come before their requests ----------

  /**
    At any wait of a session: what was taken for the response to a request was received after the
    request was written, exactly when no response with its id was buffered then.
  */
  lemma SessionResponseIsLaterIff(session: ServerSession, i: nat) returns (sent: nat, arrived: nat)
    requires session.Valid() && i < |session.trace| && session.trace[i].Taken?
    ensures sent < i && arrived < i
    ensures IsRequest(session.trace[sent]) && session.trace[sent].requestId == session.trace[i].requestId
    ensures session.trace[arrived] == Received(session.trace[i].frame)
    ensures arrived > sent <==>
            session.trace[i].requestId !in DeskOf(session.trace[..sent]).buffer
  {
    Recording(session.trace, session.ledger, session.desk, session.fair);
    sent, arrived := ResponseIsLaterIff(session.trace, i);
  }

  /** The buffer that the desk keeps is the session's. */
  lemma BufferIsFiled(session: ServerSession)
    requires session.Valid()
    ensures session.pendingResponses == DeskOf(session.trace).buffer
  {
    Recording(session.trace, session.ledger, session.desk, session.fair);
    Keeping(session.registered, session.pendingResponses, session.ledger, session.desk.buffer);
  }

  /** Replies to the first window with two answers: one for it, and before that one for the next. */
  function Hasty(first: Tunnel, second: Tunnel): seq<Window> -> seq<Input> {
    (h: seq<Window>) =>
      if |h| == 1 then [Arrives(OkFrame(4, second.id, second.revision), true),
                        Arrives(OkFrame(3, first.id, first.revision), true)]
      else []
  }

  lemma HastyIs(first: Tunnel, second: Tunnel)
    ensures var one, two := [RegisterOf(3, first)], [RegisterOf(4, second)];
            && Hasty(first, second)([] + [one])
               == [Arrives(OkFrame(4, second.id, second.revision), true),
                   Arrives(OkFrame(3, first.id, first.revision), true)]
            && Hasty(first, second)([] + [one] + [two]) == []
  {
  }

  lemma EarlyWait(early: Frame, answer: Frame)
    requires IsCorrelated(early) && early.requestId == 4 && !IsNoise(answer) && answer.requestId == 3
    ensures Leads(map[], [] + [Arrives(early, true), Arrives(answer, true)], [3],
                  AwaitedAll(Some([answer]), map[4 := early], []))
    ensures Leads(map[4 := early], [] + [], [4], AwaitedAll(Some([early]), map[], []))
  {
    assert [] + [Arrives(early, true), Arrives(answer, true)]
        == [Arrives(early, true), Arrives(answer, true)];
    Leading(map[], [Arrives(early, true), Arrives(answer, true)], [3]);
    Leading(map[4 := early], [] + [], [4]);
    var input := [Arrives(early, true), Arrives(answer, true)];
    assert input[1..] == [Arrives(answer, true)] && input[1..][1..] == [];
    assert Await(map[], input, 3) == Scan(map[4 := early], input[1..], 3);
    assert Await(map[], input, 3) == Awaited(Some(answer), map[4 := early], []);
    assert [3][1..] == [] && [4][1..] == [];
    assert AwaitAll(map[4 := early], [], []) == AwaitedAll(Some([]), map[4 := early], []);
    assert map[4 := early] - {4} == map[];
    assert AwaitAll(map[], [], []) == AwaitedAll(Some([]), map[], []);
    assert [answer] + [] == [answer] && [early] + [] == [early];
  }

  function AskFor(requestId: u64, t: Tunnel): Event {
    SentRegister(requestId, t.id, t.revision, BindingOf(t))
  }

  /** Registers one tunnel, whose answer leads to `all`. */
  method RegisterOne(
      session: ServerSession, t: Tunnel, ghost wanted: map<TunnelId, Tunnel>, ghost left: Buffer)
    requires session.Valid() && session.Willing() && session.Quiescent()
    requires t.id in wanted && wanted[t.id] == t && t.id !in session.registered
    requires session.fair ==> HoldsWanted(session.ledger.holds, wanted) && DistinctBindings(wanted)
    requires var id := session.nextRequestId;
             Leads(session.pendingResponses,
                   session.input + session.server(session.windows + [[RegisterOf(id, t)]]), [id],
                   AwaitedAll(Some([OkFrame(id, t.id, t.revision)]), left, []))
    modifies session
    ensures session.Valid() && session.Willing() && session.Quiescent()
    ensures session.registered.Keys == old(session.registered).Keys + {t.id}
    ensures session.fair ==> HoldsWanted(session.ledger.holds, wanted)
    ensures session.pendingResponses == left && session.input == []
    ensures session.windows == old(session.windows) + [[RegisterOf(old(session.nextRequestId), t)]]
    ensures session.nextRequestId == Following(old(session.nextRequestId))
    ensures session.desk.early
         == old(session.desk).early
            + EarlyIn([AskFor(old(session.nextRequestId), t)], old(session.pendingResponses))
  {
    ghost var id := session.nextRequestId;
    ghost var all := AwaitedAll(Some([OkFrame(id, t.id, t.revision)]), left, []);
    var requests := AskForOne(session, t, wanted, all);
    assert [t][0] == t && Ids([t]) == {[t][0].id};
    assert Registrations([t], requests) == [RegisterOf(id, t)];
    assert AnsweredAt(all, 0, RegisterOf(id, t));
    var ok := session.TakeAnswers([t], requests, wanted, all);
    assert [t][0].id in session.registered;
  }

  method AskForOne(
      session: ServerSession, t: Tunnel, ghost wanted: map<TunnelId, Tunnel>, ghost all: AwaitedAll)
    returns (requests: seq<u64>)
    requires session.Valid() && session.Willing() && session.Quiescent()
    requires t.id in wanted && wanted[t.id] == t && t.id !in session.registered
    requires session.fair ==> HoldsWanted(session.ledger.holds, wanted) && DistinctBindings(wanted)
    requires var id := session.nextRequestId;
             Leads(session.pendingResponses,
                   session.input + session.server(session.windows + [[RegisterOf(id, t)]]), [id], all)
    modifies session`nextRequestId, session`input, session`outcomes, session`refused, session`windows,
             session`trace, session`ledger, session`desk
    ensures session.Valid() && session.Willing() && requests == [old(session.nextRequestId)]
    ensures Requested(old(session.ledger), session.ledger, [t], requests, wanted, session.fair)
    ensures AllIn(requests, session.desk.waiting) && Distinct(requests)
    ensures Leads(session.pendingResponses, session.input, requests, all)
    ensures session.windows == old(session.windows) + [[RegisterOf(old(session.nextRequestId), t)]]
    ensures session.nextRequestId == Following(old(session.nextRequestId))
    ensures session.desk.early
         == old(session.desk).early
            + EarlyIn([AskFor(old(session.nextRequestId), t)], session.pendingResponses)
  {
    ghost var id := session.nextRequestId;
    assert [t][0] == t && Ids([t]) == {[t][0].id};
    var ok := session.PersistRegistering([t]);
    ghost var wait;
    ok, requests, wait := session.SendRegistrations([t], wanted);
    assert requests == [id] && RegistrationEvents([t], requests) == [AskFor(id, t)];
    assert Registrations([t], requests) == [RegisterOf(id, t)];
  }

  /**
    A tunnel that is registered by an answer that came before its REGISTER was written.
  */
  method EarlyAnswerRegisters(first: Tunnel, second: Tunnel)
    returns (session: ServerSession, ghost arrived: nat, ghost sent: nat)
    requires first.id != second.id && BindingOf(first) != BindingOf(second)
    ensures session.Valid() && second.id in session.registered
    ensures arrived < sent < |session.trace|
    ensures session.trace[arrived] == Received(OkFrame(4, second.id, second.revision))
    ensures session.trace[sent] == SentRegister(4, second.id, second.revision, BindingOf(second))
  {
    ghost var wanted := map[first.id := first, second.id := second];
    ghost var early := OkFrame(4, second.id, second.revision);
    EarlyWait(early, OkFrame(3, first.id, first.revision));
    session := new ServerSession({}, Hasty(first, second));
    HastyIs(first, second);
    RegisterOne(session, first, wanted, map[4 := early]);
    RegisterOne(session, second, wanted, map[]);
    assert [AskFor(4, second)][0] == AskFor(4, second);
    assert (AskFor(4, second), early) in session.desk.early;
    Recording(session.trace, session.ledger, session.desk, session.fair);
    arrived, sent := EarlyCameFirst(session.trace, AskFor(4, second), early);
  }
}
