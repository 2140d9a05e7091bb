/**
  The stored state of a server over every interleaving of control operations, declarative applies,
  session writes and restarts.
*/
module Lifecycle {
  import opened Base
  import opened Trace
  import opened Records
  import opened Plan
  import opened Apply
  import opened Control
  import opened Recovery

  /**
    Without a PSK a server is stored only as not authenticated or disabled, and one that is to be
    disabled only as disabled.
  */
  predicate RowOk(row: Server) {
    && (row.refs.psk.None? ==> row.actual.NotAuthenticated? || row.actual.Off?)
    && (row.desired.Disabled? ==> row.actual.Off?)
  }

  /**
    A session was started with the row `was`. `revision` is what it takes for the current one, and
    `allowed` is false once it was superseded.
  */
  datatype Session = Session(id: ServerId, was: Server, revision: u64, allowed: bool)

  /** `known` are the rows that a plan, or a round of the manager, has read and not dropped yet. */
  datatype System = System(
    servers: Servers, known: set<(ServerId, Server)>, sessions: map<nat, Session>)

  datatype Step =
    | Add(id: ServerId, name: Option<string>, endpoint: Endpoint)
    | LogIn(id: ServerId, key: Key)
    | LogOut(id: ServerId)
    | Change(id: ServerId, edit: Control.Edit, vault: Vault)
    | SwitchOn(id: ServerId)
    | SwitchOff(id: ServerId)
    | Remove(id: ServerId)
    // A plan made for the row `was` is committed, or one that found no row.
    | Declare(id: ServerId, was: Server, entry: ServerEntry, vault: Vault)
    | DeclareNew(id: ServerId, entry: ServerEntry)
    | Erase(id: ServerId)
    | Read(id: ServerId)
    | Drop(id: ServerId, was: Server)
    // What the manager does with the sessions.
    | Open(n: nat, id: ServerId, was: Server)
    | Refresh(n: nat, now: Server)
    | Supersede(n: nat)
    | Report(n: nat, state: ServerActual)
    | Restart(vault: Vault)

  function PlanFor(id: ServerId, was: Server, entry: ServerEntry, vault: Vault): PlannedServer
    requires AllLoaded(vault, was.refs)
  {
    PlanServer(entry, map[id := was], vault, Some(id), id)
  }

  /** `ServerSession::matches`. */
  predicate SameTransport(a: Server, b: Server) {
    a.endpoint == b.endpoint && a.tlsName == b.tlsName && a.refs == b.refs
  }

  predicate Connects(row: Server) {
    row.desired.Enabled? && row.refs.psk.Some?
  }

  predicate Creates(step: Step) {
    step.Add? || step.DeclareNew?
  }

  /** Steps that write the row of an id that is there. */
  predicate Writes(step: Step) {
    || step.LogIn? || step.LogOut? || step.Change? || step.SwitchOn? || step.SwitchOff?
    || step.Remove? || step.Declare?
  }

  ghost predicate Allowed(s: System, step: Step) {
    match step
    case Add(id, name, endpoint) => id !in s.servers
    case DeclareNew(id, entry) => id !in s.servers
    case Change(id, edit, vault) =>
      && Control.Editable(s.servers, id) && AllLoaded(vault, s.servers[id].refs)
      && !EditPlan(id, s.servers[id], edit, vault).mutation.Nothing?
    case LogIn(id, key) => Control.Editable(s.servers, id)
    case LogOut(id) => Control.Editable(s.servers, id)
    case SwitchOn(id) => Control.Editable(s.servers, id)
    case SwitchOff(id) => Control.Editable(s.servers, id)
    case Remove(id) => LiveServer(s.servers, id)
    case Declare(id, was, entry, vault) =>
      && (id, was) in s.known && Control.Editable(s.servers, id)
      && s.servers[id].revision == was.revision && AllLoaded(vault, was.refs)
      && !PlanFor(id, was, entry, vault).mutation.Nothing?
    case Erase(id) => id in s.servers && s.servers[id].desired.Gone?
    case Read(id) => id in s.servers
    case Drop(id, was) => true
    case Open(n, id, was) => n !in s.sessions && (id, was) in s.known && Connects(was)
    case Refresh(n, now) =>
      n in s.sessions && (s.sessions[n].id, now) in s.known && SameTransport(s.sessions[n].was, now)
    case Supersede(n) => n in s.sessions
    case Report(n, state) => n in s.sessions
    case Restart(vault) =>
      forall id | LiveServer(s.servers, id) :: Recoverable(NormalServer(s.servers[id]), vault)
  }

  /** `persist_state`: the revision fence, and the flag that superseding clears. */
  function Reports(row: Server, session: Session, state: ServerActual): Server {
    if session.allowed && row.desired.Enabled? && row.revision == session.revision
    then row.(actual := state) else row
  }

  ghost function Created(step: Step): Server
    requires Creates(step)
  {
    match step
    case Add(id, name, endpoint) => Control.Added(name, endpoint)
    case DeclareNew(id, entry) => Staged(PlanServer(entry, map[], map[], None, id))
  }

  ghost function Written(s: System, step: Step): Server
    requires Allowed(s, step) && Writes(step)
  {
    match step
    case LogIn(id, key) => LoggedIn(s.servers[id], key)
    case LogOut(id) => LoggedOut(s.servers[id])
    case Change(id, edit, vault) => Edited(s.servers[id], EditPlan(id, s.servers[id], edit, vault))
    case SwitchOn(id) => SwitchedOn(s.servers[id])
    case SwitchOff(id) => SwitchedOff(s.servers[id])
    case Remove(id) => BuriedServer(s.servers[id])
    case Declare(id, was, entry, vault) =>
      MergedServer(s.servers[id], PlanFor(id, was, entry, vault))
  }

  ghost function Reported(s: System, n: nat, state: ServerActual): Servers
    requires n in s.sessions
  {
    var session := s.sessions[n];
    if session.id !in s.servers then s.servers
    else s.servers[session.id := Reports(s.servers[session.id], session, state)]
  }

  ghost function Next(s: System, step: Step): System
    requires Allowed(s, step)
  {
    if Creates(step) then s.(servers := s.servers[step.id := Created(step)])
    else if Writes(step) then s.(servers := s.servers[step.id := Written(s, step)])
    else
      match step
      case Erase(id) => s.(servers := s.servers - {id})
      case Read(id) => s.(known := s.known + {(id, s.servers[id])})
      case Drop(id, was) => s.(known := s.known - {(id, was)})
      case Open(n, id, was) => s.(sessions := s.sessions[n := Session(id, was, was.revision, true)])
      case Refresh(n, now) =>
        s.(sessions := s.sessions[n := s.sessions[n].(revision := now.revision)])
      case Supersede(n) => s.(sessions := s.sessions[n := s.sessions[n].(allowed := false)])
      case Report(n, state) => s.(servers := Reported(s, n, state))
      case Restart(vault) =>
        System(map id | id in s.servers && LiveServer(s.servers, id) ::
                 Recovered(NormalServer(s.servers[id]), vault), {}, map[])
  }

  // ---------- What every run keeps ----------

  /** An equal revision means an equal configuration, except that the row may be a tombstone. */
  ghost predicate Remembers(servers: Servers, id: ServerId, refs: Refs, revision: u64) {
    && 1 <= revision <= LAST_REVISION
    && (id in servers ==>
          && revision <= servers[id].revision
          && (revision == servers[id].revision && !servers[id].desired.Gone? ==>
                refs == servers[id].refs))
  }

  ghost predicate Knows(servers: Servers, id: ServerId, was: Server) {
    && Remembers(servers, id, was.refs, was.revision)
    && (id in servers && was.revision == servers[id].revision && !servers[id].desired.Gone? ==>
          was.desired == servers[id].desired)
  }

  /** A session that may still write has a PSK, and is not ahead of its server. */
  ghost predicate SessionOk(servers: Servers, session: Session) {
    session.was.refs.psk.Some?
    && (session.allowed ==> Remembers(servers, session.id, session.was.refs, session.revision))
  }

  ghost predicate StoredOk(row: Server) {
    RowOk(row) && 1 <= row.revision <= LAST_REVISION
  }

  ghost predicate Inv(s: System) {
    && (forall id | id in s.servers :: StoredOk(s.servers[id]))
    && (forall k | k in s.known :: Knows(s.servers, k.0, k.1))
    && (forall n | n in s.sessions :: SessionOk(s.servers, s.sessions[n]))
  }

  /** No plan, no round of the manager and no session that may write knows a row of the id. */
  ghost predicate Forgotten(s: System, id: ServerId) {
    (forall k | k in s.known :: k.0 != id) && !SessionLeft(s, id)
  }

  ghost predicate SessionLeft(s: System, id: ServerId) {
    exists n :: n in s.sessions && s.sessions[n].id == id && s.sessions[n].allowed
  }

  /** Each write raises the revision, or leaves the configuration alone, or buries the row. */
  ghost predicate Advances(before: Server, after: Server) {
    || after.revision > before.revision
    || (&& after.revision == before.revision
        && (after.desired.Gone? || (after.refs == before.refs && after.desired == before.desired)))
  }

  lemma AdvanceKeeps(s: System, id: ServerId, row: Server)
    requires Inv(s) && id in s.servers && StoredOk(row) && Advances(s.servers[id], row)
    ensures Inv(s.(servers := s.servers[id := row]))
  {
    var after := s.servers[id := row];
    forall k | k in s.known
      ensures Knows(after, k.0, k.1)
    {
      assert Knows(s.servers, k.0, k.1);
    }
    forall n | n in s.sessions
      ensures SessionOk(after, s.sessions[n])
    {
      assert SessionOk(s.servers, s.sessions[n]);
    }
  }

  lemma WriteAdvances(s: System, step: Step)
    requires Inv(s) && Allowed(s, step) && Writes(step)
    ensures Advances(s.servers[step.id], Written(s, step))
  {
  }

  lemma WriteIsOk(s: System, step: Step)
    requires Inv(s) && Allowed(s, step) && Writes(step)
    ensures StoredOk(Written(s, step))
  {
    assert StoredOk(s.servers[step.id]);
    match step
    case Declare(id, was, entry, vault) =>
      assert Knows(s.servers, id, was) by {
        assert (id, was) in s.known && (id, was).0 == id && (id, was).1 == was;
      }
      MergeIsOk(s.servers[id], id, was, entry, vault);
    case _ =>
  }

  /** A merge resets the state whenever the credentials or the desired state changed. */
  lemma MergeIsOk(row: Server, id: ServerId, was: Server, entry: ServerEntry, vault: Vault)
    requires RowOk(row) && row.revision < LAST_REVISION && AllLoaded(vault, was.refs)
    requires was.refs == row.refs && was.desired == row.desired
    ensures RowOk(MergedServer(row, PlanFor(id, was, entry, vault)))
  {
  }

  lemma RecoveredIsOk(row: Server, vault: Vault)
    requires StoredOk(row) && Recoverable(NormalServer(row), vault)
    ensures StoredOk(Recovered(NormalServer(row), vault))
  {
  }

  lemma CreationKeeps(s: System, step: Step)
    requires Inv(s) && Allowed(s, step) && Creates(step) && Forgotten(s, step.id)
    ensures Inv(Next(s, step))
  {
    assert StoredOk(Created(step));
    var after := Next(s, step).servers;
    forall k | k in s.known
      ensures Knows(after, k.0, k.1)
    {
      assert Knows(s.servers, k.0, k.1);
    }
    forall n | n in s.sessions
      ensures SessionOk(after, s.sessions[n])
    {
      assert SessionOk(s.servers, s.sessions[n]);
    }
  }

  lemma ReportKeeps(s: System, n: nat, state: ServerActual)
    requires Inv(s) && n in s.sessions
    ensures Inv(s.(servers := Reported(s, n, state)))
  {
    var session := s.sessions[n];
    assert SessionOk(s.servers, session);
    if session.id in s.servers {
      AdvanceKeeps(s, session.id, Reports(s.servers[session.id], session, state));
    }
  }

  lemma ReadKeeps(s: System, step: Step)
    requires Inv(s) && Allowed(s, step)
    requires step.Erase? || step.Read? || step.Drop? || step.Restart?
    ensures Inv(Next(s, step))
  {
    if step.Restart? {
      forall id | LiveServer(s.servers, id)
        ensures StoredOk(Recovered(NormalServer(s.servers[id]), step.vault))
      {
        RecoveredIsOk(s.servers[id], step.vault);
      }
    } else if step.Erase? {
      forall k | k in s.known
        ensures Knows(s.servers - {step.id}, k.0, k.1)
      {
        assert Knows(s.servers, k.0, k.1);
      }
      forall n | n in s.sessions
        ensures SessionOk(s.servers - {step.id}, s.sessions[n])
      {
        assert SessionOk(s.servers, s.sessions[n]);
      }
    }
  }

  lemma ManageKeeps(s: System, step: Step)
    requires Inv(s) && Allowed(s, step)
    requires step.Open? || step.Refresh? || step.Supersede?
    ensures Inv(Next(s, step))
  {
    if step.Open? {
      assert (step.id, step.was) in s.known;
      assert Knows(s.servers, (step.id, step.was).0, (step.id, step.was).1);
    } else if step.Refresh? {
      var k := (s.sessions[step.n].id, step.now);
      assert Knows(s.servers, k.0, k.1);
    }
  }

  lemma StepKeeps(s: System, step: Step)
    requires Inv(s) && Allowed(s, step) && (Creates(step) ==> Forgotten(s, step.id))
    ensures Inv(Next(s, step))
  {
    if Creates(step) {
      CreationKeeps(s, step);
    } else if Writes(step) {
      WriteIsOk(s, step);
      WriteAdvances(s, step);
      AdvanceKeeps(s, step.id, Written(s, step));
    } else if step.Report? {
      ReportKeeps(s, step.n, step.state);
    } else if step.Open? || step.Refresh? || step.Supersede? {
      ManageKeeps(s, step);
    } else {
      ReadKeeps(s, step);
    }
  }

  ghost predicate Run(states: seq<System>, steps: seq<Step>) {
    && |states| == |steps| + 1
    && forall i | 0 <= i < |steps| ::
         Allowed(states[i], steps[i]) && states[i + 1] == Next(states[i], steps[i])
  }

  /** From the `first` step on, an id is taken only once nobody knows a row of it. */
  ghost predicate Careful(states: seq<System>, steps: seq<Step>, first: nat) {
    && |states| == |steps| + 1
    && forall i | first <= i < |steps| && Creates(steps[i]) :: Forgotten(states[i], steps[i].id)
  }

  /** Over every careful run, every stored server is in a state its configuration allows. */
  lemma {:induction false} StoredStatesAreOk(states: seq<System>, steps: seq<Step>)
    requires Run(states, steps) && Careful(states, steps, 0) && Inv(states[0])
    ensures Inv(states[|steps|])
    decreases |steps|
  {
    var n := |steps| - 1;
    if n >= 0 {
      StoredStatesAreOk(states[..n + 1], steps[..n]);
      StepKeeps(states[n], steps[n]);
    }
  }

  // ---------- An id that comes back too early ----------

  /** A run from `s` that takes the id first, and is careful otherwise. */
  ghost predicate Reuses(s: System, id: ServerId, states: seq<System>, steps: seq<Step>) {
    && Run(states, steps) && states[0] == s && Careful(states, steps, 1)
    && |steps| > 0 && Creates(steps[0]) && steps[0].id == id
  }

  ghost predicate RowsOk(s: System) {
    forall id | id in s.servers :: RowOk(s.servers[id])
  }

  /** An edit of the endpoint alone. */
  function Redirect(id: ServerId, endpoint: Endpoint): Step {
    Change(id, Control.Edit(None, Some(endpoint), None, Omitted, Omitted, Omitted), map[])
  }

  function OtherEndpoint(endpoint: Endpoint): Endpoint {
    if endpoint == "a" then "b" else "a"
  }

  /** A server without credentials, enabled, at revision `r`. */
  ghost predicate BareAt(s: System, id: ServerId, r: u64) {
    && id in s.servers && s.servers[id].desired.Enabled? && s.servers[id].refs == Uniform(None)
    && s.servers[id].actual.NotAuthenticated? && s.servers[id].revision == r
  }

  lemma RedirectRaises(s: System, id: ServerId, r: u64)
    requires BareAt(s, id, r) && r < LAST_REVISION
    ensures var step := Redirect(id, OtherEndpoint(s.servers[id].endpoint));
            && Allowed(s, step) && BareAt(Next(s, step), id, r + 1)
            && Next(s, step) == s.(servers := Next(s, step).servers)
  {
  }

  /** Edits bring the revision of a bare server to any value. */
  lemma {:induction false} Climb(s: System, id: ServerId, r: u64, goal: u64)
    returns (states: seq<System>, steps: seq<Step>)
    requires BareAt(s, id, r) && r <= goal <= LAST_REVISION
    ensures Run(states, steps) && states[0] == s && BareAt(states[|steps|], id, goal)
    ensures states[|steps|] == s.(servers := states[|steps|].servers)
    ensures forall i | 0 <= i < |steps| :: !Creates(steps[i])
    decreases goal - r
  {
    if r == goal {
      return [s], [];
    }
    var step := Redirect(id, OtherEndpoint(s.servers[id].endpoint));
    RedirectRaises(s, id, r);
    var later, more := Climb(Next(s, step), id, r + 1, goal);
    states, steps := [s] + later, [step] + more;
  }

  /** A run that declares the id, makes edits and ends with `last`. */
  lemma Reusing(
      s: System, first: Step, middle: seq<System>, edits: seq<Step>, last: Step)
    returns (states: seq<System>, steps: seq<Step>)
    requires Creates(first) && Allowed(s, first)
    requires Run(middle, edits) && middle[0] == Next(s, first)
    requires forall i | 0 <= i < |edits| :: !Creates(edits[i])
    requires Allowed(middle[|edits|], last) && !Creates(last)
    ensures Reuses(s, first.id, states, steps) && states[|steps|] == Next(middle[|edits|], last)
  {
    states, steps := [s] + middle + [Next(middle[|edits|], last)], [first] + edits + [last];
    forall i | 0 <= i < |steps|
      ensures Allowed(states[i], steps[i]) && states[i + 1] == Next(states[i], steps[i])
      ensures i > 0 ==> !Creates(steps[i])
    {
      if 0 < i <= |edits| {
        assert states[i] == middle[i - 1] && steps[i] == edits[i - 1] && states[i + 1] == middle[i];
      }
    }
  }

  /** A server that a document creates, enabled and without credentials. */
  function Bare(id: ServerId): Step {
    DeclareNew(id, ServerEntry(Some(id), None, "a", None, true, Uniform(Omitted), None))
  }

  lemma BareIsBorn(s: System, id: ServerId)
    requires id !in s.servers
    ensures Allowed(s, Bare(id)) && BareAt(Next(s, Bare(id)), id, 1)
    ensures Next(s, Bare(id)) == s.(servers := Next(s, Bare(id)).servers)
  {
  }

  /**
    The id of a session that was not superseded is declared again: once the new row has reached the
    session's revision, the session reports a server without a PSK as online.
  */
  lemma ReusedIdBreaks(s: System, id: ServerId, n: nat)
    returns (states: seq<System>, steps: seq<Step>)
    requires Inv(s) && id !in s.servers
    requires n in s.sessions && s.sessions[n].id == id && s.sessions[n].allowed
    ensures Reuses(s, id, states, steps) && !RowsOk(states[|steps|])
  {
    assert SessionOk(s.servers, s.sessions[n]);
    BareIsBorn(s, id);
    var middle, edits := Climb(Next(s, Bare(id)), id, 1, s.sessions[n].revision);
    states, steps := Reusing(s, Bare(id), middle, edits, Report(n, Online));
    assert !RowOk(states[|steps|].servers[id]);
  }

  /** An entry that only renames the disabled server `was`. */
  function Renames(id: ServerId, was: Server): ServerEntry {
    ServerEntry(Some(id), if was.name.Some? then None else Some(""), was.endpoint, was.tlsName, false,
                Uniform(Omitted), None)
  }

  lemma StaleMergeBreaks(row: Server, id: ServerId, was: Server, vault: Vault)
    requires was.desired.Disabled? && AllLoaded(vault, was.refs)
    requires row.actual.NotAuthenticated? && row.revision < LAST_REVISION
    ensures !PlanFor(id, was, Renames(id, was), vault).mutation.Nothing?
    ensures !RowOk(MergedServer(row, PlanFor(id, was, Renames(id, was), vault)))
  {
  }

  /** So does a plan that was made for a disabled server of the id. */
  lemma StalePlanBreaks(s: System, id: ServerId, was: Server, vault: Vault)
    returns (states: seq<System>, steps: seq<Step>)
    requires Inv(s) && id !in s.servers && (id, was) in s.known && was.desired.Disabled?
    requires was.revision < LAST_REVISION && AllLoaded(vault, was.refs)
    ensures Reuses(s, id, states, steps) && !RowsOk(states[|steps|])
  {
    assert Knows(s.servers, (id, was).0, (id, was).1);
    BareIsBorn(s, id);
    var middle, edits := Climb(Next(s, Bare(id)), id, 1, was.revision);
    StaleMergeBreaks(middle[|edits|].servers[id], id, was, vault);
    states, steps := Reusing(s, Bare(id), middle, edits, Declare(id, was, Renames(id, was), vault));
    assert !RowOk(states[|steps|].servers[id]);
  }

  lemma {:induction false} ReuseKeeps(s: System, id: ServerId, states: seq<System>, steps: seq<Step>)
    requires Inv(s) && Forgotten(s, id) && Reuses(s, id, states, steps)
    ensures RowsOk(states[|steps|])
  {
    assert Careful(states, steps, 0);
    StoredStatesAreOk(states, steps);
  }

  /**
    An id that no plan knows may be taken again, whatever follows, exactly when no session of it is
    left that was not superseded.
  */
  lemma ReuseIsSafeIff(s: System, id: ServerId)
    requires Inv(s) && id !in s.servers && (forall k | k in s.known :: k.0 != id)
    ensures (forall states, steps | Reuses(s, id, states, steps) :: RowsOk(states[|steps|]))
       <==> !SessionLeft(s, id)
  {
    if SessionLeft(s, id) {
      var n :| n in s.sessions && s.sessions[n].id == id && s.sessions[n].allowed;
      var states, steps := ReusedIdBreaks(s, id, n);
    } else {
      forall states, steps | Reuses(s, id, states, steps)
        ensures RowsOk(states[|steps|])
      {
        ReuseKeeps(s, id, states, steps);
      }
    }
  }
}
