/**
  Applying a declarative plan: `DeclarativeConfig::apply`. Credentials are staged in free slots, one
  transaction writes the rows, and superseded slots are cleaned up afterwards.
*/
module Apply {
  import opened Base
  import opened Responses
  import opened Trace
  import opened Records
  import opened Storage
  import opened Plan

  // ---------- What a plan writes ----------

  function StagedRef(id: ServerId, k: CredentialKind, ref: Option<Key>, m: Material): Option<Key> {
    if !m.changed then ref
    else if m.value == "" then None else Some(NextKey(id, k, ref))
  }

  /** The references a planned server ends up with. */
  function StagedRefs(p: PlannedServer): Refs {
    PerKind(StagedRef(p.id, Psk, p.desired.refs.psk, p.materials.psk),
            StagedRef(p.id, Ca, p.desired.refs.ca, p.materials.ca),
            StagedRef(p.id, Certificate, p.desired.refs.certificate, p.materials.certificate),
            StagedRef(p.id, PrivateKey, p.desired.refs.privateKey, p.materials.privateKey))
  }

  function Staged(p: PlannedServer): Server {
    p.desired.(refs := StagedRefs(p))
  }

  /** The live row with the planned configuration in it. */
  function MergedServer(live: Server, p: PlannedServer): Server
    requires live.revision < LAST_REVISION
  {
    var refs := StagedRefs(p);
    Server(p.desired.name, p.desired.endpoint, p.desired.tlsName, refs, p.desired.desired,
           if p.transportChanged || p.desiredChanged then AtRest(p.desired.desired, refs.psk.Some?)
           else live.actual,
           live.revision + 1, true)
  }

  function MergedTunnel(live: Tunnel, p: PlannedTunnel): Tunnel
    requires live.revision < LAST_REVISION
  {
    Tunnel(live.server, p.desired.name, p.desired.mode, p.desired.proxy, p.desired.local,
           p.desired.remote, p.desired.desired,
           if p.endpointChanged || p.desiredChanged then
             (if p.desired.desired.WantActive? then Pending else Actual.Disabled)
           else live.actual,
           live.revision + 1, true)
  }

  ghost predicate ServerWritten(before: Servers, after: Servers, p: PlannedServer) {
    || p.mutation.Nothing?
    || (p.original.None? && p.id !in before && p.id in after && after[p.id] == Staged(p))
    || (&& p.original.Some? && LiveServer(before, p.id)
        && before[p.id].revision == p.original.value.revision < LAST_REVISION
        && p.id in after && after[p.id] == MergedServer(before[p.id], p))
  }

  ghost predicate TunnelWritten(before: Tunnels, after: Tunnels, p: PlannedTunnel) {
    || p.mutation.Nothing?
    || (p.original.None? && p.id !in before && p.id in after && after[p.id] == p.desired)
    || (&& p.original.Some? && LiveTunnel(before, p.id)
        && before[p.id].revision == p.original.value.revision < LAST_REVISION
        && p.id in after && after[p.id] == MergedTunnel(before[p.id], p))
  }

  ghost predicate Same<V>(before: map<string, V>, after: map<string, V>, id: string) {
    (id in before <==> id in after) && (id in before ==> after[id] == before[id])
  }

  ghost predicate Touches(items: seq<PlannedServer>, id: ServerId) {
    exists i :: 0 <= i < |items| && items[i].id == id && !items[i].mutation.Nothing?
  }

  ghost predicate TouchesTunnel(items: seq<PlannedTunnel>, id: TunnelId) {
    exists i :: 0 <= i < |items| && items[i].id == id && !items[i].mutation.Nothing?
  }

  /** Every planned write happened, and no other row changed. */
  ghost predicate ServersWritten(before: Servers, after: Servers, items: seq<PlannedServer>) {
    && (forall i | 0 <= i < |items| :: ServerWritten(before, after, items[i]))
    && (forall id | !Touches(items, id) :: Same(before, after, id))
  }

  ghost predicate TunnelsWritten(before: Tunnels, after: Tunnels, items: seq<PlannedTunnel>) {
    && (forall i | 0 <= i < |items| :: TunnelWritten(before, after, items[i]))
    && (forall id | !TouchesTunnel(items, id) :: Same(before, after, id))
  }

  ghost predicate DistinctServers(items: seq<PlannedServer>) {
    forall i, j | 0 <= i < j < |items| :: items[i].id != items[j].id
  }

  ghost predicate DistinctTunnels(items: seq<PlannedTunnel>) {
    forall i, j | 0 <= i < j < |items| :: items[i].id != items[j].id
  }

  function DropTunnels(tunnels: Tunnels, drop: set<TunnelId>): Tunnels {
    map id | id in tunnels :: if id in drop then BuriedTunnel(tunnels[id]) else tunnels[id]
  }

  function DropServers(servers: Servers, drop: set<ServerId>): Servers {
    map id | id in servers :: if id in drop then BuriedServer(servers[id]) else servers[id]
  }

  /** A removed server takes all its tunnels along, planned or not. */
  function DropChildren(tunnels: Tunnels, drop: set<ServerId>): Tunnels {
    map id | id in tunnels ::
      if tunnels[id].server in drop then BuriedTunnel(tunnels[id]) else tunnels[id]
  }

  ghost predicate RevisionsHold(rows: map<string, u64>, drop: map<string, u64>) {
    forall id | id in drop :: id in rows && rows[id] == drop[id]
  }

  ghost function ServerRevisions(servers: Servers): map<ServerId, u64> {
    map id | id in servers :: servers[id].revision
  }

  ghost function TunnelRevisions(tunnels: Tunnels): map<TunnelId, u64> {
    map id | id in tunnels :: tunnels[id].revision
  }

  /** What a committed transaction did to `before`; `middle` is the state before anything is dropped. */
  ghost predicate Committed(before: State, middle: State, after: State, p: Plan) {
    && ServersWritten(before.servers, middle.servers, p.servers)
    && TunnelsWritten(before.tunnels, middle.tunnels, p.tunnels)
    && RevisionsHold(TunnelRevisions(middle.tunnels), p.dropTunnels)
    && RevisionsHold(ServerRevisions(middle.servers), p.dropServers)
    && after.servers == DropServers(middle.servers, p.dropServers.Keys)
    && after.tunnels == DropChildren(DropTunnels(middle.tunnels, p.dropTunnels.Keys), p.dropServers.Keys)
    && UniqueNames(after.servers)
  }

  // ---------- When a transaction succeeds ----------

  /** A planned row is not written yet, or is still as it was planned on. */
  ghost predicate Unmoved(before: Servers, p: PlannedServer) {
    if p.original.None? then p.id !in before
    else LiveServer(before, p.id) && before[p.id].revision == p.original.value.revision < LAST_REVISION
  }

  ghost predicate TunnelUnmoved(before: Tunnels, p: PlannedTunnel) {
    if p.original.None? then p.id !in before
    else LiveTunnel(before, p.id) && before[p.id].revision == p.original.value.revision < LAST_REVISION
  }

  /**
    The name of the `i`-th server is still another's when its turn comes: of a row that no earlier
    item writes, or of an earlier item.
  */
  ghost predicate NameBlocked(before: Servers, items: seq<PlannedServer>, i: nat)
    requires i < |items|
  {
    var p := items[i];
    && p.desired.name.Some?
    && (|| (exists id | id in before && !Touches(items[..i], id) ::
              id != p.id && before[id].name == p.desired.name)
        || (exists j | 0 <= j < i && !items[j].mutation.Nothing? ::
              items[j].desired.name == p.desired.name))
  }

  ghost predicate ServerWritable(before: Servers, items: seq<PlannedServer>, i: nat)
    requires i < |items|
  {
    items[i].mutation.Nothing? || (Unmoved(before, items[i]) && !NameBlocked(before, items, i))
  }

  /** The public listener a planned tunnel ends up with, and whose it is. */
  ghost function ListenerOf(before: Tunnels, p: PlannedTunnel): (ServerId, Mode, Endpoint) {
    (if p.id in before then before[p.id].server else p.desired.server, p.desired.mode, p.desired.remote)
  }

  ghost predicate Listens(row: Tunnel, listener: (ServerId, Mode, Endpoint)) {
    (row.server, row.mode, row.remote) == listener
  }

  ghost predicate ListenerBlocked(before: Tunnels, items: seq<PlannedTunnel>, i: nat)
    requires i < |items|
  {
    var p := items[i];
    || (exists id | id in before && !TouchesTunnel(items[..i], id) ::
          id != p.id && Listens(before[id], ListenerOf(before, p)))
    || (exists j | 0 <= j < i && !items[j].mutation.Nothing? ::
          ListenerOf(before, items[j]) == ListenerOf(before, p))
  }

  ghost predicate TunnelWritable(
      before: Tunnels, servers: set<ServerId>, items: seq<PlannedTunnel>, i: nat)
    requires i < |items|
  {
    || items[i].mutation.Nothing?
    || (&& TunnelUnmoved(before, items[i]) && !ListenerBlocked(before, items, i)
        && (items[i].original.None? ==> items[i].desired.server in servers))
  }

  ghost function WrittenIds(before: Servers, items: seq<PlannedServer>): set<ServerId> {
    before.Keys + set i | 0 <= i < |items| && !items[i].mutation.Nothing? :: items[i].id
  }

  /** What the rows at commit must satisfy for the plan to go through. */
  ghost predicate Committable(before: State, p: Plan) {
    && (forall i | 0 <= i < |p.servers| :: ServerWritable(before.servers, p.servers, i))
    && (forall i | 0 <= i < |p.tunnels| ::
          TunnelWritable(before.tunnels, WrittenIds(before.servers, p.servers), p.tunnels, i))
    && RevisionsHold(TunnelRevisions(before.tunnels), p.dropTunnels)
    && RevisionsHold(ServerRevisions(before.servers), p.dropServers)
  }

  /** Nothing is both written and dropped. */
  ghost predicate DropsApart(p: Plan) {
    && (forall i | 0 <= i < |p.servers| :: p.servers[i].id !in p.dropServers)
    && (forall i | 0 <= i < |p.tunnels| :: p.tunnels[i].id !in p.dropTunnels)
  }

  lemma NameTakenIff(before: Servers, work: Servers, items: seq<PlannedServer>, i: nat)
    requires i < |items| && DistinctServers(items) && ServersWritten(before, work, items[..i])
    ensures NameTaken(work, items[i].desired.name, items[i].id) <==> NameBlocked(before, items, i)
  {
    var p, done := items[i], items[..i];
    if NameTaken(work, p.desired.name, p.id) {
      var id :| id in work && id != p.id && work[id].name == p.desired.name;
      if Touches(done, id) {
        var j :| 0 <= j < |done| && done[j].id == id && !done[j].mutation.Nothing?;
        assert ServerWritten(before, work, done[j]);
        assert items[j].desired.name == p.desired.name;
      } else {
        assert Same(before, work, id);
      }
    }
    if NameBlocked(before, items, i) {
      if j :| 0 <= j < i && !items[j].mutation.Nothing? && items[j].desired.name == p.desired.name {
        assert ServerWritten(before, work, done[j]);
        assert work[items[j].id].name == p.desired.name;
      } else {
        var id :| id in before && !Touches(done, id) && id != p.id && before[id].name == p.desired.name;
        assert Same(before, work, id);
      }
    }
  }

  lemma UnmovedStays(before: Servers, work: Servers, items: seq<PlannedServer>, i: nat)
    requires i < |items| && DistinctServers(items) && ServersWritten(before, work, items[..i])
    ensures Same(before, work, items[i].id)
  {
    assert !Touches(items[..i], items[i].id);
  }

  lemma WrittenListens(before: Tunnels, work: Tunnels, p: PlannedTunnel)
    requires TunnelWritten(before, work, p) && !p.mutation.Nothing?
    ensures p.id in work && Listens(work[p.id], ListenerOf(before, p))
  {
  }

  lemma SameListener(row: Tunnel, a: (ServerId, Mode, Endpoint), b: (ServerId, Mode, Endpoint))
    requires Listens(row, a)
    ensures Listens(row, b) <==> a == b
  {
  }

  lemma ListenerTakenIff(
      before: Tunnels, work: Tunnels, items: seq<PlannedTunnel>, i: nat, row: Tunnel)
    requires i < |items| && DistinctTunnels(items) && TunnelsWritten(before, work, items[..i])
    requires Listens(row, ListenerOf(before, items[i]))
    ensures ListenerTaken(work, row, items[i].id) <==> ListenerBlocked(before, items, i)
  {
    var p, done := items[i], items[..i];
    var listener := ListenerOf(before, p);
    assert ListenerTaken(work, row, p.id)
      <==> exists id | id in work :: id != p.id && Listens(work[id], listener);
    if id :| id in work && id != p.id && Listens(work[id], listener) {
      if TouchesTunnel(done, id) {
        var j :| 0 <= j < |done| && done[j].id == id && !done[j].mutation.Nothing?;
        WrittenListens(before, work, done[j]);
        SameListener(work[id], ListenerOf(before, items[j]), listener);
      } else {
        assert Same(before, work, id);
      }
    }
    if ListenerBlocked(before, items, i) {
      if j :| 0 <= j < i && !items[j].mutation.Nothing? && ListenerOf(before, items[j]) == listener {
        assert TunnelWritten(before, work, done[j]);
        WrittenListens(before, work, items[j]);
        assert items[j].id in work && items[j].id != p.id;
      } else {
        var id :| id in before && !TouchesTunnel(done, id) && id != p.id && Listens(before[id], listener);
        assert Same(before, work, id);
      }
    }
  }

  lemma TunnelUnmovedStays(before: Tunnels, work: Tunnels, items: seq<PlannedTunnel>, i: nat)
    requires i < |items| && DistinctTunnels(items) && TunnelsWritten(before, work, items[..i])
    ensures Same(before, work, items[i].id)
  {
    assert !TouchesTunnel(items[..i], items[i].id);
  }

  // ---------- The transaction ----------

  lemma ServersWrittenGrows(
      before: Servers, middle: Servers, after: Servers, items: seq<PlannedServer>, i: nat)
    requires i < |items| && DistinctServers(items)
    requires ServersWritten(before, middle, items[..i])
    requires ServerWritten(middle, after, items[i])
    requires forall id | id != items[i].id || items[i].mutation.Nothing? :: Same(middle, after, id)
    ensures ServersWritten(before, after, items[..i + 1])
  {
    var longer, shorter, p := items[..i + 1], items[..i], items[i];
    assert !Touches(shorter, p.id);
    assert Same(before, middle, p.id);
    forall j | 0 <= j < |longer|
      ensures ServerWritten(before, after, longer[j])
    {
      if j < i {
        assert longer[j] == shorter[j];
        assert Same(middle, after, shorter[j].id);
      }
    }
    forall id | !Touches(longer, id)
      ensures Same(before, after, id)
    {
      assert longer[i] == p;
      assert !Touches(shorter, id) by {
        assert forall j | 0 <= j < |shorter| :: shorter[j] == longer[j];
      }
      assert Same(before, middle, id) && Same(middle, after, id);
    }
  }

  lemma TunnelsWrittenGrows(
      before: Tunnels, middle: Tunnels, after: Tunnels, items: seq<PlannedTunnel>, i: nat)
    requires i < |items| && DistinctTunnels(items)
    requires TunnelsWritten(before, middle, items[..i])
    requires TunnelWritten(middle, after, items[i])
    requires forall id | id != items[i].id || items[i].mutation.Nothing? :: Same(middle, after, id)
    ensures TunnelsWritten(before, after, items[..i + 1])
  {
    var longer, shorter, p := items[..i + 1], items[..i], items[i];
    assert !TouchesTunnel(shorter, p.id);
    assert Same(before, middle, p.id);
    forall j | 0 <= j < |longer|
      ensures TunnelWritten(before, after, longer[j])
    {
      if j < i {
        assert longer[j] == shorter[j];
        assert Same(middle, after, shorter[j].id);
      }
    }
    forall id | !TouchesTunnel(longer, id)
      ensures Same(before, after, id)
    {
      assert longer[i] == p;
      assert !TouchesTunnel(shorter, id) by {
        assert forall j | 0 <= j < |shorter| :: shorter[j] == longer[j];
      }
      assert Same(before, middle, id) && Same(middle, after, id);
    }
  }

  method WriteServer(servers: Servers, p: PlannedServer) returns (r: Result<Servers>)
    requires UniqueNames(servers)
    ensures r.Ok? <==> || p.mutation.Nothing?
                       || (Unmoved(servers, p) && !NameTaken(servers, p.desired.name, p.id))
    ensures r.Ok? ==>
              && ServerWritten(servers, r.value, p) && UniqueNames(r.value)
              && forall id | id != p.id || p.mutation.Nothing? :: Same(servers, r.value, id)
  {
    if p.mutation.Nothing? {
      return Ok(servers);
    }
    if p.original.None? {
      if p.id in servers || NameTaken(servers, p.desired.name, p.id) {
        return Err(AlreadyExists);
      }
      UniqueNamesKept(servers, p.id, Staged(p));
      return Ok(servers[p.id := Staged(p)]);
    }
    if !LiveServer(servers, p.id) || servers[p.id].revision != p.original.value.revision {
      return Err(DatabaseError);
    }
    if servers[p.id].revision >= LAST_REVISION {
      return Err(ResourceExhausted);
    }
    if NameTaken(servers, p.desired.name, p.id) {
      return Err(AlreadyExists);
    }
    UniqueNamesKept(servers, p.id, MergedServer(servers[p.id], p));
    return Ok(servers[p.id := MergedServer(servers[p.id], p)]);
  }

  ghost function RowToWrite(tunnels: Tunnels, p: PlannedTunnel): Tunnel
    requires TunnelUnmoved(tunnels, p)
  {
    if p.original.None? then p.desired else MergedTunnel(tunnels[p.id], p)
  }

  method WriteTunnel(tunnels: Tunnels, servers: Servers, p: PlannedTunnel)
    returns (r: Result<Tunnels>)
    ensures r.Ok? <==> || p.mutation.Nothing?
                       || (&& TunnelUnmoved(tunnels, p)
                           && !ListenerTaken(tunnels, RowToWrite(tunnels, p), p.id)
                           && (p.original.None? ==> p.desired.server in servers))
    ensures r.Ok? ==>
              && TunnelWritten(tunnels, r.value, p)
              && forall id | id != p.id || p.mutation.Nothing? :: Same(tunnels, r.value, id)
  {
    if p.mutation.Nothing? {
      return Ok(tunnels);
    }
    if p.original.None? {
      if p.id in tunnels || p.desired.server !in servers || ListenerTaken(tunnels, p.desired, p.id) {
        return Err(AlreadyExists);
      }
      return Ok(tunnels[p.id := p.desired]);
    }
    if !LiveTunnel(tunnels, p.id) || tunnels[p.id].revision != p.original.value.revision {
      return Err(DatabaseError);
    }
    if tunnels[p.id].revision >= LAST_REVISION {
      return Err(ResourceExhausted);
    }
    if ListenerTaken(tunnels, MergedTunnel(tunnels[p.id], p), p.id) {
      return Err(AlreadyExists);
    }
    return Ok(tunnels[p.id := MergedTunnel(tunnels[p.id], p)]);
  }

  method WriteServers(before: Servers, items: seq<PlannedServer>) returns (r: Result<Servers>)
    requires UniqueNames(before) && DistinctServers(items)
    ensures r.Ok? <==> forall i | 0 <= i < |items| :: ServerWritable(before, items, i)
    ensures r.Ok? ==> ServersWritten(before, r.value, items) && UniqueNames(r.value)
  {
    var work := before;
    for i := 0 to |items|
      invariant ServersWritten(before, work, items[..i]) && UniqueNames(work)
      invariant forall j | 0 <= j < i :: ServerWritable(before, items, j)
    {
      NameTakenIff(before, work, items, i);
      UnmovedStays(before, work, items, i);
      var written := WriteServer(work, items[i]);
      if written.Err? {
        assert !ServerWritable(before, items, i);
        return written;
      }
      ServersWrittenGrows(before, work, written.value, items, i);
      work := written.value;
    }
    assert items[..|items|] == items;
    return Ok(work);
  }

  method WriteTunnels(before: Tunnels, servers: Servers, items: seq<PlannedTunnel>)
    returns (r: Result<Tunnels>)
    requires DistinctTunnels(items)
    ensures r.Ok? <==> forall i | 0 <= i < |items| :: TunnelWritable(before, servers.Keys, items, i)
    ensures r.Ok? ==> TunnelsWritten(before, r.value, items)
  {
    var work := before;
    for i := 0 to |items|
      invariant TunnelsWritten(before, work, items[..i])
      invariant forall j | 0 <= j < i :: TunnelWritable(before, servers.Keys, items, j)
    {
      TunnelUnmovedStays(before, work, items, i);
      if TunnelUnmoved(work, items[i]) {
        ListenerTakenIff(before, work, items, i, RowToWrite(work, items[i]));
      }
      var written := WriteTunnel(work, servers, items[i]);
      if written.Err? {
        assert !TunnelWritable(before, servers.Keys, items, i);
        return written;
      }
      TunnelsWrittenGrows(before, work, written.value, items, i);
      work := written.value;
    }
    assert items[..|items|] == items;
    return Ok(work);
  }

  method RemoveTunnels(before: Tunnels, drop: map<TunnelId, u64>) returns (r: Result<Tunnels>)
    ensures r.Ok? <==> RevisionsHold(TunnelRevisions(before), drop)
    ensures r.Ok? ==> r.value == DropTunnels(before, drop.Keys)
  {
    var work, rest := before, drop.Keys;
    while rest != {}
      invariant rest <= drop.Keys && work == DropTunnels(before, drop.Keys - rest)
      invariant forall id | id in drop && id !in rest ::
                  id in before && before[id].revision == drop[id]
      decreases rest
    {
      var id :| id in rest;
      if id !in work || work[id].revision != drop[id] {
        return Err(DatabaseError);
      }
      work := work[id := BuriedTunnel(work[id])];
      rest := rest - {id};
    }
    return Ok(work);
  }

  /** `mark_removed` on one server. */
  function Bury(s: State, id: ServerId): State
    requires id in s.servers
  {
    State(s.servers[id := BuriedServer(s.servers[id])], DropChildren(s.tunnels, {id}))
  }

  lemma BuryMore(before: State, done: set<ServerId>, id: ServerId)
    requires id in before.servers && id !in done
    ensures Bury(State(DropServers(before.servers, done), DropChildren(before.tunnels, done)), id)
         == State(DropServers(before.servers, done + {id}), DropChildren(before.tunnels, done + {id}))
  {
    var s := State(DropServers(before.servers, done), DropChildren(before.tunnels, done));
    assert Bury(s, id).servers == DropServers(before.servers, done + {id});
    assert Bury(s, id).tunnels == DropChildren(before.tunnels, done + {id});
  }

  method RemoveServers(before: State, drop: map<ServerId, u64>) returns (r: Result<State>)
    ensures r.Ok? <==> RevisionsHold(ServerRevisions(before.servers), drop)
    ensures r.Ok? ==> r.value == State(DropServers(before.servers, drop.Keys),
                                       DropChildren(before.tunnels, drop.Keys))
  {
    var work, rest := before, drop.Keys;
    ghost var done := {};
    assert before.servers == DropServers(before.servers, {});
    assert before.tunnels == DropChildren(before.tunnels, {});
    while rest != {}
      invariant done + rest == drop.Keys && done !! rest
      invariant work == State(DropServers(before.servers, done), DropChildren(before.tunnels, done))
      invariant forall id | id in done :: id in before.servers && before.servers[id].revision == drop[id]
      decreases rest
    {
      var id :| id in rest;
      if id !in work.servers || work.servers[id].revision != drop[id] {
        return Err(DatabaseError);
      }
      BuryMore(before, done, id);
      work := Bury(work, id);
      rest := rest - {id};
      done := done + {id};
    }
    return Ok(work);
  }

  lemma DropsKeepNames(servers: Servers, drop: set<ServerId>)
    requires UniqueNames(servers)
    ensures UniqueNames(DropServers(servers, drop))
  {
  }

  lemma WrittenKeys(before: Servers, after: Servers, items: seq<PlannedServer>)
    requires ServersWritten(before, after, items)
    ensures after.Keys == WrittenIds(before, items)
  {
    forall id
      ensures id in after <==> id in WrittenIds(before, items)
    {
      if Touches(items, id) {
        var i :| 0 <= i < |items| && items[i].id == id && !items[i].mutation.Nothing?;
        assert ServerWritten(before, after, items[i]);
      } else {
        assert Same(before, after, id);
      }
    }
  }

  /** What is to be dropped was not written before. */
  lemma DropsAreUntouched(before: State, middle: State, p: Plan)
    requires DropsApart(p)
    requires ServersWritten(before.servers, middle.servers, p.servers)
    requires TunnelsWritten(before.tunnels, middle.tunnels, p.tunnels)
    ensures RevisionsHold(TunnelRevisions(before.tunnels), p.dropTunnels)
       <==> RevisionsHold(TunnelRevisions(middle.tunnels), p.dropTunnels)
    ensures RevisionsHold(ServerRevisions(before.servers), p.dropServers)
       <==> RevisionsHold(ServerRevisions(middle.servers), p.dropServers)
  {
    forall id | id in p.dropTunnels
      ensures Same(before.tunnels, middle.tunnels, id)
    {
      assert !TouchesTunnel(p.tunnels, id);
    }
    forall id | id in p.dropServers
      ensures Same(before.servers, middle.servers, id)
    {
      assert !Touches(p.servers, id);
    }
  }

  /** The transaction on a copy of the rows; an error leaves it without effect. */
  method Transact(before: State, p: Plan) returns (r: Result<State>, ghost middle: State)
    requires UniqueNames(before.servers) && DistinctServers(p.servers) && DistinctTunnels(p.tunnels)
    requires DropsApart(p)
    ensures r.Ok? <==> Committable(before, p)
    ensures r.Ok? ==> Committed(before, middle, r.value, p)
  {
    middle := before;
    var servers := WriteServers(before.servers, p.servers);
    if servers.Err? {
      return Err(servers.code), middle;
    }
    WrittenKeys(before.servers, servers.value, p.servers);
    var tunnels := WriteTunnels(before.tunnels, servers.value, p.tunnels);
    if tunnels.Err? {
      return Err(tunnels.code), middle;
    }
    middle := State(servers.value, tunnels.value);
    DropsAreUntouched(before, middle, p);
    var remaining := RemoveTunnels(tunnels.value, p.dropTunnels);
    if remaining.Err? {
      return Err(remaining.code), middle;
    }
    DropsKeepNames(servers.value, p.dropServers.Keys);
    var dropped := RemoveServers(State(servers.value, remaining.value), p.dropServers);
    return dropped, middle;
  }

  // ---------- The credential store ----------

  ghost predicate Stages(p: PlannedServer, k: CredentialKind) {
    !p.mutation.Nothing? && p.materials.At(k).changed && p.materials.At(k).value != ""
  }

  ghost function StageKey(p: PlannedServer, k: CredentialKind): Key {
    NextKey(p.id, k, p.desired.refs.At(k))
  }

  /** The credentials of `items` are in their new slots, and no other slot was written. */
  ghost predicate VaultStaged(before: Vault, after: Vault, items: seq<PlannedServer>) {
    && (forall i, k: CredentialKind | 0 <= i < |items| && Stages(items[i], k) ::
          StageKey(items[i], k) in after && after[StageKey(items[i], k)] == items[i].materials.At(k).value)
    && (forall key | !StagedIn(items, key) :: SameKey(before, after, key))
  }

  ghost predicate StagedIn(items: seq<PlannedServer>, key: Key) {
    exists i, k: CredentialKind ::
      0 <= i < |items| && Stages(items[i], k) && key == StageKey(items[i], k)
  }

  /** A slot that the committed row no longer names. */
  ghost predicate Superseded(p: PlannedServer, key: Key) {
    exists k: CredentialKind ::
      && !p.mutation.Nothing? && p.materials.At(k).changed
      && Candidate(p.id, k, p.desired.refs.At(k), StagedRefs(p).At(k), key)
  }

  /** Cleaning up removed superseded slots only, maybe not all of them. */
  ghost predicate VaultCleaned(before: Vault, after: Vault, items: seq<PlannedServer>) {
    forall key | !SameKey(before, after, key) ::
      key !in after && exists i :: 0 <= i < |items| && Superseded(items[i], key)
  }

  ghost predicate VaultEmptied(after: Vault, items: seq<PlannedServer>) {
    forall i, key | 0 <= i < |items| && Superseded(items[i], key) :: key !in after
  }

  // ---------- Staging and cleaning keep the stores in agreement ----------

  /**
    The plan knows the references the rows have: for each planned server that is live, and none for
    a server to be created.
  */
  ghost predicate RefsCurrent(servers: Servers, items: seq<PlannedServer>) {
    forall i | 0 <= i < |items| ::
      && OwnRefs(items[i].id, items[i].desired.refs)
      && (LiveServer(servers, items[i].id) ==> items[i].desired.refs == servers[items[i].id].refs)
      && (items[i].original.None? ==> items[i].desired.refs == Uniform(None))
  }

  /** Meanwhile, others have left the credentials alone; a server they added has none. */
  ghost predicate RefsSteady(before: Servers, after: Servers) {
    forall id | LiveServer(after, id) ::
      after[id].refs == if LiveServer(before, id) then before[id].refs else Uniform(None)
  }

  lemma SteadyIsSound(before: Servers, after: Servers, vault: Vault, items: seq<PlannedServer>)
    requires Sound(before, vault) && RefsSteady(before, after) && RefsCurrent(before, items)
    requires forall i | 0 <= i < |items| && !LiveServer(before, items[i].id) :: items[i].original.None?
    ensures Sound(after, vault) && RefsCurrent(after, items)
  {
    forall id | LiveServer(after, id)
      ensures Resolves(after[id].refs, vault)
    {
      assert LiveServer(before, id) ==> Resolves(before[id].refs, vault);
    }
  }

  /** A slot to be staged is not in use. */
  lemma StageKeyIsFree(servers: Servers, items: seq<PlannedServer>, i: nat, k: CredentialKind)
    requires i < |items| && Owned(servers) && RefsCurrent(servers, items)
    ensures Unreferenced(servers, StageKey(items[i], k))
  {
    NextKeyIsFree(items[i].id, k, items[i].desired.refs.At(k));
    forall id, kind: CredentialKind | LiveServer(servers, id)
      ensures servers[id].refs.At(kind) != Some(StageKey(items[i], k))
    {
      assert OwnRefs(id, servers[id].refs);
    }
  }

  lemma StagedIsFree(servers: Servers, items: seq<PlannedServer>, key: Key)
    requires Owned(servers) && RefsCurrent(servers, items) && StagedIn(items, key)
    ensures Unreferenced(servers, key)
  {
    var i, k: CredentialKind :|
      0 <= i < |items| && Stages(items[i], k) && key == StageKey(items[i], k);
    StageKeyIsFree(servers, items, i, k);
  }

  lemma StagedRefsAt(p: PlannedServer, k: CredentialKind)
    ensures StagedRefs(p).At(k)
         == StagedRef(p.id, k, p.desired.refs.At(k), p.materials.At(k))
  {
  }

  /** A planned server keeps its references or exchanges them for slots of its own. */
  lemma StagedRefsFollow(p: PlannedServer, k: CredentialKind)
    ensures StagedRefs(p).At(k).Some? ==>
              || StagedRefs(p).At(k).value in SlotsOf(p.id, k)
              || StagedRefs(p).At(k) == p.desired.refs.At(k)
  {
    StagedRefsAt(p, k);
    NextKeyIsFree(p.id, k, p.desired.refs.At(k));
  }

  /** The references of a planned server resolve as soon as its credentials are staged. */
  lemma StagedRefsResolve(
      before: Servers, vault: Vault, staged: Vault, items: seq<PlannedServer>, i: nat)
    requires i < |items| && DistinctServers(items) && !items[i].mutation.Nothing?
    requires Sound(before, vault) && VaultStaged(vault, staged, items) && RefsCurrent(before, items)
    requires items[i].original.Some? ==> LiveServer(before, items[i].id)
    ensures Resolves(StagedRefs(items[i]), staged)
  {
    var p := items[i];
    forall k: CredentialKind | StagedRefs(p).At(k).Some?
      ensures StagedRefs(p).At(k).value in staged
    {
      StagedRefsAt(p, k);
      if Stages(p, k) {
        assert StageKey(p, k) in staged;
      } else {
        var key := p.desired.refs.At(k).value;
        assert OwnRefs(p.id, p.desired.refs);
        assert Resolves(before[p.id].refs, vault);
        assert !StagedIn(items, key);
        assert SameKey(vault, staged, key);
      }
    }
  }

  lemma OtherRefsResolve(
      before: Servers, vault: Vault, staged: Vault, items: seq<PlannedServer>, id: ServerId)
    requires Sound(before, vault) && VaultStaged(vault, staged, items)
    requires LiveServer(before, id) && OwnRefs(id, before[id].refs) && !Touches(items, id)
    ensures Resolves(before[id].refs, staged)
  {
    forall k: CredentialKind | before[id].refs.At(k).Some?
      ensures before[id].refs.At(k).value in staged
    {
      var key := before[id].refs.At(k).value;
      assert Resolves(before[id].refs, vault);
      assert !StagedIn(items, key);
      assert SameKey(vault, staged, key);
    }
  }

  /** The moment of commit. */
  lemma CommitIsSound(
      before: State, middle: State, after: State, p: Plan, vault: Vault, staged: Vault)
    requires Committed(before, middle, after, p) && DistinctServers(p.servers)
    requires Sound(before.servers, vault) && Owned(before.servers)
    requires VaultStaged(vault, staged, p.servers) && RefsCurrent(before.servers, p.servers)
    ensures Sound(after.servers, staged) && Owned(after.servers)
    ensures RefsFollow(before.servers, after.servers)
  {
    forall id | LiveServer(after.servers, id)
      ensures Resolves(after.servers[id].refs, staged)
    {
      RowIsSound(before, middle, after, p, vault, staged, id);
    }
    forall id, k: CredentialKind, key | Names(after.servers, id, k, key)
      ensures key in SlotsOf(id, k) || Names(before.servers, id, k, key)
    {
      RowFollows(before, middle, after, p, id, k, key);
    }
    FollowingIsOwned(before.servers, after.servers);
  }

  lemma RowFollows(
      before: State, middle: State, after: State, p: Plan, id: ServerId, k: CredentialKind, key: Key)
    requires Committed(before, middle, after, p)
    requires RefsCurrent(before.servers, p.servers) && Names(after.servers, id, k, key)
    ensures key in SlotsOf(id, k) || Names(before.servers, id, k, key)
  {
    assert Names(middle.servers, id, k, key);
    WrittenFollows(before.servers, middle.servers, p.servers, id, k, key);
  }

  lemma WrittenFollows(
      before: Servers, after: Servers, items: seq<PlannedServer>, id: ServerId, k: CredentialKind,
      key: Key)
    requires ServersWritten(before, after, items) && RefsCurrent(before, items)
    requires Names(after, id, k, key)
    ensures key in SlotsOf(id, k) || Names(before, id, k, key)
  {
    if Touches(items, id) {
      var i :| 0 <= i < |items| && items[i].id == id && !items[i].mutation.Nothing?;
      assert ServerWritten(before, after, items[i]);
      StagedRefsFollow(items[i], k);
    } else {
      assert Same(before, after, id);
    }
  }

  lemma RowIsSound(
      before: State, middle: State, after: State, p: Plan, vault: Vault, staged: Vault, id: ServerId)
    requires Committed(before, middle, after, p) && DistinctServers(p.servers)
    requires Sound(before.servers, vault) && Owned(before.servers)
    requires VaultStaged(vault, staged, p.servers) && RefsCurrent(before.servers, p.servers)
    requires LiveServer(after.servers, id)
    ensures Resolves(after.servers[id].refs, staged)
  {
    if Touches(p.servers, id) {
      var i :| 0 <= i < |p.servers| && p.servers[i].id == id && !p.servers[i].mutation.Nothing?;
      assert ServerWritten(before.servers, middle.servers, p.servers[i]);
      StagedRefsResolve(before.servers, vault, staged, p.servers, i);
    } else {
      assert Same(before.servers, middle.servers, id);
      assert OwnRefs(id, before.servers[id].refs);
      OtherRefsResolve(before.servers, vault, staged, p.servers, id);
    }
  }

  /** What the commit of `p` superseded is not in use any more. */
  ghost predicate SpareOnceWritten(servers: Servers, p: PlannedServer) {
    forall k: CredentialKind | p.materials.At(k).changed ::
      Spare(servers, p.id, k, p.desired.refs.At(k), StagedRefs(p).At(k))
  }

  lemma SupersededIsSpare(before: Servers, after: Servers, p: PlannedServer)
    requires Owned(before) && RefsFollow(before, after)
    requires LiveServer(before, p.id) ==> before[p.id].refs == p.desired.refs
    requires !LiveServer(before, p.id) ==> p.desired.refs == Uniform(None)
    requires LiveServer(after, p.id) ==> after[p.id].refs == StagedRefs(p)
    ensures SpareOnceWritten(after, p)
  {
    forall k: CredentialKind | p.materials.At(k).changed
      ensures Spare(after, p.id, k, p.desired.refs.At(k), StagedRefs(p).At(k))
    {
      assert !LiveServer(before, p.id) ==> p.desired.refs.At(k) == None;
      FormerIsSpare(before, after, p.id, k, p.desired.refs.At(k), StagedRefs(p).At(k));
    }
  }

  // ---------- Staging and cleaning ----------

  method StageMaterial(stores: Stores, p: PlannedServer, k: CredentialKind, staged: set<Key>)
    returns (ok: bool, staged': set<Key>)
    requires stores.Valid() && !p.mutation.Nothing? && Unreferenced(stores.state.servers, StageKey(p, k))
    modifies stores`vault, stores`faults, stores`sound
    ensures stores.Valid()
    ensures ok ==> stores.vault == if Stages(p, k)
                                   then old(stores.vault)[StageKey(p, k) := p.materials.At(k).value]
                                   else old(stores.vault)
    ensures ok ==> staged' == if Stages(p, k) then staged + {StageKey(p, k)} else staged
    ensures !ok ==> stores.vault == old(stores.vault) && staged' == staged
    ensures old(stores.Reliable()) ==> ok && stores.Reliable()
  {
    ok, staged' := true, staged;
    var m := p.materials.At(k);
    if m.changed && m.value != "" {
      var key := NextKey(p.id, k, p.desired.refs.At(k));
      ok := stores.Put(key, m.value);
      if ok {
        staged' := staged + {key};
      }
    }
  }

  /** Stages what a plan changes; `staged` are the slots that were written. */
  method Stage(stores: Stores, items: seq<PlannedServer>) returns (ok: bool, staged: set<Key>)
    requires stores.Valid() && DistinctServers(items) && RefsCurrent(stores.state.servers, items)
    modifies stores`vault, stores`faults, stores`sound
    ensures stores.Valid()
    ensures old(stores.Reliable()) ==> ok && stores.Reliable()
    ensures ok ==> VaultStaged(old(stores.vault), stores.vault, items)
    ensures ok ==> forall key | StagedIn(items, key) :: key in staged
    ensures forall key | key in staged :: StagedIn(items, key)
    ensures forall key | key !in staged :: SameKey(old(stores.vault), stores.vault, key)
  {
    staged := {};
    var kinds := [Psk, Ca, Certificate, PrivateKey];
    for i := 0 to |items|
      invariant stores.Valid() && StagedUpTo(old(stores.vault), stores.vault, items, i, 0, staged)
      invariant old(stores.Reliable()) ==> stores.Reliable()
    {
      if items[i].mutation.Nothing? {
        StageNothing(old(stores.vault), stores.vault, items, i, staged);
        continue;
      }
      for n := 0 to 4
        invariant stores.Valid() && StagedUpTo(old(stores.vault), stores.vault, items, i, n, staged)
        invariant old(stores.Reliable()) ==> stores.Reliable()
      {
        ghost var before, staged0 := stores.vault, staged;
        StageKeyIsFree(stores.state.servers, items, i, kinds[n]);
        ok, staged := StageMaterial(stores, items[i], kinds[n], staged);
        if !ok {
          return;
        }
        StageMore(old(stores.vault), before, stores.vault, items, i, n, staged0, staged);
      }
      StageNext(old(stores.vault), stores.vault, items, i, staged);
    }
    ok := true;
  }

  /** The staged slots are emptied again; a slot may resist. */
  method Abort(stores: Stores, staged: set<Key>)
    requires stores.Valid() && forall key | key in staged :: Unreferenced(stores.state.servers, key)
    modifies stores`vault, stores`faults, stores`sound
    ensures stores.Valid()
    ensures forall key | !SameKey(old(stores.vault), stores.vault, key) ::
              key in staged && key !in stores.vault
    ensures old(stores.Reliable()) ==>
              stores.Reliable() && forall key | key in staged :: key !in stores.vault
  {
    var rest := staged;
    while rest != {}
      invariant rest <= staged && stores.Valid()
      invariant forall key | !SameKey(old(stores.vault), stores.vault, key) ::
                  key in staged && key !in stores.vault
      invariant old(stores.Reliable()) ==>
                  stores.Reliable() && forall key | key in staged && key !in rest :: key !in stores.vault
      decreases rest
    {
      var key :| key in rest;
      var _ := stores.Remove(key);
      rest := rest - {key};
    }
  }

  method CleanServer(stores: Stores, p: PlannedServer)
    requires stores.Valid() && !p.mutation.Nothing? && SpareOnceWritten(stores.state.servers, p)
    modifies stores`vault, stores`faults, stores`sound
    ensures stores.Valid() && VaultCleaned(old(stores.vault), stores.vault, [p])
    ensures old(stores.Reliable()) ==> stores.Reliable() && VaultEmptied(stores.vault, [p])
  {
    var kinds := [Psk, Ca, Certificate, PrivateKey];
    for n := 0 to 4
      invariant stores.Valid() && VaultCleaned(old(stores.vault), stores.vault, [p])
      invariant old(stores.Reliable()) ==> stores.Reliable() && EmptiedUpTo(stores.vault, p, n)
    {
      var k := kinds[n];
      if p.materials.At(k).changed {
        assert Spare(stores.state.servers, p.id, k, p.desired.refs.At(k), StagedRefs(p).At(k));
        assert forall key | Candidate(p.id, k, p.desired.refs.At(k), StagedRefs(p).At(k), key) ::
            Superseded(p, key);
        ghost var before := stores.vault;
        var _ := stores.CleanUp(p.id, k, p.desired.refs.At(k), StagedRefs(p).At(k));
        assert VaultCleaned(before, stores.vault, [p]) by {
          assert [p][0] == p;
        }
        CleanedMore(old(stores.vault), before, stores.vault, [p], 0);
        if old(stores.Reliable()) {
          EmptiedMore(before, stores.vault, p, n);
        }
      }
    }
  }

  method Clean(stores: Stores, items: seq<PlannedServer>)
    requires stores.Valid()
    requires forall i | 0 <= i < |items| && !items[i].mutation.Nothing? ::
               SpareOnceWritten(stores.state.servers, items[i])
    modifies stores`vault, stores`faults, stores`sound
    ensures stores.Valid() && VaultCleaned(old(stores.vault), stores.vault, items)
    ensures old(stores.Reliable()) ==> stores.Reliable() && VaultEmptied(stores.vault, items)
  {
    for i := 0 to |items|
      invariant stores.Valid() && VaultCleaned(old(stores.vault), stores.vault, items)
      invariant old(stores.Reliable()) ==> stores.Reliable() && VaultEmptied(stores.vault, items[..i])
    {
      if !items[i].mutation.Nothing? {
        ghost var before := stores.vault;
        CleanServer(stores, items[i]);
        CleanedMore(old(stores.vault), before, stores.vault, items, i);
        if old(stores.Reliable()) {
          EmptiedNext(before, stores.vault, items, i);
        }
      }
    }
    assert items[..|items|] == items;
  }

  // ---------- The whole operation ----------

  /** What the plan knows about references, and what that is worth at commit. */
  lemma PlanKnowsRefs(
      doc: Document, s: State, vault: Vault, env: Environment, prune: bool, p: Plan)
    requires Supplies(env, doc) && Planned(doc, s, vault, env, prune, p)
    requires Owned(s.servers) && FreshIds(env, s)
    ensures RefsCurrent(s.servers, p.servers)
    ensures forall i | 0 <= i < |p.servers| && !LiveServer(s.servers, p.servers[i].id) ::
              p.servers[i].original.None?
  {
    forall i | 0 <= i < |p.servers|
      ensures OwnRefs(p.servers[i].id, p.servers[i].desired.refs)
      ensures LiveServer(s.servers, p.servers[i].id) ==>
                p.servers[i].desired.refs == s.servers[p.servers[i].id].refs
      ensures p.servers[i].original.None? ==> p.servers[i].desired.refs == Uniform(None)
      ensures !LiveServer(s.servers, p.servers[i].id) ==> p.servers[i].original.None?
    {
      assert ServerPlannedAt(doc, s, vault, env, p.servers[i], i);
      MatchIsLive(doc.servers[i], s.servers);
      assert env.serverIds[i] in env.serverIds;
    }
  }

  lemma WrittenRefs(before: State, middle: State, after: State, p: Plan, i: nat)
    requires Committed(before, middle, after, p) && i < |p.servers|
    requires !p.servers[i].mutation.Nothing?
    ensures p.servers[i].id in after.servers
    ensures after.servers[p.servers[i].id].refs == StagedRefs(p.servers[i])
    ensures p.servers[i].original.Some? ==> LiveServer(before.servers, p.servers[i].id)
  {
    assert ServerWritten(before.servers, middle.servers, p.servers[i]);
  }

  /**
    `apply`. `live` is what the database holds when the transaction begins, after whatever others
    did to it since the plan was made.
  */
  method ApplyDocument(stores: Stores, doc: Document, env: Environment, prune: bool, live: State)
    returns (r: Result<bool>, ghost p: Plan, ghost middle: State, ghost staged: Vault)
    requires stores.Valid() && Supplies(env, doc) && FreshIds(env, stores.state)
    requires UniqueNames(live.servers) && Owned(live.servers)
    requires RefsSteady(stores.state.servers, live.servers)
    modifies stores
    ensures stores.Valid()
    ensures r == Ok(false) ==>
              stores.vault == old(stores.vault) && stores.state == old(stores.state) && NoActions(p)
    ensures Plannable(doc, old(stores.state), old(stores.vault), env, prune, p.servers) ==>
              Planned(doc, old(stores.state), old(stores.vault), env, prune, p)
    ensures r.Ok? ==> Plannable(doc, old(stores.state), old(stores.vault), env, prune, p.servers)
                      && (NoActions(p) || Committable(live, p))
    ensures old(stores.Reliable()) ==>
              (r.Ok? <==> && Plannable(doc, old(stores.state), old(stores.vault), env, prune, p.servers)
                          && (NoActions(p) || Committable(live, p)))
    ensures old(stores.Reliable()) && r == Ok(true) ==> VaultEmptied(stores.vault, p.servers)
    ensures old(stores.Reliable()) && r.Err?
            && Plannable(doc, old(stores.state), old(stores.vault), env, prune, p.servers) ==>
              forall key | StagedIn(p.servers, key) :: key !in stores.vault
    ensures r == Ok(true) ==> Committed(live, middle, stores.state, p)
    ensures r == Ok(true) ==> VaultStaged(old(stores.vault), staged, p.servers)
                              && VaultCleaned(staged, stores.vault, p.servers)
    ensures r.Err? ==>
              stores.state
              == if Plannable(doc, old(stores.state), old(stores.vault), env, prune, p.servers) then live
                 else old(stores.state)
    ensures r.Err? ==> forall key | !SameKey(old(stores.vault), stores.vault, key) ::
                         StagedIn(p.servers, key)
  {
    middle, staged, p := live, stores.vault, Plan([], [], map[], map[]);
    var planned;
    ghost var servers;
    planned, servers := PreparePlan(doc, stores.state, stores.vault, env, prune);
    if planned.Err? {
      p := p.(servers := servers);
      return Err(planned.code), p, middle, staged;
    }
    p := planned.value;
    PlansAreDistinct(doc, stores.state, stores.vault, env, prune, p);
    var empty := IsEmpty(planned.value);
    if empty {
      return Ok(false), p, middle, staged;
    }
    PlanKnowsRefs(doc, stores.state, stores.vault, env, prune, p);
    PruneIsSafe(doc, stores.state, stores.vault, env, prune, p);
    var ok, keys := Stage(stores, planned.value.servers);
    SteadyIsSound(stores.state.servers, live.servers, stores.vault, p.servers);
    SteadyIsSound(stores.state.servers, live.servers, old(stores.vault), p.servers);
    stores.state := live;
    var code;
    if ok {
      staged := stores.vault;
      code, middle := CommitPlan(stores, planned.value, old(stores.vault));
      if code.None? {
        return Ok(true), p, middle, staged;
      }
    } else {
      code := Some(DatabaseError);
    }
    forall key | key in keys
      ensures Unreferenced(stores.state.servers, key)
    {
      StagedIsFree(stores.state.servers, p.servers, key);
    }
    Abort(stores, keys);
    return Err(code.value), p, middle, staged;
  }

  /** The transaction and, if it commits, the cleaning; otherwise the error. */
  method CommitPlan(stores: Stores, p: Plan, ghost before: Vault)
    returns (code: Option<ErrorCode>, ghost middle: State)
    requires stores.Valid() && DistinctServers(p.servers) && DistinctTunnels(p.tunnels) && DropsApart(p)
    requires Sound(stores.state.servers, before) && VaultStaged(before, stores.vault, p.servers)
    requires RefsCurrent(stores.state.servers, p.servers)
    modifies stores
    ensures stores.Valid()
    ensures code.None? ==> Committable(old(stores.state), p)
    ensures old(stores.Reliable()) ==> stores.Reliable()
    ensures old(stores.Reliable()) && Committable(old(stores.state), p) ==>
              code.None? && VaultEmptied(stores.vault, p.servers)
    ensures code.None? ==> Committed(old(stores.state), middle, stores.state, p)
                           && VaultCleaned(old(stores.vault), stores.vault, p.servers)
    ensures code.Some? ==> stores.state == old(stores.state) && stores.vault == old(stores.vault)
  {
    var result;
    result, middle := Transact(stores.state, p);
    if result.Err? {
      return Some(result.code), middle;
    }
    CommitIsSound(stores.state, middle, result.value, p, before, stores.vault);
    var ok := stores.Commit(result.value);
    if !ok {
      return Some(DatabaseError), middle;
    }
    forall i | 0 <= i < |p.servers| && !p.servers[i].mutation.Nothing?
      ensures SpareOnceWritten(stores.state.servers, p.servers[i])
    {
      WrittenRefs(old(stores.state), middle, stores.state, p, i);
      SupersededIsSpare(old(stores.state).servers, stores.state.servers, p.servers[i]);
    }
    Clean(stores, p.servers);
    return None, middle;
  }

  method IsEmpty(p: Plan) returns (empty: bool)
    ensures empty <==> NoActions(p)
  {
    for i := 0 to |p.servers|
      invariant forall j | 0 <= j < i :: p.servers[j].mutation.Nothing?
    {
      if !p.servers[i].mutation.Nothing? {
        return false;
      }
    }
    for i := 0 to |p.tunnels|
      invariant forall j | 0 <= j < i :: p.tunnels[j].mutation.Nothing?
    {
      if !p.tunnels[i].mutation.Nothing? {
        return false;
      }
    }
    return p.dropServers == map[] && p.dropTunnels == map[];
  }

  lemma PlansAreDistinct(
      doc: Document, s: State, vault: Vault, env: Environment, prune: bool, p: Plan)
    requires Supplies(env, doc) && Planned(doc, s, vault, env, prune, p)
    requires Plannable(doc, s, vault, env, prune, p.servers)
    ensures DistinctServers(p.servers) && DistinctTunnels(p.tunnels)
  {
    var servers, tunnels := ServerLabels(doc, s, env), TunnelLabels(doc, s, env);
    forall i, j | 0 <= i < j < |p.servers|
      ensures p.servers[i].id != p.servers[j].id
    {
      assert ServerPlannedAt(doc, s, vault, env, p.servers[i], i);
      assert ServerPlannedAt(doc, s, vault, env, p.servers[j], j);
      assert !Clash(servers[i], servers[j]);
    }
    forall i, j | 0 <= i < j < |p.tunnels|
      ensures p.tunnels[i].id != p.tunnels[j].id
    {
      assert TunnelPlannedAt(doc, s, env, p.servers, p.tunnels[i], i);
      assert TunnelPlannedAt(doc, s, env, p.servers, p.tunnels[j], j);
      assert !Clash(tunnels[i], tunnels[j]);
    }
  }

  // ---------- Plans on rows that nobody has touched since ----------

  ghost predicate HasRoom(servers: Servers, p: PlannedServer) {
    if p.original.None? then p.id !in servers else p.original.value.revision < LAST_REVISION
  }

  ghost predicate TunnelHasRoom(tunnels: Tunnels, p: PlannedTunnel) {
    if p.original.None? then p.id !in tunnels else p.original.value.revision < LAST_REVISION
  }

  ghost predicate ServerUnobstructed(s: State, p: Plan, i: nat)
    requires i < |p.servers|
  {
    || p.servers[i].mutation.Nothing?
    || (HasRoom(s.servers, p.servers[i]) && !NameBlocked(s.servers, p.servers, i))
  }

  ghost predicate TunnelUnobstructed(s: State, p: Plan, i: nat)
    requires i < |p.tunnels|
  {
    || p.tunnels[i].mutation.Nothing?
    || (TunnelHasRoom(s.tunnels, p.tunnels[i]) && !ListenerBlocked(s.tunnels, p.tunnels, i))
  }

  /** No id is that of a tombstone, no revision is the last, and no name or listener is blocked. */
  ghost predicate Unobstructed(s: State, p: Plan) {
    && (forall i | 0 <= i < |p.servers| :: ServerUnobstructed(s, p, i))
    && (forall i | 0 <= i < |p.tunnels| :: TunnelUnobstructed(s, p, i))
  }

  /** The server of a planned tunnel is there when the tunnel is written. */
  lemma ParentIsWritten(
      doc: Document, s: State, vault: Vault, env: Environment, prune: bool, p: Plan, i: nat)
    requires Supplies(env, doc) && Planned(doc, s, vault, env, prune, p)
    requires i < |p.tunnels| && p.tunnels[i].original.None?
    ensures p.tunnels[i].desired.server in WrittenIds(s.servers, p.servers)
  {
    assert TunnelPlannedAt(doc, s, env, p.servers, p.tunnels[i], i);
    ParentIsPlanned(doc.tunnels[i].server, p.servers);
    var j :| 0 <= j < |p.servers| && p.servers[j].id == p.tunnels[i].desired.server;
    assert ServerPlannedAt(doc, s, vault, env, p.servers[j], j);
  }

  /** Exactly what can stand in the way of a plan that is committed on the rows it was made on. */
  lemma QuietCommitIff(
      doc: Document, s: State, vault: Vault, env: Environment, prune: bool, p: Plan)
    requires Supplies(env, doc) && Planned(doc, s, vault, env, prune, p)
    ensures Committable(s, p) <==> Unobstructed(s, p)
  {
    forall i | 0 <= i < |p.servers|
      ensures ServerUnobstructed(s, p, i) <==> ServerWritable(s.servers, p.servers, i)
    {
      assert ServerPlannedAt(doc, s, vault, env, p.servers[i], i);
      MatchIsLive(doc.servers[i], s.servers);
    }
    forall i | 0 <= i < |p.tunnels|
      ensures TunnelUnobstructed(s, p, i)
         <==> TunnelWritable(s.tunnels, WrittenIds(s.servers, p.servers), p.tunnels, i)
    {
      assert TunnelPlannedAt(doc, s, env, p.servers, p.tunnels[i], i);
      TunnelMatchIsLive(doc.tunnels[i], s.tunnels);
      if p.tunnels[i].original.None? {
        ParentIsWritten(doc, s, vault, env, prune, p, i);
      }
    }
  }

  /** One server gives up its name and another asks for it: the giver must be written first. */
  lemma HandedOnNameIff(before: Servers, items: seq<PlannedServer>, giver: nat, taker: nat)
    requires UniqueNames(before) && DistinctServers(items)
    requires giver < |items| && taker < |items| && giver != taker
    requires items[giver].id in before && !items[giver].mutation.Nothing?
    requires items[taker].desired.name.Some?
    requires before[items[giver].id].name == items[taker].desired.name
    requires forall j | 0 <= j < |items| && j != taker :: items[j].desired.name != items[taker].desired.name
    ensures NameBlocked(before, items, taker) <==> taker < giver
  {
    var id := items[giver].id;
    if taker < giver {
      assert !Touches(items[..taker], id);
    } else {
      assert items[..taker][giver] == items[giver];
      assert Touches(items[..taker], id);
    }
  }

  /** Two servers cannot exchange their names, whatever the order. */
  lemma SwapIsRefused(before: Servers, items: seq<PlannedServer>, a: nat, b: nat)
    requires UniqueNames(before) && DistinctServers(items)
    requires a < b < |items| && items[a].id in before && items[b].id in before
    requires !items[a].mutation.Nothing? && !items[b].mutation.Nothing?
    requires before[items[a].id].name.Some? && before[items[b].id].name.Some?
    requires items[a].desired.name == before[items[b].id].name
    requires items[b].desired.name == before[items[a].id].name
    ensures !ServerWritable(before, items, a)
  {
    assert !Touches(items[..a], items[b].id);
  }

  function SwapState(a: ServerId, b: ServerId, x: string, y: string): State {
    var row := Server(Some(x), "", None, Uniform(None), Enabled, ServerActual.NotAuthenticated, 1, true);
    State(map[a := row, b := row.(name := Some(y))], map[])
  }

  /** The document that exchanges the names of the two servers. */
  function SwapDocument(a: ServerId, b: ServerId, x: string, y: string): Document {
    var entry := ServerEntry(Some(a), Some(y), "", None, true, Uniform(Omitted), None);
    Document([entry, entry.(id := Some(b), name := Some(x))], [])
  }

  function SwapEnvironment(a: ServerId, b: ServerId): Environment {
    Environment([a + b + "0", a + b + "1"], [], (_, _, _) => true)
  }

  ghost function SwapPlan(a: ServerId, b: ServerId, x: string, y: string): Plan {
    var servers, entries := SwapState(a, b, x, y).servers, SwapDocument(a, b, x, y).servers;
    Plan([PlanServer(entries[0], servers, map[], Some(a), a + b + "0"),
          PlanServer(entries[1], servers, map[], Some(b), a + b + "1")], [], map[], map[])
  }

  lemma SwapFits(a: ServerId, b: ServerId, x: string, y: string, servers: seq<PlannedServer>)
    requires a != b && x != y
    ensures Plannable(SwapDocument(a, b, x, y), SwapState(a, b, x, y), map[], SwapEnvironment(a, b),
                      false, servers)
  {
    var doc, s, env := SwapDocument(a, b, x, y), SwapState(a, b, x, y), SwapEnvironment(a, b);
    assert ServerFitsAt(doc, s, map[], env, 0) && ServerFitsAt(doc, s, map[], env, 1);
    assert ServerLabels(doc, s, env) == [(a, Some(y)), (b, Some(x))];
    assert TunnelLabels(doc, s, env) == [];
  }

  lemma SwapIsAsPlanned(a: ServerId, b: ServerId, x: string, y: string)
    requires a != b
    ensures Planned(SwapDocument(a, b, x, y), SwapState(a, b, x, y), map[], SwapEnvironment(a, b),
                    false, SwapPlan(a, b, x, y))
  {
    var doc, s, env := SwapDocument(a, b, x, y), SwapState(a, b, x, y), SwapEnvironment(a, b);
    var p := SwapPlan(a, b, x, y);
    assert ServerPlannedAt(doc, s, map[], env, p.servers[0], 0);
    assert ServerPlannedAt(doc, s, map[], env, p.servers[1], 1);
  }

  lemma SwapStartsSound(a: ServerId, b: ServerId, x: string, y: string)
    requires a != b && x != y
    ensures FreshIds(SwapEnvironment(a, b), SwapState(a, b, x, y))
    ensures Agree(SwapState(a, b, x, y).servers, map[])
  {
    assert |a + b + "0"| > |a| && |a + b + "0"| > |b| && |a + b + "1"| > |a| && |a + b + "1"| > |b|;
  }

  lemma SwapIsBlocked(a: ServerId, b: ServerId, x: string, y: string)
    requires a != b && x != y
    ensures !Committable(SwapState(a, b, x, y), SwapPlan(a, b, x, y))
  {
    var servers, items := SwapState(a, b, x, y).servers, SwapPlan(a, b, x, y).servers;
    assert items[0].id == a && items[1].id == b;
    assert items[0].desired.name == Some(y) && items[1].desired.name == Some(x);
    SwapIsRefused(servers, items, 0, 1);
    assert !ServerWritable(servers, items, 0);
  }

  /** A document that exchanges two names is planned all the same. */
  lemma SwapIsPlanned(a: ServerId, b: ServerId, x: string, y: string)
    requires a != b && x != y
    ensures var doc, s, env, p := SwapDocument(a, b, x, y), SwapState(a, b, x, y),
                                  SwapEnvironment(a, b), SwapPlan(a, b, x, y);
            && Supplies(env, doc) && FreshIds(env, s) && Agree(s.servers, map[])
            && Plannable(doc, s, map[], env, false, p.servers) && Planned(doc, s, map[], env, false, p)
            && !Committable(s, p)
  {
    SwapFits(a, b, x, y, SwapPlan(a, b, x, y).servers);
    SwapIsAsPlanned(a, b, x, y);
    SwapStartsSound(a, b, x, y);
    SwapIsBlocked(a, b, x, y);
  }

  // ---------- Staging, one slot at a time ----------

  ghost function KindRank(k: CredentialKind): nat {
    match k
    case Psk => 0
    case Ca => 1
    case Certificate => 2
    case PrivateKey => 3
  }

  ghost predicate Reached(i: nat, k: CredentialKind, m: nat, n: nat) {
    i < m || (i == m && KindRank(k) < n)
  }

  /** All of `items[..m]` and the first `n` kinds of `items[m]` are staged. */
  ghost predicate StagedUpTo(
      before: Vault, after: Vault, items: seq<PlannedServer>, m: nat, n: nat, staged: set<Key>) {
    && (forall i, k: CredentialKind | 0 <= i < |items| && Stages(items[i], k) && Reached(i, k, m, n) ::
          StageKey(items[i], k) in after && after[StageKey(items[i], k)] == items[i].materials.At(k).value
          && StageKey(items[i], k) in staged)
    && (forall key | key in staged :: StagedIn(items, key))
    && (forall key | key !in staged :: SameKey(before, after, key))
  }

  lemma StageMore(
      before: Vault, middle: Vault, after: Vault, items: seq<PlannedServer>, m: nat, n: nat,
      staged: set<Key>, staged': set<Key>)
    requires m < |items| && n < 4 && DistinctServers(items)
    requires StagedUpTo(before, middle, items, m, n, staged)
    requires var k := [Psk, Ca, Certificate, PrivateKey][n];
             var p := items[m];
             if Stages(p, k)
             then after == middle[StageKey(p, k) := p.materials.At(k).value]
                  && staged' == staged + {StageKey(p, k)}
             else after == middle && staged' == staged
    ensures StagedUpTo(before, after, items, m, n + 1, staged')
  {
    var k := [Psk, Ca, Certificate, PrivateKey][n];
    assert KindRank(k) == n;
    forall i, kind: CredentialKind |
      0 <= i < |items| && Stages(items[i], kind) && Reached(i, kind, m, n + 1)
      ensures StageKey(items[i], kind) in after
      ensures after[StageKey(items[i], kind)] == items[i].materials.At(kind).value
      ensures StageKey(items[i], kind) in staged'
    {
      assert (i == m && kind == k) || Reached(i, kind, m, n);
    }
  }

  lemma StageNothing(
      before: Vault, after: Vault, items: seq<PlannedServer>, m: nat, staged: set<Key>)
    requires m < |items| && items[m].mutation.Nothing?
    requires StagedUpTo(before, after, items, m, 0, staged)
    ensures StagedUpTo(before, after, items, m + 1, 0, staged)
  {
  }

  lemma StageNext(
      before: Vault, after: Vault, items: seq<PlannedServer>, m: nat, staged: set<Key>)
    requires m < |items| && StagedUpTo(before, after, items, m, 4, staged)
    ensures StagedUpTo(before, after, items, m + 1, 0, staged)
  {
  }

  /** The superseded slots of the first `n` kinds are empty. */
  ghost predicate EmptiedUpTo(after: Vault, p: PlannedServer, n: nat) {
    forall k: CredentialKind, key |
      && KindRank(k) < n && p.materials.At(k).changed
      && Candidate(p.id, k, p.desired.refs.At(k), StagedRefs(p).At(k), key) :: key !in after
  }

  lemma EmptiedMore(before: Vault, after: Vault, p: PlannedServer, n: nat)
    requires n < 4 && EmptiedUpTo(before, p, n) && VaultCleaned(before, after, [p])
    requires var k := [Psk, Ca, Certificate, PrivateKey][n];
             forall key | Candidate(p.id, k, p.desired.refs.At(k), StagedRefs(p).At(k), key) ::
               key !in after
    ensures EmptiedUpTo(after, p, n + 1)
  {
    forall k: CredentialKind, key |
      && KindRank(k) < n + 1 && p.materials.At(k).changed
      && Candidate(p.id, k, p.desired.refs.At(k), StagedRefs(p).At(k), key)
      ensures key !in after
    {
      if KindRank(k) < n {
        assert key !in before;
      } else {
        assert k == [Psk, Ca, Certificate, PrivateKey][n];
      }
    }
  }

  lemma EmptiedNext(before: Vault, after: Vault, items: seq<PlannedServer>, i: nat)
    requires i < |items| && VaultEmptied(before, items[..i])
    requires VaultCleaned(before, after, [items[i]]) && VaultEmptied(after, [items[i]])
    ensures VaultEmptied(after, items[..i + 1])
  {
    var longer, shorter := items[..i + 1], items[..i];
    forall j, key | 0 <= j < |longer| && Superseded(longer[j], key)
      ensures key !in after
    {
      if j < i {
        assert Superseded(shorter[j], key);
      } else {
        assert Superseded([items[i]][0], key);
      }
    }
  }

  lemma CleanedMore(before: Vault, middle: Vault, after: Vault, items: seq<PlannedServer>, i: nat)
    requires i < |items|
    requires VaultCleaned(before, middle, items) && VaultCleaned(middle, after, [items[i]])
    ensures VaultCleaned(before, after, items)
  {
    forall key | !SameKey(before, after, key)
      ensures key !in after && exists j :: 0 <= j < |items| && Superseded(items[j], key)
    {
      if !SameKey(middle, after, key) {
        var j :| 0 <= j < |[items[i]]| && Superseded([items[i]][j], key);
        assert Superseded(items[i], key);
      }
    }
  }
}
