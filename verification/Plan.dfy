/**
  Planning a declarative configuration: `prepare_plan`.

  A document starts out parsed: its endpoints are canonical, and each credential file named in it
  was read, the line ends of a PSK file dropped.
*/
module Plan {
  import opened Base
  import opened Responses
  import opened Trace
  import opened Records

  // ---------- The document ----------

  /** A credential file of a server entry: not mentioned, null, or the file's contents. */
  datatype Field = Omitted | Null | File(contents: string)

  datatype Markers = Markers(psk: Option<bool>, ca: Option<bool>, certificate: Option<bool>)

  datatype ServerEntry = ServerEntry(
    id: Option<ServerId>, name: Option<string>, endpoint: Endpoint, tlsName: Option<string>,
    enabled: bool, files: PerKind<Field>, markers: Option<Markers>)

  datatype ServerRef = ById(id: ServerId) | ByName(name: string)

  datatype TunnelEntry = TunnelEntry(
    id: Option<TunnelId>, name: Option<string>, server: ServerRef, mode: Mode, proxy: bool,
    local: Endpoint, remote: Endpoint, enabled: bool)

  datatype Document = Document(servers: seq<ServerEntry>, tunnels: seq<TunnelEntry>)

  /** Ids to give to entries that match nothing, and the TLS library's verdict on material. */
  datatype Environment = Environment(
    serverIds: seq<ServerId>, tunnelIds: seq<TunnelId>, tls: (string, string, string) -> bool)

  ghost predicate Supplies(env: Environment, doc: Document) {
    |env.serverIds| == |doc.servers| && |env.tunnelIds| == |doc.tunnels|
  }

  // ---------- The plan ----------

  datatype Mutation = Nothing | Create | Update | Disable

  /** `value` is what the credential is to be; an empty value is no credential. */
  datatype Material = Material(value: string, changed: bool)

  datatype PlannedServer = PlannedServer(
    id: ServerId, original: Option<Server>, desired: Server, materials: PerKind<Material>,
    mutation: Mutation, transportChanged: bool, desiredChanged: bool)

  datatype PlannedTunnel = PlannedTunnel(
    id: TunnelId, original: Option<Tunnel>, desired: Tunnel, mutation: Mutation,
    endpointChanged: bool, desiredChanged: bool)

  /** The resources to drop come with the revision they were planned at. */
  datatype Plan = Plan(
    servers: seq<PlannedServer>, tunnels: seq<PlannedTunnel>,
    dropServers: map<ServerId, u64>, dropTunnels: map<TunnelId, u64>)

  ghost predicate NoActions(p: Plan) {
    && (forall i | 0 <= i < |p.servers| :: p.servers[i].mutation.Nothing?)
    && (forall i | 0 <= i < |p.tunnels| :: p.tunnels[i].mutation.Nothing?)
    && p.dropServers == map[] && p.dropTunnels == map[]
  }

  // ---------- Matching entries with rows ----------

  function NamedServers(servers: Servers, name: Option<string>): set<ServerId> {
    set id | id in servers && LiveServer(servers, id) && servers[id].name == name
  }

  function NamedTunnels(tunnels: Tunnels, name: Option<string>): set<TunnelId> {
    set id | id in tunnels && LiveTunnel(tunnels, id) && tunnels[id].name == name
  }

  ghost function Pick(ids: set<string>): Option<string> {
    if ids == {} then None else var id :| id in ids; Some(id)
  }

  ghost function MatchServer(e: ServerEntry, servers: Servers): Option<ServerId> {
    if e.id.Some? then (if LiveServer(servers, e.id.value) then e.id else None)
    else Pick(NamedServers(servers, e.name))
  }

  ghost function MatchTunnel(e: TunnelEntry, tunnels: Tunnels): Option<TunnelId> {
    if e.id.Some? then (if LiveTunnel(tunnels, e.id.value) then e.id else None)
    else Pick(NamedTunnels(tunnels, e.name))
  }

  lemma MatchIsLive(e: ServerEntry, servers: Servers)
    ensures MatchServer(e, servers).Some? ==> LiveServer(servers, MatchServer(e, servers).value)
  {
  }

  lemma TunnelMatchIsLive(e: TunnelEntry, tunnels: Tunnels)
    ensures MatchTunnel(e, tunnels).Some? ==> LiveTunnel(tunnels, MatchTunnel(e, tunnels).value)
  {
  }

  function IdOf(specified: Option<string>, matched: Option<string>, generated: string): string {
    if specified.Some? then specified.value
    else if matched.Some? then matched.value else generated
  }

  // ---------- One server entry ----------

  /** The value behind a reference; none when the credential store does not have it. */
  function Loaded(vault: Vault, ref: Option<Key>): Option<string> {
    if ref.None? then Some("") else if ref.value in vault then Some(vault[ref.value]) else None
  }

  function Configured(f: Field, current: string): string {
    match f
    case Omitted => current
    case Null => ""
    case File(contents) => contents
  }

  function MaterialOf(f: Field, current: string): Material {
    Material(Configured(f, current), Configured(f, current) != current)
  }

  predicate AllLoaded(vault: Vault, refs: Refs) {
    && Loaded(vault, refs.psk).Some? && Loaded(vault, refs.ca).Some?
    && Loaded(vault, refs.certificate).Some? && Loaded(vault, refs.privateKey).Some?
  }

  function Materials(files: PerKind<Field>, vault: Vault, refs: Refs): PerKind<Material>
    requires AllLoaded(vault, refs)
  {
    PerKind(MaterialOf(files.psk, Loaded(vault, refs.psk).value),
            MaterialOf(files.ca, Loaded(vault, refs.ca).value),
            MaterialOf(files.certificate, Loaded(vault, refs.certificate).value),
            MaterialOf(files.privateKey, Loaded(vault, refs.privateKey).value))
  }

  predicate MarkerAgrees(marker: Option<bool>, present: bool) {
    marker.Some? ==> marker.value == present
  }

  predicate MarkersAgree(e: ServerEntry, m: PerKind<Material>) {
    e.markers.Some? ==>
      && MarkerAgrees(e.markers.value.psk, m.psk.value != "")
      && MarkerAgrees(e.markers.value.ca, m.ca.value != "")
      && MarkerAgrees(e.markers.value.certificate,
                      m.certificate.value != "" && m.privateKey.value != "")
  }

  predicate MaterialFits(e: ServerEntry, m: PerKind<Material>, env: Environment) {
    && (m.certificate.value == "") == (m.privateKey.value == "")
    && env.tls(m.ca.value, m.certificate.value, m.privateKey.value)
    && MarkersAgree(e, m)
  }

  function RefsBefore(servers: Servers, matched: Option<ServerId>): Refs {
    if matched.Some? && matched.value in servers then servers[matched.value].refs else Uniform(None)
  }

  /** What an entry must satisfy on its own to be planned. */
  predicate ServerEntryFits(
      e: ServerEntry, servers: Servers, vault: Vault, env: Environment, matched: Option<ServerId>) {
    && (e.id.Some? || e.name.Some?)
    && AllLoaded(vault, RefsBefore(servers, matched))
    && e.files.psk != File("")
    && MaterialFits(e, Materials(e.files, vault, RefsBefore(servers, matched)), env)
  }

  function ServerGoal(e: ServerEntry): ServerDesired {
    if e.enabled then Enabled else ServerDesired.Disabled
  }

  predicate AnyChanged(m: PerKind<Material>) {
    m.psk.changed || m.ca.changed || m.certificate.changed || m.privateKey.changed
  }

  function PlanServer(
      e: ServerEntry, servers: Servers, vault: Vault, matched: Option<ServerId>, generated: ServerId)
    : PlannedServer
    requires matched.Some? ==> matched.value in servers
    requires AllLoaded(vault, RefsBefore(servers, matched))
  {
    var m := Materials(e.files, vault, RefsBefore(servers, matched));
    var id := IdOf(e.id, matched, generated);
    var goal := ServerGoal(e);
    if matched.None? then
      PlannedServer(id, None,
        Server(e.name, e.endpoint, e.tlsName, Uniform(None), goal,
               AtRest(goal, m.psk.value != ""), 1, true),
        m, Create, AnyChanged(m), false)
    else
      var was := servers[matched.value];
      var desired := was.(name := e.name, endpoint := e.endpoint, tlsName := e.tlsName,
                          desired := goal, managed := true);
      var transport := AnyChanged(m) || was.endpoint != e.endpoint || was.tlsName != e.tlsName;
      var changed := transport || was.name != e.name || !was.managed || was.desired != goal;
      PlannedServer(id, Some(was), desired, m,
        if !changed then Nothing
        else if goal.Disabled? && !was.desired.Disabled? then Disable else Update,
        transport, was.desired != goal)
  }

  // ---------- One tunnel entry ----------

  predicate Refers(ref: ServerRef, s: PlannedServer) {
    match ref
    case ById(id) => s.id == id
    case ByName(name) => s.desired.name == Some(name)
  }

  /** The planned server a tunnel entry belongs to. */
  function Parent(ref: ServerRef, servers: seq<PlannedServer>): Option<ServerId> {
    if |servers| == 0 then None
    else if Refers(ref, servers[0]) then Some(servers[0].id)
    else Parent(ref, servers[1..])
  }

  predicate TunnelEntryFits(
      e: TunnelEntry, tunnels: Tunnels, parent: Option<ServerId>, matched: Option<TunnelId>) {
    && (e.id.Some? || e.name.Some?)
    && parent.Some?
    && (e.id.None? ==> |NamedTunnels(tunnels, e.name)| <= 1)
    && (matched.Some? && matched.value in tunnels ==> tunnels[matched.value].server == parent.value)
  }

  function TunnelGoal(e: TunnelEntry): Desired {
    if e.enabled then WantActive else WantDisabled
  }

  function PlanTunnel(
      e: TunnelEntry, tunnels: Tunnels, parent: ServerId, matched: Option<TunnelId>,
      generated: TunnelId)
    : PlannedTunnel
    requires matched.Some? ==> matched.value in tunnels
  {
    var id := IdOf(e.id, matched, generated);
    var goal := TunnelGoal(e);
    if matched.None? then
      PlannedTunnel(id, None,
        Tunnel(parent, e.name, e.mode, e.proxy, e.local, e.remote, goal,
               if goal.WantActive? then Pending else Actual.Disabled, 1, true),
        Create, false, false)
    else
      var was := tunnels[matched.value];
      var desired := was.(name := e.name, mode := e.mode, proxy := e.proxy, local := e.local,
                          remote := e.remote, desired := goal, managed := true);
      var endpoint := was.local != e.local || was.remote != e.remote || was.mode != e.mode;
      var changed := endpoint || was.name != e.name || was.proxy != e.proxy || !was.managed
                     || was.desired != goal;
      PlannedTunnel(id, Some(was), desired,
        if !changed then Nothing
        else if goal.WantDisabled? && !was.desired.WantDisabled? then Disable else Update,
        endpoint, was.desired != goal)
  }

  // ---------- Whole documents, stated without loops ----------

  /** The id and the name an entry claims. */
  type Label = (string, Option<string>)

  ghost predicate Clash(a: Label, b: Label) {
    a.0 == b.0 || (a.1.Some? && a.1 == b.1)
  }

  ghost predicate DistinctLabels(labels: seq<Label>) {
    forall i, j | 0 <= i < j < |labels| :: !Clash(labels[i], labels[j])
  }

  ghost function ServerLabels(doc: Document, s: State, env: Environment): seq<Label>
    requires Supplies(env, doc)
  {
    seq(|doc.servers|, i requires 0 <= i < |doc.servers| =>
      (IdOf(doc.servers[i].id, MatchServer(doc.servers[i], s.servers), env.serverIds[i]),
       doc.servers[i].name))
  }

  ghost function TunnelLabels(doc: Document, s: State, env: Environment): seq<Label>
    requires Supplies(env, doc)
  {
    seq(|doc.tunnels|, i requires 0 <= i < |doc.tunnels| =>
      (IdOf(doc.tunnels[i].id, MatchTunnel(doc.tunnels[i], s.tunnels), env.tunnelIds[i]),
       doc.tunnels[i].name))
  }

  ghost predicate ServerFitsAt(doc: Document, s: State, vault: Vault, env: Environment, i: nat)
    requires Supplies(env, doc) && i < |doc.servers|
  {
    ServerEntryFits(doc.servers[i], s.servers, vault, env, MatchServer(doc.servers[i], s.servers))
  }

  ghost predicate ServersFit(doc: Document, s: State, vault: Vault, env: Environment)
    requires Supplies(env, doc)
  {
    && (forall i | 0 <= i < |doc.servers| :: ServerFitsAt(doc, s, vault, env, i))
    && DistinctLabels(ServerLabels(doc, s, env))
  }

  ghost predicate ServersPlanned(
      doc: Document, s: State, vault: Vault, env: Environment, planned: seq<PlannedServer>)
    requires Supplies(env, doc)
  {
    && |planned| == |doc.servers|
    && forall i | 0 <= i < |doc.servers| :: ServerPlannedAt(doc, s, vault, env, planned[i], i)
  }

  ghost predicate ServerPlannedAt(
      doc: Document, s: State, vault: Vault, env: Environment, planned: PlannedServer, i: nat)
    requires Supplies(env, doc) && i < |doc.servers|
  {
    var e := doc.servers[i];
    var matched := MatchServer(e, s.servers);
    && (matched.Some? ==> matched.value in s.servers)
    && AllLoaded(vault, RefsBefore(s.servers, matched))
    && planned == PlanServer(e, s.servers, vault, matched, env.serverIds[i])
  }

  ghost predicate TunnelFitsAt(
      doc: Document, s: State, env: Environment, servers: seq<PlannedServer>, i: nat)
    requires Supplies(env, doc) && i < |doc.tunnels|
  {
    TunnelEntryFits(doc.tunnels[i], s.tunnels, Parent(doc.tunnels[i].server, servers),
                    MatchTunnel(doc.tunnels[i], s.tunnels))
  }

  ghost predicate TunnelsFit(
      doc: Document, s: State, env: Environment, servers: seq<PlannedServer>)
    requires Supplies(env, doc)
  {
    && (forall i | 0 <= i < |doc.tunnels| :: TunnelFitsAt(doc, s, env, servers, i))
    && DistinctLabels(TunnelLabels(doc, s, env))
  }

  ghost predicate TunnelsPlanned(
      doc: Document, s: State, env: Environment, servers: seq<PlannedServer>,
      planned: seq<PlannedTunnel>)
    requires Supplies(env, doc)
  {
    && |planned| == |doc.tunnels|
    && forall i | 0 <= i < |doc.tunnels| :: TunnelPlannedAt(doc, s, env, servers, planned[i], i)
  }

  ghost predicate TunnelPlannedAt(
      doc: Document, s: State, env: Environment, servers: seq<PlannedServer>,
      planned: PlannedTunnel, i: nat)
    requires Supplies(env, doc) && i < |doc.tunnels|
  {
    var e := doc.tunnels[i];
    var matched, parent := MatchTunnel(e, s.tunnels), Parent(e.server, servers);
    && parent.Some?
    && (matched.Some? ==> matched.value in s.tunnels)
    && planned == PlanTunnel(e, s.tunnels, parent.value, matched, env.tunnelIds[i])
  }

  ghost function MatchedServers(planned: seq<PlannedServer>): set<ServerId> {
    set i | 0 <= i < |planned| && planned[i].original.Some? :: planned[i].id
  }

  ghost function MatchedTunnels(planned: seq<PlannedTunnel>): set<TunnelId> {
    set i | 0 <= i < |planned| && planned[i].original.Some? :: planned[i].id
  }

  /** Managed resources that no entry matched. */
  ghost function SurplusTunnels(s: State, planned: seq<PlannedTunnel>): map<TunnelId, u64> {
    map id | id in s.tunnels && LiveTunnel(s.tunnels, id) && s.tunnels[id].managed
             && id !in MatchedTunnels(planned) :: s.tunnels[id].revision
  }

  ghost function SurplusServers(s: State, planned: seq<PlannedServer>): map<ServerId, u64> {
    map id | id in s.servers && LiveServer(s.servers, id) && s.servers[id].managed
             && id !in MatchedServers(planned) :: s.servers[id].revision
  }

  predicate HasUnmanagedChild(tunnels: Tunnels, server: ServerId) {
    exists id | id in tunnels ::
      LiveTunnel(tunnels, id) && tunnels[id].server == server && !tunnels[id].managed
  }

  ghost predicate Planned(
      doc: Document, s: State, vault: Vault, env: Environment, prune: bool, p: Plan)
    requires Supplies(env, doc)
  {
    && ServersPlanned(doc, s, vault, env, p.servers)
    && TunnelsPlanned(doc, s, env, p.servers, p.tunnels)
    && p.dropTunnels == (if prune then SurplusTunnels(s, p.tunnels) else map[])
    && p.dropServers == (if prune then SurplusServers(s, p.servers) else map[])
  }

  /** When a plan exists; `servers` are the planned servers. */
  ghost predicate Plannable(
      doc: Document, s: State, vault: Vault, env: Environment, prune: bool,
      servers: seq<PlannedServer>)
    requires Supplies(env, doc)
  {
    && ServersFit(doc, s, vault, env)
    && TunnelsFit(doc, s, env, servers)
    && (prune ==> forall id | id in SurplusServers(s, servers) :: !HasUnmanagedChild(s.tunnels, id))
  }

  // ---------- The loops ----------

  /** Ids and names the first `i` labels have taken. */
  ghost predicate Taken(labels: seq<Label>, i: nat, ids: set<string>, names: set<string>)
    requires i <= |labels|
  {
    && ids == (set j | 0 <= j < i :: labels[j].0)
    && names == (set j | 0 <= j < i && labels[j].1.Some? :: labels[j].1.value)
  }

  ghost predicate Unclaimed(labels: seq<Label>, i: nat)
    requires i < |labels|
  {
    forall j | 0 <= j < i :: !Clash(labels[j], labels[i])
  }

  /** Takes the id and the name of the next entry, unless an earlier one has. */
  method Claim(
      id: string, name: Option<string>, ids: set<string>, names: set<string>,
      ghost labels: seq<Label>, ghost i: nat)
    returns (ok: bool, ids': set<string>, names': set<string>)
    requires i < |labels| && labels[i] == (id, name) && Taken(labels, i, ids, names)
    ensures ok <==> Unclaimed(labels, i)
    ensures ok ==> Taken(labels, i + 1, ids', names')
  {
    ids', names' := ids, names;
    ok := id !in ids && (name.Some? ==> name.value !in names);
    if ok {
      ids' := ids + {id};
      names' := if name.Some? then names + {name.value} else names;
    }
  }

  lemma DistinctGrows(labels: seq<Label>, i: nat)
    requires i < |labels| && DistinctLabels(labels[..i]) && Unclaimed(labels, i)
    ensures DistinctLabels(labels[..i + 1])
  {
    assert forall j | 0 <= j < i :: labels[..i][j] == labels[j];
  }

  method FindServer(e: ServerEntry, servers: Servers) returns (matched: Option<ServerId>)
    requires UniqueNames(servers) && (e.id.Some? || e.name.Some?)
    ensures matched == MatchServer(e, servers)
    ensures matched.Some? ==> LiveServer(servers, matched.value)
  {
    if e.id.Some? {
      return if LiveServer(servers, e.id.value) then e.id else None;
    }
    var found := NamedServers(servers, e.name);
    if found == {} {
      return None;
    }
    var id :| id in found;
    return Some(id);
  }

  method PrepareServers(doc: Document, s: State, vault: Vault, env: Environment)
    returns (r: Result<seq<PlannedServer>>)
    requires Supplies(env, doc) && UniqueNames(s.servers)
    ensures r.Ok? <==> ServersFit(doc, s, vault, env)
    ensures r.Ok? ==> ServersPlanned(doc, s, vault, env, r.value)
  {
    var planned: seq<PlannedServer> := [];
    var ids: set<ServerId>, names: set<string> := {}, {};
    ghost var labels := ServerLabels(doc, s, env);
    for i := 0 to |doc.servers|
      invariant |planned| == i
      invariant forall j | 0 <= j < i ::
                  ServerFitsAt(doc, s, vault, env, j)
                  && ServerPlannedAt(doc, s, vault, env, planned[j], j)
      invariant DistinctLabels(labels[..i]) && Taken(labels, i, ids, names)
    {
      var e := doc.servers[i];
      if e.id.None? && e.name.None? {
        assert !ServerFitsAt(doc, s, vault, env, i);
        return Err(InvalidArgument);
      }
      var matched := FindServer(e, s.servers);
      var ok;
      ok, ids, names := Claim(IdOf(e.id, matched, env.serverIds[i]), e.name, ids, names, labels, i);
      if !ok {
        return Err(AlreadyExists);
      }
      DistinctGrows(labels, i);
      if !ServerEntryFits(e, s.servers, vault, env, matched) {
        assert !ServerFitsAt(doc, s, vault, env, i);
        return Err(InvalidArgument);
      }
      planned := planned + [PlanServer(e, s.servers, vault, matched, env.serverIds[i])];
    }
    assert labels[..|doc.servers|] == labels;
    return Ok(planned);
  }

  method FindTunnel(e: TunnelEntry, tunnels: Tunnels)
    returns (matched: Option<TunnelId>, ambiguous: bool)
    ensures ambiguous <==> e.id.None? && |NamedTunnels(tunnels, e.name)| > 1
    ensures !ambiguous ==> matched == MatchTunnel(e, tunnels)
    ensures matched.Some? ==> LiveTunnel(tunnels, matched.value)
  {
    if e.id.Some? {
      return if LiveTunnel(tunnels, e.id.value) then e.id else None, false;
    }
    var found := NamedTunnels(tunnels, e.name);
    if |found| > 1 {
      return None, true;
    }
    if found == {} {
      return None, false;
    }
    var id :| id in found;
    OnlyOne(found, id);
    return Some(id), false;
  }

  lemma OnlyOne(ids: set<string>, id: string)
    requires |ids| <= 1 && id in ids
    ensures ids == {id} && Pick(ids) == Some(id)
  {
    assert |ids - {id}| == 0;
    assert ids == {id};
  }

  method PrepareTunnels(doc: Document, s: State, env: Environment, servers: seq<PlannedServer>)
    returns (r: Result<seq<PlannedTunnel>>)
    requires Supplies(env, doc)
    ensures r.Ok? <==> TunnelsFit(doc, s, env, servers)
    ensures r.Ok? ==> TunnelsPlanned(doc, s, env, servers, r.value)
  {
    var planned: seq<PlannedTunnel> := [];
    var ids: set<TunnelId>, names: set<string> := {}, {};
    ghost var labels := TunnelLabels(doc, s, env);
    for i := 0 to |doc.tunnels|
      invariant |planned| == i
      invariant forall j | 0 <= j < i ::
                  TunnelFitsAt(doc, s, env, servers, j)
                  && TunnelPlannedAt(doc, s, env, servers, planned[j], j)
      invariant DistinctLabels(labels[..i]) && Taken(labels, i, ids, names)
    {
      var e := doc.tunnels[i];
      var parent := Parent(e.server, servers);
      if (e.id.None? && e.name.None?) || parent.None? {
        assert !TunnelFitsAt(doc, s, env, servers, i);
        return Err(if e.id.None? && e.name.None? then InvalidArgument else NotFound);
      }
      var matched, ambiguous := FindTunnel(e, s.tunnels);
      if ambiguous {
        assert !TunnelFitsAt(doc, s, env, servers, i);
        return Err(InvalidArgument);
      }
      var ok;
      ok, ids, names := Claim(IdOf(e.id, matched, env.tunnelIds[i]), e.name, ids, names, labels, i);
      if !ok {
        return Err(AlreadyExists);
      }
      DistinctGrows(labels, i);
      if matched.Some? && s.tunnels[matched.value].server != parent.value {
        assert !TunnelFitsAt(doc, s, env, servers, i);
        return Err(InvalidArgument);
      }
      planned := planned + [PlanTunnel(e, s.tunnels, parent.value, matched, env.tunnelIds[i])];
    }
    assert labels[..|doc.tunnels|] == labels;
    return Ok(planned);
  }

  /** The ids of the entries that matched a row. */
  method CollectMatched(servers: seq<PlannedServer>, tunnels: seq<PlannedTunnel>)
    returns (serverIds: set<ServerId>, tunnelIds: set<TunnelId>)
    ensures serverIds == MatchedServers(servers) && tunnelIds == MatchedTunnels(tunnels)
  {
    serverIds, tunnelIds := {}, {};
    for i := 0 to |servers|
      invariant serverIds == set j | 0 <= j < i && servers[j].original.Some? :: servers[j].id
    {
      if servers[i].original.Some? {
        serverIds := serverIds + {servers[i].id};
      }
    }
    for i := 0 to |tunnels|
      invariant tunnelIds == set j | 0 <= j < i && tunnels[j].original.Some? :: tunnels[j].id
    {
      if tunnels[i].original.Some? {
        tunnelIds := tunnelIds + {tunnels[i].id};
      }
    }
  }

  /** What a prune drops; an error if a server to drop has a child that is not managed. */
  method PrepareDrops(s: State, servers: seq<PlannedServer>, tunnels: seq<PlannedTunnel>)
    returns (r: Result<(map<ServerId, u64>, map<TunnelId, u64>)>)
    ensures r.Ok? <==> forall id | id in SurplusServers(s, servers) :: !HasUnmanagedChild(s.tunnels, id)
    ensures r.Ok? ==> r.value == (SurplusServers(s, servers), SurplusTunnels(s, tunnels))
  {
    var serverIds, tunnelIds := CollectMatched(servers, tunnels);
    var dropTunnels := map id | id in s.tunnels && LiveTunnel(s.tunnels, id) && s.tunnels[id].managed
                                && id !in tunnelIds :: s.tunnels[id].revision;
    var dropServers: map<ServerId, u64> := map[];
    var rest := s.servers.Keys;
    while rest != {}
      invariant rest <= s.servers.Keys
      invariant dropServers == map id | id in SurplusServers(s, servers) && id !in rest ::
                                 s.servers[id].revision
      invariant forall id | id in dropServers :: !HasUnmanagedChild(s.tunnels, id)
      decreases rest
    {
      var id :| id in rest;
      rest := rest - {id};
      if !LiveServer(s.servers, id) || !s.servers[id].managed || id in serverIds {
        continue;
      }
      assert id in SurplusServers(s, servers);
      if HasUnmanagedChild(s.tunnels, id) {
        return Err(InvalidArgument);
      }
      dropServers := dropServers[id := s.servers[id].revision];
    }
    assert dropServers == SurplusServers(s, servers);
    assert dropTunnels == SurplusTunnels(s, tunnels);
    return Ok((dropServers, dropTunnels));
  }

  lemma PlannedServersAreUnique(
      doc: Document, s: State, vault: Vault, env: Environment, a: seq<PlannedServer>,
      b: seq<PlannedServer>)
    requires Supplies(env, doc)
    requires ServersPlanned(doc, s, vault, env, a) && ServersPlanned(doc, s, vault, env, b)
    ensures a == b
  {
    forall i | 0 <= i < |a|
      ensures a[i] == b[i]
    {
      assert ServerPlannedAt(doc, s, vault, env, a[i], i) && ServerPlannedAt(doc, s, vault, env, b[i], i);
    }
  }

  /** The plan, and the planned servers also where tunnels or drops leave no plan. */
  method PreparePlan(doc: Document, s: State, vault: Vault, env: Environment, prune: bool)
    returns (r: Result<Plan>, ghost servers: seq<PlannedServer>)
    requires Supplies(env, doc) && UniqueNames(s.servers)
    ensures ServersFit(doc, s, vault, env) ==> ServersPlanned(doc, s, vault, env, servers)
    ensures r.Ok? <==> Plannable(doc, s, vault, env, prune, servers)
    ensures r.Ok? ==> r.value.servers == servers && Planned(doc, s, vault, env, prune, r.value)
    ensures r.Err? ==> forall any | ServersPlanned(doc, s, vault, env, any) ::
                         !Plannable(doc, s, vault, env, prune, any)
  {
    servers := [];
    forall a, b | ServersPlanned(doc, s, vault, env, a) && ServersPlanned(doc, s, vault, env, b)
      ensures a == b
    {
      PlannedServersAreUnique(doc, s, vault, env, a, b);
    }
    var plannedServers := PrepareServers(doc, s, vault, env);
    if plannedServers.Err? {
      return Err(plannedServers.code), servers;
    }
    servers := plannedServers.value;
    var plannedTunnels := PrepareTunnels(doc, s, env, plannedServers.value);
    if plannedTunnels.Err? {
      return Err(plannedTunnels.code), servers;
    }
    if !prune {
      return Ok(Plan(plannedServers.value, plannedTunnels.value, map[], map[])), servers;
    }
    var drops := PrepareDrops(s, plannedServers.value, plannedTunnels.value);
    if drops.Err? {
      return Err(drops.code), servers;
    }
    return Ok(Plan(plannedServers.value, plannedTunnels.value, drops.value.0, drops.value.1)), servers;
  }

  // ---------- What a prune may drop ----------

  /** Generated ids are new. */
  ghost predicate FreshIds(env: Environment, s: State) {
    && (forall id | id in env.serverIds :: id !in s.servers)
    && (forall id | id in env.tunnelIds :: id !in s.tunnels)
  }

  lemma {:induction false} ParentIsPlanned(ref: ServerRef, servers: seq<PlannedServer>)
    requires Parent(ref, servers).Some?
    ensures exists j :: 0 <= j < |servers| && servers[j].id == Parent(ref, servers).value
                        && Refers(ref, servers[j])
  {
    if !Refers(ref, servers[0]) {
      ParentIsPlanned(ref, servers[1..]);
      var j :| 0 <= j < |servers[1..]| && servers[1..][j].id == Parent(ref, servers[1..]).value
               && Refers(ref, servers[1..][j]);
      assert servers[j + 1] == servers[1..][j];
    }
  }

  /** A planned server whose id is live in the state was matched with that row. */
  lemma PlannedLiveIsMatched(
      doc: Document, s: State, vault: Vault, env: Environment, servers: seq<PlannedServer>, j: nat)
    requires Supplies(env, doc) && FreshIds(env, s) && j < |servers|
    requires ServersPlanned(doc, s, vault, env, servers)
    requires LiveServer(s.servers, servers[j].id)
    ensures servers[j].original == Some(s.servers[servers[j].id])
    ensures servers[j].id in MatchedServers(servers)
  {
    assert ServerPlannedAt(doc, s, vault, env, servers[j], j);
    assert env.serverIds[j] in env.serverIds;
  }

  lemma MatchedTunnelKeepsServer(
      doc: Document, s: State, vault: Vault, env: Environment, prune: bool, p: Plan, id: TunnelId)
    requires Supplies(env, doc) && Planned(doc, s, vault, env, prune, p)
    requires Plannable(doc, s, vault, env, prune, p.servers)
    requires id in MatchedTunnels(p.tunnels)
    ensures LiveTunnel(s.tunnels, id)
    ensures exists j :: 0 <= j < |p.servers| && p.servers[j].id == s.tunnels[id].server
  {
    var i :| 0 <= i < |p.tunnels| && p.tunnels[i].original.Some? && p.tunnels[i].id == id;
    assert TunnelPlannedAt(doc, s, env, p.servers, p.tunnels[i], i);
    assert TunnelFitsAt(doc, s, env, p.servers, i);
    TunnelMatchIsLive(doc.tunnels[i], s.tunnels);
    ParentIsPlanned(doc.tunnels[i].server, p.servers);
  }

  /**
    Only managed resources are dropped, none without the prune flag, and with a server all its
    tunnels are dropped by name.
  */
  lemma PruneIsSafe(
      doc: Document, s: State, vault: Vault, env: Environment, prune: bool, p: Plan)
    requires Supplies(env, doc) && FreshIds(env, s) && Planned(doc, s, vault, env, prune, p)
    requires Plannable(doc, s, vault, env, prune, p.servers)
    ensures !prune ==> p.dropServers == map[] && p.dropTunnels == map[]
    ensures forall id | id in p.dropServers :: LiveServer(s.servers, id) && s.servers[id].managed
    ensures forall id | id in p.dropTunnels :: LiveTunnel(s.tunnels, id) && s.tunnels[id].managed
    ensures forall id | LiveTunnel(s.tunnels, id) && s.tunnels[id].server in p.dropServers ::
              id in p.dropTunnels
    ensures forall i | 0 <= i < |p.servers| :: p.servers[i].id !in p.dropServers
    ensures forall i | 0 <= i < |p.tunnels| :: p.tunnels[i].id !in p.dropTunnels
  {
    forall i | 0 <= i < |p.servers|
      ensures p.servers[i].id !in p.dropServers
    {
      if LiveServer(s.servers, p.servers[i].id) {
        PlannedLiveIsMatched(doc, s, vault, env, p.servers, i);
      }
    }
    forall i | 0 <= i < |p.tunnels|
      ensures p.tunnels[i].id !in p.dropTunnels
    {
      assert TunnelPlannedAt(doc, s, env, p.servers, p.tunnels[i], i);
      assert env.tunnelIds[i] in env.tunnelIds;
    }
    forall id | LiveTunnel(s.tunnels, id) && s.tunnels[id].server in p.dropServers
      ensures id in p.dropTunnels
    {
      assert !HasUnmanagedChild(s.tunnels, s.tunnels[id].server);
      if id in MatchedTunnels(p.tunnels) {
        MatchedTunnelKeepsServer(doc, s, vault, env, prune, p, id);
      }
    }
  }
}
