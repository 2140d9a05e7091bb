/** What planning and applying a document add up to. */
module Idempotence {
  import opened Base
  import opened Responses
  import opened Trace
  import opened Records
  import opened Storage
  import opened Plan
  import opened Apply

  /**
    One apply: `doc` was planned as `p` on the rows `s` and the credentials `vault`, the credentials
    staged, the rows committed as `t` by way of `middle`, and old credentials cleaned up.
  */
  datatype Story = Story(
    doc: Document, env: Environment, prune: bool, s: State, vault: Vault, p: Plan,
    staged: Vault, middle: State, t: State, cleaned: Vault)

  /** The apply succeeded and nothing else touched the rows meanwhile. */
  ghost predicate Applied(x: Story) {
    && Supplies(x.env, x.doc)
    && UniqueNames(x.s.servers) && Owned(x.s.servers) && FreshIds(x.env, x.s)
    && Planned(x.doc, x.s, x.vault, x.env, x.prune, x.p)
    && Plannable(x.doc, x.s, x.vault, x.env, x.prune, x.p.servers)
    && Committed(x.s, x.middle, x.t, x.p)
    && VaultStaged(x.vault, x.staged, x.p.servers)
    && VaultCleaned(x.staged, x.cleaned, x.p.servers)
  }

  /** What the first plan matched the i-th server entry with, and the references found there. */
  ghost function Was(x: Story, i: nat): Option<ServerId>
    requires i < |x.doc.servers|
  {
    MatchServer(x.doc.servers[i], x.s.servers)
  }

  // ---------- Server rows after the apply ----------

  ghost predicate RowAgrees(e: ServerEntry, row: Server) {
    && row.name == e.name && row.endpoint == e.endpoint && row.tlsName == e.tlsName
    && row.desired == ServerGoal(e) && row.managed
  }

  ghost predicate IsItem(x: Story, i: nat) {
    && Applied(x) && i < |x.doc.servers|
    && |x.p.servers| == |x.doc.servers|
    && ServerFitsAt(x.doc, x.s, x.vault, x.env, i)
    && ServerPlannedAt(x.doc, x.s, x.vault, x.env, x.p.servers[i], i)
    && ServerWritten(x.s.servers, x.middle.servers, x.p.servers[i])
    && x.p.servers[i].id !in x.p.dropServers
  }

  lemma ItemIs(x: Story, i: nat)
    requires Applied(x) && i < |x.doc.servers|
    ensures IsItem(x, i)
    ensures x.p.servers[i].mutation.Nothing? ==> Same(x.s.servers, x.middle.servers, x.p.servers[i].id)
  {
    assert x.p.servers[i].id !in x.p.dropServers by {
      PruneIsSafe(x.doc, x.s, x.vault, x.env, x.prune, x.p);
    }
    assert ServerWritten(x.s.servers, x.middle.servers, x.p.servers[i]);
    if x.p.servers[i].mutation.Nothing? {
      PlansAreDistinct(x.doc, x.s, x.vault, x.env, x.prune, x.p);
      assert !Touches(x.p.servers, x.p.servers[i].id);
    }
  }

  lemma ServerRowAfter(x: Story, i: nat)
    requires Applied(x) && i < |x.doc.servers|
    ensures IsItem(x, i)
    ensures x.p.servers[i].id in x.t.servers
    ensures RowAgrees(x.doc.servers[i], x.t.servers[x.p.servers[i].id])
    ensures x.p.servers[i].mutation.Nothing? ==>
              x.t.servers[x.p.servers[i].id].refs == x.p.servers[i].desired.refs
              && !AnyChanged(x.p.servers[i].materials)
    ensures !x.p.servers[i].mutation.Nothing? ==>
              x.t.servers[x.p.servers[i].id].refs == StagedRefs(x.p.servers[i])
  {
    ItemIs(x, i);
    MatchIsLive(x.doc.servers[i], x.s.servers);
  }

  /** An entry finds the row that agrees with it. */
  lemma ServerMatchesAgain(e: ServerEntry, servers: Servers, id: ServerId)
    requires UniqueNames(servers) && id in servers && RowAgrees(e, servers[id])
    requires e.id.Some? || e.name.Some?
    requires e.id.Some? ==> e.id.value == id
    ensures MatchServer(e, servers) == Some(id)
  {
    if e.id.None? {
      assert id in NamedServers(servers, e.name);
    }
  }

  // ---------- Credentials after the apply ----------

  lemma MaterialsAt(files: PerKind<Field>, vault: Vault, refs: Refs, k: CredentialKind)
    requires AllLoaded(vault, refs)
    ensures Loaded(vault, refs.At(k)).Some?
    ensures Materials(files, vault, refs).At(k)
         == MaterialOf(files.At(k), Loaded(vault, refs.At(k)).value)
  {
  }

  ghost predicate ItemNames(items: seq<PlannedServer>, i: int, k: CredentialKind, key: Key) {
    0 <= i < |items| && items[i].desired.refs.At(k) == Some(key)
  }

  /** What rows promise about their references, said of a plan. */
  ghost predicate ItemsOwned(items: seq<PlannedServer>) {
    && (forall j | 0 <= j < |items| :: OwnRefs(items[j].id, items[j].desired.refs))
    && (forall i, j, k: CredentialKind, l: CredentialKind, key
          {:trigger ItemNames(items, i, k, key), ItemNames(items, j, l, key)} |
          ItemNames(items, i, k, key) && ItemNames(items, j, l, key) :: i == j && k == l)
  }

  lemma ItemOwns(items: seq<PlannedServer>, i: nat, k: CredentialKind, key: Key)
    requires ItemsOwned(items) && ItemNames(items, i, k, key)
    ensures Belongs(key, items[i].id, k)
  {
    assert OwnRefs(items[i].id, items[i].desired.refs);
  }

  /** A key that stays in use comes through staging and cleaning unharmed. */
  lemma KeptKeySurvives(
      items: seq<PlannedServer>, before: Vault, staged: Vault, cleaned: Vault, i: nat,
      k: CredentialKind, key: Key)
    requires DistinctServers(items) && ItemsOwned(items) && ItemNames(items, i, k, key)
    requires VaultStaged(before, staged, items) && VaultCleaned(staged, cleaned, items)
    requires items[i].mutation.Nothing? || !items[i].materials.At(k).changed
    ensures SameKey(before, cleaned, key)
  {
    ItemOwns(items, i, k, key);
    assert !StagedIn(items, key);
    assert SameKey(before, staged, key);
    forall j | 0 <= j < |items|
      ensures !Superseded(items[j], key)
    {
      KeptIsNotSuperseded(items, i, k, key, j);
    }
    assert SameKey(staged, cleaned, key);
  }

  lemma KeptIsNotSuperseded(
      items: seq<PlannedServer>, i: nat, k: CredentialKind, key: Key, j: nat)
    requires DistinctServers(items) && ItemsOwned(items) && ItemNames(items, i, k, key)
    requires items[i].mutation.Nothing? || !items[i].materials.At(k).changed
    requires j < |items|
    ensures !Superseded(items[j], key)
  {
    ItemOwns(items, i, k, key);
    forall l: CredentialKind | items[j].desired.refs.At(l) == Some(key)
      ensures i == j && k == l
    {
      assert ItemNames(items, j, l, key);
    }
  }

  lemma StagedSlotSurvives(
      items: seq<PlannedServer>, before: Vault, staged: Vault, cleaned: Vault, i: nat,
      k: CredentialKind)
    requires i < |items| && DistinctServers(items) && ItemsOwned(items)
    requires VaultStaged(before, staged, items) && VaultCleaned(staged, cleaned, items)
    requires Stages(items[i], k)
    ensures StageKey(items[i], k) in cleaned
    ensures cleaned[StageKey(items[i], k)] == items[i].materials.At(k).value
  {
    var key := StageKey(items[i], k);
    StagedRefsAt(items[i], k);
    forall j | 0 <= j < |items|
      ensures !Superseded(items[j], key)
    {
      assert OwnRefs(items[j].id, items[j].desired.refs);
    }
    assert SameKey(staged, cleaned, key);
  }

  lemma CurrentIsOwned(servers: Servers, items: seq<PlannedServer>)
    requires Owned(servers) && RefsCurrent(servers, items) && DistinctServers(items)
    requires forall i | 0 <= i < |items| && !LiveServer(servers, items[i].id) :: items[i].original.None?
    ensures ItemsOwned(items)
  {
    forall j, k: CredentialKind, key | ItemNames(items, j, k, key)
      ensures Names(servers, items[j].id, k, key)
    {
    }
  }

  lemma PlannedRefsAreOwned(x: Story)
    requires Applied(x)
    ensures ItemsOwned(x.p.servers) && DistinctServers(x.p.servers)
  {
    PlansAreDistinct(x.doc, x.s, x.vault, x.env, x.prune, x.p);
    PlanKnowsRefs(x.doc, x.s, x.vault, x.env, x.prune, x.p);
    CurrentIsOwned(x.s.servers, x.p.servers);
  }

  /** The value a planned server's credential had before. */
  lemma ValueBefore(x: Story, i: nat, k: CredentialKind)
    requires Applied(x) && i < |x.doc.servers| && IsItem(x, i)
    ensures !x.p.servers[i].materials.At(k).changed ==>
              Loaded(x.vault, x.p.servers[i].desired.refs.At(k))
              == Some(x.p.servers[i].materials.At(k).value)
  {
    MatchIsLive(x.doc.servers[i], x.s.servers);
    MaterialsAt(x.doc.servers[i].files, x.vault, RefsBefore(x.s.servers, Was(x, i)), k);
    assert x.p.servers[i].desired.refs == RefsBefore(x.s.servers, Was(x, i));
  }

  /** After the apply, each reference of a server in the document yields the planned value. */
  lemma ValueAfter(x: Story, i: nat, k: CredentialKind)
    requires Applied(x) && i < |x.doc.servers|
    ensures i < |x.p.servers| && x.p.servers[i].id in x.t.servers
    ensures Loaded(x.cleaned, x.t.servers[x.p.servers[i].id].refs.At(k))
         == Some(x.p.servers[i].materials.At(k).value)
  {
    var item := x.p.servers[i];
    ServerRowAfter(x, i);
    ValueBefore(x, i, k);
    PlannedRefsAreOwned(x);
    StagedRefsAt(item, k);
    var ref := item.desired.refs.At(k);
    if !item.materials.At(k).changed {
      if ref.Some? {
        assert ItemNames(x.p.servers, i, k, ref.value);
        KeptKeySurvives(x.p.servers, x.vault, x.staged, x.cleaned, i, k, ref.value);
      }
    } else if item.materials.At(k).value != "" {
      StagedSlotSurvives(x.p.servers, x.vault, x.staged, x.cleaned, i, k);
    }
  }

  // ---------- The second plan, server by server ----------

  /** A row that agrees with its entry and yields the configured values needs no change. */
  lemma NothingToChange(
      e: ServerEntry, servers: Servers, vault: Vault, env: Environment, matched: Option<ServerId>,
      servers': Servers, vault': Vault, env': Environment, id: ServerId, generated: ServerId)
    requires ServerEntryFits(e, servers, vault, env, matched) && env'.tls == env.tls
    requires id in servers' && RowAgrees(e, servers'[id]) && (e.id.Some? ==> e.id.value == id)
    requires forall k: CredentialKind ::
               Loaded(vault', servers'[id].refs.At(k))
               == Some(Materials(e.files, vault, RefsBefore(servers, matched)).At(k).value)
    ensures ServerEntryFits(e, servers', vault', env', Some(id))
    ensures var again := PlanServer(e, servers', vault', Some(id), generated);
            again.mutation.Nothing? && again.id == id && again.original.Some?
            && again.desired.name == e.name
  {
    var refs, refs' := RefsBefore(servers, matched), servers'[id].refs;
    var m := Materials(e.files, vault, refs);
    assert Loaded(vault', refs'.At(Psk)) == Some(m.At(Psk).value);
    assert Loaded(vault', refs'.At(Ca)) == Some(m.At(Ca).value);
    assert Loaded(vault', refs'.At(Certificate)) == Some(m.At(Certificate).value);
    assert Loaded(vault', refs'.At(PrivateKey)) == Some(m.At(PrivateKey).value);
    ConfiguredTwice(e.files.psk, Loaded(vault, refs.psk).value);
    ConfiguredTwice(e.files.ca, Loaded(vault, refs.ca).value);
    ConfiguredTwice(e.files.certificate, Loaded(vault, refs.certificate).value);
    ConfiguredTwice(e.files.privateKey, Loaded(vault, refs.privateKey).value);
  }

  lemma ConfiguredTwice(f: Field, current: string)
    ensures MaterialOf(f, MaterialOf(f, current).value)
         == Material(MaterialOf(f, current).value, false)
  {
  }

  /** Planning a server entry again finds its row, the same values, and nothing to change. */
  lemma ServerIsSettled(x: Story, env': Environment, i: nat)
    requires Applied(x) && Supplies(env', x.doc) && env'.tls == x.env.tls && i < |x.doc.servers|
    ensures IsItem(x, i)
    ensures MatchServer(x.doc.servers[i], x.t.servers) == Some(x.p.servers[i].id)
    ensures ServerFitsAt(x.doc, x.t, x.cleaned, env', i)
    ensures x.p.servers[i].id in x.t.servers
    ensures var again := PlanServer(x.doc.servers[i], x.t.servers, x.cleaned,
                                    Some(x.p.servers[i].id), env'.serverIds[i]);
            again.mutation.Nothing? && again.id == x.p.servers[i].id && again.original.Some?
            && again.desired.name == x.p.servers[i].desired.name
  {
    var e, item := x.doc.servers[i], x.p.servers[i];
    ServerRowAfter(x, i);
    ServerMatchesAgain(e, x.t.servers, item.id);
    forall k: CredentialKind
      ensures Loaded(x.cleaned, x.t.servers[item.id].refs.At(k)) == Some(item.materials.At(k).value)
    {
      ValueAfter(x, i, k);
    }
    NothingToChange(e, x.s.servers, x.vault, x.env, Was(x, i), x.t.servers, x.cleaned, env', item.id,
                    env'.serverIds[i]);
  }

  // ---------- Tunnels ----------

  ghost predicate TunnelAgrees(e: TunnelEntry, row: Tunnel) {
    && row.name == e.name && row.mode == e.mode && row.proxy == e.proxy
    && row.local == e.local && row.remote == e.remote
    && row.desired == TunnelGoal(e) && row.managed
  }

  ghost predicate IsTunnelItem(x: Story, i: nat) {
    && Applied(x) && i < |x.doc.tunnels|
    && |x.p.tunnels| == |x.doc.tunnels|
    && TunnelFitsAt(x.doc, x.s, x.env, x.p.servers, i)
    && TunnelPlannedAt(x.doc, x.s, x.env, x.p.servers, x.p.tunnels[i], i)
    && TunnelWritten(x.s.tunnels, x.middle.tunnels, x.p.tunnels[i])
    && x.p.tunnels[i].id !in x.p.dropTunnels
  }

  lemma TunnelItemIs(x: Story, i: nat)
    requires Applied(x) && i < |x.doc.tunnels|
    ensures IsTunnelItem(x, i)
    ensures x.p.tunnels[i].mutation.Nothing? ==>
              Same(x.s.tunnels, x.middle.tunnels, x.p.tunnels[i].id)
  {
    assert x.p.tunnels[i].id !in x.p.dropTunnels by {
      PruneIsSafe(x.doc, x.s, x.vault, x.env, x.prune, x.p);
    }
    assert TunnelWritten(x.s.tunnels, x.middle.tunnels, x.p.tunnels[i]);
    if x.p.tunnels[i].mutation.Nothing? {
      PlansAreDistinct(x.doc, x.s, x.vault, x.env, x.prune, x.p);
      assert !TouchesTunnel(x.p.tunnels, x.p.tunnels[i].id);
    }
  }

  /** The server a tunnel entry belongs to stays. */
  lemma ParentStays(x: Story, i: nat)
    requires Applied(x) && i < |x.doc.tunnels|
    ensures Parent(x.doc.tunnels[i].server, x.p.servers).Some?
    ensures Parent(x.doc.tunnels[i].server, x.p.servers).value !in x.p.dropServers
  {
    TunnelItemIs(x, i);
    ParentIsPlanned(x.doc.tunnels[i].server, x.p.servers);
    PruneIsSafe(x.doc, x.s, x.vault, x.env, x.prune, x.p);
  }

  lemma TunnelRowAfter(x: Story, i: nat)
    requires Applied(x) && i < |x.doc.tunnels|
    ensures IsTunnelItem(x, i)
    ensures x.p.tunnels[i].id in x.t.tunnels
    ensures TunnelAgrees(x.doc.tunnels[i], x.t.tunnels[x.p.tunnels[i].id])
    ensures Some(x.t.tunnels[x.p.tunnels[i].id].server)
         == Parent(x.doc.tunnels[i].server, x.p.servers)
  {
    TunnelItemIs(x, i);
    ParentStays(x, i);
    TunnelMatchIsLive(x.doc.tunnels[i], x.s.tunnels);
    var item := x.p.tunnels[i];
    assert item.id in x.middle.tunnels;
    assert TunnelAgrees(x.doc.tunnels[i], x.middle.tunnels[item.id]);
    assert Some(x.middle.tunnels[item.id].server) == Parent(x.doc.tunnels[i].server, x.p.servers);
  }

  /** A row that is live after the apply and that no entry was planned for was there before. */
  lemma OtherTunnelsWereThere(x: Story, id: TunnelId)
    requires Applied(x) && LiveTunnel(x.t.tunnels, id)
    requires forall i | 0 <= i < |x.p.tunnels| :: x.p.tunnels[i].id != id
    ensures LiveTunnel(x.s.tunnels, id) && x.t.tunnels[id] == x.s.tunnels[id]
    ensures id !in x.p.dropTunnels
  {
    assert !TouchesTunnel(x.p.tunnels, id);
    assert Same(x.s.tunnels, x.middle.tunnels, id);
  }

  lemma NamedOnce(x: Story, i: nat, j: nat)
    requires Supplies(x.env, x.doc) && DistinctLabels(TunnelLabels(x.doc, x.s, x.env))
    requires i < |x.doc.tunnels| && j < |x.doc.tunnels|
    requires x.doc.tunnels[i].name.Some? && x.doc.tunnels[i].name == x.doc.tunnels[j].name
    ensures i == j
  {
    var labels := TunnelLabels(x.doc, x.s, x.env);
    assert labels[i].1 == labels[j].1;
    assert Clash(labels[i], labels[j]) && Clash(labels[j], labels[i]);
  }

  /** After the apply no other tunnel bears the name of an entry that is found by name. */
  lemma TunnelNameIsUnique(x: Story, i: nat, id: TunnelId)
    requires Applied(x) && i < |x.doc.tunnels| && |x.p.tunnels| == |x.doc.tunnels|
    requires x.doc.tunnels[i].id.None? && id in NamedTunnels(x.t.tunnels, x.doc.tunnels[i].name)
    ensures id == x.p.tunnels[i].id
  {
    TunnelItemIs(x, i);
    var e := x.doc.tunnels[i];
    if j :| 0 <= j < |x.p.tunnels| && x.p.tunnels[j].id == id {
      TunnelRowAfter(x, j);
      NamedOnce(x, i, j);
    } else {
      OtherTunnelsWereThere(x, id);
      OnlyOne(NamedTunnels(x.s.tunnels, e.name), id);
    }
  }

  lemma TunnelMatchesAgain(x: Story, i: nat)
    requires Applied(x) && i < |x.doc.tunnels|
    ensures IsTunnelItem(x, i)
    ensures MatchTunnel(x.doc.tunnels[i], x.t.tunnels) == Some(x.p.tunnels[i].id)
    ensures x.doc.tunnels[i].id.None? ==>
              |NamedTunnels(x.t.tunnels, x.doc.tunnels[i].name)| <= 1
  {
    TunnelRowAfter(x, i);
    var e, id := x.doc.tunnels[i], x.p.tunnels[i].id;
    if e.id.None? {
      var named := NamedTunnels(x.t.tunnels, e.name);
      assert id in named;
      forall other | other in named
        ensures other == id
      {
        TunnelNameIsUnique(x, i, other);
      }
      assert named == {id};
    }
  }

  /** Parents are found by id and name only. */
  lemma {:induction false} ParentAgain(
      ref: ServerRef, before: seq<PlannedServer>, after: seq<PlannedServer>)
    requires |after| == |before|
    requires forall i | 0 <= i < |before| ::
               after[i].id == before[i].id && after[i].desired.name == before[i].desired.name
    ensures Parent(ref, after) == Parent(ref, before)
  {
    if |before| > 0 && !Refers(ref, before[0]) {
      ParentAgain(ref, before[1..], after[1..]);
    }
  }

  lemma TunnelIsSettled(x: Story, env': Environment, servers: seq<PlannedServer>, i: nat)
    requires Applied(x) && Supplies(env', x.doc) && i < |x.doc.tunnels|
    requires |servers| == |x.p.servers|
    requires forall j | 0 <= j < |servers| ::
               servers[j].id == x.p.servers[j].id
               && servers[j].desired.name == x.p.servers[j].desired.name
    ensures TunnelFitsAt(x.doc, x.t, env', servers, i)
    ensures IsTunnelItem(x, i)
    ensures MatchTunnel(x.doc.tunnels[i], x.t.tunnels) == Some(x.p.tunnels[i].id)
    ensures x.p.tunnels[i].id in x.t.tunnels
    ensures var again := PlanTunnel(x.doc.tunnels[i], x.t.tunnels, x.t.tunnels[x.p.tunnels[i].id].server,
                                    Some(x.p.tunnels[i].id), env'.tunnelIds[i]);
            again.mutation.Nothing? && again.id == x.p.tunnels[i].id && again.original.Some?
  {
    TunnelRowAfter(x, i);
    TunnelMatchesAgain(x, i);
    ParentAgain(x.doc.tunnels[i].server, x.p.servers, servers);
  }

  // ---------- The second plan as a whole ----------

  ghost predicate PlansAlike(before: seq<PlannedServer>, after: seq<PlannedServer>) {
    && |after| == |before|
    && forall j | 0 <= j < |before| ::
         && after[j].id == before[j].id && after[j].desired.name == before[j].desired.name
         && after[j].mutation.Nothing? && after[j].original.Some?
  }

  lemma SecondServerPlan(x: Story, env': Environment, servers: seq<PlannedServer>)
    requires Applied(x) && Supplies(env', x.doc) && env'.tls == x.env.tls
    requires ServersPlanned(x.doc, x.t, x.cleaned, env', servers)
    ensures PlansAlike(x.p.servers, servers)
  {
    forall j | 0 <= j < |servers|
      ensures servers[j].id == x.p.servers[j].id
      ensures servers[j].desired.name == x.p.servers[j].desired.name
      ensures servers[j].mutation.Nothing? && servers[j].original.Some?
    {
      ServerIsSettled(x, env', j);
      assert ServerPlannedAt(x.doc, x.t, x.cleaned, env', servers[j], j);
    }
  }

  lemma SecondServersFit(x: Story, env': Environment)
    requires Applied(x) && Supplies(env', x.doc) && env'.tls == x.env.tls
    ensures ServersFit(x.doc, x.t, x.cleaned, env')
  {
    var labels, labels' := ServerLabels(x.doc, x.s, x.env), ServerLabels(x.doc, x.t, env');
    forall i | 0 <= i < |x.doc.servers|
      ensures ServerFitsAt(x.doc, x.t, x.cleaned, env', i) && labels'[i] == labels[i]
    {
      ServerIsSettled(x, env', i);
    }
    assert labels' == labels;
  }

  lemma SecondTunnelsFit(x: Story, env': Environment, servers: seq<PlannedServer>)
    requires Applied(x) && Supplies(env', x.doc) && PlansAlike(x.p.servers, servers)
    ensures TunnelsFit(x.doc, x.t, env', servers)
  {
    var labels, labels' := TunnelLabels(x.doc, x.s, x.env), TunnelLabels(x.doc, x.t, env');
    forall i | 0 <= i < |x.doc.tunnels|
      ensures TunnelFitsAt(x.doc, x.t, env', servers, i) && labels'[i] == labels[i]
    {
      TunnelIsSettled(x, env', servers, i);
    }
    assert labels' == labels;
  }

  lemma SecondTunnelPlan(
      x: Story, env': Environment, servers: seq<PlannedServer>, tunnels: seq<PlannedTunnel>)
    requires Applied(x) && Supplies(env', x.doc) && PlansAlike(x.p.servers, servers)
    requires TunnelsPlanned(x.doc, x.t, env', servers, tunnels)
    ensures |tunnels| == |x.p.tunnels|
    ensures forall j | 0 <= j < |tunnels| ::
              tunnels[j].id == x.p.tunnels[j].id && tunnels[j].mutation.Nothing?
              && tunnels[j].original.Some?
  {
    forall j | 0 <= j < |tunnels|
      ensures tunnels[j].id == x.p.tunnels[j].id && tunnels[j].mutation.Nothing?
      ensures tunnels[j].original.Some?
    {
      TunnelIsSettled(x, env', servers, j);
      TunnelRowAfter(x, j);
      ParentAgain(x.doc.tunnels[j].server, x.p.servers, servers);
      assert TunnelPlannedAt(x.doc, x.t, env', servers, tunnels[j], j);
    }
  }

  /** A server that is live after the apply and in no entry was there before. */
  lemma OtherServersWereThere(x: Story, id: ServerId)
    requires Applied(x) && LiveServer(x.t.servers, id)
    requires forall i | 0 <= i < |x.p.servers| :: x.p.servers[i].id != id
    ensures LiveServer(x.s.servers, id) && x.t.servers[id] == x.s.servers[id]
    ensures id !in x.p.dropServers
  {
    assert !Touches(x.p.servers, id);
    assert Same(x.s.servers, x.middle.servers, id);
  }

  /** After a prune no surplus is left. */
  lemma NoSurplusServers(x: Story, servers: seq<PlannedServer>)
    requires Applied(x) && x.prune && PlansAlike(x.p.servers, servers)
    ensures SurplusServers(x.t, servers) == map[]
  {
    forall id | id in x.t.servers && LiveServer(x.t.servers, id) && x.t.servers[id].managed
      ensures id in MatchedServers(servers)
    {
      if j :| 0 <= j < |x.p.servers| && x.p.servers[j].id == id {
        assert servers[j].id == id;
      } else {
        OtherServersWereThere(x, id);
      }
    }
  }

  lemma NoSurplusTunnels(x: Story, tunnels: seq<PlannedTunnel>)
    requires Applied(x) && x.prune && |tunnels| == |x.p.tunnels|
    requires forall j | 0 <= j < |tunnels| ::
               tunnels[j].id == x.p.tunnels[j].id && tunnels[j].original.Some?
    ensures SurplusTunnels(x.t, tunnels) == map[]
  {
    forall id | id in x.t.tunnels && LiveTunnel(x.t.tunnels, id) && x.t.tunnels[id].managed
      ensures id in MatchedTunnels(tunnels)
    {
      if j :| 0 <= j < |x.p.tunnels| && x.p.tunnels[j].id == id {
        assert tunnels[j].id == id;
      } else {
        OtherTunnelsWereThere(x, id);
      }
    }
  }

  /** Planning the same document again succeeds and finds nothing to do. */
  lemma SecondPlanIsEmpty(x: Story, env': Environment, q: Plan)
    requires Applied(x) && Supplies(env', x.doc) && env'.tls == x.env.tls
    ensures ServersFit(x.doc, x.t, x.cleaned, env')
    ensures ServersPlanned(x.doc, x.t, x.cleaned, env', q.servers) ==>
              Plannable(x.doc, x.t, x.cleaned, env', x.prune, q.servers)
    ensures Planned(x.doc, x.t, x.cleaned, env', x.prune, q) ==> NoActions(q)
  {
    SecondServersFit(x, env');
    if ServersPlanned(x.doc, x.t, x.cleaned, env', q.servers) {
      SecondServerPlan(x, env', q.servers);
      SecondTunnelsFit(x, env', q.servers);
      if x.prune {
        NoSurplusServers(x, q.servers);
      }
      if TunnelsPlanned(x.doc, x.t, env', q.servers, q.tunnels) {
        SecondTunnelPlan(x, env', q.servers, q.tunnels);
        if x.prune {
          NoSurplusTunnels(x, q.tunnels);
        }
      }
    }
  }

  /** An apply that found nothing to do is an apply that changed nothing. */
  lemma EmptyPlanIsApplied(x: Story)
    requires Supplies(x.env, x.doc)
    requires UniqueNames(x.s.servers) && Owned(x.s.servers) && FreshIds(x.env, x.s)
    requires Planned(x.doc, x.s, x.vault, x.env, x.prune, x.p) && NoActions(x.p)
    requires Plannable(x.doc, x.s, x.vault, x.env, x.prune, x.p.servers)
    requires x.middle == x.s && x.t == x.s && x.staged == x.vault && x.cleaned == x.vault
    ensures Applied(x)
  {
    assert DropServers(x.s.servers, {}) == x.s.servers;
    assert DropChildren(DropTunnels(x.s.tunnels, {}), {}) == x.s.tunnels;
  }

  /** Applies a document and plans it again: nothing is left to do. */
  method ApplyThenPlan(
      stores: Stores, doc: Document, prune: bool, env: Environment, env': Environment)
    returns (applied: Result<bool>, again: Result<Plan>)
    requires stores.Valid() && Supplies(env, doc) && FreshIds(env, stores.state)
    requires Supplies(env', doc) && env'.tls == env.tls
    modifies stores
    ensures applied.Ok? ==> again.Ok? && NoActions(again.value)
  {
    ghost var s, vault := stores.state, stores.vault;
    ghost var p, middle, staged;
    applied, p, middle, staged := ApplyDocument(stores, doc, env, prune, stores.state);
    if applied.Err? {
      return applied, Err(applied.code);
    }
    ghost var x := Story(doc, env, prune, s, vault, p,
                         if applied.value then staged else vault,
                         if applied.value then middle else s, stores.state, stores.vault);
    if !applied.value {
      EmptyPlanIsApplied(x);
    }
    assert Applied(x);
    ghost var servers;
    again, servers := PreparePlan(doc, stores.state, stores.vault, env', prune);
    SecondPlanIsEmpty(x, env', Plan(servers, [], map[], map[]));
    if again.Ok? {
      SecondPlanIsEmpty(x, env', again.value);
    }
  }

  // ---------- Commits on rows that others have changed ----------

  /** `p` was planned on `s` and committed on `live`. */
  ghost predicate CommittedLate(
      doc: Document, env: Environment, prune: bool, s: State, vault: Vault, p: Plan,
      live: State, middle: State, after: State) {
    && Supplies(env, doc) && FreshIds(env, s)
    && Planned(doc, s, vault, env, prune, p) && Plannable(doc, s, vault, env, prune, p.servers)
    && Committed(live, middle, after, p)
  }

  /** A row keeps its owner, and an equal revision means an equal configuration. */
  ghost predicate Faithful(s: State, live: State) {
    && (forall id | id in s.tunnels && id in live.tunnels ::
          live.tunnels[id].server == s.tunnels[id].server)
    && (forall id | id in s.tunnels && id in live.tunnels
                    && live.tunnels[id].revision == s.tunnels[id].revision ::
          live.tunnels[id].managed == s.tunnels[id].managed)
  }

  /**
    A commit overwrote only rows whose revision had not moved: each now agrees with its entry at the
    next revision, and a row outside the plan is as others left it.
  */
  lemma LateServersAreExact(
      doc: Document, env: Environment, prune: bool, s: State, vault: Vault, p: Plan,
      live: State, middle: State, after: State)
    requires CommittedLate(doc, env, prune, s, vault, p, live, middle, after)
    ensures forall i | 0 <= i < |doc.servers| && !p.servers[i].mutation.Nothing?
                       && p.servers[i].original.Some? ::
              && p.servers[i].id in s.servers && LiveServer(live.servers, p.servers[i].id)
              && live.servers[p.servers[i].id].revision == s.servers[p.servers[i].id].revision
              && p.servers[i].id in after.servers
              && RowAgrees(doc.servers[i], after.servers[p.servers[i].id])
              && after.servers[p.servers[i].id].revision == live.servers[p.servers[i].id].revision + 1
    ensures forall id | !Touches(p.servers, id) && id !in p.dropServers ::
              Same(live.servers, after.servers, id)
  {
    PruneIsSafe(doc, s, vault, env, prune, p);
    forall i | 0 <= i < |doc.servers| && !p.servers[i].mutation.Nothing?
               && p.servers[i].original.Some?
      ensures p.servers[i].id in s.servers && LiveServer(live.servers, p.servers[i].id)
      ensures live.servers[p.servers[i].id].revision == s.servers[p.servers[i].id].revision
      ensures p.servers[i].id in after.servers
      ensures RowAgrees(doc.servers[i], after.servers[p.servers[i].id])
      ensures after.servers[p.servers[i].id].revision == live.servers[p.servers[i].id].revision + 1
    {
      assert ServerPlannedAt(doc, s, vault, env, p.servers[i], i);
      MatchIsLive(doc.servers[i], s.servers);
      assert ServerWritten(live.servers, middle.servers, p.servers[i]);
    }
    forall id | !Touches(p.servers, id) && id !in p.dropServers
      ensures Same(live.servers, after.servers, id)
    {
      assert Same(live.servers, middle.servers, id);
    }
  }

  lemma LateTunnelsAreExact(
      doc: Document, env: Environment, prune: bool, s: State, vault: Vault, p: Plan,
      live: State, middle: State, after: State)
    requires CommittedLate(doc, env, prune, s, vault, p, live, middle, after)
    requires Faithful(s, live)
    ensures forall i | 0 <= i < |doc.tunnels| && !p.tunnels[i].mutation.Nothing?
                       && p.tunnels[i].original.Some? ::
              && p.tunnels[i].id in s.tunnels && LiveTunnel(live.tunnels, p.tunnels[i].id)
              && live.tunnels[p.tunnels[i].id].revision == s.tunnels[p.tunnels[i].id].revision
              && p.tunnels[i].id in after.tunnels
              && TunnelAgrees(doc.tunnels[i], after.tunnels[p.tunnels[i].id])
              && after.tunnels[p.tunnels[i].id].server == live.tunnels[p.tunnels[i].id].server
              && after.tunnels[p.tunnels[i].id].revision == live.tunnels[p.tunnels[i].id].revision + 1
    ensures forall id | !TouchesTunnel(p.tunnels, id) && id !in p.dropTunnels
                        && (id in live.tunnels ==> live.tunnels[id].server !in p.dropServers) ::
              Same(live.tunnels, after.tunnels, id)
  {
    forall i | 0 <= i < |doc.tunnels| && !p.tunnels[i].mutation.Nothing?
               && p.tunnels[i].original.Some?
      ensures p.tunnels[i].id in s.tunnels && LiveTunnel(live.tunnels, p.tunnels[i].id)
      ensures live.tunnels[p.tunnels[i].id].revision == s.tunnels[p.tunnels[i].id].revision
      ensures p.tunnels[i].id in after.tunnels
      ensures TunnelAgrees(doc.tunnels[i], after.tunnels[p.tunnels[i].id])
      ensures after.tunnels[p.tunnels[i].id].server == live.tunnels[p.tunnels[i].id].server
      ensures after.tunnels[p.tunnels[i].id].revision
           == live.tunnels[p.tunnels[i].id].revision + 1
    {
      LateTunnelIsExact(doc, env, prune, s, vault, p, live, middle, after, i);
    }
    forall id | !TouchesTunnel(p.tunnels, id) && id !in p.dropTunnels
                && (id in live.tunnels ==> live.tunnels[id].server !in p.dropServers)
      ensures Same(live.tunnels, after.tunnels, id)
    {
      assert Same(live.tunnels, middle.tunnels, id);
    }
  }

  lemma LateTunnelIsExact(
      doc: Document, env: Environment, prune: bool, s: State, vault: Vault, p: Plan,
      live: State, middle: State, after: State, i: nat)
    requires CommittedLate(doc, env, prune, s, vault, p, live, middle, after)
    requires Faithful(s, live)
    requires i < |doc.tunnels| && !p.tunnels[i].mutation.Nothing? && p.tunnels[i].original.Some?
    ensures p.tunnels[i].id in s.tunnels && LiveTunnel(live.tunnels, p.tunnels[i].id)
    ensures live.tunnels[p.tunnels[i].id].revision == s.tunnels[p.tunnels[i].id].revision
    ensures p.tunnels[i].id in after.tunnels
    ensures TunnelAgrees(doc.tunnels[i], after.tunnels[p.tunnels[i].id])
    ensures after.tunnels[p.tunnels[i].id].server == live.tunnels[p.tunnels[i].id].server
    ensures after.tunnels[p.tunnels[i].id].revision == live.tunnels[p.tunnels[i].id].revision + 1
  {
    PruneIsSafe(doc, s, vault, env, prune, p);
    assert TunnelPlannedAt(doc, s, env, p.servers, p.tunnels[i], i);
    assert TunnelFitsAt(doc, s, env, p.servers, i);
    TunnelMatchIsLive(doc.tunnels[i], s.tunnels);
    ParentIsPlanned(doc.tunnels[i].server, p.servers);
    assert TunnelWritten(live.tunnels, middle.tunnels, p.tunnels[i]);
    assert middle.tunnels[p.tunnels[i].id].server !in p.dropServers;
  }

  /** Writing the planned tunnels neither removes nor moves one. */
  lemma WritingKeeps(before: Tunnels, after: Tunnels, items: seq<PlannedTunnel>, id: TunnelId)
    requires TunnelsWritten(before, after, items) && LiveTunnel(before, id)
    requires forall i | 0 <= i < |items| :: !items[i].desired.desired.WantRemoved?
    ensures LiveTunnel(after, id) && after[id].server == before[id].server
    ensures !TouchesTunnel(items, id) ==> after[id] == before[id]
  {
    if TouchesTunnel(items, id) {
      var i :| 0 <= i < |items| && items[i].id == id && !items[i].mutation.Nothing?;
      assert TunnelWritten(before, after, items[i]);
    } else {
      assert Same(before, after, id);
    }
  }

  /** Where a tunnel that was live at commit goes. */
  lemma LateTunnelIsDroppedIff(
      doc: Document, env: Environment, prune: bool, s: State, vault: Vault, p: Plan,
      live: State, middle: State, after: State, id: TunnelId)
    requires CommittedLate(doc, env, prune, s, vault, p, live, middle, after)
    requires Faithful(s, live)
    requires LiveTunnel(live.tunnels, id)
    ensures LiveTunnel(after.tunnels, id) <==>
            id !in p.dropTunnels && live.tunnels[id].server !in p.dropServers
    ensures id in p.dropTunnels ==> live.tunnels[id].managed
  {
    forall i | 0 <= i < |p.tunnels|
      ensures !p.tunnels[i].desired.desired.WantRemoved?
    {
      assert TunnelPlannedAt(doc, s, env, p.servers, p.tunnels[i], i);
    }
    WritingKeeps(live.tunnels, middle.tunnels, p.tunnels, id);
    if id in p.dropTunnels {
      PruneIsSafe(doc, s, vault, env, prune, p);
    }
  }

  /** A prune removes managed tunnels only, exactly when no unmanaged one joined a doomed server. */
  lemma LatePruneIsSafeIff(
      doc: Document, env: Environment, prune: bool, s: State, vault: Vault, p: Plan,
      live: State, middle: State, after: State)
    requires CommittedLate(doc, env, prune, s, vault, p, live, middle, after)
    requires Faithful(s, live)
    ensures (forall id | LiveTunnel(live.tunnels, id) && !LiveTunnel(after.tunnels, id) ::
               live.tunnels[id].managed)
            <==> (forall server | server in p.dropServers :: !HasUnmanagedChild(live.tunnels, server))
  {
    forall id | LiveTunnel(live.tunnels, id)
      ensures LiveTunnel(after.tunnels, id) <==>
              id !in p.dropTunnels && live.tunnels[id].server !in p.dropServers
      ensures id in p.dropTunnels ==> live.tunnels[id].managed
    {
      LateTunnelIsDroppedIff(doc, env, prune, s, vault, p, live, middle, after, id);
    }
  }

  const NOTHING := Document([], [])
  const NO_IDS := Environment([], [], (_, _, _) => true)

  lemma LoneServerIsPruned(server: ServerId, row: Server)
    requires !row.desired.Gone? && row.managed
    ensures var s := State(map[server := row], map[]);
            var p := Plan([], [], map[server := row.revision], map[]);
            Planned(NOTHING, s, map[], NO_IDS, true, p) && Plannable(NOTHING, s, map[], NO_IDS, true, [])
  {
    var s := State(map[server := row], map[]);
    assert SurplusServers(s, []) == map[server := row.revision];
    assert SurplusTunnels(s, []) == map[];
    assert !HasUnmanagedChild(s.tunnels, server);
  }

  lemma LoneServerIsDropped(live: State, server: ServerId, row: Server)
    requires live.servers == map[server := row]
    ensures var p := Plan([], [], map[server := row.revision], map[]);
            Committed(live, live,
                      State(DropServers(live.servers, {server}), DropChildren(live.tunnels, {server})), p)
  {
    assert DropTunnels(live.tunnels, {}) == live.tunnels;
    assert map[server := row.revision].Keys == {server};
  }

  /** A tunnel added between planning and committing shares the fate of a server to be pruned. */
  lemma LateTunnelIsLost(server: ServerId, row: Server, id: TunnelId, late: Tunnel)
    requires !row.desired.Gone? && row.managed
    requires late.server == server && !late.desired.WantRemoved? && !late.managed
    ensures var s := State(map[server := row], map[]);
            var live := State(map[server := row], map[id := late]);
            var p := Plan([], [], map[server := row.revision], map[]);
            var after := State(DropServers(live.servers, {server}),
                               DropChildren(live.tunnels, {server}));
            && CommittedLate(NOTHING, NO_IDS, true, s, map[], p, live, live, after)
            && LiveTunnel(live.tunnels, id) && !LiveTunnel(after.tunnels, id)
  {
    LoneServerIsPruned(server, row);
    LoneServerIsDropped(State(map[server := row], map[id := late]), server, row);
  }
}
