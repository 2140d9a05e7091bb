/** The control service's server operations, written across the two stores. */
module Control {
  import opened Base
  import opened Records
  import opened Storage
  import opened Plan
  import opened Apply
  import opened Idempotence

  // ---------- What each operation makes of a row ----------

  predicate Editable(servers: Servers, id: ServerId) {
    LiveServer(servers, id) && servers[id].revision < LAST_REVISION
  }

  function LoggedIn(row: Server, key: Key): Server
    requires row.revision < LAST_REVISION
  {
    row.(refs := row.refs.(psk := Some(key)), revision := row.revision + 1,
         actual := if row.desired.Enabled? then Disconnected else Off)
  }

  function LoggedOutState(row: Server): ServerActual {
    if row.desired.Disabled? then Off else ServerActual.NotAuthenticated
  }

  /** The CA certificate stays. */
  function LoggedOut(row: Server): Server
    requires row.revision < LAST_REVISION
  {
    row.(refs := Uniform(None).(ca := row.refs.ca), revision := row.revision + 1,
         actual := LoggedOutState(row))
  }

  predicate IsLoggedOut(row: Server) {
    && row.refs.psk.None? && row.refs.certificate.None? && row.refs.privateKey.None?
    && row.actual == LoggedOutState(row)
  }

  function SwitchedOn(row: Server): Server
    requires row.revision < LAST_REVISION
  {
    row.(desired := Enabled, actual := AtRest(Enabled, row.refs.psk.Some?), revision := row.revision + 1)
  }

  function SwitchedOff(row: Server): Server
    requires row.revision < LAST_REVISION
  {
    row.(desired := ServerDesired.Disabled, actual := Off, revision := row.revision + 1)
  }

  /** A server as `server_add` creates it. */
  function Added(name: Option<string>, endpoint: string): Server {
    Server(name, endpoint, None, Uniform(None), Enabled, ServerActual.NotAuthenticated, 1, false)
  }

  /** The fields of a `server_update`; the PSK is not among them. */
  datatype Edit = Edit(
    name: Option<Option<string>>, endpoint: Option<string>, tlsName: Option<Option<string>>,
    ca: Field, certificate: Field, privateKey: Field)

  function Chosen<T>(edit: Option<T>, current: T): T {
    if edit.Some? then edit.value else current
  }

  /** An update as a plan for one server. */
  function EditPlan(id: ServerId, row: Server, edit: Edit, vault: Vault): PlannedServer
    requires AllLoaded(vault, row.refs)
  {
    var m := Materials(PerKind(Omitted, edit.ca, edit.certificate, edit.privateKey), vault, row.refs);
    var desired := row.(name := Chosen(edit.name, row.name),
                        endpoint := Chosen(edit.endpoint, row.endpoint),
                        tlsName := Chosen(edit.tlsName, row.tlsName));
    var transport := AnyChanged(m) || desired.endpoint != row.endpoint || desired.tlsName != row.tlsName;
    PlannedServer(id, Some(row), desired, m,
                  if transport || desired.name != row.name then Update else Nothing, transport, false)
  }

  function Edited(row: Server, p: PlannedServer): Server
    requires row.revision < LAST_REVISION
  {
    var refs := StagedRefs(p);
    p.desired.(refs := refs, revision := row.revision + 1,
               actual := if p.transportChanged then AtRest(row.desired, refs.psk.Some?) else row.actual)
  }

  // ---------- The operations ----------

  /** A row keeps the references of `was` or exchanges them for slots of its own. */
  ghost predicate RowFollows(id: ServerId, was: Refs, refs: Refs) {
    forall k: CredentialKind | refs.At(k).Some? ::
      refs.At(k).value in SlotsOf(id, k) || refs.At(k) == was.At(k)
  }

  lemma RowChangeAgrees(servers: Servers, vault: Vault, id: ServerId, row: Server)
    requires Agree(servers, vault) && id in servers && !NameTaken(servers, row.name, id)
    requires RowFollows(id, servers[id].refs, row.refs)
    requires !row.desired.Gone? ==> Resolves(row.refs, vault)
    ensures Agree(servers[id := row], vault) && RefsFollow(servers, servers[id := row])
  {
    UniqueNamesKept(servers, id, row);
    forall other | LiveServer(servers[id := row], other) && other != id
      ensures Resolves(servers[other].refs, vault)
    {
      assert LiveServer(servers, other);
    }
    FollowingIsOwned(servers, servers[id := row]);
  }

  lemma SameNameIsFree(servers: Servers, id: ServerId)
    requires UniqueNames(servers) && id in servers
    ensures !NameTaken(servers, servers[id].name, id)
  {
  }

  /** `server_login`. */
  method Login(stores: Stores, id: ServerId, psk: string) returns (ok: bool)
    requires stores.Valid()
    modifies stores
    ensures stores.Valid()
    ensures ok ==>
              && Editable(old(stores.state.servers), id)
              && (var key := NextKey(id, Psk, old(stores.state.servers)[id].refs.psk);
                  && stores.state == old(stores.state).(servers :=
                       old(stores.state.servers)[id := LoggedIn(old(stores.state.servers)[id], key)])
                  && key in stores.vault && stores.vault[key] == psk)
    ensures !ok ==> stores.state == old(stores.state)
    ensures old(stores.Reliable()) ==> stores.Reliable()
    ensures old(stores.Reliable()) ==>
              && (ok <==> Editable(old(stores.state.servers), id))
              && (ok ==> var was := old(stores.state.servers)[id].refs.psk;
                         forall key | Candidate(id, Psk, was, Some(NextKey(id, Psk, was)), key) ::
                           key !in stores.vault)
    ensures forall key | !SameKey(old(stores.vault), stores.vault, key) ::
              || key in SlotsOf(id, Psk)
              || (id in old(stores.state.servers)
                  && old(stores.state.servers)[id].refs.psk == Some(key))
  {
    var servers := stores.state.servers;
    if !Editable(servers, id) {
      return false;
    }
    var row := servers[id];
    var key := NextKey(id, Psk, row.refs.psk);
    LoginKeyIsFree(servers, id);
    ok := stores.Put(key, psk);
    if !ok {
      return;
    }
    LoginAgrees(servers, stores.vault, id, key);
    ok := stores.Commit(stores.state.(servers := servers[id := LoggedIn(row, key)]));
    if !ok {
      var _ := stores.Remove(key);
      return;
    }
    assert row.refs.At(Psk) == row.refs.psk;
    FormerIsSpare(servers, stores.state.servers, id, Psk, row.refs.psk, Some(key));
    var _ := stores.CleanUp(id, Psk, row.refs.psk, Some(key));
    assert SameKey(old(stores.vault)[key := psk], stores.vault, key);
  }

  lemma LoginKeyIsFree(servers: Servers, id: ServerId)
    requires Owned(servers) && LiveServer(servers, id)
    ensures Unreferenced(servers, NextKey(id, Psk, servers[id].refs.psk))
  {
    forall other, kind: CredentialKind | LiveServer(servers, other)
      ensures servers[other].refs.At(kind) != Some(NextKey(id, Psk, servers[id].refs.psk))
    {
      assert OwnRefs(other, servers[other].refs);
    }
  }

  lemma LoginAgrees(servers: Servers, vault: Vault, id: ServerId, key: Key)
    requires Agree(servers, vault) && Editable(servers, id)
    requires key in SlotsOf(id, Psk) && key in vault
    ensures var after := servers[id := LoggedIn(servers[id], key)];
            Agree(after, vault) && RefsFollow(servers, after)
  {
    var row := LoggedIn(servers[id], key);
    assert Resolves(servers[id].refs, vault);
    forall k: CredentialKind | k != Psk
      ensures row.refs.At(k) == servers[id].refs.At(k)
    {
    }
    SameNameIsFree(servers, id);
    RowChangeAgrees(servers, vault, id, row);
  }

  /** What a logout empties: the slots of three kinds, and what the row refers to. */
  function Secrets(id: ServerId, refs: Refs): set<Key> {
    SecretKeys(id, Psk, refs.psk) + SecretKeys(id, Certificate, refs.certificate)
    + SecretKeys(id, PrivateKey, refs.privateKey)
  }

  function SecretKeys(id: ServerId, k: CredentialKind, ref: Option<Key>): set<Key> {
    SlotsOf(id, k) + if ref.Some? then {ref.value} else {}
  }

  /** Some of `keys` were removed, and nothing else happened. */
  ghost predicate Shrunk(before: Vault, after: Vault, keys: set<Key>) {
    forall key | !SameKey(before, after, key) :: key in keys && key !in after
  }

  lemma ShrunkJoin(before: Vault, middle: Vault, after: Vault, keys: set<Key>)
    requires Shrunk(before, middle, keys) && Shrunk(middle, after, keys)
    ensures Shrunk(before, after, keys)
  {
    forall key | !SameKey(before, after, key)
      ensures key in keys && key !in after
    {
      assert !SameKey(before, middle, key) || !SameKey(middle, after, key);
    }
  }

  /** `server_logout`. */
  method Logout(stores: Stores, id: ServerId) returns (ok: bool)
    requires stores.Valid()
    modifies stores
    ensures stores.Valid()
    ensures ok ==>
              && LiveServer(old(stores.state.servers), id)
              && (var row := old(stores.state.servers)[id];
                  if IsLoggedOut(row) then stores.state == old(stores.state)
                  else row.revision < LAST_REVISION
                       && stores.state == old(stores.state).(servers :=
                            old(stores.state.servers)[id := LoggedOut(row)]))
    ensures !ok ==> stores.state == old(stores.state)
    ensures old(stores.Reliable()) ==> stores.Reliable()
    ensures old(stores.Reliable()) ==>
              && (ok <==> && LiveServer(old(stores.state.servers), id)
                          && (IsLoggedOut(old(stores.state.servers)[id])
                              || Editable(old(stores.state.servers), id)))
              && (ok ==> forall key | key in Secrets(id, old(stores.state.servers)[id].refs) ::
                           key !in stores.vault)
    ensures stores.vault == old(stores.vault)
         || (id in old(stores.state.servers)
             && Shrunk(old(stores.vault), stores.vault, Secrets(id, old(stores.state.servers)[id].refs)))
  {
    var servers := stores.state.servers;
    if !LiveServer(servers, id) || (!IsLoggedOut(servers[id]) && servers[id].revision >= LAST_REVISION) {
      return false;
    }
    var row := servers[id];
    if !IsLoggedOut(row) {
      LogoutAgrees(servers, stores.vault, id);
    }
    ok := stores.Commit(if IsLoggedOut(row) then stores.state
                        else stores.state.(servers := servers[id := LoggedOut(row)]));
    if !ok {
      return;
    }
    LogoutFrees(servers, stores.state.servers, id);
    ghost var v0 := stores.vault;
    var _ := stores.CleanUp(id, Psk, row.refs.psk, None);
    ghost var v1 := stores.vault;
    var _ := stores.CleanUp(id, Certificate, row.refs.certificate, None);
    ghost var v2 := stores.vault;
    var _ := stores.CleanUp(id, PrivateKey, row.refs.privateKey, None);
    ShrunkJoin(v0, v1, v2, Secrets(id, row.refs));
    ShrunkJoin(v0, v2, stores.vault, Secrets(id, row.refs));
  }

  lemma LogoutAgrees(servers: Servers, vault: Vault, id: ServerId)
    requires Agree(servers, vault) && Editable(servers, id)
    ensures var after := servers[id := LoggedOut(servers[id])];
            Agree(after, vault) && RefsFollow(servers, after)
  {
    assert Resolves(servers[id].refs, vault);
    var row := LoggedOut(servers[id]);
    forall k: CredentialKind | row.refs.At(k).Some?
      ensures row.refs.At(k) == servers[id].refs.At(k)
    {
    }
    SameNameIsFree(servers, id);
    RowChangeAgrees(servers, vault, id, row);
  }

  lemma LogoutFrees(before: Servers, after: Servers, id: ServerId)
    requires Owned(before) && LiveServer(before, id) && RefsFollow(before, after)
    requires id in after && after[id].refs.psk.None? && after[id].refs.certificate.None?
    requires after[id].refs.privateKey.None?
    ensures Spare(after, id, Psk, before[id].refs.psk, None)
    ensures Spare(after, id, Certificate, before[id].refs.certificate, None)
    ensures Spare(after, id, PrivateKey, before[id].refs.privateKey, None)
  {
    var was, now := before[id].refs, after[id].refs;
    assert was.At(Psk) == was.psk && now.At(Psk) == now.psk;
    assert was.At(Certificate) == was.certificate && now.At(Certificate) == now.certificate;
    assert was.At(PrivateKey) == was.privateKey && now.At(PrivateKey) == now.privateKey;
    FormerIsSpare(before, after, id, Psk, was.psk, None);
    FormerIsSpare(before, after, id, Certificate, was.certificate, None);
    FormerIsSpare(before, after, id, PrivateKey, was.privateKey, None);
  }

  /** What an update asks of the row, of the material it results in, and of the name. */
  ghost predicate CanUpdate(
      servers: Servers, vault: Vault, id: ServerId, edit: Edit, tls: (string, string, string) -> bool) {
    && LiveServer(servers, id) && AllLoaded(vault, servers[id].refs)
    && (var p := EditPlan(id, servers[id], edit, vault);
        var m := p.materials;
        && (m.certificate.value == "") == (m.privateKey.value == "")
        && tls(m.ca.value, m.certificate.value, m.privateKey.value)
        && (p.mutation.Nothing?
            || (Editable(servers, id) && !NameTaken(servers, p.desired.name, id))))
  }

  /** The credentials under `refs` are the values of `m`; no reference stands for no credential. */
  ghost predicate Holds(vault: Vault, refs: Refs, m: PerKind<Material>) {
    forall k: CredentialKind :: Loaded(vault, refs.At(k)) == Some(m.At(k).value)
  }

  /** What an update leaves unchanged is what is stored. */
  lemma EditMaterials(id: ServerId, row: Server, edit: Edit, vault: Vault)
    requires AllLoaded(vault, row.refs)
    ensures var p := EditPlan(id, row, edit, vault);
            && KeptAreStored(p, vault)
            && (p.mutation.Nothing? ==> Holds(vault, row.refs, p.materials))
            && (p.mutation.Nothing? ==> forall key :: !Superseded(p, key))
  {
    var p := EditPlan(id, row, edit, vault);
    forall k: CredentialKind
      ensures !p.materials.At(k).changed ==>
                Loaded(vault, row.refs.At(k)) == Some(p.materials.At(k).value)
      ensures p.mutation.Nothing? ==> !p.materials.At(k).changed
    {
    }
  }

  ghost predicate KeptAreStored(p: PlannedServer, vault: Vault) {
    forall k: CredentialKind | !p.materials.At(k).changed ::
      Loaded(vault, p.desired.refs.At(k)) == Some(p.materials.At(k).value)
  }

  /** `server_update`. */
  method UpdateServer(
      stores: Stores, id: ServerId, edit: Edit, tls: (string, string, string) -> bool)
    returns (ok: bool)
    requires stores.Valid()
    modifies stores
    ensures stores.Valid()
    ensures ok ==>
              && LiveServer(old(stores.state.servers), id)
              && AllLoaded(old(stores.vault), old(stores.state.servers)[id].refs)
              && (var row := old(stores.state.servers)[id];
                  var p := EditPlan(id, row, edit, old(stores.vault));
                  if p.mutation.Nothing? then stores.state == old(stores.state)
                  else row.revision < LAST_REVISION
                       && stores.state == old(stores.state).(servers :=
                            old(stores.state.servers)[id := Edited(row, p)]))
    ensures !ok ==> stores.state == old(stores.state)
    ensures ok ==> var p := EditPlan(id, old(stores.state.servers)[id], edit, old(stores.vault));
                   && Holds(stores.vault, stores.state.servers[id].refs, p.materials)
                   && (old(stores.Reliable()) ==>
                         forall key | Superseded(p, key) :: key !in stores.vault)
    ensures forall key | !SameKey(old(stores.vault), stores.vault, key) ::
              id in old(stores.state.servers) && Mine(id, old(stores.state.servers)[id].refs, key)
    ensures old(stores.Reliable()) ==> stores.Reliable()
    ensures old(stores.Reliable()) ==>
              (ok <==> CanUpdate(old(stores.state.servers), old(stores.vault), id, edit, tls))
  {
    var servers := stores.state.servers;
    if !LiveServer(servers, id) || !AllLoaded(stores.vault, servers[id].refs) {
      return false;
    }
    var row := servers[id];
    var p := EditPlan(id, row, edit, stores.vault);
    var m := p.materials;
    if (m.certificate.value == "") != (m.privateKey.value == "")
       || !tls(m.ca.value, m.certificate.value, m.privateKey.value) {
      return false;
    }
    EditMaterials(id, row, edit, stores.vault);
    if p.mutation.Nothing? {
      ok := stores.Commit(stores.state);
      return;
    }
    ok := CommitEdit(stores, p);
  }

  method CommitEdit(stores: Stores, p: PlannedServer) returns (ok: bool)
    requires stores.Valid() && !p.mutation.Nothing? && LiveServer(stores.state.servers, p.id)
    requires p.original == Some(stores.state.servers[p.id])
    requires p.desired.refs == stores.state.servers[p.id].refs && !p.desired.desired.Gone?
    requires KeptAreStored(p, stores.vault)
    modifies stores
    ensures stores.Valid()
    ensures ok ==> && old(stores.state.servers)[p.id].revision < LAST_REVISION
                   && stores.state == old(stores.state).(servers :=
                        old(stores.state.servers)[p.id := Edited(old(stores.state.servers)[p.id], p)])
    ensures !ok ==> stores.state == old(stores.state)
    ensures ok ==> && Holds(stores.vault, StagedRefs(p), p.materials)
                   && (old(stores.Reliable()) ==> forall key | Superseded(p, key) :: key !in stores.vault)
    ensures forall key | !SameKey(old(stores.vault), stores.vault, key) :: Mine(p.id, p.desired.refs, key)
    ensures old(stores.Reliable()) ==>
              && stores.Reliable()
              && (ok <==> && Editable(old(stores.state.servers), p.id)
                          && !NameTaken(old(stores.state.servers), p.desired.name, p.id))
  {
    var servers := stores.state.servers;
    assert OwnRefs(p.id, servers[p.id].refs);
    assert [p][0] == p;
    ghost var vault := stores.vault;
    var keys;
    ok, keys := Stage(stores, [p]);
    StagedIsMine(p);
    if ok {
      ok := WriteEdit(stores, p, vault);
      if ok {
        return;
      }
    }
    forall key | key in keys
      ensures Unreferenced(stores.state.servers, key)
    {
      StagedIsFree(stores.state.servers, [p], key);
    }
    Abort(stores, keys);
  }

  /** The credentials of the edit are staged; the row is written and superseded keys are removed. */
  method WriteEdit(stores: Stores, p: PlannedServer, ghost before: Vault) returns (ok: bool)
    requires stores.Valid() && !p.mutation.Nothing? && LiveServer(stores.state.servers, p.id)
    requires p.original == Some(stores.state.servers[p.id])
    requires p.desired.refs == stores.state.servers[p.id].refs && !p.desired.desired.Gone?
    requires KeptAreStored(p, before) && VaultStaged(before, stores.vault, [p])
    requires Sound(stores.state.servers, before)
    modifies stores
    ensures stores.Valid()
    ensures ok ==> && Editable(old(stores.state.servers), p.id)
                   && stores.state == old(stores.state).(servers :=
                        old(stores.state.servers)[p.id := Edited(old(stores.state.servers)[p.id], p)])
    ensures !ok ==> stores.state == old(stores.state) && stores.vault == old(stores.vault)
    ensures ok ==> && Holds(stores.vault, StagedRefs(p), p.materials)
                   && (old(stores.Reliable()) ==> forall key | Superseded(p, key) :: key !in stores.vault)
                   && forall key | !SameKey(before, stores.vault, key) :: Mine(p.id, p.desired.refs, key)
    ensures old(stores.Reliable()) ==>
              && stores.Reliable()
              && (ok <==> && Editable(old(stores.state.servers), p.id)
                          && !NameTaken(old(stores.state.servers), p.desired.name, p.id))
  {
    var servers := stores.state.servers;
    if servers[p.id].revision >= LAST_REVISION || NameTaken(servers, p.desired.name, p.id) {
      return false;
    }
    EditAgrees(servers, before, stores.vault, p);
    ok := stores.Commit(stores.state.(servers := servers[p.id := Edited(servers[p.id], p)]));
    if ok {
      SupersededIsSpare(servers, stores.state.servers, p);
      ghost var staged := stores.vault;
      Clean(stores, [p]);
      EditedVault(servers, before, staged, stores.vault, p);
      assert old(stores.Reliable()) ==> forall key | Superseded([p][0], key) :: key !in stores.vault;
    }
  }

  lemma StagedIsMine(p: PlannedServer)
    ensures forall key | StagedIn([p], key) :: Mine(p.id, p.desired.refs, key)
  {
    forall key | StagedIn([p], key)
      ensures Mine(p.id, p.desired.refs, key)
    {
      var i, k: CredentialKind :| 0 <= i < |[p]| && Stages([p][i], k) && key == StageKey([p][i], k);
      NextKeyIsFree(p.id, k, p.desired.refs.At(k));
      assert Candidate(p.id, k, p.desired.refs.At(k), None, key);
    }
  }

  lemma SupersededIsMine(p: PlannedServer, key: Key)
    requires Superseded(p, key)
    ensures Mine(p.id, p.desired.refs, key)
  {
    var k: CredentialKind :|
      p.materials.At(k).changed && Candidate(p.id, k, p.desired.refs.At(k), StagedRefs(p).At(k), key);
    assert Candidate(p.id, k, p.desired.refs.At(k), None, key);
  }

  /** What staging and cleaning for one server add up to. */
  lemma EditedVault(servers: Servers, before: Vault, staged: Vault, cleaned: Vault, p: PlannedServer)
    requires Owned(servers) && p.id in servers && servers[p.id].refs == p.desired.refs
    requires !p.mutation.Nothing? && KeptAreStored(p, before)
    requires VaultStaged(before, staged, [p]) && VaultCleaned(staged, cleaned, [p])
    ensures Holds(cleaned, StagedRefs(p), p.materials)
    ensures forall key | !SameKey(before, cleaned, key) :: Mine(p.id, p.desired.refs, key)
  {
    assert [p][0] == p;
    OneIsOwned(servers, p);
    forall k: CredentialKind
      ensures Loaded(cleaned, StagedRefs(p).At(k)) == Some(p.materials.At(k).value)
    {
      StagedRefsAt(p, k);
      if !p.materials.At(k).changed {
        if p.desired.refs.At(k).Some? {
          assert ItemNames([p], 0, k, p.desired.refs.At(k).value);
          KeptKeySurvives([p], before, staged, cleaned, 0, k, p.desired.refs.At(k).value);
        }
      } else if p.materials.At(k).value != "" {
        StagedSlotSurvives([p], before, staged, cleaned, 0, k);
      }
    }
    StagedIsMine(p);
    forall key | !SameKey(before, cleaned, key)
      ensures Mine(p.id, p.desired.refs, key)
    {
      if !SameKey(staged, cleaned, key) {
        assert Superseded([p][0], key);
        SupersededIsMine(p, key);
      } else {
        assert StagedIn([p], key);
      }
    }
  }

  lemma OneIsOwned(servers: Servers, p: PlannedServer)
    requires Owned(servers) && p.id in servers && servers[p.id].refs == p.desired.refs
    ensures ItemsOwned([p]) && DistinctServers([p])
  {
    assert OwnRefs(p.id, servers[p.id].refs);
    forall i, k: CredentialKind, key | ItemNames([p], i, k, key)
      ensures i == 0 && Names(servers, p.id, k, key)
    {
      assert [p][i] == p;
    }
  }

  lemma EditAgrees(servers: Servers, before: Vault, vault: Vault, p: PlannedServer)
    requires Agree(servers, before) && Agree(servers, vault) && VaultStaged(before, vault, [p])
    requires !p.mutation.Nothing? && Editable(servers, p.id) && p.original == Some(servers[p.id])
    requires p.desired.refs == servers[p.id].refs && !NameTaken(servers, p.desired.name, p.id)
    ensures var after := servers[p.id := Edited(servers[p.id], p)];
            Agree(after, vault) && RefsFollow(servers, after)
  {
    assert OwnRefs(p.id, servers[p.id].refs);
    assert [p][0] == p;
    StagedRefsResolve(servers, before, vault, [p], 0);
    forall k: CredentialKind | StagedRefs(p).At(k).Some?
      ensures || StagedRefs(p).At(k).value in SlotsOf(p.id, k)
              || StagedRefs(p).At(k) == servers[p.id].refs.At(k)
    {
      StagedRefsFollow(p, k);
    }
    RowChangeAgrees(servers, vault, p.id, Edited(servers[p.id], p));
  }

  // ---------- Removal ----------

  /** A slot of the server `id`, or a key among `refs`. */
  ghost predicate Mine(id: ServerId, refs: Refs, key: Key) {
    exists k: CredentialKind :: Candidate(id, k, refs.At(k), None, key)
  }

  /** No live server refers to what would be removed with the server `id`. */
  ghost predicate SafeToPurge(servers: Servers, id: ServerId, refs: Refs) {
    forall k: CredentialKind :: Spare(servers, id, k, refs.At(k), None)
  }

  /** Empties all slots of a server, and what its row refers to. */
  method CleanUpAll(stores: Stores, id: ServerId, refs: Refs) returns (ok: bool)
    modifies stores`vault, stores`faults, stores`sound
    ensures old(stores.Valid()) && SafeToPurge(stores.state.servers, id, refs) ==> stores.Valid()
    ensures ok ==> forall key | Mine(id, refs, key) :: key !in stores.vault
    ensures forall key | !SameKey(old(stores.vault), stores.vault, key) ::
              key !in stores.vault && Mine(id, refs, key)
    ensures old(stores.Reliable()) ==> ok && stores.Reliable()
  {
    var kinds := [Psk, Ca, Certificate, PrivateKey];
    ok := true;
    for n := 0 to 4
      invariant old(stores.Valid()) && SafeToPurge(stores.state.servers, id, refs) ==> stores.Valid()
      invariant old(stores.Reliable()) ==> ok && stores.Reliable()
      invariant ok ==> forall k: CredentialKind, key |
                         KindRank(k) < n && Candidate(id, k, refs.At(k), None, key) :: key !in stores.vault
      invariant forall key | !SameKey(old(stores.vault), stores.vault, key) ::
                  key !in stores.vault && Mine(id, refs, key)
    {
      assert KindRank(kinds[n]) == n;
      var cleaned := stores.CleanUp(id, kinds[n], refs.At(kinds[n]), None);
      ok := ok && cleaned;
    }
  }

  function WithoutServer(s: State, id: ServerId): State {
    State(s.servers - {id}, map t | t in s.tunnels && s.tunnels[t].server != id :: s.tunnels[t])
  }

  /** Only a tombstone whose tunnels are tombstones can be erased. */
  predicate Erasable(s: State, id: ServerId) {
    && id in s.servers && s.servers[id].desired.Gone? && s.servers[id].actual.Off?
    && forall t | t in s.tunnels :: s.tunnels[t].server == id ==> s.tunnels[t].desired.WantRemoved?
  }

  method Erase(stores: Stores, id: ServerId) returns (ok: bool)
    modifies stores`state, stores`faults, stores`sound
    ensures old(stores.Valid()) ==> stores.Valid()
    ensures ok ==> Erasable(old(stores.state), id)
    ensures stores.state == if ok then WithoutServer(old(stores.state), id) else old(stores.state)
    ensures old(stores.Reliable()) ==> stores.Reliable() && (ok <==> Erasable(old(stores.state), id))
  {
    if !Erasable(stores.state, id) {
      return false;
    }
    if Agree(stores.state.servers, stores.vault) {
      EraseAgrees(stores.state, stores.vault, id);
    }
    ok := stores.Commit(WithoutServer(stores.state, id));
  }

  /** `server_remove`: the tombstone is committed first, then credentials and row are erased. */
  method RemoveServer(stores: Stores, id: ServerId) returns (ok: bool)
    requires stores.Valid()
    modifies stores
    ensures stores.Valid()
    ensures ok ==> LiveServer(old(stores.state.servers), id)
                   && !LiveServer(stores.state.servers, id)
                   && (stores.state == Bury(old(stores.state), id)
                       || (&& stores.state == WithoutServer(Bury(old(stores.state), id), id)
                           && forall key | Mine(id, old(stores.state.servers)[id].refs, key) ::
                                key !in stores.vault))
    ensures !ok ==> stores.state == old(stores.state) && stores.vault == old(stores.vault)
    ensures ok ==> forall key | !SameKey(old(stores.vault), stores.vault, key) ::
                     key !in stores.vault && Mine(id, old(stores.state.servers)[id].refs, key)
    ensures old(stores.Reliable()) ==> stores.Reliable()
    ensures old(stores.Reliable()) ==>
              && (ok <==> LiveServer(old(stores.state.servers), id))
              && (ok ==> && stores.state == WithoutServer(Bury(old(stores.state), id), id)
                         && forall key | Mine(id, old(stores.state.servers)[id].refs, key) ::
                              key !in stores.vault)
  {
    if !LiveServer(stores.state.servers, id) {
      return false;
    }
    var refs := stores.state.servers[id].refs;
    BuryAgrees(stores.state, stores.vault, id);
    ok := stores.Commit(Bury(stores.state, id));
    if !ok {
      return;
    }
    var cleaned := CleanUpAll(stores, id, refs);
    if cleaned {
      var _ := Erase(stores, id);
    }
  }

  lemma BuryAgrees(s: State, vault: Vault, id: ServerId)
    requires Agree(s.servers, vault) && id in s.servers
    ensures Agree(Bury(s, id).servers, vault)
    ensures SafeToPurge(Bury(s, id).servers, id, s.servers[id].refs)
    ensures Erasable(Bury(s, id), id)
  {
    SameNameIsFree(s.servers, id);
    RowChangeAgrees(s.servers, vault, id, BuriedServer(s.servers[id]));
    forall k: CredentialKind
      ensures Spare(Bury(s, id).servers, id, k, s.servers[id].refs.At(k), None)
    {
      FormerIsSpare(s.servers, Bury(s, id).servers, id, k, s.servers[id].refs.At(k), None);
    }
  }

  lemma EraseAgrees(s: State, vault: Vault, id: ServerId)
    requires Agree(s.servers, vault)
    ensures Agree(WithoutServer(s, id).servers, vault)
  {
    forall other | LiveServer(s.servers - {id}, other)
      ensures Resolves(s.servers[other].refs, vault)
    {
      assert LiveServer(s.servers, other);
    }
    forall other, k: CredentialKind, key | Names(s.servers - {id}, other, k, key)
      ensures Names(s.servers, other, k, key)
    {
    }
    FollowingIsOwned(s.servers, s.servers - {id});
  }

  // ---------- A late purge ----------

  /**
    `purge_removed_server`, for a tombstone that the manager read earlier: `refs` are its references.
    Meanwhile the row may be gone, and the id may have come to life again.
  */
  method Purge(stores: Stores, id: ServerId, refs: Refs)
    requires stores.Valid()
    modifies stores
    ensures SafeToPurge(old(stores.state.servers), id, refs) ==> stores.Valid()
    ensures stores.state == old(stores.state)
         || (Erasable(old(stores.state), id) && stores.state == WithoutServer(old(stores.state), id))
    ensures old(stores.Reliable()) ==> stores.Reliable()
    ensures old(stores.Reliable()) ==>
              && (stores.Valid() <==> SafeToPurge(old(stores.state.servers), id, refs))
              && (id in stores.state.servers ==> !Erasable(old(stores.state), id))
              && (forall key | Mine(id, refs, key) :: key !in stores.vault)
  {
    var cleaned := CleanUpAll(stores, id, refs);
    if cleaned {
      var _ := Erase(stores, id);
      if !SafeToPurge(old(stores.state.servers), id, refs) {
        PurgeHurts(old(stores.state.servers), stores.state.servers, stores.vault, id, refs);
      }
    }
  }

  lemma PurgeHurts(before: Servers, after: Servers, vault: Vault, id: ServerId, refs: Refs)
    requires !SafeToPurge(before, id, refs)
    requires forall key | Mine(id, refs, key) :: key !in vault
    requires forall other | LiveServer(before, other) :: other in after && after[other] == before[other]
    ensures !Sound(after, vault)
  {
    var k: CredentialKind :| !Spare(before, id, k, refs.At(k), None);
    var key :| Candidate(id, k, refs.At(k), None, key) && !Unreferenced(before, key);
    assert Mine(id, refs, key);
    var other, l: CredentialKind :| LiveServer(before, other) && before[other].refs.At(l) == Some(key);
    assert LiveServer(after, other) && !Resolves(after[other].refs, vault);
  }

  /**
    A purge that comes late is harmless exactly when the id has not come to life again with a
    credential: in a slot of its own, or under a key the tombstone had too.
  */
  lemma PurgeIsHarmlessIff(servers: Servers, id: ServerId, refs: Refs)
    requires Owned(servers) && OwnRefs(id, refs)
    requires forall other, k: CredentialKind, l: CredentialKind, key |
               refs.At(k) == Some(key) && Names(servers, other, l, key) :: other == id
    ensures SafeToPurge(servers, id, refs) <==>
            (LiveServer(servers, id) ==>
               forall l: CredentialKind | servers[id].refs.At(l).Some? ::
                 !Taken(refs, servers[id].refs.At(l).value))
  {
    forall other, l: CredentialKind | LiveServer(servers, other) && servers[other].refs.At(l).Some?
      ensures Mine(id, refs, servers[other].refs.At(l).value) <==>
              other == id && Taken(refs, servers[other].refs.At(l).value)
    {
      assert Names(servers, other, l, servers[other].refs.At(l).value);
      OwnNames(servers, other, l, servers[other].refs.At(l).value);
      MineIff(id, refs, other, l, servers[other].refs.At(l).value);
    }
    SafeIff(servers, id, refs);
  }

  /** A slot, or one of `refs`. */
  ghost predicate Taken(refs: Refs, key: Key) {
    key.Slot? || exists k: CredentialKind :: refs.At(k) == Some(key)
  }

  lemma SafeIff(servers: Servers, id: ServerId, refs: Refs)
    ensures SafeToPurge(servers, id, refs) <==>
            forall other, l: CredentialKind |
              LiveServer(servers, other) && servers[other].refs.At(l).Some? ::
              !Mine(id, refs, servers[other].refs.At(l).value)
  {
    if SafeToPurge(servers, id, refs) {
      forall other, l: CredentialKind | LiveServer(servers, other) && servers[other].refs.At(l).Some?
        ensures !Mine(id, refs, servers[other].refs.At(l).value)
      {
        forall k: CredentialKind
          ensures !Candidate(id, k, refs.At(k), None, servers[other].refs.At(l).value)
        {
          assert Spare(servers, id, k, refs.At(k), None);
        }
      }
    }
  }

  lemma MineIff(id: ServerId, refs: Refs, other: ServerId, l: CredentialKind, key: Key)
    requires OwnRefs(id, refs) && Belongs(key, other, l)
    requires forall k: CredentialKind | refs.At(k) == Some(key) :: other == id
    ensures Mine(id, refs, key) <==> other == id && Taken(refs, key)
  {
    if other == id && key.Slot? {
      assert Candidate(id, l, refs.At(l), None, key);
    }
    if k: CredentialKind :| refs.At(k) == Some(key) {
      assert Candidate(id, k, refs.At(k), None, key);
    }
  }

  /**
    A server removed, declared again under its id and logged in, whose old tombstone is purged only
    then: the new PSK is lost.
  */
  method LatePurgeBreaks(id: ServerId, psk: string) returns (stores: Stores)
    ensures !stores.Valid() && LiveServer(stores.state.servers, id)
  {
    var entry := ServerEntry(Some(id), None, "", None, true, Uniform(Omitted), None);
    var declared := State(map[id := Staged(PlanServer(entry, map[], map[], None, id))], map[]);
    stores := new Stores(declared, map[]);
    var _ := Login(stores, id, psk);
    var refs := stores.state.servers[id].refs;
    var _ := RemoveServer(stores, id);
    var _ := stores.Commit(declared);
    var _ := Login(stores, id, psk);
    var slot := NextKey(id, Psk, None);
    assert stores.state.servers[id].refs.At(Psk) == Some(slot);
    assert Candidate(id, Psk, refs.At(Psk), None, slot) && !Unreferenced(stores.state.servers, slot);
    assert !SafeToPurge(stores.state.servers, id, refs);
    Purge(stores, id, refs);
  }
}
