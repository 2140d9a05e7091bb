/**
  Start-up recovery: `StateRepository::recover` and `validate_recovered_credentials`. They start from
  whatever a cut-off daemon, or a restored database, left in the two stores.
*/
module Recovery {
  import opened Base
  import opened Trace
  import opened Records
  import opened Storage
  import opened Control

  // ---------- What recovery makes of the rows ----------

  /** Nothing is connected when the daemon starts. */
  function NormalServer(row: Server): Server {
    row.(actual := if !row.desired.Enabled? then Off
                   else if row.refs.psk.None? then ServerActual.NotAuthenticated else Disconnected)
  }

  /** The tunnels of a removed server are removed too. */
  function NormalTunnel(servers: Servers, t: Tunnel): Tunnel {
    if t.server in servers && servers[t.server].desired.Gone? then BuriedTunnel(t)
    else t.(actual := match t.desired
                      case WantActive => Pending
                      case WantDisabled => Actual.Disabled
                      case WantRemoved => Removing)
  }

  function Normalized(s: State): State {
    State(map id | id in s.servers :: NormalServer(s.servers[id]),
          map t | t in s.tunnels :: NormalTunnel(s.servers, s.tunnels[t]))
  }

  function KeptRef(ref: Option<Key>, vault: Vault): Option<Key> {
    if ref.Some? && ref.value in vault then ref else None
  }

  function KeptRefs(refs: Refs, vault: Vault): Refs {
    PerKind(KeptRef(refs.psk, vault), KeptRef(refs.ca, vault), KeptRef(refs.certificate, vault),
            KeptRef(refs.privateKey, vault))
  }

  predicate Paired(refs: Refs) {
    refs.certificate.Some? == refs.privateKey.Some?
  }

  /** A certificate without its key, or the reverse, is dropped. */
  function PairedRefs(refs: Refs): Refs {
    if Paired(refs) then refs else refs.(certificate := None, privateKey := None)
  }

  function RecoveredRefs(refs: Refs, vault: Vault): Refs {
    PairedRefs(KeptRefs(refs, vault))
  }

  predicate Recoverable(row: Server, vault: Vault) {
    RecoveredRefs(row.refs, vault) != row.refs ==> row.revision < LAST_REVISION
  }

  predicate CanRecover(row: Server, vault: Vault) {
    row.desired.Gone? || Recoverable(row, vault)
  }

  function Recovered(row: Server, vault: Vault): Server
    requires Recoverable(row, vault)
  {
    var refs := RecoveredRefs(row.refs, vault);
    if refs == row.refs then row
    else
      row.(refs := refs, revision := row.revision + 1,
           actual := if refs.psk.Some? then row.actual
                     else if row.desired.Enabled? then ServerActual.NotAuthenticated else Off)
  }

  // ---------- Keys of one server ----------

  ghost predicate Refers(refs: Refs, key: Key) {
    exists k: CredentialKind :: refs.At(k) == Some(key)
  }

  /** What rows promise about their references, for one row. */
  ghost predicate RefsOk(id: ServerId, refs: Refs) {
    && OwnRefs(id, refs)
    && forall k: CredentialKind, l: CredentialKind | refs.At(k).Some? && refs.At(k) == refs.At(l) :: k == l
  }

  /** Of all keys of a server, exactly those that `kept` names are left, unchanged. */
  ghost predicate KeysMatch(before: Vault, after: Vault, id: ServerId, refs: Refs, kept: Refs) {
    forall key | Mine(id, refs, key) ::
      && (key in after <==> Refers(kept, key))
      && (key in after ==> SameKey(before, after, key))
  }

  ghost predicate OthersSame(before: Vault, after: Vault, id: ServerId, refs: Refs) {
    forall key | !Mine(id, refs, key) :: SameKey(before, after, key)
  }

  /** A key is a candidate of one kind only. */
  lemma OneKind(id: ServerId, refs: Refs, k: CredentialKind, l: CredentialKind, key: Key)
    requires RefsOk(id, refs)
    requires Candidate(id, k, refs.At(k), None, key) && Candidate(id, l, refs.At(l), None, key)
    ensures k == l
  {
  }

  /** Keys of different servers are different. */
  lemma MineApart(servers: Servers, a: ServerId, b: ServerId, key: Key)
    requires Owned(servers) && a in servers && b in servers
    requires Mine(a, servers[a].refs, key) && Mine(b, servers[b].refs, key)
    ensures a == b
  {
    var k: CredentialKind :| Candidate(a, k, servers[a].refs.At(k), None, key);
    var l: CredentialKind :| Candidate(b, l, servers[b].refs.At(l), None, key);
    assert OwnRefs(a, servers[a].refs) && OwnRefs(b, servers[b].refs);
    if key.Historical? {
      assert Names(servers, a, k, key) && Names(servers, b, l, key);
    }
  }

  lemma OwnedIsOk(servers: Servers, id: ServerId)
    requires Owned(servers) && id in servers
    ensures RefsOk(id, servers[id].refs)
  {
    forall k: CredentialKind, l: CredentialKind |
      servers[id].refs.At(k).Some? && servers[id].refs.At(k) == servers[id].refs.At(l)
      ensures k == l
    {
      var key := servers[id].refs.At(k).value;
      assert Names(servers, id, k, key) && Names(servers, id, l, key);
    }
  }

  // ---------- One kind ----------

  /** Of the keys of one kind `kept` is left and nothing else; all other keys are as before. */
  ghost predicate KindDone(
      before: Vault, after: Vault, id: ServerId, k: CredentialKind, ref: Option<Key>,
      kept: Option<Key>) {
    && (forall key | Candidate(id, k, ref, None, key) :: key in after <==> kept == Some(key))
    && (forall key | !Candidate(id, k, ref, None, key) || kept == Some(key) ::
          SameKey(before, after, key))
  }

  method RecoverKind(stores: Stores, id: ServerId, k: CredentialKind, ref: Option<Key>)
    returns (ok: bool, kept: Option<Key>)
    modifies stores`vault, stores`faults, stores`sound
    ensures old(stores.Reliable()) ==> ok && stores.Reliable()
    ensures ok ==> kept == KeptRef(ref, old(stores.vault))
                   && KindDone(old(stores.vault), stores.vault, id, k, ref, kept)
  {
    if ref.None? {
      ok := stores.CleanUp(id, k, None, None);
      return ok, None;
    }
    var unreadable := stores.Fails();
    if unreadable {
      return false, None;
    }
    if ref.value in stores.vault {
      ok := stores.CleanUp(id, k, ref, ref);
      return ok, ref;
    }
    ok := stores.CleanUp(id, k, ref, None);
    return ok, None;
  }

  // ---------- One server ----------

  /** Recovering one kind does not change what the next kinds find. */
  lemma KindLeaves(
      before: Vault, after: Vault, id: ServerId, refs: Refs, k: CredentialKind, kept: Option<Key>,
      l: CredentialKind)
    requires RefsOk(id, refs) && KindDone(before, after, id, k, refs.At(k), kept) && k != l
    ensures KeptRef(refs.At(l), after) == KeptRef(refs.At(l), before)
    ensures forall key | Candidate(id, l, refs.At(l), None, key) :: SameKey(before, after, key)
  {
    forall key | Candidate(id, l, refs.At(l), None, key)
      ensures SameKey(before, after, key)
    {
      if Candidate(id, k, refs.At(k), None, key) {
        OneKind(id, refs, k, l, key);
      }
    }
    if refs.At(l).Some? {
      assert Candidate(id, l, refs.At(l), None, refs.At(l).value);
    }
  }

  /** The kinds `done` have been recovered. */
  ghost predicate KindsDone(
      before: Vault, after: Vault, id: ServerId, refs: Refs, done: set<CredentialKind>) {
    && (forall k: CredentialKind, key | Candidate(id, k, refs.At(k), None, key) ::
          if k in done
          then (key in after <==> KeptRef(refs.At(k), before) == Some(key))
               && (key in after ==> SameKey(before, after, key))
          else SameKey(before, after, key))
    && OthersSame(before, after, id, refs)
  }

  lemma KindsGrow(
      v0: Vault, before: Vault, after: Vault, id: ServerId, refs: Refs, done: set<CredentialKind>,
      k: CredentialKind)
    requires RefsOk(id, refs) && KindsDone(v0, before, id, refs, done) && k !in done
    requires KindDone(before, after, id, k, refs.At(k), KeptRef(refs.At(k), before))
    ensures KindsDone(v0, after, id, refs, done + {k})
    ensures KeptRef(refs.At(k), before) == KeptRef(refs.At(k), v0)
  {
    assert KeptRef(refs.At(k), before) == KeptRef(refs.At(k), v0) by {
      if refs.At(k).Some? {
        assert Candidate(id, k, refs.At(k), None, refs.At(k).value);
      }
    }
    forall l: CredentialKind, key | Candidate(id, l, refs.At(l), None, key) && l != k
      ensures SameKey(before, after, key)
    {
      KindLeaves(before, after, id, refs, k, KeptRef(refs.At(k), before), l);
    }
    forall key | !Mine(id, refs, key)
      ensures SameKey(v0, after, key)
    {
      assert SameKey(v0, before, key) && SameKey(before, after, key);
    }
  }

  lemma KindsAddUp(v0: Vault, after: Vault, id: ServerId, refs: Refs)
    requires RefsOk(id, refs)
    requires KindsDone(v0, after, id, refs, {Psk, Ca, Certificate, PrivateKey})
    ensures KeysMatch(v0, after, id, refs, KeptRefs(refs, v0))
  {
    var kept := KeptRefs(refs, v0);
    KeptAt(refs, v0);
    forall key | Mine(id, refs, key)
      ensures key in after <==> Refers(kept, key)
      ensures key in after ==> SameKey(v0, after, key)
    {
      var k: CredentialKind :| Candidate(id, k, refs.At(k), None, key);
      assert k in {Psk, Ca, Certificate, PrivateKey};
      forall l: CredentialKind | kept.At(l) == Some(key)
        ensures l == k
      {
        OneKind(id, refs, k, l, key);
      }
      assert key in after <==> kept.At(k) == Some(key);
    }
  }

  lemma KeptAt(refs: Refs, vault: Vault)
    ensures forall k: CredentialKind :: KeptRefs(refs, vault).At(k) == KeptRef(refs.At(k), vault)
  {
  }

  lemma RefsAt(refs: Refs)
    ensures refs.At(Psk) == refs.psk && refs.At(Ca) == refs.ca
    ensures refs.At(Certificate) == refs.certificate && refs.At(PrivateKey) == refs.privateKey
  {
  }

  /** One more kind, after the kinds `done`; `v0` is what recovery of the server started from. */
  method RecoverNext(
      stores: Stores, id: ServerId, refs: Refs, k: CredentialKind, ghost v0: Vault,
      ghost done: set<CredentialKind>)
    returns (ok: bool, kept: Option<Key>)
    requires RefsOk(id, refs) && KindsDone(v0, stores.vault, id, refs, done) && k !in done
    modifies stores`vault, stores`faults, stores`sound
    ensures old(stores.Reliable()) ==> ok && stores.Reliable()
    ensures ok ==> kept == KeptRef(refs.At(k), v0) && KindsDone(v0, stores.vault, id, refs, done + {k})
  {
    ghost var before := stores.vault;
    ok, kept := RecoverKind(stores, id, k, refs.At(k));
    if ok {
      KindsGrow(v0, before, stores.vault, id, refs, done, k);
    }
  }

  /** Each kind on its own. */
  method RecoverKinds(stores: Stores, id: ServerId, refs: Refs) returns (ok: bool, kept: Refs)
    requires RefsOk(id, refs)
    modifies stores`vault, stores`faults, stores`sound
    ensures old(stores.Reliable()) ==> ok && stores.Reliable()
    ensures ok ==> kept == KeptRefs(refs, old(stores.vault))
                   && KeysMatch(old(stores.vault), stores.vault, id, refs, kept)
                   && OthersSame(old(stores.vault), stores.vault, id, refs)
  {
    kept := refs;
    ghost var v0 := stores.vault;
    RefsAt(refs);
    var psk, ca, certificate, privateKey;
    ok, psk, ca := RecoverTwo(stores, id, refs, Psk, Ca, v0, {});
    if !ok {
      return;
    }
    ok, certificate, privateKey :=
      RecoverTwo(stores, id, refs, Certificate, PrivateKey, v0, {} + {Psk} + {Ca});
    if !ok {
      return;
    }
    kept := PerKind(psk, ca, certificate, privateKey);
    assert {} + {Psk} + {Ca} + {Certificate} + {PrivateKey} == {Psk, Ca, Certificate, PrivateKey};
    KindsAddUp(v0, stores.vault, id, refs);
  }

  method RecoverTwo(
      stores: Stores, id: ServerId, refs: Refs, k: CredentialKind, l: CredentialKind, ghost v0: Vault,
      ghost done: set<CredentialKind>)
    returns (ok: bool, first: Option<Key>, second: Option<Key>)
    requires RefsOk(id, refs) && KindsDone(v0, stores.vault, id, refs, done)
    requires k !in done && l !in done && k != l
    modifies stores`vault, stores`faults, stores`sound
    ensures old(stores.Reliable()) ==> ok && stores.Reliable()
    ensures ok ==> first == KeptRef(refs.At(k), v0) && second == KeptRef(refs.At(l), v0)
                   && KindsDone(v0, stores.vault, id, refs, done + {k} + {l})
  {
    second := None;
    ok, first := RecoverNext(stores, id, refs, k, v0, done);
    if ok {
      ok, second := RecoverNext(stores, id, refs, l, v0, done + {k});
    }
  }

  /** The credential part of recovering a server. */
  method RecoverCredentials(stores: Stores, id: ServerId, refs: Refs) returns (ok: bool, kept: Refs)
    requires RefsOk(id, refs)
    modifies stores`vault, stores`faults, stores`sound
    ensures old(stores.Reliable()) ==> ok && stores.Reliable()
    ensures ok ==> kept == RecoveredRefs(refs, old(stores.vault))
                   && KeysMatch(old(stores.vault), stores.vault, id, refs, kept)
                   && OthersSame(old(stores.vault), stores.vault, id, refs)
  {
    ok, kept := RecoverKinds(stores, id, refs);
    if ok && !Paired(kept) {
      ghost var vault := stores.vault;
      KeptAt(refs, old(stores.vault));
      ok := DropPair(stores, id, kept);
      if ok {
        PairDropped(old(stores.vault), vault, stores.vault, id, refs, kept);
        kept := kept.(certificate := None, privateKey := None);
      }
    }
  }

  ghost predicate OfPair(id: ServerId, refs: Refs, key: Key) {
    || Candidate(id, Certificate, refs.certificate, None, key)
    || Candidate(id, PrivateKey, refs.privateKey, None, key)
  }

  method DropPair(stores: Stores, id: ServerId, refs: Refs) returns (ok: bool)
    modifies stores`vault, stores`faults, stores`sound
    ensures old(stores.Reliable()) ==> ok && stores.Reliable()
    ensures ok ==> forall key | OfPair(id, refs, key) :: key !in stores.vault
    ensures forall key | !SameKey(old(stores.vault), stores.vault, key) ::
              key !in stores.vault && OfPair(id, refs, key)
  {
    ok := stores.CleanUp(id, Certificate, refs.certificate, None);
    if ok {
      ok := stores.CleanUp(id, PrivateKey, refs.privateKey, None);
    }
  }

  lemma PairDropped(v0: Vault, v4: Vault, after: Vault, id: ServerId, refs: Refs, kept: Refs)
    requires RefsOk(id, refs) && KeysMatch(v0, v4, id, refs, kept) && OthersSame(v0, v4, id, refs)
    requires forall k: CredentialKind :: kept.At(k).Some? ==> kept.At(k) == refs.At(k)
    requires forall key | OfPair(id, kept, key) :: key !in after
    requires forall key | !SameKey(v4, after, key) :: key !in after && OfPair(id, kept, key)
    ensures KeysMatch(v0, after, id, refs, kept.(certificate := None, privateKey := None))
    ensures OthersSame(v0, after, id, refs)
  {
    RefsAt(kept);
    forall key | OfPair(id, kept, key)
      ensures Mine(id, refs, key)
    {
      if Candidate(id, Certificate, kept.certificate, None, key) {
        assert Candidate(id, Certificate, refs.At(Certificate), None, key);
      } else {
        assert Candidate(id, PrivateKey, refs.At(PrivateKey), None, key);
      }
    }
    forall key | Mine(id, refs, key)
      ensures key in after <==> Refers(kept.(certificate := None, privateKey := None), key)
      ensures key in after ==> SameKey(v0, after, key)
    {
      PairKey(id, refs, kept, key);
      assert OfPair(id, kept, key) || SameKey(v4, after, key);
    }
    forall key | !Mine(id, refs, key)
      ensures SameKey(v0, after, key)
    {
      assert SameKey(v0, v4, key) && SameKey(v4, after, key);
    }
  }

  /** Without the pair exactly the keys of the pair are not named any more. */
  lemma PairKey(id: ServerId, refs: Refs, kept: Refs, key: Key)
    requires RefsOk(id, refs)
    requires forall k: CredentialKind :: kept.At(k).Some? ==> kept.At(k) == refs.At(k)
    ensures Refers(kept.(certificate := None, privateKey := None), key)
       <==> Refers(kept, key) && !OfPair(id, kept, key)
  {
    var dropped := kept.(certificate := None, privateKey := None);
    RefsAt(kept);
    RefsAt(dropped);
    if k: CredentialKind :| dropped.At(k) == Some(key) {
      assert kept.At(k) == Some(key);
      if Candidate(id, Certificate, kept.certificate, None, key) {
        OneKind(id, refs, k, Certificate, key);
      }
      if Candidate(id, PrivateKey, kept.privateKey, None, key) {
        OneKind(id, refs, k, PrivateKey, key);
      }
    }
    if k: CredentialKind :| kept.At(k) == Some(key) {
      assert k == Psk || k == Ca ==> dropped.At(k) == Some(key);
      assert k == Certificate || k == PrivateKey ==> OfPair(id, kept, key);
    }
  }

  // ---------- All servers ----------

  ghost predicate Settled(
      before: Servers, vault0: Vault, after: Servers, vault: Vault, id: ServerId)
    requires id in before
  {
    if before[id].desired.Gone?
    then id !in after && forall key | Mine(id, before[id].refs, key) :: key !in vault
    else && Recoverable(before[id], vault0)
         && id in after && after[id] == Recovered(before[id], vault0)
         && KeysMatch(vault0, vault, id, before[id].refs, after[id].refs)
  }

  ghost predicate Unsettled(
      before: Servers, vault0: Vault, after: Servers, vault: Vault, id: ServerId)
    requires id in before
  {
    && id in after && after[id] == before[id]
    && forall key | Mine(id, before[id].refs, key) :: SameKey(vault0, vault, key)
  }

  ghost predicate Progress(
      before: Servers, vault0: Vault, after: Servers, vault: Vault, rest: set<ServerId>) {
    && (forall id | id in before ::
          if id in rest then Unsettled(before, vault0, after, vault, id)
          else Settled(before, vault0, after, vault, id))
    && after.Keys <= before.Keys
  }

  lemma ProgressGrows(
      before: Servers, vault0: Vault, middle: Servers, vault1: Vault, after: Servers, vault2: Vault,
      rest: set<ServerId>, id: ServerId)
    requires Owned(before) && id in before && id in rest
    requires Progress(before, vault0, middle, vault1, rest)
    requires Settled(before, vault0, after, vault2, id)
    requires OthersSame(vault1, vault2, id, before[id].refs)
    requires after.Keys <= middle.Keys
    requires forall other | other in middle && other != id ::
               other in after && after[other] == middle[other]
    ensures Progress(before, vault0, after, vault2, rest - {id})
  {
    forall other | other in before
      ensures if other in rest - {id} then Unsettled(before, vault0, after, vault2, other)
              else Settled(before, vault0, after, vault2, other)
    {
      if other != id {
        forall key | Mine(other, before[other].refs, key)
          ensures SameKey(vault1, vault2, key)
        {
          if Mine(id, before[id].refs, key) {
            MineApart(before, id, other, key);
          }
        }
      }
    }
  }

  /** Every tombstone can be erased. */
  ghost predicate Tidy(s: State) {
    forall id | id in s.servers && s.servers[id].desired.Gone? :: Erasable(s, id)
  }

  /** The server `id` is settled, and no other server was touched. */
  ghost predicate ServerDone(before: State, vault0: Vault, after: State, vault: Vault, id: ServerId)
    requires id in before.servers
  {
    && Tidy(after) && Settled(before.servers, vault0, after.servers, vault, id)
    && OthersSame(vault0, vault, id, before.servers[id].refs)
    && after.servers.Keys <= before.servers.Keys
    && forall other | other in before.servers && other != id ::
         other in after.servers && after.servers[other] == before.servers[other]
  }

  ghost predicate StayOwned(before: Servers, after: Servers) {
    Owned(before) && UniqueNames(before) ==> Owned(after) && UniqueNames(after)
  }

  /** The step for one server of the snapshot. */
  method RecoverServer(stores: Stores, id: ServerId) returns (ok: bool)
    requires id in stores.state.servers && RefsOk(id, stores.state.servers[id].refs)
    requires Tidy(stores.state)
    modifies stores
    ensures old(stores.Reliable()) ==>
              && stores.Reliable()
              && (ok <==> CanRecover(old(stores.state.servers)[id], old(stores.vault)))
    ensures StayOwned(old(stores.state.servers), stores.state.servers)
    ensures ok ==> ServerDone(old(stores.state), old(stores.vault), stores.state, stores.vault, id)
  {
    if !stores.state.servers[id].desired.Gone? {
      ok := RecoverRow(stores, id);
      return;
    }
    ok := CleanUpAll(stores, id, stores.state.servers[id].refs);
    if ok {
      WithoutIsOwned(stores.state.servers, id);
      ok := Erase(stores, id);
    }
  }

  method RecoverRow(stores: Stores, id: ServerId) returns (ok: bool)
    requires LiveServer(stores.state.servers, id) && RefsOk(id, stores.state.servers[id].refs)
    requires Tidy(stores.state)
    modifies stores
    ensures old(stores.Reliable()) ==>
              && stores.Reliable()
              && (ok <==> Recoverable(old(stores.state.servers)[id], old(stores.vault)))
    ensures StayOwned(old(stores.state.servers), stores.state.servers)
    ensures ok ==> ServerDone(old(stores.state), old(stores.vault), stores.state, stores.vault, id)
  {
    var row := stores.state.servers[id];
    var refs;
    ok, refs := RecoverCredentials(stores, id, row.refs);
    if !ok || refs == row.refs {
      return;
    }
    if row.revision >= LAST_REVISION {
      return false;
    }
    var actual := if refs.psk.Some? then row.actual
                  else if row.desired.Enabled? then ServerActual.NotAuthenticated else Off;
    var next := row.(refs := refs, revision := row.revision + 1, actual := actual);
    RowIsOwned(stores.state.servers, id, next, old(stores.vault));
    ok := stores.Commit(stores.state.(servers := stores.state.servers[id := next]));
  }

  lemma WithoutIsOwned(servers: Servers, id: ServerId)
    ensures StayOwned(servers, servers - {id})
  {
    forall other, k: CredentialKind, key | Names(servers - {id}, other, k, key)
      ensures Names(servers, other, k, key)
    {
    }
    if Owned(servers) {
      FollowingIsOwned(servers, servers - {id});
    }
  }

  lemma RowIsOwned(servers: Servers, id: ServerId, row: Server, vault: Vault)
    requires id in servers && row.refs == RecoveredRefs(servers[id].refs, vault)
    requires row.name == servers[id].name
    ensures StayOwned(servers, servers[id := row])
  {
    RecoveredIsPart(servers[id].refs, vault);
    forall other, k: CredentialKind, key | Names(servers[id := row], other, k, key)
      ensures Names(servers, other, k, key)
    {
    }
    if Owned(servers) {
      FollowingIsOwned(servers, servers[id := row]);
    }
  }

  lemma NormalIsTidy(s: State)
    requires Owned(s.servers) && UniqueNames(s.servers)
    ensures Tidy(Normalized(s))
    ensures Owned(Normalized(s).servers) && UniqueNames(Normalized(s).servers)
  {
    var after := Normalized(s).servers;
    forall id, k: CredentialKind, key | Names(after, id, k, key)
      ensures Names(s.servers, id, k, key)
    {
    }
    FollowingIsOwned(s.servers, after);
  }

  /** Whatever becomes of it, recovery can be tried again. */
  method Recover(stores: Stores) returns (ok: bool)
    requires Owned(stores.state.servers) && UniqueNames(stores.state.servers)
    modifies stores
    ensures Owned(stores.state.servers) && UniqueNames(stores.state.servers)
    ensures old(stores.Reliable()) ==>
              (ok <==> forall id | id in old(stores.state.servers) ::
                         CanRecover(NormalServer(old(stores.state.servers)[id]), old(stores.vault)))
    ensures ok ==> Progress(Normalized(old(stores.state)).servers, old(stores.vault),
                            stores.state.servers, stores.vault, {})
    ensures ok ==> Agree(stores.state.servers, stores.vault)
    ensures ok ==> forall id | id in stores.state.servers ::
                     !stores.state.servers[id].desired.Gone? && Paired(stores.state.servers[id].refs)
  {
    ghost var before := stores.state.servers;
    var normal := Normalized(stores.state);
    NormalIsTidy(stores.state);
    assert normal.servers.Keys == before.Keys;
    assert forall id | id in before :: normal.servers[id] == NormalServer(before[id]);
    ok := stores.Commit(normal);
    if ok {
      ok := RecoverAll(stores);
    }
  }

  /** `validate_recovered_credentials`. */
  method RecoverAll(stores: Stores) returns (ok: bool)
    requires Owned(stores.state.servers) && UniqueNames(stores.state.servers) && Tidy(stores.state)
    modifies stores
    ensures Owned(stores.state.servers) && UniqueNames(stores.state.servers)
    ensures old(stores.Reliable()) ==>
              (ok <==> forall id | id in old(stores.state.servers) ::
                         CanRecover(old(stores.state.servers)[id], old(stores.vault)))
    ensures ok ==> Progress(old(stores.state.servers), old(stores.vault),
                            stores.state.servers, stores.vault, {})
    ensures ok ==> Agree(stores.state.servers, stores.vault)
    ensures ok ==> forall id | id in stores.state.servers ::
                     !stores.state.servers[id].desired.Gone? && Paired(stores.state.servers[id].refs)
  {
    ghost var before := stores.state.servers;
    var rest := stores.state.servers.Keys;
    while rest != {}
      invariant rest <= before.Keys && Tidy(stores.state)
      invariant Owned(stores.state.servers) && UniqueNames(stores.state.servers)
      invariant old(stores.Reliable()) ==>
                  && stores.Reliable()
                  && forall id | id in before && id !in rest :: CanRecover(before[id], old(stores.vault))
      invariant Progress(before, old(stores.vault), stores.state.servers, stores.vault, rest)
      decreases rest
    {
      var id :| id in rest;
      ghost var middle, vault := stores.state.servers, stores.vault;
      assert Unsettled(before, old(stores.vault), middle, vault, id);
      OwnedIsOk(before, id);
      SameVerdict(before, old(stores.vault), middle, vault, id);
      ok := RecoverServer(stores, id);
      if !ok {
        return;
      }
      SettledIsSettled(before, old(stores.vault), middle, vault, stores.state.servers, stores.vault, id);
      ProgressGrows(before, old(stores.vault), middle, vault, stores.state.servers, stores.vault, rest, id);
      rest := rest - {id};
    }
    RecoveryAgrees(before, old(stores.vault), stores.state.servers, stores.vault);
    ok := true;
  }

  lemma SameKept(vault0: Vault, vault1: Vault, id: ServerId, refs: Refs)
    requires forall key | Mine(id, refs, key) :: SameKey(vault0, vault1, key)
    ensures KeptRefs(refs, vault1) == KeptRefs(refs, vault0)
  {
    RefsAt(refs);
    forall k: CredentialKind | refs.At(k).Some?
      ensures SameKey(vault0, vault1, refs.At(k).value)
    {
      assert Candidate(id, k, refs.At(k), None, refs.At(k).value);
    }
  }

  lemma SameVerdict(before: Servers, vault0: Vault, middle: Servers, vault1: Vault, id: ServerId)
    requires id in before && Unsettled(before, vault0, middle, vault1, id)
    ensures CanRecover(middle[id], vault1) <==> CanRecover(before[id], vault0)
  {
    SameKept(vault0, vault1, id, before[id].refs);
  }

  /** What one step found is what recovery as a whole started from. */
  lemma SettledIsSettled(
      before: Servers, vault0: Vault, middle: Servers, vault1: Vault, after: Servers, vault2: Vault,
      id: ServerId)
    requires id in before && Unsettled(before, vault0, middle, vault1, id)
    requires Settled(middle, vault1, after, vault2, id)
    ensures Settled(before, vault0, after, vault2, id)
  {
    SameKept(vault0, vault1, id, before[id].refs);
  }

  /** After recovery the stores agree. */
  lemma RecoveryAgrees(before: Servers, vault0: Vault, after: Servers, vault: Vault)
    requires Owned(before) && UniqueNames(before) && Progress(before, vault0, after, vault, {})
    ensures Agree(after, vault)
    ensures forall id | id in after :: !after[id].desired.Gone? && Paired(after[id].refs)
  {
    forall id | id in after
      ensures !after[id].desired.Gone? && Paired(after[id].refs) && after[id].name == before[id].name
      ensures Resolves(after[id].refs, vault)
      ensures forall k: CredentialKind | after[id].refs.At(k).Some? ::
                after[id].refs.At(k) == before[id].refs.At(k)
    {
      assert Settled(before, vault0, after, vault, id);
      RecoveredIsPart(before[id].refs, vault0);
      forall k: CredentialKind | after[id].refs.At(k).Some?
        ensures after[id].refs.At(k).value in vault
      {
        var key := after[id].refs.At(k).value;
        assert Candidate(id, k, before[id].refs.At(k), None, key);
        assert Mine(id, before[id].refs, key) && Refers(after[id].refs, key);
      }
    }
    forall id, k: CredentialKind, key | Names(after, id, k, key)
      ensures Names(before, id, k, key)
    {
    }
    FollowingIsOwned(before, after);
  }

  lemma RecoveredIsPart(refs: Refs, vault: Vault)
    ensures Paired(RecoveredRefs(refs, vault))
    ensures forall k: CredentialKind | RecoveredRefs(refs, vault).At(k).Some? ::
              RecoveredRefs(refs, vault).At(k) == refs.At(k) && refs.At(k).value in vault
  {
  }
}
