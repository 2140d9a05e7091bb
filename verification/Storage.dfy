/**
  The two durable stores of the daemon, rows and credentials, without a common transaction. Every
  write to either one is a moment at which the daemon may be cut off.
*/
module Storage {
  import opened Base
  import opened Records

  /** The row `id` refers to `key` for its credential of kind `k`. */
  ghost predicate Names(servers: Servers, id: ServerId, k: CredentialKind, key: Key) {
    id in servers && servers[id].refs.At(k) == Some(key)
  }

  /** A referenced slot is one's own, and no key is referenced twice. */
  ghost predicate Owned(servers: Servers) {
    && (forall id | id in servers :: OwnRefs(id, servers[id].refs))
    && (forall a, b, k: CredentialKind, l: CredentialKind, key
          {:trigger Names(servers, a, k, key), Names(servers, b, l, key)} |
          Names(servers, a, k, key) && Names(servers, b, l, key) :: a == b && k == l)
  }

  /** Rows keep references or exchange them for slots of their own. */
  ghost predicate RefsFollow(before: Servers, after: Servers) {
    forall id, k: CredentialKind, key {:trigger Names(after, id, k, key)} |
      Names(after, id, k, key) :: key in SlotsOf(id, k) || Names(before, id, k, key)
  }

  lemma OwnNames(servers: Servers, id: ServerId, k: CredentialKind, key: Key)
    requires Owned(servers) && Names(servers, id, k, key)
    ensures Belongs(key, id, k)
  {
    assert OwnRefs(id, servers[id].refs);
  }

  lemma FollowingIsOwned(before: Servers, after: Servers)
    requires Owned(before) && RefsFollow(before, after)
    ensures Owned(after)
  {
    forall id, k: CredentialKind, key | Names(after, id, k, key)
      ensures Belongs(key, id, k)
    {
      if Names(before, id, k, key) {
        OwnNames(before, id, k, key);
      }
    }
    forall id | id in after
      ensures OwnRefs(id, after[id].refs)
    {
      forall k: CredentialKind | after[id].refs.At(k).Some?
        ensures Belongs(after[id].refs.At(k).value, id, k)
      {
        assert Names(after, id, k, after[id].refs.At(k).value);
      }
    }
  }

  /** Every credential reference of every server that was not removed resolves. */
  ghost predicate Sound(servers: Servers, vault: Vault) {
    forall id | LiveServer(servers, id) :: Resolves(servers[id].refs, vault)
  }

  ghost predicate Unreferenced(servers: Servers, key: Key) {
    forall id, k: CredentialKind | LiveServer(servers, id) :: servers[id].refs.At(k) != Some(key)
  }

  /** What holds between the stores at every moment. */
  ghost predicate Agree(servers: Servers, vault: Vault) {
    Sound(servers, vault) && Owned(servers) && UniqueNames(servers)
  }

  lemma SoundWithout(servers: Servers, vault: Vault, key: Key)
    requires Sound(servers, vault) && Unreferenced(servers, key)
    ensures Sound(servers, vault - {key})
  {
    forall id | LiveServer(servers, id)
      ensures Resolves(servers[id].refs, vault - {key})
    {
      assert Resolves(servers[id].refs, vault);
      forall k: CredentialKind | servers[id].refs.At(k).Some?
        ensures servers[id].refs.At(k).value in vault - {key}
      {
      }
    }
  }

  lemma SoundWith(servers: Servers, vault: Vault, key: Key, value: string)
    requires Sound(servers, vault)
    ensures Sound(servers, vault[key := value])
  {
    forall id | LiveServer(servers, id)
      ensures Resolves(servers[id].refs, vault[key := value])
    {
      assert Resolves(servers[id].refs, vault);
    }
  }

  class Stores {
    var state: State
    var vault: Vault
    // Whether the next writes fail.
    var faults: seq<bool>
    // Whether the stores agreed at every moment so far.
    ghost var sound: bool

    ghost predicate Valid()
      reads this
    {
      sound && Agree(state.servers, vault)
    }

    /** None of the writes to come fails. */
    ghost predicate Reliable()
      reads this`faults
    {
      forall i | 0 <= i < |faults| :: !faults[i]
    }

    constructor (s: State, credentials: Vault)
      requires Agree(s.servers, credentials)
      ensures Valid() && state == s && vault == credentials && Reliable()
    {
      state, vault, faults, sound := s, credentials, [], true;
    }

    method Fails() returns (failed: bool)
      modifies this`faults
      ensures old(Reliable()) ==> !failed && Reliable()
    {
      failed := |faults| > 0 && faults[0];
      faults := if |faults| > 0 then faults[1..] else [];
    }

    /** A credential in use is never overwritten. */
    method Put(key: Key, value: string) returns (ok: bool)
      requires Valid() && Unreferenced(state.servers, key)
      modifies this`vault, this`faults, this`sound
      ensures Valid() && vault == if ok then old(vault)[key := value] else old(vault)
      ensures old(Reliable()) ==> ok && Reliable()
    {
      var failed := Fails();
      if !failed {
        SoundWith(state.servers, vault, key, value);
        vault := vault[key := value];
      }
      sound := sound && Sound(state.servers, vault);
      ok := !failed;
    }

    method Remove(key: Key) returns (ok: bool)
      modifies this`vault, this`faults, this`sound
      ensures vault == if ok then old(vault) - {key} else old(vault)
      ensures old(Valid()) && Unreferenced(state.servers, key) ==> Valid()
      ensures old(Reliable()) ==> ok && Reliable()
    {
      var failed := Fails();
      if !failed {
        if Sound(state.servers, vault) && Unreferenced(state.servers, key) {
          SoundWithout(state.servers, vault, key);
        }
        vault := vault - {key};
      }
      sound := sound && Sound(state.servers, vault);
      ok := !failed;
    }

    /** Commits a transaction. */
    method Commit(next: State) returns (ok: bool)
      modifies this`state, this`faults, this`sound
      ensures state == if ok then next else old(state)
      ensures old(Valid()) && Agree(next.servers, vault) ==> Valid()
      ensures old(Reliable()) ==> ok && Reliable()
    {
      var failed := Fails();
      if !failed {
        state := next;
      }
      sound := sound && Sound(state.servers, vault);
      ok := !failed;
    }

    /** Empties both slots of one kind, and a referenced one, except `retained`; any may resist. */
    method CleanUp(id: ServerId, k: CredentialKind, referenced: Option<Key>, retained: Option<Key>)
      returns (ok: bool)
      modifies this`vault, this`faults, this`sound
      ensures forall key | !SameKey(old(vault), vault, key) ::
                key !in vault && Candidate(id, k, referenced, retained, key)
      ensures ok ==> forall key | Candidate(id, k, referenced, retained, key) :: key !in vault
      ensures old(Valid()) && Spare(state.servers, id, k, referenced, retained) ==> Valid()
      ensures old(Reliable()) ==> ok && Reliable()
    {
      var rest := SlotsOf(id, k) + if referenced.Some? then {referenced.value} else {};
      ok := true;
      while rest != {}
        invariant old(Valid()) && Spare(state.servers, id, k, referenced, retained) ==> Valid()
        invariant old(Reliable()) ==> ok && Reliable()
        invariant forall key | key in rest && retained != Some(key) ::
                    Candidate(id, k, referenced, retained, key)
        invariant forall key | !SameKey(old(vault), vault, key) ::
                    key !in vault && Candidate(id, k, referenced, retained, key)
        invariant ok ==> forall key | Candidate(id, k, referenced, retained, key) && key !in rest ::
                           key !in vault
        decreases rest
      {
        var key :| key in rest;
        rest := rest - {key};
        if retained != Some(key) {
          var removed := Remove(key);
          ok := ok && removed;
        }
      }
    }
  }

  ghost predicate SameKey(before: Vault, after: Vault, key: Key) {
    (key in before <==> key in after) && (key in before ==> after[key] == before[key])
  }

  ghost predicate Candidate(
      id: ServerId, k: CredentialKind, referenced: Option<Key>, retained: Option<Key>, key: Key) {
    (key in SlotsOf(id, k) || referenced == Some(key)) && retained != Some(key)
  }

  /** Nothing that a clean-up would remove is in use. */
  ghost predicate Spare(
      servers: Servers, id: ServerId, k: CredentialKind, referenced: Option<Key>,
      retained: Option<Key>) {
    forall key | Candidate(id, k, referenced, retained, key) :: Unreferenced(servers, key)
  }

  /** What a row no longer names, and its slots of that kind, are spare, save what it names now. */
  lemma FormerIsSpare(
      before: Servers, after: Servers, id: ServerId, k: CredentialKind, referenced: Option<Key>,
      retained: Option<Key>)
    requires Owned(before) && RefsFollow(before, after)
    requires referenced.Some? ==> Names(before, id, k, referenced.value)
    requires LiveServer(after, id) ==> after[id].refs.At(k).None? || after[id].refs.At(k) == retained
    ensures Spare(after, id, k, referenced, retained)
  {
    forall key, other, kind: CredentialKind |
      Candidate(id, k, referenced, retained, key) && Names(after, other, kind, key)
      ensures other == id && kind == k
    {
      CandidateIsOwn(before, after, id, k, referenced, key, other, kind);
    }
    forall key, other, kind: CredentialKind |
      Candidate(id, k, referenced, retained, key) && LiveServer(after, other)
      ensures after[other].refs.At(kind) != Some(key)
    {
      assert Names(after, other, kind, key) <==> after[other].refs.At(kind) == Some(key);
    }
  }

  lemma CandidateIsOwn(
      before: Servers, after: Servers, id: ServerId, k: CredentialKind, referenced: Option<Key>,
      key: Key, other: ServerId, kind: CredentialKind)
    requires Owned(before) && RefsFollow(before, after)
    requires referenced.Some? ==> Names(before, id, k, referenced.value)
    requires key in SlotsOf(id, k) || referenced == Some(key)
    requires Names(after, other, kind, key)
    ensures other == id && kind == k
  {
    FollowingIsOwned(before, after);
    OwnNames(after, other, kind, key);
    if referenced == Some(key) {
      OwnNames(before, id, k, key);
    }
  }
}
