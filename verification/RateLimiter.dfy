/** The limiter of failed authentications: `AuthRateLimiter`. */
module RateLimiter {
  import opened Base

  type Time = nat
  type Key = string

  /** Clamped as the constructor does. */
  datatype Options = Options(maxEntries: nat, maxFailures: nat, window: nat, block: nat)

  predicate OptionsOk(o: Options) {
    o.maxEntries >= 1 && o.maxFailures >= 1 && o.window >= 1 && o.block >= 1
  }

  // ---------- What a history of failures means ----------

  /** The failures within the window that ends at `now`. */
  ghost function Recent(ts: seq<Time>, now: Time, o: Options): seq<Time> {
    if |ts| == 0 then []
    else (if ts[0] + o.window > now then [ts[0]] else []) + Recent(ts[1..], now, o)
  }

  /** Failures since the last block, none forgotten, and the end of that block. */
  datatype Record = Record(since: seq<Time>, blockedUntil: Time)

  /** A failure blocks when enough of the unforgiven ones, itself included, are recent. */
  ghost function Fail(r: Record, t: Time, o: Options): Record {
    if |Recent(r.since + [t], t, o)| >= o.maxFailures then Record([], t + o.block)
    else r.(since := r.since + [t])
  }

  /** The reference: a fold over the failures since the key was last forgotten. */
  ghost function Folded(failures: seq<Time>, o: Options): Record {
    if |failures| == 0 then Record([], 0)
    else Fail(Folded(failures[..|failures| - 1], o), failures[|failures| - 1], o)
  }

  ghost predicate Ascending(ts: seq<Time>) {
    forall i, j | 0 <= i < j < |ts| :: ts[i] <= ts[j]
  }

  ghost predicate UpTo(ts: seq<Time>, now: Time) {
    forall i | 0 <= i < |ts| :: ts[i] <= now
  }

  lemma {:induction false} RecentAppend(a: seq<Time>, b: seq<Time>, now: Time, o: Options)
    ensures Recent(a + b, now, o) == Recent(a, now, o) + Recent(b, now, o)
  {
    if |a| == 0 {
      assert a + b == b;
    } else {
      assert (a + b)[0] == a[0] && (a + b)[1..] == a[1..] + b;
      RecentAppend(a[1..], b, now, o);
    }
  }

  lemma {:induction false} RecentLater(ts: seq<Time>, a: Time, b: Time, o: Options)
    requires a <= b
    ensures Recent(Recent(ts, a, o), b, o) == Recent(ts, b, o)
  {
    if |ts| > 0 {
      RecentLater(ts[1..], a, b, o);
      var first := if ts[0] + o.window > a then [ts[0]] else [];
      RecentAppend(first, Recent(ts[1..], a, o), b, o);
      assert Recent([ts[0]], b, o) == (if ts[0] + o.window > b then [ts[0]] else []) + Recent([], b, o);
    }
  }

  lemma {:induction false} AllRecent(ts: seq<Time>, now: Time, o: Options)
    requires forall i | 0 <= i < |ts| :: ts[i] + o.window > now
    ensures Recent(ts, now, o) == ts
  {
    if |ts| > 0 {
      AllRecent(ts[1..], now, o);
      assert ts == [ts[0]] + ts[1..];
    }
  }

  lemma {:induction false} RecentShrinks(ts: seq<Time>, a: Time, b: Time, o: Options)
    requires a <= b
    ensures |Recent(ts, b, o)| <= |Recent(ts, a, o)| <= |ts|
  {
    if |ts| > 0 {
      RecentShrinks(ts[1..], a, b, o);
    }
  }

  lemma {:induction false} RecentIsAscending(ts: seq<Time>, now: Time, o: Options)
    requires Ascending(ts)
    ensures Ascending(Recent(ts, now, o))
    ensures forall t | t in Recent(ts, now, o) :: t in ts
  {
    if |ts| > 0 {
      RecentIsAscending(ts[1..], now, o);
      forall t | t in Recent(ts[1..], now, o)
        ensures ts[0] <= t && t in ts
      {
        var i :| 0 <= i < |ts[1..]| && ts[1..][i] == t;
        assert ts[i + 1] == t;
      }
      var all, rest := Recent(ts, now, o), Recent(ts[1..], now, o);
      forall i, j | 0 <= i < j < |all|
        ensures all[i] <= all[j]
      {
        if ts[0] + o.window > now {
          assert all == [ts[0]] + rest && all[j] == rest[j - 1] && rest[j - 1] in rest;
          assert i > 0 ==> all[i] == rest[i - 1];
        } else {
          assert all == [] + rest == rest;
        }
      }
    }
  }

  // ---------- The limiter ----------

  datatype Entry = Entry(failures: seq<Time>, blockedUntil: Time, lastSeen: Time)

  /** An entry stands for a history: its queue is the recent part of what was not forgiven. */
  ghost predicate Stands(e: Entry, failures: seq<Time>, o: Options) {
    var r := Folded(failures, o);
    && e.failures == Recent(r.since, e.lastSeen, o) && |e.failures| < o.maxFailures
    && e.blockedUntil == r.blockedUntil
    && Ascending(r.since) && UpTo(r.since, e.lastSeen)
  }

  class AuthRateLimiter {
    const options: Options
    var entries: map<Key, Entry>
    // The failures of each key since it was last forgotten, and the time of the last call.
    ghost var histories: map<Key, seq<Time>>
    ghost var clock: Time

    ghost predicate Valid()
      reads this
    {
      && OptionsOk(options)
      && entries.Keys == histories.Keys && |entries| <= options.maxEntries
      && AllOk(entries, histories, options, clock)
    }

    constructor (o: Options, now: Time)
      ensures Valid() && histories == map[] && clock == now
      ensures OptionsOk(o) ==> options == o
    {
      options := Options(Max(o.maxEntries, 1), Max(o.maxFailures, 1), Max(o.window, 1), Max(o.block, 1));
      entries, histories, clock := map[], map[], now;
    }

    /** `prune_failures`: old failures leave from the front. */
    method Prune(e: Entry, now: Time, ghost failures: seq<Time>) returns (pruned: Entry)
      requires Stands(e, failures, options) && e.lastSeen <= now
      ensures pruned == e.(failures := Recent(Folded(failures, options).since, now, options))
      ensures |pruned.failures| < options.maxFailures
    {
      ghost var since := Folded(failures, options).since;
      RecentLater(since, e.lastSeen, now, options);
      RecentIsAscending(since, e.lastSeen, options);
      RecentShrinks(since, e.lastSeen, now, options);
      var queue := e.failures;
      while |queue| > 0 && queue[0] + options.window <= now
        invariant Ascending(queue) && Recent(queue, now, options) == Recent(since, now, options)
        decreases |queue|
      {
        queue := queue[1..];
      }
      AllRecent(queue, now, options);
      pruned := e.(failures := queue);
    }

    /** `allowed`: no attempt is allowed while the folded block lasts. */
    method Allowed(key: Key, now: Time) returns (yes: bool)
      requires Valid() && clock <= now
      modifies this`entries, this`clock
      ensures Valid() && clock == now && entries.Keys == old(entries).Keys
      ensures yes <==> key in histories ==> Folded(histories[key], options).blockedUntil <= now
    {
      if key !in entries {
        EntriesAge(entries, histories, options, clock, now);
        clock := now;
        return true;
      }
      assert EntryOk(entries[key], histories[key], options, clock);
      var pruned := Prune(entries[key], now, histories[key]);
      var seen := pruned.(lastSeen := now);
      SeenStands(entries[key], seen, histories[key], options);
      EntriesAge(entries, histories, options, clock, now);
      EntryChanges(entries, histories, key, seen, histories[key], options, now);
      assert histories[key := histories[key]] == histories;
      KeepsSize(entries, key, seen);
      entries := entries[key := seen];
      clock := now;
      return now >= seen.blockedUntil;
    }

    /** `record_failure`. */
    method RecordFailure(key: Key, now: Time)
      requires Valid() && clock <= now
      modifies this`entries, this`histories, this`clock
      ensures Valid() && clock == now
      ensures key in old(entries) || |old(entries)| < options.maxEntries ==>
                histories == old(histories)[key :=
                  (if key in old(histories) then old(histories)[key] else []) + [now]]
      ensures key !in old(entries) && |old(entries)| >= options.maxEntries ==>
                exists victim :: Oldest(old(entries), victim)
                                 && histories == (old(histories) - {victim})[key := [now]]
    {
      if key !in entries && |entries| >= options.maxEntries {
        ghost var victim := EvictOne();
        assert key !in histories;
        assert Oldest(old(entries), victim);
      }
      AddFailure(key, now);
      assert [] + [now] == [now];
    }

    method AddFailure(key: Key, now: Time)
      requires Valid() && clock <= now && (key in entries || |entries| < options.maxEntries)
      modifies this`entries, this`histories, this`clock
      ensures Valid() && clock == now
      ensures histories == old(histories)[key :=
                (if key in old(histories) then old(histories)[key] else []) + [now]]
    {
      ghost var history := if key in histories then histories[key] else [];
      var entry := if key in entries then entries[key] else Entry([], 0, 0);
      FreshStands(options);
      assert key in entries ==> EntryOk(entries[key], histories[key], options, clock);
      var failed := FailedEntry(entry, now, history);
      EntriesAge(entries, histories, options, clock, now);
      EntryChanges(entries, histories, key, failed, history + [now], options, now);
      KeepsSize(entries, key, failed);
      entries := entries[key := failed];
      histories := histories[key := history + [now]];
      clock := now;
    }

    method FailedEntry(entry: Entry, now: Time, ghost history: seq<Time>) returns (failed: Entry)
      requires OptionsOk(options) && Stands(entry, history, options) && entry.lastSeen <= now
      ensures Stands(failed, history + [now], options) && failed.lastSeen == now
    {
      var pruned := Prune(entry, now, history);
      failed := pruned.(failures := pruned.failures + [now], lastSeen := now);
      if |failed.failures| >= options.maxFailures {
        failed := failed.(blockedUntil := now + options.block, failures := []);
      }
      FailureStands(pruned, failed, history, now, options);
    }

    /** `record_success`. */
    method RecordSuccess(key: Key)
      requires Valid()
      modifies this`entries, this`histories
      ensures Valid() && histories == old(histories) - {key}
    {
      LosesSize(entries, key);
      EntryLeaves(entries, histories, key, options, clock);
      entries := entries - {key};
      histories := histories - {key};
    }

    /** One of the keys seen longest ago. */
    ghost predicate Oldest(table: map<Key, Entry>, victim: Key) {
      victim in table && forall k | k in table :: table[victim].lastSeen <= table[k].lastSeen
    }

    /** `evict_one`: forgets one key that was seen longest ago. */
    method EvictOne() returns (ghost victim: Key)
      requires Valid() && |entries| > 0
      modifies this`entries, this`histories
      ensures Valid() && |entries| < |old(entries)| && Oldest(old(entries), victim)
      ensures histories == old(histories) - {victim} && entries == old(entries) - {victim}
    {
      assert entries.Keys != {} by {
        assert |entries| == |entries.Keys|;
      }
      var oldest :| oldest in entries;
      var rest := entries.Keys - {oldest};
      while rest != {}
        invariant oldest in entries && rest <= entries.Keys
        invariant forall k | k in entries && k !in rest :: entries[oldest].lastSeen <= entries[k].lastSeen
        decreases rest
      {
        var k :| k in rest;
        rest := rest - {k};
        if entries[k].lastSeen < entries[oldest].lastSeen {
          oldest := k;
        }
      }
      LosesSize(entries, oldest);
      EntryLeaves(entries, histories, oldest, options, clock);
      entries := entries - {oldest};
      histories := histories - {oldest};
      victim := oldest;
    }
  }

  ghost predicate EntryOk(e: Entry, failures: seq<Time>, o: Options, clock: Time) {
    Stands(e, failures, o) && e.lastSeen <= clock
  }

  ghost predicate AllOk(
      entries: map<Key, Entry>, histories: map<Key, seq<Time>>, o: Options, clock: Time) {
    forall k {:trigger EntryOk(entries[k], histories[k], o, clock)} |
      k in entries && k in histories :: EntryOk(entries[k], histories[k], o, clock)
  }

  lemma EntriesAge(
      entries: map<Key, Entry>, histories: map<Key, seq<Time>>, o: Options, a: Time, b: Time)
    requires AllOk(entries, histories, o, a) && a <= b
    ensures AllOk(entries, histories, o, b)
  {
    forall k | k in entries && k in histories
      ensures EntryOk(entries[k], histories[k], o, b)
    {
      assert EntryOk(entries[k], histories[k], o, a);
    }
  }

  lemma EntryChanges(
      entries: map<Key, Entry>, histories: map<Key, seq<Time>>, key: Key, e: Entry,
      failures: seq<Time>, o: Options, clock: Time)
    requires AllOk(entries, histories, o, clock) && EntryOk(e, failures, o, clock)
    ensures AllOk(entries[key := e], histories[key := failures], o, clock)
  {
    var es, hs := entries[key := e], histories[key := failures];
    forall k | k in es && k in hs
      ensures EntryOk(es[k], hs[k], o, clock)
    {
      if k != key {
        assert EntryOk(entries[k], histories[k], o, clock);
      }
    }
  }

  lemma EntryLeaves(
      entries: map<Key, Entry>, histories: map<Key, seq<Time>>, key: Key, o: Options, clock: Time)
    requires AllOk(entries, histories, o, clock)
    ensures AllOk(entries - {key}, histories - {key}, o, clock)
  {
    var es, hs := entries - {key}, histories - {key};
    forall k | k in es && k in hs
      ensures EntryOk(es[k], hs[k], o, clock)
    {
      assert EntryOk(entries[k], histories[k], o, clock);
    }
  }

  lemma KeepsSize(entries: map<Key, Entry>, key: Key, e: Entry)
    ensures |entries[key := e]| == |entries| + if key in entries then 0 else 1
  {
    assert entries[key := e].Keys == entries.Keys + {key};
    assert |entries[key := e]| == |entries[key := e].Keys| && |entries| == |entries.Keys|;
  }

  lemma LosesSize(entries: map<Key, Entry>, key: Key)
    ensures |entries - {key}| == |entries| - if key in entries then 1 else 0
  {
    assert (entries - {key}).Keys == entries.Keys - {key};
    assert |entries - {key}| == |(entries - {key}).Keys| && |entries| == |entries.Keys|;
  }

  lemma FreshStands(o: Options)
    requires OptionsOk(o)
    ensures Stands(Entry([], 0, 0), [], o)
  {
  }

  /** Looking at an entry later, with its queue pruned, keeps what it stands for. */
  lemma SeenStands(e: Entry, seen: Entry, failures: seq<Time>, o: Options)
    requires Stands(e, failures, o) && e.lastSeen <= seen.lastSeen
    requires seen.blockedUntil == e.blockedUntil && |seen.failures| < o.maxFailures
    requires seen.failures == Recent(Folded(failures, o).since, seen.lastSeen, o)
    ensures Stands(seen, failures, o)
  {
  }

  lemma FailureStands(pruned: Entry, failed: Entry, failures: seq<Time>, now: Time, o: Options)
    requires OptionsOk(o) && failed.lastSeen == now
    requires var r := Folded(failures, o);
             && pruned.failures == Recent(r.since, now, o) && pruned.blockedUntil == r.blockedUntil
             && Ascending(r.since) && UpTo(r.since, now)
    requires if |pruned.failures| + 1 >= o.maxFailures
             then failed.failures == [] && failed.blockedUntil == now + o.block
             else failed.failures == pruned.failures + [now] && failed.blockedUntil == pruned.blockedUntil
    ensures Stands(failed, failures + [now], o)
  {
    var r := Folded(failures, o);
    assert (failures + [now])[..|failures|] == failures;
    RecentAppend(r.since, [now], now, o);
    AllRecent([now], now, o);
    assert Recent(r.since + [now], now, o) == pruned.failures + [now];
    assert Folded(failures + [now], o) == Fail(r, now, o);
  }
}
