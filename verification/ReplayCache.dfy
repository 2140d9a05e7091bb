/** The cache that refuses replayed authentication nonces: `NonceReplayCache`. */
module ReplayCache {
  import opened Base
  import opened Messages

  type Time = int

  /** `replay_key`: the client id, a colon, and the 32 bytes of the nonce. */
  function ReplayKey(clientId: seq<byte>, nonce: seq<byte>): seq<byte> {
    clientId + [0x3A] + nonce
  }

  lemma ReplayKeyIsInjective(a: seq<byte>, m: seq<byte>, b: seq<byte>, n: seq<byte>)
    requires |m| == |n| && ReplayKey(a, m) == ReplayKey(b, n)
    ensures a == b && m == n
  {
    var j, k := ReplayKey(a, m), ReplayKey(b, n);
    assert |a| == |b|;
    assert a == j[..|a|] && b == k[..|b|];
    assert m == j[|a| + 1..] && n == k[|b| + 1..];
  }

  datatype Entry = Entry(key: seq<byte>, expires: Time)

  /** Everything unexpired, wherever it stands: what the cache is meant to remember. */
  ghost function Unexpired(es: seq<Entry>, now: Time): seq<Entry> {
    if |es| == 0 then []
    else (if es[0].expires > now then [es[0]] else []) + Unexpired(es[1..], now)
  }

  ghost predicate Ordered(es: seq<Entry>) {
    forall i, j | 0 <= i < j < |es| :: es[i].expires <= es[j].expires
  }

  ghost function Keys(es: seq<Entry>): set<seq<byte>> {
    set i | 0 <= i < |es| :: es[i].key
  }

  ghost predicate DistinctKeys(es: seq<Entry>) {
    forall i, j | 0 <= i < j < |es| :: es[i].key != es[j].key
  }

  /** A key comes back only after its earlier entry has expired. */
  ghost predicate SpacedOut(es: seq<Entry>, retention: Time) {
    forall i, j | 0 <= i < j < |es| && es[i].key == es[j].key ::
      es[i].expires <= es[j].expires - retention
  }

  lemma {:induction false} AllUnexpired(es: seq<Entry>, now: Time)
    requires forall i | 0 <= i < |es| :: es[i].expires > now
    ensures Unexpired(es, now) == es
  {
    if |es| > 0 {
      AllUnexpired(es[1..], now);
      assert es == [es[0]] + es[1..];
    }
  }

  lemma {:induction false} UnexpiredAppend(a: seq<Entry>, b: seq<Entry>, now: Time)
    ensures Unexpired(a + b, now) == Unexpired(a, now) + Unexpired(b, now)
  {
    if |a| == 0 {
      assert a + b == b;
    } else {
      assert (a + b)[0] == a[0] && (a + b)[1..] == a[1..] + b;
      UnexpiredAppend(a[1..], b, now);
    }
  }

  /** Forgetting early what is expired by then changes nothing later. */
  lemma {:induction false} UnexpiredLater(es: seq<Entry>, a: Time, b: Time)
    requires a <= b
    ensures Unexpired(Unexpired(es, a), b) == Unexpired(es, b)
  {
    if |es| > 0 {
      UnexpiredLater(es[1..], a, b);
      var first := if es[0].expires > a then [es[0]] else [];
      UnexpiredAppend(first, Unexpired(es[1..], a), b);
      assert Unexpired([es[0]], b) == (if es[0].expires > b then [es[0]] else []) + Unexpired([], b);
    }
  }

  lemma {:induction false} UnexpiredIsPart(es: seq<Entry>, now: Time, e: Entry)
    ensures e in Unexpired(es, now) <==> e in es && e.expires > now
  {
    if |es| > 0 {
      UnexpiredIsPart(es[1..], now, e);
    }
  }

  class NonceReplayCache {
    const maximum: nat
    const retention: Time
    var order: seq<Entry>
    var entries: set<seq<byte>>
    // Everything accepted so far, and the time of the last call.
    ghost var accepted: seq<Entry>
    ghost var clock: Time

    ghost predicate Valid()
      reads this
    {
      && maximum >= 1 && retention >= 1
      && order == Unexpired(accepted, clock)
      && entries == Keys(order) && DistinctKeys(order) && |order| <= maximum
      && Ordered(order) && SpacedOut(accepted, retention)
      && (forall i | 0 <= i < |accepted| :: accepted[i].expires <= clock + retention)
    }

    constructor (limit: nat, keep: Time, now: Time)
      ensures Valid() && accepted == [] && clock == now
      ensures maximum == (if limit >= 1 then limit else 1)
      ensures retention == (if keep >= 1 then keep else 1)
    {
      maximum := if limit >= 1 then limit else 1;
      retention := if keep >= 1 then keep else 1;
      order, entries, accepted, clock := [], {}, [], now;
    }

    /** Expired entries are dropped from the front only. */
    method Expire(now: Time)
      requires Valid() && clock <= now
      modifies this`order, this`entries, this`clock
      ensures Valid() && clock == now
    {
      UnexpiredLater(accepted, clock, now);
      while |order| > 0 && order[0].expires <= now
        invariant Unexpired(order, now) == Unexpired(accepted, now)
        invariant entries == Keys(order) && DistinctKeys(order) && Ordered(order)
        invariant |order| <= maximum
        decreases |order|
      {
        FrontKey(order);
        entries := entries - {order[0].key};
        order := order[1..];
      }
      clock := now;
      FrontDecides(order, now);
    }

    /** The answer to a client's nonce, and what is remembered of it. */
    ghost predicate Ruled(
        before: seq<Entry>, after: seq<Entry>, clientId: seq<byte>, nonce: seq<byte>, now: Time,
        r: Result<bool>)
    {
      if !IsId(ClientKind, clientId) then r == Err(InvalidArgument) && after == before
      else
        var key, live := ReplayKey(clientId, nonce), Unexpired(before, now);
        && (r == Ok(false) <==> key in Keys(live))
        && (r.Err? <==> key !in Keys(live) && |live| == maximum)
        && (r.Err? ==> r == Err(ResourceExhausted))
        && after == if r == Ok(true) then before + [Entry(key, now + retention)] else before
    }

    /** `consume`: may the client use the nonce now? */
    method Consume(clientId: seq<byte>, nonce: seq<byte>, now: Time) returns (r: Result<bool>)
      requires Valid() && clock <= now
      modifies this`order, this`entries, this`accepted, this`clock
      ensures Valid()
      ensures clock == if IsId(ClientKind, clientId) then now else old(clock)
      ensures Ruled(old(accepted), accepted, clientId, nonce, now, r)
    {
      if !IsId(ClientKind, clientId) {
        return Err(InvalidArgument);
      }
      r := Admit(ReplayKey(clientId, nonce), now);
    }

    method Admit(key: seq<byte>, now: Time) returns (r: Result<bool>)
      requires Valid() && clock <= now
      modifies this`order, this`entries, this`accepted, this`clock
      ensures Valid() && clock == now
      ensures r == Ok(false) <==> key in Keys(Unexpired(old(accepted), now))
      ensures r.Err? <==> key !in Keys(Unexpired(old(accepted), now))
                          && |Unexpired(old(accepted), now)| == maximum
      ensures r.Err? ==> r == Err(ResourceExhausted)
      ensures accepted == if r == Ok(true) then old(accepted) + [Entry(key, now + retention)]
                          else old(accepted)
    {
      Expire(now);
      if key in entries {
        return Ok(false);
      }
      KeysCount(order);
      if |entries| >= maximum {
        return Err(ResourceExhausted);
      }
      AppendEntry(accepted, order, Entry(key, now + retention), now, retention);
      order := order + [Entry(key, now + retention)];
      entries := entries + {key};
      accepted := accepted + [Entry(key, now + retention)];
      return Ok(true);
    }

    /** `verify_and_consume`: a nonce is used up only by a proof that holds. */
    method VerifyAndConsume(
        verified: Result<bool>, clientId: seq<byte>, nonce: seq<byte>, now: Time)
      returns (r: Result<bool>)
      requires Valid() && clock <= now
      modifies this`order, this`entries, this`accepted, this`clock
      ensures Valid()
      ensures verified != Ok(true) ==> r == verified && accepted == old(accepted)
      ensures verified == Ok(true) ==> Ruled(old(accepted), accepted, clientId, nonce, now, r)
    {
      if verified != Ok(true) {
        return verified;
      }
      r := Consume(clientId, nonce, now);
    }
  }

  lemma FrontKey(es: seq<Entry>)
    requires |es| > 0 && DistinctKeys(es)
    ensures Keys(es[1..]) == Keys(es) - {es[0].key}
  {
    forall k | k in Keys(es) - {es[0].key}
      ensures k in Keys(es[1..])
    {
      var i :| 0 <= i < |es| && es[i].key == k;
      assert es[1..][i - 1].key == k;
    }
    forall k | k in Keys(es[1..])
      ensures k in Keys(es) - {es[0].key}
    {
      var i :| 0 <= i < |es[1..]| && es[1..][i].key == k;
      assert es[i + 1].key == k;
    }
  }

  /** In order of expiry, an unexpired front means that nothing is expired. */
  lemma FrontDecides(es: seq<Entry>, now: Time)
    requires Ordered(es) && (|es| > 0 ==> es[0].expires > now)
    ensures Unexpired(es, now) == es
  {
    AllUnexpired(es, now);
  }

  lemma {:induction false} KeysCount(es: seq<Entry>)
    requires DistinctKeys(es)
    ensures |Keys(es)| == |es|
    decreases |es|
  {
    if |es| > 0 {
      FrontKey(es);
      KeysCount(es[1..]);
      assert es[0].key in Keys(es);
      assert Keys(es) == Keys(es[1..]) + {es[0].key};
    } else {
      assert Keys(es) == {};
    }
  }

  lemma AppendEntry(accepted: seq<Entry>, order: seq<Entry>, e: Entry, now: Time, retention: Time)
    requires order == Unexpired(accepted, now) && e.expires == now + retention && retention >= 1
    requires e.key !in Keys(order) && DistinctKeys(order) && Ordered(order)
    requires SpacedOut(accepted, retention)
    requires forall i | 0 <= i < |accepted| :: accepted[i].expires <= now + retention
    ensures order + [e] == Unexpired(accepted + [e], now)
    ensures Keys(order + [e]) == Keys(order) + {e.key}
    ensures DistinctKeys(order + [e]) && Ordered(order + [e]) && SpacedOut(accepted + [e], retention)
  {
    UnexpiredAppend(accepted, [e], now);
    AllUnexpired([e], now);
    KeysAppend(order, e);
    forall i | 0 <= i < |order|
      ensures order[i].expires <= e.expires && order[i].key != e.key
    {
      UnexpiredIsPart(accepted, now, order[i]);
      assert order[i].key in Keys(order);
    }
    forall i | 0 <= i < |accepted| && accepted[i].key == e.key
      ensures accepted[i].expires <= now
    {
      LiveKeyCounts(accepted, now, i);
    }
  }

  lemma LiveKeyCounts(es: seq<Entry>, now: Time, i: nat)
    requires i < |es|
    ensures es[i].expires > now ==> es[i].key in Keys(Unexpired(es, now))
  {
    UnexpiredIsPart(es, now, es[i]);
  }

  lemma KeysAppend(es: seq<Entry>, e: Entry)
    ensures Keys(es + [e]) == Keys(es) + {e.key}
  {
    var longer := es + [e];
    assert longer[|es|] == e;
    forall k | k in Keys(es)
      ensures k in Keys(longer)
    {
      var i :| 0 <= i < |es| && es[i].key == k;
      assert longer[i].key == k;
    }
  }
}
