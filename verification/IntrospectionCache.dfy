/**
 The verdict cache of the introspection client (internal/externaltoken/introspection.go):
 a map from jti to a verdict with an expiry, bounded in size, evicting by earliest expiry.
 Times are integers; the zero expiresAt of the source is None.
 */
module IntrospectionCache {
  import opened Common

  const DEFAULT_CACHE_TTL := 60_000_000_000
  const DEFAULT_MAX_ENTRIES := 10000

  datatype Entry = Entry(active: bool, expiry: int)

  type Results = map<string, Entry>

  predicate Live(e: Entry, now: int) {
    now < e.expiry
  }

  /** The expiry given to a verdict stored now: the time to live, capped by the token's own expiry. */
  function ExpiryAt(now: int, ttl: int, tokenExpiry: Option<int>): int {
    if tokenExpiry.Some? && tokenExpiry.value < now + ttl then tokenExpiry.value else now + ttl
  }

  /** Whichever ends first, the time to live or the token, ends the verdict. */
  lemma ExpiryIsTheEarlier(now: int, ttl: int, tokenExpiry: Option<int>, later: int)
    ensures later < ExpiryAt(now, ttl, tokenExpiry) <==> later < now + ttl && (tokenExpiry.Some? ==> later < tokenExpiry.value)
  {
  }

  /** What a cache read at this instant answers. */
  function Lookup(results: Results, jti: string, now: int): Option<bool> {
    if jti in results && Live(results[jti], now) then Some(results[jti].active) else None
  }

  function LiveKeys(results: Results, now: int): set<string> {
    set k | k in results && Live(results[k], now)
  }

  /** Every entry of `part` is an unchanged entry of `whole`. */
  ghost predicate PartOf(part: Results, whole: Results) {
    part.Keys <= whole.Keys && forall k :: k in part ==> part[k] == whole[k]
  }

  /** No unexpired entry that was dropped outlives an entry that was kept. */
  ghost predicate DroppedEarliest(whole: Results, now: int, kept: set<string>) {
    forall k, k' :: k in LiveKeys(whole, now) && k !in kept && k' in kept && k' in whole
      ==> whole[k].expiry <= whole[k'].expiry
  }

  /** What one eviction may leave behind, whatever order a map is ranged over and ties are sorted in. */
  ghost predicate Evicted(whole: Results, now: int, maxEntries: nat, after: Results) {
    var live := LiveKeys(whole, now);
    && PartOf(after, whole)
    && after.Keys <= live
    && |after| == (if |live| <= maxEntries then |live| else maxEntries)
    && DroppedEarliest(whole, now, after.Keys)
  }

  /** What storing one verdict may leave behind. */
  ghost predicate Stored(before: Results, jti: string, e: Entry, now: int, maxEntries: nat, after: Results) {
    var whole := before[jti := e];
    if |whole| <= maxEntries then after == whole else Evicted(whole, now, maxEntries, after)
  }

  function LiveEntries(results: Results, now: int): Results {
    map k | k in LiveKeys(results, now) :: results[k]
  }

  /** The keys of a map, each once, by increasing expiry. */
  ghost predicate KeysInExpiryOrder(keys: seq<string>, results: Results) {
    && Distinct(keys) && Elements(keys) == results.Keys
    && (forall i :: 0 <= i < |keys| ==> keys[i] in results)
    && forall i, j :: 0 <= i < j < |keys| ==> results[keys[i]].expiry <= results[keys[j]].expiry
  }

  /** What remains of the unexpired entries once the earliest of those over the bound are removed. */
  ghost predicate ExcessDropped(live: Results, maxEntries: nat, keys: seq<string>, after: Results) {
    if |live| <= maxEntries then after == live else
    && KeysInExpiryOrder(keys, live) && |keys| == |live|
    && after == live - Elements(keys[..|live| - maxEntries])
  }

  datatype Failure = MissingToken | Unavailable

  class Introspector {
    const cacheTTL: int
    const maxEntries: nat
    var results: Results

    ghost predicate Valid()
      reads this
    {
      0 < cacheTTL && 0 < maxEntries && |results| <= maxEntries
    }

    /** Non-positive settings fall back to the defaults. */
    constructor (ttl: int, entries: int)
      ensures Valid() && results == map[]
      ensures cacheTTL == if ttl <= 0 then DEFAULT_CACHE_TTL else ttl
      ensures maxEntries == if entries <= 0 then DEFAULT_MAX_ENTRIES else entries
    {
      cacheTTL := if ttl <= 0 then DEFAULT_CACHE_TTL else ttl;
      maxEntries := if entries <= 0 then DEFAULT_MAX_ENTRIES else entries;
      results := map[];
    }

    /** One locked read; the clock is read under the lock. */
    method Cached(jti: string, now: int) returns (active: bool, found: bool)
      ensures found <==> Lookup(results, jti, now).Some?
      ensures found ==> Lookup(results, jti, now) == Some(active)
    {
      if jti !in results || !(now < results[jti].expiry) {
        return false, false;
      }
      return results[jti].active, true;
    }

    method Store(jti: string, active: bool, tokenExpiry: Option<int>, now: int)
      requires Valid()
      modifies this`results
      ensures Valid()
      ensures Stored(old(results), jti, Entry(active, ExpiryAt(now, cacheTTL, tokenExpiry)), now, maxEntries, results)
    {
      var expiry := now + cacheTTL;
      if tokenExpiry.Some? && tokenExpiry.value < expiry {
        expiry := tokenExpiry.value;
      }
      results := results[jti := Entry(active, expiry)];
      if |results| > maxEntries {
        Evict(now);
      }
    }

    method Evict(now: int)
      modifies this`results
      ensures Evicted(old(results), now, maxEntries, results)
    {
      DropExpired(now);
      ghost var keys := DropExcess();
      PassesEvict(old(results), now, maxEntries, LiveEntries(old(results), now), keys, results);
    }

    /** Second pass of the eviction: if too much is left, remove the earliest to expire. */
    method DropExcess() returns (ghost sorted: seq<string>)
      modifies this`results
      ensures ExcessDropped(old(results), maxEntries, sorted, results)
    {
      sorted := [];
      if |results| <= maxEntries {
        return;
      }
      var keys := KeysByExpiry();
      sorted := keys;
      DropFirst(keys, |results| - maxEntries);
    }

    /** Remove the first keys of the sorted list. */
    method DropFirst(keys: seq<string>, excess: nat)
      requires excess <= |keys|
      modifies this`results
      ensures results == old(results) - Elements(keys[..excess])
    {
      for i := 0 to excess
        invariant results == old(results) - Elements(keys[..i])
      {
        assert Elements(keys[..i + 1]) == Elements(keys[..i]) + {keys[i]};
        results := results - {keys[i]};
      }
    }

    /** First pass of the eviction: remove whatever has expired, in any order. */
    method DropExpired(now: int)
      modifies this`results
      ensures results == LiveEntries(old(results), now)
    {
      ghost var whole := results;
      var pending := results.Keys;
      while pending != {}
        invariant pending <= results.Keys
        invariant PartOf(results, whole)
        invariant forall k :: k in whole && k !in pending ==> (k in results <==> Live(whole[k], now))
        invariant pending <= whole.Keys
        decreases pending
      {
        var key :| key in pending;
        pending := pending - {key};
        if !(now < results[key].expiry) {
          results := results - {key};
        }
      }
    }

    /** The keys sorted by expiry, ties in any order. */
    method KeysByExpiry() returns (keys: seq<string>)
      ensures KeysInExpiryOrder(keys, results) && |keys| == |results|
    {
      keys := [];
      var rest := results.Keys;
      while rest != {}
        invariant SortedSoFar(results, keys, rest)
        decreases rest
      {
        EarliestExists(results, rest);
        var key :| key in rest && forall k :: k in rest ==> results[key].expiry <= results[k].expiry;
        SortedOneMore(results, keys, rest, key);
        keys := keys + [key];
        rest := rest - {key};
      }
      SortedAll(results, keys);
    }

    /**
     One call of Active when no other caller interferes: the two cache reads, the question to the IdP
     and the store happen at the given instants. `reply` is what the IdP would answer, None for a failure.
     */
    method Active(token: string, jti: string, tokenExpiry: Option<int>,
                  firstRead: int, secondRead: int, storedAt: int, reply: Option<bool>)
      returns (verdict: Result<bool, Failure>, asked: bool)
      requires Valid()
      requires firstRead <= secondRead <= storedAt
      modifies this`results
      ensures Valid()
      ensures token == "" || jti == "" ==> verdict == Err(MissingToken)
      ensures asked <==> token != "" && jti != "" && Lookup(old(results), jti, firstRead).None?
      ensures token != "" && jti != "" && !asked ==>
                verdict == Ok(Lookup(old(results), jti, firstRead).value)
      ensures asked ==> verdict == if reply.None? then Err(Unavailable) else Ok(reply.value)
      ensures asked && reply.Some? ==>
                Stored(old(results), jti, Entry(reply.value, ExpiryAt(storedAt, cacheTTL, tokenExpiry)),
                       storedAt, maxEntries, results)
      ensures !(asked && reply.Some?) ==> results == old(results)
    {
      asked := false;
      if token == "" || jti == "" {
        return Err(MissingToken), false;
      }
      var active, found := Cached(jti, firstRead);
      if found {
        return Ok(active), false;
      }
      active, found := Cached(jti, secondRead);
      if found {
        return Ok(active), false;
      }
      asked := true;
      if reply.None? {
        return Err(Unavailable), true;
      }
      Store(jti, reply.value, tokenExpiry, storedAt);
      return Ok(reply.value), true;
    }
  }

  datatype Invalid = InvalidEndpoint | MissingCredentials

  /** Refused without an absolute endpoint, and without the client's ID and secret; then empty, within the defaults. */
  method NewIntrospector(absoluteURL: bool, clientID: string, clientSecret: string, ttl: int, entries: int)
    returns (made: Result<Introspector, Invalid>)
    ensures made == Err(InvalidEndpoint) <==> !absoluteURL
    ensures made == Err(MissingCredentials) <==> absoluteURL && (clientID == "" || clientSecret == "")
    ensures made.Ok? ==> fresh(made.value) && made.value.Valid() && made.value.results == map[]
    ensures made.Ok? ==> made.value.cacheTTL == if ttl <= 0 then DEFAULT_CACHE_TTL else ttl
    ensures made.Ok? ==> made.value.maxEntries == if entries <= 0 then DEFAULT_MAX_ENTRIES else entries
  {
    if !absoluteURL {
      return Err(InvalidEndpoint);
    }
    if clientID == "" || clientSecret == "" {
      return Err(MissingCredentials);
    }
    var introspector := new Introspector(ttl, entries);
    return Ok(introspector);
  }

  /** Loop invariant of the sort: `keys` are the earliest keys in order, `rest` the keys still to place. */
  ghost predicate SortedSoFar(results: Results, keys: seq<string>, rest: set<string>) {
    && rest <= results.Keys && Elements(keys) == results.Keys - rest && Distinct(keys)
    && (forall i :: 0 <= i < |keys| ==> keys[i] in results)
    && (forall i, j :: 0 <= i < j < |keys| ==> results[keys[i]].expiry <= results[keys[j]].expiry)
    && forall i, k :: 0 <= i < |keys| && k in rest ==> results[keys[i]].expiry <= results[k].expiry
  }

  lemma SortedOneMore(results: Results, keys: seq<string>, rest: set<string>, key: string)
    requires SortedSoFar(results, keys, rest) && key in rest
    requires forall k :: k in rest ==> results[key].expiry <= results[k].expiry
    ensures SortedSoFar(results, keys + [key], rest - {key})
  {
    assert Elements(keys + [key]) == Elements(keys) + {key};
    assert forall i :: 0 <= i < |keys| ==> keys[i] in Elements(keys);
  }

  lemma SortedAll(results: Results, keys: seq<string>)
    requires SortedSoFar(results, keys, {})
    ensures KeysInExpiryOrder(keys, results) && |keys| == |results|
  {
    DistinctLength(keys);
    assert |results| == |results.Keys|;
  }

  /** Some key of a non-empty set expires no later than the others. */
  lemma {:induction false} EarliestExists(results: Results, keys: set<string>)
    requires keys != {} && keys <= results.Keys
    ensures exists key :: key in keys && forall k :: k in keys ==> results[key].expiry <= results[k].expiry
    decreases keys
  {
    var some :| some in keys;
    if keys != {some} {
      EarliestExists(results, keys - {some});
      var best :| best in keys - {some} && forall k :: k in keys - {some} ==> results[best].expiry <= results[k].expiry;
      var pick := if results[some].expiry <= results[best].expiry then some else best;
      assert pick in keys && forall k :: k in keys ==> k == some || k in keys - {some};
      assert forall k :: k in keys ==> results[pick].expiry <= results[k].expiry;
    }
  }

  /** Deleting a prefix of the keys sorted by expiry drops the earliest ones and nothing else. */
  lemma EarliestAreGone(live: Results, keys: seq<string>, excess: nat, after: Results)
    requires KeysInExpiryOrder(keys, live) && |keys| == |live|
    requires excess <= |keys| && after == live - Elements(keys[..excess])
    ensures |after| == |live| - excess && PartOf(after, live)
    ensures forall k, k' :: k in live && k !in after && k' in after ==> live[k].expiry <= live[k'].expiry
  {
    var gone := Elements(keys[..excess]);
    DistinctLength(keys[..excess]);
    assert gone <= live.Keys by {
      forall k | k in gone ensures k in Elements(keys) {}
    }
    assert after.Keys == live.Keys - gone;
    assert |after.Keys| == |live.Keys| - |gone|;
    forall k, k' | k in live && k !in after && k' in after
      ensures live[k].expiry <= live[k'].expiry
    {
      assert k in keys[..excess];
      assert k' in Elements(keys);
      var i :| 0 <= i < excess && keys[i] == k;
      var j :| 0 <= j < |keys| && keys[j] == k';
      assert keys[j] !in keys[..excess];
      assert forall n :: 0 <= n < excess ==> keys[n] in keys[..excess];
    }
  }

  /** The two passes of an eviction together leave what Evicted allows. */
  lemma PassesEvict(whole: Results, now: int, maxEntries: nat, live: Results, keys: seq<string>, after: Results)
    requires live == LiveEntries(whole, now)
    requires ExcessDropped(live, maxEntries, keys, after)
    ensures Evicted(whole, now, maxEntries, after)
  {
    assert live.Keys == LiveKeys(whole, now);
    assert |live| == |live.Keys|;
    if |live| > maxEntries {
      EarliestAreGone(live, keys, |live| - maxEntries, after);
      EvictedFromLive(whole, now, live, after);
    }
  }

  lemma EvictedFromLive(whole: Results, now: int, live: Results, after: Results)
    requires PartOf(live, whole) && live.Keys == LiveKeys(whole, now)
    requires PartOf(after, live) && |after| < |live|
    requires forall k, k' :: k in live && k !in after && k' in after ==> live[k].expiry <= live[k'].expiry
    ensures Evicted(whole, now, |after|, after)
  {
    forall k, k' | k in LiveKeys(whole, now) && k !in after.Keys && k' in after.Keys && k' in whole
      ensures whole[k].expiry <= whole[k'].expiry
    {
      assert k in live && live[k] == whole[k] && live[k'] == whole[k'];
    }
  }

  /**
   Whatever one store does to a cache within its bound: it stays within the bound, what is kept is unchanged,
   every unexpired entry that is lost expires no later than every entry that is kept, and at most one
   unexpired entry is lost.
   */
  lemma StoreKeepsTheBound(before: Results, jti: string, e: Entry, now: int, maxEntries: nat, after: Results)
    requires 0 < maxEntries && |before| <= maxEntries
    requires Stored(before, jti, e, now, maxEntries, after)
    ensures |after| <= maxEntries
    ensures forall k :: k in after ==> k in before[jti := e] && after[k] == before[jti := e][k]
    ensures var whole := before[jti := e];
            && (forall k, k' :: k in whole && now < whole[k].expiry && k !in after && k' in after ==>
                  whole[k].expiry <= whole[k'].expiry)
            && |set k | k in whole && now < whole[k].expiry && k !in after| <= 1
  {
    var whole := before[jti := e];
    var live := LiveKeys(whole, now);
    assert whole.Keys == before.Keys + {jti};
    assert |whole.Keys| <= |before.Keys| + 1;
    assert (set k | k in whole && now < whole[k].expiry && k !in after) == live - after.Keys;
    assert live <= whole.Keys;
    if |whole| > maxEntries {
      assert after.Keys <= live;
      assert |live - after.Keys| == |live| - |after.Keys|;
      SubsetSize(live, whole.Keys);
    } else {
      assert live - after.Keys == {};
    }
  }

  lemma SubsetSize(small: set<string>, large: set<string>)
    requires small <= large
    ensures |small| <= |large|
  {
    assert large == small + (large - small);
  }

  /**
   A store never changes a verdict behind a reader's back: from the store on, a read of any key either misses
   or answers what the cache with the new verdict written in would answer.
   */
  lemma StoreNeverChangesAVerdict(before: Results, jti: string, e: Entry, now: int, maxEntries: nat, after: Results,
                                  key: string, later: int)
    requires Stored(before, jti, e, now, maxEntries, after)
    ensures Lookup(after, key, later).None? || Lookup(after, key, later) == Lookup(before[jti := e], key, later)
    ensures key != jti && Lookup(before, key, later).None? ==> Lookup(after, key, later).None?
  {
  }

  /** A verdict that was stored and not evicted is answered exactly until its time to live ends or its token expires. */
  lemma StoredIsServed(before: Results, jti: string, active: bool, ttl: int, tokenExpiry: Option<int>, now: int, maxEntries: nat,
                       after: Results, later: int)
    requires Stored(before, jti, Entry(active, ExpiryAt(now, ttl, tokenExpiry)), now, maxEntries, after)
    ensures |before[jti := Entry(active, ExpiryAt(now, ttl, tokenExpiry))]| <= maxEntries ==> jti in after
    ensures jti in after ==>
              (Lookup(after, jti, later) == Some(active) <==> later < now + ttl && (tokenExpiry.Some? ==> later < tokenExpiry.value))
  {
    ExpiryIsTheEarlier(now, ttl, tokenExpiry, later);
  }
}
