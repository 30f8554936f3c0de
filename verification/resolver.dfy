/**
 The handler body of `resolveLocation` in location/location.ts: clean the key,
 reject short keys, read the cache, fall back to the provider, write the result
 back, and answer with a record, InvalidArgument or NotFoundError.
 */
module Resolver {
  import opened Wrappers
  import opened Records
  import opened Clean
  import opened Store
  import opened Upstream

  /** The answer of the handler: a record (HTTP 200) or one of the two `APIError`s it throws (`invalidArgument`, `notFound`). */
  datatype Outcome = Ok(latlon: LatLon) | InvalidArgument | NotFoundError

  /**
   Everything one request receives from outside: whether the cache read fails,
   the provider's response, whether the insert fails, and what the database
   call of the insert resolves to.
   */
  datatype Env = Env(readFails: bool, response: Response, writeFails: bool, execResult: bool)

  /** The answer, the cache afterwards, and how many times the provider was called. */
  datatype Resolution = Resolution(outcome: Outcome, cache: Cache, upstreamCalls: nat)

  /** The key is long enough, counted in UTF-16 code units as JavaScript's `length` counts. */
  predicate LongEnough(key: string) {
    Utf16Length(key) >= 2
  }

  /** The cache read of a long enough key yields nothing: no row, or the read failed. */
  predicate Miss(key: string, cache: Cache, env: Env) {
    env.readFails || key !in cache
  }

  /**
   The two cache checks of the handler: a `found` record is the answer, a
   `not_found` record answers NotFound, and anything else (no record, or one
   with status `unknown`) goes on to the provider, signalled by `None`.
   */
  function CacheAnswer(cached: Option<LatLon>): (r: Option<Outcome>)
    ensures cached.Some? && cached.value.status == Found ==> r == Some(Ok(cached.value))
    ensures cached.Some? && cached.value.status == Status.NotFound ==> r == Some(NotFoundError)
    ensures cached.None? || cached.value.status.Unknown? ==> r.None?
  {
    match cached
    case None => None
    case Some(latlon) =>
      if latlon.status == Found then Some(Ok(latlon))
      else if latlon.status == Status.NotFound then Some(NotFoundError)
      else None
  }

  /** What `getFromDB` returns never reaches the negative-cache answer. */
  lemma NegativeCacheUnreachable(cache: Cache, key: string, readFails: bool)
    ensures CacheAnswer(GetFromDB(cache, key, readFails)) != Some(NotFoundError)
  {
  }

  function Resolve(raw: string, cache: Cache, env: Env): (r: Resolution)
    // Short keys are rejected before any I/O.
    ensures !LongEnough(CleanLocation(raw)) <==> r.outcome == InvalidArgument
    ensures !LongEnough(CleanLocation(raw)) ==> r.cache == cache && r.upstreamCalls == 0
    // A cache hit is served as `found` under the cleaned key, without calling the provider.
    ensures LongEnough(CleanLocation(raw)) && !Miss(CleanLocation(raw), cache, env) ==>
      var key := CleanLocation(raw);
      r == Resolution(Ok(LatLon(key, cache[key].fullAddress, cache[key].latitude, cache[key].longitude, Found)), cache, 0)
    // On a miss the provider is called once; its record is returned and inserted.
    ensures LongEnough(CleanLocation(raw)) && Miss(CleanLocation(raw), cache, env) ==> r.upstreamCalls == 1
    ensures LongEnough(CleanLocation(raw)) && Miss(CleanLocation(raw), cache, env) && Usable(env.response) ==>
      var key := CleanLocation(raw);
      var first := First(env.response);
      var found := LatLon(key, first.formattedAddress, first.location.value.lat, first.location.value.lng, Found);
      r.outcome == Ok(found) && r.cache == AfterInsert(cache, key, RowOf(found), env.writeFails)
    // Without a usable result the empty 0/0 row is inserted and the answer is NotFoundError.
    ensures LongEnough(CleanLocation(raw)) && Miss(CleanLocation(raw), cache, env) && !Usable(env.response) ==>
      r.outcome == NotFoundError && r.cache == AfterInsert(cache, CleanLocation(raw), Row("", Zero, Zero), env.writeFails)
    // NotFoundError only ever comes from the provider, never from the cache.
    ensures r.outcome.NotFoundError? ==> r.upstreamCalls == 1
    ensures r.outcome.Ok? ==> r.outcome.latlon.location == CleanLocation(raw) && r.outcome.latlon.status == Found
    // Existing rows are never changed; at most the request's own key is added.
    ensures forall k :: k in cache ==> k in r.cache && r.cache[k] == cache[k]
    ensures r.cache.Keys <= cache.Keys + {CleanLocation(raw)}
  {
    var key := CleanLocation(raw);
    if Utf16Length(key) < 2 then
      Resolution(InvalidArgument, cache, 0)
    else
      CleanIdempotent(raw);
      match CacheAnswer(GetFromDB(cache, key, env.readFails))
      case Some(answer) => Resolution(answer, cache, 0)
      case None =>
        match GetFromAPI(key, env.response)
        case Some(found) =>
          var w := WriteToDB(cache, found, env.writeFails, env.execResult);
          Resolution(Ok(found), w.cache, 1)
        case None =>
          var w := WriteToDB(cache, NotFoundRecord(key), env.writeFails, env.execResult);
          Resolution(NotFoundError, w.cache, 1)
  }

  /** The answer never depends on how the write-back went: its boolean is ignored. */
  lemma OutcomeIgnoresWrite(raw: string, cache: Cache, env: Env, writeFails: bool, execResult: bool)
    ensures Resolve(raw, cache, env).outcome == Resolve(raw, cache, env.(writeFails := writeFails, execResult := execResult)).outcome
  {
  }

  /** Inputs that clean to the same key are one cache entry and one request. */
  lemma SameKeySameResolution(raw1: string, raw2: string, cache: Cache, env: Env)
    requires CleanLocation(raw1) == CleanLocation(raw2)
    ensures Resolve(raw1, cache, env) == Resolve(raw2, cache, env)
  {
  }

  /**
   A second lookup after a successful first one whose key was new and whose
   write-back succeeded is served from the cache with the same record and no
   provider call.
   */
  lemma SecondLookupFromCache(raw: string, cache: Cache, env1: Env, env2: Env)
    requires CleanLocation(raw) !in cache && Resolve(raw, cache, env1).outcome.Ok?
    requires !env1.writeFails && !env2.readFails
    ensures Resolve(raw, Resolve(raw, cache, env1).cache, env2)
         == Resolution(Resolve(raw, cache, env1).outcome, Resolve(raw, cache, env1).cache, 0)
  {
  }

  /**
   The stored negative row comes back as `found`: after a lookup that ended in
   NotFoundError and whose write-back succeeded, the next lookup answers with the
   empty address at 0/0 and status `found`, without calling the provider.
   */
  lemma NegativeRowServedAsFound(raw: string, cache: Cache, env1: Env, env2: Env)
    requires CleanLocation(raw) !in cache && Resolve(raw, cache, env1).outcome == NotFoundError
    requires !env1.writeFails && !env2.readFails
    ensures Resolve(raw, Resolve(raw, cache, env1).cache, env2)
         == Resolution(Ok(LatLon(CleanLocation(raw), "", Zero, Zero, Found)), Resolve(raw, cache, env1).cache, 0)
  {
  }

  /**
   A failed fetch is cached like an empty answer: once its row is written, a
   later lookup gets the 0/0 row even if the provider now has a result.
   */
  lemma FailedFetchIsCached(raw: string, cache: Cache, env1: Env, env2: Env)
    requires LongEnough(CleanLocation(raw)) && CleanLocation(raw) !in cache
    requires env1.response == FetchFailed && !env1.writeFails
    requires !env2.readFails && Usable(env2.response)
    ensures Resolve(raw, cache, env1).outcome == NotFoundError
    ensures Resolve(raw, Resolve(raw, cache, env1).cache, env2).outcome == Ok(LatLon(CleanLocation(raw), "", Zero, Zero, Found))
    ensures Resolve(raw, Resolve(raw, cache, env1).cache, env2).upstreamCalls == 0
  {
  }

  /**
   When the read fails on a key that already has a row, the provider's fresh
   record is returned but the insert of it fails: the old row stays.
   */
  lemma ReadFailureKeepsOldRow(raw: string, cache: Cache, env: Env)
    requires LongEnough(CleanLocation(raw)) && CleanLocation(raw) in cache
    requires env.readFails && Usable(env.response)
    ensures Resolve(raw, cache, env).cache == cache
    ensures Resolve(raw, cache, env).upstreamCalls == 1
    ensures
      var first := First(env.response);
      Resolve(raw, cache, env).outcome ==
        Ok(LatLon(CleanLocation(raw), first.formattedAddress, first.location.value.lat, first.location.value.lng, Found))
  {
  }
}
