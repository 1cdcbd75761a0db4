/**
 * The compute-and-memoise endpoint (api/public-heavy.js) as a step function
 * over the process-wide cache: `(cache, request) -> (cache', response)`.
 *
 * The cache is a plain map with no expiry. The `after` path consults it and
 * stores every freshly computed result; the `before` path never touches it.
 * Both paths answer 200 with the same public Cache-Control header. The clock
 * reading `durationMs` is a parameter.
 */
module PublicHeavy {
  import opened Wrappers
  import opened HeavyQuery
  import opened Workload

  type Cache = map<string, int>

  const PublicCacheControl := "public, s-maxage=60, stale-while-revalidate=120"

  /** Status, Cache-Control header and JSON body `{mode, cached, result, durationMs?}`. */
  datatype Response = Response(
    status: nat,
    cacheControl: string,
    mode: Mode,
    cached: bool,
    result: Option<int>,
    durationMs: Option<nat>)

  /**
   * One request with normalised parameters `p`; `elapsed` is the
   * `Date.now()` difference measured around the computation.
   */
  function Handle(cache: Cache, p: Params, elapsed: nat): (out: (Cache, Response))
    ensures out.1.status == 200 && out.1.cacheControl == PublicCacheControl && out.1.mode == p.mode
    // a hit: the stored value, nothing recomputed, no duration, cache unchanged
    ensures p.mode == After && CacheKey(p) in cache ==>
      out.0 == cache && out.1.cached && out.1.result == Some(cache[CacheKey(p)]) && out.1.durationMs.None?
    // a miss: the key now holds exactly the answer, every other entry is as before
    ensures p.mode == After && CacheKey(p) !in cache ==>
      && !out.1.cached && out.1.durationMs == Some(elapsed)
      && out.1.result == Some(GridSum(p.rounds, p.size) % AccModulus)
      && out.0.Keys == cache.Keys + {CacheKey(p)}
      && out.0[CacheKey(p)] == out.1.result.value
      && (forall k :: k in cache && k != CacheKey(p) ==> out.0[k] == cache[k])
    // the unoptimised path: cache untouched, least transformed value, `undefined` for an empty array
    ensures p.mode == Before ==>
      && out.0 == cache && !out.1.cached && out.1.durationMs == Some(elapsed)
      && (p.size == 0 <==> out.1.result.None?)
      && (out.1.result.Some? ==> IsLeast(out.1.result.value, TransformAll(InitialSeq(p.size), p.rounds)))
  {
    var key := CacheKey(p);
    if p.mode == After && key in cache then
      (cache, Response(200, PublicCacheControl, After, true, Some(cache[key]), None))
    else
      match p.mode
      case Before =>
        (cache, Response(200, PublicCacheControl, Before, false, HeavyCompute(p.size, p.rounds), Some(elapsed)))
      case After =>
        var result := OptimizedCompute(p.size, p.rounds);
        (cache[key := result], Response(200, PublicCacheControl, After, false, Some(result), Some(elapsed)))
  }

  /** The handler on a raw query; `None` when a numeric parameter is outside this model. */
  function HandleQuery(cache: Cache, q: Query, elapsed: nat): (out: Option<(Cache, Response)>)
    ensures out.Some? <==> Normalise(q).Some?
    ensures out.Some? ==> out.value.1.mode == ParseMode(q.mode)
    ensures out.Some? ==> out.value == Handle(cache, Params(ParseMode(q.mode), ParseCount(q.size, DefaultSize).value, ParseCount(q.rounds, DefaultRounds).value), elapsed)
  {
    match Normalise(q)
    case None => None
    case Some(p) => Some(Handle(cache, p, elapsed))
  }

  /** A request without parameters is the `after` request on 30000 elements and 80 rounds. */
  lemma EmptyQueryIsDefaultRequest(cache: Cache, elapsed: nat)
    ensures HandleQuery(cache, Query(None, None, None), elapsed) == Some(Handle(cache, Params(After, 30000, 80), elapsed))
  {
  }

  /**
   * Every entry of the cache is an `after` key holding the optimised result of
   * the parameters the key encodes.
   */
  predicate CacheSound(cache: Cache) {
    forall k :: k in cache ==>
      && DecodeKey(k).Some?
      && DecodeKey(k).value.mode == After
      && cache[k] == OptimizedCompute(DecodeKey(k).value.size, DecodeKey(k).value.rounds)
  }

  /** The process starts with an empty map. */
  lemma EmptyCacheSound()
    ensures CacheSound(map[])
  {
  }

  /** Every request keeps the cache sound. */
  lemma HandlePreservesSoundness(cache: Cache, p: Params, elapsed: nat)
    requires CacheSound(cache)
    ensures CacheSound(Handle(cache, p, elapsed).0)
  {
    assert DecodeKey(CacheKey(p)) == Some(p);
  }

  /**
   * Memoisation is invisible in the answer: on a sound cache the `after` path
   * returns the optimised result whether it hits or misses.
   */
  lemma CachedResultIsFresh(cache: Cache, p: Params, elapsed: nat)
    requires CacheSound(cache) && p.mode == After
    ensures Handle(cache, p, elapsed).1.result == Some(OptimizedCompute(p.size, p.rounds))
  {
    assert DecodeKey(CacheKey(p)) == Some(p);
  }

  /**
   * Repeating an `after` request hits: the second answer is cached, carries
   * the first result and no duration, and leaves the cache as the first left it.
   */
  lemma RepeatedRequestHits(cache: Cache, p: Params, first: nat, second: nat)
    requires p.mode == After
    ensures var (c1, r1) := Handle(cache, p, first);
            var (c2, r2) := Handle(c1, p, second);
            && r2.cached && r2.result == r1.result && r2.durationMs.None? && c2 == c1
  {
  }

  /** A `before` request gives the same answer whatever the cache holds. */
  lemma BeforeIgnoresCache(c1: Cache, c2: Cache, p: Params, elapsed: nat)
    requires p.mode == Before
    ensures Handle(c1, p, elapsed).1 == Handle(c2, p, elapsed).1
  {
  }
}
