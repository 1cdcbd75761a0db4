# Compute-and-memoise endpoint and bearer gate, modelled in Dafny

This project models the two serverless handlers of the storefront's `api/` directory:

- `api/public-heavy.js`: a demonstration endpoint that runs a CPU-bound
  integer workload and memoises it in a process-wide `Map`. The query
  `mode=before` selects the unoptimised workload (`heavyCompute`: seed an
  array, then repeatedly map and sort it). Any other mode selects the optimised
  one (`optimizedCompute`: a double loop with a modular accumulator). Only the
  optimised path reads and writes the cache, under the key `mode:size:rounds`.
- `api/private-user.js`: a probe endpoint. It answers 401 unless the
  `Authorization` header starts with `Bearer `. Otherwise it answers 200 with
  a fixed demo user. Every response carries a private, non-storable
  Cache-Control header.

The handler becomes a pure step function
`PublicHeavy.Handle(cache, params, elapsed) -> (cache', response)`. The
cache is a `map<string, int>`. `PublicHeavy.HandleQuery` runs it on the raw
query strings. The two `Date.now()` readings are parameters: the elapsed
milliseconds `elapsed`, and the `now` timestamp of the private endpoint.

Files and modules:

| file | module | contents |
|---|---|---|
| wrappers.dfy | `Wrappers` | `Option` |
| decimal.dfy | `Decimal` | reading and printing decimal numerals |
| sequences.dfy | `Sequences` | element-wise map, ascending sort, permutation lemmas |
| workload.dfy | `Workload` | `heavyCompute` and `optimizedCompute` with reference definitions |
| query.dfy | `HeavyQuery` | mode/size/rounds normalisation, the cache key and its decoder |
| public_heavy.dfy | `PublicHeavy` | the request step over the cache and its invariants |
| private_user.dfy | `PrivateUser` | the bearer-prefix gate |

Behaviour of the code worth stating up front:

- The cache has no expiry: the `Map` never removes an entry.
- Both modes set `public, s-maxage=60, stale-while-revalidate=120`.
- `heavyCompute` only maps and sorts; it keeps no checksum and serialises nothing.
- `optimizedCompute` runs over the full `size` and `rounds`.

## Model

| member | source | states |
|---|---|---|
| Decimal.Show | api/public-heavy.js:52 | a natural prints as a non-empty digit string with no leading zero ("0" for zero), as the template literal prints a count |
| Decimal.ValueOf | api/public-heavy.js:50-51 | `Number` on a digit string: an `n`-digit numeral is worth less than `10^n` |
| Decimal.ValueOfShow | api/public-heavy.js:50-52 | reading back a printed count gives the count: `Number` undoes the printing |
| Decimal.ShowInjective | api/public-heavy.js:52 | distinct counts print as distinct text |
| Sequences.MapSeq | api/public-heavy.js:30 | `map` keeps the length and puts `f(s[i])` at every position `i` |
| Sequences.MapPreservesPermutation | api/public-heavy.js:30 | mapping two rearrangements of the same elements gives two rearrangements of the same elements |
| Sequences.Insert | api/public-heavy.js:30 | inserting into an ascending sequence keeps it ascending and adds exactly one copy of the element |
| Sequences.InsertionSort | api/public-heavy.js:30 | insertion sort yields an ascending rearrangement of its input |
| Sequences.Sort | api/public-heavy.js:30 | `sort((a, b) => a - b)` yields an ascending sequence with exactly the input's elements |
| Sequences.InsertionSortIsSort | api/public-heavy.js:30 | insertion sort and the sort specification agree on every input |
| Sequences.SortedPermutationsEqual | api/public-heavy.js:30 | two ascending sequences with the same elements are equal, so the sort result depends only on the contents |
| Workload.InitialSeq | api/public-heavy.js:27 | the seed array has `size` elements and element `i` is `(i*17) % 997` |
| Workload.Round | api/public-heavy.js:30 | one loop iteration yields an ascending array holding the elements mapped by `(x*13+7) % 1009` |
| Workload.Rounds | api/public-heavy.js:29-31 | the loop keeps the array's length and leaves it ascending after at least one round |
| Workload.RoundKeepsContents | api/public-heavy.js:29-31 | one more round over any rearrangement of the k-1-fold transform holds the k-fold transform's elements |
| Workload.RoundsIsPermutationOfTransform | api/public-heavy.js:29-31 | after `k` rounds the array holds exactly the element-wise `k`-fold transform of the seed array; sorting never changes contents |
| Workload.LeastOfRounds | api/public-heavy.js:29-33 | element 0 of the final array is the least element of the `k`-fold transform |
| Workload.HeavyCompute | api/public-heavy.js:26-34 | the answer is `undefined` exactly when `size` is 0; otherwise it is the least `k`-fold transform of `(i*17) % 997` over `i < size` |
| Workload.HeavyComputeRange | api/public-heavy.js:26-34 | with `size >= 1` and `rounds >= 1` the answer lies in `[0, 1009)` |
| Workload.HeavyComputeNoRounds | api/public-heavy.js:27-33 | with `size >= 1` and no rounds the answer is 0 |
| Workload.InnerLoop | api/public-heavy.js:40-42 | the inner loop keeps the accumulator below 1000003 and leaves it alone when there is nothing left to add |
| Workload.OuterLoop | api/public-heavy.js:39-43 | the outer loop keeps the accumulator below 1000003 and leaves it alone when no round is left |
| Workload.InnerLoopSum | api/public-heavy.js:40-42 | the inner loop leaves `(base + Σ_{i<size} (i*13+r) % 1009) mod 1000003` in the accumulator |
| Workload.OuterLoopSum | api/public-heavy.js:39-43 | the outer loop leaves the double sum over all rounds, reduced mod 1000003 |
| Workload.OptimizedCompute | api/public-heavy.js:36-46 | the answer is `(Σ_{r<rounds} Σ_{i<size} (i*13+r) % 1009) mod 1000003` and lies in `[0, 1000003)` |
| Workload.OptimizedComputeEmpty | api/public-heavy.js:36-46 | with `size = 0` or `rounds = 0` the answer is 0 |
| HeavyQuery.ParseMode | api/public-heavy.js:49 | the mode is `before` if and only if the query's `mode` is exactly the text `before` |
| HeavyQuery.ParseModeName | api/public-heavy.js:49 | each mode's name reads back as that mode |
| HeavyQuery.ParseCount | api/public-heavy.js:50-51 | a missing or empty parameter takes the default, a digit string takes its decimal value, and any other text is outside the model |
| HeavyQuery.ParseCountShow | api/public-heavy.js:50-52 | a count printed as in the cache key parses back to itself |
| HeavyQuery.Normalise | api/public-heavy.js:49-51 | the parameters exist exactly when both counts parse; the mode and counts are the parsed ones |
| HeavyQuery.NormaliseEmptyQuery | api/public-heavy.js:49-51 | a query without parameters means `after`, size 30000, 80 rounds |
| HeavyQuery.CacheKey | api/public-heavy.js:52 | the key `mode:size:rounds` decodes back to the parameters that built it |
| HeavyQuery.DecodeJoinedKey | api/public-heavy.js:52 | a mode name and two printed counts joined with `:` decode back to that mode and those counts |
| HeavyQuery.CacheKeyInjective | api/public-heavy.js:52 | distinct (mode, size, rounds) triples get distinct cache keys |
| PublicHeavy.Handle | api/public-heavy.js:48-69 | always 200 with the public header. An `after` hit returns the stored value with no duration and leaves the cache unchanged. An `after` miss returns the double sum mod 1000003 with a duration and stores it under its key, leaving other keys as they were. `before` leaves the cache unchanged and returns the least transformed value, or `undefined` for size 0 |
| PublicHeavy.HandleQuery | api/public-heavy.js:48-68 | a raw query gets an answer exactly when both counts parse, and the answer is the step on the parsed mode, size and rounds |
| PublicHeavy.EmptyQueryIsDefaultRequest | api/public-heavy.js:49-51 | a request with no parameters is answered as the `after` request on 30000 elements and 80 rounds |
| PublicHeavy.EmptyCacheSound | api/public-heavy.js:24 | the fresh `Map` satisfies the cache invariant |
| PublicHeavy.HandlePreservesSoundness | api/public-heavy.js:54-65 | every request keeps the invariant: each entry is an `after` key holding `optimizedCompute` of the parameters it encodes |
| PublicHeavy.CachedResultIsFresh | api/public-heavy.js:54-65 | under the invariant, an `after` request answers `optimizedCompute(size, rounds)` whether it hits or misses |
| PublicHeavy.RepeatedRequestHits | api/public-heavy.js:54-68 | repeating an `after` request gets `cached = true` with the first result and no duration, and leaves the cache as the first request left it |
| PublicHeavy.BeforeIgnoresCache | api/public-heavy.js:54-68 | a `before` answer does not depend on the cache contents |
| PrivateUser.StartsWith | api/private-user.js:3 | `startsWith` holds exactly when the header is at least as long as the prefix and agrees with it character by character |
| PrivateUser.Handle | api/private-user.js:1-16 | the header is always `private, no-store, max-age=0`. The status is 401 with `{error: "Unauthorized"}` if and only if the header (empty when missing) does not start with `Bearer `. Otherwise it is 200 with `demo-user`, `demo@example.com` and the clock reading |
| PrivateUser.AnyTokenAccepted | api/private-user.js:3-15 | `Bearer ` followed by any token, including none, gets 200 |
| PrivateUser.AcceptedHeaderHasPrefix | api/private-user.js:2-3 | every accepted header is present and is `Bearer ` followed by the rest of the header |
| PrivateUser.PrefixIsExact | api/private-user.js:2-9 | a missing or empty header, `bearer x`, `Bearer` and `Bearerx` all get 401 |

## Left out

- Profiling-agent start-up (api/public-heavy.js:1-22): it calls an external library and reads environment variables once per process. It has no local logic.
- Wall-clock readings: `durationMs` and `ts` come from `Date.now()`. They enter the step functions as parameters.
- `Number` coercion of non-decimal text: `HandleQuery` returns `None` for whitespace, signs, decimals, exponents, hexadecimal and `NaN`-producing text. The source coerces such text with `Number`: `" 5"`, `"+5"`, `"1e3"` and `"0x10"` become 5, 5, 1000 and 16 and run the ordinary workload under keys like `after:1000:80`, while `NaN`, negatives and fractions give empty or irregular loops. None of these inputs is covered.
- Repeated query parameters: an array-valued `mode`, `size` or `rounds` is not modelled. Each parameter is absent or one string.
- Numeric width: counts are unbounded naturals. JavaScript numbers round above 2^53, and `Array.from` throws for lengths above 2^32-1. Neither case is modelled.
- The sort algorithm: `Sequences.Sort` is the unique ascending rearrangement. This is what the engine's sort returns for this comparator, whatever algorithm it uses.
- HTTP plumbing: the JSON body is a datatype with `Option` for the missing `durationMs` and the `undefined` result. `res.setHeader` and `res.status` are fields of the response.
- Concurrency and multiple instances: each process has its own cache, and requests run one at a time. The step function models one process.
- CPU cost and latency: they are what the two modes contrast, and no equivalence between the two modes' results is stated.
