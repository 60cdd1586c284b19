# gadm API access-token cache, in Dafny

This project models the request-limiting core of the gadm API server and
proves properties of it.

- **Per-token access-token cache.** A map from bearer token to a record. Each
  record holds the token's creation instant and a sliding window of recent hit
  instants. A hit is refused in three cases: the token has expired, the lookup
  of an unknown token fails, or ten hits already lie within the last second.
  An unknown token is looked up once and then stored; a token that is already
  expired is never stored.
- **Global limiter on token creation.** A request passes only when a minimum
  interval has elapsed since the last request that passed.
- **Small helpers:**
  - bearer-token extraction from the `Authorization` header;
  - the `gid_k` to `gid-k` filter-parameter mapping, first-match filter
    selection and the next-page query parameters;
  - the `json_build_object` SQL text templates;
  - `Clamp`, `Min`, `Max` and `ArrayToStrings`.

Files:

- `rate_info.dfy` (module `RateInfo`): the record.
  - `TokenRateInfo` is a class whose `HandleHit` method updates `hitHistory` in place, as the Go method does.
  - `HandleHit` is proved against the function `Hit`, and the lemmas state what `Hit` guarantees.
- `rate_info_runs.dfy` (module `RateInfoRuns`): sequences of hits on one record.
  - The sliding-window promise for any run: within RATE_LIMIT_DURATION before any instant, at most NUM_HITS_PER_RATE_LIMIT hits succeed.
  - The two rate-limit scenarios of the record's tests, for every creation instant and clock reading.
- `token_cache.dfy` (module `Cache`): the cache.
  - `TokenCache` is a class over a map of `TokenRateInfo` objects.
  - The methods that hit a record (`HitStored`, `AddRecord`, `CompleteMiss`, `HandleHitForToken`) are proved against functions on the map's value view, `Records()`.
  - `SetIfNotExpired` is stated on the map of record objects itself, since it stores the object it is given.
  - The lookup function is an object, `Lookup`, that counts its calls; `Lookup.Call` is stated on its fixed `answer`.
- `token_cache_props.dfy` (module `CacheProps`): properties of the cache's value-level specification.
- `global_rate_limiter.dfy`, `auth_token.dfy`, `url_utils.dfy`, `sql_builder.dfy` and `utils.dfy`: the smaller pieces.
- `wrappers.dfy`: `Option` and `Result`.

Time is an integer count of nanoseconds, and the clock reading `now` is a
parameter. A token's lifetime is three calendar months: `AddDate(0, 3, 0)`. The
model leaves that arithmetic abstract as the parameter `addLifetime`, which maps
a creation instant to the end of the lifetime. A token is expired when
`addLifetime(createdAt) < now`.

The `empty_token` branch of `GetAuthTokenFromRequest` cannot be reached. The
prefix test already requires the header to be longer than `"Bearer "`.
`AuthToken.GetAuthTokenFromHeader` states this as `r != Failure(EmptyToken)`.

The record's test of spaced hits waits `time.Sleep(RATE_LIMIT_DURATION / 10)`
between hits. With gaps of exactly a tenth of the window the eleventh hit would
be refused (`RateInfoRuns.ExactTenthSpacingRefusesEleventh`), so the test
relies on the real gaps being strictly longer than the sleep's argument;
`RateInfoRuns.SpacedHitsAllSucceed` proves that strictly longer gaps let every
hit through.

## Model

| member | source | states |
|---|---|---|
| RateInfo.StaleCount | gadm-api/access-token-cache/token-rate-info.go:45-52 | the trimming loop skips exactly the leading entries older than RATE_LIMIT_DURATION and stops at the first entry that is not |
| RateInfo.TokenRateInfo.constructor | gadm-api/access-token-cache/token-rate-info.go:28-34 | a new record has the given creation instant (a constant, never reassigned) and an empty history |
| RateInfo.TokenRateInfo.HandleHit | gadm-api/access-token-cache/token-rate-info.go:36-61 | the loop-and-reslice implementation returns the outcome and leaves the history that `Hit` prescribes for the old history |
| RateInfo.HitWhenExpired | gadm-api/access-token-cache/token-rate-info.go:41-43 | an expired record refuses the hit with TokenExpired and its history is unchanged |
| RateInfo.TrimDropsOnlyStalePrefix | gadm-api/access-token-cache/token-rate-info.go:45-53 | trimming keeps a suffix, every dropped entry is strictly older than the window, and the first kept entry is at most RATE_LIMIT_DURATION old (age equal to the window is kept) |
| RateInfo.HitRejectsWhenWindowFull | gadm-api/access-token-cache/token-rate-info.go:53-57 | with ten or more entries left after trimming the hit is refused with RateLimitExceeded and the history is the trimmed one, without `now` |
| RateInfo.HitAppendsNow | gadm-api/access-token-cache/token-rate-info.go:59-60 | otherwise the hit succeeds and exactly `now` is appended at the end of the trimmed history, which grows by one |
| RateInfo.HitKeepsCap | gadm-api/access-token-cache/token-rate-info.go:55-60 | a history of at most NUM_HITS_PER_RATE_LIMIT entries stays within that bound after any hit |
| RateInfo.HitKeepsSorted | gadm-api/access-token-cache/token-rate-info.go:45-60 | when `now` is not earlier than any recorded hit, an ascending history stays ascending and bounded by `now` |
| RateInfoRuns.TrimKeepsWindow | gadm-api/access-token-cache/token-rate-info.go:45-53 | trimming at `now` never changes how many entries lie within RATE_LIMIT_DURATION before any later instant `t` |
| RateInfoRuns.HitWindow | gadm-api/access-token-cache/token-rate-info.go:36-61 | a hit at `now <= t` adds one entry to the window at `t` exactly when it succeeds and `now` lies inside that window, and none otherwise |
| RateInfoRuns.ReplayWindow | gadm-api/access-token-cache/token-rate-info.go:36-61 | over any run of hits no later than `t`, the final window at `t` holds the starting entries inside it plus exactly the successful hits inside it |
| RateInfoRuns.ReplayKeepsCap | gadm-api/access-token-cache/token-rate-info.go:53-60 | a history within NUM_HITS_PER_RATE_LIMIT stays within it over any run of hits |
| RateInfoRuns.WindowAdmitsAtMostCap | gadm-api/access-token-cache/token-rate-info.go:36-61 | the sliding window: for a record within the cap and any instant `t` at or after every hit of a run, the successful hits within RATE_LIMIT_DURATION before `t` plus the stored entries in that window number at most NUM_HITS_PER_RATE_LIMIT |
| RateInfoRuns.ReplayPrefix | gadm-api/access-token-cache/token-rate-info.go:36-61 | the first `n` outcomes of a run are the outcomes of its first `n` hits alone |
| RateInfoRuns.NewRecordWindowBound | gadm-api/access-token-cache/token-rate-info_test.go:73-97 | on a new record, among the first `n` hits of any run, at most NUM_HITS_PER_RATE_LIMIT of those within RATE_LIMIT_DURATION before any `t` at or after all of them succeed |
| RateInfoRuns.SameInstantBurst | gadm-api/access-token-cache/token-rate-info_test.go:73-97 | starting from k hits at one instant, further hits at that instant pass until ten are in the window and every later one is refused |
| RateInfoRuns.TenHitsThenRateLimited | gadm-api/access-token-cache/token-rate-info_test.go:73-97 | on a fresh unexpired record, eleven hits at one instant give ten successes and then RateLimitExceeded |
| RateInfoRuns.SpacedWindowNotFull | gadm-api/access-token-cache/token-rate-info.go:45-57 | when successive hits are more than a tenth of the window apart, fewer than ten entries survive trimming at any hit |
| RateInfoRuns.SpacedHitsAllSucceed | gadm-api/access-token-cache/token-rate-info_test.go:99-115 | any number of unexpired hits, each more than RATE_LIMIT_DURATION / 10 after the previous, all succeed |
| RateInfoRuns.ExactTenthSpacingRefusesEleventh | gadm-api/access-token-cache/token-rate-info.go:47 | ten hits exactly a tenth of the window apart leave the oldest one in the window (age equal to the duration), so the eleventh hit is refused |
| Cache.TokenCache.constructor | gadm-api/access-token-cache/token-cache.go:14-18 | a new cache has an empty map |
| Cache.TokenCache.SetIfNotExpired | gadm-api/access-token-cache/token-cache.go:20-27 | an expired record is refused with TokenExpired and the map is unchanged; otherwise the record is stored under the token |
| Cache.TokenCache.HitStored | gadm-api/access-token-cache/token-cache.go:30-34 | a stored token's record handles the hit; only that record changes, and every window stays within the cap |
| Cache.TokenCache.AddRecord | gadm-api/access-token-cache/token-cache.go:48-53 | for an absent token, a fresh record with the looked-up creation instant is stored unless expired, and takes its first hit; otherwise nothing changes |
| Cache.TokenCache.CompleteMiss | gadm-api/access-token-cache/token-cache.go:42-53 | after the lookup, a token stored in the meantime is handled by its existing record (object kept, looked-up instant discarded); otherwise AddRecord's behaviour; existing keys keep their objects |
| Cache.TokenCache.HandleHitForToken | gadm-api/access-token-cache/token-cache.go:29-54 | the whole call follows HandleHitSpec; the lookup is called exactly once when the token is absent and never when present; no key is removed and no stored object replaced; any new record object is fresh |
| Cache.Lookup.Call | gadm-api/access-token-cache/token-cache.go:37 | a call returns the lookup's answer for the token and is counted |
| CacheProps.HandleHitOnlyGrows | gadm-api/access-token-cache/token-cache.go:42-53 | the map only grows, by at most the requested token; a stored token keeps its creation instant and other tokens' records are untouched |
| CacheProps.StoredTokenIgnoresLookup | gadm-api/access-token-cache/token-cache.go:30-34 | for a stored token the outcome is its record's hit outcome, whatever the lookup would answer |
| CacheProps.LookupErrorPassedThrough | gadm-api/access-token-cache/token-cache.go:37-40 | an absent token whose lookup fails gets that exact error back and the map is unchanged |
| CacheProps.LookupFailureNotCached | gadm-api/access-token-cache/token-cache.go:37-40 | after a failed lookup the next call for the token behaves as if the first had not happened |
| CacheProps.ExpiredTokenNotInserted | gadm-api/access-token-cache/token-cache.go:48-51 | an absent token whose looked-up creation instant is expired is refused with TokenExpired and nothing is inserted |
| CacheProps.FirstHitRegistered | gadm-api/access-token-cache/token-cache.go:48-53 | an absent unexpired token is inserted with its looked-up creation instant and a history of exactly `[now]`, and the call succeeds |
| CacheProps.RaceKeepsStoredRecord | gadm-api/access-token-cache/token-cache.go:42-46 | when the re-probe finds the token, the existing record handles the hit and its creation instant is kept |
| CacheProps.HandleHitKeepsCap | gadm-api/access-token-cache/token-cache.go:29-54 | every window in the map stays within NUM_HITS_PER_RATE_LIMIT after any call |
| CacheProps.ReplayStoredToken | gadm-api/access-token-cache/token-cache.go:30-34 | calls for a stored token at any sequence of instants never call the lookup, and their outcomes are exactly those of that record's window replayed over the same instants |
| CacheProps.NewTokenReplay | gadm-api/access-token-cache/token-cache.go:29-54 | calls for a new token whose looked-up creation instant is unexpired at the first call make exactly one lookup, and their outcomes are those of a new record's window replayed over the same instants |
| CacheProps.StoredTokenWindowBound | gadm-api/access-token-cache/token-cache.go:29-54 | for a stored token within the cap and any instant `t` at or after every call, the calls that succeed within RATE_LIMIT_DURATION before `t` plus the stored hits in that window number at most NUM_HITS_PER_RATE_LIMIT |
| CacheProps.NewTokenWindowBound | gadm-api/access-token-cache/token-cache.go:29-54 | for a new token, of the first `n` calls at most NUM_HITS_PER_RATE_LIMIT of those within RATE_LIMIT_DURATION before any `t` at or after all of them succeed |
| CacheProps.NewTokenBurst | gadm-api/access-token-cache/token-cache.go:29-54 | n calls at one instant with a new unexpired token: one lookup in total, the first ten pass and every later one is refused |
| GlobalLimiter.GlobalRateLimiter.constructor | gadm-api/handlers/create-token-rate-limiter.go:14-18 | the interval is fixed at construction (a constant) and the last request starts at the zero time |
| GlobalLimiter.GlobalRateLimiter.IsAllowed | gadm-api/handlers/create-token-rate-limiter.go:20-32 | a request is allowed exactly when no request passed yet or at least `interval` (equality included) has elapsed; an allowed one becomes the last request, a refused one changes nothing |
| GlobalLimiter.AdmittedAreSpaced | gadm-api/handlers/create-token-rate-limiter.go:20-32 | over any sequence of requests, consecutive admitted ones are at least `interval` apart, and the first is at least `interval` after an earlier admitted one |
| GlobalLimiter.FirstRequestAdmitted | gadm-api/handlers/create-token-rate-limiter.go:26-28 | the first request ever is admitted, whatever the interval |
| AuthToken.GetAuthTokenFromHeader | gadm-api/handlers/auth-token-utils.go:11-33 | missing_token exactly for the empty header; invalid_bearer_format exactly for a non-empty header that is not (longer than "Bearer " and starting with it); on success the non-empty token is the header minus the prefix; empty_token never happens |
| AuthToken.BearerRoundTrip | gadm-api/handlers/auth-token-utils.go:18-25 | "Bearer " followed by any non-empty token reads back as that token |
| AuthToken.MalformedBearerHeaders | gadm-api/handlers/auth-token-utils.go:18-28 | "Bearer " alone and the lower-case "bearer x" are invalid_bearer_format (exact, case-sensitive prefix) |
| UrlUtils.GetFilterUrlQueryParameterForFilterableColumnName | gadm-api/main/url-utils.go:73-90 | succeeds exactly for gid_0 to gid_5, giving gid-0 to gid-5; every other name, the empty one included, is unsupported_filterable_column_name |
| UrlUtils.FilterParameterInjective | gadm-api/main/url-utils.go:73-90 | distinct supported columns map to distinct URL parameters |
| UrlUtils.UnsupportedColumnNames | gadm-api/url-utils.go:23-40 | "", "gid_6", "GID_0" and "gid-0" are rejected as unsupported |
| UrlUtils.GetSqlFilterParamsFromUrl | gadm-api/url-utils.go:42-59 | the result is the first listed supported column whose URL parameter has a non-empty value, with that value; unsupported names are skipped; the empty filter exactly when nothing matches; the value is non-empty exactly when the column is |
| UrlUtils.ExpectIntParamInQuery | gadm-api/url-utils.go:11-21 | the parsed value when the parameter parses; otherwise the first default if one is given, else an invalid-parameter error |
| UrlUtils.GetPaginationParams | gadm-api/main/url-utils.go:28-42 | never fails; page size and start fid are the parsed values, each falling back to -1 |
| UrlUtils.FormatInt | gadm-api/main/url-utils.go:52-55 | `%d` formatting gives a non-empty string with a leading '-' exactly for negative numbers and decimal digits everywhere else |
| UrlUtils.GetNextPageUrlQueryParams | gadm-api/main/url-utils.go:44-71 | succeeds exactly when the filter column is supported, with exactly page-size, start-at and the filter's gid-k parameter, in that order |
| UrlUtils.NextPageWithoutFilterFails | gadm-api/main/url-utils.go:58-69 | as written, a filter with no column (no filter) gives an error instead of next-page parameters |
| UrlUtils.NextPageUrlQueryParamsIntended | gadm-api/main/url-utils.go:44-71 | succeeds exactly when there is no filter or the filter column is supported; the result starts with page-size and start-at, and has a third parameter, the filter's gid-k with the filter value, exactly when there is a filter |
| UrlUtils.IntendedAgreesWhereWrittenSucceeds | gadm-api/main/url-utils.go:44-71 | wherever the code as written succeeds, the intended version gives the same parameters |
| UrlUtils.IntendedNextPageAlwaysSucceeds | gadm-api/main/url-utils.go:44-71 | for every filter GetSqlFilterParamsFromUrl can return, the intended next-page parameters exist and are exactly page-size and start-at, followed by the filter's gid-k parameter with its value exactly when there is a filter |
| SqlBuilder.BuildGeojsonFeaturePropertiesSqlExpression | gadm-api/sql-query-builder-utils.go:28-39 | the loop builds `json_build_object(` followed by one `'c', c` pair per column in input order, separated by ", " with no trailing separator, and `)` |
| SqlBuilder.PropertiesExpressionShape | gadm-api/sql-query-builder-utils.go:28-39 | the expression always begins with `json_build_object(` and ends with `)` |
| SqlBuilder.JoinedPairsAppend | gadm-api/sql-query-builder-utils.go:31-36 | the pairs of two concatenated column lists are the two lists' pairs joined by a single ", " |
| SqlBuilder.JoinedPairsCons | gadm-api/sql-query-builder-utils.go:31-36 | the first column's pair comes first, then ", " and the pairs of the rest |
| SqlBuilder.EmptyPropertiesExpression | gadm-api/sql-query-builder-utils.go:28-39 | no columns give `json_build_object()` |
| SqlBuilder.ThreeColumnPropertiesExpression | gadm-api/endpoint-handlers_test.go:7-16 | fid, gid0, country give `json_build_object('fid', fid, 'gid0', gid0, 'country', country)` |
| SqlBuilder.BuildGeojsonFeatureSqlExpression | gadm-api/sql-query-builder-utils.go:41-56 | a `json_build_object(...)` text containing the geometry column inside `ST_AsGeoJSON(...)::json` and the properties expression verbatim |
| SqlBuilder.BuildGeojsonFeatureCollectionSqlExpression | gadm-api/sql-query-builder-utils.go:58-71 | a `json_build_object(...)` text containing the feature expression inside `json_agg(...)` |
| Utils.Clamp | gadm-api/utils/utils.go:5-13 | below `lo` gives `lo` (checked first, even when lo > hi); with lo <= hi the result lies in [lo, hi] and an in-range value is unchanged; above `hi` gives `hi` |
| Utils.ClampIdempotent | gadm-api/main/utils.go:5-13 | with lo <= hi clamping twice equals clamping once |
| Utils.ClampLowerBoundFirst | gadm-api/utils/utils.go:6-8 | with an empty range a value below `lo` still gives `lo`, which lies above `hi` |
| Utils.Min | gadm-api/main/utils.go:15-20 | the result is one of the arguments and at most both |
| Utils.Max | gadm-api/utils/utils.go:22-27 | the result is one of the arguments and at least both |
| Utils.ArrayToStrings | gadm-api/utils/utils.go:29-35 | one output per argument, in order, each the argument printed with `%s`; a string argument comes out unchanged |

The copies in `gadm-api/main/utils.go` and `gadm-api/url-utils.go` are
identical to the functions in `gadm-api/utils/utils.go` and
`gadm-api/main/url-utils.go`. One member models each pair, and the rows above
cite either copy.

## Left out

- Locking: the `sync.RWMutex` fields, and the concurrent test of `handleHit`. Every method is one atomic step. The claim that the lookup runs at most once per token under a race is about concurrency and cannot be stated here.
- `time.Now()`: the clock reading is the parameter `now`, one reading per call. `handleHit` reads the clock twice, once for trimming and once inside `isExpired`; the model uses one reading for both. `HandleHitForToken` also reads the clock in `SetIfNotExpired` (gadm-api/access-token-cache/token-cache.go:21) before the first `handleHit` (line 53); a token that expires between those readings is stored in Go and then refused, which the single reading per call behind `CacheProps.FirstHitRegistered` and `CacheProps.NewTokenReplay` rules out.
- `isExpired`'s calendar arithmetic (`AddDate(0, 3, 0)`): it is the parameter `addLifetime`. The month-boundary expiry tests need a real calendar and are not modelled.
- `time.Duration` saturation and the wall/monotonic clock distinction are not modelled: instants are unbounded integers.
- The error message constants `TokenExpiredMsg` and `RateLimitExceededMsg` are defined in a file that is not part of this model. The outcomes are the constructors of `RateInfo.Outcome`. The wording of the `fmt.Errorf` messages is not modelled either; `UrlUtils.UrlError` keeps the kind, the parameter or column name, and the inner error as the cause: wrapped with `%w` for `FailedToParseQueryParameter` (gadm-api/main/url-utils.go:31,36), only formatted with `%v` for `FilterQueryParameterUnavailable` (gadm-api/main/url-utils.go:65-67). `InvalidParameter` keeps no cause: Go wraps the `strconv.Atoi` error with `%w` (gadm-api/main/url-utils.go:23), and the model's `atoi` gives no error value.
- `TOKEN_CACHE` and `tokenCreationRateLimiter`, the process-wide instances: the objects are constructed explicitly.
- The lookup function: it is an object whose answer for each token is fixed. A lookup that answers differently from one call to the next is not modelled.
- HTTP handlers, middleware, the logger calls, database access and the migrations tool.
- The squirrel query builders (`buildGeojsonFeatureSqlQuery`, `buildFeatureCollectionSqlQuery`, `getNextFidSqlQuery`), and `getApiUrl`'s `net/url` encoding.
- `strconv.Atoi`: it is the parameter `atoi`, which returns an optional integer.
- UrlUtils.FormatInt: states that the string is non-empty, starts with '-' exactly for a negative number and is otherwise made of decimal digits; it does not state the exact decimal value of `fmt.Sprintf("%d")`, which no property here needs.
- Utils.ArrayToStrings: `%s` on values with a `String()` or `Error()` method prints that method's result. The model covers strings, nil, and other values given with their printed form, which it always renders as `%!s(type=value)`. That is right for scalar kinds but not for composite kinds (slices, arrays, maps, structs, pointers to them), whose elements Go formats one by one (`[a b]`); the only callers pass column-name strings.
- Go measures string length in bytes; the model uses characters. The two agree for the ASCII prefix and names involved.

## Findings

| source | as written | input that shows it | evidently intended | confidence | as-written member | corrected member |
|---|---|---|---|---|---|---|
| gadm-api/main/url-utils.go:58-69 | `getNextPageUrlQueryParams` returns an error whenever the filter column is not gid_0 to gid_5, including the empty column that `getSqlFilterParamsFromUrl` returns when no filter is given; the GeoJSON-lines handler (gadm-api/main/geojsonl-handlers.go:146) calls it to link every page to the next | `SqlFilterParams("", "")` with any page size and start fid | without a filter, the next page carries only page-size and start-at, as the query builder treats the empty column as no filter (gadm-api/main/sql-query-builder-utils.go:165-168) | medium, not executed | UrlUtils.NextPageWithoutFilterFails | UrlUtils.IntendedNextPageAlwaysSucceeds |
