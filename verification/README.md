# Profile-statistics cache: fallback store and freshness rules

This project models the data-access layer of a profile-views service
(`src/services/mongodb.service.ts`). The layer reads and writes statistics for
three kinds of user: LeetCode (coding practice), GitHub (code hosting) and CSDN
(blog). When the MongoDB store is unreachable it falls back to an in-process
`memoryCache`. The model covers the logic in that glue code:

- the freshness decision (`needsFetch`);
- the fallback cache as a value of three maps, with the three fallback writes as
  pure functions over it;
- the read-path branching on the connection flag sampled before `connectDB()`;
- the quirks as the code has them.

Time is integer milliseconds. The clock reading `now` is a parameter. So are the
connection probe's answer (`readyAtProbe`), the store's `findOne` answer
(`StoreReply`: found, not found, or failed) and the store's upsert answer
(`StoreWrite`). A JavaScript `Date` read from a record is `At(ms)` or `Invalid`.
An invalid date has a NaN `getTime()`, every comparison with it is false, and so
a record with an invalid date always needs a fetch. JavaScript truthiness of an
optional string (`undefined` and `""` are falsy) is `Truthy`.

Modules:

- `Freshness`: the store rule (`elapsed ms / 1000 < ttl`) and the LeetCode fallback
  rule (`elapsed ms / 3 600 000 < 24`), each proved equal to the source's
  real-division form.
- `Records`: the record kinds, `MemoryCache` and the result shapes.
- `Connection`: `connectDB`.
- `LeetCodeAccessor`, `GitHubAccessor`, `CSDNAccessor`: one module per record kind.
- `FallbackStore`: sequences of fallback writes and what they preserve.
- `Scenarios`: cross-call behaviour and worked examples.

Where the code's behaviour differs from what its comments or its other branch
suggest, the model follows the code:

- The backend of a read is chosen by the probe taken before the reconnect
  attempt. A read that reconnects still serves the fallback path.
- A LeetCode fallback write stores the payload verbatim. It does not reset
  `lastUpdated`; only the store branch does (line 91).
- The LeetCode fallback read ignores the caller's TTL and uses a fixed 24-hour
  window. The store read uses the TTL in seconds.
- The CSDN fallback is write-only. A CSDN read while disconnected always returns
  no data and `needsFetch = true`.
- The GitHub read makes no freshness decision.
- Writes sample the connection flag but never attempt a reconnect.
- In the CSDN merge, a supplied empty `username` overwrites the key-derived
  default. The `username || userId` default only applies while the record is
  being created, and the spread then overwrites it.

## Model

| member | source | states |
|---|---|---|
| Freshness.StoreFresh | src/services/mongodb.service.ts:53-60 | a stored record is fresh iff its date is valid and elapsed ms / 1000 < TTL in seconds, with the division taken exactly |
| Freshness.FallbackFresh | src/services/mongodb.service.ts:66-73 | a fallback LeetCode record is fresh iff its date is valid and elapsed ms / 3 600 000 < 24, which is the same as fewer than 86 400 000 ms |
| Freshness.StoreBoundaryIsStale | src/services/mongodb.service.ts:56-58 | the comparison is strict: exactly TTL seconds after the update the record is stale, and one millisecond earlier it is fresh |
| Freshness.StoreStalenessPersists | src/services/mongodb.service.ts:56-58 | once stale under the TTL rule, a record stays stale as `now` grows |
| Freshness.FallbackStalenessPersists | src/services/mongodb.service.ts:69-71 | once stale under the 24-hour rule, a record stays stale as `now` grows |
| Freshness.StoreAndFallbackRulesDiverge | src/services/mongodb.service.ts:53-74 | the two LeetCode branches disagree: a one-hour TTL record 2 h old is stale in the store but fresh in the fallback, and a two-day TTL record 25 h old is the reverse |
| Freshness.FallbackIsStoreRuleForOneDay | src/services/mongodb.service.ts:56-71 | the fallback rule is exactly the store rule with a TTL of 86 400 seconds |
| Freshness.InvalidDateNeverFresh | src/services/mongodb.service.ts:54-58 | a record whose date is invalid (NaN) is never fresh under either rule |
| Records.UpsertSize | src/services/mongodb.service.ts:99-101 | a keyed write never duplicates: the map grows by one entry exactly when the key was new |
| Connection.ConnectDB | src/services/mongodb.service.ts:15-30 | with no URI or an empty one it fails without attempting; otherwise it succeeds exactly when the handshake does |
| Connection.NoUriMeansFallbackForever | src/services/mongodb.service.ts:18-21 | without a configured URI (absent or empty), the state after a read is the probed state, so a disconnected layer stays disconnected |
| LeetCodeAccessor.GetLeetCodeUserData | src/services/mongodb.service.ts:33-82 | the probe picks the backend. No data or an error gives `needsFetch`. A store miss gives no data, and a query failure gives no data and returns the query's own error. A store hit is returned and judged by the TTL in seconds. A fallback hit is returned and judged by the 24-hour window |
| LeetCodeAccessor.UpdateUserData | src/services/mongodb.service.ts:85-107 | connected, the result is the store's acknowledgement and the cache is unchanged. Disconnected, the write succeeds, stores the payload verbatim under the key, and leaves every other entry and kind alone |
| LeetCodeAccessor.StoreReadIgnoresCache | src/services/mongodb.service.ts:48-61 | when the probe finds the store ready, the fallback cache has no effect on the read |
| LeetCodeAccessor.FallbackReadIgnoresStoreAndTtl | src/services/mongodb.service.ts:62-75 | when the probe finds the store not ready, neither the store's answer nor the caller's TTL affects the read |
| LeetCodeAccessor.FallbackWriteThenRead | src/services/mongodb.service.ts:64-100 | a fallback read after a fallback write returns the payload, and it is fresh iff the payload's own `lastUpdated` is within 24 h |
| LeetCodeAccessor.StalePayloadStaysStale | src/services/mongodb.service.ts:91-100 | a payload stamped 25 h ago and written to the fallback is stale on an immediate read, because the fallback write does not refresh `lastUpdated` |
| LeetCodeAccessor.UpdateIdempotent | src/services/mongodb.service.ts:85-107 | writing the same payload twice gives the same result and cache as writing it once |
| GitHubAccessor.GetGitHubUserData | src/services/mongodb.service.ts:110-145 | the probe picks the backend, and a query failure gives no data and returns the query's own error. A store hit is returned as is. A fallback hit is returned as stored, with a missing `avatarUpdatedAt` defaulted to `now` |
| GitHubAccessor.UpdateRequest | src/services/mongodb.service.ts:153-162 | the store request increments the visit count by 1 and sets both timestamps to `now`. It sets the avatar URL and its time only for a truthy URL |
| GitHubAccessor.UpdateGitHubUserData | src/services/mongodb.service.ts:148-196 | connected, the result is the store's acknowledgement and the cache is unchanged. Disconnected, the record is created at 0 if absent and incremented by one, and both timestamps become `now`. The avatar fields change only for a truthy URL. Only this key changes |
| GitHubAccessor.FallbackAgreesWithStoreRequest | src/services/mongodb.service.ts:153-189 | the fallback update does to a cached record what the store request asks of the document: the same increment, the same fields set, the unset avatar fields kept |
| GitHubAccessor.VisitsAccumulate | src/services/mongodb.service.ts:172-183 | N sequential fallback visits add exactly N to the count. The last visit's time is `lastVisited`. No other user or kind changes |
| GitHubAccessor.VisitsOnFreshKey | src/services/mongodb.service.ts:172-181 | N sequential fallback visits on a new key give `visitCount == N` |
| CSDNAccessor.GetCSDNUserData | src/services/mongodb.service.ts:199-231 | a store hit is returned and judged by the TTL in seconds, and misses give no data with `needsFetch`, and a query failure also returns the query's own error. When not ready at the probe, the result is always no data, `needsFetch`, and no error |
| CSDNAccessor.WithUserId | src/services/mongodb.service.ts:239-242 | the key is forced in as `userId`, and no other field of the partial update changes |
| CSDNAccessor.UpdateCSDNUserData | src/services/mongodb.service.ts:234-280 | connected, the result is the store's acknowledgement and the cache is unchanged. Disconnected, every supplied field overwrites and every other field keeps its prior value, or 0 (username: the key) for a new record. `userId` is the key and `lastUpdated` is `now`. Only this key changes |
| CSDNAccessor.SequentialMergesCompose | src/services/mongodb.service.ts:267-272 | two fallback merges on one key equal one merge of the overlaid partial update, stamped with the second time |
| CSDNAccessor.UpdateIdempotent | src/services/mongodb.service.ts:252-272 | repeating a partial update at the same time leaves the result and cache unchanged |
| CSDNAccessor.FallbackWritesAreNeverRead | src/services/mongodb.service.ts:207-226 | after a fallback write, the key is in the cache, yet a disconnected read returns no data and `needsFetch` |
| CSDNAccessor.ReadIgnoresCache | src/services/mongodb.service.ts:207-226 | the read never depends on the fallback cache, in either branch |
| FallbackStore.WriteTouchesOnlyItsEntry | src/services/mongodb.service.ts:98-273 | every fallback write changes one entry of its own kind under its own key and leaves the other two kinds unchanged |
| FallbackStore.WriteGrowsByOneIffNew | src/services/mongodb.service.ts:98-273 | every fallback write grows its own kind's map by one entry exactly when its key was new and never duplicates a record, and the other two maps keep their size |
| FallbackStore.WritesKeepAvatarStamps | src/services/mongodb.service.ts:172-189 | any sequence of fallback writes keeps an avatar timestamp on every GitHub record |
| FallbackStore.FallbackGitHubReadIsExact | src/services/mongodb.service.ts:128-134 | in a cache built by fallback writes, the read's avatar-time default never applies, so the read returns exactly the stored record |
| Scenarios.ProbeDecidesBackend | src/services/mongodb.service.ts:40-48 | a LeetCode read after a failed probe serves the fallback even when its reconnect succeeds. The next read, now ready, serves the store's answer |
| Scenarios.ProbeDecidesBackendForOtherKinds | src/services/mongodb.service.ts:116-126 | after a failed probe and a successful reconnect, the GitHub read still serves the fallback and the CSDN read still returns nothing |
| Scenarios.AliceScenario | src/services/mongodb.service.ts:64-100 | disconnected with a one-hour TTL, "alice" first needs a fetch. After writing a profile stamped now, she is served from the fallback without one |
| Scenarios.BobScenario | src/services/mongodb.service.ts:172-189 | a first visit without an avatar gives one visit and no URL. A second visit with "x" gives two visits, avatar "x" and the second time |
| Scenarios.EmptyAvatarKeepsPrevious | src/services/mongodb.service.ts:186-189 | an empty avatar URL is falsy: the previous avatar and its time are kept while the visit time advances |
| Scenarios.PartialMergeScenario | src/services/mongodb.service.ts:252-272 | `{followers: 5}` then `{likes: 10}` on a new key gives both values, the second write's time, the key as username, and zeros elsewhere |
| Scenarios.EmptyUsernameOverwritesDefault | src/services/mongodb.service.ts:253-272 | a supplied empty username overwrites the key-derived default on a new record |

## Left out

- The MongoDB driver (mongoose): `connect`, `readyState`, and what `findOne` and
  `findOneAndUpdate` do with `$inc`, `$set`, upsert, `new`, `setDefaultsOnInsert`
  and the `expires` TTL index. This is a foreign library. Its answers are
  parameters, and a connected write changes no state of the model.
- The documents sent to the store by the LeetCode and CSDN writes, which are
  `{...userData, lastUpdated}` and `{...userData, userId}`. Only their outcome is
  modelled. The CSDN document's `userId` forcing is `WithUserId`, and the GitHub
  request is `UpdateRequest`.
- "Data written while disconnected is absent from the store after a reconnect":
  the store's contents are not modelled.
- Logging (`console`) is left out. `try`/`catch` is modelled only where something
  can fail: the store query gives an error result, and the store write gives
  `false`. The fallback branches cannot throw.
- The wall clock: `new Date()` is the parameter `now`. The CSDN write reads the
  clock twice (creation, then merge). The model uses one reading, because the
  merge overwrites the first.
- Floating point: elapsed time is compared exactly. The TTL is an integer number
  of seconds, so fractional TTLs and double rounding are not modelled.
- A CSDN partial update whose field is present but `undefined`: a spread copies
  such a field, and the model treats every field as either supplied or absent.
- The LeetCode profile's statistics fields are carried as an opaque map. The
  record type definitions, `dbConfig` and the models module are not part of
  this model.
- Asynchronous interleaving, including lost increments in the fallback visit
  counter under concurrent calls: the model is sequential.
- The connection state after a read is assumed to be the probe's answer when
  the store was ready, and otherwise the result of the one `connectDB` call
  (`ReadyAfterRead`). The driver's own `readyState` transitions are not modelled.
- GetLeetCodeUserData: the cache is a map, not a plain JavaScript object. A key
  that names an inherited `Object.prototype` property (such as `"constructor"`)
  finds that property in the source and returns it as `userData`; the model
  returns no data. The fallback also keeps and returns the caller's object by
  reference, and the model copies it by value.
- GetGitHubUserData: for a key that names an inherited `Object.prototype`
  property (such as `"toString"`), the source returns `{avatarUpdatedAt: now}`;
  the model returns no data.
- UpdateGitHubUserData: the cache is a map, not a plain JavaScript object. For a
  key that names an inherited `Object.prototype` property (`constructor`,
  `toString`, `valueOf`, `hasOwnProperty`, ...), the source finds that truthy
  inherited value at line 172, creates no record, and sets `visitCount` to NaN
  and writes the timestamps on that shared object. For `"__proto__"` it writes
  them onto `Object.prototype`, so onto every object of the process. The model
  creates an ordinary record with one visit.
- VisitsOnFreshKey: for an inherited key name the source's count is NaN, not N,
  for the reason above. The model's "N visits give N" holds in the source only
  for keys that are not inherited property names.
- UpdateCSDNUserData: for an inherited key name (such as `"constructor"`) the
  source skips the zeroed record at line 252. The record merged at lines 268-272
  then has no counters and no default username. The model's zeros and
  key-as-username default hold only for other keys.
- UpdateUserData: for the key `"__proto__"` the assignment at line 100 calls the
  prototype setter, not a store. No entry is created, and every field of the
  payload becomes readable as an inherited key, so a later
  `getLeetCodeUserData("username")` returns the payload's `username`. The
  model's frame ("only this key changes") holds only for keys that are not
  `"__proto__"`.
- VisitsAccumulate: `visitCount` is a JavaScript number, so `+= 1` stops changing
  it at 2^53. The model's counters are unbounded, so "exactly N" holds in the
  source only below that bound.
