# API-key admission control, modelled in Dafny

This project models the admission-control layer of a FastAPI service. The layer has five parts:

- It issues API keys (`generate_api_key`).
- It grants a key a quota of calls on a named API (`set_api_access`).
- It checks and consumes that quota (`check_api_access`).
- It looks keys up through a process-local cache (`get_api_key`, over `Cache` in `app/core/cache.py`).
- It gates `/restricted-api` in the HTTP middleware (`api_key_middleware`).

The state consists of two tables, `api_keys` and `api_access` (`app/model/acl.py`), and one in-memory map. Every handler is one pure, atomic transition that returns its response together with the new state.

The model has two levels:

- **Tables** (`Acl`, `ApiKeyApi`, `Middleware`). Each table is a sequence of rows in insertion order. The handlers follow the code step by step: `SELECT … WHERE`, then `scalar_one_or_none()` (none, one, or `MultipleResultsFound`) or `scalar()` (the first row in rowid order, which is the matching row with the lowest id), then insert or update, then commit. The schema enforces unique ids and unique keys. It declares no uniqueness over (key, api name), so duplicate grants can be represented at this level.
- **Store** (`QuotaStore`). This is the reference state machine: a set of issued keys and a map from (key, api name) to a quota (limit, count).

`Refinement.Abs` maps tables to a store. For `generate_api_key`, `set_api_access`, `check_api_access` and the middleware, the refinement lemmas prove the following: on any database satisfying `Acl.Valid`, the handler answers exactly as the store transition, and the new tables abstract to the transition's new state and are still valid. `Acl.Valid` means:

- the schema constraints hold;
- ids increase along each table, since every insert takes one more than the largest id and nothing is deleted, so position order is SQLite's rowid order;
- every grant names an issued key;
- there is one grant per pair;
- every counter is in range.

`get_api_key` reads the cache and has no store transition. It is covered by `Service.GetApiKeyTransparent` instead, which shows that on a consistent cache it answers exactly as a lookup in the table alone.

`Service` puts the tables and the cache together. It proves that every sequence of requests keeps this invariant, and that the cache never changes what `get_api_key` answers. `Consumption` proves that a grant just set to L admits exactly L calls and refuses the rest. This holds for both `check_api_access` and the gated route.

Behaviours of the code worth noting:

- A successful `set_api_access` answers `{"message": "Access limit set successfully"}`.
- An unknown key is answered 403 "Invalid API Key" by `get_api_key`, but 401 by the middleware.
- The middleware lets a known key with no grant for the path through untouched.
- The middleware refuses an exhausted quota with "API access limit reached", not "API quota exceeded".
- Limits are not checked to be positive. Under a negative limit every check is refused and the counter stays 0.
- `check_api_access` does not look the key itself up.
- A header that is present but empty counts as missing, as Python truthiness makes it.
- A drawn uuid that is already issued fails the unique constraint on `api_keys.key`. The result is a 500 and no change.

`app/api/api_key.py` imports its entities from `app.model.api_key`, which is not part of this model. The entity shapes are taken from `app/model/acl.py`.

## Model

| member | source | states |
|---|---|---|
| Cache.Empty | app/core/cache.py:5-7 | A newly constructed cache answers `None` for every key. |
| Cache.Get | app/core/cache.py:9-11 | `get` returns the stored value for a key that was set, and `None` otherwise. As a pure function it never changes the map. |
| Cache.Set | app/core/cache.py:13-15 | After `set(k, v)`, `get(k)` is `v` (an earlier value is overwritten). Every other key reads what it read before. The key set grows by exactly `k`. |
| Cache.ReplayReadsLastWrite | app/core/cache.py:4-15 | After any history of `set` calls, `get(k)` is the last value written to `k`, or what the cache held before when `k` was never written. There is no eviction or expiry. |
| Cache.NeverSetReadsNone | app/core/cache.py:9-11 | Starting from an empty cache, `get` on a key that no `set` touched returns `None`. |
| Cache.WriteSurvivesOtherWrites | app/core/cache.py:15 | An entry persists until it is overwritten: writes to other keys never disturb it. |
| Acl.IndicesOf | app/api/api_key.py:30-31 | A `SELECT … WHERE column == v` returns exactly the positions of the matching rows, in increasing (insertion) order. |
| Acl.MaxId | app/model/acl.py:8 | The largest id bounds every id present, so the next autoincrement id is above every id present. |
| Acl.ScalarPicksLowestId | app/model/acl.py:15 | When ids increase along `api_access`, `scalar()` on a pair lookup returns a row exactly when the pair has one, that row is about the pair, and no other matching row has a lower id. This is the row SQLite returns first, since `id` is the rowid. |
| Acl.UniqueLookup | app/model/acl.py:9 | On a unique column, such as `api_keys.key`, a lookup finds at most one row, and finds one exactly when the value is present. |
| ApiKeyApi.GenerateApiKey | app/api/api_key.py:14-20 | For a uuid not yet issued: 200 with that key, exactly one new row (the key, the clock value, an id above every id present), nothing else changed, and the key set grows by exactly that key. For an issued uuid: 500 and no change. |
| ApiKeyApi.SetApiAccess | app/api/api_key.py:23-40 | An unknown key gives 404 "API key not found" and no change. A new pair gains one row with the given limit and count 0. An existing pair has its limit overwritten and its count reset to 0, whatever the old count was, and no other row changes. Every non-200 answer leaves the tables unchanged. |
| ApiKeyApi.CacheKeyInjective | app/api/api_key.py:45 | Distinct keys never share a cache entry name. |
| ApiKeyApi.GetApiKey | app/api/api_key.py:43-54 | A hit returns the cached record with the cache unchanged. A miss on an issued key returns its row and caches it. A miss on an unknown key gives 403 "Invalid API Key" with the cache unchanged. The cache only ever changes by caching a found key. |
| ApiKeyApi.CheckApiAccess | app/api/api_key.py:57-69 | No grant gives 403 "API access not allowed". Count ≥ limit gives 403 "API quota exceeded". Both denials leave the tables unchanged. Otherwise the answer is 200 and that grant's count goes up by exactly 1, with every other row and `api_keys` untouched. |
| Middleware.ApiKeyMiddleware | app/api/main.py:39-69 | Other paths pass with no change. A missing or empty header gives 400. An unknown key gives 401. A known key with no grant for the path passes with no change. An exhausted grant gives 403 "API access limit reached". Every short-circuit leaves the tables unchanged. A row changes only if it is the (header key, path) grant, only by +1, only when the request passes. |
| QuotaStore.Issue | app/api/api_key.py:14-20 | Reference transition. A fresh key is added to the key set and the grants are untouched. An already issued key gives 500 and no change. Consistency is preserved. |
| QuotaStore.SetGrant | app/api/api_key.py:23-40 | Reference transition. An unknown key gives 404 and no change. Otherwise the pair's quota becomes (limit, 0) and no other pair's grant appears, disappears or changes. Consistency is preserved. |
| QuotaStore.Check | app/api/api_key.py:57-69 | Reference transition. The answer is 200 exactly when a grant exists with count < limit. On 200 exactly that counter rises by 1. Every denial leaves the state unchanged. Consistency is preserved. |
| QuotaStore.Admit | app/api/main.py:39-69 | Reference middleware decision. For a known key with a grant, the new state equals `Check`'s, and the request passes exactly when `Check` answers 200. A known key without a grant passes with no change. The 400, 401 and ungated cases are as in the code. Consistency is preserved. |
| QuotaStore.CheckStep | app/api/api_key.py:65-69 | On a granted pair, a check below the limit answers 200 and raises that pair's count by one. At or past the limit it answers 403 "API quota exceeded" and changes nothing. |
| QuotaStore.AdmitStep | app/api/main.py:61-66 | With a known key and a grant on the gated path, a request below the limit passes and raises that pair's count by one. At or past the limit it gets 403 "API access limit reached" and changes nothing. |
| Refinement.GrantsOfDomain | app/model/acl.py:13-19 | A pair has an abstract grant exactly when some `api_access` row is about it. |
| Refinement.GrantsOfValue | app/model/acl.py:13-19 | With one row per pair, a row's pair maps to that row's (limit, count). |
| Refinement.GrantsOfUpdate | app/api/api_key.py:35-37 | With one row per pair, rewriting one row rewrites exactly that pair's grant. |
| Refinement.AbsConsistent | app/model/acl.py:16-19 | Valid tables abstract to a consistent store: every grant belongs to an issued key and its count is within range. |
| Refinement.InsertKey | app/api/api_key.py:16-19 | Appending a key row with a new key and an id above every id present keeps the tables valid, ids still increasing, and issues exactly that key. |
| Refinement.GenerateApiKeyRefines | app/api/api_key.py:14-20 | `generate_api_key` on the tables gives `Issue`'s response and new state, and keeps the tables valid. |
| Refinement.SetApiAccessRefines | app/api/api_key.py:23-40 | `set_api_access` on the tables gives `SetGrant`'s response and new state, and keeps one row per pair. |
| Refinement.InsertGrant | app/api/api_key.py:32-34 | Inserting a zero-count grant for a pair of an issued key that has none keeps the tables valid and adds exactly that pair's grant (limit, 0). |
| Refinement.ResetGrant | app/api/api_key.py:35-37 | Overwriting one row's limit and zeroing its count keeps the tables valid and sets exactly that pair's grant to (limit, 0). |
| Refinement.ConsumeOne | app/api/api_key.py:68-69 | Incrementing a grant below its limit keeps the tables valid and raises exactly that pair's abstract count by 1. |
| Refinement.CheckApiAccessRefines | app/api/api_key.py:57-69 | `check_api_access` on the tables gives `Check`'s response and new state, and keeps the tables valid. |
| Refinement.ApiKeyMiddlewareRefines | app/api/main.py:39-69 | The middleware on the tables makes `Admit`'s decision and reaches `Admit`'s new state, and keeps the tables valid. |
| Refinement.DuplicatePairsMeetSchema | app/model/acl.py:13-19 | There are tables that meet every declared constraint yet hold two grants for one pair. One row per pair rests on the upsert alone. |
| Refinement.DuplicatePairsFailHandlers | app/api/api_key.py:59-61 | On any tables holding two or more rows for one pair of an issued key, `check_api_access` (and likewise `set_api_access`, lines 30-31) fails with 500 from `scalar_one_or_none` and changes nothing. |
| Refinement.DuplicatePairsMiddlewareCountsFirst | app/api/main.py:57-66 | On any tables holding two or more rows for one pair of an issued key, with ids increasing along the table: the first such row is the one with the lowest id, and the middleware passes a request while that row is below its limit and counts it on that row only (`scalar()`). |
| Refinement.DuplicatedGrantInstance | app/model/acl.py:13-19 | On the concrete duplicated table, the pair lookup finds rows 0 and 1, `check_api_access` fails with 500, and the middleware increments row 0 only. |
| Service.Start | app/core/cache.py:18 | A server starting on empty tables with an empty cache satisfies the invariant. |
| Service.GetApiKeyTransparent | app/api/api_key.py:45-53 | On a coherent cache, `get_api_key` answers exactly as with an empty cache, answers 200 exactly for issued keys, and leaves the cache coherent. |
| Service.NextPreservesInvariant | app/api/api_key.py:14-69 | Every request to any handler, or through the middleware, keeps the tables valid and the cache coherent. |
| Service.RunPreservesInvariant | app/model/acl.py:6-19 | Every state reachable by serving requests has unique ids and keys, ids increasing along each table, valid foreign keys, one grant per pair, counts in range and a coherent cache. |
| Service.IssuedKeysDistinct | app/api/api_key.py:16-19 | Whatever uuids are drawn, the keys successfully handed out are pairwise distinct and none was issued before. They are exactly the keys added. |
| Consumption.ChecksConsumeUpToLimit | app/api/api_key.py:65-69 | From a quota (L, c), the j-th of n checks answers 200 exactly when c + j < L, and otherwise 403 "API quota exceeded". The final count is c if c ≥ L, else min(c + n, L). |
| Consumption.FreshGrantAdmitsExactlyLimit | app/api/api_key.py:35-37 | After a grant is set to L, exactly the first L checks succeed, and the count ends at min(n, L), or 0 when L ≤ 0. |
| Consumption.CheckCallsRefine | app/api/api_key.py:57-69 | n successive `check_api_access` calls on the tables match n `Check` steps, response for response, and keep the tables valid. |
| Consumption.ApiQuotaAdmitsExactlyLimit | app/api/api_key.py:23-69 | On the tables: after `set_api_access(key, api, L)` for an issued key, the first L `check_api_access` calls answer 200 and every later one 403 "API quota exceeded". |
| Consumption.AdmitsConsumeUpToLimit | app/api/main.py:61-66 | With a granted key on the gated path, the j-th request passes exactly when c + j < L, and is otherwise refused with 403 "API access limit reached". |
| Consumption.GatedCallsRefine | app/api/main.py:39-69 | n successive requests through the middleware on the tables match n `Admit` steps and keep the tables valid. |
| Consumption.GatedQuotaAdmitsExactlyLimit | app/api/main.py:57-66 | On the tables: after `set_api_access(key, path, L)` for an issued key on the gated path, the first L requests with that key pass and every later one gets 403 "API access limit reached". |
| Consumption.SeededKeyAdmitsFive | script/create_db.py:13-15 | On the seeded tables ("test_key", 5 calls of "/restricted-api"), five requests pass and the sixth is refused with 403. |

## Left out

- Concurrency: the `asyncio.Lock` in `Cache`, and the read-compare-commit race on the counter in `check_api_access` and the middleware. Each handler is one atomic transition, and interleavings cannot be expressed in this sequential model.
- Sessions, transactions, engine setup and routing: these become the functional state and `Response` values. An exception the handler does not catch becomes a plain 500 with no change to the tables, as a rolled-back session leaves them.
- `uuid.uuid4()` randomness is a parameter (`uuid`). The `func.now()` clock is a parameter (`now`).
- The database's integer width: limits and counters are unbounded integers. A limit outside SQLite's 64-bit range, which the driver would refuse, is not modelled. Request validation of `access_limit` (a 422 for a non-integer) is also left out.
- Header parsing: case-insensitive names and repeated `X-API-Key` headers. The header is given as an optional string.
- The route behind the middleware (`call_next`) and its response are opaque. The model stops at the `CallNext` decision.
- The foreign key of `api_access.api_key` is not assumed to be enforced by the database. The model proves that the handlers maintain it.
- `get_api_key` returns the ORM object; the model returns the row value. A cache hit is any stored value, since an ORM row is always truthy.
- Startup and shutdown of the logging process, and the `/health` route, in `app/api/main.py`.
- The language-model, retrieval, vector-store and search code; the logging queue; password login and user registration; device and environment configuration. These lie outside the admission layer.
- The order of a query without `ORDER BY` is modelled as position order. It is SQLite's rowid order because ids increase along each table, which `Acl.Valid` includes and every handler preserves.
- `app.model.api_key` is not part of this model, and `app/model/acl.py` is used in its place.
