# URL shortener: redirect path and alias table

This project models the core of a Go URL shortener. The service maps short aliases to long URLs. It keeps the mappings in a Postgres table and caches hot lookups in Redis.

- `errors.dfy` (module `Errors`) holds the storage package's two sentinel errors, `ErrURLNotFound` and `ErrURLExists`. It models wrapping with `fmt.Errorf("%s: %w", ...)` and the `errors.Is` test that looks through those wrappers.
- `postgres.dfy` (module `Postgres`) models the `url` table. The table is a map from alias to row, so alias uniqueness holds by construction. The `SERIAL` id column is a counter. `Insert` and `Select` are the two SQL statements as functions. The `Storage` class has `SaveURL` and `GetURL` methods, and each is proved to do what its function says. The `Schema` predicate states the table's constraints: ids are positive, distinct, and lower than the sequence's next value.
- `cache.dfy` (module `RedisCache`) models the cache as a map from key to entry, where an entry holds a value and an expiry. `Get` answers with a hit, `redis.Nil` or another error. `Set` overwrites the key. `Expire` drops a key at any moment, which stands for a TTL running out or an eviction.
- `redirect.dfy` (module `Redirect`) models the handler that `redirect.New` returns. `Serve` is the handler as a function of five inputs: the alias, the request path, the cache contents, whether the cache server answers, and the reply `URLGetter.GetURL` would give. It returns the outcome, the ordered list of calls made on the cache and the store, and the cache afterwards. `ServeRedirect` runs the same steps against a `Storage` and a `Cache` object and is proved equal to `Serve`.
- `save.dfy` (module `Save`) gives a thin contract for the save handler, taken from its tests. It covers the validation messages, the mapping from store errors to messages, and the five-minute cache write on success.
- `service.dfy` (module `Service`) holds the end-to-end properties. Every cached entry equals the stored URL for its alias, and saving, redirecting and expiry all keep this. When the handler is given a saved alias together with the path `"/" + alias`, it redirects to the saved URL unless that path passes the static-asset filter. An alias such as `logo.png` is accepted by the save handler, but the redirect handler always answers it not-found. Saving a second time under the same alias is a conflict and does not change the mapping. An unsaved alias is "not found". Over any sequence of saves, redirects and expiries, no stored row is ever changed and every redirect goes to the URL first saved for the alias.

Four behaviours of the code are easy to misread; the model follows the code in each:
- The static-asset filter compares the last four characters of the path with `".js"`, a three-character string. That test never succeeds, so `/app.js` goes on to the lookup. `JsPathsPassFilter` and `AppJsIsLookedUp` state this.
- A cache error that is not `redis.Nil` is logged and then handled exactly like a miss (`CacheErrorActsAsMiss`).
- `SaveURL` reports a taken alias as `ErrURLExists` wrapped in the operation name. Callers recognise it through `errors.Is`.
- Nothing stops the save handler from accepting an alias that ends in `.css`, `.png`, `.jpg` or `.ico`. The redirect handler filters the request path `/<alias>` before any lookup, so such an alias is stored but can never be resolved. The model records this as the code's behaviour (`SaveThenResolve`, `StaticAliasSavedButNeverResolved`).

Postgres's sequence semantics are modelled explicitly. A `SERIAL` column is a 4-byte integer, so the sequence stops at 2^31 - 1, and after that an insert fails with an ordinary wrapped error. The sequence advances before the unique constraint is checked, so an insert rejected as a duplicate still uses up an id. The rows stay unchanged, and ids are never reused.

## Model

| member | source | states |
|---|---|---|
| `Errors.Root` | internal/storage/postgres/postgres.go:62 | the bottom of a chain of `%w` wrappers is never itself a wrapper, and `errors.Is` finds it in the chain |
| `Errors.Is` | internal/http-server/handlers/redirect/redirect.go:71 | `errors.Is`: an error matches itself, and an unwrapped error matches nothing else; a wrapper matches whatever its cause matches. Errors are compared as values, while Go compares these error types by pointer; the two agree for the two sentinel targets, which are the only targets the code tests against |
| `Errors.IsSentinelIffRoot` | internal/http-server/handlers/redirect/redirect.go:71 | `errors.Is` against either sentinel holds exactly when the root of the chain is that sentinel, however many wrappers surround it |
| `Errors.FaultIsNoSentinel` | internal/storage/postgres/postgres.go:80-86 | a driver failure, wrapped any number of times, is never taken for `ErrURLNotFound` or `ErrURLExists` |
| `Postgres.Insert` | internal/storage/postgres/postgres.go:49-68 | the insert succeeds iff the server answers, the sequence is not exhausted and the alias is absent; every failure returns id 0, leaves the rows unchanged and is a wrapped error; it is `ErrURLExists` (via `errors.Is`) exactly for a taken alias and never `ErrURLNotFound`; on success the returned id is the id of the row stored under the alias (`RETURNING id`) |
| `Postgres.Select` | internal/storage/postgres/postgres.go:70-89 | the lookup succeeds iff the server answers and the alias is stored, and then returns exactly its URL; the bare `ErrURLNotFound` comes back exactly for an absent alias; every other error is wrapped and not `ErrURLNotFound` |
| `Postgres.Schema` | internal/storage/postgres/postgres.go:30-33 | the table's constraints: ids are positive, pairwise distinct (PRIMARY KEY) and below the sequence's next value; it follows that every id fits the 4-byte SERIAL range |
| `Postgres.InsertKeepsSchema` | internal/storage/postgres/postgres.go:30-33 | every insert, successful or not, keeps ids positive, distinct and below the sequence's next value |
| `Postgres.InsertAddsOneRow` | internal/storage/postgres/postgres.go:52-67 | a successful insert adds exactly the row (returned id, url) under the alias and leaves every other row, id included, unchanged; the returned id is the sequence's current value, larger than every existing id, and the sequence moves past it |
| `Postgres.InsertTakenAliasFails` | internal/storage/postgres/postgres.go:59-62 | inserting an alias that is present fails with `ErrURLExists`, returns id 0 and leaves the mapping unchanged |
| `Postgres.SaveThenGet` | internal/storage/postgres/postgres.go:49-89 | after a save, the lookup returns the saved URL; a second save under the same alias fails with `ErrURLExists` and the lookup still returns the first URL |
| `Postgres.Storage.constructor` | internal/storage/postgres/postgres.go:29-34 | a freshly created table is empty, its sequence starts at 1, and the schema invariant holds |
| `Postgres.Storage.Reopen` | internal/storage/postgres/postgres.go:29-34 | a table that already exists (CREATE TABLE IF NOT EXISTS on a restart) is taken over with its rows and sequence, provided it meets the schema |
| `Postgres.Storage.SaveURL` | internal/storage/postgres/postgres.go:49-68 | the returned id, the error and the table afterwards are those of `Insert` on the table before, and the schema invariant is kept |
| `Postgres.Storage.GetURL` | internal/storage/postgres/postgres.go:70-89 | the reply is that of `Select` on the current table; a success is the URL stored for the alias |
| `RedisCache.Lookup` | internal/cache/redis.go:32-34 | a hit exactly when the server answers and the key is present, carrying that key's value; `redis.Nil` exactly when the server answers and the key is absent |
| `RedisCache.Stored` | internal/cache/redis.go:28-30 | a successful set leaves the key holding exactly (value, expiry); no other key changes; a failed set changes nothing |
| `RedisCache.Cache.constructor` | internal/cache/redis.go:14-26 | a new cache is empty |
| `RedisCache.Cache.Get` | internal/cache/redis.go:32-34 | the reply is `Lookup` of the current entries |
| `RedisCache.Cache.Set` | internal/cache/redis.go:28-30 | the entries become `Stored` of the old entries, and an error is returned exactly when the server does not answer |
| `RedisCache.Cache.Expire` | internal/cache/redis.go:28-30 | the entry under the key disappears, as when its expiry runs out; nothing else changes |
| `Redirect.IsStaticAssetPath` | internal/http-server/handlers/redirect/redirect.go:49-56 | the filter as written; a filtered path is longer than four characters and has a '.' four characters from its end |
| `Redirect.StaticFilterIff` | internal/http-server/handlers/redirect/redirect.go:49-56 | a path is filtered iff it is longer than four characters and ends in ".css", ".png", ".jpg" or ".ico" |
| `Redirect.JsPathsPassFilter` | internal/http-server/handlers/redirect/redirect.go:51-52 | no path ending in ".js" is filtered, because a four-character suffix never equals ".js" |
| `Redirect.Serve` | internal/http-server/handlers/redirect/redirect.go:41-90 | whenever a collaborator is called, the first call is the cache `Get` for the alias; a redirect answered after asking the store goes to the URL the store returned |
| `Redirect.ServeRedirect` | internal/http-server/handlers/redirect/redirect.go:32-92 | the handler run against the store and cache objects gives the outcome, the calls and the new cache contents that `Serve` gives |
| `Redirect.EmptyAliasRejected` | internal/http-server/handlers/redirect/redirect.go:41-46 | an empty alias gives "invalid request", makes no call, and leaves the cache unchanged |
| `Redirect.StaticPathNotLookedUp` | internal/http-server/handlers/redirect/redirect.go:48-56 | with a non-empty alias the outcome is not-found and no call is made exactly when the path is a static asset; paths of at most four characters always reach the cache |
| `Redirect.AppJsIsLookedUp` | internal/http-server/handlers/redirect/redirect.go:50-59 | "/app.js" is not filtered; the request goes on to the cache `Get` |
| `Redirect.CacheHitServed` | internal/http-server/handlers/redirect/redirect.go:58-64 | on a cache hit the outcome is a redirect to the cached value, the only call is the cache `Get`, and the cache is unchanged |
| `Redirect.CacheErrorActsAsMiss` | internal/http-server/handlers/redirect/redirect.go:59-70 | a cache failure other than a miss yields the same outcome and the same calls as a miss |
| `Redirect.StoreErrorAnswered` | internal/http-server/handlers/redirect/redirect.go:70-80 | after a miss, a store error gives "not found" if its root cause is `ErrURLNotFound` (which is what `errors.Is` decides) and "internal error" otherwise; the calls are `Get` then `GetURL`, and the cache is unchanged |
| `Redirect.StoreHitWrittenBack` | internal/http-server/handlers/redirect/redirect.go:82-90 | after a miss, a URL from the store is written back as exactly (alias, url, 5 minutes) and is the redirect target whether or not the write succeeds |
| `Save.ChosenAlias` | internal/http-server/handlers/url/save/save_test.go:37-42 | a non-empty alias in the request is used as given; the chosen alias is empty only when both the request's alias and the generated one are |
| `Save.HandleSave` | internal/http-server/handlers/url/save/save_test.go:84-94 | a successful save is reported under the chosen alias (the request's, or the generated one when empty); the cache changes only on success |
| `Save.InvalidRequestHasNoEffect` | internal/http-server/handlers/url/save/save_test.go:43-56 | an empty URL gives "field URL is a required field" and an invalid one "field URL is not a valid URL", with the table and the cache unchanged |
| `Save.ValidRequestOutcomes` | internal/http-server/handlers/url/save/save_test.go:57-94 | a valid request is saved exactly when the store answers and the alias is free, with the mapping extended and the cache set for 5 minutes; it gives "url already exists" exactly for a taken alias and "failed to add url" for any other store error; both failures leave the mapping and the cache unchanged |
| `Service.ServeKeepsCoherent` | internal/http-server/handlers/redirect/redirect.go:59-90 | if every cache entry equals the stored URL for its alias, this still holds after a redirect request, and any redirect goes to the stored URL |
| `Service.SaveKeepsCoherent` | internal/storage/postgres/postgres.go:30-33 | a save request keeps the schema invariant and the cache's agreement with the table |
| `Service.ExpireKeepsCoherent` | internal/cache/redis.go:28-30 | dropping any cache entry keeps the cache in agreement with the table |
| `Service.SaveThenResolve` | cmd/url-shortener/main.go:128 | after a successful save, the redirect handler given the alias and the path `"/" + alias` redirects to the saved URL, whatever the cache server does, exactly when that path does not pass the static-asset filter; otherwise it is answered not-found |
| `Service.StaticAliasSavedButNeverResolved` | internal/http-server/handlers/redirect/redirect.go:50-54 | the alias `logo.png` is saved and the table returns its URL, yet a request for `/logo.png` is answered not-found before any lookup |
| `Service.SecondSaveConflicts` | internal/http-server/handlers/url/save/save_test.go:65-72 | a second save under a taken alias gives "url already exists" and leaves the mapping unchanged; the redirect handler given the alias and the path `"/" + alias` still redirects to the first URL unless that path passes the static-asset filter, in which case it is answered not-found |
| `Service.NeverSavedNotFound` | internal/http-server/handlers/redirect/redirect.go:70-75 | an alias never saved is answered "not found" when the store answers, whatever the cache does |
| `Service.CacheServesAfterSave` | internal/http-server/handlers/redirect/redirect.go:58-90 | right after a save, the redirect handler given the alias and the path `"/" + alias` serves it from the cache with no store call; after the entry expires, the store is asked and the entry is written back unchanged; an alias whose path passes the static-asset filter is excluded, since such a request never reaches the cache |
| `Service.StepKeepsConsistent` | internal/storage/postgres/postgres.go:30-33 | one save, redirect or expiry keeps the schema and the cache's agreement with the table, and leaves every existing row unchanged |
| `Service.RunKeepsConsistent` | internal/http-server/handlers/redirect/redirect.go:59-90 | any sequence of saves, redirects and expiries keeps the schema and the cache's agreement with the table, and never updates or deletes a row |
| `Service.RedirectAfterAnyRun` | internal/http-server/handlers/redirect/redirect.go:59-90 | after any sequence of requests, a redirect goes to the URL the table holds, and an alias stored at the start still redirects to its original URL |

## Left out

- Logging, JSON rendering, HTTP status codes and the `http.Redirect` and `http.NotFound` responses. These are reduced to the `Outcome` datatype. The model does not distinguish a logged cache error from a silent miss.
- The request context: cancellation and timeouts of store and cache calls are not modelled. A cancelled call counts as one of the fault parameters.
- Concurrency, in particular two saves racing on the unique constraint. Each request is modelled as one atomic step on the table and the cache.
- Wall-clock time. Entries record their expiry but do not expire by themselves; `Expire` removes an entry at any moment instead.
- `postgres.New` and `Close` (connecting, pinging, DDL), prepared-statement cleanup, and every Postgres error code except unique violation. A missing table or a connection failure is a `DbFault`.
- `cache.New` and `Close` (connecting and pinging Redis).
- Routing. The `Service` lemmas assume the router hands the whole alias to the redirect handler, with the path `"/" + alias`. That does not always happen, in three cases:
  - The integration-test router installs chi's `middleware.URLFormat` (tests/url_shortener_test.go:131), which strips a trailing `.ext` from the routing path. So `GET /a.b` reaches the handler with the alias `a`.
  - The fixed routes of `cmd/url-shortener/main.go:98-124` (`/health`, `/style.css`, `/script.js`) are matched before `/{alias}`. Aliases equal to those names can be saved but never reach the handler.
  - An alias that contains `/` never matches `/{alias}`.
- Two database behaviours lie outside the `DbFault` parameter. Postgres `TEXT` rejects a NUL character (SQLSTATE 22021), so such an alias or URL gets a wrapped error where `Insert` with `NoFault` succeeds. A statement that fails after `nextval` has run still uses up a sequence value, while `QueryFails` leaves `nextId` as it was. Neither changes a proved property of the alias-to-URL mapping.
- `RedisCache.Cache.constructor` starts from an empty cache. `cache.New` may connect to a Redis server that already holds keys; on such a restart the cache's agreement with the table (`Coherent`) is assumed, not established.
- A statement that commits but whose answer is lost (the connection drops after the `INSERT` commits and before the `RETURNING` row is read) is not modelled. `Insert` treats every failure as having stored nothing. In the real system the row would be stored and a wrapped error returned; the cache's agreement with the table and the fact that no row is ever changed still hold.
- `Redirect.ServeRedirect`: it takes the Postgres `Storage` as its `URLGetter`, because the model has no interfaces. `Serve` itself takes the getter's reply as a parameter, so its properties hold for any getter.
- The save handler's source is not part of this model, so its internals are left out: request decoding, URL validation, the alias length and the random alias alphabet. Validation and alias generation are parameters of `HandleSave`, and its contract comes only from the handler's tests.
- Router wiring, middleware, basic auth, health and static-file routes, configuration and graceful shutdown in `cmd/url-shortener/main.go`.
- Strings are sequences of characters, while Go's `len` and slicing count bytes. This does not affect the static-asset filter: its five extensions are ASCII, and a multi-byte character never encodes as an ASCII byte. So the last four bytes equal one of them exactly when the last four characters do.
- `Postgres.Storage.constructor` models the table a fresh database creates. `Postgres.Storage.Reopen` covers a table left by an earlier run.
