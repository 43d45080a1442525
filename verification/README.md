# Recipes API: the cache-aside protocol of the recipe handlers

This project models the recipe handlers of a Gin service (`RecipesHandler`),
which keep recipes in a MongoDB collection and cache the full recipe listing
in Redis under the single key `"recipes"`:

- **List** serves the listing from Redis when the key is set. When the key is
  not set, List reads the whole collection, stores it under the key with no
  expiry, and returns it. Any other Redis error is reported, and the
  collection is not queried.
- **Create** stamps the request body with a new identifier and the current
  time and inserts it. On success it deletes the cached listing.
- **Delete** deletes the document with the given identifier and then the
  cached listing. The match count is ignored.
- **Get** and **Update** go straight to the collection. Neither touches the
  cache.

The model has three modules:

- `Wrappers` (`wrappers.dfy`): `Option` and `Result`.
- `Recipes` (`recipes.dfy`): the `Recipe` record. The collection is a
  `seq<Recipe>` in insertion order. Each driver call the handlers make is a
  function on that sequence: `FindOne`, `InsertOne`, `DeleteOne`, and
  `UpdateOne` with its `$set` of four fields. Each function comes with lemmas
  saying what it does to a well-formed collection, meaning one with unique
  `_id`s and no all-zero `_id`.
- `Handlers` (`handlers.dfy`): the class `RecipesHandler`. It has two fields:
  `store` (the collection) and `cache` (the cached listing, `None` when the
  key is not set). It also has a ghost log, `calls`, of every Redis and Mongo
  call issued, in order. Each handler is a method whose contract gives:
  - the result;
  - the new `store` and `cache`;
  - the exact calls it issued.

  The predicate `Coherent(store, cache)` means "the cache is empty or holds
  exactly the collection". List preserves it. Create and Delete preserve it
  when their DEL of the listing key lands. The handler ignores that DEL's
  error, so a lost DEL leaves the cache stale (`ListCreateLostDelList`).
  Update never invalidates, so it breaks coherence exactly when it changes an
  existing recipe (`UpdateStaleExactly`).

Inputs from outside are parameters:

- Whether Redis or Mongo fails on a given call is a boolean.
- Whether an ignored Redis `SET`/`DEL` error left the cache unchanged is a
  boolean.
- The generated identifier is a parameter that must be fresh and non-zero.
- The current time is an opaque timestamp.

An identifier path parameter arrives as `Option<ObjectId>`. `None` stands for
text that is not a valid hex identifier. Because the handlers discard the
parse error, `None` becomes the all-zero identifier, which matches nothing
(`NilFindsNothing`, `NilMatchesNothing`).

Where the code and the intended design differ, the model follows the code:

- Update never invalidates the cache (see Findings).
- Update and Delete of an identifier that matches nothing report success
  rather than "not found".
- Delete of such an identifier still deletes the cached listing.
- Get reports a missing recipe as an error (`NoDocuments`). The handler
  answers it with the same internal-error status as a store failure.

## Model

| member | source | states |
|---|---|---|
| `Recipes.IndexOf` | handlers/handler.go:143-145 | the filter `{_id: id}` selects the first document carrying `id`; there is one exactly when `id` is among the collection's identifiers |
| `Recipes.FindOne` | handlers/handler.go:143-147 | the lookup yields nothing exactly when no document has the identifier, and otherwise a document of the collection with that identifier |
| `Recipes.InsertOne` | handlers/handler.go:93 | appends the document after the existing ones, which stay as they were, and adds its identifier; `InsertOneFresh` says what that does to a well-formed collection |
| `Recipes.DeleteOne` | handlers/handler.go:118-120 | deleting by identifier removes exactly the first matching document, keeping the others in order, and changes nothing when none matches |
| `Recipes.Patched` | handlers/handler.go:176-181 | the `$set` document: identifier and `publishedAt` kept; name, instructions, ingredients and tags taken from the request body |
| `Recipes.UpdateOne` | handlers/handler.go:174-181 | the update keeps the length; the first matching document gets the patched name, instructions, ingredients and tags; every other position is unchanged |
| `Recipes.FindOneUnique` | handlers/handler.go:143-147 | with unique identifiers, the lookup by a document's identifier returns that document |
| `Recipes.InsertOneFresh` | handlers/handler.go:91-93 | inserting with a fresh non-zero identifier keeps identifiers unique, adds exactly that identifier, makes the new recipe findable by it, and leaves every other lookup unchanged |
| `Recipes.DeleteOneRemoves` | handlers/handler.go:117-120 | deleting keeps the collection well formed, removes exactly that identifier, so it is no longer found, and leaves every other lookup unchanged |
| `Recipes.UpdateOnePatches` | handlers/handler.go:173-181 | updating keeps every identifier and every `publishedAt`; the matching recipe is found with the four fields replaced; every other lookup is unchanged |
| `Recipes.NilFindsNothing` | handlers/handler.go:142-147 | the all-zero identifier left by a failed hex parse finds nothing in a well-formed collection |
| `Recipes.NilMatchesNothing` | handlers/handler.go:117-120 | the all-zero identifier deletes and updates nothing in a well-formed collection |
| `Handlers.FilterId` | handlers/handler.go:173 | the identifier filtered on: the parsed one, or the all-zero one when the parse error is discarded (as also at lines 117 and 142) |
| `Handlers.Stamped` | handlers/handler.go:91-92 | the inserted document carries the generated identifier and the given time, and the body's name, tags, ingredients and instructions |
| `Handlers.RecipesHandler.constructor` | handlers/handler.go:25-31 | the handler starts over the given collection and cache contents with an empty call log |
| `Handlers.RecipesHandler.List` | handlers/handler.go:38-70 | Redis error: `CacheFailure` with only a GET issued. Hit: the cached listing with nothing changed and no collection query. Miss then find error: `StoreFailure`, no cache write. Miss: the whole collection, written under `"recipes"` with expiration 0 and returned. A coherent cache stays coherent and any listing returned is the current collection |
| `Handlers.RecipesHandler.Create` | handlers/handler.go:81-106 | insert failure: `StoreFailure`, store and cache unchanged. Success: the body with the generated id and timestamp is appended and returned, findable by its id; other lookups unchanged; then a DEL of `"recipes"` clears the cache, unless that DEL is lost |
| `Handlers.RecipesHandler.Delete` | handlers/handler.go:115-131 | store error: `StoreFailure`, nothing changed. Otherwise success even when nothing matched; the record is gone, other lookups unchanged, then a DEL of `"recipes"` clears the cache, unless that DEL is lost |
| `Handlers.RecipesHandler.Get` | handlers/handler.go:140-154 | only a FindOne is issued, cache and store untouched; a missing recipe or an unparsable id yields an error, an existing one is returned |
| `Handlers.RecipesHandler.Update` | handlers/handler.go:165-189 | only an UpdateOne is issued; on success the store is the patched collection (identifiers kept, other lookups unchanged); the cache is exactly as before |
| `Handlers.RecipesHandler.UpdateAndInvalidate` | handlers/handler.go:165-189 | the update followed by a DEL of `"recipes"`, which keeps a coherent cache coherent |
| `Handlers.UpdateLeavesCacheStale` | handlers/handler.go:174-188 | there is a well-formed collection with its listing cached in which the update leaves the cached listing different from the collection |
| `Handlers.UpdateStaleExactly` | handlers/handler.go:174-188 | the pre-update listing no longer matches the collection if and only if the identifier names an existing recipe and the patch changes one of its four updatable fields |
| `Handlers.ListCreateList` | handlers/handler.go:38-106 | a miss fills the cache, a create clears it, and the next listing is read from the collection and holds both recipes |
| `Handlers.ListCreateLostDelList` | handlers/handler.go:91-105 | with the listing cached, a create whose ignored DEL does not land leaves the next listing served from the cache without the new recipe |
| `Handlers.ListUpdateList` | handlers/handler.go:165-189 | after a listing is cached, an update renames the recipe in the collection, yet the next listing is served from the cache with the old name |

## Left out

- `main.go`: the earlier revision without a cache (direct collection access), process bootstrap and route registration. The `Recipe` record follows the struct at main.go:39-46; the `models` package is not part of this model.
- Request binding, JSON responses and HTTP status codes: transport concerns. A body that fails to bind is answered before any Redis or Mongo call, so it has no effect on the state modelled here.
- JSON encoding and decoding of the cached listing: treated as lossless, so the cache holds `seq<Recipe>` directly. The handler ignores decode errors on a hit. A corrupt cache entry, which would be served as an empty listing, cannot be expressed.
- Cursor iteration on a miss: the model returns the whole collection. The source ignores `Decode` errors and never checks the cursor's error after the loop, so a driver failure mid-iteration could return, and cache, a truncated listing.
- A store call that returns an error is modelled as having no effect on the collection.
- Hex parsing of identifiers and identifier generation: the parsed identifier is an input (`None` when the text is invalid); the generated one is an input assumed fresh and non-zero.
- The wall clock: `now` is an opaque timestamp parameter.
- Concurrent requests: racing misses and a stale repopulation after a concurrent write are not modelled; each method runs alone.
- Logging and the `context` handle.
- The commented-out tag search in both files: dead code.

## Findings

| source | as written | input that shows it | evidently intended | confidence | as-written member | corrected member |
|---|---|---|---|---|---|---|
| handlers/handler.go:174-188 | a successful update writes the collection but never deletes the `"recipes"` entry, unlike create and delete | collection `[Soup]`, listing cached; PUT renames the recipe to Stew; the next GET /recipes still serves Soup from the cache, and keeps doing so until a create or delete | delete `"recipes"` after a successful update, as the other writes do | medium, not executed | `Handlers.RecipesHandler.Update`, exhibited by `Handlers.ListUpdateList`, `Handlers.UpdateLeavesCacheStale` and `Handlers.UpdateStaleExactly` | `Handlers.RecipesHandler.UpdateAndInvalidate` |
