/**
 * The recipe handlers and the cache-aside protocol they follow. The document
 * collection and the Redis entry under the key "recipes" become two fields of
 * the handler: the collection's documents, and the cached listing if the key
 * is set. A ghost log records every call the handler issues to either
 * service, in order, so that the contracts can say when the collection is
 * queried and when the cache is read, written or cleared.
 *
 * What the services answer is an input here: each method takes one flag per
 * call that can fail (an unreachable Redis or Mongo), and a flag for a cache
 * write whose error the handler ignores and which therefore may not land.
 */
module Handlers {
  import opened Wrappers
  import opened Recipes

  /** The one cache key the handlers use. */
  const ListingKey: string := "recipes"

  /** The expiration passed to Redis SET: zero means the entry never expires. */
  const NoExpiration: int := 0

  datatype Error =
    | CacheFailure  // Redis GET failed with something other than "key not set"
    | StoreFailure  // the collection call returned an error
    | NoDocuments   // FindOne matched nothing, so decoding its result fails

  /** One call issued to Redis or to the document collection. */
  datatype Call =
    | CacheGet(key: string)
    | CacheSet(key: string, listing: seq<Recipe>, expiration: int)
    | CacheDel(key: string)
    | StoreFind
    | StoreFindOne(id: ObjectId)
    | StoreInsertOne(doc: Recipe)
    | StoreDeleteOne(id: ObjectId)
    | StoreUpdateOne(id: ObjectId, patch: Recipe)

  /** The cached listing, if there is one, is exactly what the collection holds. */
  predicate Coherent(store: seq<Recipe>, cache: Option<seq<Recipe>>) {
    cache.None? || cache.value == store
  }

  /**
   * The identifier a handler filters on. The hex parse of the path parameter
   * (None when it is not a valid identifier) has its error discarded, which
   * leaves the all-zero identifier.
   */
  function FilterId(parsed: Option<ObjectId>): (id: ObjectId)
    ensures parsed.None? ==> id == NilObjectId
    ensures parsed.Some? ==> id == parsed.value
  {
    if parsed.Some? then parsed.value else NilObjectId
  }

  /** The document a create request inserts: the bound body with a generated identifier and the current time. */
  function Stamped(draft: Recipe, id: ObjectId, now: Timestamp): (r: Recipe)
    ensures r.id == id && r.publishedAt == now
    ensures r.name == draft.name && r.tags == draft.tags
    ensures r.ingredients == draft.ingredients && r.instructions == draft.instructions
  {
    draft.(id := id, publishedAt := now)
  }

  class RecipesHandler {
    var store: seq<Recipe>
    var cache: Option<seq<Recipe>>
    ghost var calls: seq<Call>

    ghost predicate Valid()
      reads this
    {
      WellFormed(store)
    }

    /** A handler over a collection and a Redis instance as they currently are. */
    constructor (documents: seq<Recipe>, cached: Option<seq<Recipe>>)
      requires WellFormed(documents)
      ensures Valid()
      ensures store == documents && cache == cached && calls == []
    {
      store := documents;
      cache := cached;
      calls := [];
    }

    /**
     * GET /recipes. Serves the cached listing when the key is set; when it is
     * not, reads the whole collection, caches it without expiry and returns it.
     * Any other Redis error is reported without touching the collection.
     */
    method List(getFails: bool, findFails: bool, setLost: bool) returns (r: Result<seq<Recipe>, Error>)
      requires Valid()
      modifies this`cache, this`calls
      ensures Valid()
      ensures getFails ==>
        r == Failure(CacheFailure) && cache == old(cache) &&
        calls == old(calls) + [CacheGet(ListingKey)]
      ensures !getFails && old(cache).Some? ==>
        r == Success(old(cache).value) && cache == old(cache) &&
        calls == old(calls) + [CacheGet(ListingKey)]
      ensures !getFails && old(cache).None? && findFails ==>
        r == Failure(StoreFailure) && cache == old(cache) &&
        calls == old(calls) + [CacheGet(ListingKey), StoreFind]
      ensures !getFails && old(cache).None? && !findFails ==>
        r == Success(store) && cache == (if setLost then None else Some(store)) &&
        calls == old(calls) + [CacheGet(ListingKey), StoreFind, CacheSet(ListingKey, store, NoExpiration)]
      ensures Coherent(old(store), old(cache)) ==> Coherent(store, cache)
      ensures Coherent(old(store), old(cache)) && r.Success? ==> r.value == store
    {
      calls := calls + [CacheGet(ListingKey)];
      if getFails {
        return Failure(CacheFailure);
      }
      if cache.Some? {
        return Success(cache.value);
      }
      calls := calls + [StoreFind];
      if findFails {
        return Failure(StoreFailure);
      }
      var recipes: seq<Recipe> := [];
      var i := 0;
      while i < |store|
        invariant 0 <= i <= |store|
        invariant recipes == store[..i]
      {
        recipes := recipes + [store[i]];
        i := i + 1;
      }
      assert recipes == store;
      calls := calls + [CacheSet(ListingKey, recipes, NoExpiration)];
      if !setLost {
        cache := Some(recipes);
      }
      return Success(recipes);
    }

    /**
     * POST /recipes. Gives the bound recipe a generated identifier and the
     * current time, inserts it, and on success deletes the cached listing
     * (ignoring whether that delete succeeds).
     */
    method Create(draft: Recipe, freshId: ObjectId, now: Timestamp, insertFails: bool, delLost: bool)
      returns (r: Result<Recipe, Error>)
      requires Valid()
      requires freshId != NilObjectId && freshId !in Ids(store)
      modifies this
      ensures Valid()
      ensures insertFails ==>
        r == Failure(StoreFailure) && store == old(store) && cache == old(cache) &&
        calls == old(calls) + [StoreInsertOne(Stamped(draft, freshId, now))]
      ensures !insertFails ==>
        r == Success(Stamped(draft, freshId, now)) &&
        store == InsertOne(old(store), r.value) &&
        cache == (if delLost then old(cache) else None) &&
        calls == old(calls) + [StoreInsertOne(r.value), CacheDel(ListingKey)]
      ensures r.Success? ==> r.value.id == freshId && r.value.publishedAt == now && FindOne(store, freshId) == Some(r.value)
      ensures forall id | id != freshId :: FindOne(store, id) == FindOne(old(store), id)
      ensures Coherent(old(store), old(cache)) && !delLost ==> Coherent(store, cache)
    {
      var doc := Stamped(draft, freshId, now);
      calls := calls + [StoreInsertOne(doc)];
      if insertFails {
        return Failure(StoreFailure);
      }
      InsertOneFresh(store, doc);
      store := InsertOne(store, doc);
      calls := calls + [CacheDel(ListingKey)];
      if !delLost {
        cache := None;
      }
      return Success(doc);
    }

    /**
     * DELETE /recipes/{id}. Deletes the matching document and then the cached
     * listing. How many documents matched is not looked at, so an identifier
     * that matches nothing still succeeds and still clears the cache.
     */
    method Delete(id: Option<ObjectId>, deleteFails: bool, delLost: bool) returns (r: Result<(), Error>)
      requires Valid()
      modifies this
      ensures Valid()
      ensures deleteFails ==>
        r == Failure(StoreFailure) && store == old(store) && cache == old(cache) &&
        calls == old(calls) + [StoreDeleteOne(FilterId(id))]
      ensures !deleteFails ==>
        r == Success(()) && store == DeleteOne(old(store), FilterId(id)) &&
        cache == (if delLost then old(cache) else None) &&
        calls == old(calls) + [StoreDeleteOne(FilterId(id)), CacheDel(ListingKey)]
      ensures !deleteFails ==> FindOne(store, FilterId(id)) == None
      ensures forall other | other != FilterId(id) :: FindOne(store, other) == FindOne(old(store), other)
      ensures FilterId(id) !in Ids(old(store)) ==> store == old(store)
      ensures Coherent(old(store), old(cache)) && !delLost ==> Coherent(store, cache)
    {
      var key := FilterId(id);
      calls := calls + [StoreDeleteOne(key)];
      if deleteFails {
        return Failure(StoreFailure);
      }
      DeleteOneRemoves(store, key);
      store := DeleteOne(store, key);
      calls := calls + [CacheDel(ListingKey)];
      if !delLost {
        cache := None;
      }
      return Success(());
    }

    /** GET /recipes/{id}. Looks the document up in the collection; the cache is never consulted. */
    method Get(id: Option<ObjectId>, findFails: bool) returns (r: Result<Recipe, Error>)
      requires Valid()
      modifies this`calls
      ensures Valid()
      ensures calls == old(calls) + [StoreFindOne(FilterId(id))]
      ensures findFails ==> r == Failure(StoreFailure)
      ensures !findFails && FilterId(id) !in Ids(store) ==> r == Failure(NoDocuments)
      ensures !findFails && FilterId(id) in Ids(store) ==>
        r.Success? && r.value in store && r.value.id == FilterId(id)
      ensures id.None? ==> r.Failure?
    {
      var key := FilterId(id);
      calls := calls + [StoreFindOne(key)];
      if findFails {
        return Failure(StoreFailure);
      }
      NilFindsNothing(store);
      var found := FindOne(store, key);
      if found.None? {
        return Failure(NoDocuments);
      }
      return Success(found.value);
    }

    /**
     * PUT /recipes/{id}. Replaces name, instructions, ingredients and tags of
     * the matching document with those of the bound body. The cached listing
     * is left as it is, and a match count of zero is not looked at.
     */
    method Update(id: Option<ObjectId>, patch: Recipe, updateFails: bool) returns (r: Result<(), Error>)
      requires Valid()
      modifies this`store, this`calls
      ensures Valid()
      ensures cache == old(cache)
      ensures calls == old(calls) + [StoreUpdateOne(FilterId(id), patch)]
      ensures updateFails ==> r == Failure(StoreFailure) && store == old(store)
      ensures !updateFails ==> r == Success(()) && store == UpdateOne(old(store), FilterId(id), patch)
      ensures Ids(store) == Ids(old(store))
      ensures forall other | other != FilterId(id) :: FindOne(store, other) == FindOne(old(store), other)
    {
      var key := FilterId(id);
      calls := calls + [StoreUpdateOne(key, patch)];
      if updateFails {
        return Failure(StoreFailure);
      }
      UpdateOnePatches(store, key, patch);
      store := UpdateOne(store, key, patch);
      return Success(());
    }

    /**
     * PUT /recipes/{id} as the other writes behave: the update followed by a
     * delete of the cached listing, so that the cache stays coherent.
     */
    method UpdateAndInvalidate(id: Option<ObjectId>, patch: Recipe, updateFails: bool, delLost: bool)
      returns (r: Result<(), Error>)
      requires Valid()
      modifies this
      ensures Valid()
      ensures updateFails ==>
        r == Failure(StoreFailure) && store == old(store) && cache == old(cache) &&
        calls == old(calls) + [StoreUpdateOne(FilterId(id), patch)]
      ensures !updateFails ==>
        r == Success(()) && store == UpdateOne(old(store), FilterId(id), patch) &&
        cache == (if delLost then old(cache) else None) &&
        calls == old(calls) + [StoreUpdateOne(FilterId(id), patch), CacheDel(ListingKey)]
      ensures Coherent(old(store), old(cache)) && !delLost ==> Coherent(store, cache)
    {
      var key := FilterId(id);
      calls := calls + [StoreUpdateOne(key, patch)];
      if updateFails {
        return Failure(StoreFailure);
      }
      UpdateOnePatches(store, key, patch);
      store := UpdateOne(store, key, patch);
      calls := calls + [CacheDel(ListingKey)];
      if !delLost {
        cache := None;
      }
      return Success(());
    }
  }

  /**
   * The update handler can break coherence: from a well-formed collection
   * whose listing is cached, a successful update of an existing recipe leaves
   * a cached listing that no longer matches the collection.
   */
  lemma UpdateLeavesCacheStale()
    ensures exists s: seq<Recipe>, cache: Option<seq<Recipe>>, id: ObjectId, patch: Recipe ::
      WellFormed(s) && cache.Some? && Coherent(s, cache) && !Coherent(UpdateOne(s, id, patch), cache)
  {
    var soup := Recipe(1, "Soup", [], [], [], 0);
    var patch := Recipe(NilObjectId, "Stew", [], [], [], 0);
    var s := [soup];
    assert IndexOf(s, 1) == 0;
    assert UpdateOne(s, 1, patch)[0].name == "Stew";
    var cache := Some(s);
    assert WellFormed(s) && cache.Some? && Coherent(s, cache) && !Coherent(UpdateOne(s, 1, patch), cache);
  }

  /**
   * Exactly when the update handler leaves a cached listing stale: when the
   * identifier names an existing recipe and the patch changes at least one of
   * its name, instructions, ingredients or tags.
   */
  lemma UpdateStaleExactly(s: seq<Recipe>, id: ObjectId, patch: Recipe)
    requires WellFormed(s)
    ensures !Coherent(UpdateOne(s, id, patch), Some(s)) <==>
      id in Ids(s) && Patched(FindOne(s, id).value, patch) != FindOne(s, id).value
  {
    var k := IndexOf(s, id);
    var t := UpdateOne(s, id, patch);
    if k < |s| {
      FindOneUnique(s, k);
      assert t[k] == Patched(s[k], patch);
      if Patched(s[k], patch) == s[k] {
        assert forall i | 0 <= i < |s| :: t[i] == s[i];
        assert t == s;
      }
    } else {
      assert forall i | 0 <= i < |s| :: t[i] == s[i];
      assert t == s;
    }
  }

  /**
   * A miss fills the cache, a create clears it, and the next listing is read
   * from the collection again and includes the new recipe.
   */
  method ListCreateList() returns (first: seq<Recipe>, second: seq<Recipe>)
    ensures first == [Recipe(1, "Soup", [], [], [], 0)]
    ensures |second| == 2 && second[0] == first[0]
    ensures second[1] == Recipe(2, "Salad", ["green"], [], [], 5)
  {
    var soup := Recipe(1, "Soup", [], [], [], 0);
    var h := new RecipesHandler([soup], None);
    var r := h.List(false, false, false);
    assert h.cache == Some([soup]);
    first := r.value;
    var created := h.Create(Recipe(NilObjectId, "Salad", ["green"], [], [], 0), 2, 5, false, false);
    assert h.cache == None;
    r := h.List(false, false, false);
    assert h.calls[|h.calls| - 2] == StoreFind;
    second := r.value;
  }

  /**
   * With the listing cached, an update changes the collection but the next
   * listing is still served from the cache, without a collection query, and
   * shows the old name.
   */
  method ListUpdateList() returns (served: seq<Recipe>, stored: seq<Recipe>)
    ensures served == [Recipe(1, "Soup", [], [], [], 0)]
    ensures stored == [Recipe(1, "Stew", [], [], [], 0)]
  {
    var soup := Recipe(1, "Soup", [], [], [], 0);
    var h := new RecipesHandler([soup], None);
    var r := h.List(false, false, false);
    var u := h.Update(Some(1), Recipe(NilObjectId, "Stew", [], [], [], 0), false);
    assert IndexOf([soup], 1) == 0;
    r := h.List(false, false, false);
    assert h.calls[|h.calls| - 1] == CacheGet(ListingKey);
    served := r.value;
    stored := h.store;
  }

  /**
   * With the listing cached, a create whose DEL of the listing key does not
   * land (its error is ignored) leaves the next listing served from the cache
   * without the new recipe.
   */
  method ListCreateLostDelList() returns (served: seq<Recipe>, stored: seq<Recipe>)
    ensures served == [Recipe(1, "Soup", [], [], [], 0)]
    ensures stored == [Recipe(1, "Soup", [], [], [], 0), Recipe(2, "Salad", [], [], [], 5)]
  {
    var soup := Recipe(1, "Soup", [], [], [], 0);
    var h := new RecipesHandler([soup], None);
    var r := h.List(false, false, false);
    var created := h.Create(Recipe(NilObjectId, "Salad", [], [], [], 0), 2, 5, false, true);
    r := h.List(false, false, false);
    assert h.calls[|h.calls| - 1] == CacheGet(ListingKey);
    served := r.value;
    stored := h.store;
  }
}
