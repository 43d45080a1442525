/**
 * The recipe record and the operations the handlers issue against the
 * document collection. The collection is a sequence of documents in
 * insertion order; each operation below is the effect of one driver call
 * (Find, FindOne, InsertOne, DeleteOne, UpdateOne with a `$set`) filtered
 * on `_id`.
 */
module Recipes {
  import opened Wrappers

  /** A document identifier. Only equality between identifiers matters here. */
  type ObjectId = nat

  /** The all-zero identifier: what a failed hex parse leaves behind. No generated identifier equals it. */
  const NilObjectId: ObjectId := 0

  /** An instant, supplied from outside (the wall clock is not modelled). */
  type Timestamp = int

  datatype Recipe = Recipe(
    id: ObjectId,
    name: string,
    tags: seq<string>,
    ingredients: seq<string>,
    instructions: seq<string>,
    publishedAt: Timestamp)

  /** The identifiers present in the collection. */
  function Ids(s: seq<Recipe>): set<ObjectId> {
    set x | x in s :: x.id
  }

  predicate UniqueIds(s: seq<Recipe>) {
    forall i, j | 0 <= i < j < |s| :: s[i].id != s[j].id
  }

  /**
   * What the collection keeps true: `_id` is unique, and no document carries
   * the all-zero identifier (every document was inserted with a generated one).
   */
  predicate WellFormed(s: seq<Recipe>) {
    UniqueIds(s) && NilObjectId !in Ids(s)
  }

  /** The position of the first document whose `_id` is `id`, or `|s|` if there is none. */
  function IndexOf(s: seq<Recipe>, id: ObjectId): (k: nat)
    ensures k <= |s|
    ensures k < |s| <==> id in Ids(s)
    ensures k < |s| ==> s[k].id == id
    ensures forall j | 0 <= j < k :: s[j].id != id
  {
    if s == [] then 0
    else if s[0].id == id then 0
    else
      var k' := IndexOf(s[1..], id);
      assert forall x | x in s[1..] :: x in s;
      assert id in Ids(s) ==> id in Ids(s[1..]) by {
        if id in Ids(s) {
          var x :| x in s && x.id == id;
          var j :| 0 <= j < |s| && s[j] == x;
          assert j != 0;
          assert s[1..][j - 1] == x;
        }
      }
      1 + k'
  }

  /** FindOne with filter `{_id: id}`: the matching document, or none (the driver's ErrNoDocuments). */
  function FindOne(s: seq<Recipe>, id: ObjectId): (r: Option<Recipe>)
    ensures r.None? <==> id !in Ids(s)
    ensures r.Some? ==> r.value in s && r.value.id == id
  {
    var k := IndexOf(s, id);
    if k < |s| then Some(s[k]) else None
  }

  /** InsertOne: the new document goes after the existing ones. */
  function InsertOne(s: seq<Recipe>, doc: Recipe): (r: seq<Recipe>)
    ensures |r| == |s| + 1 && r[..|s|] == s && r[|s|] == doc
    ensures Ids(r) == Ids(s) + {doc.id}
  {
    s + [doc]
  }

  /** DeleteOne with filter `{_id: id}`: removes the first matching document, if any. */
  function DeleteOne(s: seq<Recipe>, id: ObjectId): (r: seq<Recipe>)
    ensures var k := IndexOf(s, id); r == if k < |s| then s[..k] + s[k + 1..] else s
  {
    if s == [] then []
    else if s[0].id == id then s[1..]
    else
      ConsSplice(s, IndexOf(s[1..], id));
      [s[0]] + DeleteOne(s[1..], id)
  }

  /** Putting the head back in front of the tail with its `k`-th element removed. */
  lemma ConsSplice(s: seq<Recipe>, k: nat)
    requires 1 <= |s| && k <= |s| - 1
    ensures [s[0]] + s[1..] == s
    ensures k < |s| - 1 ==> [s[0]] + (s[1..][..k] + s[1..][k + 1..]) == s[..k + 1] + s[k + 2..]
  {
    if k < |s| - 1 {
      assert s[1..][..k] + s[1..][k + 1..] == s[1..k + 1] + s[k + 2..];
      assert [s[0]] + s[1..k + 1] == s[..k + 1];
    }
  }

  /** The `$set` of the update handler: name, instructions, ingredients and tags come from `patch`. */
  function Patched(doc: Recipe, patch: Recipe): (r: Recipe)
    ensures r.id == doc.id && r.publishedAt == doc.publishedAt
    ensures r.name == patch.name && r.instructions == patch.instructions
    ensures r.ingredients == patch.ingredients && r.tags == patch.tags
  {
    doc.(name := patch.name, instructions := patch.instructions,
         ingredients := patch.ingredients, tags := patch.tags)
  }

  /** UpdateOne with filter `{_id: id}`: applies the `$set` to the first matching document, if any. */
  function UpdateOne(s: seq<Recipe>, id: ObjectId, patch: Recipe): (r: seq<Recipe>)
    ensures |r| == |s|
    ensures forall i | 0 <= i < |s| :: r[i] == if i == IndexOf(s, id) then Patched(s[i], patch) else s[i]
  {
    if s == [] then []
    else if s[0].id == id then [Patched(s[0], patch)] + s[1..]
    else [s[0]] + UpdateOne(s[1..], id, patch)
  }

  /** With unique identifiers, the document carrying `id` is the one FindOne returns. */
  lemma FindOneUnique(s: seq<Recipe>, i: nat)
    requires UniqueIds(s) && i < |s|
    ensures FindOne(s, s[i].id) == Some(s[i])
  {
    var k := IndexOf(s, s[i].id);
    assert s[i] in s;
    assert k == i;
  }

  /**
   * Inserting a document with a fresh, non-zero identifier keeps the collection
   * well formed, makes that document findable by its identifier, and changes
   * the answer to no other lookup.
   */
  lemma InsertOneFresh(s: seq<Recipe>, doc: Recipe)
    requires WellFormed(s)
    requires doc.id != NilObjectId && doc.id !in Ids(s)
    ensures WellFormed(InsertOne(s, doc))
    ensures Ids(InsertOne(s, doc)) == Ids(s) + {doc.id}
    ensures FindOne(InsertOne(s, doc), doc.id) == Some(doc)
    ensures forall id | id != doc.id :: FindOne(InsertOne(s, doc), id) == FindOne(s, id)
  {
    var t := InsertOne(s, doc);
    forall i, j | 0 <= i < j < |t| ensures t[i].id != t[j].id {
      if j == |s| {
        assert t[i] in s;
      }
    }
    assert forall x | x in t :: x in s || x == doc;
    assert Ids(t) == Ids(s) + {doc.id};
    FindOneUnique(t, |s|);
    forall id | id != doc.id ensures FindOne(t, id) == FindOne(s, id) {
      if id in Ids(s) {
        var k := IndexOf(s, id);
        FindOneUnique(s, k);
        FindOneUnique(t, k);
      }
    }
  }

  /** Where each document of a collection ends up once the document at `k` is removed. */
  predicate RemovedAt(s: seq<Recipe>, k: nat, t: seq<Recipe>) {
    k < |s| && |t| == |s| - 1 &&
    (forall i | 0 <= i < k :: t[i] == s[i]) &&
    (forall i | k <= i < |t| :: t[i] == s[i + 1])
  }

  lemma SpliceRemoves(s: seq<Recipe>, k: nat)
    requires k < |s|
    ensures RemovedAt(s, k, s[..k] + s[k + 1..])
  {
  }

  /**
   * Deleting by identifier in a well-formed collection removes exactly the
   * document carrying that identifier: it is no longer found, every other
   * lookup answers as before, and the collection stays well formed.
   */
  lemma DeleteOneRemoves(s: seq<Recipe>, id: ObjectId)
    requires WellFormed(s)
    ensures WellFormed(DeleteOne(s, id))
    ensures Ids(DeleteOne(s, id)) == Ids(s) - {id}
    ensures FindOne(DeleteOne(s, id), id) == None
    ensures forall other | other != id :: FindOne(DeleteOne(s, id), other) == FindOne(s, other)
  {
    var k := IndexOf(s, id);
    if k < |s| {
      var t := DeleteOne(s, id);
      assert t == s[..k] + s[k + 1..];
      SpliceRemoves(s, k);
      DeletedUnique(s, k, t);
      DeletedIds(s, id, k, t);
      forall other | other != id ensures FindOne(t, other) == FindOne(s, other) {
        DeletedFind(s, id, k, t, other);
      }
    }
  }

  lemma DeletedUnique(s: seq<Recipe>, k: nat, t: seq<Recipe>)
    requires UniqueIds(s) && RemovedAt(s, k, t)
    ensures UniqueIds(t)
  {
    forall i, j | 0 <= i < j < |t| ensures t[i].id != t[j].id {
      var i' := if i < k then i else i + 1;
      var j' := if j < k then j else j + 1;
      assert t[i] == s[i'];
      assert t[j] == s[j'];
    }
  }

  lemma DeletedIds(s: seq<Recipe>, id: ObjectId, k: nat, t: seq<Recipe>)
    requires UniqueIds(s) && RemovedAt(s, k, t) && s[k].id == id
    ensures Ids(t) == Ids(s) - {id}
  {
    forall x | x in Ids(t) ensures x in Ids(s) - {id} {
      var y :| y in t && y.id == x;
      var i :| 0 <= i < |t| && t[i] == y;
      var i' := if i < k then i else i + 1;
      assert t[i] == s[i'];
      assert s[i'] in s;
    }
    forall x | x in Ids(s) - {id} ensures x in Ids(t) {
      var y :| y in s && y.id == x;
      var j :| 0 <= j < |s| && s[j] == y;
      var j' := if j < k then j else j - 1;
      assert t[j'] == s[j];
      assert t[j'] in t;
    }
  }

  lemma DeletedFind(s: seq<Recipe>, id: ObjectId, k: nat, t: seq<Recipe>, other: ObjectId)
    requires UniqueIds(s) && UniqueIds(t) && RemovedAt(s, k, t) && s[k].id == id
    requires Ids(t) == Ids(s) - {id} && other != id
    ensures FindOne(t, other) == FindOne(s, other)
  {
    if other in Ids(s) {
      var j := IndexOf(s, other);
      var j' := if j < k then j else j - 1;
      assert t[j'] == s[j];
      FindOneUnique(s, j);
      FindOneUnique(t, j');
    }
  }

  /**
   * Updating by identifier in a well-formed collection keeps every identifier
   * and every `publishedAt`, gives the matching document the patched name,
   * instructions, ingredients and tags, and leaves every other document as it was.
   */
  lemma UpdateOnePatches(s: seq<Recipe>, id: ObjectId, patch: Recipe)
    requires WellFormed(s)
    ensures WellFormed(UpdateOne(s, id, patch))
    ensures Ids(UpdateOne(s, id, patch)) == Ids(s)
    ensures forall i | 0 <= i < |s| ::
      UpdateOne(s, id, patch)[i].id == s[i].id &&
      UpdateOne(s, id, patch)[i].publishedAt == s[i].publishedAt
    ensures FindOne(UpdateOne(s, id, patch), id) ==
      if id in Ids(s) then Some(Patched(FindOne(s, id).value, patch)) else None
    ensures forall other | other != id :: FindOne(UpdateOne(s, id, patch), other) == FindOne(s, other)
  {
    var t := UpdateOne(s, id, patch);
    var k := IndexOf(s, id);
    SameIdsAt(s, t);
    if k < |s| {
      FindOneUnique(s, k);
      FindOneUnique(t, k);
    }
    forall other | other != id ensures FindOne(t, other) == FindOne(s, other) {
      if other in Ids(s) {
        var j := IndexOf(s, other);
        FindOneUnique(s, j);
        FindOneUnique(t, j);
      }
    }
  }

  /** Two collections with the same identifier at every position have the same identifiers, unique alike. */
  lemma SameIdsAt(s: seq<Recipe>, t: seq<Recipe>)
    requires |s| == |t|
    requires forall i | 0 <= i < |s| :: t[i].id == s[i].id
    ensures UniqueIds(s) ==> UniqueIds(t)
    ensures Ids(t) == Ids(s)
  {
    forall x | x in Ids(t) ensures x in Ids(s) {
      var y :| y in t && y.id == x;
      var i :| 0 <= i < |t| && t[i] == y;
      assert s[i] in s;
    }
    forall x | x in Ids(s) ensures x in Ids(t) {
      var y :| y in s && y.id == x;
      var i :| 0 <= i < |s| && s[i] == y;
      assert t[i] in t;
    }
  }

  /** A lookup on the all-zero identifier finds nothing in a well-formed collection. */
  lemma NilFindsNothing(s: seq<Recipe>)
    requires WellFormed(s)
    ensures FindOne(s, NilObjectId) == None
  {
  }

  /** A delete or an update on the all-zero identifier changes nothing in a well-formed collection. */
  lemma NilMatchesNothing(s: seq<Recipe>, patch: Recipe)
    requires WellFormed(s)
    ensures DeleteOne(s, NilObjectId) == s
    ensures UpdateOne(s, NilObjectId, patch) == s
  {
    assert IndexOf(s, NilObjectId) == |s|;
  }
}
