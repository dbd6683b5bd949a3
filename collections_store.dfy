/** The collections store: named collections of saved requests, the ids of
    the active collection and request, and the copy of the list kept in
    local storage. Ids and timestamps are parameters (they come from a
    random-id generator and the clock). */
module Collections {
  import opened Common
  import opened RequestTypes

  /** The tests the store's `map`, `filter` and `find` calls use. */
  function CollectionIdIs(id: string): Collection -> bool
  {
    (c: Collection) => c.id == id
  }

  function RequestIdIs(id: string): SavedRequest -> bool
  {
    (q: SavedRequest) => q.id == id
  }

  /** The updates the store's `map` calls apply. */
  function PatchedBy(patch: SavedRequestPatch, now: string): SavedRequest -> SavedRequest
  {
    (q: SavedRequest) => patch.ApplyTo(q, now)
  }

  function CollectionPatchedBy(patch: CollectionPatch, now: string): Collection -> Collection
  {
    (c: Collection) => patch.ApplyTo(c, now)
  }

  function Appending(saved: SavedRequest, now: string): Collection -> Collection
  {
    (c: Collection) => c.(requests := c.requests + [saved], updatedAt := now)
  }

  function PatchingRequests(requestId: string, patch: SavedRequestPatch, now: string): Collection -> Collection
  {
    (c: Collection) => PatchRequests(c, requestId, patch, now)
  }

  function DroppingRequests(requestId: string, now: string): Collection -> Collection
  {
    (c: Collection) => DropRequests(c, requestId, now)
  }

  /** Collection `i` is the first with the id. */
  predicate FirstCollectionAt(cs: seq<Collection>, collectionId: string, i: int)
  {
    0 <= i < |cs| && cs[i].id == collectionId && forall k :: 0 <= k < i ==> cs[k].id != collectionId
  }

  /** Request `j` is the first with the id. */
  predicate FirstRequestAt(qs: seq<SavedRequest>, requestId: string, j: int)
  {
    0 <= j < |qs| && qs[j].id == requestId && forall k :: 0 <= k < j ==> qs[k].id != requestId
  }

  /** The lookup `loadRequest` and `duplicateRequest` perform: the first
      collection with the id, then the first of its requests with the id.
      Nothing is found exactly when there is no such collection or that
      collection holds no request with the id; a later collection with the
      same id is never searched. */
  function FindSavedRequest(cs: seq<Collection>, collectionId: string, requestId: string): (r: Option<SavedRequest>)
    ensures r.Some? ==> r.value.id == requestId
    ensures r.Some? ==> exists i, j :: FirstCollectionAt(cs, collectionId, i) &&
                                       FirstRequestAt(cs[i].requests, requestId, j) && cs[i].requests[j] == r.value
    ensures forall i, j :: FirstCollectionAt(cs, collectionId, i) && FirstRequestAt(cs[i].requests, requestId, j) ==>
              r == Some(cs[i].requests[j])
    ensures r.None? <==> forall i :: FirstCollectionAt(cs, collectionId, i) ==>
                           forall j :: 0 <= j < |cs[i].requests| ==> cs[i].requests[j].id != requestId
    ensures (forall i :: 0 <= i < |cs| ==> cs[i].id != collectionId) ==> r.None?
  {
    var byCollection := CollectionIdIs(collectionId);
    var byRequest := RequestIdIs(requestId);
    assert forall i :: FirstCollectionAt(cs, collectionId, i) <==> FirstMatchAt(cs, byCollection, i);
    assert forall qs: seq<SavedRequest>, j :: FirstRequestAt(qs, requestId, j) <==> FirstMatchAt(qs, byRequest, j);
    match FindFirst(cs, byCollection)
    case None => None
    case Some(c) => FindFirst(c.requests, byRequest)
  }

  /** The list after `updateCollection`: each collection with the id gets
      the patch and a new `updatedAt`; the others are untouched. */
  function CollectionsAfterUpdate(cs: seq<Collection>, id: string, patch: CollectionPatch, now: string): (r: seq<Collection>)
    ensures |r| == |cs|
    ensures forall i :: 0 <= i < |cs| && cs[i].id != id ==> r[i] == cs[i]
    ensures forall i :: 0 <= i < |cs| && cs[i].id == id ==> r[i] == patch.ApplyTo(cs[i], now) && r[i].updatedAt == now
  {
    UpdateWhere(cs, CollectionIdIs(id), CollectionPatchedBy(patch, now))
  }

  /** The list after `deleteCollection`: every collection with the id is gone,
      every other one is kept. */
  function CollectionsAfterDelete(cs: seq<Collection>, id: string): (r: seq<Collection>)
    ensures forall i :: 0 <= i < |r| ==> r[i].id != id && r[i] in cs
    ensures forall i :: 0 <= i < |cs| && cs[i].id != id ==> cs[i] in r
  {
    RemoveWhere(cs, CollectionIdIs(id))
  }

  /** Appending a request to the collections with the id (`saveRequest` and
      `duplicateRequest` share this step). */
  function CollectionsAfterAppend(cs: seq<Collection>, collectionId: string, saved: SavedRequest, now: string): (r: seq<Collection>)
    ensures |r| == |cs|
    ensures forall i :: 0 <= i < |cs| && cs[i].id != collectionId ==> r[i] == cs[i]
    ensures forall i :: 0 <= i < |cs| && cs[i].id == collectionId ==>
              r[i] == cs[i].(requests := cs[i].requests + [saved], updatedAt := now)
  {
    UpdateWhere(cs, CollectionIdIs(collectionId), Appending(saved, now))
  }

  /** One collection after `updateRequest`'s inner map. */
  function PatchRequests(c: Collection, requestId: string, patch: SavedRequestPatch, now: string): (r: Collection)
    ensures r.id == c.id && r.name == c.name && r.createdAt == c.createdAt && r.updatedAt == now
    ensures |r.requests| == |c.requests|
    ensures forall j :: 0 <= j < |c.requests| && c.requests[j].id != requestId ==> r.requests[j] == c.requests[j]
    ensures forall j :: 0 <= j < |c.requests| && c.requests[j].id == requestId ==>
              r.requests[j] == patch.ApplyTo(c.requests[j], now)
  {
    c.(requests := UpdateWhere(c.requests, RequestIdIs(requestId), PatchedBy(patch, now)), updatedAt := now)
  }

  /** The list after `updateRequest`. */
  function CollectionsAfterRequestUpdate(cs: seq<Collection>, collectionId: string, requestId: string,
                                         patch: SavedRequestPatch, now: string): (r: seq<Collection>)
    ensures |r| == |cs|
    ensures forall i :: 0 <= i < |cs| && cs[i].id != collectionId ==> r[i] == cs[i]
    ensures forall i :: 0 <= i < |cs| && cs[i].id == collectionId ==> r[i] == PatchRequests(cs[i], requestId, patch, now)
  {
    UpdateWhere(cs, CollectionIdIs(collectionId), PatchingRequests(requestId, patch, now))
  }

  /** One collection after `deleteRequest`'s inner filter. */
  function DropRequests(c: Collection, requestId: string, now: string): (r: Collection)
    ensures r.id == c.id && r.name == c.name && r.createdAt == c.createdAt && r.updatedAt == now
    ensures forall j :: 0 <= j < |r.requests| ==> r.requests[j].id != requestId && r.requests[j] in c.requests
    ensures forall j :: 0 <= j < |c.requests| && c.requests[j].id != requestId ==> c.requests[j] in r.requests
  {
    c.(requests := RemoveWhere(c.requests, RequestIdIs(requestId)), updatedAt := now)
  }

  /** The list after `deleteRequest`. */
  function CollectionsAfterRequestDelete(cs: seq<Collection>, collectionId: string, requestId: string,
                                         now: string): (r: seq<Collection>)
    ensures |r| == |cs|
    ensures forall i :: 0 <= i < |cs| && cs[i].id != collectionId ==> r[i] == cs[i]
    ensures forall i :: 0 <= i < |cs| && cs[i].id == collectionId ==> r[i] == DropRequests(cs[i], requestId, now)
  {
    UpdateWhere(cs, CollectionIdIs(collectionId), DroppingRequests(requestId, now))
  }

  /** The copy `duplicateRequest` makes: same request, fresh id, the name
      with " (Copy)" appended, both timestamps now. */
  function Duplicate(original: SavedRequest, newId: string, now: string): (r: SavedRequest)
    ensures r.id == newId && r.request == original.request
    ensures r.name == original.name + " (Copy)"
    ensures r.createdAt == now && r.updatedAt == now
  {
    original.(id := newId, name := original.name + " (Copy)", createdAt := now, updatedAt := now)
  }

  /** Whether some request in a collection with the id already has this id. */
  predicate IdInCollection(cs: seq<Collection>, collectionId: string, requestId: string)
  {
    exists i, j :: 0 <= i < |cs| && cs[i].id == collectionId && 0 <= j < |cs[i].requests| &&
                   cs[i].requests[j].id == requestId
  }

  /** Save then load: a request saved with a fresh id into an existing
      collection is what the lookup by those ids finds. */
  lemma SavedRequestIsFound(cs: seq<Collection>, collectionId: string, saved: SavedRequest, now: string)
    requires exists i :: 0 <= i < |cs| && cs[i].id == collectionId
    requires !IdInCollection(cs, collectionId, saved.id)
    ensures FindSavedRequest(CollectionsAfterAppend(cs, collectionId, saved, now), collectionId, saved.id) == Some(saved)
  {
    var byId := CollectionIdIs(collectionId);
    FindFirstAfterUpdate(cs, byId, Appending(saved, now), byId);
    var c :| FindFirst(cs, byId) == Some(c);
    FindFirstAppend(c.requests, saved, RequestIdIs(saved.id));
  }

  /** Appending to a collection leaves every lookup that found something
      before finding the same request. */
  lemma AppendKeepsFound(cs: seq<Collection>, collectionId: string, saved: SavedRequest, now: string,
                         lookupCollection: string, requestId: string)
    requires FindSavedRequest(cs, lookupCollection, requestId).Some?
    ensures FindSavedRequest(CollectionsAfterAppend(cs, collectionId, saved, now), lookupCollection, requestId)
            == FindSavedRequest(cs, lookupCollection, requestId)
  {
    var byLookup := CollectionIdIs(lookupCollection);
    FindFirstAfterUpdate(cs, CollectionIdIs(collectionId), Appending(saved, now), byLookup);
    var c :| FindFirst(cs, byLookup) == Some(c);
    FindFirstAppend(c.requests, saved, RequestIdIs(requestId));
  }

  /** Within one collection, patching a request without changing its id
      leaves it where the lookup finds it. */
  lemma PatchedRequestIsFound(c: Collection, requestId: string, patch: SavedRequestPatch, now: string)
    requires patch.id.None? || patch.id == Some(requestId)
    ensures FindFirst(PatchRequests(c, requestId, patch, now).requests, RequestIdIs(requestId))
            == (match FindFirst(c.requests, RequestIdIs(requestId))
                case None => None
                case Some(q) => Some(patch.ApplyTo(q, now)))
  {
    var q := RequestIdIs(requestId);
    var p := PatchedBy(patch, now);
    assert forall r :: q(r) ==> q(p(r)) == q(r);
    FindFirstAfterUpdate(c.requests, q, p, q);
  }

  /** Update then load: when the patch keeps the request's id, the lookup
      finds the patched version of what it found before. */
  lemma UpdatedRequestIsFound(cs: seq<Collection>, collectionId: string, requestId: string,
                              patch: SavedRequestPatch, now: string)
    requires patch.id.None? || patch.id == Some(requestId)
    ensures FindSavedRequest(CollectionsAfterRequestUpdate(cs, collectionId, requestId, patch, now), collectionId, requestId)
            == (match FindSavedRequest(cs, collectionId, requestId)
                case None => None
                case Some(q) => Some(patch.ApplyTo(q, now)))
  {
    var byId := CollectionIdIs(collectionId);
    FindFirstAfterUpdate(cs, byId, PatchingRequests(requestId, patch, now), byId);
    var found := FindFirst(cs, byId);
    if found.Some? {
      PatchedRequestIsFound(found.value, requestId, patch, now);
    }
  }

  /** Delete then load: the deleted request is no longer found. */
  lemma DeletedRequestIsGone(cs: seq<Collection>, collectionId: string, requestId: string, now: string)
    ensures FindSavedRequest(CollectionsAfterRequestDelete(cs, collectionId, requestId, now), collectionId, requestId).None?
  {
    var byId := CollectionIdIs(collectionId);
    FindFirstAfterUpdate(cs, byId, DroppingRequests(requestId, now), byId);
  }

  /** Deleting a collection twice is deleting it once. */
  lemma DeleteCollectionIdempotent(cs: seq<Collection>, id: string)
    ensures CollectionsAfterDelete(CollectionsAfterDelete(cs, id), id) == CollectionsAfterDelete(cs, id)
  {
    RemoveWhereIdempotent(cs, CollectionIdIs(id));
  }

  /** Nothing in the list matches a deleted collection's id, so no lookup
      into it succeeds. */
  lemma DeletedCollectionIsGone(cs: seq<Collection>, id: string, requestId: string)
    ensures FindSavedRequest(CollectionsAfterDelete(cs, id), id, requestId).None?
  {
  }

  /** A snapshot of the store's fields, for stating a whole new state. */
  datatype StoreState = StoreState(collections: seq<Collection>, activeCollectionId: Option<string>,
                                   activeRequestId: Option<string>, stored: Option<seq<Collection>>)

  class CollectionsStore {
    var collections: seq<Collection>
    var activeCollectionId: Option<string>
    var activeRequestId: Option<string>
    /** What local storage holds under the collections key. */
    var stored: Option<seq<Collection>>

    /** The list starts as what local storage holds, or empty. */
    constructor (persisted: Option<seq<Collection>>)
      ensures collections == (if persisted.Some? then persisted.value else [])
      ensures stored == persisted
      ensures activeCollectionId.None? && activeRequestId.None?
    {
      collections := if persisted.Some? then persisted.value else [];
      stored := persisted;
      activeCollectionId := None;
      activeRequestId := None;
    }

    function State(): StoreState
      reads this
    {
      StoreState(collections, activeCollectionId, activeRequestId, stored)
    }

    /** Every change to the list is written through to storage. */
    predicate Persisted()
      reads this
    {
      stored == Some(collections)
    }

    method CreateCollection(id: string, name: string, now: string) returns (c: Collection)
      modifies this
      ensures c == Collection(id, name, [], now, now)
      ensures collections == old(collections) + [c] && Persisted()
      ensures activeCollectionId == old(activeCollectionId) && activeRequestId == old(activeRequestId)
    {
      c := Collection(id, name, [], now, now);
      collections := collections + [c];
      stored := Some(collections);
    }

    method UpdateCollection(id: string, patch: CollectionPatch, now: string)
      modifies this
      ensures collections == CollectionsAfterUpdate(old(collections), id, patch, now) && Persisted()
      ensures activeCollectionId == old(activeCollectionId) && activeRequestId == old(activeRequestId)
    {
      collections := CollectionsAfterUpdate(collections, id, patch, now);
      stored := Some(collections);
    }

    /** Deleting clears the active request always, and the active collection
        when it is the one deleted. */
    method DeleteCollection(id: string)
      modifies this
      ensures collections == CollectionsAfterDelete(old(collections), id) && Persisted()
      ensures activeCollectionId == (if old(activeCollectionId) == Some(id) then None else old(activeCollectionId))
      ensures activeRequestId.None?
    {
      collections := CollectionsAfterDelete(collections, id);
      stored := Some(collections);
      activeCollectionId := if activeCollectionId == Some(id) then None else activeCollectionId;
      activeRequestId := None;
    }

    method SaveRequest(collectionId: string, name: string, request: RequestConfig, newId: string, now: string)
      returns (saved: SavedRequest)
      modifies this
      ensures saved == SavedRequest(newId, name, request, now, now)
      ensures collections == CollectionsAfterAppend(old(collections), collectionId, saved, now) && Persisted()
      ensures activeCollectionId == old(activeCollectionId) && activeRequestId == old(activeRequestId)
    {
      saved := SavedRequest(newId, name, request, now, now);
      collections := CollectionsAfterAppend(collections, collectionId, saved, now);
      stored := Some(collections);
    }

    method UpdateRequest(collectionId: string, requestId: string, patch: SavedRequestPatch, now: string)
      modifies this
      ensures collections == CollectionsAfterRequestUpdate(old(collections), collectionId, requestId, patch, now)
      ensures Persisted()
      ensures activeCollectionId == old(activeCollectionId) && activeRequestId == old(activeRequestId)
    {
      collections := CollectionsAfterRequestUpdate(collections, collectionId, requestId, patch, now);
      stored := Some(collections);
    }

    /** Deleting the active request clears `activeRequestId`. */
    method DeleteRequest(collectionId: string, requestId: string, now: string)
      modifies this
      ensures collections == CollectionsAfterRequestDelete(old(collections), collectionId, requestId, now)
      ensures Persisted()
      ensures activeCollectionId == old(activeCollectionId)
      ensures activeRequestId == (if old(activeRequestId) == Some(requestId) then None else old(activeRequestId))
    {
      collections := CollectionsAfterRequestDelete(collections, collectionId, requestId, now);
      stored := Some(collections);
      activeRequestId := if activeRequestId == Some(requestId) then None else activeRequestId;
    }

    /** Nothing happens unless the lookup finds the request; otherwise its
        copy is appended to the collection. */
    method DuplicateRequest(collectionId: string, requestId: string, newId: string, now: string)
      modifies this
      ensures FindSavedRequest(old(collections), collectionId, requestId).None? ==>
                collections == old(collections) && stored == old(stored)
      ensures FindSavedRequest(old(collections), collectionId, requestId).Some? ==>
                collections == CollectionsAfterAppend(old(collections), collectionId,
                  Duplicate(FindSavedRequest(old(collections), collectionId, requestId).value, newId, now), now)
                && Persisted()
      ensures activeCollectionId == old(activeCollectionId) && activeRequestId == old(activeRequestId)
    {
      var found := FindSavedRequest(collections, collectionId, requestId);
      if found.Some? {
        collections := CollectionsAfterAppend(collections, collectionId, Duplicate(found.value, newId, now), now);
        stored := Some(collections);
      }
    }

    /** Choosing a collection (or none) also clears the active request. */
    method SetActiveCollection(id: Option<string>)
      modifies this
      ensures activeCollectionId == id && activeRequestId.None?
      ensures collections == old(collections) && stored == old(stored)
    {
      activeCollectionId := id;
      activeRequestId := None;
    }

    method SetActiveRequest(id: Option<string>)
      modifies this
      ensures activeRequestId == id
      ensures activeCollectionId == old(activeCollectionId)
      ensures collections == old(collections) && stored == old(stored)
    {
      activeRequestId := id;
    }
  }
}
