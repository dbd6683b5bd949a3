/** Moving requests between the collections and the editor: loading a saved
    request into the editor, finding the active saved request, and writing
    the editor's request back to it. The hook reads both stores when the
    component renders; the editor request it writes back is that render's
    copy, so it is a parameter here. */
module RequestLoader {
  import opened Common
  import opened RequestTypes
  import opened Collections
  import opened RequestEditor

  /** Truthiness of a `string | null` id: null and the empty string are
      both "not set". */
  predicate IsSet(id: Option<string>)
  {
    id.Some? && id.value != ""
  }

  /** `getCurrentRequest`: the saved request the active ids point at. */
  function GetCurrentRequest(cs: seq<Collection>, activeCollectionId: Option<string>,
                             activeRequestId: Option<string>): (r: Option<SavedRequest>)
    ensures !IsSet(activeCollectionId) || !IsSet(activeRequestId) ==> r.None?
    ensures IsSet(activeCollectionId) && IsSet(activeRequestId) ==>
              r == FindSavedRequest(cs, activeCollectionId.value, activeRequestId.value)
    ensures r.Some? ==> r.value.id == activeRequestId.value
    ensures r.Some? ==> exists i, j :: 0 <= i < |cs| && cs[i].id == activeCollectionId.value &&
                                       0 <= j < |cs[i].requests| && cs[i].requests[j] == r.value
  {
    if !IsSet(activeCollectionId) || !IsSet(activeRequestId) then None
    else FindSavedRequest(cs, activeCollectionId.value, activeRequestId.value)
  }

  /** The editor request after `loadSavedRequest`: method, URL, headers and
      parameters always come from the saved request; the body only when the
      saved request has one. */
  function LoadedRequest(current: RequestConfig, saved: RequestConfig): (r: RequestConfig)
    ensures saved.body.Some? ==> r == saved
    ensures saved.body.None? ==> r == saved.(body := current.body)
  {
    var r := current.(httpMethod := saved.httpMethod, url := saved.url,
                      headers := saved.headers, queryParams := saved.queryParams);
    if saved.body.Some? then
      var typed := r.(body := Some(Body(saved.body.value.bodyType, EmptyContent(saved.body.value.bodyType))));
      typed.(body := WithContent(typed.body, saved.body.value.content))
    else r
  }

  /** `loadSavedRequest`, one store setter after another. */
  method LoadSavedRequest(editor: RequestStore, saved: SavedRequest)
    modifies editor
    ensures editor.request == LoadedRequest(old(editor.request), saved.request)
  {
    var request := saved.request;
    editor.SetMethod(request.httpMethod);
    editor.SetUrl(request.url);
    editor.SetHeaders(request.headers);
    editor.SetQueryParams(request.queryParams);
    if request.body.Some? {
      editor.SetBodyType(request.body.value.bodyType);
      editor.SetBodyContent(request.body.value.content);
    }
  }

  /** `loadRequest`: nothing happens when the lookup fails; otherwise the
      request becomes the active one (the active collection is left as it
      was) and is loaded into the editor. */
  method LoadRequest(store: CollectionsStore, editor: RequestStore, collectionId: string, requestId: string)
    modifies store, editor
    ensures FindSavedRequest(old(store.collections), collectionId, requestId).None? ==>
              editor.request == old(editor.request) && store.activeRequestId == old(store.activeRequestId)
    ensures FindSavedRequest(old(store.collections), collectionId, requestId).Some? ==>
              editor.request == LoadedRequest(old(editor.request),
                                              FindSavedRequest(old(store.collections), collectionId, requestId).value.request)
              && store.activeRequestId == Some(requestId)
    ensures store.collections == old(store.collections) && store.stored == old(store.stored)
    ensures store.activeCollectionId == old(store.activeCollectionId)
  {
    var found := FindSavedRequest(store.collections, collectionId, requestId);
    if found.None? {
      return;
    }
    store.SetActiveRequest(Some(requestId));
    LoadSavedRequest(editor, found.value);
  }

  /** Loading a request while its collection is the active one makes it the
      current request. */
  lemma LoadedIsCurrent(cs: seq<Collection>, collectionId: string, requestId: string)
    requires collectionId != "" && requestId != ""
    requires FindSavedRequest(cs, collectionId, requestId).Some?
    ensures GetCurrentRequest(cs, Some(collectionId), Some(requestId)) == FindSavedRequest(cs, collectionId, requestId)
  {
  }

  /** The patch `updateCurrentRequest` sends: only the request changes. */
  function RequestPatch(request: RequestConfig): (p: SavedRequestPatch)
    ensures p.id.None? && p.name.None? && p.createdAt.None? && p.request == Some(request)
  {
    SavedRequestPatch(None, None, Some(request), None)
  }

  /** The current saved request, if there is one, holds `request`. */
  predicate CurrentHolds(store: CollectionsStore, request: RequestConfig)
    reads store
  {
    var current := GetCurrentRequest(store.collections, store.activeCollectionId, store.activeRequestId);
    current.Some? ==> current.value.request == request
  }

  /** The store after `updateCurrentRequest` writes `request` back: with
      no current request nothing changes; otherwise the current request's
      collection gets the patch, the list is persisted, the active ids stay,
      and the current request is the old one holding `request`, stamped now. */
  function WrittenBack(s: StoreState, request: RequestConfig, now: string): (r: StoreState)
    ensures r.activeCollectionId == s.activeCollectionId && r.activeRequestId == s.activeRequestId
    ensures GetCurrentRequest(s.collections, s.activeCollectionId, s.activeRequestId).None? ==> r == s
    ensures var current := GetCurrentRequest(s.collections, s.activeCollectionId, s.activeRequestId);
      current.Some? ==>
        r.collections == CollectionsAfterRequestUpdate(s.collections, s.activeCollectionId.value,
                                                       current.value.id, RequestPatch(request), now) &&
        r.stored == Some(r.collections) &&
        GetCurrentRequest(r.collections, r.activeCollectionId, r.activeRequestId)
          == Some(current.value.(request := request, updatedAt := now))
  {
    var current := GetCurrentRequest(s.collections, s.activeCollectionId, s.activeRequestId);
    if current.None? then s
    else
      UpdatedRequestIsFound(s.collections, s.activeCollectionId.value, current.value.id, RequestPatch(request), now);
      var cs := CollectionsAfterRequestUpdate(s.collections, s.activeCollectionId.value,
                                              current.value.id, RequestPatch(request), now);
      s.(collections := cs, stored := Some(cs))
  }

  /** `updateCurrentRequest`: the editor request (as of the render that
      made the callback) is stored into the current saved request, which
      then holds it. */
  method UpdateCurrentRequest(store: CollectionsStore, request: RequestConfig, now: string)
    modifies store
    ensures store.State() == WrittenBack(old(store.State()), request, now)
    ensures CurrentHolds(store, request)
  {
    var current := GetCurrentRequest(store.collections, store.activeCollectionId, store.activeRequestId);
    if current.Some? && IsSet(store.activeCollectionId) {
      UpdatedRequestIsFound(store.collections, store.activeCollectionId.value, current.value.id,
                            RequestPatch(request), now);
      store.UpdateRequest(store.activeCollectionId.value, current.value.id, RequestPatch(request), now);
    }
  }
}
