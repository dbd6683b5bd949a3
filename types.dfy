/** The records the request editor and the collections work on. */
module RequestTypes {
  import opened Common

  datatype HttpMethod = GET | POST | PUT | DELETE | PATCH | OPTIONS

  /** A query parameter or a header row: both have the same fields. */
  datatype KeyValue = KeyValue(id: string, key: string, value: string, enabled: bool)

  /** `Partial<QueryParam>` / `Partial<Header>`: the fields present are
      copied over (`{ ...param, ...updates }`). */
  datatype KeyValuePatch = KeyValuePatch(id: Option<string>, key: Option<string>,
                                         value: Option<string>, enabled: Option<bool>)
  {
    function ApplyTo(kv: KeyValue): KeyValue {
      KeyValue(if id.Some? then id.value else kv.id,
               if key.Some? then key.value else kv.key,
               if value.Some? then value.value else kv.value,
               if enabled.Some? then enabled.value else kv.enabled)
    }
  }

  datatype BodyType = Json | FormData | UrlEncoded | Raw | NoBody

  /** A form field holds text or a chosen file (the file is known by name). */
  datatype FormValue = TextValue(text: string) | FileValue(fileName: string)

  datatype EntryType = TextEntry | FileEntry

  datatype FormDataEntry = FormDataEntry(id: string, key: string, value: FormValue,
                                         entryType: EntryType, enabled: bool)

  datatype FormDataEntryPatch = FormDataEntryPatch(id: Option<string>, key: Option<string>,
                                                   value: Option<FormValue>, entryType: Option<EntryType>,
                                                   enabled: Option<bool>)
  {
    function ApplyTo(e: FormDataEntry): FormDataEntry {
      FormDataEntry(if id.Some? then id.value else e.id,
                    if key.Some? then key.value else e.key,
                    if value.Some? then value.value else e.value,
                    if entryType.Some? then entryType.value else e.entryType,
                    if enabled.Some? then enabled.value else e.enabled)
    }
  }

  /** `string | FormDataEntry[]`. */
  datatype BodyContent = Text(text: string) | Entries(entries: seq<FormDataEntry>)

  datatype Body = Body(bodyType: BodyType, content: BodyContent)

  datatype RequestConfig = RequestConfig(httpMethod: HttpMethod, url: string, queryParams: seq<KeyValue>,
                                         headers: seq<KeyValue>, body: Option<Body>)

  datatype SavedRequest = SavedRequest(id: string, name: string, request: RequestConfig,
                                       createdAt: string, updatedAt: string)

  /** `Partial<SavedRequest>` (its `updatedAt` is always overwritten, so it
      is not a field here). */
  datatype SavedRequestPatch = SavedRequestPatch(id: Option<string>, name: Option<string>,
                                                 request: Option<RequestConfig>, createdAt: Option<string>)
  {
    function ApplyTo(r: SavedRequest, now: string): SavedRequest {
      SavedRequest(if id.Some? then id.value else r.id,
                   if name.Some? then name.value else r.name,
                   if request.Some? then request.value else r.request,
                   if createdAt.Some? then createdAt.value else r.createdAt,
                   now)
    }
  }

  datatype Collection = Collection(id: string, name: string, requests: seq<SavedRequest>,
                                   createdAt: string, updatedAt: string)

  /** `Partial<Collection>`, likewise without `updatedAt`. */
  datatype CollectionPatch = CollectionPatch(id: Option<string>, name: Option<string>,
                                             requests: Option<seq<SavedRequest>>, createdAt: Option<string>)
  {
    function ApplyTo(c: Collection, now: string): Collection {
      Collection(if id.Some? then id.value else c.id,
                 if name.Some? then name.value else c.name,
                 if requests.Some? then requests.value else c.requests,
                 if createdAt.Some? then createdAt.value else c.createdAt,
                 now)
    }
  }
}
