/** The request editor store: the one request being edited. New row ids
    come from a random-id generator and are parameters here. */
module RequestEditor {
  import opened Common
  import opened RequestTypes

  /** The editor's starting request: a GET with no URL, no rows and an empty
      body of type none. */
  function InitialRequest(): (r: RequestConfig)
    ensures r.httpMethod == GET && r.url == "" && r.queryParams == [] && r.headers == []
    ensures r.body == Some(Body(NoBody, Text("")))
  {
    RequestConfig(GET, "", [], [], Some(Body(NoBody, Text(""))))
  }

  /** The blank row `addQueryParam` and `addHeader` append. */
  function BlankRow(id: string): (r: KeyValue)
    ensures r.id == id && r.key == "" && r.value == "" && r.enabled
  {
    KeyValue(id, "", "", true)
  }

  function RowIdIs(id: string): KeyValue -> bool
  {
    (kv: KeyValue) => kv.id == id
  }

  function RowPatchedBy(patch: KeyValuePatch): KeyValue -> KeyValue
  {
    (kv: KeyValue) => patch.ApplyTo(kv)
  }

  /** Rows after an update: the rows with the id get the patch's fields,
      the others are unchanged. */
  function RowsAfterUpdate(rows: seq<KeyValue>, id: string, patch: KeyValuePatch): (r: seq<KeyValue>)
    ensures |r| == |rows|
    ensures forall i :: 0 <= i < |rows| && rows[i].id != id ==> r[i] == rows[i]
    ensures forall i :: 0 <= i < |rows| && rows[i].id == id ==>
              r[i].id == (if patch.id.Some? then patch.id.value else id) &&
              r[i].key == (if patch.key.Some? then patch.key.value else rows[i].key) &&
              r[i].value == (if patch.value.Some? then patch.value.value else rows[i].value) &&
              r[i].enabled == (if patch.enabled.Some? then patch.enabled.value else rows[i].enabled)
  {
    UpdateWhere(rows, RowIdIs(id), RowPatchedBy(patch))
  }

  /** Rows after a removal: the rows with the id are gone, all others stay. */
  function RowsAfterRemove(rows: seq<KeyValue>, id: string): (r: seq<KeyValue>)
    ensures forall i :: 0 <= i < |r| ==> r[i].id != id && r[i] in rows
    ensures forall i :: 0 <= i < |rows| && rows[i].id != id ==> rows[i] in r
  {
    RemoveWhere(rows, RowIdIs(id))
  }

  /** Add then remove: a row added with a fresh id and removed again leaves
      the rows as they were. */
  lemma {:induction false} AddThenRemove(rows: seq<KeyValue>, id: string)
    requires forall i :: 0 <= i < |rows| ==> rows[i].id != id
    ensures RowsAfterRemove(rows + [BlankRow(id)], id) == rows
  {
    RemoveWhereConcat(rows, [BlankRow(id)], RowIdIs(id));
    RemoveAbsent(rows, id);
    assert [BlankRow(id)][1..] == [];
  }

  /** Removing an id no row carries changes nothing. */
  lemma {:induction false} RemoveAbsent(rows: seq<KeyValue>, id: string)
    requires forall i :: 0 <= i < |rows| ==> rows[i].id != id
    ensures RowsAfterRemove(rows, id) == rows
  {
    if rows != [] {
      RemoveAbsent(rows[1..], id);
      RemoveWhereConcat([rows[0]], rows[1..], RowIdIs(id));
      assert [rows[0]] + rows[1..] == rows;
      assert [rows[0]][1..] == [];
    }
  }

  /** Updating rows, when the patch keeps the id, leaves a removal by that
      id with the same result as removing right away. */
  lemma {:induction false} UpdateThenRemove(rows: seq<KeyValue>, id: string, patch: KeyValuePatch)
    requires patch.id.None? || patch.id == Some(id)
    ensures RowsAfterRemove(RowsAfterUpdate(rows, id, patch), id) == RowsAfterRemove(rows, id)
  {
    if rows != [] {
      UpdateThenRemove(rows[1..], id, patch);
      var u := RowsAfterUpdate(rows, id, patch);
      assert u == [u[0]] + u[1..];
      assert u[1..] == RowsAfterUpdate(rows[1..], id, patch);
      RemoveWhereConcat([u[0]], u[1..], RowIdIs(id));
      RemoveWhereConcat([rows[0]], rows[1..], RowIdIs(id));
      assert [rows[0]] + rows[1..] == rows;
      assert [u[0]][1..] == [] && [rows[0]][1..] == [];
    }
  }

  /** The empty content `setBodyType` starts a body of each type with: no
      entries for the two form types, the empty text for the others. */
  function EmptyContent(t: BodyType): (r: BodyContent)
    ensures r.Entries? <==> (t == FormData || t == UrlEncoded)
    ensures r.Entries? ==> r.entries == []
    ensures r.Text? ==> r.text == ""
  {
    if t == FormData || t == UrlEncoded then Entries([]) else Text("")
  }

  /** `setBodyContent` replaces the content of a present body and leaves an
      absent body absent. */
  function WithContent(body: Option<Body>, content: BodyContent): (r: Option<Body>)
    ensures r.Some? <==> body.Some?
    ensures r.Some? ==> r.value.bodyType == body.value.bodyType && r.value.content == content
  {
    if body.Some? then Some(body.value.(content := content)) else None
  }

  class RequestStore {
    var request: RequestConfig

    constructor ()
      ensures request == InitialRequest()
    {
      request := InitialRequest();
    }

    method SetMethod(m: HttpMethod)
      modifies this
      ensures request == old(request).(httpMethod := m)
    {
      request := request.(httpMethod := m);
    }

    method SetUrl(url: string)
      modifies this
      ensures request == old(request).(url := url)
    {
      request := request.(url := url);
    }

    method SetQueryParams(rows: seq<KeyValue>)
      modifies this
      ensures request == old(request).(queryParams := rows)
    {
      request := request.(queryParams := rows);
    }

    method AddQueryParam(newId: string)
      modifies this
      ensures request == old(request).(queryParams := old(request.queryParams) + [BlankRow(newId)])
    {
      request := request.(queryParams := request.queryParams + [BlankRow(newId)]);
    }

    method UpdateQueryParam(id: string, patch: KeyValuePatch)
      modifies this
      ensures request == old(request).(queryParams := RowsAfterUpdate(old(request.queryParams), id, patch))
    {
      request := request.(queryParams := RowsAfterUpdate(request.queryParams, id, patch));
    }

    method RemoveQueryParam(id: string)
      modifies this
      ensures request == old(request).(queryParams := RowsAfterRemove(old(request.queryParams), id))
    {
      request := request.(queryParams := RowsAfterRemove(request.queryParams, id));
    }

    method SetHeaders(rows: seq<KeyValue>)
      modifies this
      ensures request == old(request).(headers := rows)
    {
      request := request.(headers := rows);
    }

    method AddHeader(newId: string)
      modifies this
      ensures request == old(request).(headers := old(request.headers) + [BlankRow(newId)])
    {
      request := request.(headers := request.headers + [BlankRow(newId)]);
    }

    method UpdateHeader(id: string, patch: KeyValuePatch)
      modifies this
      ensures request == old(request).(headers := RowsAfterUpdate(old(request.headers), id, patch))
    {
      request := request.(headers := RowsAfterUpdate(request.headers, id, patch));
    }

    method RemoveHeader(id: string)
      modifies this
      ensures request == old(request).(headers := RowsAfterRemove(old(request.headers), id))
    {
      request := request.(headers := RowsAfterRemove(request.headers, id));
    }

    /** Choosing a body type always leaves a body present, with that type's
        empty content (the previous content is dropped). */
    method SetBodyType(t: BodyType)
      modifies this
      ensures request == old(request).(body := Some(Body(t, EmptyContent(t))))
    {
      request := request.(body := Some(Body(t, EmptyContent(t))));
    }

    method SetBodyContent(content: BodyContent)
      modifies this
      ensures request == old(request).(body := WithContent(old(request.body), content))
    {
      request := request.(body := WithContent(request.body, content));
    }
  }
}
