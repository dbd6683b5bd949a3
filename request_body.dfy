/** The request body panel: the form-entry list edits, the JSON editor's
    line gutter with its collapse toggles, the JSON error shown under the
    editor, and the step that makes the body content fit its type. */
module RequestBodyPanel {
  import opened Common
  import opened RequestTypes
  import opened Collections
  import opened RequestEditor
  import opened RequestLoader
  import opened TextLines

  /** `getFormContent`: the body's entries when its content is a list, and
      no entries otherwise. */
  function FormContent(body: Option<Body>): (r: seq<FormDataEntry>)
    ensures body.Some? && body.value.content.Entries? ==> r == body.value.content.entries
    ensures body.None? || body.value.content.Text? ==> r == []
  {
    if body.None? then []
    else match body.value.content
      case Text(_) => []
      case Entries(entries) => entries
  }

  /** The entry "Add Field" appends. */
  function BlankEntry(id: string): (e: FormDataEntry)
    ensures e.id == id && e.key == "" && e.value == TextValue("") && e.entryType == TextEntry && e.enabled
  {
    FormDataEntry(id, "", TextValue(""), TextEntry, true)
  }

  function EntryIdIs(id: string): FormDataEntry -> bool
  {
    (e: FormDataEntry) => e.id == id
  }

  function EntryPatchedBy(patch: FormDataEntryPatch): FormDataEntry -> FormDataEntry
  {
    (e: FormDataEntry) => patch.ApplyTo(e)
  }

  /** `updateFormDataEntry`'s list: the patch is merged into the entries
      with the id, every other entry stays where and as it was. */
  function EntriesAfterUpdate(entries: seq<FormDataEntry>, id: string, patch: FormDataEntryPatch): (r: seq<FormDataEntry>)
    ensures |r| == |entries|
    ensures forall i :: 0 <= i < |entries| && entries[i].id != id ==> r[i] == entries[i]
    ensures forall i :: 0 <= i < |entries| && entries[i].id == id ==> r[i] == patch.ApplyTo(entries[i])
  {
    UpdateWhere(entries, EntryIdIs(id), EntryPatchedBy(patch))
  }

  /** `removeFormDataEntry`'s list: exactly the entries with the id are
      dropped. */
  function EntriesAfterRemove(entries: seq<FormDataEntry>, id: string): (r: seq<FormDataEntry>)
    ensures forall i :: 0 <= i < |r| ==> r[i].id != id && r[i] in entries
    ensures forall i :: 0 <= i < |entries| && entries[i].id != id ==> entries[i] in r
  {
    RemoveWhere(entries, EntryIdIs(id))
  }

  /** Removal keeps the survivors' order: it works piece by piece. */
  lemma RemoveKeepsOrder(front: seq<FormDataEntry>, back: seq<FormDataEntry>, id: string)
    ensures EntriesAfterRemove(front + back, id) == EntriesAfterRemove(front, id) + EntriesAfterRemove(back, id)
  {
    RemoveWhereConcat(front, back, EntryIdIs(id));
  }

  /** Add then remove the new entry: the list is as it was. */
  lemma {:induction false} AddThenRemoveEntry(entries: seq<FormDataEntry>, id: string)
    requires forall i :: 0 <= i < |entries| ==> entries[i].id != id
    ensures EntriesAfterRemove(entries + [BlankEntry(id)], id) == entries
  {
    RemoveKeepsOrder(entries, [BlankEntry(id)], id);
    RemoveAbsentEntry(entries, id);
    assert [BlankEntry(id)][1..] == [];
  }

  lemma {:induction false} RemoveAbsentEntry(entries: seq<FormDataEntry>, id: string)
    requires forall i :: 0 <= i < |entries| ==> entries[i].id != id
    ensures EntriesAfterRemove(entries, id) == entries
  {
    if entries != [] {
      RemoveAbsentEntry(entries[1..], id);
      RemoveKeepsOrder([entries[0]], entries[1..], id);
      assert [entries[0]] + entries[1..] == entries;
      assert [entries[0]][1..] == [];
    }
  }

  /** The patch the file picker sends: the chosen file, as a file entry. */
  function FilePatch(fileName: string): (p: FormDataEntryPatch)
    ensures p.value == Some(FileValue(fileName)) && p.entryType == Some(FileEntry)
    ensures p.id.None? && p.key.None? && p.enabled.None?
  {
    FormDataEntryPatch(None, None, Some(FileValue(fileName)), Some(FileEntry), None)
  }

  /** Whether a line's collapse toggle is on: an absent entry is off. */
  predicate IsCollapsed(collapsed: map<nat, bool>, line: nat)
  {
    line in collapsed && collapsed[line]
  }

  /** `toggleLineCollapse`'s new map. */
  function Toggled(collapsed: map<nat, bool>, line: nat): (r: map<nat, bool>)
    ensures IsCollapsed(r, line) == !IsCollapsed(collapsed, line)
    ensures line in r
    ensures forall j :: j != line ==> (j in r <==> j in collapsed)
    ensures forall j :: j != line && j in collapsed ==> r[j] == collapsed[j]
  {
    collapsed[line := !IsCollapsed(collapsed, line)]
  }

  /** Toggling a line twice leaves every line's state as it was. */
  lemma ToggleTwice(collapsed: map<nat, bool>, line: nat, other: nat)
    ensures IsCollapsed(Toggled(Toggled(collapsed, line), line), other) == IsCollapsed(collapsed, other)
  {
  }

  /** A gutter line shows a chevron, and can be clicked, exactly when its
      trimmed text ends with `{` or `[`. */
  predicate ShowChevron(line: string)
  {
    var t := Trim(line);
    |t| > 0 && (t[|t| - 1] == '{' || t[|t| - 1] == '[')
  }

  /** A line followed only by whitespace after a `{` or `[` at `i`. */
  predicate OpensAt(line: string, i: nat)
  {
    i < |line| && (line[i] == '{' || line[i] == '[') &&
    forall j :: i < j < |line| ==> IsJsWhitespace(line[j])
  }

  /** The chevron rule in the line's own terms: some `{` or `[` is followed
      by nothing but whitespace. */
  lemma ChevronRule(line: string)
    ensures ShowChevron(line) <==> exists i :: OpensAt(line, i)
  {
    if ShowChevron(line) {
      ChevronHasOpening(line);
    }
    if exists i :: OpensAt(line, i) {
      var i :| OpensAt(line, i);
      OpeningShowsChevron(line, i);
    }
  }

  lemma ChevronHasOpening(line: string)
    requires ShowChevron(line)
    ensures OpensAt(line, |line| - |TrimStart(line)| + |Trim(line)| - 1)
  {
    TrimLastIsLastVisible(line);
  }

  lemma OpeningShowsChevron(line: string, i: nat)
    requires OpensAt(line, i)
    ensures ShowChevron(line)
  {
    assert !IsJsWhitespace(line[i]);
    TrimLast(line, i);
  }

  /** One button of the gutter: the number it shows and whether it has a
      chevron. */
  datatype GutterLine = GutterLine(number: nat, chevron: bool)

  /** The text the gutter numbers: the body's text, or one empty line when
      the content is not text. */
  function GutterText(body: Option<Body>): (lines: seq<string>)
    ensures |lines| >= 1
    ensures body.Some? && body.value.content.Text? ==> JoinLines(lines) == body.value.content.text
  {
    if body.Some? && body.value.content.Text? then
      SplitJoin(body.value.content.text);
      SplitLines(body.value.content.text)
    else [""]
  }

  /** The gutter: one button per line, numbered from 1 in order. */
  function Gutter(body: Option<Body>): (g: seq<GutterLine>)
    ensures |g| == |GutterText(body)|
    ensures forall i :: 0 <= i < |g| ==> g[i].number == i + 1 && g[i].chevron == ShowChevron(GutterText(body)[i])
  {
    var lines := GutterText(body);
    seq(|lines|, i requires 0 <= i < |lines| => GutterLine(i + 1, ShowChevron(lines[i])))
  }

  /** A text body has one gutter line more than it has line feeds. */
  lemma GutterCountsLines(text: string, t: BodyType)
    ensures |Gutter(Some(Body(t, Text(text))))| == CountLineFeeds(text) + 1
  {
    SplitJoin(text);
  }

  /** The JSON error after an edit: cleared when the text is blank, and
      otherwise the parser's message (`None` when the text parses). */
  function JsonErrorAfter(content: string, parseError: Option<string>): (r: Option<string>)
    ensures (forall i :: 0 <= i < |content| ==> IsJsWhitespace(content[i])) ==> r.None?
    ensures (exists i :: 0 <= i < |content| && !IsJsWhitespace(content[i])) ==> r == parseError
  {
    TrimEmpty(content);
    if Trim(content) != [] then parseError else None
  }

  /** The type the panel treats the body as: an absent body counts as JSON. */
  function EffectiveType(body: Option<Body>): (t: BodyType)
    ensures body.Some? ==> t == body.value.bodyType
    ensures body.None? ==> t == Json
  {
    if body.Some? then body.value.bodyType else Json
  }

  /** The content the body-type effect writes, if any: an empty list for
      the form types when the content is not a list, the empty text for
      JSON and raw when the content is not text (and, with no body at all,
      the empty text, which the store then ignores). */
  function NormalizingContent(body: Option<Body>): (r: Option<BodyContent>)
    ensures body.Some? && (body.value.bodyType == FormData || body.value.bodyType == UrlEncoded) ==>
              (r.Some? <==> body.value.content.Text?) && (r.Some? ==> r.value == Entries([]))
    ensures body.Some? && (body.value.bodyType == Json || body.value.bodyType == Raw) ==>
              (r.Some? <==> body.value.content.Entries?) && (r.Some? ==> r.value == Text(""))
    ensures body.Some? && body.value.bodyType == NoBody ==> r.None?
    ensures body.None? ==> r == Some(Text(""))
  {
    var t := EffectiveType(body);
    if t == FormData || t == UrlEncoded then
      (if body.Some? && body.value.content.Entries? then None else Some(Entries([])))
    else if t == Json || t == Raw then
      (if body.Some? && body.value.content.Text? then None else Some(Text("")))
    else None
  }

  /** The content fits the type: a list for the form types, text for JSON
      and raw. */
  predicate ContentFits(body: Option<Body>)
  {
    body.Some? ==>
      ((body.value.bodyType == FormData || body.value.bodyType == UrlEncoded) ==> body.value.content.Entries?) &&
      ((body.value.bodyType == Json || body.value.bodyType == Raw) ==> body.value.content.Text?)
  }

  /** The body after the effect. */
  function Normalized(body: Option<Body>): Option<Body>
  {
    var c := NormalizingContent(body);
    if c.Some? then WithContent(body, c.value) else body
  }

  /** After the effect the content fits the type, content that already fit
      is left alone, and running the effect again changes nothing. */
  lemma NormalizeFits(body: Option<Body>)
    ensures ContentFits(Normalized(body))
    ensures ContentFits(body) ==> Normalized(body) == body
    ensures Normalized(Normalized(body)) == Normalized(body)
  {
  }

  /** The JSON body as `handleJsonChange` leaves it in the editor. */
  function EditedRequest(rendered: RequestConfig, content: BodyContent): (r: RequestConfig)
    ensures r.body == WithContent(rendered.body, content)
    ensures r.httpMethod == rendered.httpMethod && r.url == rendered.url
    ensures r.queryParams == rendered.queryParams && r.headers == rendered.headers
  {
    rendered.(body := WithContent(rendered.body, content))
  }

  /** An edit that changes a present body's content always gives a request
      different from the one rendered before it. */
  lemma EditChangesRequest(rendered: RequestConfig, content: BodyContent)
    requires rendered.body.Some? && rendered.body.value.content != content
    ensures EditedRequest(rendered, content) != rendered
  {
    assert EditedRequest(rendered, content).body.value.content == content;
  }

  class RequestBodyView {
    var collapsedLines: map<nat, bool>
    var jsonError: Option<string>

    constructor ()
      ensures collapsedLines == map[] && jsonError.None?
    {
      collapsedLines := map[];
      jsonError := None;
    }

    method ToggleLineCollapse(line: nat)
      modifies this
      ensures collapsedLines == Toggled(old(collapsedLines), line)
      ensures jsonError == old(jsonError)
    {
      collapsedLines := collapsedLines[line := !IsCollapsed(collapsedLines, line)];
    }

    /** A click on gutter line `i` toggles it only when it has a chevron. */
    method ClickGutterLine(body: Option<Body>, i: nat)
      requires i < |Gutter(body)|
      modifies this
      ensures collapsedLines == (if Gutter(body)[i].chevron then Toggled(old(collapsedLines), i)
                                 else old(collapsedLines))
      ensures jsonError == old(jsonError)
    {
      var gutter := Gutter(body);
      if gutter[i].chevron {
        ToggleLineCollapse(i);
      }
    }

    /** `handleJsonChange` as written: the editor gets the new text, but the
        write-back sends the request of the render the handler belongs to,
        so the saved request keeps the text from before this edit.
        `parseError` is what `JSON.parse` reports for the text. */
    method HandleJsonChangeAsWritten(editor: RequestStore, store: CollectionsStore, content: string,
                                     parseError: Option<string>, now: string)
      modifies this`jsonError, editor, store
      ensures editor.request == EditedRequest(old(editor.request), Text(content))
      ensures jsonError == JsonErrorAfter(content, parseError)
      ensures store.State() == WrittenBack(old(store.State()), old(editor.request), now)
      ensures CurrentHolds(store, old(editor.request))
    {
      jsonError := JsonErrorAfter(content, parseError);
      var rendered := editor.request;
      editor.SetBodyContent(Text(content));
      UpdateCurrentRequest(store, rendered, now);
    }

    /** `handleJsonChange` with the write-back sending the request as it is
        after the edit: the saved request and the editor agree. */
    method HandleJsonChange(editor: RequestStore, store: CollectionsStore, content: string,
                            parseError: Option<string>, now: string)
      modifies this`jsonError, editor, store
      ensures editor.request == EditedRequest(old(editor.request), Text(content))
      ensures jsonError == JsonErrorAfter(content, parseError)
      ensures store.State() == WrittenBack(old(store.State()), editor.request, now)
      ensures CurrentHolds(store, editor.request)
    {
      jsonError := JsonErrorAfter(content, parseError);
      editor.SetBodyContent(Text(content));
      var edited := editor.request;
      UpdateCurrentRequest(store, edited, now);
    }

    /** `handleFormDataChange` as written: like `handleJsonChange`, the
        write-back sends the request of the render, from before the edit. */
    method HandleFormDataChangeAsWritten(editor: RequestStore, store: CollectionsStore, entries: seq<FormDataEntry>,
                                         now: string)
      modifies editor, store
      ensures editor.request == EditedRequest(old(editor.request), Entries(entries))
      ensures store.State() == WrittenBack(old(store.State()), old(editor.request), now)
      ensures CurrentHolds(store, old(editor.request))
    {
      var rendered := editor.request;
      editor.SetBodyContent(Entries(entries));
      UpdateCurrentRequest(store, rendered, now);
    }

    /** `handleFormDataChange`, with the same corrected write-back. */
    method HandleFormDataChange(editor: RequestStore, store: CollectionsStore, entries: seq<FormDataEntry>, now: string)
      modifies editor, store
      ensures editor.request == EditedRequest(old(editor.request), Entries(entries))
      ensures store.State() == WrittenBack(old(store.State()), editor.request, now)
      ensures CurrentHolds(store, editor.request)
    {
      editor.SetBodyContent(Entries(entries));
      var edited := editor.request;
      UpdateCurrentRequest(store, edited, now);
    }

    /** "Add Field": a blank text entry after the existing ones. */
    method AddFormDataEntry(editor: RequestStore, store: CollectionsStore, newId: string, now: string)
      modifies editor, store
      ensures editor.request == EditedRequest(old(editor.request),
                                              Entries(FormContent(old(editor.request.body)) + [BlankEntry(newId)]))
      ensures store.State() == WrittenBack(old(store.State()), editor.request, now)
      ensures CurrentHolds(store, editor.request)
    {
      HandleFormDataChange(editor, store, FormContent(editor.request.body) + [BlankEntry(newId)], now);
    }

    method UpdateFormDataEntry(editor: RequestStore, store: CollectionsStore, id: string,
                               patch: FormDataEntryPatch, now: string)
      modifies editor, store
      ensures editor.request == EditedRequest(old(editor.request),
                                              Entries(EntriesAfterUpdate(FormContent(old(editor.request.body)), id, patch)))
      ensures store.State() == WrittenBack(old(store.State()), editor.request, now)
      ensures CurrentHolds(store, editor.request)
    {
      HandleFormDataChange(editor, store, EntriesAfterUpdate(FormContent(editor.request.body), id, patch), now);
    }

    method RemoveFormDataEntry(editor: RequestStore, store: CollectionsStore, id: string, now: string)
      modifies editor, store
      ensures editor.request == EditedRequest(old(editor.request),
                                              Entries(EntriesAfterRemove(FormContent(old(editor.request.body)), id)))
      ensures store.State() == WrittenBack(old(store.State()), editor.request, now)
      ensures CurrentHolds(store, editor.request)
    {
      HandleFormDataChange(editor, store, EntriesAfterRemove(FormContent(editor.request.body), id), now);
    }

    /** A file chosen for an entry turns it into a file entry holding it. */
    method HandleFileChange(editor: RequestStore, store: CollectionsStore, id: string, fileName: string, now: string)
      modifies editor, store
      ensures editor.request == EditedRequest(old(editor.request),
                                              Entries(EntriesAfterUpdate(FormContent(old(editor.request.body)), id,
                                                                         FilePatch(fileName))))
      ensures store.State() == WrittenBack(old(store.State()), editor.request, now)
      ensures CurrentHolds(store, editor.request)
    {
      UpdateFormDataEntry(editor, store, id, FilePatch(fileName), now);
    }

    /** The effect that runs when the body's type or content changes. */
    method NormalizeContent(editor: RequestStore)
      modifies editor
      ensures editor.request == old(editor.request).(body := Normalized(old(editor.request.body)))
      ensures ContentFits(editor.request.body)
    {
      NormalizeFits(editor.request.body);
      var c := NormalizingContent(editor.request.body);
      if c.Some? {
        editor.SetBodyContent(c.value);
      }
    }
  }
}
