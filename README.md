# konekt-api client core, modelled in Dafny

konekt-api is a browser HTTP client. This project models its core:

- the JSON syntax highlighter that renders a response body as numbered, collapsible lines (`src/lib/formatJson.ts`);
- the collections store of saved requests (`src/store/collectionsStore.ts`);
- the request editor store (`src/store/requestStore.ts`);
- the toast queue (`src/components/ui/use-toast.ts`);
- the response store (`src/store/responseStore.ts`);
- the hook that moves requests between the collections and the editor (`src/hooks/useRequestLoader.ts`);
- the helpers of the request body panel (`src/components/request/RequestBody.tsx`);
- the helpers of the response viewer (`src/components/response/ResponseViewer.tsx`).

Layout, one module per file:

| file | module | models |
|---|---|---|
| `common.dfy` | `Common` | `Option`, and the `map` / `filter` / `find` idioms on lists |
| `decimal.dfy` | `Decimal` | decimal text of numbers (`String(n)`, `count.toString()`) |
| `types.dfy` | `RequestTypes` | the request and collection records and their `Partial<>` patches |
| `format_json.dfy` | `FormatJson` | the highlighter, with the line counter threaded through the walk |
| `collections_store.dfy` | `Collections` | the collections store as a class |
| `request_store.dfy` | `RequestEditor` | the editor store as a class |
| `toast.dfy` | `Toasts` | the toast reducer, plus a class for the module-level list and counter |
| `response_store.dfy` | `Responses` | the response store as a class |
| `request_loader.dfy` | `RequestLoader` | `loadRequest`, `loadSavedRequest`, `getCurrentRequest`, `updateCurrentRequest` |
| `text_lines.dfy` | `TextLines` | JavaScript `trim` and `split('\n')` |
| `request_body.dfy` | `RequestBodyPanel` | form entries, gutter and collapse toggles, JSON error, body normalisation |
| `response_viewer.dfy` | `ResponseView` | status colour, size label, expander protocol |

The highlighter's output is modelled as structure, not HTML:

- a tree of rows and content groups;
- each row records its depth, its optional line number, its role (plain, opening or closing), its optional key, its token and whether it ends with a comma.

`LineText` gives the text a row shows, without the markup around it. The stores become classes whose methods reassign their fields through pure list functions. Those functions carry the properties. Ids (uuid), timestamps and the outcome of `JSON.parse` are parameters.

## Model

| member | source | states |
|---|---|---|
| FormatJson.GetValueType | src/lib/formatJson.ts:14-22 | each of the six type names is returned exactly for its kind of value (null, boolean, number, string, object, array) |
| FormatJson.FormatPrimitive | src/lib/formatJson.ts:26-39 | a primitive is shown as its own token: `null` only for null, the boolean, the number, or the quoted string |
| FormatJson.TokenText | src/lib/formatJson.ts:26-39 | a token's text is never empty and never ends with a comma, so the comma at the end of a line comes only from the `isLast` rule |
| FormatJson.Indentation | src/lib/formatJson.ts:50-52 | indentation is exactly two spaces per level |
| FormatJson.LineText | src/lib/formatJson.ts:58-71 | a line is its indentation, then `"key": ` verbatim when keyed, and it ends with `,` exactly when it is not the last sibling |
| FormatJson.Highlighter.constructor | src/lib/formatJson.ts:24 | the counter starts at 1 |
| FormatJson.Highlighter.Highlight | src/lib/formatJson.ts:130-154 | the result is the highlighter's output. When the input parses, the counter is reset and ends one past the last line number used. When it does not parse, the counter is untouched (the reset comes after `JSON.parse`) |
| FormatJson.ReplaceAll | src/lib/formatJson.ts:150-153 | after replacing every `c` by a text without `c`, no `c` remains; every character of the result comes from the replacement or is a character of the input other than `c`; text without `c` is returned unchanged |
| FormatJson.EscapeHtml | src/lib/formatJson.ts:149-153 | the escaped text holds no `<` and no `>`, and text without `&`, `<` and `>` is returned unchanged |
| FormatJson.NextLineNumber | src/lib/formatJson.ts:54-56 | a number is drawn exactly at depth 0; the number drawn is the counter, which then advances by one; deeper rows leave the counter alone |
| FormatJson.ProcessPrimitive | src/lib/formatJson.ts:58-71 | exactly one plain row at the node's depth, with its key, the `formatPrimitive` token, a comma exactly when it is not the last sibling, and a number (the counter) exactly at depth 0 |
| FormatJson.ProcessCompound | src/lib/formatJson.ts:73-122 | `{}` or `[]` is one plain row with the comma rule; otherwise an opening row with the key, the open bracket, no comma and the next number, then one non-empty group at the node's own depth, then a keyless closing row with the matching bracket and the comma rule; the counter moves exactly at depth 0 |
| FormatJson.ProcessNode | src/lib/formatJson.ts:124-128 | the node's first row sits at its depth with its key, numbered with the counter exactly at depth 0; its last row ends with a comma exactly when it is not the last sibling; the counter moves exactly at depth 0 |
| FormatJson.Children | src/lib/formatJson.ts:98-117 | the children are empty exactly for `{}` and `[]`; below the root they leave the counter unchanged |
| FormatJson.ObjectChildren | src/lib/formatJson.ts:99-108 | members produce rows exactly when there are members; below the root they leave the counter unchanged |
| FormatJson.ArrayChildren | src/lib/formatJson.ts:109-116 | items produce rows exactly when there are items; below the root they leave the counter unchanged |
| FormatJson.SyntaxHighlight | src/lib/formatJson.ts:130-154 | unparsable input comes back escaped, without `<` or `>`, and unchanged when it has no `&`, `<` or `>`; a parsed document is a tree whose first row is the keyless root at depth 0 numbered 1 (the counter restarts) and whose last row has no comma |
| FormatJson.LeafShape | src/lib/formatJson.ts:58-71 | a primitive, `{}` or `[]` is one plain row with the node's depth, key and comma rule, numbered only at depth 0 |
| FormatJson.ExpandableShape | src/lib/formatJson.ts:95-121 | a non-empty object or array is an opening row (no comma), a content group one level deeper, and a closing row with the comma rule |
| FormatJson.NodeNumbering | src/lib/formatJson.ts:54-56 | a node's rows carry the consecutive numbers from the counter on, rows are numbered exactly at depth 0, and deeper nodes leave the counter unchanged |
| FormatJson.ExpandableNumbering | src/lib/formatJson.ts:95-121 | an expandable root takes the next two numbers, for its opening and closing rows |
| FormatJson.ChildrenNumbering | src/lib/formatJson.ts:98-117 | children are one level deeper, unnumbered, and do not move the counter |
| FormatJson.ObjectChildrenNumbering | src/lib/formatJson.ts:98-107 | object members' rows are deeper than the parent, unnumbered, and do not move the counter |
| FormatJson.ArrayChildrenNumbering | src/lib/formatJson.ts:108-116 | array items' rows are deeper than the parent, unnumbered, and do not move the counter |
| FormatJson.NodeWellFormed | src/lib/formatJson.ts:58-128 | a node's output followed by later siblings is a well-formed run. Brackets match, a group follows each opening row, keys appear exactly in objects, closing rows have no key, and only the last sibling lacks a comma |
| FormatJson.ChildrenWellFormed | src/lib/formatJson.ts:98-117 | the children of a non-empty object or array form a well-formed run one level deeper, keyed exactly for objects |
| FormatJson.ObjectChildrenWellFormed | src/lib/formatJson.ts:98-107 | object members form a keyed run, and only the last member lacks a comma |
| FormatJson.ArrayChildrenWellFormed | src/lib/formatJson.ts:108-116 | array items form an unkeyed run, and only the last item lacks a comma |
| FormatJson.SiblingsBalanced | src/lib/formatJson.ts:73-122 | reading the rows of a well-formed run in order, every closing bracket matches the innermost open one and none is left open |
| FormatJson.ObjectChildrenInOrder | src/lib/formatJson.ts:98-107 | the members are rendered in their given order, each as its own node, with only the last one marked last |
| FormatJson.ArrayChildrenInOrder | src/lib/formatJson.ts:108-116 | the items are rendered in order, each as its own node, with only the last one marked last |
| FormatJson.RootRendering | src/lib/formatJson.ts:130-145 | parsed input gives a well-formed run at depth 0. Line numbers are 1 (and 2 for an expandable root), the first row is line 1, the last has no comma, and every row in between is deeper and unnumbered |
| FormatJson.EscapeHtmlIsPerCharacter | src/lib/formatJson.ts:147-153 | the three chained replacements equal escaping each character on its own (`&` first keeps entities from being escaped twice) |
| FormatJson.EscapeHtmlOneChar | src/lib/formatJson.ts:150-153 | one character is escaped to its entity, or kept |
| FormatJson.EscapeHtmlConcat | src/lib/formatJson.ts:150-153 | escaping works piece by piece |
| FormatJson.EscapeEachProperties | src/lib/formatJson.ts:147-153 | escaped text has no `<` or `>`, each `&` starts one of the three entities, and text without `&`, `<`, `>` is unchanged |
| FormatJson.UnescapeAfterEscape | src/lib/formatJson.ts:147-153 | decoding the entities of escaped text gives the text back |
| FormatJson.FallbackEscapes | src/lib/formatJson.ts:146-153 | input that does not parse is returned with no angle brackets and only entity ampersands, unchanged when it had none of the three characters, and it decodes back to the input |
| FormatJson.StringValueReachesMarkup | src/lib/formatJson.ts:35 | as written, a `<` inside a string value appears unescaped in the rendered line |
| FormatJson.KeyReachesMarkup | src/lib/formatJson.ts:63-65 | as written, a `<` inside a key appears unescaped in that node's first line (the same interpolation is at 86-88) |
| FormatJson.SafeLineText | src/lib/formatJson.ts:58-71 | corrected row text: indentation first, a comma at the end exactly when one is due, and no `<` or `>` anywhere, whatever the key or string value holds |
| FormatJson.SafeLineTextIsEscaped | src/lib/formatJson.ts:147-153 | the corrected line text is the plain line text escaped character by character |
| FormatJson.SafeLineTextProperties | src/lib/formatJson.ts:58-71 | the corrected line text has no `<` or `>`, decodes back to the plain line text, and equals it when keys and strings hold no `&`, `<`, `>` |
| Common.UpdateWhere | src/store/collectionsStore.ts:53-61 | `map` with a conditional: same length, matching entries replaced by their update in place, others unchanged |
| Common.RemoveWhere | src/store/collectionsStore.ts:69-71 | `filter`: survivors are entries of the input that do not match, and every non-matching entry survives |
| Common.RemoveWhereConcat | src/store/collectionsStore.ts:69-71 | filtering distributes over concatenation, which fixes the survivors' relative order |
| Common.RemoveWhereIdempotent | src/store/collectionsStore.ts:69-71 | filtering twice is filtering once |
| Common.FindFirst | src/store/collectionsStore.ts:154-155 | `find`: nothing iff no entry matches; otherwise the first matching entry |
| Common.FindFirstAppend | src/store/collectionsStore.ts:95 | appending keeps the first match; the appended entry is found only if nothing before it matches |
| Common.FindFirstAfterUpdate | src/store/collectionsStore.ts:109-125 | after an in-place update that keeps matching entries matching, `find` returns the update of what it returned before |
| Decimal.NatToString | src/components/ui/use-toast.ts:21 | a natural number's text is non-empty decimal digits with no leading zero |
| Decimal.NatToStringRoundTrip | src/components/ui/use-toast.ts:21 | the digits read back to the number |
| Decimal.NatToStringInjective | src/components/ui/use-toast.ts:21 | different counts give different ids |
| Decimal.IntToString | src/lib/formatJson.ts:33 | an integer's text is a leading `-` exactly for negatives, followed by decimal digits, with no leading zero, that read back to the magnitude of the number |
| Collections.FindSavedRequest | src/hooks/useRequestLoader.ts:16-17 | when the first collection with the id holds a request with the id, the first such request is returned; nothing is found exactly when there is no such collection or it holds no such request; a result always has the asked id |
| Collections.CollectionsAfterUpdate | src/store/collectionsStore.ts:51-65 | collections with the id get the patch and the new `updatedAt`; the others are untouched |
| Collections.CollectionsAfterDelete | src/store/collectionsStore.ts:67-72 | no collection with the id remains, and every other one does |
| Collections.CollectionsAfterAppend | src/store/collectionsStore.ts:90-99 | the request is appended to each collection with the id, which is re-stamped; others are untouched |
| Collections.PatchRequests | src/store/collectionsStore.ts:111-123 | in one collection, requests with the id get the patch and the new stamp, the rest and the collection's own fields stay |
| Collections.CollectionsAfterRequestUpdate | src/store/collectionsStore.ts:107-129 | only collections with the collection id change, each as `PatchRequests` says |
| Collections.DropRequests | src/store/collectionsStore.ts:135-141 | in one collection, exactly the requests with the id are dropped |
| Collections.CollectionsAfterRequestDelete | src/store/collectionsStore.ts:131-150 | only collections with the collection id change, each as `DropRequests` says |
| Collections.Duplicate | src/store/collectionsStore.ts:158-164 | the copy keeps the request, takes the new id, gets " (Copy)" after the name and both stamps now |
| Collections.SavedRequestIsFound | src/store/collectionsStore.ts:81-105 | save then look up: a request saved with a fresh id into an existing collection is what the lookup finds |
| Collections.AppendKeepsFound | src/store/collectionsStore.ts:81-105 | saving never changes what an earlier successful lookup finds |
| Collections.PatchedRequestIsFound | src/store/collectionsStore.ts:113-121 | within a collection, patching a request without changing its id leaves the patched version where the lookup finds it |
| Collections.UpdatedRequestIsFound | src/store/collectionsStore.ts:107-129 | update then look up: the lookup finds the patched version of what it found before |
| Collections.DeletedRequestIsGone | src/store/collectionsStore.ts:131-150 | delete then look up: the request is no longer found |
| Collections.DeleteCollectionIdempotent | src/store/collectionsStore.ts:67-79 | deleting a collection twice is deleting it once |
| Collections.DeletedCollectionIsGone | src/store/collectionsStore.ts:67-79 | after deleting a collection, no lookup into it succeeds |
| Collections.CollectionsStore.constructor | src/store/collectionsStore.ts:29-31 | the list starts as what storage holds, or empty, with nothing active |
| Collections.CollectionsStore.CreateCollection | src/store/collectionsStore.ts:33-49 | the new empty collection, stamped now, is appended and written to storage |
| Collections.CollectionsStore.UpdateCollection | src/store/collectionsStore.ts:51-65 | the list becomes `CollectionsAfterUpdate` and is written to storage |
| Collections.CollectionsStore.DeleteCollection | src/store/collectionsStore.ts:67-79 | the collection goes, the active request is cleared, and the active collection is cleared if it was the one deleted |
| Collections.CollectionsStore.SaveRequest | src/store/collectionsStore.ts:81-105 | returns the new saved request and appends it to the collection |
| Collections.CollectionsStore.UpdateRequest | src/store/collectionsStore.ts:107-129 | the list becomes `CollectionsAfterRequestUpdate`; the active ids stay |
| Collections.CollectionsStore.DeleteRequest | src/store/collectionsStore.ts:131-150 | the request goes, and the active request is cleared if it was the one deleted |
| Collections.CollectionsStore.DuplicateRequest | src/store/collectionsStore.ts:152-180 | nothing changes unless the lookup succeeds; otherwise the copy is appended and written to storage |
| Collections.CollectionsStore.SetActiveCollection | src/store/collectionsStore.ts:182-184 | sets the active collection and clears the active request |
| Collections.CollectionsStore.SetActiveRequest | src/store/collectionsStore.ts:186-188 | sets only the active request |
| RequestEditor.InitialRequest | src/store/requestStore.ts:22-31 | a GET with no URL, no rows, and a `none` body with empty text |
| RequestEditor.BlankRow | src/store/requestStore.ts:50 | the added row has the new id, empty key and value, and is enabled |
| RequestEditor.RowsAfterUpdate | src/store/requestStore.ts:55-62 | rows with the id take exactly the patch's present fields; others are unchanged |
| RequestEditor.RowsAfterRemove | src/store/requestStore.ts:64-69 | exactly the rows with the id are dropped |
| RequestEditor.AddThenRemove | src/store/requestStore.ts:45-69 | adding a row with a fresh id and removing it restores the rows |
| RequestEditor.RemoveAbsent | src/store/requestStore.ts:64-69 | removing an id no row has changes nothing |
| RequestEditor.UpdateThenRemove | src/store/requestStore.ts:55-69 | an update that keeps the id makes no difference to a later removal by that id |
| RequestEditor.EmptyContent | src/store/requestStore.ts:101-103 | form types start with an empty list, the others with empty text |
| RequestEditor.WithContent | src/store/requestStore.ts:113-121 | a present body gets the new content and keeps its type; an absent body stays absent |
| RequestEditor.RequestStore.constructor | src/store/requestStore.ts:22-31 | the editor starts with `InitialRequest` |
| RequestEditor.RequestStore.SetMethod | src/store/requestStore.ts:33-35 | only the method changes |
| RequestEditor.RequestStore.SetUrl | src/store/requestStore.ts:37-39 | only the URL changes |
| RequestEditor.RequestStore.SetQueryParams | src/store/requestStore.ts:41-43 | only the parameters change |
| RequestEditor.RequestStore.AddQueryParam | src/store/requestStore.ts:45-53 | a blank row is appended to the parameters |
| RequestEditor.RequestStore.UpdateQueryParam | src/store/requestStore.ts:55-62 | the parameters become `RowsAfterUpdate` |
| RequestEditor.RequestStore.RemoveQueryParam | src/store/requestStore.ts:64-69 | the parameters become `RowsAfterRemove` |
| RequestEditor.RequestStore.SetHeaders | src/store/requestStore.ts:71-73 | only the headers change |
| RequestEditor.RequestStore.AddHeader | src/store/requestStore.ts:75-83 | a blank row is appended to the headers |
| RequestEditor.RequestStore.UpdateHeader | src/store/requestStore.ts:85-92 | the headers become `RowsAfterUpdate` |
| RequestEditor.RequestStore.RemoveHeader | src/store/requestStore.ts:94-99 | the headers become `RowsAfterRemove` |
| RequestEditor.RequestStore.SetBodyType | src/store/requestStore.ts:101-111 | the body becomes present with the type and its empty content |
| RequestEditor.RequestStore.SetBodyContent | src/store/requestStore.ts:113-121 | the body becomes `WithContent` of the old one |
| Toasts.Reduce | src/components/ui/use-toast.ts:30-84 | ADD puts the toast first and keeps `TOAST_LIMIT` toasts. UPDATE merges the patch into toasts with its id. DISMISS closes the selected toasts, all of them with no id. REMOVE drops all, or exactly those with the id |
| Toasts.LimitKept | src/components/ui/use-toast.ts:4 | no action takes the list past `TOAST_LIMIT` |
| Toasts.AddShowsOnlyNewest | src/components/ui/use-toast.ts:50-55 | with the limit of 1, adding shows only the new toast |
| Toasts.DismissIdempotent | src/components/ui/use-toast.ts:63-75 | dismissing twice is dismissing once |
| Toasts.DismissAllCloses | src/components/ui/use-toast.ts:63-75 | dismissing with no id closes every toast and keeps them all, ids unchanged |
| Toasts.DismissThenRemove | src/components/ui/use-toast.ts:63-83 | after dismissing and removing an id, no toast has it |
| Toasts.NextCount | src/components/ui/use-toast.ts:20 | the counter stays below `Number.MAX_SAFE_INTEGER` and otherwise goes up by one |
| Toasts.AdvanceIsModular | src/components/ui/use-toast.ts:19-22 | after k calls the counter is the start plus k, modulo `MAX_SAFE_INTEGER` |
| Toasts.IdsDoNotRepeat | src/components/ui/use-toast.ts:19-22 | fewer than `MAX_SAFE_INTEGER` consecutive calls never repeat an id |
| Toasts.Toaster.constructor | src/components/ui/use-toast.ts:17-28 | no toasts, counter 0 |
| Toasts.Toaster.Dispatch | src/components/ui/use-toast.ts:30-89 | the list becomes `Reduce` of the old one, the counter is unchanged, and the limit is kept |
| Toasts.Toaster.GenId | src/components/ui/use-toast.ts:19-22 | advances the counter and returns its decimal text |
| Toasts.Toaster.CreateToast | src/components/ui/use-toast.ts:97-110 | an open toast with the caller's fields and the next id |
| Toasts.Toaster.Toast | src/components/ui/use-toast.ts:112-119 | the new open toast is returned and is the only one shown |
| Toasts.Toaster.Dismiss | src/components/ui/use-toast.ts:124 | dispatches DISMISS with the given id |
| Toasts.Toaster.OnOpenChange | src/components/ui/use-toast.ts:106-108 | closing a toast dismisses exactly that toast; opening does nothing |
| Responses.ResponseStore.constructor | src/store/responseStore.ts:23-25 | not loading, no error, no response |
| Responses.ResponseStore.SetLoading | src/store/responseStore.ts:26 | only the loading flag changes |
| Responses.ResponseStore.SetError | src/store/responseStore.ts:27 | only the error changes |
| Responses.ResponseStore.SetResponse | src/store/responseStore.ts:28 | only the response changes |
| Responses.ResponseStore.Reset | src/store/responseStore.ts:29 | back to the initial state |
| RequestLoader.GetCurrentRequest | src/hooks/useRequestLoader.ts:25-29 | nothing unless both ids are set (null and empty count as unset); with both set, exactly the lookup `FindSavedRequest` of the active ids (first matching collection, first matching request) |
| RequestLoader.LoadedRequest | src/hooks/useRequestLoader.ts:31-49 | loading a saved request with a body reproduces it exactly; without a body the editor keeps its body and takes everything else |
| RequestLoader.LoadSavedRequest | src/hooks/useRequestLoader.ts:31-49 | the setter sequence leaves the editor holding `LoadedRequest` |
| RequestLoader.LoadRequest | src/hooks/useRequestLoader.ts:15-23 | nothing happens when the lookup fails; otherwise the request becomes active (the active collection is not touched) and is loaded |
| RequestLoader.LoadedIsCurrent | src/hooks/useRequestLoader.ts:15-29 | with its collection active, a loaded request is the current request |
| RequestLoader.RequestPatch | src/hooks/useRequestLoader.ts:54-62 | the write-back patch changes only the saved request's request |
| RequestLoader.WrittenBack | src/hooks/useRequestLoader.ts:51-65 | with no current request the store is unchanged; otherwise only the current request's collection is patched, the list is persisted, the active ids stay, and the current request becomes the old one holding the given request, stamped now |
| RequestLoader.UpdateCurrentRequest | src/hooks/useRequestLoader.ts:51-65 | the store's whole new state (list, storage, active ids) is `WrittenBack` of the old one, and the current saved request, if any, holds the given request |
| TextLines.TrimStart | src/components/request/RequestBody.tsx:243 | removes exactly the leading whitespace |
| TextLines.TrimEnd | src/components/request/RequestBody.tsx:243 | removes exactly the trailing whitespace |
| TextLines.Trim | src/components/request/RequestBody.tsx:243 | a contiguous piece of the text, with only whitespace cut on each side and no whitespace at either end |
| TextLines.TrimEmpty | src/components/request/RequestBody.tsx:44 | a text trims to nothing iff it is all whitespace |
| TextLines.TrimLast | src/components/request/RequestBody.tsx:243-244 | the trimmed text ends with the last non-whitespace character |
| TextLines.TrimLastIsLastVisible | src/components/request/RequestBody.tsx:243-244 | the last character of a non-empty trimmed text is followed only by whitespace |
| TextLines.SplitLines | src/components/request/RequestBody.tsx:242 | `split('\n')` gives at least one piece, none with a line feed |
| TextLines.SplitJoin | src/components/request/RequestBody.tsx:242 | joining the pieces with line feeds gives the text back, and there is one piece more than line feeds |
| RequestBodyPanel.FormContent | src/components/request/RequestBody.tsx:62-66 | a list content is returned as is; no body or text content gives no entries |
| RequestBodyPanel.BlankEntry | src/components/request/RequestBody.tsx:72 | the added entry is an enabled text entry with empty key and value |
| RequestBodyPanel.EntriesAfterUpdate | src/components/request/RequestBody.tsx:76-83 | entries with the id get the patch merged in place; others are unchanged |
| RequestBodyPanel.EntriesAfterRemove | src/components/request/RequestBody.tsx:85-88 | exactly the entries with the id are dropped |
| RequestBodyPanel.RemoveKeepsOrder | src/components/request/RequestBody.tsx:85-88 | removal works piece by piece, so survivors keep their order |
| RequestBodyPanel.AddThenRemoveEntry | src/components/request/RequestBody.tsx:68-88 | adding an entry with a fresh id and removing it restores the list |
| RequestBodyPanel.RemoveAbsentEntry | src/components/request/RequestBody.tsx:85-88 | removing an id no entry has changes nothing |
| RequestBodyPanel.FilePatch | src/components/request/RequestBody.tsx:90-92 | a chosen file sets the value to the file and the type to file, nothing else |
| RequestBodyPanel.Toggled | src/components/request/RequestBody.tsx:34-39 | the line's state flips (absent counts as off), and every other line's entry is kept |
| RequestBodyPanel.ToggleTwice | src/components/request/RequestBody.tsx:34-39 | toggling a line twice leaves every line's state as it was |
| RequestBodyPanel.ChevronRule | src/components/request/RequestBody.tsx:243-244 | a line has a chevron iff some `{` or `[` in it is followed only by whitespace |
| RequestBodyPanel.GutterText | src/components/request/RequestBody.tsx:242 | the gutter's lines join back to the body text; other content gives one empty line |
| RequestBodyPanel.Gutter | src/components/request/RequestBody.tsx:242-264 | one gutter line per text line, numbered i+1, with a chevron by the chevron rule |
| RequestBodyPanel.GutterCountsLines | src/components/request/RequestBody.tsx:242 | a text body shows one gutter line more than it has line feeds |
| RequestBodyPanel.JsonErrorAfter | src/components/request/RequestBody.tsx:44-53 | all-whitespace text clears the error; other text shows the parser's verdict |
| RequestBodyPanel.EffectiveType | src/components/request/RequestBody.tsx:96 | an absent body counts as JSON |
| RequestBodyPanel.NormalizingContent | src/components/request/RequestBody.tsx:95-108 | form types with text get `[]`, JSON and raw with a list get `""`, `none` gets nothing, and with no body `""` is written |
| RequestBodyPanel.NormalizeFits | src/components/request/RequestBody.tsx:95-108 | after the effect the content fits the type, content that fit is left alone, and a second run changes nothing |
| RequestBodyPanel.EditedRequest | src/components/request/RequestBody.tsx:42 | an edit changes only the body's content |
| RequestBodyPanel.EditChangesRequest | src/components/request/RequestBody.tsx:41-55 | an edit that changes the content gives a request different from the one before it |
| RequestBodyPanel.RequestBodyView.constructor | src/components/request/RequestBody.tsx:15-19 | no error and no collapsed lines |
| RequestBodyPanel.RequestBodyView.ToggleLineCollapse | src/components/request/RequestBody.tsx:34-39 | the map becomes `Toggled` |
| RequestBodyPanel.RequestBodyView.ClickGutterLine | src/components/request/RequestBody.tsx:250 | a click toggles the line only when it shows a chevron |
| RequestBodyPanel.RequestBodyView.HandleJsonChangeAsWritten | src/components/request/RequestBody.tsx:41-55 | as written, the editor gets the new text and the error is updated, but the store becomes `WrittenBack` of the request from before the edit, which the current saved request then holds |
| RequestBodyPanel.RequestBodyView.HandleJsonChange | src/components/request/RequestBody.tsx:41-55 | corrected: the editor gets the new text, the error is updated, and the store becomes `WrittenBack` of the edited request |
| RequestBodyPanel.RequestBodyView.HandleFormDataChangeAsWritten | src/components/request/RequestBody.tsx:57-60 | as written, the editor gets the entries, but the store becomes `WrittenBack` of the request from before the edit |
| RequestBodyPanel.RequestBodyView.HandleFormDataChange | src/components/request/RequestBody.tsx:57-60 | corrected: the editor gets the entries and the store becomes `WrittenBack` of the edited request |
| RequestBodyPanel.RequestBodyView.AddFormDataEntry | src/components/request/RequestBody.tsx:68-74 | a blank entry is appended after the current ones, and the store becomes `WrittenBack` of the edited request |
| RequestBodyPanel.RequestBodyView.UpdateFormDataEntry | src/components/request/RequestBody.tsx:76-83 | the entries become `EntriesAfterUpdate`, and the store becomes `WrittenBack` of the edited request |
| RequestBodyPanel.RequestBodyView.RemoveFormDataEntry | src/components/request/RequestBody.tsx:85-88 | the entries become `EntriesAfterRemove`, and the store becomes `WrittenBack` of the edited request |
| RequestBodyPanel.RequestBodyView.HandleFileChange | src/components/request/RequestBody.tsx:90-92 | the entry becomes a file entry holding the file, and the store becomes `WrittenBack` of the edited request |
| RequestBodyPanel.RequestBodyView.NormalizeContent | src/components/request/RequestBody.tsx:95-108 | the body becomes `Normalized` and its content fits its type |
| ResponseView.GetStatusColor | src/components/response/ResponseViewer.tsx:78-82 | green iff below 300, yellow iff 300 to 399, red iff 400 or more |
| ResponseView.FormatSize | src/components/response/ResponseViewer.tsx:84-85 | sizes below 1024 are shown as decimal digits, with no leading zero, followed by " B" |
| ResponseView.FormatSizeReadsBack | src/components/response/ResponseViewer.tsx:85 | the digits of the label read back to the byte count |
| ResponseView.Fresh | src/lib/formatJson.ts:41-48 | a rendered expander starts shown, chevron down, `aria-expanded` true |
| ResponseView.Click | src/components/response/ResponseViewer.tsx:34-50 | with no following content nothing changes. Otherwise the visibility flips, and with the icon present both chevron classes flip and `aria-expanded` reports "shown". Without the icon only the visibility flips |
| ResponseView.ClickKeepsConsistent | src/components/response/ResponseViewer.tsx:39-47 | a click keeps icon, attribute and visibility in agreement |
| ResponseView.ClickTwice | src/components/response/ResponseViewer.tsx:39-47 | two clicks restore the expander whenever its attribute agreed with the visibility |
| ResponseView.SiblingsExpanders | src/lib/formatJson.ts:95-121 | in a well-formed run every expander has its content group right after it and starts fresh |
| ResponseView.GroupExpanders | src/lib/formatJson.ts:119-120 | the expanders inside a content group start fresh with their content in place |
| ResponseView.HighlightedExpanders | src/components/response/ResponseViewer.tsx:24 | every expander of a highlighted document starts shown, consistent, with its content in place |
| ResponseView.ExpanderTree.constructor | src/components/response/ResponseViewer.tsx:24 | the expanders are those of the rendered tree |
| ResponseView.ExpanderTree.OnClick | src/components/response/ResponseViewer.tsx:34-50 | a click inside an expander applies `Click` to it alone; a click elsewhere changes nothing |
| ResponseView.ExpanderTree.OnKeyDown | src/components/response/ResponseViewer.tsx:26-33 | Enter or Space on an expander button clicks it; other keys or targets change nothing |
| ResponseView.ExpanderTree.KeyPressAsWritten | src/components/response/ResponseViewer.tsx:26-33 | as written, with the browser's activation of the focused button following the handler's click, the expander is clicked twice |
| ResponseView.ExpanderTree.KeyPress | src/components/response/ResponseViewer.tsx:26-33 | corrected, with the activation cancelled, Enter or Space clicks the expander once |

## Left out

- `JSON.parse` and `JSON.stringify` are not modelled. The parse outcome is an input of `SyntaxHighlight` (`Some(value)` or `None`) and of `JsonErrorAfter` (the error message). The request panel's Format JSON button (`RequestBody.tsx:21-32`, `215-226`) and `isJsonString` (`formatJson.ts:157-169`) are therefore out.
- Object members are the parsed pair sequence as given. The engine's key order for `Object.entries` (integer-like keys first) and its last-wins rule for duplicate keys are not modelled.
- Numbers are integers, rendered in decimal. `String(value)` of fractions and exponents is floating point and is not modelled. The same holds for the KB and MB branches of `formatSize`, which `FormatSize` reports as `None`.
- The HTML strings, CSS class names and SVG markup are not modelled. Rows carry role, depth, number, key, token and comma instead. `LineText` is the visible text of a row.
- The `typeof json !== 'string'` branch of `syntaxHighlight` is not modelled. Its parameter is typed `string`.
- Ids from `uuid`, timestamps from `new Date()`, and what local storage holds at start-up are parameters. Storage writes are modelled as the `stored` field. Storage failures are not modelled.
- The toast `listeners`, the toast's `action` element and the dismiss timer in `toast.tsx` are not modelled.
- The `onOpenChange` closure each toast carries is modelled as `Toaster.OnOpenChange`.
- A `Partial<>` patch field is either absent or holds a value. A field present with the value `undefined` (which the spread would copy) is not modelled.
- The form-entry handlers (`AddFormDataEntry`, `UpdateFormDataEntry`, `RemoveFormDataEntry`, `HandleFileChange`) are modelled only on top of the corrected `HandleFormDataChange`. Their as-written stale save is the one `HandleFormDataChangeAsWritten` exhibits (second row of the Findings table).
- The React render cycle is not modelled. Each handler reads the stores as the last render saw them, which is the stores' current state unless the handler itself changed them first.
- The raw-body textarea (`RequestBody.tsx:301`) and the body-type tabs (`RequestBody.tsx:194-196`) call the editor store's `setBodyContent` and `setBodyType` directly. They are covered by those store methods.
- JSX rendering, the code editor widget, aria labels and `copyToClipboard` are not modelled.
- A chosen `File` is represented by its name.
- JavaScript strings are UTF-16 while Dafny strings hold Unicode scalar values. Lone surrogates are not modelled. The whitespace set of `trim` is the full ECMAScript set.
- `Highlighter.Highlight` and the walk do not model the call-stack limit of very deep documents.
- `src/hooks/useRequest.ts` (the network client) is not part of this model.

## Findings

| source | as written | input that shows it | evidently intended | confidence | as-written member | corrected member |
|---|---|---|---|---|---|---|
| src/lib/formatJson.ts:35 | keys (lines 64 and 87) and string values are put into the HTML without escaping, and the viewer inserts the result with `dangerouslySetInnerHTML` | a response body `{"<img src=x onerror=alert(1)>": 1}` or `["<b>x</b>"]` | escape them as the fallback path (lines 150-153) does, so that text never becomes markup | high; not executed | FormatJson.KeyReachesMarkup, FormatJson.StringValueReachesMarkup | FormatJson.SafeLineText, FormatJson.SafeLineTextProperties |
| src/components/request/RequestBody.tsx:41-60 | in `handleJsonChange` and `handleFormDataChange`, after `setBodyContent`, `updateCurrentRequest` saves the `request` captured when the component last rendered (`useRequestLoader.ts:51-63`), so the saved request gets the body from before the edit | active saved request with JSON body `""`; typing `{` leaves the editor at `{` and the saved body at `""` | the saved request receives the edited request | high; not executed | RequestBodyPanel.RequestBodyView.HandleJsonChangeAsWritten, RequestBodyPanel.RequestBodyView.HandleFormDataChangeAsWritten, RequestBodyPanel.EditChangesRequest | RequestBodyPanel.RequestBodyView.HandleJsonChange, RequestBodyPanel.RequestBodyView.HandleFormDataChange |
| src/components/response/ResponseViewer.tsx:26-33 | the key handler clicks the focused expander button but does not cancel the browser's own activation of that button on Enter or Space, so the button is clicked twice | press Enter on a focused expander: the group hides, then shows again | one key press toggles the group once | medium (depends on the browser's default button activation); not executed | ResponseView.ExpanderTree.KeyPressAsWritten, ResponseView.ClickTwice | ResponseView.ExpanderTree.KeyPress |

