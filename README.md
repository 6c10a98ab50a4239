# Brick website, modelled in Dafny

Brick's website is a browser application. This project models its core:

- **The template-draft pipeline of the editor page.**
  - Three drafts are kept in debounced persistent slots over `localStorage`: the Markdown document, the template script and the JSON manifest.
  - A three-step workflow gates each forward move on the stored drafts.
  - The manifest form edits the manifest field by field.
  - The document editor splices Markdown syntax around the selection.
  - The export step delivers three loose files or one archive with a sanitised name.
- **The catalog and settings views.**
  - The settings record: load, reset, edit and save.
  - The market's search and pagination.
  - The detail page's lookup and URLs.
  - The documentation page's URL builder and error classification.
- **The radio-group UI component**, which no page of the application mounts: registration, the one tab stop, and keyboard selection.

Browser APIs become model values:

- `localStorage` is the class `LocalStorage.Storage`, whose field is a map.
- A pending debounce timer is a boolean. Its expiry is the explicit step `Slot.Fire`.
- `JSON.parse` of an object is a parameter `parse: string -> Option<Json>`, where `None` means "throws".
- `JSON.stringify` is concrete: compact, and with a two-space indent.
- Text drafts use a concrete JSON string-literal encoder and decoder. Their round trip is proved.
- Network answers, the `URL` parser and the build-time environment are parameters.
- The `download:build` event is a direct call.

Files, one module each:

- `wrappers.dfy`: Option.
- `jstext.dfy`: JavaScript string operations — trim, substring, ASCII lower-case, includes, join.
- `jsonstring.dfy`: JSON string literals.
- `json.dfy`: JSON values, truthiness, `String()`, lookup, spread, stringify.
- `storage.dfy`: the store.
- `slot.dfy`: `useLocalStorage`.
- `drafts.dfy`: the draft keys.
- `editor.dfy`: the editor workflow.
- `step2.dfy`: the manifest form.
- `step3.dfy`: the packager.
- `packagerexamples.dfy`: worked examples of the archive name.
- `texteditors.dfy`: the Markdown editor.
- `settings.dfy`, `market.dfy`, `marketdetail.dfy`, `document.dfy`: the views.
- `radio.dfy`: the radio-group UI component, which no page mounts.

## Model

| member | source | states |
|---|---|---|
| LocalStorage.Storage.SetItem | src/lib/useLocalStorage.ts:27-31 | a write stores the text under its key only; a refused write (quota) throws and stores nothing |
| LocalStorage.Storage.RemoveItem | src/lib/useLocalStorage.ts:41-47 | removes exactly the key; removing an absent key changes nothing |
| JsonString.QuoteRoundTrip | src/lib/useLocalStorage.ts:13-28 | a text draft written with `JSON.stringify` reads back with `JSON.parse` as the same text |
| JsonString.QuoteInjective | src/lib/useLocalStorage.ts:13-28 | different drafts are stored as different texts |
| PersistentSlot.Slot.Mount | src/lib/useLocalStorage.ts:10-32 | the initial value is the decoded stored text when the key holds a non-empty text that decodes, the caller's initial value otherwise; mounting schedules a flush and does not write |
| PersistentSlot.Slot.Set | src/lib/useLocalStorage.ts:21-32 | the new value is visible at once and the store is untouched; a flush is pending afterwards iff one was or the value changed |
| PersistentSlot.Slot.SetNew | src/lib/useLocalStorage.ts:21-39 | a freshly built object always (re)schedules the flush, even with equal contents; the store is untouched |
| PersistentSlot.Slot.Fire | src/lib/useLocalStorage.ts:26-31 | the flush writes the encoded state under the slot's key and no other; a refused write is swallowed and the state is unchanged |
| PersistentSlot.Slot.Clear | src/lib/useLocalStorage.ts:41-47 | removes only the slot's key, keeps the in-memory value and does not cancel a pending flush |
| PersistentSlot.Slot.Unmount | src/lib/useLocalStorage.ts:34-38 | the cleanup cancels the pending flush and writes nothing |
| PersistentSlot.Slot.Rekey | src/lib/useLocalStorage.ts:21-39 | a new key cancels the old flush and schedules one for the new key; the value is kept |
| PersistentSlot.SetAll | src/lib/useLocalStorage.ts:21-32 | a burst of writes leaves the last value, the store unchanged, and a flush pending when one was or the burst changed the value |
| PersistentSlot.BurstThenFlush | src/lib/useLocalStorage.ts:21-32 | after a burst and the single timer expiry, the store holds the last value's encoding under the key and every other key as before |
| PersistentSlot.ClearThenFlush | src/lib/useLocalStorage.ts:41-47 | a change, then `clear` before the timer fires: the entry is written again once it fires |
| PersistentSlot.TextSlotRemountRestores | src/lib/useLocalStorage.ts:10-17 | a text slot that flushed `s` mounts again with `s` |
| PersistentSlot.ClearedSlotMountsInitial | src/lib/useLocalStorage.ts:10-17 | once its key is removed, a slot mounts with its initial value |
| Drafts.MountText | src/components/editor/MarkdownEditor.tsx:22-26 | a text draft slot: key, initial '', the given debounce, string encoding, a flush scheduled |
| JsText.TrimEmptyIffBlank | src/views/Editor.tsx:24 | `s.trim() === ''` exactly when every character of `s` is white space |
| JsText.IncludesIffOccurs | src/views/Market.tsx:111-119 | `includes` holds exactly when the query occurs at some position |
| Json.SetMemberLookupSame | src/components/editor/Step2.tsx:46-51 | after `{...prev, [k]: v}` the member `k` is `v` |
| Json.SetMemberLookupOther | src/components/editor/Step2.tsx:46-51 | every other member keeps its value |
| Json.SetMemberKeys | src/components/editor/Step2.tsx:46-51 | a present member keeps its place; a new one goes last |
| Json.SetMemberDistinct | src/components/editor/Step2.tsx:46-51 | a spread never creates two members of the same name |
| Editor.Step0GateAsWrittenPassIff | src/views/Editor.tsx:21-29 | the step-0 gate as the page runs it passes iff neither raw stored text (an absent key read as '') is blank, and fails with the fixed message otherwise |
| Editor.Step0GatePassIff | src/views/Editor.tsx:21-29 | the (corrected) step-0 gate passes iff neither decoded draft is blank, and fails with the fixed message otherwise |
| Editor.Step0GateOnFlushedDrafts | src/views/Editor.tsx:21-29 | once both drafts have flushed, the corrected gate passes iff both are non-blank |
| Editor.Step0GateAsWrittenPassesFlushed | src/views/Editor.tsx:22-24 | as written, the gate passes for any two flushed drafts, blank or not |
| Editor.EmptyDraftsDiscrepancy | src/views/Editor.tsx:21-29 | two flushed empty drafts pass the gate as written and fail the corrected gate |
| Editor.EmptyEditorsPassGateAsWritten | src/views/Editor.tsx:21-29 | on an empty store, mounting both text editors and letting their flushes fire makes the gate as written pass, while the corrected one fails |
| Editor.MissingAmongMembers | src/views/Editor.tsx:45-47 | a field is reported iff it is listed and missing |
| Editor.MissingAmongAll | src/views/Editor.tsx:45-47 | all fields missing: the report is the list itself, in order; none missing: it is empty |
| Editor.MissingMembers | src/views/Editor.tsx:35-47 | a field is reported iff it is required and the manifest is falsy or the field's `String(v \|\| '')` is blank |
| Editor.FalsyManifestMissesAll | src/views/Editor.tsx:45-47 | a falsy manifest misses all eight fields, in the fixed order |
| Editor.OnlyNameFilled | src/views/Editor.tsx:35-47 | a manifest with only a name misses the other seven fields, in the fixed order |
| Editor.Step1GatePassIff | src/views/Editor.tsx:31-52 | the step-1 gate passes iff the manifest parses and no required field is missing |
| Editor.Step1GateUnparsable | src/views/Editor.tsx:53-57 | unparseable text fails with the format message |
| Editor.Step1GateNoManifest | src/views/Editor.tsx:33-49 | an absent manifest reads as `{}` and fails listing all eight fields, comma-separated |
| Editor.Step1GateNullManifest | src/views/Editor.tsx:33-49 | a stored `null` fails listing all eight fields too |
| Editor.Workflow.constructor | src/views/Editor.tsx:15 | the workflow starts at step 0 with the error dialog closed |
| Editor.Workflow.NextStep | src/views/Editor.tsx:19-69 | with the gates as written (raw stored text at step 0): a failing gate opens the dialog with its message and stays; otherwise the step advances, and on the last step the download is requested with the step unchanged; the step stays in 0..2 |
| Editor.Workflow.NextStepCorrected | src/views/Editor.tsx:19-69 | the same button with the step-0 gate on the decoded drafts |
| Editor.Workflow.Advance | src/views/Editor.tsx:19-69 | once the gate is known: a failure opens the dialog with its message; a pass advances or, on the last step, requests the download |
| Editor.Workflow.PrevStep | src/views/Editor.tsx:74-78 | back by one iff above step 0, with no check |
| Editor.Workflow.CloseError | src/views/Editor.tsx:102-108 | dismissing closes the error dialog |
| Editor.PressNext | src/views/Editor.tsx:60-68 | "next" on the last step makes the export step deliver the package of the current drafts; earlier steps deliver nothing |
| Editor.ReachingExportNeedsGates | src/views/Editor.tsx:19-63 | passing both gates as written means both raw stored texts are non-blank (not the drafts) and the manifest parses with all eight fields |
| Editor.ReachingExportNeedsGatesCorrected | src/views/Editor.tsx:19-63 | with the corrected step-0 gate, both drafts themselves are non-blank |
| Editor.EmptyDraftsAdvance | src/views/Editor.tsx:21-29 | on an empty store, once both text editors have mounted and flushed, "next" moves to step 1 as written, while the corrected button stays on step 0 with the message |
| ManifestForm.UpdatedShowsValue | src/components/editor/Step2.tsx:46-51 | after an edit the field shows exactly the typed text |
| ManifestForm.UpdatedKeepsOthers | src/components/editor/Step2.tsx:46-51 | an edit leaves every other field unchanged |
| ManifestForm.UpdatedFromNothing | src/components/editor/Step2.tsx:46-51 | an edit of a missing draft starts a one-field object |
| ManifestForm.UpdatedKeyOrder | src/components/editor/Step2.tsx:46-51 | an edit keeps the member order and distinct names; a new field goes last |
| ManifestForm.FillAllKeepsOthers | src/components/editor/Step2.tsx:76-177 | filling other fields leaves a field alone |
| ManifestForm.FillAllShows | src/components/editor/Step2.tsx:76-177 | after filling distinct fields, each input shows what was typed into it |
| ManifestForm.FillAllMissesNothing | src/views/Editor.tsx:45-47 | filling distinct fields with non-blank text leaves none of them reported missing |
| ManifestForm.FilledFormMissesNothing | src/components/editor/Step2.tsx:76-177 | filling the eight inputs with non-blank text, from any draft, satisfies the step-1 field check |
| ManifestForm.PreviewOfNothing | src/components/editor/Step2.tsx:53-60 | a missing or empty draft previews as `{}` |
| ManifestForm.PreviewShowsEdit | src/components/editor/Step2.tsx:46-60 | after an edit the preview holds the line `"key": "value"` for the typed field |
| ManifestForm.PreviewFirstEdit | src/components/editor/Step2.tsx:46-60 | the first edit of a missing draft previews as a one-member object on three lines |
| ManifestForm.PrettyShowsMember | src/components/editor/Step2.tsx:55 | every text member of an object has a line of its own in the two-space layout |
| ManifestForm.Form.Mount | src/components/editor/Step2.tsx:38-42 | the manifest slot has key `editor:brick:draft`, initial `{}`, debounce 300 |
| ManifestForm.Form.Update | src/components/editor/Step2.tsx:46-51 | an edit sets the draft to the spread update and schedules a flush; the store is untouched |
| ManifestForm.Form.OpenClearDialog | src/components/editor/Step2.tsx:190 | the clear button opens the confirmation dialog |
| ManifestForm.Form.ConfirmClear | src/components/editor/Step2.tsx:200-203 | the stored draft is removed, the form is emptied to `{}`, and a flush is scheduled |
| ManifestForm.ClearThenFlush | src/components/editor/Step2.tsx:200-203 | after clearing and the flush, the store holds `{}` under the manifest key |
| TextEditors.WrapSelectionSplice | src/components/editor/MarkdownEditor.tsx:38-44 | the text becomes prefix + syntax + selection + syntax + suffix, longer by twice the syntax |
| TextEditors.WrapSelectionRestores | src/components/editor/MarkdownEditor.tsx:38-53 | the new selection covers exactly the original selected text; removing the two inserted copies restores the text |
| TextEditors.WrapSelectionPastEnd | src/components/editor/MarkdownEditor.tsx:38-44 | a selection past the end clamps: the syntax is appended twice and the selection is empty |
| TextEditors.HeadingEditInserts | src/components/editor/MarkdownEditor.tsx:68-76 | `# ` goes in at the caret and the caret moves right after it |
| TextEditors.AppendBlock | src/components/editor/MarkdownEditor.tsx:59-62 | the block goes at the end between two newlines, whatever the caret |
| TextEditors.MarkdownEditor.Mount | src/components/editor/MarkdownEditor.tsx:22-26 | the document slot has key `editor:markdown:draft`, initial '', debounce 500 and the string-literal codec; its state is the stored draft or '' |
| TextEditors.MarkdownEditor.InsertMarkdown | src/components/editor/MarkdownEditor.tsx:32-57 | in edit mode only; with a textarea, the draft becomes the wrapped text, the selection moves, and a flush is pending iff one was or the text changed; without one, nothing changes |
| TextEditors.MarkdownEditor.InsertHeading | src/components/editor/MarkdownEditor.tsx:64-80 | in edit mode only; with a textarea, the heading marker is inserted at the caret and a flush is pending iff one was or the text changed; without one, nothing changes |
| TextEditors.MarkdownEditor.InsertBlock | src/components/editor/MarkdownEditor.tsx:59-62 | in edit mode only; the draft becomes the text with the block appended |
| TextEditors.MarkdownEditor.OnChange | src/components/editor/MarkdownEditor.tsx:196 | the draft becomes the new value, an absent one read as ''; a flush is pending iff one was or the value changed |
| TextEditors.MarkdownEditor.SetPreview | src/components/editor/MarkdownEditor.tsx:146-154 | the edit and preview buttons switch the preview flag |
| TextEditors.MarkdownEditor.ConfirmClear | src/components/editor/MarkdownEditor.tsx:178-181 | the stored entry is removed and the draft becomes ''; a flush is pending iff one was or the draft was non-empty |
| TextEditors.ClearThenTimer | src/components/editor/MarkdownEditor.tsx:178-181 | clearing a non-empty draft is followed by a flush that stores `""` again; an empty one with no flush pending stays absent |
| Packager.LooseDelivery | src/components/editor/Step3.tsx:56-61 | loose mode: exactly `template.sh`, `README.md`, `brick.json` in this order, with the template, the document and the pretty-printed manifest |
| Packager.ArchiveDelivery | src/components/editor/Step3.tsx:64-74 | zip mode: the same three entries in an archive under the sanitised name |
| Packager.SanitizeShape | src/components/editor/Step3.tsx:69-73 | the sanitiser keeps the UTF-16 length and leaves only `[A-Za-z0-9._-]` |
| Packager.SanitizeFixedIffAllowed | src/components/editor/Step3.tsx:69-73 | a text is unchanged iff all its characters are allowed |
| Packager.SanitizeIdempotent | src/components/editor/Step3.tsx:69-73 | sanitising twice equals sanitising once |
| Packager.SanitizeAppend | src/components/editor/Step3.tsx:69-73 | sanitising distributes over concatenation |
| Packager.NameSegmentShape | src/components/editor/Step3.tsx:69-73 | a name segment, taken from the field or its fallback, is non-empty and allowed |
| Packager.ZipNameShape | src/components/editor/Step3.tsx:74 | the archive name is `brick_` + segment + `_` + segment + `.zip`, all allowed characters |
| Packager.ZipArchive.AddFile | src/components/editor/Step3.tsx:65-68 | an entry of the same name is replaced in place; a new one goes last |
| Packager.PutFileDistinct | src/components/editor/Step3.tsx:65-68 | three adds under distinct names give the three entries in order |
| Packager.Step3.Mount | src/components/editor/Step3.tsx:21-27 | three slots with debounce 200 (initials '', '' and `null`), the text drafts encoded as string literals and the manifest compactly, loose mode, dialog closed |
| Packager.Step3.SetMode | src/components/editor/Step3.tsx:25-27 | the chosen delivery mode |
| Packager.Step3.HandleDownload | src/components/editor/Step3.tsx:41-86 | delivers the package of the current drafts (defaults for missing ones), only reads the drafts, and opens the "ready" dialog when something was delivered |
| PackagerExamples.ZipNameOfFields | src/components/editor/Step3.tsx:69-74 | a manifest with a non-empty name and release names the archive after both, sanitised |
| PackagerExamples.ExampleZipName | src/components/editor/Step3.tsx:69-74 | name `My App/v2`, release `1.0 beta` give `brick_My_App_v2_1.0_beta.zip` |
| PackagerExamples.MissingManifestZipName | src/components/editor/Step3.tsx:45-74 | a missing manifest gives `brick_brick_release.zip` |
| AppSettings.InitialSettingsDefaults | src/views/Settings.tsx:55-71 | no stored record and no environment values: the page starts from the defaults |
| AppSettings.InitialSettingsAgree | src/views/Settings.tsx:55-71 | the initial record is the stored one whenever it exists and parses, else the environment's |
| AppSettings.ChangedFields | src/views/Settings.tsx:102-105 | an edit replaces exactly the edited field |
| AppSettings.SettingsView.Mount | src/views/Settings.tsx:55-76 | the initial record, not saving, idle |
| AppSettings.SettingsView.HandleChange | src/views/Settings.tsx:102-105 | the record becomes the spread update |
| AppSettings.SettingsView.HandleReset | src/views/Settings.tsx:93-100 | the record becomes the fixed defaults, not the environment's values |
| AppSettings.SettingsView.HandleSave | src/views/Settings.tsx:78-91 | the compact record is stored under `app_settings`, with status success and one idle timer more; a refused write gives status error and stores nothing; not saving afterwards |
| AppSettings.SettingsView.IdleTimerFires | src/views/Settings.tsx:84 | the status returns to idle |
| AppSettings.SaveThenRead | src/views/Settings.tsx:78-91 | what the page saves is what the other views read back |
| Market.IndexUrlProxied | src/views/Market.tsx:68-91 | complete settings fetch the index as `proxy/index` |
| Market.Filter | src/views/Market.tsx:111-118 | the search never adds entries |
| Market.FilterMembers | src/views/Market.tsx:111-118 | an entry is in the result iff it is in the catalog and its name, description or author contains the query |
| Market.FilterAppend | src/views/Market.tsx:111-118 | the result keeps the catalog order |
| Market.FilterEmptyQuery | src/views/Market.tsx:111-118 | the empty query matches every entry |
| Market.SearchCaseInsensitive | src/views/Market.tsx:106-120 | lower-casing the query does not change the result |
| Market.TotalPagesBounds | src/views/Market.tsx:123 | the page count is the ceiling: enough pages, none wholly past the end, none for an empty list |
| Market.PageSlice | src/views/Market.tsx:124-126 | a page holds at most `perPage` entries |
| Market.PagesUpToPrefix | src/views/Market.tsx:123-126 | the first `k` pages, read one after another, are the list's prefix |
| Market.PagesCoverList | src/views/Market.tsx:123-126 | all pages together give back the whole list, in order |
| Market.PageInRangeNotEmpty | src/views/Market.tsx:123-131 | a reachable page of a non-empty list is never empty |
| Market.MarketView.constructor | src/views/Market.tsx:58-65 | loading, empty catalog, empty query, 10 per page, page 1 |
| Market.MarketView.MountEffect | src/views/Market.tsx:68-82 | incomplete settings open the configuration dialog and the page stays loading; otherwise the index URL is requested |
| Market.MarketView.IndexLoaded | src/views/Market.tsx:85-103 | a fetched catalog replaces the empty one and the search runs on it; a failure opens the dialog; loading ends either way |
| Market.MarketView.ApplySearch | src/views/Market.tsx:106-120 | the result is the search result; a non-blank query resets the page to 1, a blank one keeps it |
| Market.MarketView.SetSearchQuery | src/views/Market.tsx:106-120 | a new non-blank query resets to page 1; a blank or unchanged one keeps the page |
| Market.MarketView.HandlePageChange | src/views/Market.tsx:128-131 | pages outside 1..totalPages are ignored |
| Market.MarketView.SetItemsPerPageAsWritten | src/views/Market.tsx:236-244 | as written the per-page menu keeps the current page |
| Market.MarketView.SetItemsPerPage | src/views/Market.tsx:236-244 | corrected: a new page size goes back to page 1, which is always reachable |
| Market.StalePageAfterPerPageChange | src/views/Market.tsx:123-126 | 30 entries on page 3 at 10 per page: at 30 per page there is one page and page 3 is empty |
| Market.PerPageChangeAsWrittenEmptiesPage | src/views/Market.tsx:309 | in the page as written, that change shows no entries and hides the page buttons |
| Market.PerPageChangeKeepsPageFilled | src/views/Market.tsx:236-244 | with the corrected menu the visible page is never empty while there are results |
| MarketDetail.FindAppFirst | src/views/MarketDetail.tsx:73-75 | the lookup finds an entry iff one matches os, version and variant, and it is the first match |
| MarketDetail.CardRouteFinds | src/views/MarketDetail.tsx:73-75 | the route of any catalog entry finds an entry at that route |
| MarketDetail.RequestUrls | src/views/MarketDetail.tsx:65-83 | the README is always requested at `proxy/repo/raw/branch/main/index/os/version/variant/README.md`, even with an empty proxy (then the URL starts with `/`); the index skips an empty proxy |
| MarketDetail.FetchShowsEntryIff | src/views/MarketDetail.tsx:56-101 | (corrected) the entry is shown iff settings exist and the index fetched from its URL holds an entry at the route; it shows that entry with the README fetched from its URL, or `*暂无文档*` |
| MarketDetail.FetchErrorText | src/views/MarketDetail.tsx:59-94 | no settings, a failed index request and no match give their own messages |
| MarketDetail.StaleErrorAsWritten | src/views/MarketDetail.tsx:56-101 | a not-found route then a found one: the error card stays as written and the entry shows when corrected |
| MarketDetail.DetailView.Mount | src/views/MarketDetail.tsx:51-54 | no entry, no text, loading, no error |
| MarketDetail.DetailView.FetchAppDetails | src/views/MarketDetail.tsx:56-101 | one run of the effect as written: the loading flag is set, the settings are read at that moment, the index and README are requested at their URLs, and an earlier error stays |
| MarketDetail.DetailView.FetchAppDetailsCorrected | src/views/MarketDetail.tsx:56-101 | the corrected run, which clears the error first |
| MarketDetail.DownloadUrlShape | src/views/MarketDetail.tsx:114-120 | the template URL ends with the entry's `template.sh` path and, with a proxy, starts with `proxy/` |
| MarketDetail.DownloadTargetsEntry | src/views/MarketDetail.tsx:103-145 | no entry does nothing; every URL ends with the entry's `template.sh` path; the fallback opens the URL the fetch used; a proxy prefixes it; the saved file is `template.sh` |
| DocumentPage.EnsureSlashShape | src/views/Document.tsx:37-40 | the base ends with exactly one added slash; normalising twice is normalising once |
| DocumentPage.DirectDocUrl | src/views/Document.tsx:36-57 | without a proxy the URL is the base, one slash, `docs/README.md` |
| DocumentPage.ProxiedDocUrl | src/views/Document.tsx:44-55 | with a proxy the URL always starts with `proxy/`, parsed or not |
| DocumentPage.DocUrlThrowsIff | src/views/Document.tsx:31-38 | no settings or no base give the fallback URL; only a truthy non-text base throws |
| DocumentPage.SettleRendersOutcome | src/views/Document.tsx:82-140 | content shows iff the answer is 200 with a non-empty text body; an empty text shows the empty notice; anything else shows an error |
| DocumentPage.FailurePrecedence | src/views/Document.tsx:89-97 | 404 before timeout before the generic message |
| DocumentPage.DocPage.Mount | src/views/Document.tsx:61-63 | empty content, no error, loading |
| DocumentPage.DocPage.FetchDocContent | src/views/Document.tsx:65-105 | the state is the classified outcome of the request for the computed URL; a URL that throws is reported like a failed request |
| Radio.RadioGroup.Register | src/components/ui/radio.tsx:29-33 | entries with the value are dropped and the new one goes last |
| Radio.RadioGroup.Unregister | src/components/ui/radio.tsx:35-37 | entries with the value are dropped |
| Radio.RegisterKeepsDistinct | src/components/ui/radio.tsx:29-33 | values stay distinct, the value maps to its latest element, other entries stay |
| Radio.UnregisterRemoves | src/components/ui/radio.tsx:35-37 | no entry keeps the value; all others stay |
| Radio.WithoutMembers | src/components/ui/radio.tsx:36 | the filter keeps exactly the entries of other values |
| Radio.TabStopsCount | src/components/ui/radio.tsx:113-122 | with distinct values, exactly one item is a tab stop iff the selected value is among them, else none |
| Radio.IndexOf | src/components/ui/radio.tsx:100 | the first position of the element, or -1 exactly when absent |
| Radio.NeighbourIndex | src/components/ui/radio.tsx:103-106 | forward is the next position wrapping to the first; backward the previous wrapping to the last |
| Radio.NextPrevInverse | src/components/ui/radio.tsx:103-106 | both moves stay in range and undo each other |
| Radio.KeyDownMoves | src/components/ui/radio.tsx:79-111 | Space and Enter select the item; an arrow focuses the wrapped neighbour and selects it iff its value is non-empty |
| Radio.KeyDownOutsideGroup | src/components/ui/radio.tsx:95-101 | without a group, or for an element the group does not hold, a key selects and focuses nothing |

## Left out

- Real time and the React lifecycle. A debounce timer is a flag and its expiry is `Slot.Fire`. Effects and handlers are method calls, with asynchronous completions supplied as parameters. The zero-delay timer that moves the textarea selection is merged into the insert.
- React's `Object.is` bail-out. `Slot.Set` is used for strings and `Slot.SetNew` for freshly built objects. A functional update that returns an equal object is not distinguished.
- `JSON.parse` of a whole manifest or settings record is a parameter. Text slots decode with the string-literal parser only, so a text slot whose stored JSON is not a string reads as a parse failure and falls back to ''. The source would instead render the non-string value.
- `toLowerCase` is modelled on ASCII letters only. Unicode case mapping is not modelled.
- `new URL` is the parameter `parseUrl`. Only its protocol, host and path are used.
- The network (axios, fetch), Blob and object URLs, anchor clicks and `window.open` are not modelled. Their outcomes are parameters and the model returns the actions they lead to.
- Catalog entries are assumed to be well-formed records of eight strings. A malformed `response.data` is not modelled.
- Caret and selection offsets count characters, not UTF-16 code units. The sanitiser alone counts UTF-16 code units.
- JSZip compression and `generateAsync` are not modelled. Only the entry list and the archive name are. A failed archive generation (`archiveOk` false) delivers nothing.
- `JSON.stringify` is taken to never throw on a manifest, since the value came from JSON. So the `'{}'` fallback in the preview is unreachable.
- The template editor (src/components/editor/TemplateEditor.tsx) is not part of this model. It is the same slot-and-clear pattern as the document editor, at `editor:template:draft` with debounce 500. Step 0 of the editor mounts it through `Drafts.MountText`.
- The routes, layout, rendering and static pages are not modelled. The market card's navigation to `/market/os/version/variant` is covered only by `MarketDetail.CardRouteFinds`.
- `Packager.SanitizeShape`: it proves the UTF-16 length is kept, not the count of Dafny characters, because characters outside the Basic Multilingual Plane become two underscores.
- `AppSettings.InitialSettingsAgree`: it relates the settings page's initial record to the stored record as read by the other views. It does not restate the environment fallback field by field.

## Findings

| source | as written | input that shows it | evidently intended | confidence | as-written member | corrected member |
|---|---|---|---|---|---|---|
| src/views/Editor.tsx:21-29 | the step-0 gate trims the raw stored text. That text is the JSON encoding of the draft, so an empty draft is stored as `""`, which is not blank | a fresh store: both step-0 editors mount with '' and their first flush stores `""` under both keys; "next" then advances with both drafts empty | trim the decoded drafts | not executed | Editor.EmptyDraftsAdvance | Editor.ReachingExportNeedsGatesCorrected |
| src/views/Market.tsx:236-244 | choosing a page size keeps the current page | 30 results on page 3 at 10 per page, then 30 per page: page 3 is empty and, with one page, the page buttons are hidden | go back to page 1 on a new page size | not executed | Market.PerPageChangeAsWrittenEmptiesPage | Market.PerPageChangeKeepsPageFilled |
| src/views/MarketDetail.tsx:56-101 | the fetch effect never clears an earlier error; latent, because the app's own links always leave the detail page through `/market` (src/views/MarketDetail.tsx:148), which unmounts it | a change of the route parameters while the page stays mounted, from a route with no matching entry to one whose entry exists: the error card stays | clear the error when a run starts | not executed, latent | MarketDetail.StaleErrorAsWritten | MarketDetail.FetchShowsEntryIff |
