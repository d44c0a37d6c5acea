# dox editor core in Dafny

This project models the text-editing engine and the document-session controller of
the dox browser client, `public/app.js`.

The **editing engine** has these parts:
- the buffer `text`, the `anchor`/`focus` selection and the sticky `preferredColumn`;
- clamping of the selection;
- the edits, which replace, insert and delete;
- horizontal, vertical and line-start/end caret movement, and select-all;
- the line index built by `getLineData`/`getLineInfo`;
- the DOM-free part of `render`, which splits the buffer around the selection.

The **session controller** has these parts:
- dirty tracking;
- the debounced autosave timer;
- the single save in flight;
- the decision, taken before switching documents, to save, to abandon the switch, or to discard.

Modules, one concern each:

- `Wrappers` (wrappers.dfy): `Option`.
- `TextBuffer` (buffer.dfy): clamping, the selection range, and `Splice`, the one edit every mutation performs.
- `Projection` (projection.dfy): the segments `render` produces and their round trip with the buffer.
- `Lines` (lines.dfy):
  - `split('\n')` as `Split`, and its inverse `Join`;
  - the line start and end offsets;
  - the first-line-reaching-the-caret index;
  - the two loop methods `GetLineData` and `GetLineInfo`;
  - the landing point of a vertical move.
- `Session` (session.dfy): class `Drive`, which holds `driveState`.
  - `saveCurrentDoc` is split at its two `await`s, so that edits can happen at either of them:
    - `BeginSave` is the guard and the PUT it sends;
    - `ReceiveResponse` is what the answer to the PUT does;
    - `FinishRefresh` is what the end of the listing refresh (`loadDrive`) does.
  - `FinishSave` runs the last two with nothing in between.
  - The server's answers and the user's answer to the discard prompt are parameters.
- `Editing` (editor.dfy): class `Editor`, which holds `editorState` and the title field. Each method changes the buffer in place and reports edits to its `Drive`. Its save methods hand the `Drive` this buffer and this title field.
- `Scenarios` (scenarios.dfy): concrete runs, proved from the contracts above.
  - The sticky column.
  - Collapse before a move.
  - Typing, then select-all, then delete.
  - The debounced autosave.
  - The lost edit described under Findings.
  - An edit made during the listing refresh.
  - A save before a document switch, then an edit of the next document.

The save's end state follows the code. If the PUT succeeds but the listing refresh fails, `saveCurrentDoc` reports failure and sets status "Save failed". Yet the buffer is already clean and the document already replaced. So, unlike a failed PUT, a failed refresh reports failure with nothing left to save.

## Model

| member | source | states |
|---|---|---|
| TextBuffer.Clamp | public/app.js:43-45 | the result lies in `[0, max]`, equals `x` when `x` is already in range, and is 0 below and `max` above |
| TextBuffer.GetSelectionRange | public/app.js:48-52 | `start <= end`, and the pair is the anchor/focus pair in one order or the other |
| TextBuffer.HasSelection | public/app.js:54-56 | true exactly when the normalised range is non-empty |
| TextBuffer.Splice | public/app.js:116-120 | the result keeps `text[..start]`, then holds `s`, then `text[end..]`, and its length is the old length, less `end - start`, plus the length of `s` |
| TextBuffer.DeleteThenRetypeRestores | public/app.js:141-152 | deleting a range and inserting the deleted text back at its start restores the buffer |
| TextBuffer.InsertThenDeleteRestores | public/app.js:116-125 | replacing a range with `s` and then deleting `s` gives the same buffer as deleting the range |
| Projection.Project | public/app.js:64-91 | a caret marker is emitted exactly when `start == end`; otherwise a non-empty selection; `before` has length `start` and the marker shows `end - start` characters |
| Projection.ProjectFlatten | public/app.js:64-91 | the segments concatenate back to the buffer |
| Projection.FlattenProject | public/app.js:64-91 | projecting a flattened segment triple at its own offsets gives the same triple (projection is a bijection) |
| Projection.ProjectAll | public/app.js:294-297 | with everything selected, the whole buffer is the selection segment and both sides are empty |
| Lines.Split | public/app.js:224 | `split('\n')` gives one more piece than there are newlines, none containing a newline |
| Lines.JoinSplit | public/app.js:224 | joining the pieces of a split with newlines gives back the text |
| Lines.SplitJoin | public/app.js:224 | splitting the join of newline-free lines gives back the lines |
| Lines.JoinFirst | public/app.js:224 | a join of two or more lines is the first line, then a newline, then the join of the rest, at those exact offsets |
| Lines.LaterLineInJoin | public/app.js:228-231 | the `LineInJoin` facts for a line after the first, obtained from the remaining lines shifted past the first line and its newline |
| Lines.LineInJoin | public/app.js:228-231 | line `i` occupies `[LineStart, LineEnd)` of the text; a newline follows every line but the last, which ends the text |
| Lines.LinesOrdered | public/app.js:228-231 | every line ends before any later line starts |
| Lines.LineBetweenNewlines | public/app.js:224-231 | a line of the joined text is preceded by a newline or the text start, followed by a newline or the text end, and holds no newline |
| Lines.LineIndexOf | public/app.js:238-247 | the index is the first line whose end is not before the caret, or the last line if none is |
| Lines.LineIndexOfWithin | public/app.js:238-247 | a caret between the start and end of a line is given that line, including a caret at the line end |
| Lines.CaretInItsLine | public/app.js:236-251 | for a caret in the buffer, its line starts at or before it and ends at or after it, so the column lies between 0 and the line's length |
| Lines.LineBoundsAroundCaret | public/app.js:236-251 | the caret's line is the maximal newline-free stretch of the text around it |
| Lines.GetLineData | public/app.js:223-234 | `lines` is the split, there is one more line than there are newlines, `starts[0] == 0`, and each start is the previous start plus the previous line's length plus one |
| Lines.GetLineInfo | public/app.js:236-251 | the loop finds `LineIndexOf` and the column is the caret minus that line's start |
| Lines.VerticalTarget | public/app.js:253-261 | the landing offset is in the buffer; the column kept is the preferred column if set and otherwise the caret's own column |
| Lines.LineStartJoin | public/app.js:228-231 | line `i > 0` starts one past the length of the first `i` lines joined with newlines |
| Lines.VerticalTargetOnLine | public/app.js:258-261 | the caret lands on the clamped target line, at the desired column or at the end of a shorter line, and the line index agrees |
| Lines.VerticalAtEdgeStays | public/app.js:258-261 | with no preferred column, a move that cannot change line leaves the caret where it was |
| Lines.VerticalDownUp | public/app.js:253-270 | moving down and then up with the remembered column returns to the starting offset |
| Editing.ClampPointIndex | public/app.js:345 | a hit-tested index, when there is one, is clamped into the buffer and kept when already inside |
| Editing.Editor.constructor | public/app.js:15-30 | the editor starts with an empty buffer, the caret at 0 and no preferred column |
| Editing.Editor.ClampSelection | public/app.js:42-46 | both ends are clamped into the buffer, and offsets already inside are unchanged |
| Editing.Editor.SetSelection | public/app.js:58-62 | any offsets are accepted and clamped, and the buffer and preferred column are untouched |
| Editing.Editor.Render | public/app.js:64-91 | the anchor and focus are clamped into the buffer; the segments are the projection of the clamped range, concatenate back to the buffer, and show a caret exactly when anchor equals focus |
| Editing.Editor.ReplaceSelection | public/app.js:116-125 | the range gives way to `s`, the caret collapses just after the inserted `s`, the preferred column is cleared, and the session is marked dirty |
| Editing.Editor.InsertText | public/app.js:127-139 | same as replace, with `start == end == focus` when nothing is selected |
| Editing.Editor.DeleteSelection | public/app.js:141-152 | a no-op on an empty selection; otherwise the range is cut, the caret goes to its start, and the session is marked dirty |
| Editing.Editor.DeleteBackward | public/app.js:154-169 | deletes the selection if any; otherwise a no-op at 0, else removes the character before the caret and steps back |
| Editing.Editor.DeleteForward | public/app.js:171-184 | deletes the selection if any; otherwise a no-op at the end, else removes the character after the caret and leaves the caret in place |
| Editing.Editor.CollapseSelectionToEdge | public/app.js:186-195 | reports true exactly when there was a selection, then collapses to its left or right edge; otherwise changes nothing |
| Editing.Editor.MoveLeft | public/app.js:197-208 | without extend, a selection collapses to its start; otherwise the focus steps back one, not below 0, and the anchor stays with extend and follows without |
| Editing.Editor.MoveRight | public/app.js:210-221 | the mirror of MoveLeft, stopping at the end of the buffer |
| Editing.Editor.MoveVertical | public/app.js:253-270 | the focus lands at `VerticalTarget`, and the aimed column becomes the preferred column |
| Editing.Editor.MoveLineStart | public/app.js:272-281 | the focus goes to the start of the caret's line and the preferred column is cleared |
| Editing.Editor.MoveLineEnd | public/app.js:283-292 | the focus goes to the end of the caret's line and the preferred column is cleared |
| Editing.Editor.SelectAll | public/app.js:294-297 | the selection runs from 0 to the end of the buffer and the preferred column is cleared |
| Editing.Editor.OpenDocument | public/app.js:617-629 | the document's content becomes the buffer, its title (or "Untitled" when empty) the title field, the caret goes to the buffer's end, and the session holds the document as clean and saved |
| Editing.Editor.EditTitle | public/app.js:792-797 | the title field takes the typed value, the buffer and selection are untouched, and the session is marked dirty as by `markDirty` |
| Editing.Editor.BeginSave | public/app.js:654-673 | the guard and request of `saveCurrentDoc` on this editor: a request that starts carries this buffer and this title field, trimmed, and clears the timer |
| Editing.Editor.FireTimer | public/app.js:528-530 | a cleared timer does nothing; the armed one starts a save of this buffer and this title field |
| Editing.Editor.Save | public/app.js:654-692 | the Save button and Ctrl+S, as `SaveDone` on this buffer and title field: the request sent is this document's id and folder, the trimmed title field and this buffer; afterwards no save is in progress and no timer is armed; a stored PUT leaves the returned document open and clean with status "Saved", or "Save failed" when the refresh fails; a failed PUT leaves it dirty with "Save failed"; the result is true exactly when skipped or on a stored PUT and refresh |
| Editing.Editor.MaybeSwitchDocument | public/app.js:694-705 | the switch goes ahead unless the buffer was dirty, the save of this buffer reported failure and the user declined to discard; a clean buffer changes nothing; a dirty one ends in the state `SaveDone` gives for this buffer and title field, with the request it sent |
| Session.LeadingSpace | public/app.js:670 | counts exactly the white-space prefix |
| Session.TrailingSpace | public/app.js:670 | counts exactly the white-space suffix |
| Session.Trim | public/app.js:670 | `trim()` is the stretch of the input after its white-space prefix, with only white space after it and a visible last character |
| Session.TrimBlank | public/app.js:670 | `trim()` is empty exactly when the input is all white space; otherwise it starts and ends with visible characters |
| Session.TrimVisible | public/app.js:670 | a string that starts and ends with a visible character is its own `trim()` |
| Session.PayloadTitle | public/app.js:670 | the title sent is never empty or padded: "Untitled" for a blank input, otherwise the trimmed input |
| Session.PayloadTitleIdempotent | public/app.js:670 | a title that was sent once is sent unchanged when saved again |
| Session.Drive.constructor | public/app.js:32-40 | no document, not dirty, not saving, no request or refresh pending, no timer |
| Session.Drive.MarkDirty | public/app.js:510-519 | a no-op without an open document; otherwise the buffer is dirty, the status says so if the buffer was clean (a save in progress keeps "Saving"), and the timer is re-armed; a clean buffer is still one the server stored |
| Session.Drive.ScheduleSave | public/app.js:521-531 | with a document open, the armed timer is replaced by a fresh one, so at most one is armed and the replaced one never fires |
| Session.Drive.FireTimer | public/app.js:528-530 | a cleared timer does nothing; the armed one starts `saveCurrentDoc` |
| Session.Drive.BeginSave | public/app.js:654-673 | skipped exactly when no document is open, a save is in progress or nothing is dirty; otherwise the timer is cleared, the status is "Saving", and the request carries the open document's id and folder, the given content and the trimmed title |
| Session.Drive.ReceiveResponse | public/app.js:675-690 | a failed PUT ends the save with status "Save failed" and the dirty flag kept; a stored one replaces the document, keeps the buffer dirty exactly when an edit came after the request, and leaves the save waiting for the refresh |
| Session.Drive.ReceiveResponseAsWritten | public/app.js:675-690 | as written: a stored PUT clears the dirty flag and shows "Saved" unconditionally |
| Session.Drive.FinishRefresh | public/app.js:684-691 | the save ends and reports whether the refresh succeeded; a failed refresh overwrites the status with "Save failed"; the document and dirty flag are untouched |
| Session.Drive.FinishSave | public/app.js:675-691 | the result is true exactly when the PUT and the refresh succeed; a failed PUT leaves the buffer dirty; no save is in progress afterwards; a clean buffer is one the server stored, every edit included |
| Session.Drive.FinishSaveAsWritten | public/app.js:675-691 | as written: a stored PUT clears the dirty flag unconditionally |
| Session.Drive.SaveCurrentDoc | public/app.js:654-692 | `SaveDone`: skipped, changing nothing, exactly when no document is open, a save is in progress or nothing is dirty; otherwise the request carries the document's id and folder, the content and the trimmed title, and afterwards no save is in progress and no timer is armed; a stored PUT leaves the returned document open and clean with status "Saved", or "Save failed" when the refresh fails; a failed PUT leaves the buffer dirty with "Save failed"; the result is true exactly when skipped or on a stored PUT and refresh |
| Session.Drive.MaybeSwitchDocument | public/app.js:694-705 | the switch goes ahead unless the buffer was dirty, the save reported failure and the user declined to discard; a clean buffer changes nothing; a dirty one ends in the state `SaveDone` gives, with the request it sent |
| Session.Drive.Open | public/app.js:619-626 | the document becomes the open one, clean and marked saved |
| Scenarios.StickyColumn | public/app.js:253-270 | on "abcdef\nxy\nabcdef" from offset 5, two moves down land at 9 and then at 15, with preferred column 5 |
| Scenarios.StickyDown | public/app.js:253-270 | the first landing of the sticky-column run is offset 9, aiming at column 5 |
| Scenarios.StickyDownAgain | public/app.js:253-270 | the second landing, with column 5 remembered, is offset 15 |
| Scenarios.ThreeLines | public/app.js:223-234 | "abcdef\nxy\nabcdef" splits into three lines starting at 0, 7 and 10 |
| Scenarios.TitlesTrimmed | public/app.js:670 | "  Notes " is sent as "Notes", and " \t" as "Untitled" |
| Scenarios.CollapseBeforeMove | public/app.js:197-208 | on "hello world" with selection (2, 6), moving left gives caret 2 |
| Scenarios.TypeSelectDelete | public/app.js:127-169 | typing "Hi", selecting all and deleting leaves an empty, dirty buffer with one timer armed |
| Scenarios.DebouncedAutosave | public/app.js:510-531 | of three quick edits only the last timer sends a request, holding all three; a save asked for meanwhile is skipped |
| Scenarios.TitleFieldIsTrimmed | public/app.js:669-673 | after the title field is edited to "  Notes ", a save sends "Notes" with the document's id, its folder and the buffer |
| Scenarios.LostEditAsWritten | public/app.js:681-682 | as written, an edit made during a save is never sent |
| Scenarios.EditDuringSaveIsResaved | public/app.js:681-682 | corrected, the same edit keeps the buffer dirty and the next timer sends it |
| Scenarios.EditDuringRefresh | public/app.js:676-690 | an edit made while the listing refreshes keeps the buffer dirty, its timer is skipped because the save is still in progress, and a failed refresh then shows "Save failed" |
| Scenarios.SwitchThenEdit | public/app.js:694-705 | a dirty "a" is sent as SaveRequest("doc-1", "Notes", "a", None) before the switch; after opening doc-2 and typing "b", the timer sends "b" for doc-2 |
| Scenarios.EditNextDocument | public/app.js:617-629 | with no save in progress, opening "doc-2" and typing "b" lets the timer send "b" for "doc-2" |

## Left out

- DOM construction and presentation in `render`: nodes, class toggles, scroll restore and scroll-into-view. These are browser effects; only the segment split is modelled.
- Hit-testing (`getCaretFromPoint`, `indexFromNodeOffset`): it depends on browser layout. Only the final clamp is modelled, as `ClampPointIndex`.
- `handleKeydown` and the other event handlers (pointer, clipboard, focus, fonts): UI plumbing whose effects are the operations above.
- `fetchJSON`, `loadDrive`, `runAction`, `createFolder`, `createDocument`, and drive-list and path rendering: network I/O. A save's result is a `SaveOutcome` parameter. Only the state effect of `openDocument` is modelled.
- `window.confirm` and `window.alert`: the discard answer is a parameter, and alerts are not modelled.
- The 1500 ms autosave delay: the model has no clock. A timer fires when `FireTimer` is called with its handle.
- Session.Drive.FireTimer: a timer handle that has fired is treated as cleared. In the code it stays in `saveTimer` until the next save clears it or the next `scheduleSave` replaces it, which has no observable effect.
- The interleaving of `openDocument` with a save in flight is not modelled. A response arriving after a switch would overwrite the new document.
- The value of the title field before any document is opened is not modelled. Saving needs an open document, and opening one sets the field.
- The document the server returns is a parameter. It is not related to the content sent.
- The status text strings are a `DocStatus` value; the DOM attributes are not modelled.
- Offsets are `nat`. Transient negative offsets, which `setSelection` clamps at once, never occur in the state.
- Text is a sequence of UTF-16 code units, as JavaScript's `length` and `slice` count them. Surrogate pairs and grapheme clusters are not modelled.
- `cmd/server/main.go` (the HTTP server) and `internal/store/store.go` (Postgres queries) are not part of this model. They are request routing and persistence I/O.

## Findings

| source | as written | input that shows it | evidently intended | confidence | as-written member | corrected member |
|---|---|---|---|---|---|---|
| public/app.js:681-682 | a successful PUT sets `isDirty = false` even when edits were made while the request was in flight | open a document, type "a", let the timer send "a", type "b" before the response arrives: the response clears the dirty flag, the re-armed timer finds nothing dirty, and "ab" is never saved | clear the dirty flag only when no edit came after the request was built | high (not executed) | Scenarios.LostEditAsWritten | Session.Drive.FinishSave |
