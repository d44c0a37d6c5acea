/**
 * Worked runs of the editor and the session controller on concrete inputs,
 * each proved from the operations' contracts alone.
 */
module Scenarios {
  import opened Wrappers
  import opened TextBuffer
  import opened Lines
  import opened Session
  import opened Editing

  /** The three lines of the sticky-column example and where they start. */
  lemma ThreeLines()
    ensures Split("abcdef\nxy\nabcdef") == ["abcdef", "xy", "abcdef"]
    ensures LineStart(["abcdef", "xy", "abcdef"], 1) == 7
    ensures LineStart(["abcdef", "xy", "abcdef"], 2) == 10
  {
    var lines, rest, last := ["abcdef", "xy", "abcdef"], ["xy", "abcdef"], ["abcdef"];
    assert lines[1..] == rest && rest[1..] == last;
    assert Join(last) == "abcdef";
    assert Join(rest) == "xy\nabcdef";
    assert Join(lines) == "abcdef\nxy\nabcdef";
    SplitJoin(lines);
    assert LineStart(lines, 1) == 7;
  }

  /**
   * On "abcdef\nxy\nabcdef" with the caret at 5, moving down lands at 9
   * (the end of the short line) aiming for column 5; moving down again with
   * column 5 remembered lands at 15, column 5 of the third line.
   */
  lemma StickyDown(text: string, lines: seq<string>)
    requires Split(text) == lines && |text| == 16
    requires |lines| == 3 && |lines[0]| == 6 && |lines[1]| == 2
    ensures VerticalTarget(text, 5, 1, None) == Landing(9, 5)
  {
    assert LineStart(lines, 1) == LineStart(lines, 0) + 6 + 1 == 7;
    LineIndexOfWithin(lines, 0, 5);
    assert Clamp(0 + 1, |lines| - 1) == 1;
  }

  lemma StickyDownAgain(text: string, lines: seq<string>)
    requires Split(text) == lines && |text| == 16
    requires |lines| == 3 && |lines[0]| == 6 && |lines[1]| == 2 && |lines[2]| == 6
    ensures VerticalTarget(text, 9, 1, Some(5)) == Landing(15, 5)
  {
    assert LineStart(lines, 1) == LineStart(lines, 0) + 6 + 1 == 7;
    assert LineStart(lines, 2) == LineStart(lines, 1) + 2 + 1 == 10;
    LineIndexOfWithin(lines, 1, 9);
    assert Clamp(1 + 1, |lines| - 1) == 2;
  }

  /** The same two moves made by the editor. */
  method StickyColumn() returns (first: nat, second: nat, remembered: Option<nat>)
    ensures first == 9 && second == 15 && remembered == Some(5)
  {
    var drive := new Drive();
    var editor := new Editor(drive);
    var text := "abcdef\nxy\nabcdef";
    var lines := ["abcdef", "xy", "abcdef"];
    editor.InsertText(text);
    assert editor.text == text;
    ThreeLines();
    StickyDown(text, lines);
    StickyDownAgain(text, lines);
    editor.SetSelection(5, 5);
    editor.MoveVertical(1, false);
    first := editor.focus;
    editor.MoveVertical(1, false);
    second := editor.focus;
    remembered := editor.preferredColumn;
  }

  /** The title a save sends is trimmed, and blank titles become "Untitled". */
  lemma TitlesTrimmed()
    ensures PayloadTitle("  Notes ") == "Notes"
    ensures PayloadTitle(" \t") == "Untitled"
  {
    var s := "  Notes ";
    assert IsWhiteSpace(s[0]) && IsWhiteSpace(s[1]) && !IsWhiteSpace(s[2]);
    assert s[1..][1..] == s[2..];
    assert LeadingSpace(s[2..]) == 0;
    assert LeadingSpace(s) == 2;
    assert IsWhiteSpace(s[7]) && !IsWhiteSpace(s[6]);
    assert s[..7][6] == s[6];
    assert TrailingSpace(s[..7]) == 0;
    assert TrailingSpace(s) == 1;
    assert s[2..7] == "Notes";
    assert !IsWhiteSpace(s[2]);
    var blank := " \t";
    assert IsWhiteSpace(blank[0]) && IsWhiteSpace(blank[1]);
  }

  /** On "hello world" with the selection (2, 6), moving left collapses to 2 and goes no further. */
  method CollapseBeforeMove() returns (anchor: nat, focus: nat)
    ensures anchor == 2 && focus == 2
  {
    var drive := new Drive();
    var editor := new Editor(drive);
    editor.InsertText("hello world");
    editor.SetSelection(2, 6);
    editor.MoveLeft(false);
    anchor, focus := editor.anchor, editor.focus;
  }

  /**
   * A new empty "Untitled" document: typing "Hi" leaves the caret at 2,
   * select-all selects (0, 2), and deleting empties the buffer; the session
   * is dirty with one autosave timer armed.
   */
  method TypeSelectDelete()
    returns (typed: string, caret: nat, selected: (nat, nat), final: string, finalCaret: nat, dirty: bool, armed: bool)
    ensures typed == "Hi" && caret == 2
    ensures selected == (0, 2)
    ensures final == [] && finalCaret == 0
    ensures dirty && armed
  {
    var drive := new Drive();
    var editor := new Editor(drive);
    editor.OpenDocument(Document("doc-1", "Untitled", [], None));
    editor.InsertText("Hi");
    typed, caret := editor.text, editor.focus;
    editor.SelectAll();
    selected := (editor.anchor, editor.focus);
    editor.DeleteBackward();
    final, finalCaret := editor.text, editor.focus;
    dirty, armed := drive.isDirty, drive.saveTimer.Some?;
  }

  /**
   * Three edits in a row re-arm the autosave timer each time: the timers
   * they replaced never fire, and the last one sends a single request
   * holding the buffer as of the last edit. A save asked for while that
   * request is in flight is skipped.
   */
  method DebouncedAutosave()
    returns (early: SaveStart, late: SaveStart, overlapping: SaveStart, saved: bool, dirty: bool)
    ensures early.Skipped?
    ensures late.Started? && late.request.content == "abc"
    ensures overlapping.Skipped?
    ensures saved && !dirty
  {
    var drive := new Drive();
    var editor := new Editor(drive);
    editor.OpenDocument(Document("doc-1", "Notes", [], None));
    editor.InsertText("a");
    assert editor.text == "a";
    var firstTimer := drive.saveTimer.value;
    editor.InsertText("b");
    assert editor.text == "ab" && drive.saveTimer != Some(firstTimer);
    editor.InsertText("c");
    assert editor.text == "abc" && drive.saveTimer != Some(firstTimer);
    var lastTimer := drive.saveTimer.value;
    early := editor.FireTimer(firstTimer);
    assert drive.saveTimer == Some(lastTimer) && drive.isDirty && !drive.isSaving;
    late := editor.FireTimer(lastTimer);
    var _, overlapping' := editor.Save(RequestFailed);
    overlapping := overlapping';
    var stored := Document("doc-1", "Notes", late.request.content, None);
    saved := drive.FinishSave(Stored(stored, true));
    dirty := drive.isDirty;
  }

  /**
   * A title typed with surrounding blanks marks the document dirty, and the
   * save sends it trimmed together with the buffer.
   */
  method TitleFieldIsTrimmed() returns (start: SaveStart)
    ensures start.Started? && start.request == SaveRequest("doc-1", "Notes", "x", None)
  {
    var drive := new Drive();
    var editor := new Editor(drive);
    editor.OpenDocument(Document("doc-1", "Draft", "x", None));
    TitlesTrimmed();
    editor.EditTitle("  Notes ");
    assert drive.isDirty && !drive.isSaving && editor.text == "x";
    var _, started := editor.Save(Stored(Document("doc-1", "Notes", "x", None), true));
    start := started;
  }

  /**
   * The save as public/app.js writes it loses an edit: "a" is being saved
   * when "b" is typed; the response clears the dirty flag, so the re-armed
   * timer finds nothing to save and "ab" is never sent.
   */
  method LostEditAsWritten() returns (buffer: string, sent: string, dirty: bool, resave: SaveStart)
    ensures buffer == "ab" && sent == "a"
    ensures !dirty && resave.Skipped?
  {
    var drive := new Drive();
    var editor := new Editor(drive);
    editor.OpenDocument(Document("doc-1", "Notes", [], None));
    editor.InsertText("a");
    assert editor.text == "a" && drive.isDirty && !drive.isSaving;
    var start := editor.FireTimer(drive.saveTimer.value);
    assert start.request.content == "a" && drive.inFlight.Some?;
    editor.InsertText("b");
    assert editor.text == "ab" && drive.inFlight.Some? && drive.saveTimer.Some?;
    var _ := drive.FinishSaveAsWritten(Stored(Document("doc-1", "Notes", start.request.content, None), true));
    resave := editor.FireTimer(drive.saveTimer.value);
    buffer, sent, dirty := editor.text, start.request.content, drive.isDirty;
  }

  /**
   * With the corrected save the same run keeps the buffer dirty, and the
   * re-armed timer sends "ab".
   */
  method EditDuringSaveIsResaved() returns (buffer: string, sent: string, dirty: bool, resave: SaveStart)
    ensures buffer == "ab" && sent == "a" && dirty
    ensures resave.Started? && resave.request.content == "ab"
  {
    var drive := new Drive();
    var editor := new Editor(drive);
    editor.OpenDocument(Document("doc-1", "Notes", [], None));
    editor.InsertText("a");
    assert editor.text == "a" && drive.isDirty && !drive.isSaving;
    var start := editor.FireTimer(drive.saveTimer.value);
    assert start.request.content == "a" && drive.inFlight.Some?;
    editor.InsertText("b");
    assert editor.text == "ab" && drive.inFlight.Some? && drive.saveTimer.Some?;
    var _ := drive.FinishSave(Stored(Document("doc-1", "Notes", start.request.content, None), true));
    assert editor.text == "ab" && drive.isDirty && !drive.isSaving && drive.saveTimer.Some?;
    dirty := drive.isDirty;
    resave := editor.FireTimer(drive.saveTimer.value);
    buffer, sent := editor.text, start.request.content;
  }

  /**
   * An edit made while the listing refresh of a stored save is pending: its
   * timer finds a save still in progress and is skipped, and when the
   * refresh then fails the status reads "Save failed" with the buffer dirty.
   */
  method EditDuringRefresh() returns (skipped: SaveStart, ok: bool, dirty: bool, status: DocStatus)
    ensures skipped.Skipped? && !ok && dirty && status == SaveFailed
  {
    var drive := new Drive();
    var editor := new Editor(drive);
    editor.OpenDocument(Document("doc-1", "Notes", [], None));
    editor.InsertText("a");
    assert drive.isDirty && !drive.isSaving;
    var start := editor.FireTimer(drive.saveTimer.value);
    assert drive.inFlight.Some?;
    drive.ReceiveResponse(PutStored(Document("doc-1", "Notes", start.request.content, None)));
    editor.InsertText("b");
    assert drive.isSaving && drive.refreshing && drive.isDirty;
    skipped := editor.FireTimer(drive.saveTimer.value);
    ok := drive.FinishRefresh(false);
    dirty, status := drive.isDirty, drive.status;
  }

  /**
   * A dirty buffer is saved before a switch; once the switch has gone ahead
   * no save is in progress, so the next document's first edit is sent by
   * its timer.
   */
  method SwitchThenEdit() returns (sent: SaveStart, resave: SaveStart)
    ensures sent.Started? && sent.request == SaveRequest("doc-1", "Notes", "a", None)
    ensures resave.Started? && resave.request.docId == "doc-2" && resave.request.content == "b"
  {
    var title := "Notes";
    var drive := new Drive();
    var editor := new Editor(drive);
    editor.OpenDocument(Document("doc-1", title, [], None));
    editor.InsertText("a");
    assert editor.text == "a" && editor.title == title && drive.isDirty && !drive.isSaving;
    var proceed;
    proceed, sent := editor.MaybeSwitchDocument(Stored(Document("doc-1", title, "a", None), true), false);
    assert sent.Started? && sent.request == SaveRequest("doc-1", PayloadTitle(title), "a", None);
    assert proceed && !drive.isSaving;
    resave := EditNextDocument(editor);
    TitlesTrimmed();
    PayloadTitleIdempotent("  Notes ");
  }

  /** Opening "doc-2" when no save is in progress and typing "b": the timer sends it. */
  method EditNextDocument(editor: Editor) returns (resave: SaveStart)
    requires editor.Valid() && !editor.drive.isSaving
    modifies editor, editor.drive
    ensures resave.Started? && resave.request.docId == "doc-2" && resave.request.content == "b"
  {
    var drive := editor.drive;
    editor.OpenDocument(Document("doc-2", "Notes", [], None));
    editor.InsertText("b");
    assert editor.text == "b" && drive.isDirty && !drive.isSaving;
    assert drive.currentDoc == Some(Document("doc-2", "Notes", [], None));
    resave := editor.FireTimer(drive.saveTimer.value);
  }
}
