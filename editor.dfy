/**
 * The editing engine (public/app.js, lines 15-30, 42-297 and 617-629): the
 * buffer, the anchor/focus selection and the sticky column, changed in place
 * by the edit and movement operations. Every edit tells the session
 * controller through `MarkDirty`, and every save sends this buffer and the
 * title field.
 */
module Editing {
  import opened Wrappers
  import opened TextBuffer
  import opened Projection
  import opened Lines
  import opened Session

  /** The edge `collapseSelectionToEdge` collapses to. */
  datatype Edge = Left | Right

  /**
   * The last step of `getIndexFromPoint`: a hit-tested offset, when there is
   * one, is clamped into the buffer.
   */
  function ClampPointIndex(index: Option<int>, length: nat): (r: Option<nat>)
    ensures r.Some? <==> index.Some?
    ensures r.Some? ==> r.value <= length
    ensures r.Some? && 0 <= index.value <= length ==> r.value == index.value
  {
    match index
    case None => None
    case Some(i) => Some(Clamp(i, length))
  }

  /** `editorState`. */
  class Editor {
    var text: string
    var anchor: nat
    var focus: nat
    var preferredColumn: Option<nat>
    /** The text of the title field next to the buffer (`docTitleInput.value`). */
    var title: string
    /** The session controller edits report to. */
    const drive: Drive

    /** Both ends of the selection lie in the buffer. */
    ghost predicate InBounds()
      reads this
    {
      anchor <= |text| && focus <= |text|
    }

    ghost predicate Valid()
      reads this, drive
    {
      InBounds() && drive.Valid()
    }

    /** The empty buffer with the caret at 0, as the page starts. */
    constructor(drive: Drive)
      requires drive.Valid()
      ensures Valid() && this.drive == drive
      ensures text == [] && anchor == 0 && focus == 0 && preferredColumn == None && title == []
    {
      this.drive := drive;
      title := [];
      text := [];
      anchor := 0;
      focus := 0;
      preferredColumn := None;
    }

    /** The normalised selection of the current state. */
    function SelectionRange(): Range
      reads this
    {
      GetSelectionRange(anchor, focus)
    }

    /** `clampSelection`: pulls both ends into the buffer; a no-op on offsets already inside it. */
    method ClampSelection()
      modifies this
      ensures title == old(title)
      ensures InBounds()
      ensures anchor == Clamp(old(anchor), |text|) && focus == Clamp(old(focus), |text|)
      ensures old(InBounds()) ==> anchor == old(anchor) && focus == old(focus)
      ensures text == old(text) && preferredColumn == old(preferredColumn)
    {
      anchor := Clamp(anchor, |text|);
      focus := Clamp(focus, |text|);
    }

    /** `setSelection`: any pair of offsets is accepted and clamped into the buffer. */
    method SetSelection(newAnchor: int, newFocus: int)
      modifies this
      ensures title == old(title)
      ensures InBounds()
      ensures anchor == Clamp(newAnchor, |text|) && focus == Clamp(newFocus, |text|)
      ensures text == old(text) && preferredColumn == old(preferredColumn)
    {
      anchor := Clamp(newAnchor, |text|);
      focus := Clamp(newFocus, |text|);
    }

    /**
     * The DOM-free part of `render`: after clamping, the buffer split around
     * the selection, which concatenates back to the buffer.
     */
    method Render() returns (segments: Segments)
      modifies this
      ensures title == old(title)
      ensures InBounds()
      ensures anchor == Clamp(old(anchor), |text|) && focus == Clamp(old(focus), |text|)
      ensures old(InBounds()) ==> anchor == old(anchor) && focus == old(focus)
      ensures text == old(text) && preferredColumn == old(preferredColumn)
      ensures segments == Project(text, SelectionRange().start, SelectionRange().end)
      ensures Flatten(segments) == text
      ensures segments.marker == Caret <==> anchor == focus
    {
      ClampSelection();
      var r := GetSelectionRange(anchor, focus);
      var before := text[..r.start];
      var marker := if r.start != r.end then Selection(text[r.start..r.end]) else Caret;
      var after := text[r.end..];
      segments := Segments(before, marker, after);
      ProjectFlatten(text, r.start, r.end);
    }

    /**
     * `replaceSelection`: the selected range is replaced by `s`, the caret
     * collapses after it, the sticky column is cleared and the session is
     * marked dirty.
     */
    method ReplaceSelection(s: string)
      requires Valid()
      modifies this, drive
      ensures title == old(title)
      ensures Valid()
      ensures text == Splice(old(text), old(SelectionRange()).start, old(SelectionRange()).end, s)
      ensures anchor == focus == old(SelectionRange()).start + |s|
      ensures preferredColumn == None
      ensures drive.DirtyMarked()
    {
      var r := GetSelectionRange(anchor, focus);
      var before := text[..r.start];
      var after := text[r.end..];
      text := before + s + after;
      var nextCaret := r.start + |s|;
      SetSelection(nextCaret, nextCaret);
      preferredColumn := None;
      drive.MarkDirty();
    }

    /**
     * `insertText`: replaces the selection if there is one, else inserts at
     * the caret; either way the range `[start, end)` gives way to `s`.
     */
    method InsertText(s: string)
      requires Valid()
      modifies this, drive
      ensures title == old(title)
      ensures Valid()
      ensures text == Splice(old(text), old(SelectionRange()).start, old(SelectionRange()).end, s)
      ensures anchor == focus == old(SelectionRange()).start + |s|
      ensures preferredColumn == None
      ensures drive.DirtyMarked()
    {
      if HasSelection(anchor, focus) {
        ReplaceSelection(s);
        return;
      }
      var before := text[..focus];
      var after := text[focus..];
      text := before + s + after;
      var nextCaret := focus + |s|;
      SetSelection(nextCaret, nextCaret);
      preferredColumn := None;
      drive.MarkDirty();
    }

    /** `deleteSelection`: a no-op on an empty selection, else the range is cut and the caret left at its start. */
    method DeleteSelection()
      requires Valid()
      modifies this, drive
      ensures title == old(title)
      ensures Valid()
      ensures old(anchor) == old(focus) ==> unchanged(this) && unchanged(drive)
      ensures old(anchor) != old(focus) ==>
                && text == Splice(old(text), old(SelectionRange()).start, old(SelectionRange()).end, [])
                && anchor == focus == old(SelectionRange()).start
                && preferredColumn == None
                && drive.DirtyMarked()
    {
      if !HasSelection(anchor, focus) {
        return;
      }
      var r := GetSelectionRange(anchor, focus);
      var before := text[..r.start];
      var after := text[r.end..];
      text := before + after;
      SetSelection(r.start, r.start);
      preferredColumn := None;
      drive.MarkDirty();
    }

    /**
     * `deleteBackward`: deletes the selection if there is one; else a no-op
     * at offset 0, and otherwise removes the character before the caret.
     */
    method DeleteBackward()
      requires Valid()
      modifies this, drive
      ensures title == old(title)
      ensures Valid()
      ensures old(anchor) != old(focus) ==>
                && text == Splice(old(text), old(SelectionRange()).start, old(SelectionRange()).end, [])
                && anchor == focus == old(SelectionRange()).start
                && preferredColumn == None && drive.DirtyMarked()
      ensures old(anchor) == old(focus) == 0 ==> unchanged(this) && unchanged(drive)
      ensures old(anchor) == old(focus) && old(focus) > 0 ==>
                && text == Splice(old(text), old(focus) - 1, old(focus), [])
                && anchor == focus == old(focus) - 1
                && preferredColumn == None && drive.DirtyMarked()
    {
      if HasSelection(anchor, focus) {
        DeleteSelection();
        return;
      }
      if focus == 0 {
        return;
      }
      var before := text[..focus - 1];
      var after := text[focus..];
      text := before + after;
      var nextCaret := focus - 1;
      SetSelection(nextCaret, nextCaret);
      preferredColumn := None;
      drive.MarkDirty();
    }

    /**
     * `deleteForward`: deletes the selection if there is one; else a no-op
     * at the end of the buffer, and otherwise removes the character after
     * the caret, which stays where it is.
     */
    method DeleteForward()
      requires Valid()
      modifies this, drive
      ensures title == old(title)
      ensures Valid()
      ensures old(anchor) != old(focus) ==>
                && text == Splice(old(text), old(SelectionRange()).start, old(SelectionRange()).end, [])
                && anchor == focus == old(SelectionRange()).start
                && preferredColumn == None && drive.DirtyMarked()
      ensures old(anchor) == old(focus) && old(focus) >= |old(text)| ==> unchanged(this) && unchanged(drive)
      ensures old(anchor) == old(focus) && old(focus) < |old(text)| ==>
                && text == Splice(old(text), old(focus), old(focus) + 1, [])
                && anchor == focus == old(focus)
                && preferredColumn == None && drive.DirtyMarked()
    {
      if HasSelection(anchor, focus) {
        DeleteSelection();
        return;
      }
      if focus >= |text| {
        return;
      }
      var before := text[..focus];
      var after := text[focus + 1..];
      text := before + after;
      preferredColumn := None;
      drive.MarkDirty();
    }

    /**
     * `collapseSelectionToEdge`: with a selection, collapses it to its left
     * or right edge and reports true; without one, does nothing.
     */
    method CollapseSelectionToEdge(edge: Edge) returns (collapsed: bool)
      requires InBounds()
      modifies this
      ensures title == old(title)
      ensures InBounds()
      ensures collapsed <==> old(anchor) != old(focus)
      ensures !collapsed ==> unchanged(this)
      ensures collapsed ==>
                && anchor == focus == (if edge == Left then old(SelectionRange()).start else old(SelectionRange()).end)
                && text == old(text) && preferredColumn == None
    {
      if !HasSelection(anchor, focus) {
        return false;
      }
      var r := GetSelectionRange(anchor, focus);
      var target := if edge == Left then r.start else r.end;
      SetSelection(target, target);
      preferredColumn := None;
      return true;
    }

    /**
     * `moveLeft`: without `extend`, a selection collapses to its left edge
     * and goes no further; otherwise the focus steps back one (not past 0),
     * the anchor staying put with `extend` and following the focus without.
     */
    method MoveLeft(extend: bool)
      requires InBounds()
      modifies this
      ensures title == old(title)
      ensures InBounds()
      ensures text == old(text) && preferredColumn == None
      ensures !extend && old(anchor) != old(focus) ==> anchor == focus == old(SelectionRange()).start
      ensures extend || old(anchor) == old(focus) ==>
                && focus == (if old(focus) == 0 then 0 else old(focus) - 1)
                && anchor == (if extend then old(anchor) else focus)
    {
      if !extend {
        var collapsed := CollapseSelectionToEdge(Left);
        if collapsed {
          return;
        }
      }
      var nextCaret := if focus - 1 < 0 then 0 else focus - 1;
      if extend {
        SetSelection(anchor, nextCaret);
      } else {
        SetSelection(nextCaret, nextCaret);
      }
      preferredColumn := None;
    }

    /** `moveRight`: the mirror image of `MoveLeft`, stopping at the end of the buffer. */
    method MoveRight(extend: bool)
      requires InBounds()
      modifies this
      ensures title == old(title)
      ensures InBounds()
      ensures text == old(text) && preferredColumn == None
      ensures !extend && old(anchor) != old(focus) ==> anchor == focus == old(SelectionRange()).end
      ensures extend || old(anchor) == old(focus) ==>
                && focus == (if old(focus) == |text| then |text| else old(focus) + 1)
                && anchor == (if extend then old(anchor) else focus)
    {
      if !extend {
        var collapsed := CollapseSelectionToEdge(Right);
        if collapsed {
          return;
        }
      }
      var nextCaret := if |text| < focus + 1 then |text| else focus + 1;
      if extend {
        SetSelection(anchor, nextCaret);
      } else {
        SetSelection(nextCaret, nextCaret);
      }
      preferredColumn := None;
    }

    /**
     * `moveVertical`: the focus moves to the target line given by
     * `VerticalTarget`, and the column it aimed for becomes the preferred
     * column, kept even where a short line cut the move short.
     */
    method MoveVertical(direction: int, extend: bool)
      requires InBounds()
      modifies this
      ensures title == old(title)
      ensures InBounds()
      ensures text == old(text)
      ensures focus == VerticalTarget(old(text), old(focus), direction, old(preferredColumn)).caret
      ensures anchor == (if extend then old(anchor) else focus)
      ensures preferredColumn == Some(VerticalTarget(old(text), old(focus), direction, old(preferredColumn)).column)
    {
      var lines, starts, lineIndex, column := GetLineInfo(text, focus);
      CaretInItsLine(text, focus);
      var targetLine := Clamp(lineIndex + direction, |lines| - 1);
      var desiredColumn: nat := if preferredColumn.Some? then preferredColumn.value else column;
      var targetColumn := if desiredColumn <= |lines[targetLine]| then desiredColumn else |lines[targetLine]|;
      var nextCaret := starts[targetLine] + targetColumn;
      if extend {
        SetSelection(anchor, nextCaret);
      } else {
        SetSelection(nextCaret, nextCaret);
      }
      preferredColumn := Some(desiredColumn);
    }

    /** `moveLineStart`: the focus goes to the start of its line. */
    method MoveLineStart(extend: bool)
      requires InBounds()
      modifies this
      ensures title == old(title)
      ensures InBounds()
      ensures text == old(text) && preferredColumn == None
      ensures focus == LineStart(Split(old(text)), LineIndexOf(Split(old(text)), old(focus)))
      ensures anchor == (if extend then old(anchor) else focus)
    {
      var lines, starts, lineIndex, column := GetLineInfo(text, focus);
      CaretInItsLine(text, focus);
      var nextCaret := starts[lineIndex];
      if extend {
        SetSelection(anchor, nextCaret);
      } else {
        SetSelection(nextCaret, nextCaret);
      }
      preferredColumn := None;
    }

    /** `moveLineEnd`: the focus goes to the end of its line. */
    method MoveLineEnd(extend: bool)
      requires InBounds()
      modifies this
      ensures title == old(title)
      ensures InBounds()
      ensures text == old(text) && preferredColumn == None
      ensures focus == LineEnd(Split(old(text)), LineIndexOf(Split(old(text)), old(focus)))
      ensures anchor == (if extend then old(anchor) else focus)
    {
      var lines, starts, lineIndex, column := GetLineInfo(text, focus);
      CaretInItsLine(text, focus);
      var nextCaret := starts[lineIndex] + |lines[lineIndex]|;
      if extend {
        SetSelection(anchor, nextCaret);
      } else {
        SetSelection(nextCaret, nextCaret);
      }
      preferredColumn := None;
    }

    /** `selectAll`: the selection runs from 0 to the end of the buffer. */
    method SelectAll()
      modifies this
      ensures title == old(title)
      ensures InBounds()
      ensures text == old(text) && anchor == 0 && focus == |text| && preferredColumn == None
    {
      SetSelection(0, |text|);
      preferredColumn := None;
    }

    /**
     * The state part of `openDocument` once the document has arrived: its
     * content becomes the buffer, its title (or "Untitled") the title field,
     * the caret goes to the end, and the session holds it as the clean open
     * document.
     */
    method OpenDocument(doc: Document)
      requires Valid()
      modifies this, drive
      ensures Valid()
      ensures text == doc.content && anchor == focus == |text| && preferredColumn == None
      ensures title == (if doc.title == [] then "Untitled" else doc.title)
      ensures drive.currentDoc == Some(doc) && !drive.isDirty && drive.status == Saved
      ensures drive.isSaving == old(drive.isSaving) && drive.saveTimer == old(drive.saveTimer)
      ensures drive.nextTimer == old(drive.nextTimer) && drive.revision == old(drive.revision)
    {
      drive.Open(doc);
      title := if doc.title == [] then "Untitled" else doc.title;
      text := doc.content;
      var end := |text|;
      SetSelection(end, end);
      preferredColumn := None;
    }

    /** Typing in the title field: with a document open, the session is marked dirty. */
    method EditTitle(newTitle: string)
      requires Valid()
      modifies this, drive
      ensures Valid()
      ensures title == newTitle
      ensures text == old(text) && anchor == old(anchor) && focus == old(focus)
      ensures preferredColumn == old(preferredColumn)
      ensures drive.DirtyMarked()
    {
      title := newTitle;
      drive.MarkDirty();
    }

    /**
     * The first half of `saveCurrentDoc` on this editor: a request that
     * starts carries this buffer and the trimmed title field.
     */
    method BeginSave() returns (start: SaveStart)
      requires Valid()
      modifies drive
      ensures Valid()
      ensures drive.SaveBegun(text, title, start)
      ensures start.Started? ==> start.request.content == text && drive.saveTimer == None
      ensures start.Skipped? ==> unchanged(drive)
    {
      start := drive.BeginSave(text, title);
    }

    /** The autosave timer with handle `id` firing on this editor. */
    method FireTimer(id: TimerId) returns (start: SaveStart)
      requires Valid()
      modifies drive
      ensures Valid()
      ensures old(drive.saveTimer) != Some(id) ==> start.Skipped? && unchanged(drive)
      ensures old(drive.saveTimer) == Some(id) ==> drive.saveTimer == None && drive.SaveBegun(text, title, start)
      ensures start.Started? ==> start.request.content == text
    {
      start := drive.FireTimer(id, text, title);
    }

    /**
     * The Save button and Ctrl+S: `saveCurrentDoc` run to completion on this
     * buffer and title field, with no edit in between.
     */
    method Save(outcome: SaveOutcome) returns (ok: bool, start: SaveStart)
      requires Valid()
      modifies drive
      ensures Valid()
      ensures drive.SaveDone(text, title, outcome, start)
      ensures ok <==> start.Skipped? || (outcome.Stored? && outcome.listingRefreshed)
    {
      ok, start := drive.SaveCurrentDoc(text, title, outcome);
    }

    /**
     * `maybeSwitchDocument` on this editor: a dirty buffer is saved first,
     * and the switch is abandoned only when that save reports failure and
     * the user declines to discard.
     */
    method MaybeSwitchDocument(outcome: SaveOutcome, confirmDiscard: bool) returns (proceed: bool, start: SaveStart)
      requires Valid()
      modifies drive
      ensures Valid()
      ensures proceed <==>
                || !old(drive.isDirty) || old(drive.isSaving)
                || (outcome.Stored? && outcome.listingRefreshed) || confirmDiscard
      ensures !old(drive.isDirty) ==> start.Skipped? && unchanged(drive)
      ensures old(drive.isDirty) ==> drive.SaveDone(text, title, outcome, start)
    {
      proceed, start := drive.MaybeSwitchDocument(text, title, outcome, confirmDiscard);
    }
  }
}
