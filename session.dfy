/**
 * The document session controller (public/app.js, lines 32-40, 510-531 and
 * 654-705): dirty tracking, the debounced autosave timer, the single save in
 * flight, and the discard decision taken before switching documents.
 *
 * The network is not modelled: `saveCurrentDoc` is split at its two
 * `await`s into `BeginSave` (the guard and the request it sends),
 * `ReceiveResponse` (what the answer to the PUT does) and `FinishRefresh`
 * (what the end of the listing refresh does), so that edits can happen in
 * between; the answers and the user's answer to the discard prompt are
 * parameters.
 */
module Session {
  import opened Wrappers

  /** A document as the server returns it. */
  datatype Document = Document(id: string, title: string, content: string, folderId: Option<string>)

  /** The `PUT /api/documents/{docId}` request a save sends. */
  datatype SaveRequest = SaveRequest(docId: string, title: string, content: string, folderId: Option<string>)

  /** The answer to the PUT: it fails, or the server stores the document and returns it. */
  datatype PutResult = PutFailed | PutStored(doc: Document)

  /**
   * How the awaited part of a save ends when nothing happens in between: the request fails, or it succeeds
   * and the folder listing is then refreshed, which may fail in turn.
   */
  datatype SaveOutcome = RequestFailed | Stored(doc: Document, listingRefreshed: bool)

  /** Whether a save got past its guard, and the request it sent if so. */
  datatype SaveStart = Skipped | Started(request: SaveRequest)

  /** The status line next to the title. */
  datatype DocStatus = NoStatus | UnsavedChanges | Saving | Saved | SaveFailed

  /** A handle of the host's timer; every `setTimeout` gets a fresh one. */
  type TimerId = nat

  /** ECMAScript's WhiteSpace and LineTerminator code units: what `String.prototype.trim` removes. */
  const WhiteSpace: set<char> := {
    '\t', '\n', '\U{000B}', '\U{000C}', '\r', ' ', '\U{00A0}', '\U{1680}',
    '\U{2000}', '\U{2001}', '\U{2002}', '\U{2003}', '\U{2004}', '\U{2005}',
    '\U{2006}', '\U{2007}', '\U{2008}', '\U{2009}', '\U{200A}',
    '\U{2028}', '\U{2029}', '\U{202F}', '\U{205F}', '\U{3000}', '\U{FEFF}'
  }

  predicate IsWhiteSpace(c: char) {
    c in WhiteSpace
  }

  /** How many white-space code units `s` starts with. */
  function LeadingSpace(s: string): (n: nat)
    ensures n <= |s|
    ensures forall i :: 0 <= i < n ==> IsWhiteSpace(s[i])
    ensures n < |s| ==> !IsWhiteSpace(s[n])
  {
    if s != [] && IsWhiteSpace(s[0]) then 1 + LeadingSpace(s[1..]) else 0
  }

  /** How many white-space code units `s` ends with. */
  function TrailingSpace(s: string): (n: nat)
    ensures n <= |s|
    ensures forall i :: |s| - n <= i < |s| ==> IsWhiteSpace(s[i])
    ensures n < |s| ==> !IsWhiteSpace(s[|s| - n - 1])
  {
    if s != [] && IsWhiteSpace(s[|s| - 1]) then 1 + TrailingSpace(s[..|s| - 1]) else 0
  }

  /**
   * `s.trim()`: the white-space prefix is dropped, then the white-space
   * suffix of the rest.
   */
  function Trim(s: string): (t: string)
    ensures LeadingSpace(s) + |t| <= |s|
    ensures t == s[LeadingSpace(s)..LeadingSpace(s) + |t|]
    ensures forall i :: LeadingSpace(s) + |t| <= i < |s| ==> IsWhiteSpace(s[i])
    ensures t != [] ==> !IsWhiteSpace(t[|t| - 1])
  {
    var a, b := LeadingSpace(s), |s| - TrailingSpace(s);
    if a <= b then s[a..b] else []
  }

  /** `s.trim()` is empty exactly when `s` is all white space; otherwise it starts and ends visibly. */
  lemma TrimBlank(s: string)
    ensures Trim(s) == [] <==> forall i :: 0 <= i < |s| ==> IsWhiteSpace(s[i])
    ensures Trim(s) != [] ==> !IsWhiteSpace(Trim(s)[0]) && !IsWhiteSpace(Trim(s)[|Trim(s)| - 1])
  {
    var a, b := LeadingSpace(s), |s| - TrailingSpace(s);
    if a < |s| {
      assert !IsWhiteSpace(s[a]);
      assert a < b;
      assert Trim(s)[0] == s[a] && Trim(s)[|Trim(s)| - 1] == s[b - 1];
    }
  }

  /** A string that starts and ends visibly is its own `trim()`. */
  lemma TrimVisible(s: string)
    requires s != [] && !IsWhiteSpace(s[0]) && !IsWhiteSpace(s[|s| - 1])
    ensures Trim(s) == s
  {
    assert LeadingSpace(s) == 0 && TrailingSpace(s) == 0;
  }

  /**
   * The title a save sends: `docTitleInput.value.trim() || 'Untitled'`. It is
   * never empty and never starts or ends with white space.
   */
  function PayloadTitle(input: string): (t: string)
    ensures t != [] && !IsWhiteSpace(t[0]) && !IsWhiteSpace(t[|t| - 1])
    ensures (forall i :: 0 <= i < |input| ==> IsWhiteSpace(input[i])) ==> t == "Untitled"
    ensures (exists i :: 0 <= i < |input| && !IsWhiteSpace(input[i])) ==> t == Trim(input)
  {
    TrimBlank(input);
    var trimmed := Trim(input);
    if trimmed != [] then trimmed else "Untitled"
  }

  /** A title that was sent once is sent unchanged if it is saved again. */
  lemma PayloadTitleIdempotent(input: string)
    ensures PayloadTitle(PayloadTitle(input)) == PayloadTitle(input)
  {
    var t := PayloadTitle(input);
    TrimVisible(t);
    assert !IsWhiteSpace(t[0]);
  }

  /** `driveState`, with the bookkeeping the corrected save needs. */
  class Drive {
    var currentDoc: Option<Document>
    var isDirty: bool
    var isSaving: bool
    /** The one armed autosave timer, if any. */
    var saveTimer: Option<TimerId>
    /** The handle the next `setTimeout` returns. */
    var nextTimer: TimerId
    /** The request awaiting its response. */
    var inFlight: Option<SaveRequest>
    /** A stored save waiting for the folder listing to reload. */
    var refreshing: bool
    var status: DocStatus
    /** How many edits the open document has had. */
    var revision: nat
    /** The revision the server last stored. */
    var savedRevision: nat
    /** The revision the request in flight carries. */
    var inFlightRevision: nat

    ghost predicate Valid()
      reads this
    {
      && (isSaving <==> inFlight.Some? || refreshing)
      && !(inFlight.Some? && refreshing)
      && (inFlight.Some? ==> currentDoc.Some?)
      && (saveTimer.Some? ==> saveTimer.value < nextTimer)
      && (isDirty ==> currentDoc.Some?)
    }

    /**
     * No edit is silently lost: a buffer that is not dirty is one the server
     * has stored, every edit included.
     */
    ghost predicate CleanMeansStored()
      reads this
    {
      !isDirty ==> savedRevision == revision
    }

    /** The state the page starts in: no document, nothing pending. */
    constructor()
      ensures Valid() && CleanMeansStored()
      ensures currentDoc == None && !isDirty && !isSaving && saveTimer == None && status == NoStatus
    {
      currentDoc := None;
      isDirty := false;
      isSaving := false;
      saveTimer := None;
      nextTimer := 0;
      inFlight := None;
      refreshing := false;
      status := NoStatus;
      revision := 0;
      savedRevision := 0;
      inFlightRevision := 0;
    }

    /**
     * What `markDirty` does: nothing without an open document; otherwise the
     * buffer is dirty, the status says so if the buffer was clean, and the
     * autosave timer is re-armed under a fresh handle.
     */
    twostate predicate DirtyMarked()
      reads this
    {
      && currentDoc == old(currentDoc) && isSaving == old(isSaving) && refreshing == old(refreshing)
      && inFlight == old(inFlight) && inFlightRevision == old(inFlightRevision)
      && savedRevision == old(savedRevision)
      && if old(currentDoc).None? then
           && isDirty == old(isDirty) && saveTimer == old(saveTimer) && nextTimer == old(nextTimer)
           && status == old(status) && revision == old(revision)
         else
           && isDirty && saveTimer == Some(old(nextTimer)) && nextTimer == old(nextTimer) + 1
           && status == (if old(isDirty) then old(status) else UnsavedChanges)
           && revision == old(revision) + 1
    }

    /** `markDirty`. */
    method MarkDirty()
      requires Valid()
      modifies this
      ensures Valid() && DirtyMarked()
      ensures old(CleanMeansStored()) ==> CleanMeansStored()
    {
      if currentDoc.None? {
        return;
      }
      revision := revision + 1;
      if !isDirty {
        isDirty := true;
        status := UnsavedChanges;
      }
      ScheduleSave();
    }

    /**
     * `scheduleSave`: with a document open, clears the armed timer and arms a
     * new one, so at most one timer is armed and the one replaced never fires.
     */
    method ScheduleSave()
      requires Valid()
      modifies this
      ensures Valid() && (old(CleanMeansStored()) ==> CleanMeansStored())
      ensures old(currentDoc).None? ==> saveTimer == old(saveTimer) && nextTimer == old(nextTimer)
      ensures old(currentDoc).Some? ==> saveTimer == Some(old(nextTimer)) && nextTimer == old(nextTimer) + 1
      ensures old(saveTimer).Some? && old(currentDoc).Some? ==> saveTimer != old(saveTimer)
      ensures currentDoc == old(currentDoc) && isDirty == old(isDirty) && isSaving == old(isSaving)
      ensures inFlight == old(inFlight) && refreshing == old(refreshing) && status == old(status)
      ensures revision == old(revision) && savedRevision == old(savedRevision)
      ensures inFlightRevision == old(inFlightRevision)
    {
      if currentDoc.None? {
        return;
      }
      saveTimer := Some(nextTimer);
      nextTimer := nextTimer + 1;
    }

    /**
     * What the first half of `saveCurrentDoc` does to everything but the
     * timer: it resolves at once when no document is open, a save is in
     * flight or nothing is dirty; otherwise it marks the save in flight and
     * sends the buffer `content` under the trimmed title.
     */
    twostate predicate SaveBegun(content: string, titleInput: string, start: SaveStart)
      reads this
    {
      && (start.Skipped? <==> old(currentDoc).None? || old(isSaving) || !old(isDirty))
      && currentDoc == old(currentDoc) && isDirty == old(isDirty) && nextTimer == old(nextTimer)
      && revision == old(revision) && savedRevision == old(savedRevision) && refreshing == old(refreshing)
      && if start.Skipped? then
           && isSaving == old(isSaving) && inFlight == old(inFlight)
           && inFlightRevision == old(inFlightRevision) && status == old(status)
         else
           && start.request == SaveRequest(old(currentDoc).value.id, PayloadTitle(titleInput), content,
                                           old(currentDoc).value.folderId)
           && isSaving && inFlight == Some(start.request) && inFlightRevision == old(revision)
           && status == Saving
    }

    /**
     * The first half of `saveCurrentDoc`, up to its `await`; a save that
     * starts also clears the autosave timer.
     */
    method BeginSave(content: string, titleInput: string) returns (start: SaveStart)
      requires Valid()
      modifies this
      ensures Valid() && (old(CleanMeansStored()) ==> CleanMeansStored())
      ensures SaveBegun(content, titleInput, start)
      ensures start.Skipped? ==> unchanged(this)
      ensures start.Started? ==> saveTimer == None
    {
      if currentDoc.None? || isSaving {
        return Skipped;
      }
      if !isDirty {
        return Skipped;
      }
      isSaving := true;
      saveTimer := None;
      status := Saving;
      var request := SaveRequest(currentDoc.value.id, PayloadTitle(titleInput), content, currentDoc.value.folderId);
      inFlight := Some(request);
      inFlightRevision := revision;
      start := Started(request);
    }

    /**
     * The answer to the PUT of `saveCurrentDoc`, corrected: a stored request
     * replaces the open document and clears the dirty flag only if no edit
     * came after the request was built; the save then waits for the listing
     * refresh. A failed request ends the save with the buffer still dirty.
     */
    method ReceiveResponse(result: PutResult)
      requires Valid() && inFlight.Some?
      modifies this
      ensures Valid() && (old(CleanMeansStored()) || result.PutStored? ==> CleanMeansStored())
      ensures inFlight == None
      ensures result.PutFailed? ==>
                && !isSaving && !refreshing && status == SaveFailed
                && currentDoc == old(currentDoc) && isDirty == old(isDirty) && savedRevision == old(savedRevision)
      ensures result.PutStored? ==>
                && isSaving && refreshing
                && currentDoc == Some(result.doc) && savedRevision == old(inFlightRevision)
                && (isDirty <==> old(revision) != old(inFlightRevision))
                && status == (if isDirty then UnsavedChanges else Saved)
      ensures saveTimer == old(saveTimer) && nextTimer == old(nextTimer) && revision == old(revision)
    {
      inFlight := None;
      match result {
      case PutFailed =>
        status := SaveFailed;
        isSaving := false;
      case PutStored(doc) =>
        currentDoc := Some(doc);
        savedRevision := inFlightRevision;
        isDirty := revision != inFlightRevision;
        status := if isDirty then UnsavedChanges else Saved;
        refreshing := true;
      }
    }

    /**
     * The answer to the PUT as public/app.js writes it: a stored request
     * clears the dirty flag unconditionally, even when edits arrived while
     * it was in flight.
     */
    method ReceiveResponseAsWritten(result: PutResult)
      requires Valid() && inFlight.Some?
      modifies this
      ensures Valid()
      ensures inFlight == None
      ensures result.PutFailed? ==>
                && !isSaving && !refreshing && status == SaveFailed
                && currentDoc == old(currentDoc) && isDirty == old(isDirty) && savedRevision == old(savedRevision)
      ensures result.PutStored? ==>
                && isSaving && refreshing
                && currentDoc == Some(result.doc) && !isDirty && savedRevision == old(inFlightRevision)
                && status == Saved
      ensures saveTimer == old(saveTimer) && nextTimer == old(nextTimer) && revision == old(revision)
    {
      inFlight := None;
      match result {
      case PutFailed =>
        status := SaveFailed;
        isSaving := false;
      case PutStored(doc) =>
        currentDoc := Some(doc);
        savedRevision := inFlightRevision;
        isDirty := false;
        status := Saved;
        refreshing := true;
      }
    }

    /**
     * The end of the listing refresh that follows a stored PUT: the save
     * reports whether the refresh succeeded, a failed one overwrites the
     * status with "Save failed", and no save is in progress afterwards.
     */
    method FinishRefresh(refreshed: bool) returns (ok: bool)
      requires Valid() && refreshing
      modifies this
      ensures Valid() && (old(CleanMeansStored()) ==> CleanMeansStored())
      ensures ok == refreshed && !isSaving && !refreshing
      ensures status == (if refreshed then old(status) else SaveFailed)
      ensures currentDoc == old(currentDoc) && isDirty == old(isDirty) && inFlight == old(inFlight)
      ensures saveTimer == old(saveTimer) && nextTimer == old(nextTimer)
      ensures revision == old(revision) && savedRevision == old(savedRevision)
    {
      if !refreshed {
        status := SaveFailed;
      }
      refreshing := false;
      isSaving := false;
      ok := refreshed;
    }

    /**
     * Everything after the `BeginSave` of `saveCurrentDoc`, corrected, when
     * no edit comes in between: true exactly when the PUT and the refresh
     * both succeed.
     */
    method FinishSave(outcome: SaveOutcome) returns (ok: bool)
      requires Valid() && inFlight.Some?
      modifies this
      ensures Valid() && (old(CleanMeansStored()) || outcome.Stored? ==> CleanMeansStored())
      ensures ok <==> outcome.Stored? && outcome.listingRefreshed
      ensures !isSaving && !refreshing && inFlight == None
      ensures outcome.RequestFailed? ==>
                && currentDoc == old(currentDoc) && isDirty == old(isDirty)
                && savedRevision == old(savedRevision) && status == SaveFailed
      ensures outcome.Stored? ==>
                && currentDoc == Some(outcome.doc) && savedRevision == old(inFlightRevision)
                && (isDirty <==> old(revision) != old(inFlightRevision))
                && status == (if !outcome.listingRefreshed then SaveFailed
                              else if isDirty then UnsavedChanges else Saved)
      ensures saveTimer == old(saveTimer) && nextTimer == old(nextTimer) && revision == old(revision)
    {
      match outcome {
      case RequestFailed =>
        ReceiveResponse(PutFailed);
        ok := false;
      case Stored(doc, refreshed) =>
        ReceiveResponse(PutStored(doc));
        ok := FinishRefresh(refreshed);
      }
    }

    /** Everything after the `BeginSave` of `saveCurrentDoc` as public/app.js writes it. */
    method FinishSaveAsWritten(outcome: SaveOutcome) returns (ok: bool)
      requires Valid() && inFlight.Some?
      modifies this
      ensures Valid()
      ensures ok <==> outcome.Stored? && outcome.listingRefreshed
      ensures !isSaving && !refreshing && inFlight == None
      ensures outcome.RequestFailed? ==>
                && currentDoc == old(currentDoc) && isDirty == old(isDirty)
                && savedRevision == old(savedRevision) && status == SaveFailed
      ensures outcome.Stored? ==>
                && currentDoc == Some(outcome.doc) && !isDirty && savedRevision == old(inFlightRevision)
                && status == (if outcome.listingRefreshed then Saved else SaveFailed)
      ensures saveTimer == old(saveTimer) && nextTimer == old(nextTimer) && revision == old(revision)
    {
      match outcome {
      case RequestFailed =>
        ReceiveResponseAsWritten(PutFailed);
        ok := false;
      case Stored(doc, refreshed) =>
        ReceiveResponseAsWritten(PutStored(doc));
        ok := FinishRefresh(refreshed);
      }
    }

    /**
     * What `saveCurrentDoc` run to completion with no edit in between does:
     * the guard skips it and nothing changes, or the buffer `content` is sent
     * under the trimmed title and the save ends. A stored PUT leaves the
     * returned document open and clean, with status "Saved", or "Save failed"
     * when the refresh fails; a failed PUT leaves the buffer dirty with
     * status "Save failed".
     */
    twostate predicate SaveDone(content: string, titleInput: string, outcome: SaveOutcome, start: SaveStart)
      reads this
    {
      && (start.Skipped? <==> old(currentDoc).None? || old(isSaving) || !old(isDirty))
      && if start.Skipped? then unchanged(this)
         else
           && start.request == SaveRequest(old(currentDoc).value.id, PayloadTitle(titleInput), content,
                                           old(currentDoc).value.folderId)
           && !isSaving && !refreshing && inFlight == None && saveTimer == None
           && nextTimer == old(nextTimer) && revision == old(revision)
           && match outcome
              case RequestFailed =>
                && isDirty && currentDoc == old(currentDoc) && savedRevision == old(savedRevision)
                && status == SaveFailed
              case Stored(doc, refreshed) =>
                && !isDirty && currentDoc == Some(doc) && savedRevision == old(revision)
                && status == (if refreshed then Saved else SaveFailed)
    }

    /**
     * `saveCurrentDoc` run to completion with no edit in between: true when
     * the guard skipped the save or the save and the refresh both succeeded.
     */
    method SaveCurrentDoc(content: string, titleInput: string, outcome: SaveOutcome)
      returns (ok: bool, start: SaveStart)
      requires Valid()
      modifies this
      ensures Valid() && (old(CleanMeansStored()) ==> CleanMeansStored())
      ensures SaveDone(content, titleInput, outcome, start)
      ensures ok <==> start.Skipped? || (outcome.Stored? && outcome.listingRefreshed)
    {
      start := BeginSave(content, titleInput);
      if start.Skipped? {
        return true, start;
      }
      ok := FinishSave(outcome);
    }

    /**
     * `maybeSwitchDocument`: whether the switch handler runs. A dirty buffer
     * is saved first; the switch is abandoned only when that save reports
     * failure and the user declines to discard the changes.
     */
    method MaybeSwitchDocument(content: string, titleInput: string, outcome: SaveOutcome, confirmDiscard: bool)
      returns (proceed: bool, start: SaveStart)
      requires Valid()
      modifies this
      ensures Valid() && (old(CleanMeansStored()) ==> CleanMeansStored())
      ensures proceed <==>
                || !old(isDirty) || old(isSaving)
                || (outcome.Stored? && outcome.listingRefreshed) || confirmDiscard
      ensures !old(isDirty) ==> start.Skipped? && unchanged(this)
      ensures old(isDirty) ==> SaveDone(content, titleInput, outcome, start)
      ensures !proceed ==> isDirty == (outcome.RequestFailed?) && !isSaving
    {
      start := Skipped;
      if isDirty {
        var saved;
        saved, start := SaveCurrentDoc(content, titleInput, outcome);
        if !saved && !confirmDiscard {
          return false, start;
        }
      }
      return true, start;
    }

    /**
     * A timer firing: a cleared timer never fires; the armed one is spent
     * and starts `saveCurrentDoc`.
     */
    method FireTimer(id: TimerId, content: string, titleInput: string) returns (start: SaveStart)
      requires Valid()
      modifies this
      ensures Valid() && (old(CleanMeansStored()) ==> CleanMeansStored())
      ensures old(saveTimer) != Some(id) ==> start.Skipped? && unchanged(this)
      ensures old(saveTimer) == Some(id) ==> saveTimer == None && SaveBegun(content, titleInput, start)
    {
      if saveTimer != Some(id) {
        return Skipped;
      }
      saveTimer := None;
      start := BeginSave(content, titleInput);
    }

    /**
     * The session part of `openDocument` once the document has arrived: it
     * becomes the open document, clean and marked saved.
     */
    method Open(doc: Document)
      requires Valid()
      modifies this
      ensures Valid() && CleanMeansStored()
      ensures currentDoc == Some(doc) && !isDirty && status == Saved
      ensures isSaving == old(isSaving) && inFlight == old(inFlight) && refreshing == old(refreshing)
      ensures saveTimer == old(saveTimer) && nextTimer == old(nextTimer) && revision == old(revision)
      ensures inFlightRevision == old(inFlightRevision)
    {
      currentDoc := Some(doc);
      isDirty := false;
      savedRevision := revision;
      status := Saved;
    }
  }
}
