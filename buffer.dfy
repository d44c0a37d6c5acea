/**
 * The text buffer and its selection arithmetic (public/app.js, lines 42-62 and
 * the slice/concatenate steps of the edit operations at lines 116-184).
 * Text is a sequence of UTF-16 code units; `string` stands for `seq<char>`.
 */
module TextBuffer {

  /** `Math.max(0, Math.min(max, x))`: the nearest offset in `[0, max]`. */
  function Clamp(x: int, max: nat): (r: nat)
    ensures r <= max
    ensures 0 <= x <= max ==> r == x
    ensures x < 0 ==> r == 0
    ensures max < x ==> r == max
  {
    if x < 0 then 0 else if max < x then max else x
  }

  /** The normalised selection: `start` is the left edge, `end` the right edge. */
  datatype Range = Range(start: nat, end: nat)

  /** `getSelectionRange`: orders the anchor/focus pair. */
  function GetSelectionRange(anchor: nat, focus: nat): (r: Range)
    ensures r.start <= r.end
    ensures (r.start == anchor && r.end == focus) || (r.start == focus && r.end == anchor)
  {
    if anchor <= focus then Range(anchor, focus) else Range(focus, anchor)
  }

  /** `hasSelection`: a non-empty range is selected. */
  function HasSelection(anchor: nat, focus: nat): (b: bool)
    ensures b <==> GetSelectionRange(anchor, focus).start < GetSelectionRange(anchor, focus).end
  {
    anchor != focus
  }

  /**
   * `before + s + after` with `before = text.slice(0, start)` and
   * `after = text.slice(end)`: the one edit every mutation performs.
   */
  function Splice(text: string, start: nat, end: nat, s: string): (r: string)
    requires start <= end <= |text|
    ensures |r| == |text| - (end - start) + |s|
    ensures r[..start] == text[..start]
    ensures r[start..start + |s|] == s
    ensures r[start + |s|..] == text[end..]
  {
    text[..start] + s + text[end..]
  }

  /**
   * Deleting a range and typing the deleted text back at its start restores
   * the buffer.
   */
  lemma DeleteThenRetypeRestores(text: string, start: nat, end: nat)
    requires start <= end <= |text|
    ensures var deleted := Splice(text, start, end, []);
            start <= |deleted| &&
            Splice(deleted, start, start, text[start..end]) == text
  {
    var deleted := Splice(text, start, end, []);
    var back := Splice(deleted, start, start, text[start..end]);
    assert back[..start] == text[..start];
    assert back[start..end] == text[start..end];
    assert back[end..] == text[end..];
    assert back == back[..start] + back[start..end] + back[end..];
    assert text == text[..start] + text[start..end] + text[end..];
  }

  /** Splicing `s` in and then splicing it out again gives back the original text. */
  lemma InsertThenDeleteRestores(text: string, start: nat, end: nat, s: string)
    requires start <= end <= |text|
    ensures var inserted := Splice(text, start, end, s);
            start + |s| <= |inserted| &&
            Splice(inserted, start, start + |s|, []) == Splice(text, start, end, [])
  {
    var inserted := Splice(text, start, end, s);
    var removed := Splice(inserted, start, start + |s|, []);
    assert removed == inserted[..start] + inserted[start + |s|..];
  }
}
