/**
 * The DOM-free part of `render` (public/app.js, lines 64-91): the buffer is
 * shown as the text before the selection, then either a selection span or a
 * zero-width caret, then the text after it.
 */
module Projection {
  import opened TextBuffer

  /** What sits between the two text nodes. */
  datatype Marker = Caret | Selection(selected: string)

  datatype Segments = Segments(before: string, marker: Marker, after: string)

  /** The characters a marker shows: none for the caret. */
  function Shown(m: Marker): string {
    match m
    case Caret => []
    case Selection(s) => s
  }

  /** The text a reader sees, segment after segment. */
  function Flatten(s: Segments): string {
    s.before + Shown(s.marker) + s.after
  }

  /** Splits `text` around the normalised range `[start, end)`. */
  function Project(text: string, start: nat, end: nat): (s: Segments)
    requires start <= end <= |text|
    ensures s.marker == Caret <==> start == end
    ensures |s.before| == start && |Shown(s.marker)| == end - start
    ensures s.marker.Selection? ==> s.marker.selected != []
  {
    Segments(text[..start],
             if start != end then Selection(text[start..end]) else Caret,
             text[end..])
  }

  /** The segments concatenate back to the buffer. */
  lemma ProjectFlatten(text: string, start: nat, end: nat)
    requires start <= end <= |text|
    ensures Flatten(Project(text, start, end)) == text
  {
    assert text == text[..start] + text[start..end] + text[end..];
  }

  /**
   * Conversely, any well-formed segment triple is the projection of its own
   * concatenation at the offsets its lengths give.
   */
  lemma FlattenProject(s: Segments)
    requires s.marker.Selection? ==> s.marker.selected != []
    ensures var text := Flatten(s);
            var start := |s.before|;
            var end := start + |Shown(s.marker)|;
            end <= |text| && Project(text, start, end) == s
  {
    var text := Flatten(s);
    var start := |s.before|;
    var end := start + |Shown(s.marker)|;
    assert text[..start] == s.before;
    assert text[start..end] == Shown(s.marker);
    assert text[end..] == s.after;
  }

  /** With everything selected the selection span holds the whole buffer. */
  lemma ProjectAll(text: string)
    requires text != []
    ensures Project(text, 0, |text|) == Segments([], Selection(text), [])
  {
    assert text[..0] == [] && text[0..|text|] == text && text[|text|..] == [];
  }
}
