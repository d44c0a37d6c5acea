/**
 * The line index (public/app.js, lines 223-251) and the arithmetic of
 * vertical caret movement built on it (lines 253-270).
 *
 * `text.split('\n')` is `Split`; a line's first offset is `LineStart` and the
 * offset just past its last character is `LineEnd`.
 */
module Lines {
  import opened Wrappers
  import opened TextBuffer

  function CountNewlines(s: string): nat {
    if s == [] then 0 else (if s[0] == '\n' then 1 else 0) + CountNewlines(s[1..])
  }

  /** `s.split('\n')`: one piece more than there are newlines, none containing one. */
  function Split(s: string): (lines: seq<string>)
    ensures |lines| == CountNewlines(s) + 1
    ensures forall i :: 0 <= i < |lines| ==> '\n' !in lines[i]
    decreases |s|
  {
    if s == [] then [[]]
    else
      var rest := Split(s[1..]);
      if s[0] == '\n' then [[]] + rest
      else [[s[0]] + rest[0]] + rest[1..]
  }

  /** `lines.join('\n')`. */
  function Join(lines: seq<string>): string
    requires |lines| >= 1
  {
    if |lines| == 1 then lines[0] else lines[0] + "\n" + Join(lines[1..])
  }

  /** Joining the pieces of a split gives back the text. */
  lemma {:induction false} JoinSplit(s: string)
    ensures Join(Split(s)) == s
    decreases |s|
  {
    if s != [] {
      var rest := Split(s[1..]);
      JoinSplit(s[1..]);
      if s[0] == '\n' {
        assert Split(s) == [[]] + rest;
        assert ([[]] + rest)[1..] == rest;
        assert Join(Split(s)) == [] + "\n" + s[1..];
      } else {
        var lines := [[s[0]] + rest[0]] + rest[1..];
        assert Split(s) == lines;
        if |rest| == 1 {
          assert Join(lines) == [s[0]] + rest[0];
        } else {
          assert lines[1..] == rest[1..];
          assert Join(rest) == rest[0] + "\n" + Join(rest[1..]);
          assert Join(lines) == [s[0]] + rest[0] + "\n" + Join(rest[1..]);
        }
      }
    }
  }

  lemma {:induction false} SplitSingleLine(a: string)
    requires '\n' !in a
    ensures Split(a) == [a]
    decreases |a|
  {
    if a != [] {
      SplitSingleLine(a[1..]);
      assert [a[0]] + a[1..] == a;
    }
  }

  lemma {:induction false} SplitAfterLine(a: string, b: string)
    requires '\n' !in a
    ensures Split(a + "\n" + b) == [a] + Split(b)
    decreases |a|
  {
    var s := a + "\n" + b;
    if a == [] {
      assert s[0] == '\n' && s[1..] == b;
    } else {
      assert s[0] == a[0] && s[1..] == a[1..] + "\n" + b;
      SplitAfterLine(a[1..], b);
      var rest := Split(s[1..]);
      assert rest == [a[1..]] + Split(b);
      assert [a[0]] + a[1..] == a;
      assert rest[1..] == Split(b);
    }
  }

  /** Splitting the join of newline-free lines gives back the lines. */
  lemma {:induction false} SplitJoin(lines: seq<string>)
    requires |lines| >= 1
    requires forall i :: 0 <= i < |lines| ==> '\n' !in lines[i]
    ensures Split(Join(lines)) == lines
    decreases |lines|
  {
    if |lines| == 1 {
      SplitSingleLine(lines[0]);
    } else {
      SplitJoin(lines[1..]);
      SplitAfterLine(lines[0], Join(lines[1..]));
      assert [lines[0]] + lines[1..] == lines;
    }
  }

  /** Appending a line to a join appends a newline and that line. */
  lemma {:induction false} JoinSnoc(lines: seq<string>, last: string)
    requires |lines| >= 1
    ensures Join(lines + [last]) == Join(lines) + "\n" + last
    decreases |lines|
  {
    if |lines| == 1 {
      assert (lines + [last])[1..] == [last];
    } else {
      assert (lines + [last])[1..] == lines[1..] + [last];
      JoinSnoc(lines[1..], last);
    }
  }

  /** The offset at which line `i` starts: the loop of `getLineData`, unrolled. */
  function LineStart(lines: seq<string>, i: nat): nat
    requires i <= |lines|
    decreases i
  {
    if i == 0 then 0 else LineStart(lines, i - 1) + |lines[i - 1]| + 1
  }

  /**
   * Line `i > 0` starts just past the first `i` lines joined and the newline
   * after them.
   */
  lemma {:induction false} LineStartJoin(lines: seq<string>, i: nat)
    requires 0 < i <= |lines|
    ensures LineStart(lines, i) == |Join(lines[..i])| + 1
    decreases i
  {
    if i > 1 {
      LineStartJoin(lines, i - 1);
      JoinSnoc(lines[..i - 1], lines[i - 1]);
      assert lines[..i] == lines[..i - 1] + [lines[i - 1]];
    } else {
      assert lines[..1] == [lines[0]];
    }
  }

  /** The offset just past the last character of line `i`. */
  function LineEnd(lines: seq<string>, i: nat): nat
    requires i < |lines|
  {
    LineStart(lines, i) + |lines[i]|
  }

  lemma {:induction false} LineStartShift(lines: seq<string>, i: nat)
    requires 1 <= i <= |lines|
    ensures LineStart(lines, i) == |lines[0]| + 1 + LineStart(lines[1..], i - 1)
    decreases i
  {
    if i > 1 {
      LineStartShift(lines, i - 1);
      assert lines[1..][i - 2] == lines[i - 1];
    }
  }

  /** Lines are laid out left to right: every line ends before any later one starts. */
  lemma {:induction false} LinesOrdered(lines: seq<string>, j: nat, i: nat)
    requires j < i < |lines|
    ensures LineEnd(lines, j) < LineStart(lines, i)
    decreases i
  {
    if j + 1 < i {
      LinesOrdered(lines, j, i - 1);
    }
  }

  /** A join of two or more lines is the first line, a newline, and the join of the rest. */
  lemma JoinFirst(lines: seq<string>)
    requires |lines| > 1
    ensures |Join(lines)| == |lines[0]| + 1 + |Join(lines[1..])|
    ensures Join(lines)[..|lines[0]|] == lines[0]
    ensures Join(lines)[|lines[0]|] == '\n'
    ensures Join(lines)[|lines[0]| + 1..] == Join(lines[1..])
  {
    var first, rest := lines[0], Join(lines[1..]);
    assert Join(lines) == first + "\n" + rest;
    assert (first + "\n" + rest)[..|first|] == first;
    assert (first + "\n" + rest)[|first| + 1..] == rest;
  }

  /** Slicing after dropping a prefix of length `o` is slicing the whole, shifted by `o`. */
  lemma SliceAfter(text: string, o: nat, s: nat, e: nat)
    requires s <= e && o + e <= |text|
    ensures text[o..][s..e] == text[o + s..o + e]
    ensures e < |text| - o ==> text[o..][e] == text[o + e]
  {
  }

  /**
   * Line `i` occupies `[LineStart, LineEnd)` of the joined text, is followed by
   * a newline unless it is the last line, and the last line ends the text.
   */
  lemma {:induction false} LineInJoin(lines: seq<string>, i: nat)
    requires i < |lines|
    ensures LineEnd(lines, i) <= |Join(lines)|
    ensures Join(lines)[LineStart(lines, i)..LineEnd(lines, i)] == lines[i]
    ensures i + 1 < |lines| ==> LineEnd(lines, i) < |Join(lines)| && Join(lines)[LineEnd(lines, i)] == '\n'
    ensures i + 1 == |lines| ==> LineEnd(lines, i) == |Join(lines)|
    decreases |lines|, 1
  {
    if |lines| == 1 {
      assert Join(lines) == lines[0];
    } else if i == 0 {
      JoinFirst(lines);
    } else {
      LaterLineInJoin(lines, i);
    }
  }

  /** `LineInJoin` for a line after the first: line `i - 1` of the remaining lines, shifted. */
  lemma {:induction false} LaterLineInJoin(lines: seq<string>, i: nat)
    requires 0 < i < |lines|
    ensures LineEnd(lines, i) <= |Join(lines)|
    ensures Join(lines)[LineStart(lines, i)..LineEnd(lines, i)] == lines[i]
    ensures i + 1 < |lines| ==> LineEnd(lines, i) < |Join(lines)| && Join(lines)[LineEnd(lines, i)] == '\n'
    ensures i + 1 == |lines| ==> LineEnd(lines, i) == |Join(lines)|
    decreases |lines|, 0
  {
    var rest := lines[1..];
    var o := |lines[0]| + 1;
    JoinFirst(lines);
    LineStartShift(lines, i);
    assert rest[i - 1] == lines[i];
    LineInJoin(rest, i - 1);
    SliceAfter(Join(lines), o, LineStart(rest, i - 1), LineEnd(rest, i - 1));
  }

  /** The first line whose end is at or after `caret`, searching from `from`; else the last line. */
  function LineIndexFrom(lines: seq<string>, caret: int, from: nat): (k: nat)
    requires from < |lines|
    ensures from <= k < |lines|
    ensures forall j :: from <= j < k ==> LineEnd(lines, j) < caret
    ensures caret <= LineEnd(lines, k) || k == |lines| - 1
    decreases |lines| - from
  {
    if caret <= LineEnd(lines, from) || from == |lines| - 1 then from
    else LineIndexFrom(lines, caret, from + 1)
  }

  /**
   * The line `getLineInfo` assigns to `caret`: the first line whose end is at
   * or after it (so a caret at a line's end belongs to that line), or the last
   * line when there is none.
   */
  function LineIndexOf(lines: seq<string>, caret: int): (k: nat)
    requires |lines| >= 1
    ensures k < |lines|
    ensures forall j :: 0 <= j < k ==> LineEnd(lines, j) < caret
    ensures caret <= LineEnd(lines, k) || k == |lines| - 1
  {
    LineIndexFrom(lines, caret, 0)
  }

  /** The two conditions above pick out exactly one line. */
  lemma FirstLineUnique(lines: seq<string>, caret: int, k: nat)
    requires k < |lines|
    requires forall j :: 0 <= j < k ==> LineEnd(lines, j) < caret
    requires caret <= LineEnd(lines, k) || k == |lines| - 1
    ensures LineIndexOf(lines, caret) == k
  {
  }

  /** A caret anywhere on line `i`, its end included, is placed on line `i`. */
  lemma LineIndexOfWithin(lines: seq<string>, i: nat, caret: int)
    requires i < |lines|
    requires LineStart(lines, i) <= caret <= LineEnd(lines, i)
    ensures LineIndexOf(lines, caret) == i
  {
    forall j | 0 <= j < i
      ensures LineEnd(lines, j) < caret
    {
      LinesOrdered(lines, j, i);
    }
    FirstLineUnique(lines, caret, i);
  }

  /** A caret inside the text lies on the line it is assigned to. */
  lemma CaretInItsLine(text: string, caret: int)
    requires 0 <= caret <= |text|
    ensures var lines := Split(text);
            var k := LineIndexOf(lines, caret);
            LineStart(lines, k) <= caret <= LineEnd(lines, k) <= |text|
  {
    var lines := Split(text);
    var k := LineIndexOf(lines, caret);
    JoinSplit(text);
    LineInJoin(lines, |lines| - 1);
    LineInJoin(lines, k);
    if k > 0 {
      assert LineEnd(lines, k - 1) < caret;
    }
  }

  /** Line `k` of the joined text is a newline-free stretch between newlines or the text's ends. */
  lemma LineBetweenNewlines(lines: seq<string>, k: nat)
    requires k < |lines|
    requires '\n' !in lines[k]
    ensures var s, e := LineStart(lines, k), LineEnd(lines, k);
            && e <= |Join(lines)|
            && (s == 0 || Join(lines)[s - 1] == '\n')
            && (e == |Join(lines)| || Join(lines)[e] == '\n')
            && forall p :: s <= p < e ==> Join(lines)[p] != '\n'
  {
    var text := Join(lines);
    var s, e := LineStart(lines, k), LineEnd(lines, k);
    LineInJoin(lines, k);
    if k > 0 {
      LineInJoin(lines, k - 1);
    }
    forall p | s <= p < e
      ensures text[p] != '\n'
    {
      assert text[p] == text[s..e][p - s];
    }
  }

  /**
   * The line the caret is assigned to, stated without `split`: the maximal
   * newline-free stretch of the text around the caret.
   */
  lemma LineBoundsAroundCaret(text: string, caret: int)
    requires 0 <= caret <= |text|
    ensures var lines := Split(text);
            var k := LineIndexOf(lines, caret);
            var s, e := LineStart(lines, k), LineEnd(lines, k);
            && s <= caret <= e <= |text|
            && (s == 0 || text[s - 1] == '\n')
            && (e == |text| || text[e] == '\n')
            && forall p :: s <= p < e ==> text[p] != '\n'
  {
    var lines := Split(text);
    var k := LineIndexOf(lines, caret);
    CaretInItsLine(text, caret);
    JoinSplit(text);
    LineBetweenNewlines(lines, k);
  }

  /**
   * `getLineData`: the lines of `text` and the offset each starts at,
   * accumulated as `starts[i + 1] == starts[i] + |lines[i]| + 1`.
   */
  method GetLineData(text: string) returns (lines: seq<string>, starts: seq<nat>)
    ensures lines == Split(text)
    ensures |starts| == |lines| == CountNewlines(text) + 1
    ensures starts[0] == 0
    ensures forall i :: 0 <= i < |starts| - 1 ==> starts[i + 1] == starts[i] + |lines[i]| + 1
    ensures forall i {:trigger starts[i]} :: 0 <= i < |starts| ==> starts[i] == LineStart(lines, i)
  {
    lines := Split(text);
    starts := [];
    var index: nat := 0;
    for i := 0 to |lines|
      invariant |starts| == i
      invariant forall k {:trigger starts[k]} :: 0 <= k < i ==> starts[k] == LineStart(lines, k)
      invariant index == LineStart(lines, i)
    {
      starts := starts + [index];
      index := index + |lines[i]| + 1;
    }
    forall i | 0 <= i < |starts| - 1
      ensures starts[i + 1] == starts[i] + |lines[i]| + 1
    {
      assert starts[i + 1] == LineStart(lines, i + 1) == LineStart(lines, i) + |lines[i]| + 1;
    }
  }

  /**
   * `getLineInfo`: scans the lines for the first one whose end is at or after
   * `caret` (the last line when none is) and gives the caret's column on it.
   */
  method GetLineInfo(text: string, caret: int)
    returns (lines: seq<string>, starts: seq<nat>, lineIndex: nat, column: int)
    ensures lines == Split(text) && |starts| == |lines|
    ensures forall i {:trigger starts[i]} :: 0 <= i < |starts| ==> starts[i] == LineStart(lines, i)
    ensures lineIndex == LineIndexOf(lines, caret)
    ensures column == caret - LineStart(lines, lineIndex)
  {
    lines, starts := GetLineData(text);
    lineIndex := |lines| - 1;
    var i := 0;
    while i < |lines|
      invariant 0 <= i <= |lines|
      invariant forall j :: 0 <= j < i ==> LineEnd(lines, j) < caret
      invariant lineIndex == |lines| - 1
    {
      var lineStart := starts[i];
      var lineEnd := lineStart + |lines[i]|;
      if caret <= lineEnd {
        lineIndex := i;
        FirstLineUnique(lines, caret, i);
        break;
      }
      i := i + 1;
    }
    FirstLineUnique(lines, caret, lineIndex);
    column := caret - starts[lineIndex];
  }

  /** Where a vertical move lands, and the column it remembers as preferred. */
  datatype Landing = Landing(caret: nat, column: nat)

  /**
   * The arithmetic of `moveVertical`: the target line is the current one
   * moved by `direction` and clamped to the text; the desired column is the
   * preferred column if there is one, else the caret's column; the caret
   * lands at that column or at the end of a shorter target line.
   */
  function VerticalTarget(text: string, caret: nat, direction: int, preferred: Option<nat>): (t: Landing)
    requires caret <= |text|
    ensures t.caret <= |text|
    ensures preferred.Some? ==> t.column == preferred.value
    ensures preferred.None? ==> LineStart(Split(text), LineIndexOf(Split(text), caret)) + t.column == caret
  {
    var lines := Split(text);
    var k := LineIndexOf(lines, caret);
    CaretInItsLine(text, caret);
    var column: nat := caret - LineStart(lines, k);
    var target := Clamp(k + direction, |lines| - 1);
    var desired := preferred.GetOr(column);
    var targetColumn := Clamp(desired, |lines[target]|);
    JoinSplit(text);
    LineInJoin(lines, target);
    Landing(LineStart(lines, target) + targetColumn, desired)
  }

  /** The landing `VerticalTarget` computes, spelled out on the lines of `text`. */
  lemma VerticalTargetIs(text: string, caret: nat, direction: int, preferred: Option<nat>)
    requires caret <= |text|
    ensures LineStart(Split(text), LineIndexOf(Split(text), caret)) <= caret
    ensures var lines := Split(text);
            var k := LineIndexOf(lines, caret);
            var target := Clamp(k + direction, |lines| - 1);
            var desired := preferred.GetOr(caret - LineStart(lines, k));
            VerticalTarget(text, caret, direction, preferred)
               == Landing(LineStart(lines, target) + Clamp(desired, |lines[target]|), desired)
  {
    CaretInItsLine(text, caret);
  }

  /**
   * Caret `t.caret` sits on line `target`, at column `t.column` or at the
   * end of that line if it is shorter, and `LineIndexOf` finds that line.
   */
  predicate LandsOn(lines: seq<string>, target: nat, t: Landing)
    requires |lines| >= 1 && target < |lines|
  {
    && LineStart(lines, target) <= t.caret <= LineEnd(lines, target)
    && t.caret - LineStart(lines, target) == Clamp(t.column, |lines[target]|)
    && LineIndexOf(lines, t.caret) == target
  }

  /**
   * A vertical move lands on the clamped target line, at the desired column
   * or at that line's end if it is shorter, and the line index agrees.
   */
  lemma VerticalTargetOnLine(text: string, caret: nat, direction: int, preferred: Option<nat>)
    requires caret <= |text|
    ensures LandsOn(Split(text), Clamp(LineIndexOf(Split(text), caret) + direction, |Split(text)| - 1),
                    VerticalTarget(text, caret, direction, preferred))
  {
    var lines := Split(text);
    var target := Clamp(LineIndexOf(lines, caret) + direction, |lines| - 1);
    var t := VerticalTarget(text, caret, direction, preferred);
    VerticalTargetIs(text, caret, direction, preferred);
    LineIndexOfWithin(lines, target, t.caret);
  }

  /** With no preferred column, a move that cannot change line leaves the caret where it is. */
  lemma VerticalAtEdgeStays(text: string, caret: nat, direction: int)
    requires caret <= |text|
    requires Clamp(LineIndexOf(Split(text), caret) + direction, |Split(text)| - 1) == LineIndexOf(Split(text), caret)
    ensures VerticalTarget(text, caret, direction, None).caret == caret
  {
    CaretInItsLine(text, caret);
    VerticalTargetIs(text, caret, direction, None);
  }

  /**
   * Moving down and then back up, keeping the column the first move
   * remembered, returns the caret to where it started.
   */
  lemma VerticalDownUp(text: string, caret: nat)
    requires caret <= |text|
    requires LineIndexOf(Split(text), caret) + 1 < |Split(text)|
    ensures var down := VerticalTarget(text, caret, 1, None);
            VerticalTarget(text, down.caret, -1, Some(down.column)).caret == caret
  {
    var lines := Split(text);
    var k := LineIndexOf(lines, caret);
    CaretInItsLine(text, caret);
    var down := VerticalTarget(text, caret, 1, None);
    VerticalTargetOnLine(text, caret, 1, None);
    assert LineIndexOf(lines, down.caret) == k + 1;
    VerticalTargetIs(text, down.caret, -1, Some(down.column));
  }
}
