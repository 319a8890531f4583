/** What a reader sees of styled text: its inked graphemes, each with the style in force there. */
module Marks {
  import opened Text
  import opened Tracker

  predicate BlankText(text: string) {
    (|text| == 1 && IsSpace(text[0])) || text == "\r\n"
  }

  predicate IsBlank(item: Item) {
    item.Grapheme? && BlankText(item.text)
  }

  predicate IsInk(item: Item) {
    item.Grapheme? && !IsBlank(item)
  }

  predicate IsLineBreak(item: Item) {
    item.Grapheme? && (item.text == "\n" || item.text == "\r" || item.text == "\r\n")
  }

  datatype Mark = Mark(text: string, width: nat, style: Style)

  function After(s: Style, item: Item): Style {
    if item.Code? then Process(s, item.code) else s
  }

  /** The inked graphemes of a line read in style s. */
  function MarksOf(s: Style, line: Line): seq<Mark>
    decreases |line|
  {
    if line == [] then []
    else (if IsInk(line[0]) then [Mark(line[0].text, line[0].width, s)] else []) + MarksOf(After(s, line[0]), line[1..])
  }

  /** All graphemes of a line, blanks included. */
  function Shown(s: Style, line: Line): seq<Mark>
    decreases |line|
  {
    if line == [] then []
    else (if line[0].Grapheme? then [Mark(line[0].text, line[0].width, s)] else [])
         + Shown(After(s, line[0]), line[1..])
  }

  /** The first graphemes of a sequence, only blank ones missing. */
  predicate Trimmed(a: seq<Mark>, b: seq<Mark>) {
    a <= b && forall i :: |a| <= i < |b| ==> BlankText(b[i].text)
  }

  lemma {:induction false} ShownConcat(s: Style, a: Line, b: Line)
    ensures Shown(s, a + b) == Shown(s, a) + Shown(StyleAfter(s, a), b)
    decreases |a|
  {
    hide Process;
    if a == [] {
      assert a + b == b;
    } else {
      assert (a + b)[1..] == a[1..] + b;
      ShownConcat(After(s, a[0]), a[1..], b);
    }
  }

  lemma {:induction false} CodesShowNothing(s: Style, line: Line)
    requires forall i :: 0 <= i < |line| ==> line[i].Code?
    ensures Shown(s, line) == []
    decreases |line|
  {
    if line != [] {
      CodesShowNothing(After(s, line[0]), line[1..]);
    }
  }

  lemma {:induction false} TrimEndShows(s: Style, line: Line)
    ensures Trimmed(Shown(s, TrimEnd(line)), Shown(s, line))
    decreases |line|
  {
    if line != [] && IsBlank(line[|line| - 1]) {
      var init, last := line[..|line| - 1], line[|line| - 1];
      assert line == init + [last];
      ShownConcat(s, init, [last]);
      assert [last][1..] == [];
      TrimEndShows(s, init);
    }
  }

  /** The marks of several lines, each read from a cleared style. */
  function AllMarks(lines: seq<Line>): seq<Mark> {
    if lines == [] then [] else MarksOf(CLEAR, lines[0]) + AllMarks(lines[1..])
  }

  lemma {:induction false} MarksConcat(s: Style, a: Line, b: Line)
    ensures MarksOf(s, a + b) == MarksOf(s, a) + MarksOf(StyleAfter(s, a), b)
    decreases |a|
  {
    if a == [] {
      assert a + b == b;
    } else {
      assert (a + b)[1..] == a[1..] + b;
      MarksConcat(After(s, a[0]), a[1..], b);
    }
  }

  lemma {:induction false} AllMarksConcat(a: seq<Line>, b: seq<Line>)
    ensures AllMarks(a + b) == AllMarks(a) + AllMarks(b)
    decreases |a|
  {
    if a == [] {
      assert a + b == b;
    } else {
      assert (a + b)[1..] == a[1..] + b;
      AllMarksConcat(a[1..], b);
    }
  }

  lemma AllMarksOne(line: Line)
    ensures AllMarks([line]) == MarksOf(CLEAR, line)
  {
    assert [line][1..] == [];
  }

  /** A line without ink has no marks. */
  lemma {:induction false} NoInkNoMarks(s: Style, line: Line)
    requires forall i :: 0 <= i < |line| ==> !IsInk(line[i])
    ensures MarksOf(s, line) == []
    decreases |line|
  {
    if line != [] {
      NoInkNoMarks(After(s, line[0]), line[1..]);
    }
  }

  lemma {:induction false} NoCodesNoChange(s: Style, line: Line)
    requires forall i :: 0 <= i < |line| ==> line[i].Grapheme?
    ensures StyleAfter(s, line) == s
    decreases |line|
  {
    if line != [] {
      NoCodesNoChange(s, line[1..]);
    }
  }

  lemma {:induction false} WidthOfCodes(line: Line)
    requires forall i :: 0 <= i < |line| ==> line[i].Code?
    ensures VisibleWidth(line) == 0
    decreases |line|
  {
    if line != [] {
      WidthOfCodes(line[1..]);
    }
  }

  // ----- trimming -----

  /** The line without its trailing blanks; a trailing code stops the trimming. */
  function TrimEnd(line: Line): (r: Line)
    ensures r <= line
    decreases |line|
  {
    if line != [] && IsBlank(line[|line| - 1]) then TrimEnd(line[..|line| - 1]) else line
  }

  lemma {:induction false} TrimEndKeepsMarks(s: Style, line: Line)
    ensures MarksOf(s, TrimEnd(line)) == MarksOf(s, line)
    ensures VisibleWidth(TrimEnd(line)) <= VisibleWidth(line)
    decreases |line|
  {
    if line != [] && IsBlank(line[|line| - 1]) {
      var init, last := line[..|line| - 1], line[|line| - 1];
      assert line == init + [last];
      MarksConcat(s, init, [last]);
      NoInkNoMarks(StyleAfter(s, init), [last]);
      VisibleWidthConcat(init, [last]);
      TrimEndKeepsMarks(s, init);
    }
  }

  lemma {:induction false} TrimEndKeepsStyle(s: Style, line: Line)
    ensures StyleAfter(s, TrimEnd(line)) == StyleAfter(s, line)
    decreases |line|
  {
    if line != [] && IsBlank(line[|line| - 1]) {
      var init, last := line[..|line| - 1], line[|line| - 1];
      assert line == init + [last];
      StyleAfterConcat(s, init, [last]);
      assert [last][1..] == [];
      TrimEndKeepsStyle(s, init);
    }
  }

  predicate AllBlank(line: Line) {
    forall i :: 0 <= i < |line| ==> IsBlank(line[i])
  }

  lemma {:induction false} TrimEndOfBlanks(line: Line)
    requires AllBlank(line)
    ensures TrimEnd(line) == []
    decreases |line|
  {
    if line != [] {
      TrimEndOfBlanks(line[..|line| - 1]);
    }
  }
}
