/** Compositing an overlay into a line, column by column. */
module Compose {
  import opened Text
  import opened Ansi
  import opened Tracker
  import opened TrackerRoundTrip

  /** A grapheme where a reader finds it: its column and the style in force. */
  datatype Glyph = Glyph(text: string, width: nat, col: int, style: Style)

  function Glyphs(s: Style, col: int, line: Line): seq<Glyph>
    decreases |line|
  {
    if line == [] then []
    else if line[0].Code? then Glyphs(Process(s, line[0].code), col, line[1..])
    else [Glyph(line[0].text, line[0].width, col, s)] + Glyphs(s, col + line[0].width, line[1..])
  }

  /** The glyphs that start at or after column lo and lie wholly before column hi. */
  function Within(glyphs: seq<Glyph>, lo: int, hi: int): seq<Glyph> {
    if glyphs == [] then []
    else (if lo <= glyphs[0].col < hi && glyphs[0].col + glyphs[0].width <= hi then [glyphs[0]] else [])
         + Within(glyphs[1..], lo, hi)
  }

  /** The style of the last of some glyphs. */
  function LastStyle(glyphs: seq<Glyph>): Style {
    if glyphs == [] then CLEAR else glyphs[|glyphs| - 1].style
  }

  function Shift(glyphs: seq<Glyph>, delta: int): (r: seq<Glyph>)
    ensures |r| == |glyphs|
  {
    seq(|glyphs|, i requires 0 <= i < |glyphs| => glyphs[i].(col := glyphs[i].col + delta))
  }

  lemma {:induction false} GlyphsConcat(s: Style, col: int, a: Line, b: Line)
    ensures Glyphs(s, col, a + b) == Glyphs(s, col, a) + Glyphs(StyleAfter(s, a), col + VisibleWidth(a), b)
    decreases |a|
  {
    hide Process;
    if a == [] {
      assert a + b == b;
    } else {
      assert (a + b)[1..] == a[1..] + b;
      if a[0].Code? {
        GlyphsConcat(Process(s, a[0].code), col, a[1..], b);
      } else {
        GlyphsConcat(s, col + a[0].width, a[1..], b);
      }
    }
  }

  lemma {:induction false} WithinConcat(a: seq<Glyph>, b: seq<Glyph>, lo: int, hi: int)
    ensures Within(a + b, lo, hi) == Within(a, lo, hi) + Within(b, lo, hi)
    decreases |a|
  {
    if a == [] {
      assert a + b == b;
    } else {
      assert (a + b)[1..] == a[1..] + b;
      WithinConcat(a[1..], b, lo, hi);
    }
  }

  /** Nothing that starts at or past hi lies within. */
  lemma {:induction false} NothingPast(s: Style, col: int, line: Line, lo: int, hi: int)
    requires hi <= col
    ensures Within(Glyphs(s, col, line), lo, hi) == []
    decreases |line|
  {
    hide Process;
    if line != [] {
      if line[0].Code? {
        NothingPast(Process(s, line[0].code), col, line[1..], lo, hi);
      } else {
        NothingPast(s, col + line[0].width, line[1..], lo, hi);
      }
    }
  }

  lemma {:induction false} ShiftedGlyphs(s: Style, col: int, line: Line, delta: int)
    ensures Glyphs(s, col + delta, line) == Shift(Glyphs(s, col, line), delta)
    decreases |line|
  {
    if line != [] {
      if line[0].Code? {
        ShiftedGlyphs(Process(s, line[0].code), col, line[1..], delta);
      } else {
        ShiftedGlyphs(s, col + line[0].width, line[1..], delta);
      }
    }
  }

  /** What one more item adds. */
  lemma OneItem(s: Style, col: int, item: Item, lo: int, hi: int)
    ensures Glyphs(s, col, [item]) == (if item.Code? then [] else [Glyph(item.text, item.width, col, s)])
    ensures Within(Glyphs(s, col, [item]), lo, hi) ==
      (if item.Grapheme? && lo <= col < hi && col + item.width <= hi
       then [Glyph(item.text, item.width, col, s)] else [])
    ensures StyleAfter(s, [item]) == (if item.Code? then Process(s, item.code) else s)
    ensures VisibleWidth([item]) == ItemWidth(item)
  {
    assert [item][1..] == [];
  }

  lemma GlyphsPush(s: Style, col: int, line: Line, item: Item)
    ensures Glyphs(s, col, line + [item]) == Glyphs(s, col, line)
      + (if item.Code? then [] else [Glyph(item.text, item.width, col + VisibleWidth(line), StyleAfter(s, line))])
    ensures StyleAfter(s, line + [item])
              == (if item.Code? then Process(StyleAfter(s, line), item.code) else StyleAfter(s, line))
    ensures VisibleWidth(line + [item]) == VisibleWidth(line) + ItemWidth(item)
  {
    hide Glyphs, Within, StyleAfter, VisibleWidth, Process;
    GlyphsConcat(s, col, line, [item]);
    OneItem(StyleAfter(s, line), col + VisibleWidth(line), item, 0, 0);
    StyleAfterConcat(s, line, [item]);
    VisibleWidthConcat(line, [item]);
  }

  lemma WithinPush(s: Style, col: int, line: Line, item: Item, lo: int, hi: int)
    ensures var at, c := StyleAfter(s, line), col + VisibleWidth(line);
      Within(Glyphs(s, col, line + [item]), lo, hi) == Within(Glyphs(s, col, line), lo, hi)
        + (if item.Grapheme? && lo <= c < hi && c + item.width <= hi then [Glyph(item.text, item.width, c, at)] else [])
  {
    hide Glyphs, Within, StyleAfter, VisibleWidth, Process;
    GlyphsConcat(s, col, line, [item]);
    WithinConcat(Glyphs(s, col, line), Glyphs(StyleAfter(s, line), col + VisibleWidth(line), [item]), lo, hi);
    OneItem(StyleAfter(s, line), col + VisibleWidth(line), item, lo, hi);
  }

  lemma CutOff(s: Style, line: Line, i: int, lo: int, hi: int)
    requires 0 <= i <= |line| && hi <= VisibleWidth(line[..i])
    ensures Within(Glyphs(s, 0, line), lo, hi) == Within(Glyphs(s, 0, line[..i]), lo, hi)
  {
    hide Glyphs, Within, StyleAfter, VisibleWidth;
    assert line == line[..i] + line[i..];
    GlyphsConcat(s, 0, line[..i], line[i..]);
    WithinConcat(Glyphs(s, 0, line[..i]), Glyphs(StyleAfter(s, line[..i]), VisibleWidth(line[..i]), line[i..]), lo, hi);
    NothingPast(StyleAfter(s, line[..i]), VisibleWidth(line[..i]), line[i..], lo, hi);
  }

  // ----- slicing -----

  datatype Plain = Plain(text: string, width: nat)

  /** Glyphs without column and style. */
  function PlainOf(glyphs: seq<Glyph>): seq<Plain> {
    seq(|glyphs|, i requires 0 <= i < |glyphs| => Plain(glyphs[i].text, glyphs[i].width))
  }

  /** The glyphs that start in lo..hi and, when strict, do not reach past hi. */
  function Selected(glyphs: seq<Glyph>, lo: int, hi: int, strict: bool): seq<Glyph> {
    if glyphs == [] then []
    else (if lo <= glyphs[0].col < hi && (!strict || glyphs[0].col + glyphs[0].width <= hi) then [glyphs[0]] else [])
         + Selected(glyphs[1..], lo, hi, strict)
  }

  lemma {:induction false} StrictSelection(glyphs: seq<Glyph>, lo: int, hi: int)
    ensures Selected(glyphs, lo, hi, true) == Within(glyphs, lo, hi)
  {
    if glyphs != [] {
      StrictSelection(glyphs[1..], lo, hi);
    }
  }

  /** On a line's glyphs a selection is one run: all that start in lo..hi and, when strict, end by hi. */
  ghost predicate Run(glyphs: seq<Glyph>, i: int, j: int, lo: int, hi: int, strict: bool) {
    && 0 <= i <= j <= |glyphs|
    && forall k :: 0 <= k < |glyphs| ==>
         (i <= k < j <==> lo <= glyphs[k].col < hi && (strict ==> glyphs[k].col + glyphs[k].width <= hi))
  }

  lemma {:induction false} ColumnsGrow(s: Style, col: int, line: Line)
    ensures forall g <- Glyphs(s, col, line) :: col <= g.col
    ensures forall k, m {:trigger Glyphs(s, col, line)[k], Glyphs(s, col, line)[m]} ::
      0 <= k < m < |Glyphs(s, col, line)| ==>
        Glyphs(s, col, line)[k].col + Glyphs(s, col, line)[k].width <= Glyphs(s, col, line)[m].col
    decreases |line|
  {
    hide Process;
    if line != [] {
      var rest := if line[0].Code? then Glyphs(Process(s, line[0].code), col, line[1..])
                  else Glyphs(s, col + line[0].width, line[1..]);
      if line[0].Code? {
        ColumnsGrow(Process(s, line[0].code), col, line[1..]);
      } else {
        ColumnsGrow(s, col + line[0].width, line[1..]);
        var first := Glyph(line[0].text, line[0].width, col, s);
        assert Glyphs(s, col, line) == [first] + rest;
      }
    }
  }

  lemma {:induction false} SelectionIsARun(s: Style, col: int, line: Line, lo: int, hi: int, strict: bool)
    returns (i: nat, j: nat)
    ensures Run(Glyphs(s, col, line), i, j, lo, hi, strict)
    ensures Selected(Glyphs(s, col, line), lo, hi, strict) == Glyphs(s, col, line)[i..j]
    decreases |line|
  {
    hide Process, Run, Selected;
    if line == [] {
      i, j := 0, 0;
      NoRun(lo, hi, strict);
    } else if line[0].Code? {
      i, j := SelectionIsARun(Process(s, line[0].code), col, line[1..], lo, hi, strict);
    } else {
      var rest := Glyphs(s, col + line[0].width, line[1..]);
      var first := Glyph(line[0].text, line[0].width, col, s);
      i, j := SelectionIsARun(s, col + line[0].width, line[1..], lo, hi, strict);
      ColumnsGrow(s, col + line[0].width, line[1..]);
      i, j := RunGrows(first, rest, i, j, lo, hi, strict);
    }
  }

  lemma NoRun(lo: int, hi: int, strict: bool)
    ensures Run([], 0, 0, lo, hi, strict) && Selected([], lo, hi, strict) == []
  {
  }

  lemma FirstIsLeftmost(glyphs: seq<Glyph>, i: nat)
    requires i < |glyphs|
    requires forall k, m :: 0 <= k < m < |glyphs| ==> glyphs[k].col + glyphs[k].width <= glyphs[m].col
    ensures glyphs[0].col <= glyphs[i].col
    ensures glyphs[0].col + glyphs[0].width <= glyphs[i].col + glyphs[i].width
  {
  }

  lemma RunGrows(first: Glyph, rest: seq<Glyph>, i: nat, j: nat, lo: int, hi: int, strict: bool)
    returns (i': nat, j': nat)
    requires Run(rest, i, j, lo, hi, strict) && Selected(rest, lo, hi, strict) == rest[i..j]
    requires rest != [] ==> first.col <= rest[0].col
    requires forall k, m :: 0 <= k < m < |rest| ==> rest[k].col + rest[k].width <= rest[m].col
    ensures Run([first] + rest, i', j', lo, hi, strict)
    ensures Selected([first] + rest, lo, hi, strict) == ([first] + rest)[i'..j']
  {
    var glyphs := [first] + rest;
    assert glyphs[1..] == rest;
    if lo <= first.col < hi && (!strict || first.col + first.width <= hi) {
      if i < j {
        FirstIsLeftmost(rest, i);
      }
      i', j' := 0, if i == j then 1 else j + 1;
      assert glyphs[0..j'] == [first] + rest[i..j];
    } else {
      i', j' := i + 1, j + 1;
      assert glyphs[i'..j'] == rest[i..j];
    }
  }

  lemma {:induction false} SelectedConcat(a: seq<Glyph>, b: seq<Glyph>, lo: int, hi: int, strict: bool)
    ensures Selected(a + b, lo, hi, strict) == Selected(a, lo, hi, strict) + Selected(b, lo, hi, strict)
    decreases |a|
  {
    if a == [] {
      assert a + b == b;
    } else {
      assert (a + b)[1..] == a[1..] + b;
      SelectedConcat(a[1..], b, lo, hi, strict);
    }
  }

  lemma {:induction false} NothingSelectedPast(s: Style, col: int, line: Line, lo: int, hi: int, strict: bool)
    requires hi <= col
    ensures Selected(Glyphs(s, col, line), lo, hi, strict) == []
    decreases |line|
  {
    hide Process;
    if line != [] {
      if line[0].Code? {
        NothingSelectedPast(Process(s, line[0].code), col, line[1..], lo, hi, strict);
      } else {
        NothingSelectedPast(s, col + line[0].width, line[1..], lo, hi, strict);
      }
    }
  }

  lemma SelectedSnoc(s: Style, line: Line, item: Item, lo: int, hi: int, strict: bool)
    ensures var at, c := StyleAfter(s, line), VisibleWidth(line);
      Selected(Glyphs(s, 0, line + [item]), lo, hi, strict) == Selected(Glyphs(s, 0, line), lo, hi, strict)
        + (if item.Grapheme? && lo <= c < hi && (!strict || c + item.width <= hi)
           then [Glyph(item.text, item.width, c, at)] else [])
  {
    hide Glyphs, StyleAfter, VisibleWidth;
    var more := Glyphs(StyleAfter(s, line), VisibleWidth(line), [item]);
    GlyphsConcat(s, 0, line, [item]);
    SelectedConcat(Glyphs(s, 0, line), more, lo, hi, strict);
    OneItem(StyleAfter(s, line), VisibleWidth(line), item, lo, hi);
    if item.Grapheme? {
      assert more[1..] == [];
    }
  }

  lemma SelectionEnds(s: Style, line: Line, i: int, lo: int, hi: int, strict: bool)
    requires 0 <= i <= |line| && hi <= VisibleWidth(line[..i])
    ensures Selected(Glyphs(s, 0, line), lo, hi, strict) == Selected(Glyphs(s, 0, line[..i]), lo, hi, strict)
  {
    hide Glyphs, Selected, StyleAfter, VisibleWidth;
    var rest := Glyphs(StyleAfter(s, line[..i]), VisibleWidth(line[..i]), line[i..]);
    assert line == line[..i] + line[i..];
    GlyphsConcat(s, 0, line[..i], line[i..]);
    SelectedConcat(Glyphs(s, 0, line[..i]), rest, lo, hi, strict);
    NothingSelectedPast(StyleAfter(s, line[..i]), VisibleWidth(line[..i]), line[i..], lo, hi, strict);
  }

  ghost predicate NoGraphemes(line: Line) {
    forall k :: 0 <= k < |line| ==> line[k].Code?
  }

  lemma {:induction false} CodesHaveNoGlyphs(s: Style, col: int, line: Line)
    requires NoGraphemes(line)
    ensures Glyphs(s, col, line) == [] && VisibleWidth(line) == 0
    decreases |line|
  {
    if line != [] {
      CodesHaveNoGlyphs(Process(s, line[0].code), col, line[1..]);
    }
  }

  /** A slice under way: items 0..i of the line have been read. */
  ghost predicate Slicing(line: Line, i: int, lo: int, hi: int, strict: bool, text: Line, width: int, pending: Line)
    requires 0 <= i <= |line|
  {
    && PlainOf(Glyphs(CLEAR, 0, text)) == PlainOf(Selected(Glyphs(CLEAR, 0, line[..i]), lo, hi, strict))
    && width == VisibleWidth(text)
    && NoGraphemes(pending)
    && (lo == 0 ==>
          && pending == [] && StyleAfter(CLEAR, text) == StyleAfter(CLEAR, line[..i])
          && width == VisibleWidth(line[..i])
          && Glyphs(CLEAR, 0, text) == Selected(Glyphs(CLEAR, 0, line[..i]), lo, hi, strict))
  }

  lemma SlicingStarts(line: Line, lo: int, hi: int, strict: bool)
    ensures Slicing(line, 0, lo, hi, strict, [], 0, [])
    ensures Glyphs(CLEAR, 0, []) == [] && PlainOf([]) == []
  {}

  lemma SliceCode(line: Line, i: int, lo: int, hi: int, strict: bool, text: Line, width: int, pending: Line)
    requires 0 <= i < |line| && line[i].Code? && lo < hi && VisibleWidth(line[..i]) < hi
    requires Slicing(line, i, lo, hi, strict, text, width, pending)
    ensures VisibleWidth(line[..i + 1]) == VisibleWidth(line[..i])
    ensures if VisibleWidth(line[..i]) >= lo then Slicing(line, i + 1, lo, hi, strict, text + [line[i]], width, pending)
            else Slicing(line, i + 1, lo, hi, strict, text, width, pending + [line[i]])
  {
    hide Glyphs, Selected, StyleAfter, VisibleWidth;
    assert line[..i + 1] == line[..i] + [line[i]];
    SelectedSnoc(CLEAR, line[..i], line[i], lo, hi, strict);
    GlyphsPush(CLEAR, 0, line[..i], line[i]);
    GlyphsPush(CLEAR, 0, text, line[i]);
    assert Glyphs(CLEAR, 0, text + [line[i]]) == Glyphs(CLEAR, 0, text);
    assert Selected(Glyphs(CLEAR, 0, line[..i + 1]), lo, hi, strict)
             == Selected(Glyphs(CLEAR, 0, line[..i]), lo, hi, strict);
  }

  lemma PlainSnoc(a: seq<Glyph>, b: seq<Glyph>, g: Glyph, h: Glyph)
    requires PlainOf(a) == PlainOf(b) && g.text == h.text && g.width == h.width
    ensures PlainOf(a + [g]) == PlainOf(b + [h])
  {
    assert |a| == |b| by { assert |PlainOf(a)| == |PlainOf(b)|; }
    forall k | 0 <= k < |a| ensures PlainOf(a + [g])[k] == PlainOf(b + [h])[k] {
      assert PlainOf(a)[k] == PlainOf(b)[k];
    }
  }

  lemma SliceTakes(line: Line, i: int, lo: int, hi: int, strict: bool, text: Line, width: int, pending: Line)
    requires 0 <= i < |line| && line[i].Grapheme? && Slicing(line, i, lo, hi, strict, text, width, pending)
    requires lo <= VisibleWidth(line[..i]) < hi && (!strict || VisibleWidth(line[..i]) + line[i].width <= hi)
    ensures VisibleWidth(line[..i + 1]) == VisibleWidth(line[..i]) + line[i].width
    ensures Slicing(line, i + 1, lo, hi, strict, text + pending + [line[i]], width + line[i].width, [])
  {
    hide Glyphs, Selected, StyleAfter, VisibleWidth, PlainOf;
    assert line[..i + 1] == line[..i] + [line[i]];
    SelectedSnoc(CLEAR, line[..i], line[i], lo, hi, strict);
    GlyphsPush(CLEAR, 0, line[..i], line[i]);
    GlyphsConcat(CLEAR, 0, text, pending);
    CodesHaveNoGlyphs(StyleAfter(CLEAR, text), VisibleWidth(text), pending);
    VisibleWidthConcat(text, pending);
    GlyphsPush(CLEAR, 0, text + pending, line[i]);
    assert lo == 0 ==> text + pending == text;
    var g := Glyph(line[i].text, line[i].width, VisibleWidth(text), StyleAfter(CLEAR, text + pending));
    var h := Glyph(line[i].text, line[i].width, VisibleWidth(line[..i]), StyleAfter(CLEAR, line[..i]));
    assert Glyphs(CLEAR, 0, text + pending) == Glyphs(CLEAR, 0, text);
    PlainSnoc(Glyphs(CLEAR, 0, text), Selected(Glyphs(CLEAR, 0, line[..i]), lo, hi, strict), g, h);
  }

  lemma SliceSkips(line: Line, i: int, lo: int, hi: int, strict: bool)
    requires 0 <= i < |line| && line[i].Grapheme?
    requires !(lo <= VisibleWidth(line[..i]) < hi && (!strict || VisibleWidth(line[..i]) + line[i].width <= hi))
    ensures VisibleWidth(line[..i + 1]) == VisibleWidth(line[..i]) + line[i].width
    ensures Selected(Glyphs(CLEAR, 0, line[..i + 1]), lo, hi, strict)
              == Selected(Glyphs(CLEAR, 0, line[..i]), lo, hi, strict)
  {
    assert line[..i + 1] == line[..i] + [line[i]];
    SelectedSnoc(CLEAR, line[..i], line[i], lo, hi, strict);
    GlyphsPush(CLEAR, 0, line[..i], line[i]);
  }

  // ----- the styles of a slice -----

  /** Some grapheme of the line starts at or past column lo. */
  predicate Reached(line: Line, lo: int) {
    line != [] &&
    var init, last := line[..|line| - 1], line[|line| - 1];
    Reached(init, lo) || (last.Grapheme? && VisibleWidth(init) >= lo)
  }

  /** The codes to the left of column lo. */
  function CodesBefore(line: Line, lo: int): Line {
    if line == [] then []
    else
      var init, last := line[..|line| - 1], line[|line| - 1];
      CodesBefore(init, lo) + (if last.Code? && VisibleWidth(init) < lo then [last] else [])
  }

  /** The codes at column lo, up to the first grapheme there. */
  function CodesAtEdge(line: Line, lo: int): Line {
    if line == [] then []
    else
      var init, last := line[..|line| - 1], line[|line| - 1];
      CodesAtEdge(init, lo) + (if last.Code? && VisibleWidth(init) >= lo && !Reached(init, lo) then [last] else [])
  }

  /** What a slice shows when it keeps every style: the selected glyphs, moved to the left edge. */
  function Moved(sel: seq<Glyph>): seq<Glyph> {
    if sel == [] then [] else Shift(sel, -sel[0].col)
  }

  /** A slice that starts after some codes writes the codes at its edge first. It does no harm to put them in
      front of the earlier ones. */
  predicate EdgeCommutes(line: Line, lo: int) {
    var before, edge := CodesBefore(line, lo), CodesAtEdge(line, lo);
    StyleAfter(CLEAR, edge + before) == StyleAfter(CLEAR, before + edge)
  }

  lemma EdgeSnoc(line: Line, item: Item, lo: int)
    ensures var c := VisibleWidth(line);
      && CodesBefore(line + [item], lo) ==
         (if item.Code? && c < lo then CodesBefore(line, lo) + [item] else CodesBefore(line, lo))
      && CodesAtEdge(line + [item], lo) ==
         (if item.Code? && c >= lo && !Reached(line, lo) then CodesAtEdge(line, lo) + [item] else CodesAtEdge(line, lo))
      && (Reached(line + [item], lo) <==> Reached(line, lo) || (item.Grapheme? && c >= lo))
  {
    assert (line + [item])[..|line|] == line;
  }

  /** The codes before a column make the style of a line that ends left of it. */
  lemma {:induction false} StyleIsOfCodes(line: Line, hi: int)
    ensures VisibleWidth(line) < hi ==> StyleAfter(CLEAR, CodesBefore(line, hi)) == StyleAfter(CLEAR, line)
    ensures hi <= 0 ==> CodesBefore(line, hi) == []
  {
    hide Process, Glyphs, StyleAfter, VisibleWidth, CodesBefore, CodesAtEdge, Reached;
    NothingAtEdge(hi);
    if line == [] {
    } else {
      var init, last := line[..|line| - 1], line[|line| - 1];
      assert line == init + [last];
      EdgeSnoc(init, last, hi);
      StyleIsOfCodes(init, hi);
      GlyphsPush(CLEAR, 0, init, last);
      GlyphsPush(CLEAR, 0, CodesBefore(init, hi), last);
    }
  }

  /** No code past a column comes before it. */
  lemma {:induction false} CodesEnd(line: Line, i: int, hi: int)
    requires 0 <= i <= |line| && hi <= VisibleWidth(line[..i])
    ensures CodesBefore(line, hi) == CodesBefore(line[..i], hi)
    decreases |line| - i
  {
    hide Process, Glyphs, StyleAfter, VisibleWidth, CodesBefore, CodesAtEdge, Reached;
    if i == |line| {
      assert line[..i] == line;
    } else {
      assert line[..i + 1] == line[..i] + [line[i]];
      EdgeSnoc(line[..i], line[i], hi);
      VisibleWidthConcat(line[..i], [line[i]]);
      CodesEnd(line, i + 1, hi);
    }
  }

  lemma NothingAtEdge(lo: int)
    ensures CodesBefore([], lo) == [] && CodesAtEdge([], lo) == [] && !Reached([], lo)
    ensures StyleAfter(CLEAR, []) == CLEAR
  {
  }

  /** Up to the slice's first grapheme, the line's style is that of the codes before the edge and then those at it. */
  lemma {:induction false} StyleAtEdge(line: Line, lo: int)
    requires !Reached(line, lo)
    ensures StyleAfter(CLEAR, line) == StyleAfter(CLEAR, CodesBefore(line, lo) + CodesAtEdge(line, lo))
    ensures VisibleWidth(line) < lo ==> CodesAtEdge(line, lo) == []
    ensures NoGraphemes(CodesBefore(line, lo)) && NoGraphemes(CodesAtEdge(line, lo))
  {
    hide Process, Glyphs, StyleAfter, VisibleWidth, CodesBefore, CodesAtEdge, Reached;
    NothingAtEdge(lo);
    if line == [] {
      assert CodesBefore(line, lo) + CodesAtEdge(line, lo) == line;
    } else {
      var init, last := line[..|line| - 1], line[|line| - 1];
      assert line == init + [last];
      EdgeSnoc(init, last, lo);
      StyleAtEdge(init, lo);
      GlyphsPush(CLEAR, 0, init, last);
      var before, edge := CodesBefore(init, lo), CodesAtEdge(init, lo);
      if last.Code? {
        GlyphsPush(CLEAR, 0, before + edge, last);
        assert CodesBefore(line, lo) + CodesAtEdge(line, lo) == before + edge + [last];
      }
    }
  }

  /** Past the first grapheme nothing is added to either. */
  lemma {:induction false} EdgeIsSettled(line: Line, i: int, lo: int)
    requires 0 <= i <= |line| && Reached(line[..i], lo) && VisibleWidth(line[..i]) >= lo
    ensures CodesBefore(line, lo) == CodesBefore(line[..i], lo) && CodesAtEdge(line, lo) == CodesAtEdge(line[..i], lo)
    decreases |line| - i
  {
    if i == |line| {
      assert line[..i] == line;
    } else {
      assert line[..i + 1] == line[..i] + [line[i]];
      EdgeSnoc(line[..i], line[i], lo);
      VisibleWidthConcat(line[..i], [line[i]]);
      EdgeIsSettled(line, i + 1, lo);
    }
  }

  /** The styles of a slice under way. Before its first grapheme it holds the codes at the edge and the earlier
      ones are pending; from then on it shows the selected glyphs in their styles, or the first one in another. */
  ghost predicate Styling(line: Line, i: int, lo: int, sel: seq<Glyph>, text: Line, pending: Line)
    requires 0 <= i <= |line|
  {
    var read := line[..i];
    if !Reached(read, lo) then
      sel == [] && text == CodesAtEdge(read, lo) && pending == CodesBefore(read, lo)
    else
      && sel != [] && pending == [] && VisibleWidth(read) >= lo
      && VisibleWidth(text) == VisibleWidth(read) - sel[0].col
      && Glyphs(CLEAR, 0, text) != []
      && Glyphs(CLEAR, 0, text)[0].style == StyleAfter(CLEAR, CodesAtEdge(read, lo) + CodesBefore(read, lo))
      && (if EdgeCommutes(read, lo)
          then Glyphs(CLEAR, 0, text) == Moved(sel) && StyleAfter(CLEAR, text) == StyleAfter(CLEAR, read)
          else Glyphs(CLEAR, 0, text)[0].style != sel[0].style)
  }

  lemma StylingStarts(line: Line, lo: int)
    ensures Styling(line, 0, lo, [], [], []) && Moved([]) == []
    ensures forall hi, strict :: Selected(Glyphs(CLEAR, 0, []), lo, hi, strict) == []
  {
  }

  /** What one more item adds to the selection. */
  lemma TakeOne(line: Line, i: int, lo: int, hi: int, strict: bool)
    requires 0 <= i < |line|
    ensures var c, item := VisibleWidth(line[..i]), line[i];
      Selected(Glyphs(CLEAR, 0, line[..i + 1]), lo, hi, strict) == Selected(Glyphs(CLEAR, 0, line[..i]), lo, hi, strict)
        + (if item.Grapheme? && lo <= c < hi && (!strict || c + item.width <= hi)
           then [Glyph(item.text, item.width, c, StyleAfter(CLEAR, line[..i]))] else [])
  {
    hide *;
    assert line[..i + 1] == line[..i] + [line[i]];
    SelectedSnoc(CLEAR, line[..i], line[i], lo, hi, strict);
  }

  lemma StylingCode(line: Line, i: int, lo: int, sel: seq<Glyph>, text: Line, pending: Line)
    requires 0 <= i < |line| && line[i].Code? && Styling(line, i, lo, sel, text, pending)
    ensures if VisibleWidth(line[..i]) >= lo then Styling(line, i + 1, lo, sel, text + [line[i]], pending)
            else Styling(line, i + 1, lo, sel, text, pending + [line[i]])
  {
    hide Glyphs, StyleAfter, VisibleWidth, CodesBefore, CodesAtEdge, Reached, Process;
    assert line[..i + 1] == line[..i] + [line[i]];
    EdgeSnoc(line[..i], line[i], lo);
    GlyphsPush(CLEAR, 0, line[..i], line[i]);
    GlyphsPush(CLEAR, 0, text, line[i]);
    assert Glyphs(CLEAR, 0, text) + [] == Glyphs(CLEAR, 0, text);
    if !Reached(line[..i], lo) {
      StyleAtEdge(line[..i], lo);
    }
  }

  lemma StylingSkips(line: Line, i: int, lo: int, sel: seq<Glyph>, text: Line, pending: Line)
    requires 0 <= i < |line| && line[i].Grapheme? && VisibleWidth(line[..i]) < lo
    requires Styling(line, i, lo, sel, text, pending)
    ensures Styling(line, i + 1, lo, sel, text, pending)
  {
    hide Glyphs, StyleAfter, VisibleWidth, CodesBefore, CodesAtEdge, Reached, Process;
    assert line[..i + 1] == line[..i] + [line[i]];
    EdgeSnoc(line[..i], line[i], lo);
  }

  lemma StylingTakes(line: Line, i: int, lo: int, sel: seq<Glyph>, text: Line, pending: Line)
    requires 0 <= i < |line| && line[i].Grapheme? && VisibleWidth(line[..i]) >= lo
    requires Styling(line, i, lo, sel, text, pending)
    ensures var at := Glyph(line[i].text, line[i].width, VisibleWidth(line[..i]), StyleAfter(CLEAR, line[..i]));
      Styling(line, i + 1, lo, sel + [at], text + pending + [line[i]], [])
  {
    hide Glyphs, StyleAfter, VisibleWidth, CodesBefore, CodesAtEdge, Reached, Process;
    var read, item := line[..i], line[i];
    assert line[..i + 1] == read + [item];
    EdgeSnoc(read, item, lo);
    GlyphsPush(CLEAR, 0, read, item);
    GlyphsPush(CLEAR, 0, text + pending, item);
    if Reached(read, lo) {
      assert text + pending == text;
    } else {
      StyleAtEdge(read, lo);
      CodesHaveNoGlyphs(CLEAR, 0, text);
      GlyphsConcat(CLEAR, 0, text, pending);
      CodesHaveNoGlyphs(StyleAfter(CLEAR, text), VisibleWidth(text), pending);
      VisibleWidthConcat(text, pending);
    }
  }

  /** The grapheme that reaches the last column brings no code with it. */
  lemma SliceStyleEnds(line: Line, i: int, hi: int)
    requires 0 <= i < |line| && line[i].Grapheme?
    requires VisibleWidth(line[..i]) < hi <= VisibleWidth(line[..i + 1])
    ensures StyleAfter(CLEAR, line[..i + 1]) == StyleAfter(CLEAR, line[..i])
    ensures StyleAfter(CLEAR, CodesBefore(line, hi)) == StyleAfter(CLEAR, line[..i])
  {
    hide StyleAfter, VisibleWidth, CodesBefore, CodesAtEdge, Reached, Process;
    assert line[..i + 1] == line[..i] + [line[i]];
    GlyphsPush(CLEAR, 0, line[..i], line[i]);
    EdgeSnoc(line[..i], line[i], hi);
    StyleIsOfCodes(line[..i], hi);
    CodesEnd(line, i + 1, hi);
  }

  /** When the line has been read, or the columns of the slice have. */
  lemma StylingEnds(line: Line, i: int, lo: int, sel: seq<Glyph>, text: Line, pending: Line)
    requires 0 <= i <= |line| && Styling(line, i, lo, sel, text, pending)
    ensures Glyphs(CLEAR, 0, text) == Moved(sel) <==> sel == [] || EdgeCommutes(line, lo)
    ensures sel != [] ==>
      && Glyphs(CLEAR, 0, text) != []
      && Glyphs(CLEAR, 0, text)[0].style == StyleAfter(CLEAR, CodesAtEdge(line, lo) + CodesBefore(line, lo))
  {
    hide Glyphs, StyleAfter, VisibleWidth, CodesBefore, CodesAtEdge, Reached, Process;
    if Reached(line[..i], lo) {
      EdgeIsSettled(line, i, lo);
    } else {
      StyleAtEdge(line[..i], lo);
      CodesHaveNoGlyphs(CLEAR, 0, text);
    }
  }

  /** The graphemes of columns startCol..startCol+length, whole and in order; a strict slice leaves
      out one that reaches past the end. They keep their styles, and their columns from the first on, exactly
      when the codes at the left edge may as well come before the earlier ones; that order is the style they begin
      in. */
  method SliceWithWidth(line: Line, startCol: nat, length: int, strict: bool) returns (text: Line, width: nat)
    ensures PlainOf(Glyphs(CLEAR, 0, text))
              == PlainOf(Selected(Glyphs(CLEAR, 0, line), startCol, startCol + length, strict))
    ensures width == VisibleWidth(text)
    ensures var sel := Selected(Glyphs(CLEAR, 0, line), startCol, startCol + length, strict);
      && (Glyphs(CLEAR, 0, text) == Moved(sel) <==> sel == [] || EdgeCommutes(line, startCol))
      && (sel != [] ==>
            && Glyphs(CLEAR, 0, text) != []
            && Glyphs(CLEAR, 0, text)[0].style ==
               StyleAfter(CLEAR, CodesAtEdge(line, startCol) + CodesBefore(line, startCol)))
    ensures startCol == 0 ==> Glyphs(CLEAR, 0, text) == Selected(Glyphs(CLEAR, 0, line), 0, length, strict)
    ensures startCol == 0 && strict && length >= 0 ==> width <= length
    ensures startCol == 0 ==> StyleAfter(CLEAR, text) == StyleAfter(CLEAR, CodesBefore(line, length))
  {
    hide Glyphs, Selected, PlainOf, StyleAfter, CodesBefore, CodesAtEdge, Reached, EdgeCommutes, Moved;
    SlicingStarts(line, startCol, startCol + length, strict);
    StylingStarts(line, startCol);
    text, width := [], 0;
    var endCol := startCol + length;
    if length <= 0 {
      NothingBetween(CLEAR, 0, line, startCol, endCol, strict);
      StyleIsOfCodes(line, length);
      return;
    }
    var currentCol, i := 0, 0;
    var pendingAnsi: Line := [];
    ghost var sel: seq<Glyph> := [];
    while i < |line|
      invariant 0 <= i <= |line| && currentCol == VisibleWidth(line[..i]) && currentCol < endCol
      invariant Slicing(line, i, startCol, endCol, strict, text, width, pendingAnsi)
      invariant sel == Selected(Glyphs(CLEAR, 0, line[..i]), startCol, endCol, strict)
      invariant Styling(line, i, startCol, sel, text, pendingAnsi)
    {
      TakeOne(line, i, startCol, endCol, strict);
      if line[i].Code? {
        SliceCode(line, i, startCol, endCol, strict, text, width, pendingAnsi);
        StylingCode(line, i, startCol, sel, text, pendingAnsi);
        if currentCol >= startCol {
          text := text + [line[i]];
        } else {
          pendingAnsi := pendingAnsi + [line[i]];
        }
      } else {
        var w := line[i].width;
        if currentCol < startCol || (strict && currentCol + w > endCol) {
          SliceSkips(line, i, startCol, endCol, strict);
          if currentCol < startCol {
            StylingSkips(line, i, startCol, sel, text, pendingAnsi);
            StylingEnds(line, i + 1, startCol, sel, text, pendingAnsi);
          } else {
            StylingEnds(line, i, startCol, sel, text, pendingAnsi);
          }
        } else {
          SliceTakes(line, i, startCol, endCol, strict, text, width, pendingAnsi);
          StylingTakes(line, i, startCol, sel, text, pendingAnsi);
          text := text + pendingAnsi + [line[i]];
          pendingAnsi := [];
          width := width + w;
          sel := Selected(Glyphs(CLEAR, 0, line[..i + 1]), startCol, endCol, strict);
          StylingEnds(line, i + 1, startCol, sel, text, pendingAnsi);
        }
        sel := Selected(Glyphs(CLEAR, 0, line[..i + 1]), startCol, endCol, strict);
        currentCol := currentCol + w;
        if currentCol >= endCol {
          SelectionEnds(CLEAR, line, i + 1, startCol, endCol, strict);
          SliceStyleEnds(line, i, endCol);
          return;
        }
      }
      i := i + 1;
    }
    assert line[..i] == line;
    StyleIsOfCodes(line, endCol);
    StylingEnds(line, i, startCol, sel, text, pendingAnsi);
  }

  /** A caller can tell: styles survive when no code precedes the slice, or none stands at its edge. */
  lemma EdgeCommutesWhenBare(line: Line, lo: int)
    requires CodesBefore(line, lo) == [] || CodesAtEdge(line, lo) == []
    ensures EdgeCommutes(line, lo)
  {
    var before, edge := CodesBefore(line, lo), CodesAtEdge(line, lo);
    assert [] + before == before && edge + [] == edge && [] + edge == edge && before + [] == before;
  }

  lemma ForegroundCode(s: Style, n: nat)
    requires IsForeground(n)
    ensures Process(s, SgrCode([Decimal(n)])) == s.(fg := Some(Decimal(n)))
  {
    hide Decimal, Digits, SgrCode, SgrParams, ParseOsc8;
    var c := Decimal(n);
    DecimalParses(n);
    NotZero(n);
    SgrCodeIsRead([c]);
    assert Join([c], ';') == c;
    SplitWithoutParam(c);
    assert [c][1..] == [];
    assert ApplyParams(s, [c]) == ApplyParams(ApplyCode(s, n), []);
  }

  lemma NotZero(n: nat)
    requires n > 0
    ensures Decimal(n) != "0"
  {
    DecimalParses(n);
    assert "0"[..0] == "" && Digits("0") == 0;
  }

  lemma SplitWithoutParam(c: string)
    requires AllDigits(c)
    ensures Split(c, ';') == [c]
  {
    SplitWithout(c, ';');
  }

  lemma RedAndGreen(s: Style)
    ensures Process(s, [ESC] + "[31m") == s.(fg := Some("31"))
    ensures Process(s, [ESC] + "[32m") == s.(fg := Some("32"))
  {
    hide Process;
    ForegroundCode(s, 31);
    ForegroundCode(s, 32);
    assert Decimal(31) == "31" && Decimal(32) == "32" by {
      assert Decimal(3) == "3";
    }
    assert SgrCode(["31"]) == [ESC] + "[31m" && SgrCode(["32"]) == [ESC] + "[32m";
  }

  /** An a and a b, each after a code. */
  function TwoCoded(p: string, q: string): Line {
    [Code(p), Grapheme("a", 1), Code(q), Grapheme("b", 1)]
  }

  lemma TwoCodedGlyphs(p: string, q: string)
    ensures Glyphs(CLEAR, 0, TwoCoded(p, q)) ==
            [Glyph("a", 1, 0, Process(CLEAR, p)), Glyph("b", 1, 1, Process(Process(CLEAR, p), q))]
  {
    hide Process;
    var line := TwoCoded(p, q);
    var s1 := Process(CLEAR, p);
    var t1, t2, t3 := line[1..], line[1..][1..], line[1..][1..][1..];
    assert t1 == [Grapheme("a", 1), Code(q), Grapheme("b", 1)] && t2 == [Code(q), Grapheme("b", 1)];
    assert t3 == [Grapheme("b", 1)] && t3[1..] == [];
    assert Glyphs(Process(s1, q), 1, t3) == [Glyph("b", 1, 1, Process(s1, q))];
    assert Glyphs(s1, 1, t2) == Glyphs(Process(s1, q), 1, t3);
    assert Glyphs(s1, 0, t1) == [Glyph("a", 1, 0, s1)] + Glyphs(s1, 1, t2);
  }

  lemma TwoCodedEdge(p: string, q: string)
    ensures CodesBefore(TwoCoded(p, q), 1) == [Code(p)] && CodesAtEdge(TwoCoded(p, q), 1) == [Code(q)]
  {
    hide Process;
    var line := TwoCoded(p, q);
    var one, two, three := [Code(p)], [Code(p), Grapheme("a", 1)], [Code(p), Grapheme("a", 1), Code(q)];
    assert [] + one == one && one + [line[1]] == two && two + [line[2]] == three && three + [line[3]] == line;
    VisibleWidthConcat(one, [line[1]]);
    VisibleWidthConcat(two, [line[2]]);
    OneItem(CLEAR, 0, line[0], 0, 0);
    OneItem(CLEAR, 0, line[1], 0, 0);
    OneItem(CLEAR, 0, line[2], 0, 0);
    EdgesOf(one, two, three, line);
  }

  lemma EdgesOf(one: Line, two: Line, three: Line, line: Line)
    requires |line| == 4 && one == [line[0]] && two == one + [line[1]] && three == two + [line[2]]
    requires line == three + [line[3]]
    requires line[0].Code? && line[1].Grapheme? && line[2].Code? && line[3].Grapheme?
    requires VisibleWidth(one) == 0 && VisibleWidth(two) == 1 && VisibleWidth(three) == 1
    ensures CodesBefore(line, 1) == [line[0]] && CodesAtEdge(line, 1) == [line[2]]
  {
    assert CodesBefore([], 1) == [] && CodesAtEdge([], 1) == [] && !Reached([], 1) && VisibleWidth([]) == 0;
    EdgeSnoc([], line[0], 1);
    assert [] + [line[0]] == one;
    EdgeSnoc(one, line[1], 1);
    EdgeSnoc(two, line[2], 1);
    EdgeSnoc(three, line[3], 1);
  }

  /** A red a, then a green b. */
  const RED_THEN_GREEN: Line := TwoCoded([ESC] + "[31m", [ESC] + "[32m")

  /** The order does matter at times: sliced from column 1 the green b is selected, and the two codes in the
      order in which the slice holds them make it red. */
  lemma SliceChangesColor()
    ensures Selected(Glyphs(CLEAR, 0, RED_THEN_GREEN), 1, 2, false) == [Glyph("b", 1, 1, CLEAR.(fg := Some("32")))]
    ensures StyleAfter(CLEAR, CodesAtEdge(RED_THEN_GREEN, 1) + CodesBefore(RED_THEN_GREEN, 1))
              == CLEAR.(fg := Some("31"))
    ensures !EdgeCommutes(RED_THEN_GREEN, 1)
  {
    hide Process, CodesBefore, CodesAtEdge, Glyphs;
    var p, q := [ESC] + "[31m", [ESC] + "[32m";
    RedAndGreen(CLEAR);
    RedAndGreen(CLEAR.(fg := Some("31")));
    RedAndGreen(CLEAR.(fg := Some("32")));
    TwoCodedGlyphs(p, q);
    TwoCodedEdge(p, q);
    TwoStyles(CLEAR, p, q);
    TwoStyles(CLEAR, q, p);
    var a, b := Glyph("a", 1, 0, CLEAR.(fg := Some("31"))), Glyph("b", 1, 1, CLEAR.(fg := Some("32")));
    assert [a, b][1..] == [b] && [b][1..] == [];
    assert Selected([b], 1, 2, false) == [b];
  }

  lemma TwoStyles(s: Style, p: string, q: string)
    ensures StyleAfter(s, [Code(p)] + [Code(q)]) == Process(Process(s, p), q)
  {
    hide Process, StyleAfter;
    StyleAfterConcat(s, [Code(p)], [Code(q)]);
    OneItem(s, 0, Code(p), 0, 0);
    OneItem(Process(s, p), 0, Code(q), 0, 0);
  }

  lemma {:induction false} NothingBetween(s: Style, col: int, line: Line, lo: int, hi: int, strict: bool)
    requires hi <= lo
    ensures Selected(Glyphs(s, col, line), lo, hi, strict) == []
    decreases |line|
  {
    if line != [] {
      if line[0].Code? {
        NothingBetween(Process(s, line[0].code), col, line[1..], lo, hi, strict);
      } else {
        NothingBetween(s, col + line[0].width, line[1..], lo, hi, strict);
      }
    }
  }
}
