/** Extracting what lies left and right of an overlay, and compositing the three parts. */
module Overlay {
  import opened Text
  import opened Tracker
  import opened TrackerRoundTrip
  import opened AnsiCodeTrackers
  import opened Compose

  datatype Segments = Segments(before: Line, beforeWidth: nat, after: Line, afterWidth: nat)

  /** The left part after items 0..i. */
  ghost predicate Before(line: Line, i: int, end: int, before: Line, beforeWidth: int, pending: Line)
    requires 0 <= i <= |line|
  {
    && Glyphs(CLEAR, 0, before) == Within(Glyphs(CLEAR, 0, line[..i]), 0, end)
    && beforeWidth == VisibleWidth(before) <= end
    && StyleAfter(CLEAR, before) == LastStyle(Glyphs(CLEAR, 0, before))
    && NoGraphemes(pending)
    && (VisibleWidth(line[..i]) < end ==>
          && beforeWidth == VisibleWidth(line[..i])
          && StyleAfter(StyleAfter(CLEAR, before), pending) == StyleAfter(CLEAR, line[..i]))
  }

  /** The right part after items 0..i: its first grapheme stands at the column it had. */
  ghost predicate After(line: Line, i: int, lo: int, hi: int, strict: bool, after: Line, afterWidth: int, started: bool)
    requires 0 <= i <= |line|
  {
    var sel := Selected(Glyphs(CLEAR, 0, line[..i]), lo, hi, strict);
    var col := VisibleWidth(line[..i]);
    if !started then after == [] && afterWidth == 0 && sel == []
    else
      && sel != [] && lo <= sel[0].col && Glyphs(CLEAR, sel[0].col, after) == sel
      && afterWidth == VisibleWidth(after)
      && (strict ==> sel[0].col + afterWidth <= hi)
      && lo <= col
      && StyleAfter(CLEAR, after) == StyleAfter(CLEAR, CodesBefore(line[..i], hi))
      && (col < hi ==> sel[0].col + afterWidth == col)
  }

  lemma BeforeStep(line: Line, i: int, end: int, before: Line, beforeWidth: int, pending: Line)
    requires 0 <= i < |line| && Before(line, i, end, before, beforeWidth, pending)
    ensures var col, item := VisibleWidth(line[..i]), line[i];
      if item.Code? then
        Before(line, i + 1, end, before, beforeWidth, if col < end then pending + [item] else pending)
      else if col < end && col + item.width <= end then
        Before(line, i + 1, end, before + pending + [item], beforeWidth + item.width, [])
      else Before(line, i + 1, end, before, beforeWidth, pending)
  {
    hide Glyphs, Within, Process;
    var item := line[i];
    assert line[..i + 1] == line[..i] + [item];
    GlyphsPush(CLEAR, 0, line[..i], item);
    WithinPush(CLEAR, 0, line[..i], item, 0, end);
    if item.Code? {
      GlyphsPush(StyleAfter(CLEAR, before), 0, pending, item);
    } else if VisibleWidth(line[..i]) < end && VisibleWidth(line[..i]) + item.width <= end {
      GlyphsConcat(CLEAR, 0, before, pending);
      CodesHaveNoGlyphs(StyleAfter(CLEAR, before), VisibleWidth(before), pending);
      StyleAfterConcat(CLEAR, before, pending);
      VisibleWidthConcat(before, pending);
      GlyphsPush(CLEAR, 0, before + pending, item);
    }
  }

  lemma AfterCode(line: Line, i: int, lo: int, hi: int, strict: bool, after: Line, afterWidth: int, started: bool)
    requires 0 <= i < |line| && line[i].Code? && After(line, i, lo, hi, strict, after, afterWidth, started)
    ensures After(line, i + 1, lo, hi, strict,
                  if started && lo <= VisibleWidth(line[..i]) < hi then after + [line[i]] else after,
                  afterWidth, started)
  {
    hide Glyphs, Selected, StyleAfter, VisibleWidth, CodesBefore, CodesAtEdge, Reached, Process;
    assert line[..i + 1] == line[..i] + [line[i]];
    GlyphsPush(CLEAR, 0, line[..i], line[i]);
    EdgeSnoc(line[..i], line[i], hi);
    SelectedSnoc(CLEAR, line[..i], line[i], lo, hi, strict);
    if started {
      GlyphsPush(CLEAR, 0, CodesBefore(line[..i], hi), line[i]);
      var sel := Selected(Glyphs(CLEAR, 0, line[..i]), lo, hi, strict);
      GlyphsPush(CLEAR, sel[0].col, after, line[i]);
    }
  }

  lemma AfterSkips(line: Line, i: int, lo: int, hi: int, strict: bool, after: Line, afterWidth: int, started: bool)
    requires 0 <= i < |line| && line[i].Grapheme? && After(line, i, lo, hi, strict, after, afterWidth, started)
    requires var col := VisibleWidth(line[..i]); !(lo <= col < hi && (!strict || col + line[i].width <= hi))
    ensures After(line, i + 1, lo, hi, strict, after, afterWidth, started)
  {
    hide Glyphs, Selected, StyleAfter, VisibleWidth, CodesBefore, CodesAtEdge, Reached, Process;
    assert line[..i + 1] == line[..i] + [line[i]];
    GlyphsPush(CLEAR, 0, line[..i], line[i]);
    EdgeSnoc(line[..i], line[i], hi);
    SelectedSnoc(CLEAR, line[..i], line[i], lo, hi, strict);
  }

  lemma AfterTakes(line: Line, i: int, lo: int, hi: int, strict: bool, after: Line, afterWidth: int, started: bool,
                   prefix: Line)
    requires 0 <= i < |line| && line[i].Grapheme? && After(line, i, lo, hi, strict, after, afterWidth, started)
    requires var col := VisibleWidth(line[..i]); lo <= col < hi && (!strict || col + line[i].width <= hi)
    requires started ==> prefix == after
    requires !started ==> NoGraphemes(prefix) && StyleAfter(CLEAR, prefix) == StyleAfter(CLEAR, line[..i])
    ensures After(line, i + 1, lo, hi, strict, prefix + [line[i]], afterWidth + line[i].width, true)
  {
    hide Glyphs, Selected, StyleAfter, VisibleWidth, CodesBefore, CodesAtEdge, Reached;
    assert line[..i + 1] == line[..i] + [line[i]];
    EdgeSnoc(line[..i], line[i], hi);
    StyleIsOfCodes(line[..i], hi);
    GlyphsPush(CLEAR, 0, line[..i], line[i]);
    SelectedSnoc(CLEAR, line[..i], line[i], lo, hi, strict);
    var sel := Selected(Glyphs(CLEAR, 0, line[..i]), lo, hi, strict);
    var first := if started then sel[0].col else VisibleWidth(line[..i]);
    if !started {
      CodesHaveNoGlyphs(CLEAR, first, prefix);
    }
    GlyphsPush(CLEAR, first, prefix, line[i]);
  }

  /** What an extraction of two segments yields. */
  ghost predicate Extracted(line: Line, beforeEnd: int, lo: int, hi: int, strict: bool, s: Segments) {
    && Glyphs(CLEAR, 0, s.before) == Within(Glyphs(CLEAR, 0, line), 0, beforeEnd)
    && s.beforeWidth == VisibleWidth(s.before) <= beforeEnd
    && StyleAfter(CLEAR, s.before) == LastStyle(Glyphs(CLEAR, 0, s.before))
    && s.afterWidth == VisibleWidth(s.after)
    && var sel := Selected(Glyphs(CLEAR, 0, line), lo, hi, strict);
       if sel == [] then s.after == []
       else lo <= sel[0].col && Glyphs(CLEAR, sel[0].col, s.after) == sel
            && StyleAfter(CLEAR, s.after) == StyleAfter(CLEAR, CodesBefore(line, hi))
            && (strict ==> sel[0].col + s.afterWidth <= hi)
  }

  lemma ExtractionEnds(line: Line, i: int, beforeEnd: int, lo: int, hi: int, strict: bool, before: Line,
                       beforeWidth: int,
                       pending: Line, after: Line, afterWidth: int, started: bool)
    requires 0 <= i <= |line| && beforeEnd <= lo && beforeWidth >= 0 && afterWidth >= 0
    requires Before(line, i, beforeEnd, before, beforeWidth, pending)
    requires After(line, i, lo, hi, strict, after, afterWidth, started)
    requires i == |line| || (beforeEnd <= VisibleWidth(line[..i]) && (hi <= lo || hi <= VisibleWidth(line[..i])))
    ensures Extracted(line, beforeEnd, lo, hi, strict, Segments(before, beforeWidth, after, afterWidth))
  {
    if i == |line| {
      assert line[..i] == line;
    } else {
      CutOff(CLEAR, line, i, 0, beforeEnd);
      if hi <= lo {
        NothingBetween(CLEAR, 0, line, lo, hi, strict);
        NothingBetween(CLEAR, 0, line[..i], lo, hi, strict);
      } else {
        SelectionEnds(CLEAR, line, i, lo, hi, strict);
        CodesEnd(line, i, hi);
      }
    }
  }

  /** An extraction under way. */
  datatype Progress = Progress(before: Line, beforeWidth: nat, pendingBefore: Line, after: Line, afterWidth: nat,
                               afterStarted: bool)

  ghost predicate Extracting(line: Line, i: int, beforeEnd: int, lo: int, hi: int, strict: bool, p: Progress)
    requires 0 <= i <= |line|
  {
    && Before(line, i, beforeEnd, p.before, p.beforeWidth, p.pendingBefore)
    && After(line, i, lo, hi, strict, p.after, p.afterWidth, p.afterStarted)
  }

  method ExtractCode(line: Line, i: nat, currentCol: nat, beforeEnd: nat, afterStart: nat, afterEnd: int,
                     ghost strict: bool,
                     p: Progress) returns (q: Progress)
    requires i < |line| && line[i].Code? && currentCol == VisibleWidth(line[..i]) && beforeEnd <= afterStart
    requires Extracting(line, i, beforeEnd, afterStart, afterEnd, strict, p)
    ensures Extracting(line, i + 1, beforeEnd, afterStart, afterEnd, strict, q)
  {
    BeforeStep(line, i, beforeEnd, p.before, p.beforeWidth, p.pendingBefore);
    AfterCode(line, i, afterStart, afterEnd, strict, p.after, p.afterWidth, p.afterStarted);
    q := p;
    if currentCol < beforeEnd {
      q := q.(pendingBefore := p.pendingBefore + [line[i]]);
    } else if currentCol >= afterStart && currentCol < afterEnd && p.afterStarted {
      q := q.(after := p.after + [line[i]]);
    }
  }

  method ExtractGrapheme(line: Line, i: nat, currentCol: nat, beforeEnd: nat, afterStart: nat, afterEnd: int,
                         strictAfter: bool,
                         p: Progress, tracker: AnsiCodeTracker) returns (q: Progress)
    requires i < |line| && line[i].Grapheme? && currentCol == VisibleWidth(line[..i]) && beforeEnd <= afterStart
    requires Extracting(line, i, beforeEnd, afterStart, afterEnd, strictAfter, p)
    requires tracker.State() == StyleAfter(CLEAR, line[..i]) && Reachable(tracker.State())
    ensures Extracting(line, i + 1, beforeEnd, afterStart, afterEnd, strictAfter, q)
  {
    hide Before, After, Glyphs, StyleAfter, VisibleWidth, Reachable, ActiveItems;
    var w := line[i].width;
    BeforeStep(line, i, beforeEnd, p.before, p.beforeWidth, p.pendingBefore);
    q := p;
    if currentCol < beforeEnd && currentCol + w <= beforeEnd {
      AfterSkips(line, i, afterStart, afterEnd, strictAfter, p.after, p.afterWidth, p.afterStarted);
      q := p.(before := p.before + p.pendingBefore + [line[i]], pendingBefore := [], beforeWidth := p.beforeWidth + w);
    } else if currentCol >= afterStart && currentCol < afterEnd && (!strictAfter || currentCol + w <= afterEnd) {
      var prefix := p.after;
      if !p.afterStarted {
        prefix := tracker.GetActiveCodes();
        ActiveItemsRebuild(tracker.State());
      }
      AfterTakes(line, i, afterStart, afterEnd, strictAfter, p.after, p.afterWidth, p.afterStarted, prefix);
      q := p.(after := prefix + [line[i]], afterStarted := true, afterWidth := p.afterWidth + w);
    } else {
      AfterSkips(line, i, afterStart, afterEnd, strictAfter, p.after, p.afterWidth, p.afterStarted);
    }
  }

  /** Items 0..i have been read, leaving this column and style. */
  ghost predicate ReadUpTo(line: Line, i: int, col: int, style: Style)
    requires 0 <= i <= |line|
  {
    col == VisibleWidth(line[..i]) && style == StyleAfter(CLEAR, line[..i]) && Reachable(style)
  }

  lemma ReadOne(line: Line, i: int, col: int, style: Style)
    requires WellFormed(line) && 0 <= i < |line| && ReadUpTo(line, i, col, style)
    ensures var next := if line[i].Code? then Process(style, line[i].code) else style;
      ReadUpTo(line, i + 1, col + ItemWidth(line[i]), next)
  {
    assert line[..i + 1] == line[..i] + [line[i]] && WellFormedItem(line[i]);
    GlyphsPush(CLEAR, 0, line[..i], line[i]);
    if line[i].Code? {
      ProcessKeepsReachable(style, line[i].code);
    }
  }

  method ExtractItem(line: Line, i: nat, currentCol: nat, beforeEnd: nat, afterStart: nat, afterEnd: int,
                     strictAfter: bool,
                     p: Progress, tracker: AnsiCodeTracker) returns (q: Progress, nextCol: nat)
    requires WellFormed(line) && i < |line| && beforeEnd <= afterStart
    requires ReadUpTo(line, i, currentCol, tracker.State())
    requires Extracting(line, i, beforeEnd, afterStart, afterEnd, strictAfter, p)
    modifies tracker
    ensures ReadUpTo(line, i + 1, nextCol, tracker.State())
    ensures Extracting(line, i + 1, beforeEnd, afterStart, afterEnd, strictAfter, q)
  {
    ReadOne(line, i, currentCol, tracker.State());
    nextCol := currentCol + ItemWidth(line[i]);
    if line[i].Code? {
      q := ExtractCode(line, i, currentCol, beforeEnd, afterStart, afterEnd, strictAfter, p);
      tracker.Process(line[i].code);
    } else {
      q := ExtractGrapheme(line, i, currentCol, beforeEnd, afterStart, afterEnd, strictAfter, p, tracker);
    }
  }

  lemma ReadNothing(line: Line, beforeEnd: nat, lo: int, hi: int, strict: bool)
    ensures ReadUpTo(line, 0, 0, CLEAR)
    ensures Extracting(line, 0, beforeEnd, lo, hi, strict, Progress([], 0, [], [], 0, false))
  {}

  /** One pass over a line: the whole graphemes left of beforeEnd, and the graphemes from afterStart
      on, each in the style it has in the line. */
  method ExtractSegments(line: Line, beforeEnd: nat, afterStart: nat, afterLen: int,
                         strictAfter: bool) returns (s: Segments)
    requires WellFormed(line) && beforeEnd <= afterStart
    ensures Extracted(line, beforeEnd, afterStart, afterStart + afterLen, strictAfter, s)
  {
    hide Glyphs, Selected, Within, StyleAfter, VisibleWidth, Reachable, WellFormed;
    ReadNothing(line, beforeEnd, afterStart, afterStart + afterLen, strictAfter);
    var p := Progress([], 0, [], [], 0, false);
    var currentCol: nat := 0;
    var afterEnd := afterStart + afterLen;
    var tracker := new AnsiCodeTracker();
    var i := 0;
    while i < |line|
      invariant 0 <= i <= |line| && fresh(tracker)
      invariant ReadUpTo(line, i, currentCol, tracker.State())
      invariant Extracting(line, i, beforeEnd, afterStart, afterEnd, strictAfter, p)
    {
      var isGrapheme := line[i].Grapheme?;
      p, currentCol := ExtractItem(line, i, currentCol, beforeEnd, afterStart, afterEnd, strictAfter, p, tracker);
      i := i + 1;
      if isGrapheme && (if afterLen <= 0 then currentCol >= beforeEnd else currentCol >= afterEnd) {
        break;
      }
    }
    ExtractionEnds(line, i, beforeEnd, afterStart, afterEnd, strictAfter, p.before, p.beforeWidth, p.pendingBefore,
                   p.after, p.afterWidth, p.afterStarted);
    s := Segments(p.before, p.beforeWidth, p.after, p.afterWidth);
  }

  // ----- compositing -----

  function Spaces(n: int): (r: Line)
    ensures |r| == if n < 0 then 0 else n
  {
    if n <= 0 then [] else [Grapheme(" ", 1)] + Spaces(n - 1)
  }

  lemma {:induction false} SpacesAreStyleless(s: Style, n: nat)
    ensures VisibleWidth(Spaces(n)) == n && StyleAfter(s, Spaces(n)) == s
    decreases n
  {
    if n > 0 {
      assert Spaces(n)[1..] == Spaces(n - 1);
      SpacesAreStyleless(s, n - 1);
    }
  }

  /** The glyphs of n spaces from a column on. */
  function Padding(s: Style, col: int, n: int): seq<Glyph> {
    Glyphs(s, col, Spaces(n))
  }

  lemma {:induction false} PaddingShape(s: Style, col: int, n: nat)
    ensures |Padding(s, col, n)| == n
    ensures forall k :: 0 <= k < n ==> Padding(s, col, n)[k] == Glyph(" ", 1, col + k, s)
    decreases n
  {
    if n > 0 {
      assert Spaces(n)[1..] == Spaces(n - 1);
      PaddingShape(s, col + 1, n - 1);
    }
  }

  lemma ResetClears(s: Style)
    ensures StyleAfter(s, SEGMENT_RESET) == CLEAR && VisibleWidth(SEGMENT_RESET) == 0
    ensures forall col :: Glyphs(s, col, SEGMENT_RESET) == []
  {
    ResetCode(s);
    CloseCode(ResetSgr(s));
    calc {
      StyleAfter(s, SEGMENT_RESET);
      { assert SEGMENT_RESET[1..] == [Code(LINK_CLOSE)]; }
      StyleAfter(ResetSgr(s), [Code(LINK_CLOSE)]);
      { assert [Code(LINK_CLOSE)][1..] == []; }
      ResetSgr(s).(link := None);
    }
    forall col ensures Glyphs(s, col, SEGMENT_RESET) == [] && VisibleWidth(SEGMENT_RESET) == 0 {
      CodesHaveNoGlyphs(s, col, SEGMENT_RESET);
    }
    CodesHaveNoGlyphs(s, 0, SEGMENT_RESET);
  }

  lemma ResetCode(s: Style)
    ensures Process(s, SGR_RESET) == ResetSgr(s)
  {
    assert SGR_RESET[1] == '[' && OSC8[1] == ']';
    assert SGR_RESET[2..3] == "0";
    assert ParamsEnd(SGR_RESET, 2) == 3;
    assert SgrParams(SGR_RESET, 0) == Some("0");
  }

  lemma CloseCode(s: Style)
    ensures Process(s, LINK_CLOSE) == s.(link := None)
  {
    assert OSC8 <= LINK_CLOSE;
    assert LINK_CLOSE[4..5] == ";";
    assert IndexOf(";", ';') == 0;
    assert ParseOsc8(LINK_CLOSE) == Some(None);
  }

  /** A part padded to its columns and closed off by a reset. */
  function Closed(part: Line, pad: int, rest: Line): Line {
    part + Spaces(pad) + SEGMENT_RESET + rest
  }

  function Assemble(before: Line, beforePad: int, over: Line, overPad: int, after: Line, afterPad: int): Line {
    Closed(before, beforePad, Closed(over, overPad, after + Spaces(afterPad)))
  }

  lemma PadGlyphs(s: Style, col: int, line: Line, pad: nat)
    ensures Glyphs(s, col, line + Spaces(pad))
              == Glyphs(s, col, line) + Padding(StyleAfter(s, line), col + VisibleWidth(line), pad)
    ensures VisibleWidth(line + Spaces(pad)) == VisibleWidth(line) + pad
  {
    GlyphsConcat(s, col, line, Spaces(pad));
    VisibleWidthConcat(line, Spaces(pad));
    SpacesAreStyleless(StyleAfter(s, line), pad);
  }

  /** A part closed by a reset, then the rest read from a cleared style. */
  lemma ClosedPart(col: int, part: Line, pad: nat, rest: Line)
    ensures Glyphs(CLEAR, col, Closed(part, pad, rest))
         == Glyphs(CLEAR, col, part) + Padding(StyleAfter(CLEAR, part), col + VisibleWidth(part), pad)
            + Glyphs(CLEAR, col + VisibleWidth(part) + pad, rest)
    ensures VisibleWidth(Closed(part, pad, rest)) == VisibleWidth(part) + pad + VisibleWidth(rest)
  {
    hide Glyphs, StyleAfter, VisibleWidth, Spaces;
    var padded := part + Spaces(pad);
    PadGlyphs(CLEAR, col, part, pad);
    GlyphsConcat(CLEAR, col, padded, SEGMENT_RESET);
    StyleAfterConcat(CLEAR, padded, SEGMENT_RESET);
    ResetClears(StyleAfter(CLEAR, padded));
    VisibleWidthConcat(padded, SEGMENT_RESET);
    GlyphsConcat(CLEAR, col, padded + SEGMENT_RESET, rest);
    VisibleWidthConcat(padded + SEGMENT_RESET, rest);
  }

  /** Columns taken by glyphs. */
  function Span(glyphs: seq<Glyph>): nat {
    if glyphs == [] then 0 else glyphs[0].width + Span(glyphs[1..])
  }

  lemma {:induction false} SpanIsWidth(s: Style, col: int, line: Line)
    ensures Span(Glyphs(s, col, line)) == VisibleWidth(line)
    decreases |line|
  {
    if line != [] {
      if line[0].Code? {
        SpanIsWidth(Process(s, line[0].code), col, line[1..]);
      } else {
        assert Glyphs(s, col, line)[1..] == Glyphs(s, col + line[0].width, line[1..]);
        SpanIsWidth(s, col + line[0].width, line[1..]);
      }
    }
  }

  lemma {:induction false} ShiftKeepsSpan(glyphs: seq<Glyph>, delta: int)
    ensures Span(Shift(glyphs, delta)) == Span(glyphs)
  {
    if glyphs != [] {
      assert Shift(glyphs, delta)[1..] == Shift(glyphs[1..], delta);
      ShiftKeepsSpan(glyphs[1..], delta);
    }
  }

  /** Glyphs filled up with spaces to a number of columns. */
  function Filled(s: Style, col: int, glyphs: seq<Glyph>, columns: int): seq<Glyph> {
    glyphs + Padding(s, col + Span(glyphs), columns - Span(glyphs))
  }

  /** Three parts side by side from column 0, of m1, m2 and m3 columns, each filled up with spaces in
      the style that goes with it. */
  ghost predicate Laid(row: seq<Glyph>, s1: Style, g1: seq<Glyph>, m1: int, s2: Style, g2: seq<Glyph>, m2: int,
                       s3: Style, g3: seq<Glyph>, m3: int)
  {
    && Span(g1) <= m1 && Span(g2) <= m2 && Span(g3) <= m3
    && row == Filled(s1, 0, g1, m1) + (Filled(s2, m1, g2, m2) + Filled(s3, m1 + m2, g3, m3))
  }

  /** The composited line, glyph by glyph: the whole base graphemes left of startCol, the strictly
      clipped overlay from startCol on, the base tail from startCol + overlayWidth on, each glyph in the style it
      has in its own line. Each part is filled up with spaces: the left one in the style of its last glyph, the
      others in the style their codes leave. */
  ghost predicate Composited(base: Line, overlay: Line, startCol: nat, overlayWidth: nat, totalWidth: nat,
                             result: Line) {
    var afterStart := startCol + overlayWidth;
    var left := Within(Glyphs(CLEAR, 0, base), 0, startCol);
    var over := Shift(Selected(Glyphs(CLEAR, 0, overlay), 0, overlayWidth, true), startCol);
    var kept := Selected(Glyphs(CLEAR, 0, base), afterStart, totalWidth, true);
    var tail := if kept == [] then [] else Shift(kept, afterStart - kept[0].col);
    Laid(Glyphs(CLEAR, 0, result), LastStyle(left), left, startCol,
         StyleAfter(CLEAR, CodesBefore(overlay, overlayWidth)), over, overlayWidth,
         if tail == [] then CLEAR else StyleAfter(CLEAR, CodesBefore(base, totalWidth)), tail,
         totalWidth - afterStart)
  }

  /** A part followed by its padding. */
  function Padded(part: Line, col: int, pad: int): seq<Glyph> {
    Glyphs(CLEAR, col, part) + Padding(StyleAfter(CLEAR, part), col + VisibleWidth(part), pad)
  }

  /** The three parts as extracted and sliced, read in the assembled line. */
  lemma AssembledGlyphs(before: Line, beforePad: nat, over: Line, overPad: nat, after: Line, afterPad: nat, c1: int,
                        c2: int)
    requires c1 == VisibleWidth(before) + beforePad && c2 == c1 + VisibleWidth(over) + overPad
    ensures VisibleWidth(Assemble(before, beforePad, over, overPad, after, afterPad))
              == c2 + VisibleWidth(after) + afterPad
    ensures Glyphs(CLEAR, 0, Assemble(before, beforePad, over, overPad, after, afterPad))
         == Padded(before, 0, beforePad) + (Padded(over, c1, overPad) + Padded(after, c2, afterPad))
  {
    hide Glyphs, StyleAfter, VisibleWidth, Spaces, Closed;
    var tail := after + Spaces(afterPad);
    var middle := Closed(over, overPad, tail);
    ClosedPart(0, before, beforePad, middle);
    ClosedPart(c1, over, overPad, tail);
    PadGlyphs(CLEAR, c2, after, afterPad);
    assert Glyphs(CLEAR, c2, tail) == Padded(after, c2, afterPad);
    assert Glyphs(CLEAR, c1, middle) == Padded(over, c1, overPad) + Padded(after, c2, afterPad);
  }

  lemma PaddedIsFilled(part: Line, col: int, columns: int)
    ensures Padded(part, col, columns - VisibleWidth(part))
              == Filled(StyleAfter(CLEAR, part), col, Glyphs(CLEAR, col, part), columns)
    ensures Span(Glyphs(CLEAR, col, part)) == VisibleWidth(part)
  {
    hide Glyphs, StyleAfter, VisibleWidth, Span, Spaces;
    SpanIsWidth(CLEAR, col, part);
  }

  lemma AssembledIsLaid(before: Line, m1: int, over: Line, m2: int, after: Line, m3: int, row: seq<Glyph>,
                        g1: seq<Glyph>, g2: seq<Glyph>, g3: seq<Glyph>)
    requires VisibleWidth(before) <= m1 && VisibleWidth(over) <= m2 && VisibleWidth(after) <= m3
    requires row == Glyphs(CLEAR, 0, Assemble(before, m1 - VisibleWidth(before), over, m2 - VisibleWidth(over),
                                              after, m3 - VisibleWidth(after)))
    requires g1 == Glyphs(CLEAR, 0, before) && g2 == Glyphs(CLEAR, m1, over) && g3 == Glyphs(CLEAR, m1 + m2, after)
    ensures Laid(row, StyleAfter(CLEAR, before), g1, m1, StyleAfter(CLEAR, over), g2, m2,
                 StyleAfter(CLEAR, after), g3, m3)
  {
    hide Glyphs, StyleAfter, VisibleWidth, Span, Padded, Filled, Assemble;
    var w1, w2, w3 := m1 - VisibleWidth(before), m2 - VisibleWidth(over), m3 - VisibleWidth(after);
    AssembledGlyphs(before, w1, over, w2, after, w3, m1, m1 + m2);
    PaddedIsFilled(before, 0, m1);
    PaddedIsFilled(over, m1, m2);
    PaddedIsFilled(after, m1 + m2, m3);
  }

  /** Where the tail's glyphs stand once the tail follows the overlay. */
  lemma TailInPlace(base: Line, afterStart: nat, totalWidth: int, after: Line, kept: seq<Glyph>, tail: seq<Glyph>)
    requires kept == Selected(Glyphs(CLEAR, 0, base), afterStart, totalWidth, true)
    requires tail == if kept == [] then [] else Shift(kept, afterStart - kept[0].col)
    requires if kept == [] then after == [] else Glyphs(CLEAR, kept[0].col, after) == kept
    ensures Glyphs(CLEAR, afterStart, after) == tail
  {
    if kept != [] {
      ShiftedGlyphs(CLEAR, kept[0].col, after, afterStart - kept[0].col);
    }
  }

  lemma PartsInPlace(base: Line, overlay: Line, startCol: nat, overlayWidth: nat, totalWidth: nat,
                     s: Segments, text: Line, beforePad: nat, overlayPad: nat, afterPad: nat, result: Line)
    requires startCol + overlayWidth <= totalWidth
    requires Extracted(base, startCol, startCol + overlayWidth, totalWidth, true, s)
    requires Glyphs(CLEAR, 0, text) == Selected(Glyphs(CLEAR, 0, overlay), 0, overlayWidth, true)
    requires StyleAfter(CLEAR, text) == StyleAfter(CLEAR, CodesBefore(overlay, overlayWidth))
    requires VisibleWidth(text) <= overlayWidth
    requires beforePad == startCol - s.beforeWidth && overlayPad == overlayWidth - VisibleWidth(text)
    requires afterPad == totalWidth - startCol - overlayWidth - s.afterWidth
    requires result == Assemble(s.before, beforePad, text, overlayPad, s.after, afterPad)
    ensures Composited(base, overlay, startCol, overlayWidth, totalWidth, result)
  {
    hide Glyphs, Selected, Within, Shift, Laid, Assemble, VisibleWidth, StyleAfter, CodesBefore;
    NothingAtEdge(totalWidth);
    var afterStart := startCol + overlayWidth;
    var left := Within(Glyphs(CLEAR, 0, base), 0, startCol);
    var over := Shift(Selected(Glyphs(CLEAR, 0, overlay), 0, overlayWidth, true), startCol);
    var kept := Selected(Glyphs(CLEAR, 0, base), afterStart, totalWidth, true);
    var tail := if kept == [] then [] else Shift(kept, afterStart - kept[0].col);
    ShiftedGlyphs(CLEAR, 0, text, startCol);
    TailInPlace(base, afterStart, totalWidth, s.after, kept, tail);
    AssembledIsLaid(s.before, startCol, text, overlayWidth, s.after, totalWidth - afterStart, Glyphs(CLEAR, 0, result),
                    left, over, tail);
  }

  lemma AfterFits(base: Line, startCol: nat, afterStart: nat, totalWidth: nat, s: Segments)
    requires afterStart <= totalWidth && Extracted(base, startCol, afterStart, totalWidth, true, s)
    ensures s.afterWidth <= totalWidth - afterStart
  {
    if s.after == [] {
      assert VisibleWidth([]) == 0;
    }
  }

  /** An overlay that reaches past the total width leaves no tail. */
  lemma NothingAfter(base: Line, startCol: nat, afterStart: nat, totalWidth: nat, s: Segments)
    requires totalWidth < afterStart && Extracted(base, startCol, afterStart, totalWidth, true, s)
    ensures s.after == [] && s.afterWidth == 0
    ensures Extracted(base, startCol, afterStart, afterStart, true, s)
  {
    NothingBetween(CLEAR, 0, base, afterStart, totalWidth, true);
    NothingBetween(CLEAR, 0, base, afterStart, afterStart, true);
    assert VisibleWidth([]) == 0;
  }

  /** Splices an overlay line into a base line. When the overlay's columns lie inside the total width the result
      is exactly that wide and column exact. When they do not it is what fits of the composite as wide as they
      reach: the graphemes that end within the total width. */
  method CompositeLineAt(baseLine: Line, overlayLine: Line, startCol: nat, overlayWidth: nat, totalWidth: nat)
    returns (result: Line, ghost uncut: Line)
    requires WellFormed(baseLine)
    ensures VisibleWidth(result) <= totalWidth
    ensures VisibleWidth(uncut) == Max(totalWidth, startCol + overlayWidth)
      && Composited(baseLine, overlayLine, startCol, overlayWidth, Max(totalWidth, startCol + overlayWidth), uncut)
    ensures if startCol + overlayWidth <= totalWidth then result == uncut
            else Glyphs(CLEAR, 0, result) == Selected(Glyphs(CLEAR, 0, uncut), 0, totalWidth, true)
  {
    hide Glyphs, Selected, Within, Shift, Laid, Assemble, VisibleWidth, StyleAfter, CodesBefore;
    var afterStart := startCol + overlayWidth;
    var base := ExtractSegments(baseLine, startCol, afterStart, totalWidth - afterStart, true);
    var overlayText, width := SliceWithWidth(overlayLine, 0, overlayWidth, true);
    var beforePad := Max(0, startCol - base.beforeWidth);
    var overlayPad := Max(0, overlayWidth - width);
    var actualBeforeWidth := Max(startCol, base.beforeWidth);
    var actualOverlayWidth := Max(overlayWidth, width);
    var afterTarget := Max(0, totalWidth - actualBeforeWidth - actualOverlayWidth);
    var afterPad := Max(0, afterTarget - base.afterWidth);
    result := Assemble(base.before, beforePad, overlayText, overlayPad, base.after, afterPad);
    uncut := result;
    AssembledGlyphs(base.before, beforePad, overlayText, overlayPad, base.after, afterPad,
                    base.beforeWidth + beforePad, base.beforeWidth + beforePad + width + overlayPad);
    if afterStart <= totalWidth {
      AfterFits(baseLine, startCol, afterStart, totalWidth, base);
    } else {
      NothingAfter(baseLine, startCol, afterStart, totalWidth, base);
    }
    PartsInPlace(baseLine, overlayLine, startCol, overlayWidth, Max(totalWidth, afterStart), base, overlayText,
                 beforePad, overlayPad, afterPad, result);
    var resultWidth := VisibleWidth(result);
    if resultWidth > totalWidth {
      var clippedWidth;
      result, clippedWidth := SliceWithWidth(result, 0, totalWidth, true);
    }
  }

  /** A glyph that covers columns on both sides of `at`. */
  predicate Straddles(g: Glyph, at: int) {
    g.col < at < g.col + g.width
  }

  lemma {:induction false} SelectedAreGlyphs(glyphs: seq<Glyph>, lo: int, hi: int, strict: bool)
    ensures forall g :: g in Selected(glyphs, lo, hi, strict) <==>
      g in glyphs && lo <= g.col < hi && (strict ==> g.col + g.width <= hi)
  {
    if glyphs != [] {
      SelectedAreGlyphs(glyphs[1..], lo, hi, strict);
      assert forall g :: g in glyphs <==> g == glyphs[0] || g in glyphs[1..];
    }
  }

  /** The tail right of the overlay keeps its columns if and only if no grapheme straddles the overlay's right
      edge; otherwise it moves left by the columns that grapheme had beyond the edge. */
  lemma {:induction false} TailKeepsColumns(s: Style, col: int, line: Line, lo: int, hi: int)
    requires col <= lo
    ensures var tail := Selected(Glyphs(s, col, line), lo, hi, true);
      tail != [] ==> (tail[0].col == lo <==> forall g <- Glyphs(s, col, line) :: !Straddles(g, lo))
    decreases |line|
  {
    hide Process;
    var glyphs := Glyphs(s, col, line);
    var tail := Selected(glyphs, lo, hi, true);
    if line == [] {
    } else if line[0].Code? {
      TailKeepsColumns(Process(s, line[0].code), col, line[1..], lo, hi);
    } else {
      var next := col + line[0].width;
      assert glyphs[1..] == Glyphs(s, next, line[1..]);
      assert glyphs[0] == Glyph(line[0].text, line[0].width, col, s);
      ColumnsGrow(s, next, line[1..]);
      assert forall g <- glyphs :: g == glyphs[0] || g in glyphs[1..];
      if col == lo {
        FirstAtEdge(s, col, line, hi);
      } else if next <= lo {
        TailKeepsColumns(s, next, line[1..], lo, hi);
        assert forall g <- glyphs[1..] :: g in glyphs;
      } else {
        assert Straddles(glyphs[0], lo) && glyphs[0] in glyphs;
        SelectedAreGlyphs(glyphs[1..], lo, hi, true);
        assert tail == Selected(glyphs[1..], lo, hi, true);
      }
    }
  }

  /** A tail that starts with the line. */
  lemma FirstAtEdge(s: Style, lo: int, line: Line, hi: int)
    requires line != [] && line[0].Grapheme?
    ensures var tail := Selected(Glyphs(s, lo, line), lo, hi, true); tail != [] ==> tail[0].col == lo
  {
    var next := lo + line[0].width;
    assert Glyphs(s, lo, line)[1..] == Glyphs(s, next, line[1..]);
    if hi <= lo {
      NothingBetween(s, lo, line, lo, hi, true);
    } else if next > hi {
      NothingSelectedPast(s, next, line[1..], lo, hi, true);
    }
  }

  /** A glyph that lies wholly within columns lo..hi. */
  predicate Lies(g: Glyph, lo: int, hi: int) {
    lo <= g.col < hi && g.col + g.width <= hi
  }

  lemma ShiftedIsIn(glyphs: seq<Glyph>, delta: int)
    ensures forall g <- glyphs :: g.(col := g.col + delta) in Shift(glyphs, delta)
    ensures forall g <- Shift(glyphs, delta) :: g.(col := g.col - delta) in glyphs
  {
    forall g | g in glyphs ensures g.(col := g.col + delta) in Shift(glyphs, delta) {
      var k :| 0 <= k < |glyphs| && glyphs[k] == g;
      assert Shift(glyphs, delta)[k] == g.(col := g.col + delta);
    }
    forall g | g in Shift(glyphs, delta) ensures g.(col := g.col - delta) in glyphs {
      var k :| 0 <= k < |glyphs| && Shift(glyphs, delta)[k] == g;
      assert glyphs[k] == g.(col := g.col - delta);
    }
  }

  lemma FilledIsIn(s: Style, col: int, glyphs: seq<Glyph>, columns: int)
    requires Span(glyphs) <= columns
    ensures forall g <- glyphs :: g in Filled(s, col, glyphs, columns)
    ensures forall g <- Filled(s, col, glyphs, columns) :: g in glyphs || (g.text == " " && g.width == 1)
  {
    PaddingShape(s, col + Span(glyphs), columns - Span(glyphs));
  }

  lemma LaidIsIn(row: seq<Glyph>, s1: Style, g1: seq<Glyph>, m1: int, s2: Style, g2: seq<Glyph>, m2: int,
                 s3: Style, g3: seq<Glyph>, m3: int)
    requires Laid(row, s1, g1, m1, s2, g2, m2, s3, g3, m3)
    ensures forall g :: g in g1 || g in g2 || g in g3 ==> g in row
    ensures forall g <- row :: g in g1 || g in g2 || g in g3 || (g.text == " " && g.width == 1)
  {
    hide Filled, Span;
    FilledIsIn(s1, 0, g1, m1);
    FilledIsIn(s2, m1, g2, m2);
    FilledIsIn(s3, m1 + m2, g3, m3);
  }

  lemma ShiftByNothing(glyphs: seq<Glyph>)
    ensures Shift(glyphs, 0) == glyphs
  {
  }

  /** What a composited line shows. Every base glyph left of the overlay and every overlay glyph within the
      overlay's columns is there, the latter moved to its column; when no grapheme straddles the overlay's right edge
      so is every base glyph right of it, where it was. There is nothing else but spaces. */
  lemma CompositedShows(base: Line, overlay: Line, startCol: nat, overlayWidth: nat, totalWidth: nat, result: Line)
    requires startCol + overlayWidth <= totalWidth
    requires Composited(base, overlay, startCol, overlayWidth, totalWidth, result)
    ensures forall g <- Glyphs(CLEAR, 0, base) :: Lies(g, 0, startCol) ==> g in Glyphs(CLEAR, 0, result)
    ensures forall g <- Glyphs(CLEAR, 0, overlay) ::
      Lies(g, 0, overlayWidth) ==> g.(col := g.col + startCol) in Glyphs(CLEAR, 0, result)
    ensures (forall g <- Glyphs(CLEAR, 0, base) :: !Straddles(g, startCol + overlayWidth)) ==>
      forall g <- Glyphs(CLEAR, 0, base) ::
        Lies(g, startCol + overlayWidth, totalWidth) ==> g in Glyphs(CLEAR, 0, result)
    ensures (forall g <- Glyphs(CLEAR, 0, base) :: !Straddles(g, startCol + overlayWidth)) ==>
      forall g <- Glyphs(CLEAR, 0, result) ::
        || (g.text == " " && g.width == 1)
        || (g in Glyphs(CLEAR, 0, base) && (Lies(g, 0, startCol) || Lies(g, startCol + overlayWidth, totalWidth)))
        || (g.(col := g.col - startCol) in Glyphs(CLEAR, 0, overlay) && Lies(g, startCol, startCol + overlayWidth))
  {
    hide Glyphs, Selected, Within, Laid, Shift, StyleAfter, CodesBefore, LastStyle;
    var afterStart := startCol + overlayWidth;
    var glyphs := Glyphs(CLEAR, 0, base);
    var left := Within(glyphs, 0, startCol);
    var sel := Selected(Glyphs(CLEAR, 0, overlay), 0, overlayWidth, true);
    var kept := Selected(glyphs, afterStart, totalWidth, true);
    var tail := if kept == [] then [] else Shift(kept, afterStart - kept[0].col);
    LaidIsIn(Glyphs(CLEAR, 0, result), LastStyle(left), left, startCol,
             StyleAfter(CLEAR, CodesBefore(overlay, overlayWidth)), Shift(sel, startCol), overlayWidth,
             if tail == [] then CLEAR else StyleAfter(CLEAR, CodesBefore(base, totalWidth)), tail,
             totalWidth - afterStart);
    StrictSelection(glyphs, 0, startCol);
    SelectedAreGlyphs(glyphs, 0, startCol, true);
    SelectedAreGlyphs(Glyphs(CLEAR, 0, overlay), 0, overlayWidth, true);
    SelectedAreGlyphs(glyphs, afterStart, totalWidth, true);
    ShiftedIsIn(sel, startCol);
    TailKeepsColumns(CLEAR, 0, base, afterStart, totalWidth);
    if kept != [] {
      ShiftByNothing(kept);
    }
  }

  /** A grapheme of two columns, and a narrow one behind it. */
  const WIDE_THEN_NARROW: Line := [Grapheme("W", 2), Grapheme("n", 1)]

  /** Under an overlay of one column the wide grapheme straddles the edge, and the tail, the narrow one at
      column 2, is composited at column 1. */
  lemma StraddledTailMoves()
    ensures var kept := Selected(Glyphs(CLEAR, 0, WIDE_THEN_NARROW), 1, 3, true);
      kept == [Glyph("n", 1, 2, CLEAR)] && Shift(kept, 1 - kept[0].col) == [Glyph("n", 1, 1, CLEAR)]
    ensures exists g <- Glyphs(CLEAR, 0, WIDE_THEN_NARROW) :: Straddles(g, 1)
  {
    assert WIDE_THEN_NARROW[1..] == [Grapheme("n", 1)] && [Grapheme("n", 1)][1..] == [];
    var wide, narrow := Glyph("W", 2, 0, CLEAR), Glyph("n", 1, 2, CLEAR);
    assert Glyphs(CLEAR, 2, [Grapheme("n", 1)]) == [narrow];
    assert Glyphs(CLEAR, 0, WIDE_THEN_NARROW) == [wide, narrow];
    assert wide in [wide, narrow] && Straddles(wide, 1);
    assert [wide, narrow][1..] == [narrow] && [narrow][1..] == [];
    assert Selected([narrow], 1, 3, true) == [narrow];
  }
}
