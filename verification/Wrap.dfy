/** Word wrapping that keeps the style of every grapheme. */
module Wrap {
  import opened Text
  import opened Ansi
  import opened Tracker
  import opened TrackerRoundTrip
  import opened AnsiCodeTrackers
  import opened Marks
  import opened Tokens
  import opened WrapLayout

  /** Every grapheme is between one and `width` columns wide. */
  ghost predicate Sized(line: Line, width: int) {
    forall i :: 0 <= i < |line| && line[i].Grapheme? ==> 1 <= line[i].width <= width
  }

  ghost predicate AllFit(lines: seq<Line>, width: int) {
    forall i :: 0 <= i < |lines| ==> VisibleWidth(lines[i]) <= width
  }

  /** A line that leaves no underline and no hyperlink on behind it. */
  predicate Closed(line: Line) {
    var s := StyleAfter(CLEAR, line);
    !s.flags.underline && s.link.None?
  }

  ghost predicate AllClosed(lines: seq<Line>) {
    forall i :: 0 <= i < |lines| ==> Closed(lines[i])
  }

  lemma ResetCloses(line: Line, style: Style)
    requires StyleAfter(CLEAR, line) == style && Reachable(style)
    ensures Closed(line + LineEndReset(style))
  {
    hide Reachable, Process, LineEndReset;
    StyleAfterConcat(CLEAR, line, LineEndReset(style));
    LineEndResetCloses(style);
  }

  /** Lines written so far, all closed, with the line under way, show what `done` shows when read in style s0;
      reading the line under way from a cleared style leaves the style in force. */
  ghost predicate Kept(lines: seq<Line>, current: Line, s0: Style, done: Line, style: Style) {
    && AllMarks(lines) + MarksOf(CLEAR, current) == MarksOf(s0, done)
    && StyleAfter(CLEAR, current) == style
    && style == StyleAfter(s0, done)
    && Reachable(style)
    && AllClosed(lines)
  }

  lemma KeptExtend(lines: seq<Line>, current: Line, s0: Style, done: Line, style: Style, more: Line)
    requires Kept(lines, current, s0, done, style) && WellFormed(more)
    ensures Kept(lines, current + more, s0, done + more, StyleAfter(style, more))
  {
    hide AllMarks, MarksOf, StyleAfter, Reachable, WellFormed;
    MarksConcat(CLEAR, current, more);
    MarksConcat(s0, done, more);
    StyleAfterConcat(CLEAR, current, more);
    StyleAfterConcat(s0, done, more);
    StyleAfterIsReachable(style, more);
  }

  /** Ending a line: what is pushed shows the same, and the next line starts with the active codes. */
  lemma KeptBreak(lines: seq<Line>, current: Line, s0: Style, done: Line, style: Style, pushed: Line)
    requires Kept(lines, current, s0, done, style)
    requires MarksOf(CLEAR, pushed) == MarksOf(CLEAR, current) && Closed(pushed)
    ensures Kept(lines + [pushed], ActiveItems(style), s0, done, style)
    ensures VisibleWidth(ActiveItems(style)) == 0
  {
    hide AllMarks, MarksOf, StyleAfter, Reachable, Closed;
    AllMarksConcat(lines, [pushed]);
    AllMarksOne(pushed);
    ActiveItemsRebuild(style);
    NoInkNoMarks(CLEAR, ActiveItems(style));
    WidthOfCodes(ActiveItems(style));
  }

  lemma LineEndResetIsInvisible(line: Line, style: Style)
    ensures MarksOf(CLEAR, line + LineEndReset(style)) == MarksOf(CLEAR, line)
    ensures VisibleWidth(line + LineEndReset(style)) == VisibleWidth(line)
    ensures Shown(CLEAR, line + LineEndReset(style)) == Shown(CLEAR, line)
  {
    hide Shown, MarksOf, StyleAfter, VisibleWidth, Process;
    MarksConcat(CLEAR, line, LineEndReset(style));
    NoInkNoMarks(StyleAfter(CLEAR, line), LineEndReset(style));
    VisibleWidthConcat(line, LineEndReset(style));
    WidthOfCodes(LineEndReset(style));
    ShownConcat(CLEAR, line, LineEndReset(style));
    CodesShowNothing(StyleAfter(CLEAR, line), LineEndReset(style));
  }

  /** The codes a line starts with. */
  lemma ActiveShowNothing(style: Style)
    requires Reachable(style)
    ensures Shown(CLEAR, ActiveItems(style)) == [] && VisibleWidth(ActiveItems(style)) == 0
    ensures StyleAfter(CLEAR, ActiveItems(style)) == style
  {
    hide Shown, StyleAfter, VisibleWidth, Reachable;
    ActiveItemsRebuild(style);
    CodesShowNothing(CLEAR, ActiveItems(style));
    WidthOfCodes(ActiveItems(style));
  }

  lemma FlattenParts(a: Line, item: Item)
    ensures VisibleWidth(a + [item]) == VisibleWidth(a) + ItemWidth(item)
  {
    VisibleWidthConcat(a, [item]);
    assert [item][1..] == [];
  }

  /** A long word broken up to `done`: what is kept, and how wide it is. */
  ghost predicate Breaking(lines: seq<Line>, current: Line, currentWidth: int, s0: Style, done: Line, style: Style,
                           word: Line, width: int) {
    && Kept(lines, current, s0, done, style)
    && VisibleWidth(current) == currentWidth
    && (lines != [] ==> current != [])
    && (Sized(word, width) && width > 0 ==> AllFit(lines, width) && currentWidth <= width)
    && (Sized(word, width) && HasGrapheme(done) ==> currentWidth > 0)
  }

  lemma BreakingExtend(lines: seq<Line>, current: Line, currentWidth: int, s0: Style, done: Line, style: Style,
                       item: Item, word: Line, width: int)
    requires Breaking(lines, current, currentWidth, s0, done, style, word, width)
    requires WellFormedItem(item) && item in word
    requires item.Grapheme? ==> currentWidth + item.width <= width || currentWidth == 0
    ensures Breaking(lines, current + [item], currentWidth + ItemWidth(item), s0, done + [item], After(style, item),
                     word, width)
  {
    KeptExtend(lines, current, s0, done, style, [item]);
    FlattenParts(current, item);
    HasInkConcat(done, [item]);
    assert StyleAfter(style, [item]) == After(style, item) by {
      assert [item][1..] == [];
    }
  }

  /** Closes the line under way and starts the next with the active codes. */
  method BreakLine(lines: seq<Line>, currentLine: Line, ghost s0: Style, ghost done: Line, tracker: AnsiCodeTracker)
    returns (lines': seq<Line>, next: Line)
    requires Kept(lines, currentLine, s0, done, tracker.State())
    ensures Kept(lines', next, s0, done, tracker.State()) && VisibleWidth(next) == 0
    ensures |lines'| == |lines| + 1 && lines' == lines + [lines'[|lines|]]
    ensures VisibleWidth(lines'[|lines|]) == VisibleWidth(currentLine)
    ensures Shown(CLEAR, lines'[|lines|]) == Shown(CLEAR, currentLine)
    ensures Shown(CLEAR, next) == [] && StyleAfter(CLEAR, next) == tracker.State()
  {
    hide Shown, StyleAfter, MarksOf, AllMarks, VisibleWidth, LineEndReset, ActiveItems;
    ActiveShowNothing(tracker.State());
    var lineEndReset := tracker.GetLineEndReset();
    LineEndResetIsInvisible(currentLine, tracker.State());
    ResetCloses(currentLine, tracker.State());
    KeptBreak(lines, currentLine, s0, done, tracker.State(), currentLine + lineEndReset);
    lines' := lines + [currentLine + lineEndReset];
    next := tracker.GetActiveCodes();
  }

  /** Adds one grapheme of a long word, on a new line if it does not fit. */
  method BreakGrapheme(lines: seq<Line>, currentLine: Line, currentWidth: int, ghost s0: Style, ghost done: Line,
                       item: Item, ghost word: Line, width: int, tracker: AnsiCodeTracker, ghost lay: Layout)
    returns (lines': seq<Line>, line': Line, width': int, ghost lay': Layout)
    requires Breaking(lines, currentLine, currentWidth, s0, done, tracker.State(), word, width)
    requires |done| < |word| && item == word[|done|] && item.Grapheme? && WellFormedItem(item)
    requires WordLaid(s0, word, lines, lay, currentLine, |done|, tracker.State(), width)
    ensures Breaking(lines', line', width', s0, done + [item], tracker.State(), word, width)
    ensures WordLaid(s0, word, lines', lay', line', |done| + 1, tracker.State(), width)
  {
    hide Kept, MarksOf, AllMarks, StyleAfter, Reachable, WordLaid, Shown;
    lines', line', width', lay' := lines, currentLine, currentWidth, lay;
    var breaks := currentWidth + item.width > width;
    if breaks {
      lines', line' := BreakLine(lines, currentLine, s0, done, tracker);
      width', lay' := 0, Broken(lay, |done|, 0);
      WordBreaks(s0, word, lines, lay, currentLine, |done|, tracker.State(), width, lines'[|lines|], line');
    }
    WordExtends(s0, word, lines', lay', line', |done|, tracker.State(), width);
    KeptExtend(lines', line', s0, done, tracker.State(), [item]);
    NoCodesNoChange(tracker.State(), [item]);
    FlattenParts(line', item);
    line' := line' + [item];
    width' := width' + item.width;
  }

  lemma BreakingStart(s0: Style, word: Line, width: int)
    requires Reachable(s0)
    ensures Breaking([], ActiveItems(s0), 0, s0, [], s0, word, width)
  {
    ActiveItemsRebuild(s0);
    NoInkNoMarks(CLEAR, ActiveItems(s0));
    WidthOfCodes(ActiveItems(s0));
  }

  /** A broken word: all lines but the last are complete, and the last is still to be continued. */
  ghost predicate BrokenWord(lines: seq<Line>, s0: Style, word: Line, style: Style, width: int) {
    && lines != []
    && Kept(lines[..|lines| - 1], lines[|lines| - 1], s0, word, style)
    && (Sized(word, width) && width > 0 ==> AllFit(lines, width))
    && (Sized(word, width) && HasGrapheme(word) ==> VisibleWidth(lines[|lines| - 1]) > 0)
  }

  lemma BreakingEnd(lines: seq<Line>, current: Line, currentWidth: int, s0: Style, word: Line, style: Style, width: int)
    requires Breaking(lines, current, currentWidth, s0, word, style, word, width)
    ensures BrokenWord(lines + [current], s0, word, style, width)
  {
    assert (lines + [current])[..|lines|] == lines;
  }

  /** Adds one item of a long word. */
  method BreakItem(lines: seq<Line>, currentLine: Line, currentWidth: int, ghost s0: Style, ghost done: Line,
                   item: Item, ghost word: Line, width: int, tracker: AnsiCodeTracker, ghost lay: Layout)
    returns (lines': seq<Line>, line': Line, width': int, ghost lay': Layout)
    requires Breaking(lines, currentLine, currentWidth, s0, done, tracker.State(), word, width)
    requires |done| < |word| && item == word[|done|] && WellFormedItem(item)
    requires WordLaid(s0, word, lines, lay, currentLine, |done|, tracker.State(), width)
    modifies tracker
    ensures Breaking(lines', line', width', s0, done + [item], tracker.State(), word, width)
    ensures WordLaid(s0, word, lines', lay', line', |done| + 1, tracker.State(), width)
  {
    hide Breaking, WordLaid;
    lay' := lay;
    if item.Code? {
      WordExtends(s0, word, lines, lay, currentLine, |done|, tracker.State(), width);
      BreakingExtend(lines, currentLine, currentWidth, s0, done, tracker.State(), item, word, width);
      lines', line', width' := lines, currentLine + [item], currentWidth;
      tracker.Process(item.code);
    } else {
      lines', line', width', lay' :=
        BreakGrapheme(lines, currentLine, currentWidth, s0, done, item, word, width, tracker, lay);
    }
  }

  /** Breaks a word that is wider than a line, grapheme by grapheme. */
  method BreakLongWord(word: Line, width: int, tracker: AnsiCodeTracker) returns (lines: seq<Line>, ghost lay: Layout)
    requires WellFormed(word) && Reachable(tracker.State())
    modifies tracker
    ensures BrokenWord(lines, old(tracker.State()), word, tracker.State(), width)
    ensures WordLaid(old(tracker.State()), word, lines[..|lines| - 1], lay, lines[|lines| - 1], |word|, tracker.State(),
                     width)
  {
    hide Kept, BrokenWord, Sized, AllFit, Reachable, StyleAfter, MarksOf, WordLaid, Shown, VisibleWidth;
    lines, lay := [], Layout([], 0);
    ghost var s0 := tracker.State();
    var currentLine := tracker.GetActiveCodes();
    var currentWidth := 0;
    BreakingStart(s0, word, width);
    ActiveShowNothing(s0);
    WordStarts(s0, word, currentLine, width);
    for i := 0 to |word|
      invariant WordLaid(s0, word, lines, lay, currentLine, i, tracker.State(), width)
      invariant Breaking(lines, currentLine, currentWidth, s0, word[..i], tracker.State(), word, width)
    {
      assert word[..i + 1] == word[..i] + [word[i]];
      assert WellFormedItem(word[i]);
      lines, currentLine, currentWidth, lay :=
        BreakItem(lines, currentLine, currentWidth, s0, word[..i], word[i], word, width, tracker, lay);
    }
    assert word[..|word|] == word;
    BreakingEnd(lines, currentLine, currentWidth, s0, word, tracker.State(), width);
    assert (lines + [currentLine])[..|lines|] == lines;
    if currentLine != [] {
      lines := lines + [currentLine];
    }
    if |lines| == 0 {
      lines := [[]];
    }
  }

  // ----- one line -----

  /** Words and spaces wrapped so far: tokens 0..k of a line. */
  ghost predicate Wrapping(wrapped: seq<Line>, current: Line, currentWidth: int, tokens: seq<Line>, k: int,
                           style: Style, width: int, sized: bool)
    requires 0 <= k <= |tokens|
  {
    && Kept(wrapped, current, CLEAR, Flatten(tokens[..k]), style)
    && VisibleWidth(current) == currentWidth
    && (k == 0 ==> current == [])
    && (sized ==> TrimmedFit(wrapped, width) && LineFits(current, currentWidth, k, style, width)
                  && (k > 0 && currentWidth == 0 ==> AllBlank(tokens[k - 1])))
  }

  ghost predicate TrimmedFit(lines: seq<Line>, width: int) {
    forall i :: 0 <= i < |lines| ==> VisibleWidth(TrimEnd(lines[i])) <= width
  }

  /** The line under way fits, or it is nothing but the blanks the whole line began with. */
  ghost predicate LineFits(current: Line, currentWidth: int, k: int, style: Style, width: int) {
    currentWidth <= width || (k == 1 && AllBlank(current) && style == CLEAR)
  }

  lemma LineFitsTrimmed(current: Line, currentWidth: int, k: int, style: Style, width: int)
    requires LineFits(current, currentWidth, k, style, width) && VisibleWidth(current) == currentWidth && width >= 0
    ensures VisibleWidth(TrimEnd(current)) <= width
    ensures VisibleWidth(TrimEnd(current + LineEndReset(style))) <= width
    ensures VisibleWidth(TrimEnd(current) + LineEndReset(style)) <= width
    ensures VisibleWidth(TrimEnd(TrimEnd(current) + LineEndReset(style))) <= width
  {
    TrimEndKeepsMarks(CLEAR, current);
    TrimEndKeepsMarks(CLEAR, current + LineEndReset(style));
    TrimEndKeepsMarks(CLEAR, TrimEnd(current) + LineEndReset(style));
    LineEndResetIsInvisible(current, style);
    LineEndResetIsInvisible(TrimEnd(current), style);
    if currentWidth > width {
      TrimEndOfBlanks(current);
      assert LineEndReset(CLEAR) == [];
      assert current + [] == current;
    }
  }

  lemma {:induction false} FlattenTake(tokens: seq<Line>, k: int)
    requires 0 <= k < |tokens|
    ensures Flatten(tokens[..k + 1]) == Flatten(tokens[..k]) + tokens[k]
  {
    assert tokens[..k + 1] == tokens[..k] + [tokens[k]];
    FlattenSnoc(tokens[..k], tokens[k]);
  }

  lemma {:induction false} GraphemesHaveWidth(line: Line, width: int)
    requires Sized(line, width) && HasGrapheme(line)
    ensures VisibleWidth(line) > 0
    decreases |line|
  {
    if line[0].Code? {
      assert HasGrapheme(line[1..]) by {
        var i :| 0 <= i < |line| && line[i].Grapheme?;
        assert line[1..][i - 1] == line[i];
      }
      GraphemesHaveWidth(line[1..], width);
    }
  }

  /** Joining a broken word to the lines before it. */
  lemma KeptBroken(lines: seq<Line>, done: Line, style: Style, init: seq<Line>, last: Line, token: Line, style': Style)
    requires AllMarks(lines) == MarksOf(CLEAR, done) && style == StyleAfter(CLEAR, done) && AllClosed(lines)
    requires Kept(init, last, style, token, style')
    ensures Kept(lines + init, last, CLEAR, done + token, style')
  {
    hide AllMarks, MarksOf, StyleAfter, Reachable;
    AllMarksConcat(lines, init);
    MarksConcat(CLEAR, done, token);
    StyleAfterConcat(CLEAR, done, token);
    calc {
      AllMarks(lines + init) + MarksOf(CLEAR, last);
      AllMarks(lines) + (AllMarks(init) + MarksOf(CLEAR, last));
    }
  }

  lemma TrimmedFitJoin(a: seq<Line>, b: seq<Line>, width: int)
    requires TrimmedFit(a, width) && AllFit(b, width)
    ensures TrimmedFit(a + b, width)
  {
    forall i | 0 <= i < |b| ensures VisibleWidth(TrimEnd(b[i])) <= width {
      TrimEndKeepsMarks(CLEAR, b[i]);
    }
  }

  /** A token wider than a line: close the line under way, then break the token. */
  method WrapLongToken(wrapped: seq<Line>, currentLine: Line, ghost currentWidth: int, token: Line, width: int,
                       tracker: AnsiCodeTracker, ghost tokens: seq<Line>, ghost k: int, ghost sized: bool,
                       ghost line: Line, ghost lay: Layout)
    returns (wrapped': seq<Line>, line': Line, ghost lay': Layout)
    requires 0 <= k < |tokens| && token == tokens[k] && WellFormed(token)
    requires VisibleWidth(token) > width && !AllBlank(token)
    requires LineLaid(line, tokens, wrapped, lay, currentLine, k, tracker.State(), width)
    requires Wrapping(wrapped, currentLine, currentWidth, tokens, k, tracker.State(), width, sized)
    requires sized ==> Sized(token, width) && HasGrapheme(token) && width > 0
    modifies tracker
    ensures LineLaid(line, tokens, wrapped', lay', line', k + 1, tracker.State(), width)
    ensures Wrapping(wrapped', line', VisibleWidth(line'), tokens, k + 1, tracker.State(), width, sized)
  {
    hide Sized, LineFits, TrimmedFit, StyleAfter, AllMarks, MarksOf, LineLaid, WordLaid, VisibleWidth, Reachable,
         ActiveItems;
    ghost var style, done := tracker.State(), Flatten(tokens[..k]);
    wrapped' := CloseBeforeLong(wrapped, currentLine, currentWidth, done, k, style, width, tracker, sized);
    ghost var start := if currentLine == [] then lay else Broken(lay, Offset(tokens, k), k);
    StartsLine(line, tokens, wrapped, wrapped', lay, currentLine, k, style, width);
    var broken, wordLay := BreakLongWord(token, width, tracker);
    KeptBroken(wrapped', done, style, broken[..|broken| - 1], broken[|broken| - 1], token, tracker.State());
    lay' := Joined(start, wordLay, Offset(tokens, k), k);
    LineJoins(line, tokens, wrapped', start, if currentLine == [] then [] else ActiveItems(style), k, style, width,
              broken[..|broken| - 1], wordLay, broken[|broken| - 1], tracker.State());
    LongWrapped(wrapped', broken, tokens, k, style, tracker.State(), width, sized);
    wrapped' := wrapped' + broken[..|broken| - 1];
    line' := broken[|broken| - 1];
  }

  lemma LongWrapped(wrapped: seq<Line>, broken: seq<Line>, tokens: seq<Line>, k: nat, style: Style, style': Style,
                    width: int,
                    sized: bool)
    requires k < |tokens| && BrokenWord(broken, style, tokens[k], style', width)
    requires Kept(wrapped + broken[..|broken| - 1], broken[|broken| - 1], CLEAR, Flatten(tokens[..k]) + tokens[k],
                  style')
    requires sized ==> TrimmedFit(wrapped, width) && Sized(tokens[k], width) && HasGrapheme(tokens[k]) && width > 0
    ensures Wrapping(wrapped + broken[..|broken| - 1], broken[|broken| - 1], VisibleWidth(broken[|broken| - 1]),
                     tokens, k + 1, style', width, sized)
  {
    hide Kept, Sized, TrimmedFit, VisibleWidth, Flatten, HasGrapheme;
    FlattenTake(tokens, k);
    if sized {
      TrimmedFitJoin(wrapped, broken[..|broken| - 1], width);
    }
  }

  /** Closes the line under way, if there is one, before a long token. */
  method CloseBeforeLong(wrapped: seq<Line>, currentLine: Line, ghost currentWidth: int, ghost done: Line, ghost k: int,
                         ghost style: Style, ghost width: int, tracker: AnsiCodeTracker, ghost sized: bool)
    returns (wrapped': seq<Line>)
    requires Kept(wrapped, currentLine, CLEAR, done, style) && style == tracker.State()
    requires sized ==> TrimmedFit(wrapped, width) && LineFits(currentLine, currentWidth, k, style, width)
                       && VisibleWidth(currentLine) == currentWidth && width > 0
    ensures AllMarks(wrapped') == MarksOf(CLEAR, done) && style == StyleAfter(CLEAR, done) && AllClosed(wrapped')
    ensures Reachable(style)
    ensures sized ==> TrimmedFit(wrapped', width)
    ensures if currentLine == [] then wrapped' == wrapped
            else |wrapped'| == |wrapped| + 1 && wrapped' == wrapped + [wrapped'[|wrapped|]]
                 && Shown(CLEAR, wrapped'[|wrapped|]) == Shown(CLEAR, currentLine)
  {
    wrapped' := wrapped;
    NoMarks();
    if currentLine != [] {
      var lineEndReset := tracker.GetLineEndReset();
      LineEndResetIsInvisible(currentLine, style);
      ResetCloses(currentLine, style);
      KeptBreak(wrapped, currentLine, CLEAR, done, style, currentLine + lineEndReset);
      ActiveItemsRebuild(style);
      NoInkNoMarks(CLEAR, ActiveItems(style));
      if sized {
        LineFitsTrimmed(currentLine, currentWidth, k, style, width);
      }
      wrapped' := wrapped + [currentLine + lineEndReset];
    }
  }

  lemma StartsLine(line: Line, tokens: seq<Line>, wrapped: seq<Line>, wrapped': seq<Line>, lay: Layout, current: Line,
                   k: nat,
                   style: Style, width: int)
    requires k < |tokens| && LineLaid(line, tokens, wrapped, lay, current, k, style, width) && Reachable(style)
    requires VisibleWidth(tokens[k]) > width && !AllBlank(tokens[k])
    requires if current == [] then wrapped' == wrapped
             else |wrapped'| == |wrapped| + 1 && wrapped' == wrapped + [wrapped'[|wrapped|]]
                  && Shown(CLEAR, wrapped'[|wrapped|]) == Shown(CLEAR, current)
    ensures var start := if current == [] then lay else Broken(lay, Offset(tokens, k), k);
      start.from == Offset(tokens, k)
      && LineLaid(line, tokens, wrapped', start, if current == [] then [] else ActiveItems(style), k, style, width)
  {
    hide Shown, StyleAfter, VisibleWidth, Flatten, AllBlank, ActiveItems, Reachable;
    if current != [] {
      ActiveShowNothing(style);
      TrimmedSame(Shown(CLEAR, current));
      LineBreaks(line, tokens, wrapped, lay, current, k, style, width, wrapped'[|wrapped|], ActiveItems(style));
    }
  }

  /** A token that goes on the line under way, or starts the next one. */
  method WrapToken(wrapped: seq<Line>, currentLine: Line, currentWidth: int, token: Line, isWhitespace: bool,
                   width: int,
                   tracker: AnsiCodeTracker, ghost tokens: seq<Line>, ghost k: int, ghost sized: bool,
                   ghost line: Line, ghost lay: Layout)
    returns (wrapped': seq<Line>, line': Line, width': int, ghost lay': Layout)
    requires 0 <= k < |tokens| && token == tokens[k] && WellFormed(token)
    requires LineLaid(line, tokens, wrapped, lay, currentLine, k, tracker.State(), width)
    requires Wrapping(wrapped, currentLine, currentWidth, tokens, k, tracker.State(), width, sized)
    requires isWhitespace == AllBlank(token) && (VisibleWidth(token) <= width || isWhitespace)
    requires sized ==> Sized(token, width) && HasGrapheme(token) && width > 0
    requires sized && k > 0 ==> HasInk(tokens[k - 1]) || HasInk(token)
    modifies tracker
    ensures LineLaid(line, tokens, wrapped', lay', line', k + 1, tracker.State(), width)
    ensures Wrapping(wrapped', line', width', tokens, k + 1, tracker.State(), width, sized)
  {
    ghost var style, done := tracker.State(), Flatten(tokens[..k]);
    var tokenWidth := VisibleWidth(token);
    wrapped', line', width', lay' := wrapped, currentLine, currentWidth, lay;
    if sized {
      GraphemesHaveWidth(token, width);
    }
    if currentWidth + tokenWidth > width && currentWidth > 0 {
      wrapped', line' := WrapHere(wrapped, currentLine, currentWidth, done, k, width, tracker, sized);
      width' := 0;
      if isWhitespace {
        LineSkips(line, tokens, wrapped, lay, currentLine, k, style, width, wrapped'[|wrapped|], line');
        lay' := Skipped(Broken(lay, Offset(tokens, k), k), Offset(tokens, k) + |token|);
        KeptDropBlanks(wrapped', line', done, style, token);
        NoCodesNoChange(style, token);
      } else {
        LineBreaks(line, tokens, wrapped, lay, currentLine, k, style, width, wrapped'[|wrapped|], line');
        lay' := Broken(lay, Offset(tokens, k), k);
        LineExtends(line, tokens, wrapped', lay', line', k, style, width);
        KeptExtend(wrapped', line', CLEAR, done, style, token);
        VisibleWidthConcat(line', token);
        line', width' := line' + token, tokenWidth;
      }
    } else {
      LineExtends(line, tokens, wrapped, lay, currentLine, k, style, width);
      KeptExtend(wrapped', line', CLEAR, done, style, token);
      VisibleWidthConcat(line', token);
      if sized && isWhitespace {
        BlankTokenFits(currentLine, currentWidth, tokens, k, style, width);
        NoCodesNoChange(style, token);
      }
      line', width' := line' + token, currentWidth + tokenWidth;
    }
    tracker.UpdateFromItems(token);
    FlattenTake(tokens, k);
  }

  lemma KeptDropBlanks(lines: seq<Line>, current: Line, done: Line, style: Style, token: Line)
    requires Kept(lines, current, CLEAR, done, style) && AllBlank(token)
    ensures Kept(lines, current, CLEAR, done + token, style)
  {
    MarksConcat(CLEAR, done, token);
    StyleAfterConcat(CLEAR, done, token);
    NoInkNoMarks(style, token);
    NoCodesNoChange(style, token);
  }

  /** A run of blanks wider than the room left is only ever added at the very start of the line. */
  lemma BlankTokenFits(current: Line, currentWidth: int, tokens: seq<Line>, k: int, style: Style, width: int)
    requires 0 <= k < |tokens| && AllBlank(tokens[k])
    requires VisibleWidth(current) == currentWidth && style == StyleAfter(CLEAR, current)
    requires k == 0 ==> current == []
    requires k > 0 ==> HasInk(tokens[k - 1]) || HasInk(tokens[k])
    requires k > 0 && currentWidth == 0 ==> AllBlank(tokens[k - 1])
    requires currentWidth + VisibleWidth(tokens[k]) <= width || currentWidth == 0
    ensures LineFits(current + tokens[k], currentWidth + VisibleWidth(tokens[k]), k + 1, style, width)
  {
    if k == 0 {
      assert [] + tokens[k] == tokens[k];
    }
  }

  /** Closes the line under way without its trailing blanks. */
  method WrapHere(wrapped: seq<Line>, currentLine: Line, ghost currentWidth: int, ghost done: Line, ghost k: int,
                  ghost width: int, tracker: AnsiCodeTracker, ghost sized: bool)
    returns (wrapped': seq<Line>, line': Line)
    requires Kept(wrapped, currentLine, CLEAR, done, tracker.State()) && VisibleWidth(currentLine) == currentWidth
    requires sized ==>
               TrimmedFit(wrapped, width) && LineFits(currentLine, currentWidth, k, tracker.State(), width) && width > 0
    ensures Kept(wrapped', line', CLEAR, done, tracker.State()) && VisibleWidth(line') == 0
    ensures sized ==> TrimmedFit(wrapped', width)
    ensures |wrapped'| == |wrapped| + 1 && wrapped' == wrapped + [wrapped'[|wrapped|]]
    ensures Trimmed(Shown(CLEAR, wrapped'[|wrapped|]), Shown(CLEAR, currentLine))
    ensures Shown(CLEAR, line') == [] && StyleAfter(CLEAR, line') == tracker.State()
  {
    ActiveShowNothing(tracker.State());
    TrimEndShows(CLEAR, currentLine);
    var lineToWrap := TrimEnd(currentLine);
    var lineEndReset := tracker.GetLineEndReset();
    TrimEndKeepsMarks(CLEAR, currentLine);
    TrimEndKeepsStyle(CLEAR, currentLine);
    LineEndResetIsInvisible(lineToWrap, tracker.State());
    ResetCloses(lineToWrap, tracker.State());
    KeptBreak(wrapped, currentLine, CLEAR, done, tracker.State(), lineToWrap + lineEndReset);
    if sized {
      LineFitsTrimmed(currentLine, currentWidth, k, tracker.State(), width);
    }
    wrapped' := wrapped + [lineToWrap + lineEndReset];
    line' := tracker.GetActiveCodes();
  }

  method TrimAll(lines: seq<Line>) returns (r: seq<Line>)
    ensures |r| == |lines| && AllMarks(r) == AllMarks(lines)
    ensures forall i :: 0 <= i < |lines| ==> Closed(r[i]) == Closed(lines[i])
    ensures forall i :: 0 <= i < |lines| ==> r[i] == TrimEnd(lines[i])
  {
    hide MarksOf, TrimEnd, VisibleWidth;
    r := [];
    for i := 0 to |lines|
      invariant |r| == i && AllMarks(r) == AllMarks(lines[..i])
      invariant forall k :: 0 <= k < i ==> r[k] == TrimEnd(lines[k]) && Closed(r[k]) == Closed(lines[k])
    {
      assert lines[..i + 1] == lines[..i] + [lines[i]];
      AllMarksConcat(lines[..i], [lines[i]]);
      AllMarksConcat(r, [TrimEnd(lines[i])]);
      AllMarksOne(lines[i]);
      AllMarksOne(TrimEnd(lines[i]));
      TrimEndKeepsMarks(CLEAR, lines[i]);
      TrimEndKeepsStyle(CLEAR, lines[i]);
      r := r + [TrimEnd(lines[i])];
    }
    assert lines[..|lines|] == lines;
  }

  predicate IsWhitespaceToken(token: Line) {
    AllBlank(token)
  }

  lemma WideHasGrapheme(line: Line)
    requires VisibleWidth(line) > 0
    ensures HasGrapheme(line)
  {
    if !HasGrapheme(line) {
      WidthOfCodes(line);
    }
  }

  /** Facts about the tokens of a line that the wrapping of one token relies on. */
  lemma TokenFacts(line: Line, tokens: seq<Line>, isCjk: string -> bool, k: int, width: int, sized: bool)
    requires 0 <= k < |tokens| && WellFormed(line)
    requires Tokenized(tokens, line, isCjk)
    requires sized ==> Sized(line, width) && OnlySpaces(line)
    ensures WellFormed(tokens[k])
    ensures sized ==> Sized(tokens[k], width) && HasGrapheme(tokens[k])
    ensures sized && k > 0 ==> HasInk(tokens[k - 1]) || HasInk(tokens[k])
  {
    TokenInside(tokens, k);
    if sized {
      TokensAlternate(tokens, line, isCjk);
    }
    forall i | 0 <= i < |tokens[k]|
      ensures WellFormedItem(tokens[k][i]) && (sized && tokens[k][i].Grapheme? ==> 1 <= tokens[k][i].width <= width)
    {
      assert tokens[k][i] in line;
    }
  }

  /** Wraps one line. Its inked graphemes come out in order, each in the style it had; when spaces
      are the only blanks and every grapheme fits, so does every line. Every line but the last ends with
      underline and hyperlink off. */
  method WrapSingleLine(line: Line, width: nat, isCjk: string -> bool) returns (lines: seq<Line>)
    requires WellFormed(line)
    ensures lines != []
    ensures AllMarks(lines) == MarksOf(CLEAR, line)
    ensures AllClosed(lines[..|lines| - 1])
    ensures Sized(line, width) && OnlySpaces(line) && width > 0 ==> AllFit(lines, width)
    ensures WrapOf(line, lines, width, isCjk)
  {
    hide AllMarks, MarksOf, TrimmedFit, LineFits, StyleAfter, Flatten, WellFormed, Wrapping, AllClosed, HasGrapheme,
         VisibleWidth,
         LineLaid, LaidOut, Tokenized;
    AllMarksOne(line);
    NothingClosed();
    if line == [] || VisibleWidth(line) <= width {
      EmptyIsNarrow(line, width);
      return [line];
    }
    ghost var sized := Sized(line, width) && OnlySpaces(line) && width > 0;
    WideHasGrapheme(line);
    var wrapped: seq<Line> := [];
    var tracker := new AnsiCodeTracker();
    var tokens := SplitIntoTokensWithAnsi(line, isCjk);
    var currentLine: Line := [];
    var currentWidth := 0;
    WrappingStarts(tokens, width, sized);
    ghost var lay := Layout([], 0);
    LineStarts(line, tokens, width);
    for k := 0 to |tokens|
      invariant fresh(tracker)
      invariant Wrapping(wrapped, currentLine, currentWidth, tokens, k, tracker.State(), width, sized)
      invariant LineLaid(line, tokens, wrapped, lay, currentLine, k, tracker.State(), width)
    {
      var token := tokens[k];
      TokenFacts(line, tokens, isCjk, k, width, sized);
      var isWhitespace := IsWhitespaceToken(token);
      if VisibleWidth(token) > width && !isWhitespace {
        wrapped, currentLine, lay :=
          WrapLongToken(wrapped, currentLine, currentWidth, token, width, tracker, tokens, k, sized, line, lay);
        currentWidth := VisibleWidth(currentLine);
      } else {
        wrapped, currentLine, currentWidth, lay :=
          WrapToken(wrapped, currentLine, currentWidth, token, isWhitespace, width, tracker, tokens, k, sized, line,
                    lay);
      }
    }
    WrappingEnds(wrapped, currentLine, currentWidth, tokens, tracker.State(), line, width, sized);
    LineEnds(line, tokens, wrapped, lay, currentLine, tracker.State(), width);
    lines := FinishWrap(wrapped, currentLine, currentWidth, |tokens|, tracker.State(), line, width, sized, tokens,
                        Closing(lay, currentLine, |line|));
  }

  lemma NothingClosed()
    ensures AllClosed([])
  {
  }

  lemma EmptyIsNarrow(line: Line, width: nat)
    ensures line == [] ==> VisibleWidth(line) <= width
  {
  }

  lemma WrappingStarts(tokens: seq<Line>, width: nat, sized: bool)
    requires sized ==> width > 0
    ensures Wrapping([], [], 0, tokens, 0, CLEAR, width, sized)
  {
  }

  lemma WrappingEnds(wrapped: seq<Line>, current: Line, currentWidth: int, tokens: seq<Line>, style: Style, line: Line,
                     width: int, sized: bool)
    requires Wrapping(wrapped, current, currentWidth, tokens, |tokens|, style, width, sized) && Flatten(tokens) == line
    ensures Kept(wrapped, current, CLEAR, line, style) && VisibleWidth(current) == currentWidth
    ensures sized ==> TrimmedFit(wrapped, width) && LineFits(current, currentWidth, |tokens|, style, width)
  {
    assert tokens[..|tokens|] == tokens;
  }

  lemma NoMarks()
    ensures MarksOf(CLEAR, []) == []
  {
  }

  /** Adds the line under way and trims every line. */
  method FinishWrap(wrapped: seq<Line>, currentLine: Line, ghost currentWidth: int, ghost k: int, ghost style: Style,
                    ghost line: Line, ghost width: int, ghost sized: bool, ghost tokens: seq<Line>,
                        ghost segs: seq<Seg>)
    returns (lines: seq<Line>)
    requires LaidOut(line, tokens, if currentLine == [] then wrapped else wrapped + [currentLine], segs, width)
    requires Kept(wrapped, currentLine, CLEAR, line, style) && VisibleWidth(currentLine) == currentWidth
    requires sized ==> TrimmedFit(wrapped, width) && LineFits(currentLine, currentWidth, k, style, width) && width > 0
    ensures LaidOut(line, tokens, lines, segs, width)
    ensures lines != [] && AllMarks(lines) == MarksOf(CLEAR, line) && AllClosed(lines[..|lines| - 1])
    ensures sized ==> AllFit(lines, width)
  {
    hide Closed, MarksOf, StyleAfter, Reachable, LineFits, TrimEnd;
    NoMarks();
    var all := wrapped;
    if currentLine != [] {
      AllMarksConcat(wrapped, [currentLine]);
      AllMarksOne(currentLine);
      if sized {
        LineFitsTrimmed(currentLine, currentWidth, k, style, width);
      }
      all := wrapped + [currentLine];
    }
    if |all| > 0 {
      lines := TrimAll(all);
      LaidTrims(CLEAR, line, all, lines, segs);
    } else {
      AllMarksOne([]);
      lines := [[]];
    }
  }

  // ----- a whole text -----

  /** The lines between line breaks. */
  function SplitLines(text: Line): (lines: seq<Line>)
    ensures lines != []
    decreases |text|
  {
    if text == [] then [[]]
    else
      var rest := SplitLines(text[1..]);
      if IsLineBreak(text[0]) then [[]] + rest else [[text[0]] + rest[0]] + rest[1..]
  }

  // ----- splitting before reading -----

  predicate HasBreak(s: string) {
    '\r' in s || '\n' in s
  }

  /** How the source splits: the raw text, at CR LF, CR or LF, before any code is recognised. */
  function RawLines(s: string): (lines: seq<string>)
    ensures lines != []
    decreases |s|
  {
    if s == "" then [""]
    else if s[0] == '\r' && |s| > 1 && s[1] == '\n' then [""] + RawLines(s[2..])
    else if s[0] == '\r' || s[0] == '\n' then [""] + RawLines(s[1..])
    else
      var rest := RawLines(s[1..]);
      [[s[0]] + rest[0]] + rest[1..]
  }

  function Texts(lines: seq<Line>): seq<string> {
    seq(|lines|, i requires 0 <= i < |lines| => TextOf(lines[i]))
  }

  /** As grapheme segmentation leaves it: line breaks are graphemes of their own, CR LF a single one. */
  ghost predicate Segmented(text: Line) {
    && (forall i :: 0 <= i < |text| && text[i].Grapheme? && HasBreak(text[i].text) ==> IsLineBreak(text[i]))
    && (forall i :: 0 <= i < |text| - 1 && text[i].Grapheme? && text[i].text == "\r" ==>
          !(text[i + 1].Grapheme? && text[i + 1].text == "\n"))
  }

  /** No code holds a line break. */
  ghost predicate OneLineCodes(text: Line) {
    forall i :: 0 <= i < |text| && text[i].Code? ==> !HasBreak(text[i].code)
  }

  function TextOfItem(item: Item): string {
    if item.Code? then item.code else item.text
  }

  /** A piece in front of a text, when it does not end in the CR of a CR LF: its own breaks split it further. */
  lemma {:induction false} RawPrepend(u: string, rest: string)
    requires u != "" ==> u[|u| - 1] != '\r' || rest == "" || rest[0] != '\n'
    ensures |RawLines(u + rest)| >= |RawLines(rest)| + (if HasBreak(u) then 1 else 0)
    ensures !HasBreak(u) ==> RawLines(u + rest) == [u + RawLines(rest)[0]] + RawLines(rest)[1..]
    decreases |u|
  {
    if u == "" {
      assert u + rest == rest && u + RawLines(rest)[0] == RawLines(rest)[0];
    } else if |u| > 1 && u[0] == '\r' && u[1] == '\n' {
      assert (u + rest)[2..] == u[2..] + rest;
      RawPrepend(u[2..], rest);
    } else {
      assert (u + rest)[1..] == u[1..] + rest;
      RawPrepend(u[1..], rest);
      assert HasBreak(u[1..]) ==> HasBreak(u);
      if !HasBreak(u) {
        assert u[0] in u && [u[0]] + (u[1..] + RawLines(rest)[0]) == u + RawLines(rest)[0];
      }
    }
  }

  lemma CodeEndsPlain(code: string)
    requires IsCode(code)
    ensures |code| > 2 && code[0] == ESC && code[|code| - 1] != '\r'
  {
    assert code[..|code|] == code;
    if code[1] != '[' {
      StringEndPrefix(code, "", 2);
    }
  }

  /** What follows a lone CR does not begin with LF. */
  lemma AfterReturn(text: Line)
    requires WellFormed(text) && Segmented(text) && text != [] && text[0].Grapheme? && text[0].text == "\r"
    ensures TextOf(text[1..]) == "" || TextOf(text[1..])[0] != '\n'
  {
    if |text| > 1 {
      var next := text[1];
      assert WellFormedItem(next) && TextOf(text[1..]) == TextOfItem(next) + TextOf(text[1..][1..]);
      if next.Code? {
        CodeEndsPlain(next.code);
      } else {
        assert next.text[0] in next.text;
      }
    }
  }

  /** One item more in front, in the raw text. */
  lemma RawStep(text: Line)
    requires WellFormed(text) && Segmented(text) && text != []
    ensures var item, raw := text[0], RawLines(TextOf(text[1..]));
      && (IsLineBreak(item) ==> RawLines(TextOf(text)) == [""] + raw)
      && (!HasBreak(TextOfItem(item)) ==>
            !IsLineBreak(item) && RawLines(TextOf(text)) == [TextOfItem(item) + raw[0]] + raw[1..])
      && (!IsLineBreak(item) && HasBreak(TextOfItem(item)) ==> item.Code? && |RawLines(TextOf(text))| > |raw|)
  {
    hide RawLines, CodeAtStart;
    var item, rest := text[0], TextOf(text[1..]);
    assert WellFormedItem(item) && TextOf(text) == TextOfItem(item) + rest;
    if IsLineBreak(item) {
      if item.text == "\r" {
        AfterReturn(text);
      }
      RawBreak(item.text, rest);
      assert item.text[0] in item.text;
    } else if item.Code? {
      CodeEndsPlain(item.code);
      RawPrepend(item.code, rest);
    } else {
      assert item.text[|item.text| - 1] in item.text;
      RawPrepend(item.text, rest);
    }
  }

  lemma RawBreak(u: string, rest: string)
    requires u == "\n" || u == "\r" || u == "\r\n"
    requires u == "\r" ==> rest == "" || rest[0] != '\n'
    ensures RawLines(u + rest) == [""] + RawLines(rest)
  {
    assert (u + rest)[|u|..] == rest;
  }

  lemma TailReads(text: Line)
    requires WellFormed(text) && Segmented(text) && text != []
    ensures WellFormed(text[1..]) && Segmented(text[1..])
    ensures OneLineCodes(text) <==> OneLineCodes(text[1..]) && (text[0].Code? ==> !HasBreak(text[0].code))
  {
    var rest := text[1..];
    assert forall i :: 0 <= i < |rest| ==> rest[i] == text[i + 1];
    assert forall i :: 1 <= i < |text| ==> text[i] == rest[i - 1];
    forall i | 0 <= i < |rest|
      ensures WellFormedItem(rest[i])
    {
      assert WellFormedItem(text[i + 1]);
    }
  }

  /** The raw text splits into at least as many lines as the items do, and into more when a code is cut. */
  lemma {:induction false} RawSplitCount(text: Line)
    requires WellFormed(text) && Segmented(text)
    ensures |RawLines(TextOf(text))| >= |SplitLines(text)| + (if OneLineCodes(text) then 0 else 1)
    decreases |text|
  {
    hide RawLines, HasBreak, WellFormed, Segmented, OneLineCodes;
    if text == [] {
      NoLines();
    } else {
      TailReads(text);
      RawSplitCount(text[1..]);
      RawStep(text);
    }
  }

  lemma NoLines()
    ensures RawLines(TextOf([])) == [""] && Texts(SplitLines([])) == [""] && OneLineCodes([])
  {
  }

  lemma {:induction false} RawSplitAgrees(text: Line)
    requires WellFormed(text) && Segmented(text) && OneLineCodes(text)
    ensures RawLines(TextOf(text)) == Texts(SplitLines(text))
    decreases |text|
  {
    hide RawLines, HasBreak, WellFormed, Segmented, OneLineCodes, TextOf, Texts, TextOfItem;
    if text == [] {
      NoLines();
    } else {
      TailReads(text);
      RawSplitAgrees(text[1..]);
      RawStep(text);
      CodeText(text[0]);
      TextsOf(text[0], SplitLines(text[1..]));
    }
  }

  lemma CodeText(item: Item)
    ensures item.Code? ==> TextOfItem(item) == item.code
  {
  }

  lemma TextsOf(item: Item, rest: seq<Line>)
    requires rest != []
    ensures |Texts(rest)| == |rest| && Texts([[]] + rest) == [""] + Texts(rest)
    ensures Texts([[item] + rest[0]] + rest[1..]) == [TextOfItem(item) + Texts(rest)[0]] + Texts(rest)[1..]
  {
    assert ([item] + rest[0])[1..] == rest[0];
    assert TextOf([item] + rest[0]) == TextOfItem(item) + TextOf(rest[0]);
  }

  /** Splitting the raw text, as the source does, is splitting the items if and only if no code holds a line
      break: such a code is cut in two. */
  lemma RawSplitExactly(text: Line)
    requires WellFormed(text) && Segmented(text)
    ensures RawLines(TextOf(text)) == Texts(SplitLines(text)) <==> OneLineCodes(text)
  {
    hide RawLines, SplitLines, WellFormed, Segmented, OneLineCodes;
    RawSplitCount(text);
    if OneLineCodes(text) {
      RawSplitAgrees(text);
    }
  }

  /** What is left of a cut code at the end of its line is no code any more: its characters are shown. */
  lemma CutCodeIsShown(code: string, j: nat)
    requires IsCode(code) && j < |code| && (code[j] == '\r' || code[j] == '\n')
    ensures j >= 2 && CodeAtStart(code[..j]).None?
  {
    assert code[..|code|] == code;
    if j >= 2 {
      var cut := code[..j];
      if code[1] == '[' {
        assert forall k :: 2 <= k < j ==> cut[k] == code[k] && !IsCsiEnd(cut[k]);
      } else {
        NoTerminatorBefore(code, j, 2);
      }
    }
  }

  lemma {:induction false} NoTerminatorBefore(code: string, j: nat, i: nat)
    requires i <= j < |code| && StringEnd(code, i) == Some(|code|)
    requires code[j] == '\r' || code[j] == '\n'
    ensures StringEnd(code[..j], i).None?
    decreases j - i
  {
    if i < j {
      NoTerminatorBefore(code, j, i + 1);
    }
  }

  const BROKEN_LINK: string := OSC8 + ";a\nb" + [BEL]

  /** The opening code of a hyperlink whose address holds a line break is such a code. */
  lemma BrokenLinkIsCut()
    ensures IsCode(BROKEN_LINK) && Segmented([Code(BROKEN_LINK)]) && WellFormed([Code(BROKEN_LINK)])
    ensures RawLines(TextOf([Code(BROKEN_LINK)])) != Texts(SplitLines([Code(BROKEN_LINK)]))
  {
    var c := BROKEN_LINK;
    assert |c| == 9 && c[5] == 'a' && c[6] == '\n' && c[7] == 'b' && c[8] == BEL;
    assert forall k :: 2 <= k < 8 ==> c[k] != BEL && c[k] != ESC;
    assert StringEnd(c, 8) == Some(9) && StringEnd(c, 7) == Some(9) && StringEnd(c, 6) == Some(9);
    assert StringEnd(c, 5) == Some(9) && StringEnd(c, 4) == Some(9) && StringEnd(c, 3) == Some(9);
    assert c[..9] == c;
    assert c[6] in c;
    RawSplitExactly([Code(c)]);
  }

  /** The marks of consecutive lines, the style running on from one to the next. */
  function RunningMarks(s: Style, lines: seq<Line>): seq<Mark>
    decreases |lines|
  {
    if lines == [] then [] else MarksOf(s, lines[0]) + RunningMarks(StyleAfter(s, lines[0]), lines[1..])
  }

  function RunningStyle(s: Style, lines: seq<Line>): Style
    decreases |lines|
  {
    if lines == [] then s else RunningStyle(StyleAfter(s, lines[0]), lines[1..])
  }

  lemma {:induction false} SplitLinesKeepsMarks(s: Style, text: Line)
    ensures RunningMarks(s, SplitLines(text)) == MarksOf(s, text)
    decreases |text|
  {
    var lines := SplitLines(text);
    if text == [] {
      assert lines[1..] == [];
    } else {
      var rest := SplitLines(text[1..]);
      SplitLinesKeepsMarks(After(s, text[0]), text[1..]);
      if IsLineBreak(text[0]) {
        assert lines[1..] == rest;
      } else {
        var first := [text[0]] + rest[0];
        assert lines[0] == first && lines[1..] == rest[1..];
        assert first[1..] == rest[0];
      }
    }
  }

  lemma {:induction false} RunningSnoc(s: Style, lines: seq<Line>, line: Line)
    ensures RunningMarks(s, lines + [line]) == RunningMarks(s, lines) + MarksOf(RunningStyle(s, lines), line)
    ensures RunningStyle(s, lines + [line]) == StyleAfter(RunningStyle(s, lines), line)
    decreases |lines|
  {
    if lines == [] {
      assert [line][1..] == [];
    } else {
      assert (lines + [line])[1..] == lines[1..] + [line];
      RunningSnoc(StyleAfter(s, lines[0]), lines[1..], line);
    }
  }

  lemma {:induction false} SplitLinesInside(text: Line, k: int)
    requires 0 <= k < |SplitLines(text)|
    ensures forall item :: item in SplitLines(text)[k] ==> item in text
    decreases |text|
  {
    if text != [] {
      var rest := SplitLines(text[1..]);
      if IsLineBreak(text[0]) {
        if k > 0 { SplitLinesInside(text[1..], k - 1); }
      } else {
        SplitLinesInside(text[1..], k);
        if k == 0 { SplitLinesInside(text[1..], 0); }
      }
    }
  }

  /** Text that wrapping can keep within the width: spaces are its only blanks besides line breaks,
      and every other grapheme is one to `width` columns wide. */
  ghost predicate Wrappable(text: Line, width: int) {
    forall i :: 0 <= i < |text| && text[i].Grapheme? && !IsLineBreak(text[i]) ==>
      1 <= text[i].width <= width && (IsBlank(text[i]) ==> text[i].text == " ")
  }

  lemma {:induction false} SplitLinesHaveNoBreaks(text: Line, k: int)
    requires 0 <= k < |SplitLines(text)|
    ensures forall i :: 0 <= i < |SplitLines(text)[k]| ==> !IsLineBreak(SplitLines(text)[k][i])
    decreases |text|
  {
    if text != [] {
      if IsLineBreak(text[0]) {
        if k > 0 { SplitLinesHaveNoBreaks(text[1..], k - 1); }
      } else {
        SplitLinesHaveNoBreaks(text[1..], k);
      }
    }
  }

  lemma InputLineFacts(text: Line, k: int, prefix: Line, width: int)
    requires 0 <= k < |SplitLines(text)| && WellFormed(text) && AllCodes(prefix)
    ensures WellFormed(SplitLines(text)[k]) && WellFormed(prefix + SplitLines(text)[k])
    ensures Wrappable(text, width) ==>
      Sized(prefix + SplitLines(text)[k], width) && OnlySpaces(prefix + SplitLines(text)[k])
  {
    SplitLinesInside(text, k);
    SplitLinesHaveNoBreaks(text, k);
    var line := SplitLines(text)[k];
    forall i | 0 <= i < |line| ensures WellFormedItem(line[i]) {
      assert line[i] in text;
    }
    if Wrappable(text, width) {
      forall i | 0 <= i < |line| && line[i].Grapheme?
        ensures 1 <= line[i].width <= width && (IsBlank(line[i]) ==> line[i].text == " ")
      {
        assert line[i] in text;
      }
    }
  }

  /** Input lines 0..k have been wrapped into `result`, leaving style `s`. */
  ghost predicate WrappedUpTo(text: Line, k: int, result: seq<Line>, s: Style, width: nat)
    requires 0 <= k <= |SplitLines(text)|
  {
    && Reachable(s)
    && s == RunningStyle(CLEAR, SplitLines(text)[..k])
    && AllMarks(result) == RunningMarks(CLEAR, SplitLines(text)[..k])
    && (Wrappable(text, width) && width > 0 ==> AllFit(result, width))
    && (k > 0 ==> result != [])
  }

  lemma WrapNextLine(text: Line, k: int, result: seq<Line>, s: Style, lines: seq<Line>, width: nat)
    requires WellFormed(text) && 0 <= k < |SplitLines(text)| && WrappedUpTo(text, k, result, s, width)
    requires lines != [] && AllMarks(lines) == MarksOf(s, SplitLines(text)[k])
    requires Wrappable(text, width) && width > 0 ==> AllFit(lines, width)
    ensures WrappedUpTo(text, k + 1, result + lines, StyleAfter(s, SplitLines(text)[k]), width)
  {
    var input := SplitLines(text);
    AllMarksConcat(result, lines);
    RunningSnoc(CLEAR, input[..k], input[k]);
    assert input[..k + 1] == input[..k] + [input[k]];
    InputLineFacts(text, k, [], width);
    StyleAfterIsReachable(s, input[k]);
  }

  function AllLines(pieces: seq<seq<Line>>): seq<Line> {
    if pieces == [] then [] else AllLines(pieces[..|pieces| - 1]) + pieces[|pieces| - 1]
  }

  lemma AllLinesSnoc(pieces: seq<seq<Line>>, piece: seq<Line>)
    ensures AllLines(pieces + [piece]) == AllLines(pieces) + piece
  {
    assert (pieces + [piece])[..|pieces|] == pieces;
  }

  /** Input line k behind the codes in force where it begins. */
  function InputLine(text: Line, k: nat): Line
    requires k < |SplitLines(text)|
  {
    ActiveItems(RunningStyle(CLEAR, SplitLines(text)[..k])) + SplitLines(text)[k]
  }

  /** The first input lines, each wrapped greedily. */
  ghost predicate WrapsOf(text: Line, pieces: seq<seq<Line>>, width: int, isCjk: string -> bool) {
    && |pieces| <= |SplitLines(text)|
    && forall k :: 0 <= k < |pieces| ==> WrapOf(InputLine(text, k), pieces[k], width, isCjk)
  }

  lemma WrapsOfSnoc(text: Line, k: nat, result: seq<Line>, s: Style, pieces: seq<seq<Line>>, lines: seq<Line>,
                    width: nat,
                    isCjk: string -> bool)
    requires k < |SplitLines(text)| && WrappedUpTo(text, k, result, s, width) && |pieces| == k
    requires WrapsOf(text, pieces, width, isCjk) && WrapOf(ActiveItems(s) + SplitLines(text)[k], lines, width, isCjk)
    ensures WrapsOf(text, pieces + [lines], width, isCjk) && AllLines(pieces + [lines]) == AllLines(pieces) + lines
  {
    hide WrapOf, ActiveItems, SplitLines, RunningStyle, AllLines;
    AllLinesSnoc(pieces, lines);
    assert InputLine(text, k) == ActiveItems(s) + SplitLines(text)[k];
  }

  lemma NoWrapsYet(text: Line, width: nat, isCjk: string -> bool)
    ensures WrapsOf(text, [], width, isCjk) && AllLines([]) == [] && WrappedUpTo(text, 0, [], CLEAR, width)
  {
    assert SplitLines(text)[..0] == [];
  }

  lemma NoActiveItems()
    ensures ActiveItems(CLEAR) == []
  {
  }

  lemma NothingToWrap(width: nat, isCjk: string -> bool)
    ensures WrapsOf([], [[[]]], width, isCjk) && AllLines([[[]]]) == [[]] && |SplitLines([])| == 1
    ensures AllMarks([[]]) == MarksOf(CLEAR, [])
  {
    NoActiveItems();
    AllMarksOne([]);
    var input := SplitLines([]);
    assert input[..0] == [] && InputLine([], 0) == [];
    var pieces: seq<seq<Line>> := [[[]]];
    assert pieces[..0] == [] && [] + pieces[0] == pieces[0];
  }

  /** Wraps a text none of whose codes spans lines. Read line by line, each from a cleared tracker, the output shows
      every inked grapheme of the text once, in order, in the SGR and hyperlink state it had in the whole text; every
      line of the text is wrapped greedily, losing only blanks at the ends of lines; and when the text allows it, every
      line fits the width. */
  method WrapTextWithAnsi(text: Line, width: nat, isCjk: string -> bool) returns (result: seq<Line>)
    requires WellFormed(text) && Segmented(text) && OneLineCodes(text)
    ensures AllMarks(result) == MarksOf(CLEAR, text)
    ensures Wrappable(text, width) && width > 0 ==> AllFit(result, width)
    ensures exists pieces: seq<seq<Line>> ::
              |pieces| == |SplitLines(text)| && WrapsOf(text, pieces, width, isCjk) && AllLines(pieces) == result
  {
    hide WrapOf, WrapsOf, AllLines, AllMarks, MarksOf, SplitLines, StyleAfter, RunningStyle, RunningMarks, Wrappable,
         Segmented,
         OneLineCodes, WellFormed, Reachable;
    if |text| == 0 {
      NothingToWrap(width, isCjk);
      return [[]];
    }
    var inputLines := SplitLines(text);
    result := [];
    ghost var pieces: seq<seq<Line>> := [];
    NoWrapsYet(text, width, isCjk);
    var tracker := new AnsiCodeTracker();
    for k := 0 to |inputLines|
      invariant fresh(tracker)
      invariant WrappedUpTo(text, k, result, tracker.State(), width)
      invariant |pieces| == k && WrapsOf(text, pieces, width, isCjk) && AllLines(pieces) == result
    {
      var prefix := [];
      if |result| > 0 {
        prefix := tracker.GetActiveCodes();
      }
      var wrappedLines := WrapInputLine(text, inputLines, k, prefix, width, isCjk, tracker);
      WrapNextLine(text, k, result, tracker.State(), wrappedLines, width);
      WrapsOfSnoc(text, k, result, tracker.State(), pieces, wrappedLines, width, isCjk);
      pieces := pieces + [wrappedLines];
      result := result + wrappedLines;
      InputLineFacts(text, k, [], width);
      tracker.UpdateFromItems(inputLines[k]);
    }
    assert inputLines[..|inputLines|] == inputLines;
    SplitLinesKeepsMarks(CLEAR, text);
  }

  /** Wraps input line k behind the codes carried over from the lines before it. */
  method WrapInputLine(ghost text: Line, inputLines: seq<Line>, k: nat, prefix: Line, width: nat, isCjk: string -> bool,
                       ghost tracker: AnsiCodeTracker) returns (lines: seq<Line>)
    requires WellFormed(text) && inputLines == SplitLines(text) && k < |inputLines|
    requires Reachable(tracker.State())
    requires prefix == ActiveItems(tracker.State()) || (prefix == [] && tracker.State() == CLEAR)
    ensures lines != [] && AllMarks(lines) == MarksOf(tracker.State(), inputLines[k])
    ensures WrapOf(ActiveItems(tracker.State()) + inputLines[k], lines, width, isCjk)
    ensures Wrappable(text, width) && width > 0 ==> AllFit(lines, width)
  {
    hide WrapOf;
    ghost var s := tracker.State();
    ActiveItemsRebuild(s);
    NoActiveItems();
    assert AllCodes(prefix) && StyleAfter(CLEAR, prefix) == s;
    InputLineFacts(text, k, prefix, width);
    NoInkNoMarks(CLEAR, prefix);
    MarksConcat(CLEAR, prefix, inputLines[k]);
    lines := WrapSingleLine(prefix + inputLines[k], width, isCjk);
  }
}
