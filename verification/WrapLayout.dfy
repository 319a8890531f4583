/** Where lines are broken: which part of a text each wrapped line shows, and why it ends there. */
module WrapLayout {
  import opened Text
  import opened Tracker
  import opened Marks
  import opened Tokens

  /** Part start..stop of a text, shown on one line, and where the next line begins. */
  datatype Seg = Seg(start: nat, stop: nat, next: nat, token: nat)

  /** The parts shown so far, and where the line under way begins. */
  datatype Layout = Layout(segs: seq<Seg>, from: nat)

  /** The line shows its part, blanks at its end excepted; what is skipped after the part is blank. */
  ghost predicate ShowsSeg(s0: Style, text: Line, line: Line, seg: Seg) {
    && seg.start <= seg.stop <= seg.next <= |text|
    && AllBlank(text[seg.stop..seg.next])
    && Trimmed(Shown(CLEAR, line), Shown(StyleAfter(s0, text[..seg.start]), text[seg.start..seg.stop]))
  }

  /** Every part begins where the one before it ends, blanks skipped. */
  ghost predicate Chained(segs: seq<Seg>, from: nat) {
    && (segs != [] ==> segs[0].start == 0)
    && (forall i :: 0 < i < |segs| ==> segs[i].start == segs[i - 1].next)
    && from == if segs == [] then 0 else segs[|segs| - 1].next
  }

  ghost predicate Laid(s0: Style, text: Line, lines: seq<Line>, segs: seq<Seg>) {
    |segs| == |lines| && forall i :: 0 <= i < |lines| ==> ShowsSeg(s0, text, lines[i], segs[i])
  }

  /** Lines for the text up to `at`, the last of them still under way. */
  ghost predicate Placing(s0: Style, text: Line, lines: seq<Line>, lay: Layout, current: Line, at: nat, style: Style) {
    && lay.from <= at <= |text|
    && Chained(lay.segs, lay.from) && Laid(s0, text, lines, lay.segs)
    && Shown(CLEAR, current) == Shown(StyleAfter(s0, text[..lay.from]), text[lay.from..at])
    && VisibleWidth(current) == VisibleWidth(text[lay.from..at])
    && StyleAfter(CLEAR, current) == style && StyleAfter(s0, text[..at]) == style
    && (current == [] ==> lay.from == at)
  }

  lemma PlacingStarts(s0: Style, text: Line, current: Line)
    requires Shown(CLEAR, current) == [] && VisibleWidth(current) == 0 && StyleAfter(CLEAR, current) == s0
    ensures Placing(s0, text, [], Layout([], 0), current, 0, s0)
  {
  }

  lemma PlacingExtends(s0: Style, text: Line, lines: seq<Line>, lay: Layout, current: Line, at: nat, style: Style,
                       more: Line)
    requires Placing(s0, text, lines, lay, current, at, style)
    requires at + |more| <= |text| && text[at..at + |more|] == more
    ensures Placing(s0, text, lines, lay, current + more, at + |more|, StyleAfter(style, more))
  {
    hide Shown, StyleAfter, VisibleWidth, Chained, Laid;
    var before, part := text[..lay.from], text[lay.from..at];
    assert text[lay.from..at + |more|] == part + more;
    assert text[..at] == before + part && text[..at + |more|] == text[..at] + more;
    StyleAfterConcat(s0, before, part);
    StyleAfterConcat(s0, text[..at], more);
    StyleAfterConcat(CLEAR, current, more);
    ShownConcat(StyleAfter(s0, before), part, more);
    ShownConcat(CLEAR, current, more);
    VisibleWidthConcat(part, more);
    VisibleWidthConcat(current, more);
  }

  /** The line under way ends here and another begins. */
  function Broken(lay: Layout, at: nat, token: nat): Layout {
    Layout(lay.segs + [Seg(lay.from, at, at, token)], at)
  }

  lemma PlacingBreaks(s0: Style, text: Line, lines: seq<Line>, lay: Layout, current: Line, at: nat, style: Style,
                      pushed: Line, next: Line, token: nat)
    requires Placing(s0, text, lines, lay, current, at, style)
    requires Trimmed(Shown(CLEAR, pushed), Shown(CLEAR, current))
    requires Shown(CLEAR, next) == [] && VisibleWidth(next) == 0 && StyleAfter(CLEAR, next) == style
    ensures Placing(s0, text, lines + [pushed], Broken(lay, at, token), next, at, style)
  {
    hide Shown, StyleAfter, VisibleWidth, IsBlank, Trimmed;
    assert text[at..at] == [];
    NothingShown(StyleAfter(CLEAR, text[..at]));
    NothingShown(StyleAfter(s0, text[..at]));
    NoWidth();
    LaidSnoc(s0, text, lines, lay.segs, pushed, Seg(lay.from, at, at, token));
    var r := Broken(lay, at, token);
    assert Chained(r.segs, r.from);
    assert Laid(s0, text, lines + [pushed], r.segs);
    assert Shown(CLEAR, next) == Shown(StyleAfter(s0, text[..r.from]), text[r.from..at]);
    assert VisibleWidth(next) == VisibleWidth(text[r.from..at]);
  }

  lemma LaidSnoc(s0: Style, text: Line, lines: seq<Line>, segs: seq<Seg>, line: Line, seg: Seg)
    requires Laid(s0, text, lines, segs) && ShowsSeg(s0, text, line, seg)
    ensures Laid(s0, text, lines + [line], segs + [seg])
  {
    hide ShowsSeg;
  }

  lemma NoWidth()
    ensures VisibleWidth([]) == 0
  {
  }

  /** Blanks after a break are skipped. */
  function Skipped(lay: Layout, at: nat): Layout {
    if lay.segs == [] then lay
    else Layout(lay.segs[..|lay.segs| - 1] + [lay.segs[|lay.segs| - 1].(next := at)], at)
  }

  lemma PlacingSkips(s0: Style, text: Line, lines: seq<Line>, lay: Layout, current: Line, at: nat, style: Style,
                     blanks: Line)
    requires Placing(s0, text, lines, lay, current, at, style)
    requires lay.segs != [] && lay.from == at == lay.segs[|lay.segs| - 1].stop
    requires at + |blanks| <= |text| && text[at..at + |blanks|] == blanks && AllBlank(blanks)
    ensures Placing(s0, text, lines, Skipped(lay, at + |blanks|), current, at + |blanks|, style)
  {
    hide Shown, StyleAfter, VisibleWidth, IsBlank, Trimmed, Chained, Laid;
    assert text[at..at] == text[at + |blanks|..at + |blanks|] == [];
    assert Shown(StyleAfter(s0, text[..at]), []) == Shown(StyleAfter(s0, text[..at + |blanks|]), []) by {
      NothingShown(StyleAfter(s0, text[..at]));
      NothingShown(StyleAfter(s0, text[..at + |blanks|]));
    }
    assert text[..at + |blanks|] == text[..at] + blanks;
    StyleAfterConcat(s0, text[..at], blanks);
    BlanksKeepStyle(style, blanks);
    LaidSkips(s0, text, lines, lay.segs, at + |blanks|);
    var r := Skipped(lay, at + |blanks|);
    ChainedSkips(lay, at + |blanks|);
    assert Shown(CLEAR, current) == Shown(StyleAfter(s0, text[..r.from]), text[r.from..at + |blanks|]);
    assert VisibleWidth(current) == VisibleWidth(text[r.from..at + |blanks|]);
  }

  lemma ChainedSkips(lay: Layout, at: nat)
    requires Chained(lay.segs, lay.from) && lay.segs != []
    ensures Chained(Skipped(lay, at).segs, Skipped(lay, at).from)
  {
    var r := Skipped(lay, at).segs;
    forall i | 0 < i < |r|
      ensures r[i].start == r[i - 1].next
    {
      assert r[i].start == lay.segs[i].start && r[i - 1] == lay.segs[i - 1];
    }
  }

  lemma ChainedJoins(lay: Layout, word: Layout, shift: nat, token: nat)
    requires Chained(lay.segs, lay.from) && lay.from == shift && Chained(word.segs, word.from)
    ensures var r := Joined(lay, word, shift, token); Chained(r.segs, r.from)
  {
    var r := Joined(lay, word, shift, token).segs;
    var n := |lay.segs|;
    forall i | 0 < i < |r|
      ensures r[i].start == r[i - 1].next
    {
      if i < n {
        assert r[i] == lay.segs[i] && r[i - 1] == lay.segs[i - 1];
      } else {
        assert r[i].start == word.segs[i - n].start + shift;
        if i > n {
          assert r[i - 1].next == word.segs[i - n - 1].next + shift;
        } else {
          assert r[i - 1] == lay.segs[n - 1];
        }
      }
    }
  }

  lemma LaidConcat(s0: Style, text: Line, a: seq<Line>, segs: seq<Seg>, b: seq<Line>, more: seq<Seg>)
    requires Laid(s0, text, a, segs) && Laid(s0, text, b, more)
    ensures Laid(s0, text, a + b, segs + more)
  {
    hide ShowsSeg;
  }

  lemma LaidSkips(s0: Style, text: Line, lines: seq<Line>, segs: seq<Seg>, at: nat)
    requires Laid(s0, text, lines, segs) && segs != []
    requires segs[|segs| - 1].stop <= at <= |text| && AllBlank(text[segs[|segs| - 1].stop..at])
    ensures Laid(s0, text, lines, segs[..|segs| - 1] + [segs[|segs| - 1].(next := at)])
  {
    hide Shown, StyleAfter, IsBlank, Trimmed, AllBlank;
    var last := segs[|segs| - 1];
    assert ShowsSeg(s0, text, lines[|lines| - 1], last);
    assert ShowsSeg(s0, text, lines[|lines| - 1], last.(next := at));
    assert forall i :: 0 <= i < |lines| - 1 ==> ShowsSeg(s0, text, lines[i], segs[i]);
  }

  lemma BlanksKeepStyle(s: Style, blanks: Line)
    requires AllBlank(blanks)
    ensures StyleAfter(s, blanks) == s
  {
    NoCodesNoChange(s, blanks);
  }

  lemma NothingShown(s: Style)
    ensures Shown(s, []) == []
  {
  }

  // ----- why a line ends -----

  function Offset(tokens: seq<Line>, k: nat): nat
    requires k <= |tokens|
  {
    |Flatten(tokens[..k])|
  }

  /** The grapheme at the end of the part does not fit any more. */
  ghost predicate GraphemeOverflows(text: Line, seg: Seg, width: int) {
    && seg.start <= seg.stop == seg.next < |text| && text[seg.stop].Grapheme?
    && VisibleWidth(text[seg.start..seg.stop]) + text[seg.stop].width > width
  }

  /** The token at the end of the part does not fit any more; it is skipped when blank. */
  ghost predicate TokenOverflows(text: Line, tokens: seq<Line>, seg: Seg, width: int) {
    && seg.token < |tokens|
    && var token := tokens[seg.token];
    && seg.start <= seg.stop == Offset(tokens, seg.token) <= |text|
    && VisibleWidth(text[seg.start..seg.stop]) + VisibleWidth(token) > width
    && (VisibleWidth(text[seg.start..seg.stop]) > 0 || (VisibleWidth(token) > width && !AllBlank(token)))
    && seg.next == seg.stop + (if AllBlank(token) then |token| else 0)
  }

  /** Inside a token that is wider than a line and starts one, it is the grapheme that does not fit. */
  ghost predicate LongTokenOverflows(text: Line, tokens: seq<Line>, seg: Seg, width: int) {
    && seg.token < |tokens|
    && VisibleWidth(tokens[seg.token]) > width && !AllBlank(tokens[seg.token])
    && Offset(tokens, seg.token) <= seg.start
    && seg.stop < Offset(tokens, seg.token) + |tokens[seg.token]|
    && GraphemeOverflows(text, seg, width)
  }

  ghost predicate Overflows(text: Line, tokens: seq<Line>, seg: Seg, width: int) {
    TokenOverflows(text, tokens, seg, width) || LongTokenOverflows(text, tokens, seg, width)
  }

  ghost predicate AllOverflow(text: Line, tokens: seq<Line>, segs: seq<Seg>, width: int) {
    forall i :: 0 <= i < |segs| ==> Overflows(text, tokens, segs[i], width)
  }

  ghost predicate AllGraphemesOverflow(text: Line, segs: seq<Seg>, width: int) {
    forall i :: 0 <= i < |segs| ==> GraphemeOverflows(text, segs[i], width)
  }

  /** The lines show a text part by part, and every line but the last ends where the next piece does not fit. */
  ghost predicate LaidOut(text: Line, tokens: seq<Line>, lines: seq<Line>, segs: seq<Seg>, width: int) {
    && segs != [] && Chained(segs, |text|) && Laid(CLEAR, text, lines, segs)
    && (forall i :: 0 <= i < |segs| && (i < |segs| - 1 || segs[i].stop < |text|) ==>
          Overflows(text, tokens, segs[i], width))
  }

  /** Greedy wrapping. A line that fits stays as it is. Another is broken only before a token that does not fit, or
      before a grapheme that does not fit, of a token wider than a line; and only blanks at the ends of lines are
      lost. */
  ghost predicate WrapOf(text: Line, lines: seq<Line>, width: int, isCjk: string -> bool) {
    if VisibleWidth(text) <= width then lines == [text]
    else exists tokens: seq<Line>, segs: seq<Seg> ::
      Tokenized(tokens, text, isCjk) && LaidOut(text, tokens, lines, segs, width)
  }

  // ----- joining a broken word -----

  function Moved(segs: seq<Seg>, shift: nat, token: nat): (r: seq<Seg>)
    ensures |r| == |segs|
  {
    seq(|segs|, i requires 0 <= i < |segs| =>
      Seg(segs[i].start + shift, segs[i].stop + shift, segs[i].next + shift, token))
  }

  function Joined(lay: Layout, word: Layout, shift: nat, token: nat): Layout {
    Layout(lay.segs + Moved(word.segs, shift, token), shift + word.from)
  }

  lemma Inside(text: Line, word: Line, shift: nat, a: nat, b: nat)
    requires shift + |word| <= |text| && text[shift..shift + |word|] == word && a <= b <= |word|
    ensures text[a + shift..b + shift] == word[a..b]
  {
    forall k | a <= k < b
      ensures text[k + shift] == word[k]
    {
      assert text[shift..shift + |word|][k] == text[k + shift];
    }
  }

  lemma ShowsMoved(text: Line, word: Line, shift: nat, line: Line, seg: Seg, token: nat)
    requires shift + |word| <= |text| && text[shift..shift + |word|] == word
    requires ShowsSeg(StyleAfter(CLEAR, text[..shift]), word, line, seg)
    ensures ShowsSeg(CLEAR, text, line, Seg(seg.start + shift, seg.stop + shift, seg.next + shift, token))
  {
    hide Shown, StyleAfter, IsBlank;
    Inside(text, word, shift, seg.start, seg.stop);
    Inside(text, word, shift, seg.stop, seg.next);
    assert text[..seg.start + shift] == text[..shift] + word[..seg.start];
    StyleAfterConcat(CLEAR, text[..shift], word[..seg.start]);
  }

  /** A long token, broken on its own from style s0 on, continues the lines of the text. */
  lemma PlacingJoins(text: Line, lines: seq<Line>, lay: Layout, shift: nat, s0: Style,
                     word: Line, broken: seq<Line>, wordLay: Layout, current: Line, style: Style, token: nat)
    requires Chained(lay.segs, lay.from) && Laid(CLEAR, text, lines, lay.segs) && lay.from == shift
    requires shift + |word| <= |text| && text[shift..shift + |word|] == word && s0 == StyleAfter(CLEAR, text[..shift])
    requires Placing(s0, word, broken, wordLay, current, |word|, style)
    ensures Placing(CLEAR, text, lines + broken, Joined(lay, wordLay, shift, token), current, shift + |word|, style)
  {
    hide Shown, StyleAfter, VisibleWidth, IsBlank, ShowsSeg, Chained;
    ChainedJoins(lay, wordLay, shift, token);
    forall i | 0 <= i < |broken|
      ensures ShowsSeg(CLEAR, text, broken[i], Moved(wordLay.segs, shift, token)[i])
    {
      ShowsMoved(text, word, shift, broken[i], wordLay.segs[i], token);
    }
    var from := wordLay.from;
    assert text[shift + from..shift + |word|] == word[from..|word|];
    assert text[..shift + from] == text[..shift] + word[..from];
    LaidConcat(CLEAR, text, lines, lay.segs, broken, Moved(wordLay.segs, shift, token));
    assert word[..|word|] == word && text[..shift + |word|] == text[..shift] + word;
    StyleAfterConcat(CLEAR, text[..shift], word[..from]);
    StyleAfterConcat(CLEAR, text[..shift], word);
  }

  lemma OverflowsJoin(text: Line, tokens: seq<Line>, k: nat, segs: seq<Seg>, wordSegs: seq<Seg>, width: int)
    requires k < |tokens| && Flatten(tokens) == text && Offset(tokens, k) + |tokens[k]| <= |text|
    requires text[Offset(tokens, k)..Offset(tokens, k) + |tokens[k]|] == tokens[k]
    requires VisibleWidth(tokens[k]) > width && !AllBlank(tokens[k])
    requires AllOverflow(text, tokens, segs, width) && AllGraphemesOverflow(tokens[k], wordSegs, width)
    ensures AllOverflow(text, tokens, segs + Moved(wordSegs, Offset(tokens, k), k), width)
  {
    hide VisibleWidth, AllBlank;
    var shift, word := Offset(tokens, k), tokens[k];
    forall i | 0 <= i < |wordSegs|
      ensures LongTokenOverflows(text, tokens, Moved(wordSegs, shift, k)[i], width)
    {
      var seg := wordSegs[i];
      assert GraphemeOverflows(word, seg, width);
      Inside(text, word, shift, seg.start, seg.stop);
      assert text[seg.stop + shift] == word[seg.stop];
    }
  }

  // ----- a long token under way -----

  /** Lines for a long token up to `at`, each of them ended by a grapheme that did not fit. */
  ghost predicate WordLaid(s0: Style, word: Line, lines: seq<Line>, lay: Layout, current: Line, at: nat, style: Style,
                           width: int) {
    Placing(s0, word, lines, lay, current, at, style) && AllGraphemesOverflow(word, lay.segs, width)
  }

  lemma WordStarts(s0: Style, word: Line, current: Line, width: int)
    requires Shown(CLEAR, current) == [] && VisibleWidth(current) == 0 && StyleAfter(CLEAR, current) == s0
    ensures WordLaid(s0, word, [], Layout([], 0), current, 0, s0, width)
  {
    PlacingStarts(s0, word, current);
  }

  lemma WordExtends(s0: Style, word: Line, lines: seq<Line>, lay: Layout, current: Line, at: nat, style: Style,
                    width: int)
    requires WordLaid(s0, word, lines, lay, current, at, style, width) && at < |word|
    ensures WordLaid(s0, word, lines, lay, current + [word[at]], at + 1, After(style, word[at]), width)
  {
    hide Placing, AllGraphemesOverflow;
    assert word[at..at + 1] == [word[at]];
    assert StyleAfter(style, [word[at]]) == After(style, word[at]) by {
      assert [word[at]][1..] == [];
    }
    PlacingExtends(s0, word, lines, lay, current, at, style, [word[at]]);
  }

  lemma WordBreaks(s0: Style, word: Line, lines: seq<Line>, lay: Layout, current: Line, at: nat, style: Style,
                   width: int,
                   pushed: Line, next: Line)
    requires WordLaid(s0, word, lines, lay, current, at, style, width) && at < |word| && word[at].Grapheme?
    requires VisibleWidth(current) + word[at].width > width
    requires Shown(CLEAR, pushed) == Shown(CLEAR, current)
    requires Shown(CLEAR, next) == [] && VisibleWidth(next) == 0 && StyleAfter(CLEAR, next) == style
    ensures WordLaid(s0, word, lines + [pushed], Broken(lay, at, 0), next, at, style, width)
  {
    hide Shown, StyleAfter, VisibleWidth;
    TrimmedSame(Shown(CLEAR, current));
    PlacingBreaks(s0, word, lines, lay, current, at, style, pushed, next, 0);
    assert GraphemeOverflows(word, Seg(lay.from, at, at, 0), width);
  }

  // ----- the tokens of a line under way -----

  /** Lines for the first k tokens, each of them ended by a piece that did not fit. */
  ghost predicate LineLaid(text: Line, tokens: seq<Line>, lines: seq<Line>, lay: Layout, current: Line, k: nat,
                           style: Style, width: int)
    requires k <= |tokens|
  {
    && Flatten(tokens) == text
    && Placing(CLEAR, text, lines, lay, current, Offset(tokens, k), style) && AllOverflow(text, tokens, lay.segs, width)
  }

  lemma {:induction false} FlattenSplits(tokens: seq<Line>, k: nat)
    requires k <= |tokens|
    ensures Flatten(tokens) == Flatten(tokens[..k]) + Flatten(tokens[k..])
    decreases k
  {
    if k > 0 {
      FlattenSplits(tokens[1..], k - 1);
      assert tokens[1..][..k - 1] == tokens[..k][1..] && tokens[1..][k - 1..] == tokens[k..];
    } else {
      assert tokens[0..] == tokens;
    }
  }

  lemma FlattenFirst(tokens: seq<Line>)
    requires tokens != []
    ensures Flatten(tokens) == tokens[0] + Flatten(tokens[1..])
  {
  }

  lemma TokenAt(tokens: seq<Line>, k: nat)
    requires k < |tokens|
    ensures var off := Offset(tokens, k);
      && Offset(tokens, k + 1) == off + |tokens[k]| <= |Flatten(tokens)|
      && Flatten(tokens)[off..off + |tokens[k]|] == tokens[k]
  {
    hide Flatten;
    FlattenSplits(tokens, k);
    FlattenFirst(tokens[k..]);
    assert tokens[k..][0] == tokens[k] && tokens[k..][1..] == tokens[k + 1..];
    assert tokens[..k + 1] == tokens[..k] + [tokens[k]];
    FlattenSnoc(tokens[..k], tokens[k]);
  }

  lemma LineStarts(text: Line, tokens: seq<Line>, width: int)
    requires Flatten(tokens) == text
    ensures LineLaid(text, tokens, [], Layout([], 0), [], 0, CLEAR, width)
  {
    PlacingStarts(CLEAR, text, []);
  }

  lemma LineExtends(text: Line, tokens: seq<Line>, lines: seq<Line>, lay: Layout, current: Line, k: nat, style: Style,
                    width: int)
    requires k < |tokens| && LineLaid(text, tokens, lines, lay, current, k, style, width)
    ensures LineLaid(text, tokens, lines, lay, current + tokens[k], k + 1, StyleAfter(style, tokens[k]), width)
  {
    hide Placing, AllOverflow, Flatten, StyleAfter;
    TokenAt(tokens, k);
    PlacingExtends(CLEAR, text, lines, lay, current, Offset(tokens, k), style, tokens[k]);
  }

  /** A break before a token that does not fit. */
  lemma LineBreaks(text: Line, tokens: seq<Line>, lines: seq<Line>, lay: Layout, current: Line, k: nat, style: Style,
                   width: int, pushed: Line, next: Line)
    requires k < |tokens| && LineLaid(text, tokens, lines, lay, current, k, style, width) && !AllBlank(tokens[k])
    requires VisibleWidth(current) + VisibleWidth(tokens[k]) > width
    requires VisibleWidth(current) > 0 || VisibleWidth(tokens[k]) > width
    requires Trimmed(Shown(CLEAR, pushed), Shown(CLEAR, current))
    requires Shown(CLEAR, next) == [] && VisibleWidth(next) == 0 && StyleAfter(CLEAR, next) == style
    ensures LineLaid(text, tokens, lines + [pushed], Broken(lay, Offset(tokens, k), k), next, k, style, width)
  {
    hide Shown, StyleAfter, VisibleWidth, Flatten, AllBlank, Trimmed, Placing, Overflows;
    var at := Offset(tokens, k);
    PlacingBreaks(CLEAR, text, lines, lay, current, at, style, pushed, next, k);
    DoesNotFit(text, tokens, lines, lay, current, k, style, width);
  }

  lemma DoesNotFit(text: Line, tokens: seq<Line>, lines: seq<Line>, lay: Layout, current: Line, k: nat, style: Style,
                   width: int)
    requires k < |tokens| && LineLaid(text, tokens, lines, lay, current, k, style, width)
    requires VisibleWidth(current) + VisibleWidth(tokens[k]) > width
    requires VisibleWidth(current) > 0 || (VisibleWidth(tokens[k]) > width && !AllBlank(tokens[k]))
    ensures var at := Offset(tokens, k);
      Overflows(text, tokens, Seg(lay.from, at, at + (if AllBlank(tokens[k]) then |tokens[k]| else 0), k), width)
  {
    hide Shown, StyleAfter, VisibleWidth, Flatten, AllBlank, Trimmed, Chained, Laid;
    var at := Offset(tokens, k);
    assert TokenOverflows(text, tokens, Seg(lay.from, at, at + (if AllBlank(tokens[k]) then |tokens[k]| else 0), k),
                          width);
  }

  /** A break at blanks that do not fit; they are skipped. */
  lemma LineSkips(text: Line, tokens: seq<Line>, lines: seq<Line>, lay: Layout, current: Line, k: nat, style: Style,
                  width: int, pushed: Line, next: Line)
    requires k < |tokens| && LineLaid(text, tokens, lines, lay, current, k, style, width) && AllBlank(tokens[k])
    requires VisibleWidth(current) + VisibleWidth(tokens[k]) > width && VisibleWidth(current) > 0
    requires Trimmed(Shown(CLEAR, pushed), Shown(CLEAR, current))
    requires Shown(CLEAR, next) == [] && VisibleWidth(next) == 0 && StyleAfter(CLEAR, next) == style
    ensures var at := Offset(tokens, k);
      LineLaid(text, tokens, lines + [pushed], Skipped(Broken(lay, at, k), at + |tokens[k]|), next, k + 1, style, width)
  {
    hide Shown, StyleAfter, VisibleWidth, Flatten, AllBlank, Trimmed, Placing, Overflows;
    var at := Offset(tokens, k);
    TokenAt(tokens, k);
    PlacingBreaks(CLEAR, text, lines, lay, current, at, style, pushed, next, k);
    PlacingSkips(CLEAR, text, lines + [pushed], Broken(lay, at, k), next, at, style, tokens[k]);
    DoesNotFit(text, tokens, lines, lay, current, k, style, width);
  }

  /** A long token that starts a line has been broken. */
  lemma LineJoins(text: Line, tokens: seq<Line>, lines: seq<Line>, lay: Layout, current: Line, k: nat, style: Style,
                  width: int, broken: seq<Line>, wordLay: Layout, last: Line, style': Style)
    requires k < |tokens| && LineLaid(text, tokens, lines, lay, current, k, style, width)
    requires lay.from == Offset(tokens, k) && VisibleWidth(tokens[k]) > width && !AllBlank(tokens[k])
    requires WordLaid(style, tokens[k], broken, wordLay, last, |tokens[k]|, style', width)
    ensures LineLaid(text, tokens, lines + broken, Joined(lay, wordLay, Offset(tokens, k), k), last, k + 1, style',
                     width)
  {
    hide Shown, StyleAfter, VisibleWidth, Flatten, AllBlank, Chained, Laid, AllOverflow, AllGraphemesOverflow;
    var at := Offset(tokens, k);
    TokenAt(tokens, k);
    PlacingJoins(text, lines, lay, at, style, tokens[k], broken, wordLay, last, style', k);
    OverflowsJoin(text, tokens, k, lay.segs, wordLay.segs, width);
  }

  // ----- the end -----

  lemma TrimmedTwice(a: seq<Mark>, b: seq<Mark>, c: seq<Mark>)
    requires Trimmed(a, b) && Trimmed(b, c)
    ensures Trimmed(a, c)
  {
    forall i | |a| <= i < |c|
      ensures BlankText(c[i].text)
    {
      if i < |b| {
        assert b[i] == c[i];
      }
    }
  }

  /** Trimming the lines at the end changes nothing in what they show but blanks. */
  lemma LaidTrims(s0: Style, text: Line, lines: seq<Line>, trimmed: seq<Line>, segs: seq<Seg>)
    requires Laid(s0, text, lines, segs) && |trimmed| == |lines|
    requires forall i :: 0 <= i < |lines| ==> trimmed[i] == TrimEnd(lines[i])
    ensures Laid(s0, text, trimmed, segs)
  {
    forall i | 0 <= i < |lines|
      ensures ShowsSeg(s0, text, trimmed[i], segs[i])
    {
      var seg := segs[i];
      assert ShowsSeg(s0, text, lines[i], seg);
      TrimEndShows(CLEAR, lines[i]);
      TrimmedTwice(Shown(CLEAR, trimmed[i]), Shown(CLEAR, lines[i]),
                   Shown(StyleAfter(s0, text[..seg.start]), text[seg.start..seg.stop]));
    }
  }

  /** The parts of all lines, the one under way included unless it is empty. */
  ghost function Closing(lay: Layout, current: Line, size: nat): seq<Seg> {
    if current == [] then lay.segs else lay.segs + [Seg(lay.from, size, size, 0)]
  }

  lemma PlacingEnds(text: Line, tokens: seq<Line>, lines: seq<Line>, lay: Layout, current: Line, style: Style,
                    width: int)
    requires Placing(CLEAR, text, lines, lay, current, |text|, style) && AllOverflow(text, tokens, lay.segs, width)
    requires text != []
    ensures LaidOut(text, tokens, if current == [] then lines else lines + [current], Closing(lay, current, |text|),
                    width)
  {
    hide Shown, StyleAfter, VisibleWidth, IsBlank, Overflows;
    assert text[|text|..|text|] == [];
    if current != [] {
      TrimmedSame(Shown(CLEAR, current));
    }
  }

  lemma LineEnds(text: Line, tokens: seq<Line>, lines: seq<Line>, lay: Layout, current: Line, style: Style, width: int)
    requires LineLaid(text, tokens, lines, lay, current, |tokens|, style, width) && text != []
    ensures LaidOut(text, tokens, if current == [] then lines else lines + [current], Closing(lay, current, |text|),
                    width)
  {
    hide Placing, AllOverflow, Flatten, Closing, LaidOut;
    assert tokens[..|tokens|] == tokens;
    PlacingEnds(text, tokens, lines, lay, current, style, width);
  }

  lemma TrimmedSame(a: seq<Mark>)
    ensures Trimmed(a, a)
  {
  }

  // ----- what is lost -----

  /** What the lines show, with a gap after each. */
  function Woven(lines: seq<Line>, gaps: seq<seq<Mark>>): seq<Mark>
    requires |gaps| == |lines|
  {
    if lines == [] then []
    else
      var n := |lines| - 1;
      Woven(lines[..n], gaps[..n]) + Shown(CLEAR, lines[n]) + gaps[n]
  }

  predicate BlankMarks(marks: seq<Mark>) {
    forall i :: 0 <= i < |marks| ==> BlankText(marks[i].text)
  }

  ghost predicate BlankGaps(gaps: seq<seq<Mark>>) {
    forall i :: 0 <= i < |gaps| ==> BlankMarks(gaps[i])
  }

  lemma {:induction false} BlanksShowBlanks(s: Style, line: Line)
    requires AllBlank(line)
    ensures BlankMarks(Shown(s, line))
    decreases |line|
  {
    if line != [] {
      BlanksShowBlanks(s, line[1..]);
    }
  }

  lemma SegIsWoven(text: Line, line: Line, seg: Seg) returns (gap: seq<Mark>)
    requires ShowsSeg(CLEAR, text, line, seg)
    ensures BlankMarks(gap)
    ensures Shown(CLEAR, text[..seg.start]) + Shown(CLEAR, line) + gap == Shown(CLEAR, text[..seg.next])
  {
    hide Shown, StyleAfter, IsBlank, BlankText;
    var s := StyleAfter(CLEAR, text[..seg.start]);
    var part, skipped := text[seg.start..seg.stop], text[seg.stop..seg.next];
    var all, more := Shown(s, part), Shown(StyleAfter(s, part), skipped);
    BlanksShowBlanks(StyleAfter(s, part), skipped);
    gap := all[|Shown(CLEAR, line)|..] + more;
    assert text[..seg.next] == text[..seg.start] + (part + skipped);
    ShownConcat(CLEAR, text[..seg.start], part + skipped);
    ShownConcat(s, part, skipped);
    assert Shown(CLEAR, line) + all[|Shown(CLEAR, line)|..] == all;
  }

  lemma {:induction false} LinesAreWoven(text: Line, lines: seq<Line>, segs: seq<Seg>, from: nat, n: nat)
    returns (gaps: seq<seq<Mark>>)
    requires Chained(segs, from) && Laid(CLEAR, text, lines, segs) && n <= |lines|
    ensures |gaps| == n && BlankGaps(gaps)
    ensures (n > 0 ==> segs[n - 1].next <= |text|)
    ensures Woven(lines[..n], gaps) == Shown(CLEAR, text[..if n == 0 then 0 else segs[n - 1].next])
  {
    hide ShowsSeg, Shown, BlankMarks;
    if n == 0 {
      gaps := [];
      NothingShown(CLEAR);
    } else {
      var before := LinesAreWoven(text, lines, segs, from, n - 1);
      assert ShowsSeg(CLEAR, text, lines[n - 1], segs[n - 1]);
      SegInside(text, lines[n - 1], segs[n - 1]);
      var gap := SegIsWoven(text, lines[n - 1], segs[n - 1]);
      gaps := before + [gap];
      assert lines[..n][..n - 1] == lines[..n - 1] && gaps[..n - 1] == before;
    }
  }

  lemma SegInside(text: Line, line: Line, seg: Seg)
    requires ShowsSeg(CLEAR, text, line, seg)
    ensures seg.next <= |text|
  {
  }

  /** However a text is wrapped: the lines, with blanks put back at their ends, show the whole text. */
  lemma OnlyBlanksAreLost(text: Line, lines: seq<Line>, width: int, isCjk: string -> bool)
    requires WrapOf(text, lines, width, isCjk)
    ensures exists gaps: seq<seq<Mark>> ::
              |gaps| == |lines| && BlankGaps(gaps) && Woven(lines, gaps) == Shown(CLEAR, text)
  {
    hide Shown, VisibleWidth, Tokenized, Overflows;
    if VisibleWidth(text) <= width {
      var gaps: seq<seq<Mark>> := [[]];
      assert [text][..0] == [] && gaps[..0] == [];
      assert Woven([text], gaps) == Shown(CLEAR, text);
    } else {
      var tokens: seq<Line>, segs: seq<Seg> :|
        Tokenized(tokens, text, isCjk) && LaidOut(text, tokens, lines, segs, width);
      var gaps := LinesAreWoven(text, lines, segs, |text|, |lines|);
      assert lines[..|lines|] == lines && text[..|text|] == text;
    }
  }
}
