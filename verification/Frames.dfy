/** What a frame is, and what it means for a terminal to be showing it. */
module Frames {
  import opened Text
  import opened Terminal

  const CURSOR_MARKER: string := [ESC] + "_pi:c" + [BEL]

  datatype Position = Position(row: nat, col: nat)

  // ----- cursor marker -----

  /** Index of the first marker in the line, or the length of the line if there is none. */
  function MarkerIndex(line: Line): (i: nat)
    ensures i <= |line|
    ensures i < |line| ==> line[i] == Code(CURSOR_MARKER)
    ensures Code(CURSOR_MARKER) !in line[..i]
  {
    if line == [] || line[0] == Code(CURSOR_MARKER) then 0
    else
      assert forall k :: 0 <= k < |line| - 1 ==> line[1..][k] == line[k + 1];
      var i := 1 + MarkerIndex(line[1..]);
      assert line[..i] == [line[0]] + line[1..][..i - 1];
      i
  }

  predicate HasMarker(line: Line) {
    MarkerIndex(line) < |line|
  }

  function StripMarker(line: Line): Line {
    if HasMarker(line) then line[..MarkerIndex(line)] + line[MarkerIndex(line) + 1..] else line
  }

  /** The position of the marker: on the lowest marked line in lo..hi, before its first marker. */
  function FindCursor(lines: seq<Line>, lo: int, hi: int): (pos: Option<Position>)
    requires 0 <= lo && hi <= |lines|
    ensures pos.None? ==> forall k :: lo <= k < hi ==> !HasMarker(lines[k])
    ensures pos.Some? ==>
      && lo <= pos.value.row < hi && HasMarker(lines[pos.value.row])
      && forall k :: pos.value.row < k < hi ==> !HasMarker(lines[k])
  {
    if hi <= lo then None
    else if HasMarker(lines[hi - 1]) then
      Some(Position(hi - 1, VisibleWidth(lines[hi - 1][..MarkerIndex(lines[hi - 1])])))
    else FindCursor(lines, lo, hi - 1)
  }

  /** Only the bottom `height` lines are searched. */
  function CursorOf(frame: seq<Line>, height: nat): (pos: Option<Position>)
    ensures pos.Some? ==> Max(0, |frame| - height) <= pos.value.row < |frame|
  {
    FindCursor(frame, Max(0, |frame| - height), |frame|)
  }

  lemma {:induction false} FirstMarker(line: Line, i: nat)
    requires i < |line| && line[i] == Code(CURSOR_MARKER) && Code(CURSOR_MARKER) !in line[..i]
    ensures MarkerIndex(line) == i
  {
    if i > 0 {
      assert line[0] in line[..i] && line[1..][i - 1] == line[i];
      assert line[1..][..i - 1] == line[..i][1..];
      FirstMarker(line[1..], i - 1);
    }
  }

  lemma MarkerAt(a: Line, b: Line)
    requires Code(CURSOR_MARKER) !in a
    ensures MarkerIndex(a + [Code(CURSOR_MARKER)] + b) == |a|
    ensures StripMarker(a + [Code(CURSOR_MARKER)] + b) == a + b
  {
    var line := a + [Code(CURSOR_MARKER)] + b;
    assert line[|a|] == Code(CURSOR_MARKER) && line[..|a|] == a && line[|a| + 1..] == b;
    FirstMarker(line, |a|);
  }

  /** The frame without the marker that was found. */
  function Unmarked(frame: seq<Line>, height: nat): (r: seq<Line>)
    ensures |r| == |frame|
  {
    match CursorOf(frame, height)
    case None => frame
    case Some(p) => frame[p.row := StripMarker(frame[p.row])]
  }

  lemma {:induction false} CursorIsFound(lines: seq<Line>, lo: int, hi: int, row: int)
    requires 0 <= lo <= row < hi <= |lines| && HasMarker(lines[row])
    requires forall k :: row < k < hi ==> !HasMarker(lines[k])
    ensures FindCursor(lines, lo, hi)
              == Some(Position(row, VisibleWidth(lines[row][..MarkerIndex(lines[row])])))
    decreases hi
  {
    if hi - 1 > row {
      CursorIsFound(lines, lo, hi - 1, row);
    }
  }

  /** The lowest marker among the bottom lines, the first one on its line, gives the cursor its place, and is the only
      thing taken out of the frame. */
  lemma MarkerIsStripped(frame: seq<Line>, height: nat, row: nat, a: Line, b: Line)
    requires |frame| - height <= row < |frame|
    requires frame[row] == a + [Code(CURSOR_MARKER)] + b && Code(CURSOR_MARKER) !in a
    requires forall k :: row < k < |frame| ==> Code(CURSOR_MARKER) !in frame[k]
    ensures CursorOf(frame, height) == Some(Position(row, VisibleWidth(a)))
    ensures Unmarked(frame, height) == frame[row := a + b]
  {
    MarkerAt(a, b);
    assert frame[row][..|a|] == a;
    CursorIsFound(frame, Max(0, |frame| - height), |frame|, row);
  }

  /** Without a marker among the bottom lines there is no cursor, and nothing is taken out. */
  lemma NoMarker(frame: seq<Line>, height: nat)
    requires forall k :: Max(0, |frame| - height) <= k < |frame| ==> Code(CURSOR_MARKER) !in frame[k]
    ensures CursorOf(frame, height) == None && Unmarked(frame, height) == frame
  {
    forall k | Max(0, |frame| - height) <= k < |frame| ensures !HasMarker(frame[k]) {
      NotMarked(frame[k]);
    }
  }

  lemma NotMarked(line: Line)
    requires Code(CURSOR_MARKER) !in line
    ensures !HasMarker(line)
  {
  }

  /** The lines sent for a frame. */
  function Prepared(frame: seq<Line>, height: nat): (r: seq<Line>)
    ensures |r| == |frame|
  {
    WithResets(Unmarked(frame, height))
  }

  lemma PreparedSendable(frame: seq<Line>, height: nat, width: nat)
    requires Fits(frame, width)
    ensures AllSendable(Prepared(frame, height), width)
  {
    var pos := CursorOf(frame, height);
    if pos.Some? {
      StripMarkerKeepsWidth(frame[pos.value.row]);
    }
    WithResetsSendable(Unmarked(frame, height), width);
  }

  lemma StripMarkerKeepsWidth(line: Line)
    ensures VisibleWidth(StripMarker(line)) == VisibleWidth(line)
  {
    if HasMarker(line) {
      var i := MarkerIndex(line);
      assert line == line[..i] + ([line[i]] + line[i + 1..]);
      VisibleWidthConcat(line[..i], [line[i]] + line[i + 1..]);
      VisibleWidthConcat(line[..i], line[i + 1..]);
      assert ([line[i]] + line[i + 1..])[1..] == line[i + 1..];
    }
  }

  // ----- lines as rendered -----

  // ----- normalised text -----

  const THAI_AM: char := '\U{e33}'
  const LAO_AM: char := '\U{eb3}'

  /** The precomposed AM vowels replaced by their decompositions. */
  function Decomposed(s: string): string {
    if s == "" then ""
    else (if s[0] == THAI_AM then "\U{e4d}\U{e32}" else if s[0] == LAO_AM then "\U{ecd}\U{eb2}" else [s[0]])
         + Decomposed(s[1..])
  }

  const TAB_SPACES: Line := [Grapheme(" ", 1), Grapheme(" ", 1), Grapheme(" ", 1)]

  /** A visible tab becomes as many spaces as it is counted for; codes keep their tabs. */
  function NormalizedItem(item: Item): Line {
    match item
    case Code(c) => [Code(Decomposed(c))]
    case Grapheme(t, w) => if t == "\t" then TAB_SPACES else [Grapheme(Decomposed(t), w)]
  }

  function Normalized(line: Line): Line {
    if line == [] then [] else Normalized(line[..|line| - 1]) + NormalizedItem(line[|line| - 1])
  }

  /** Only ink and pen: no code that moves the cursor or erases, no control character besides tabs, which are
      three columns wide. */
  predicate Writable(item: Item) {
    match item
    case Code(c) => c != "" && !([ESC] + "[" <= c && c[|c| - 1] in "GHJK")
    case Grapheme(t, w) => if t == "\t" then w == 3 else forall i :: 0 <= i < |t| ==> t[i] >= ' ' && t[i] != '\U{7f}'
  }

  lemma {:induction false} NormalizedKeepsWidth(line: Line)
    requires forall i :: 0 <= i < |line| ==> Writable(line[i])
    ensures VisibleWidth(Normalized(line)) == VisibleWidth(line)
  {
    if line != [] {
      var init, last := line[..|line| - 1], line[|line| - 1];
      assert line == init + [last];
      NormalizedKeepsWidth(init);
      VisibleWidthConcat(init, [last]);
      VisibleWidthConcat(Normalized(init), NormalizedItem(last));
      ItemKeepsWidth(last);
    }
  }

  lemma ItemKeepsWidth(item: Item)
    requires Writable(item)
    ensures VisibleWidth(NormalizedItem(item)) == VisibleWidth([item])
  {
    assert [item][1..] == [];
    assert NormalizedItem(item)[1..] == (if item == Grapheme("\t", 3) then TAB_SPACES[1..] else []);
    assert TAB_SPACES[1..][1..] == [Grapheme(" ", 1)] && TAB_SPACES[1..][1..][1..] == [];
  }

  /** Character by character, and only the two vowels change. */
  lemma {:induction false} DecomposedAcross(a: string, b: string)
    ensures Decomposed(a + b) == Decomposed(a) + Decomposed(b)
    ensures forall c :: Decomposed([c]) == if c == '\U{e33}' then ['\U{e4d}', '\U{e32}']
                                           else if c == '\U{eb3}' then ['\U{ecd}', '\U{eb2}'] else [c]
    decreases |a|
  {
    if a == "" {
      assert a + b == b;
    } else {
      assert (a + b)[1..] == a[1..] + b;
      DecomposedAcross(a[1..], b);
    }
  }

  /** Item by item; a tab becomes three spaces. */
  lemma {:induction false} NormalizedAcross(a: Line, b: Line)
    ensures Normalized(a + b) == Normalized(a) + Normalized(b)
    decreases |b|
  {
    if b == [] {
      assert a + b == a;
    } else {
      assert (a + b)[..|a + b| - 1] == a + b[..|b| - 1];
      NormalizedAcross(a, b[..|b| - 1]);
    }
  }

  lemma NormalizedOne(item: Item)
    ensures Normalized([item]) ==
      if item.Code? then [Code(Decomposed(item.code))]
      else if item.text == "\t" then [Grapheme(" ", 1), Grapheme(" ", 1), Grapheme(" ", 1)]
      else [Grapheme(Decomposed(item.text), item.width)]
  {
    assert [item][..0] == [] && Normalized([]) == [];
    assert [] + NormalizedItem(item) == NormalizedItem(item);
  }

  predicate Decomposable(c: char) {
    c == THAI_AM || c == LAO_AM
  }

  lemma {:induction false} DecomposedIsClean(s: string)
    ensures forall i :: 0 <= i < |Decomposed(s)| ==> !Decomposable(Decomposed(s)[i])
    ensures '\t' !in s ==> '\t' !in Decomposed(s)
  {
    if s != "" {
      DecomposedIsClean(s[1..]);
    }
  }

  lemma {:induction false} CleanStays(s: string)
    requires forall i :: 0 <= i < |s| ==> !Decomposable(s[i])
    ensures Decomposed(s) == s
  {
    if s != "" {
      CleanStays(s[1..]);
    }
  }

  /** What normalising leaves: no tab among the visible graphemes, no precomposed vowel anywhere. */
  predicate IsNormal(item: Item) {
    match item
    case Code(c) => forall i :: 0 <= i < |c| ==> !Decomposable(c[i])
    case Grapheme(t, _) => t != "\t" && forall i :: 0 <= i < |t| ==> !Decomposable(t[i])
  }

  lemma {:induction false} NormalizedIsNormal(line: Line)
    ensures forall i :: 0 <= i < |Normalized(line)| ==> IsNormal(Normalized(line)[i])
  {
    if line != [] {
      NormalizedIsNormal(line[..|line| - 1]);
      var last := line[|line| - 1];
      DecomposedIsClean(if last.Code? then last.code else last.text);
      if last.Grapheme? && last.text != "\t" {
        NotATab(last.text);
      }
    }
  }

  lemma NotATab(s: string)
    requires s != "\t"
    ensures Decomposed(s) != "\t"
  {
    if s != "" {
      DecomposedGrows(s[1..]);
      if |s| == 1 {
        assert s == [s[0]] && s[1..] == "";
      }
    }
  }

  lemma {:induction false} DecomposedGrows(s: string)
    ensures |Decomposed(s)| >= |s|
  {
    if s != "" {
      DecomposedGrows(s[1..]);
    }
  }

  /** Normalising changes only what is not normal yet, so doing it again changes nothing. */
  lemma {:induction false} NormalStays(line: Line)
    requires forall i :: 0 <= i < |line| ==> IsNormal(line[i])
    ensures Normalized(line) == line
  {
    if line != [] {
      var init, last := line[..|line| - 1], line[|line| - 1];
      assert line == init + [last];
      NormalStays(init);
      CleanStays(if last.Code? then last.code else last.text);
    }
  }

  lemma NormalizedTwice(line: Line)
    ensures Normalized(Normalized(line)) == Normalized(line)
  {
    NormalizedIsNormal(line);
    NormalStays(Normalized(line));
  }

  function WithReset(line: Line): Line { Normalized(line) + SEGMENT_RESET }

  function WithResets(lines: seq<Line>): (r: seq<Line>)
    ensures |r| == |lines|
  {
    seq(|lines|, i requires 0 <= i < |lines| => WithReset(lines[i]))
  }

  /** A line as it is sent: it fits, it is not empty, and it leaves the pen plain. */
  ghost predicate Sendable(line: Line, width: nat) {
    && line != []
    && VisibleWidth(line) <= width
    && Paint(Ink(Blank(width, PLAIN), 0, PLAIN), line).pen == PLAIN
  }

  ghost predicate AllSendable(lines: seq<Line>, width: nat) {
    forall i :: 0 <= i < |lines| ==> Sendable(lines[i], width)
  }

  /** A frame that can be shown: every line fits and holds nothing that moves the cursor. */
  ghost predicate Fits(lines: seq<Line>, width: nat) {
    forall i :: 0 <= i < |lines| ==>
      VisibleWidth(lines[i]) <= width && forall k :: 0 <= k < |lines[i]| ==> Writable(lines[i][k])
  }

  lemma WithResetsSendable(lines: seq<Line>, width: nat)
    requires Fits(lines, width)
    ensures AllSendable(WithResets(lines), width)
  {
    forall i | 0 <= i < |lines| ensures Sendable(WithResets(lines)[i], width) {
      NormalizedKeepsWidth(lines[i]);
      VisibleWidthConcat(Normalized(lines[i]), SEGMENT_RESET);
      assert VisibleWidth(SEGMENT_RESET) == VisibleWidth(SEGMENT_RESET[1..]) == VisibleWidth(SEGMENT_RESET[1..][1..]);
      ResetLeavesPlainPen(Ink(Blank(width, PLAIN), 0, PLAIN), Normalized(lines[i]));
    }
  }

  // ----- rows -----

  /** The row that shows line i of a frame: blank above and below the frame. */
  function RowAt(lines: seq<Line>, i: int, width: nat): (row: Row)
    ensures |row| == width
  {
    if 0 <= i < |lines| then Show(lines[i], width) else Blank(width, PLAIN)
  }

  /** The rows of lines lo..hi. */
  function Rows(lines: seq<Line>, lo: int, hi: int, width: nat): seq<Row> {
    seq(Max(0, hi - lo), k => RowAt(lines, lo + k, width))
  }

  lemma RowsSnoc(lines: seq<Line>, lo: int, hi: int, width: nat)
    requires lo <= hi
    ensures Rows(lines, lo, hi + 1, width) == Rows(lines, lo, hi, width) + [RowAt(lines, hi, width)]
  {}

  /** Screen row r shows line top + r. */
  ghost predicate Shows(t: Term, lines: seq<Line>, top: int)
    requires t.Valid()
  {
    forall r :: 0 <= r < t.height ==> t.screen[r] == RowAt(lines, top + r, t.width)
  }

  /** A repaint under way. The screen's first row holds line `top`, the cursor is on line `at`,
      lines before `done` are the new ones and lines from `done` on still the old ones. Since
      `base`, lines from..top of the new frame have scrolled away. */
  ghost predicate Repainting(base: Term, t: Term, old_: seq<Line>, new_: seq<Line>,
                             from: int, top: int, at: int, done: int)
  {
    && t.Valid() && t.width == base.width && t.height == base.height
    && t.pen == PLAIN
    && from <= top
    && t.row == at - top
    && t.scrollback == base.scrollback + Rows(new_, from, top, t.width)
    && forall r :: 0 <= r < t.height ==>
         t.screen[r] == RowAt(if top + r < done then new_ else old_, top + r, t.width)
  }

  lemma Returned(base: Term, t: Term, old_: seq<Line>, new_: seq<Line>, from: int, top: int, at: int)
    requires Repainting(base, t, old_, new_, from, top, at, at + 1)
    ensures Repainting(base, t.(col := 0), old_, new_, from, top, at, at + 1)
    ensures t.Valid() && t.(col := 0).Valid() && t.row <= t.height - 1
    ensures Exec(t, [CR, LF]) == LineFeed(t.(col := 0)) && LineFeed(t.(col := 0)).col == 0
  {
    hide RowAt, Rows, Show;
    var u := t.(col := 0);
    assert [CR, LF][1..] == [LF];
    ExecOne(u, LF);
  }

  lemma LineFeedStep(base: Term, t: Term, old_: seq<Line>, new_: seq<Line>, from: int, top: int, at: int)
    requires Repainting(base, t, old_, new_, from, top, at, at + 1)
    requires 0 <= from && |old_| <= from + t.height
    ensures var top' := Max(top, at + 1 - t.height + 1);
      Repainting(base, Exec(t, [CR, LF]), old_, new_, from, top', at + 1, at + 1) && Exec(t, [CR, LF]).col == 0
  {
    hide *;
    var u := t.(col := 0);
    Returned(base, t, old_, new_, from, top, at);
    if t.row == t.height - 1 {
      ScrollStep(base, u, old_, new_, from, top, at);
    } else {
      DownStep(base, u, old_, new_, from, top, at);
    }
  }

  lemma DownStep(base: Term, t: Term, old_: seq<Line>, new_: seq<Line>, from: int, top: int, at: int)
    requires Repainting(base, t, old_, new_, from, top, at, at + 1) && t.row < t.height - 1
    ensures Max(top, at + 1 - t.height + 1) == top
    ensures Repainting(base, LineFeed(t), old_, new_, from, top, at + 1, at + 1)
  {
    hide Show, Rows;
  }

  /** A line feed on the last row: the top line goes to the scrollback, a blank row comes in. */
  lemma ScrollStep(base: Term, t: Term, old_: seq<Line>, new_: seq<Line>, from: int, top: int, at: int)
    requires Repainting(base, t, old_, new_, from, top, at, at + 1)
    requires 0 <= from && |old_| <= from + t.height && t.row == t.height - 1
    ensures Max(top, at + 1 - t.height + 1) == top + 1
    ensures Repainting(base, LineFeed(t), old_, new_, from, top + 1, at + 1, at + 1)
  {
    hide Show, Rows;
    RowsSnoc(new_, from, top, t.width);
    assert t.screen[0] == RowAt(new_, top, t.width);
  }

  /** Writing a line from column 0 onto a blank or erased row shows it there. */
  lemma PaintEffect(t: Term, line: Line, erase: bool)
    requires t.Valid() && t.col == 0 && t.pen == PLAIN && Sendable(line, t.width)
    requires erase || t.screen[t.row] == Blank(t.width, PLAIN)
    ensures var ops := if erase then [EL2, Write(line)] else [Write(line)];
      Exec(t, ops) == t.(screen := t.screen[t.row := Show(line, t.width)], col := VisibleWidth(line))
  {
    var u := if erase then Apply(t, EL2) else t;
    assert [EL2, Write(line)][1..] == [Write(line)];
    ExecOne(u, Write(line));
    assert u.screen[u.row] == Blank(t.width, PLAIN);
    WriteFits(u, line);
    assert u.screen[u.row := Show(line, t.width)] == t.screen[t.row := Show(line, t.width)];
  }

  lemma PaintStep(base: Term, t: Term, old_: seq<Line>, new_: seq<Line>, from: int, top: int, at: int, erase: bool)
    requires Repainting(base, t, old_, new_, from, top, at, at)
    requires t.col == 0 && 0 <= at < |new_| && Sendable(new_[at], t.width)
    requires erase || |old_| <= at
    ensures var ops := if erase then [EL2, Write(new_[at])] else [Write(new_[at])];
      Repainting(base, Exec(t, ops), old_, new_, from, top, at, at + 1)
  {
    hide Exec, Show, Rows, Blank, Sendable;
    PaintEffect(t, new_[at], erase);
  }

  lemma EraseStep(base: Term, t: Term, old_: seq<Line>, new_: seq<Line>, from: int, top: int, at: int)
    requires Repainting(base, t, old_, new_, from, top, at, at)
    requires |new_| <= at
    ensures Repainting(base, Exec(t, [EL2]), old_, new_, from, top, at, at + 1)
    ensures Exec(t, [EL2]).col == t.col
  {
    ExecOne(t, EL2);
  }

  /** Vertical relative motion, as the renderer writes it. */
  function MoveRows(d: int): seq<Op> {
    if d > 0 then [CUD(d)] else if d < 0 then [CUU(-d)] else []
  }

  lemma MoveRowsEffect(t: Term, d: int)
    requires t.Valid()
    ensures Exec(t, MoveRows(d)) == t.(row := Clamp(0, t.row + d, t.height - 1))
  {
    if d > 0 { ExecOne(t, CUD(d)); } else if d < 0 { ExecOne(t, CUU(-d)); }
  }

  // ----- full redraws -----

  /** After writing lines 0..i of a frame onto a clean screen. */
  ghost predicate Written(base: Term, t: Term, lines: seq<Line>, i: int)
    requires base.Valid()
  {
    if i == 0 then t == base
    else Repainting(base, t, [], lines, 0, Max(0, i - base.height), i - 1, i)
  }

  ghost predicate Clean(t: Term) {
    t.Valid() && t.pen == PLAIN && t.row == 0 && t.col == 0 && Shows(t, [], 0)
  }

  ghost function CleanTerm(width: nat, height: nat): Term {
    Term(width, height, [], seq(height, _ => Blank(width, PLAIN)), 0, 0, PLAIN, false)
  }

  lemma CleanTermIsClean(width: nat, height: nat)
    requires width > 0 && height > 0
    ensures Clean(CleanTerm(width, height)) && CleanTerm(width, height).Valid() && CleanTerm(width, height).pen == PLAIN
  {}

  lemma WriteNextLine(base: Term, t: Term, lines: seq<Line>, i: int)
    requires Clean(base) && 0 <= i < |lines| && Sendable(lines[i], base.width)
    requires Written(base, t, lines, i)
    ensures t.Valid()
    ensures var u := if i > 0 then Exec(t, [CR, LF]) else t;
      Written(base, Exec(u, [Write(lines[i])]), lines, i + 1)
  {
    hide Show, Paint, Exec, Sendable;
    var u := if i > 0 then Exec(t, [CR, LF]) else t;
    var top := Max(0, i + 1 - base.height);
    if i > 0 {
      LineFeedStep(base, t, [], lines, 0, Max(0, i - base.height), i - 1);
    }
    PaintStep(base, u, [], lines, 0, top, i, false);
  }

  /** The first k rows have been cleared by absolute position. */
  ghost predicate Cleared(base: Term, t: Term, k: int)
    requires base.Valid()
  {
    && t.Valid() && t.width == base.width && t.height == base.height
    && t.scrollback == base.scrollback && t.pen == PLAIN
    && (k > 0 ==> t.row == k - 1 && t.col == 0)
    && forall r :: 0 <= r < k && r < t.height ==> t.screen[r] == Blank(t.width, PLAIN)
  }

  lemma ClearRow(base: Term, t: Term, k: int)
    requires base.Valid() && 0 <= k < base.height && Cleared(base, t, k)
    ensures Cleared(base, Exec(t, [CUP(k + 1, 1), EL2]), k + 1)
  {
    assert [CUP(k + 1, 1), EL2][1..] == [EL2];
    ExecOne(Apply(t, CUP(k + 1, 1)), EL2);
  }

  /** All rows were cleared and then lines top..i put at their rows. */
  ghost predicate Filled(base: Term, t: Term, lines: seq<Line>, top: int, i: int)
    requires base.Valid()
  {
    && t.Valid() && t.width == base.width && t.height == base.height
    && t.scrollback == base.scrollback && t.pen == PLAIN
    && (if i > top then t.row == i - 1 - top else t.row == t.height - 1 && t.col == 0)
    && forall r :: 0 <= r < t.height ==>
         t.screen[r] == RowAt(if top + r < i then lines else [], top + r, t.width)
  }

  lemma ClearedIsFilled(base: Term, t: Term, lines: seq<Line>, top: int)
    requires base.Valid() && Cleared(base, t, base.height)
    ensures Filled(base, t, lines, top, top)
  {}

  lemma FillRow(base: Term, t: Term, lines: seq<Line>, top: int, i: int)
    requires base.Valid() && 0 <= top <= i < |lines| && i - top < base.height
    requires Sendable(lines[i], base.width) && Filled(base, t, lines, top, i)
    ensures Filled(base, Exec(t, [CUP(i - top + 1, 1), Write(lines[i])]), lines, top, i + 1)
  {
    hide Show, Paint, Sendable, Blank;
    var at := Apply(t, CUP(i - top + 1, 1));
    PaintEffect(at, lines[i], false);
    assert [CUP(i - top + 1, 1), Write(lines[i])][1..] == [Write(lines[i])];
  }

  /** Wrapping a buffer in a synchronized update does not change its effect. */
  function InSync(buffer: seq<Op>): seq<Op> {
    [Synchronized(true)] + buffer + [Synchronized(false)]
  }

  lemma SyncIsNeutral(t: Term, buffer: seq<Op>)
    requires t.Valid()
    ensures Exec(t, InSync(buffer)) == Exec(t, buffer)
  {
    ExecSnoc(t, [Synchronized(true)] + buffer, Synchronized(false));
    ExecConcat(t, [Synchronized(true)], buffer);
    ExecOne(t, Synchronized(true));
  }

  const ERASE_ALL: seq<Op> := [ED2, CUP(1, 1), ED3]

  lemma EraseAllCleans(t: Term)
    requires t.Valid() && t.pen == PLAIN
    ensures Clean(Exec(t, ERASE_ALL)) && Exec(t, ERASE_ALL).scrollback == []
  {
    assert ERASE_ALL[1..] == [CUP(1, 1), ED3] && ERASE_ALL[1..][1..] == [ED3];
    ExecOne(Apply(Apply(t, ED2), CUP(1, 1)), ED3);
  }

  datatype Mode = Initial | Viewport | Clear

  /** What a full redraw of `lines` leaves on the terminal. */
  ghost predicate Redrawn(mode: Mode, base: Term, t: Term, lines: seq<Line>)
    requires base.Valid()
  {
    var top := Max(0, |lines| - base.height);
    && t.Valid() && t.width == base.width && t.height == base.height && t.pen == PLAIN
    && Shows(t, lines, top)
    && t.row == (if lines != [] then |lines| - 1 - top else if mode == Viewport then t.height - 1 else 0)
    && (lines == [] ==> t.col == 0)
    && t.scrollback == (if mode == Viewport then base.scrollback
                        else (if mode == Clear then [] else base.scrollback) + Rows(lines, 0, top, t.width))
  }

  lemma WrittenIsRedrawn(mode: Mode, base: Term, clean: Term, t: Term, lines: seq<Line>)
    requires base.Valid() && Clean(clean) && clean.width == base.width && clean.height == base.height
    requires mode == Clear ==> clean.scrollback == []
    requires mode == Initial ==> clean.scrollback == base.scrollback
    requires mode != Viewport
    requires Written(clean, t, lines, |lines|)
    ensures Redrawn(mode, base, t, lines)
  {}

  lemma FilledIsRedrawn(base: Term, t: Term, lines: seq<Line>)
    requires base.Valid() && Filled(base, t, lines, Max(0, |lines| - base.height), |lines|)
    ensures Redrawn(Viewport, base, t, lines)
  {}

  lemma RedrawnIsPlain(mode: Mode, base: Term, t: Term, lines: seq<Line>)
    requires base.Valid() && Redrawn(mode, base, t, lines)
    ensures t.pen == PLAIN
  {}

  // ----- what the renderer remembers -----

  /** The renderer's memory of the last frame; `extent` is the most lines rendered since the last
      repaint that cleared the screen. */
  datatype Memory = Memory(lines: seq<Line>, top: int, cursorRow: int, extent: int, width: int, height: int)

  const FRESH := Memory([], 0, 0, 0, 0, 0)

  /** What the memory of a renderer promises by itself, whatever the terminal shows. */
  ghost predicate Sound(m: Memory) {
    && 0 <= m.top <= Max(0, |m.lines| - 1) && |m.lines| <= m.extent
    && (m.lines == [] ==> m.cursorRow == 0)
    && (m.lines != [] ==>
          m.width > 0 && m.height > 0 && |m.lines| <= m.top + m.height && AllSendable(m.lines, m.width))
  }

  /** The screen shows the remembered frame from the remembered viewport top. */
  ghost predicate ScreenShown(t: Term, m: Memory) {
    && t.Valid() && t.pen == PLAIN
    && 0 <= m.top <= Max(0, |m.lines| - 1) && |m.lines| <= m.top + t.height
    && |m.lines| <= m.extent
    && AllSendable(m.lines, t.width)
    && Shows(t, m.lines, m.top)
    && (m.lines == [] ==> m.top == 0 && m.cursorRow == 0 && t.col == 0)
    && (m.lines != [] ==> m.width == t.width && m.height == t.height)
  }

  /** The terminal's cursor is where the renderer believes it is. */
  ghost predicate CursorTracked(t: Term, m: Memory) {
    t.row == m.cursorRow - m.top
  }

  /** The coupling invariant between the renderer and the terminal. */
  ghost predicate Coupled(t: Term, m: Memory) {
    ScreenShown(t, m) && CursorTracked(t, m)
  }

  /** Placing the hardware cursor: t and `row` before, s and `row'` after. */
  ghost predicate Positioned(t: Term, row: int, s: Term, row': int, pos: Option<Position>, total: int) {
    && s == t.(row := s.row, col := s.col, cursorShown := s.cursorShown)
    && (if pos.None? || total <= 0 then s.row == t.row && s.col == t.col && row' == row
        else
          && row' == Min(pos.value.row, total - 1)
          && s.row == Clamp(0, t.row + row' - row, t.height - 1)
          && s.col == Clamp(0, pos.value.col, t.width - 1))
  }

  lemma PositionedKeeps(t: Term, row: int, s: Term, row': int, pos: Option<Position>, total: int)
    requires Positioned(t, row, s, row', pos, total)
    ensures s.pen == t.pen && s.width == t.width && s.height == t.height
  {}

  lemma PositionedNowhere(t: Term, row: int, s: Term, row': int, pos: Option<Position>, total: int)
    requires Positioned(t, row, s, row', pos, total)
    ensures total <= 0 ==> row' == row
  {}

  /** Moving the cursor keeps the frame shown. It keeps the cursor tracked exactly when the marked
      row is not above the viewport top: the terminal stops at its first row. */
  lemma PositioningTracks(t: Term, m: Memory, s: Term, row': int, pos: Option<Position>)
    requires Coupled(t, m)
    requires Positioned(t, m.cursorRow, s, row', pos, |m.lines|)
    requires pos.Some? ==> pos.value.row < |m.lines|
    ensures ScreenShown(s, m.(cursorRow := row'))
    ensures CursorTracked(s, m.(cursorRow := row')) <==> (pos.Some? ==> pos.value.row >= m.top)
  {}

  /** The outcome of a full redraw, from terminal t to terminal s. */
  ghost predicate FullyRedrawn(mode: Mode, t: Term, extent: int, s: Term, lines: seq<Line>, pos: Option<Position>,
                               m: Memory) {
    && m.extent == (if mode == Initial then Max(extent, |lines|) else |lines|)
    && ScreenShown(s, m)
    && m == Memory(lines, Max(0, |lines| - s.height), m.cursorRow, m.extent, s.width, s.height)
    && s.width == t.width && s.height == t.height
    && (CursorTracked(s, m) <==>
          (pos.Some? ==> pos.value.row >= m.top) && !(mode == Viewport && lines == [] && s.height > 1))
    && s.scrollback == (if mode == Viewport then t.scrollback
                        else (if mode == Clear then [] else t.scrollback) + Rows(lines, 0, m.top, s.width))
  }

  lemma RedrawCouples(mode: Mode, t: Term, extent: int, drawn: Term, s: Term, lines: seq<Line>, pos: Option<Position>,
                      m: Memory)
    requires t.Valid() && Redrawn(mode, t, drawn, lines) && AllSendable(lines, t.width)
    requires Positioned(drawn, Max(0, |lines| - 1), s, m.cursorRow, pos, |lines|)
    requires pos.Some? ==> pos.value.row < |lines|
    requires m == Memory(lines, Max(0, |lines| - t.height), m.cursorRow,
                         if mode == Initial then Max(extent, |lines|) else |lines|, t.width, t.height)
    ensures FullyRedrawn(mode, t, extent, s, lines, pos, m)
  {
    if lines != [] {
      PositioningTracks(drawn, m.(cursorRow := |lines| - 1), s, m.cursorRow, pos);
    }
  }

  /** The outcome of a differential repaint, from terminal t and memory m to s and m'. */
  ghost predicate Patched(t: Term, m: Memory, s: Term, lines: seq<Line>, pos: Option<Position>, m': Memory) {
    && ScreenShown(s, m')
    && m' == Memory(lines, Max(m.top, |lines| - s.height), m'.cursorRow, Max(m.extent, |lines|), s.width, s.height)
    && s.width == t.width && s.height == t.height
    && (CursorTracked(s, m') <==> (pos.Some? ==> pos.value.row >= m'.top))
    && s.scrollback == t.scrollback + Rows(lines, m.top, m'.top, s.width)
  }

  lemma RepaintedIsPatched(t: Term, m: Memory, drawn: Term, at: int, s: Term, lines: seq<Line>,
                           pos: Option<Position>, m': Memory)
    requires Coupled(t, m) && m.lines != [] && AllSendable(lines, t.width)
    requires Max(0, |lines| - 1) >= m.top
    requires Repainting(t, drawn, m.lines, lines, m.top, Max(m.top, |lines| - t.height), at, Max(|lines|, |m.lines|))
    requires lines == [] ==> drawn.col == 0 && at == 0
    requires Positioned(drawn, at, s, m'.cursorRow, pos, |lines|)
    requires pos.Some? ==> pos.value.row < |lines|
    requires m' == Memory(lines, Max(m.top, |lines| - t.height), m'.cursorRow, Max(m.extent, |lines|),
                          t.width, t.height)
    ensures Patched(t, m, s, lines, pos, m')
  {
    PositioningTracks(drawn, m'.(cursorRow := at), s, m'.cursorRow, pos);
  }
}
