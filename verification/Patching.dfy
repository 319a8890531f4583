/** Differential repaints: which lines changed, and what the emitted buffers do. */
module Patching {
  import opened Text
  import opened Terminal
  import opened Frames

  /** Line i of a frame, as compared: the empty line outside the frame. */
  function LineAt(lines: seq<Line>, i: int): Line {
    if 0 <= i < |lines| then lines[i] else []
  }

  predicate Differ(a: seq<Line>, b: seq<Line>, i: int) {
    LineAt(a, i) != LineAt(b, i)
  }

  lemma SameLineSameRow(a: seq<Line>, b: seq<Line>, i: int, width: nat)
    requires !Differ(a, b, i) && AllSendable(a, width) && AllSendable(b, width)
    ensures RowAt(a, i, width) == RowAt(b, i, width)
  {}

  /** First and last changed line, with appended lines always counted as changed. */
  method ComputeDiff(previousLines: seq<Line>, newLines: seq<Line>) returns (firstChanged: int, lastChanged: int)
    ensures firstChanged == -1 ==> |newLines| <= |previousLines| && forall i :: !Differ(previousLines, newLines, i)
    ensures firstChanged != -1 ==>
      && 0 <= firstChanged <= lastChanged < Max(|newLines|, |previousLines|)
      && (forall i :: i < firstChanged ==> !Differ(previousLines, newLines, i))
      && (forall i :: lastChanged < i ==> !Differ(previousLines, newLines, i))
      && (Differ(previousLines, newLines, firstChanged) || firstChanged == |previousLines| < |newLines|)
      && (Differ(previousLines, newLines, lastChanged) || |previousLines| < |newLines|)
    ensures |newLines| > |previousLines| ==> firstChanged != -1 && lastChanged == |newLines| - 1
  {
    firstChanged, lastChanged := -1, -1;
    var maxLines := Max(|newLines|, |previousLines|);
    for i := 0 to maxLines
      invariant firstChanged == -1 ==> lastChanged == -1 && forall k :: k < i ==> !Differ(previousLines, newLines, k)
      invariant firstChanged != -1 ==>
        && 0 <= firstChanged <= lastChanged < i
        && Differ(previousLines, newLines, firstChanged) && Differ(previousLines, newLines, lastChanged)
        && (forall k :: k < firstChanged ==> !Differ(previousLines, newLines, k))
        && (forall k :: lastChanged < k < i ==> !Differ(previousLines, newLines, k))
    {
      var oldLine := if i < |previousLines| then previousLines[i] else [];
      var newLine := if i < |newLines| then newLines[i] else [];
      if oldLine != newLine {
        if firstChanged == -1 {
          firstChanged := i;
        }
        lastChanged := i;
      }
    }
    assert forall k :: maxLines <= k ==> !Differ(previousLines, newLines, k);
    if |newLines| > |previousLines| {
      if firstChanged == -1 {
        firstChanged := |previousLines|;
      }
      lastChanged := |newLines| - 1;
    }
  }

  /** The change is out of the terminal's reach: the frame ends above the viewport, or it shrinks
      with changes both above the viewport and in its remaining lines. */
  ghost predicate OutOfReach(old_: seq<Line>, new_: seq<Line>, top: int) {
    || Max(0, |new_| - 1) < top
    || (&& |new_| < |old_|
        && (exists i :: 0 <= i < top && Differ(old_, new_, i))
        && (exists i :: top <= i < |new_| && Differ(old_, new_, i)))
  }

  ghost predicate SameFrom(old_: seq<Line>, new_: seq<Line>, lo: int, hi: int) {
    forall i :: lo <= i < hi ==> !Differ(old_, new_, i)
  }

  /** Decides what to repaint. Changes above the viewport are in the scrollback already and are
      skipped when the rest of the frame allows it. */
  method PlanPatch(previousLines: seq<Line>, newLines: seq<Line>, prevViewportTop: int)
    returns (firstChanged: int, lastChanged: int, appendStart: bool, offscreenOnlyChange: bool)
    requires 0 <= prevViewportTop <= Max(0, |previousLines| - 1)
    requires forall i :: 0 <= i < |previousLines| ==> previousLines[i] != []
    requires forall i :: 0 <= i < |newLines| ==> newLines[i] != []
    ensures firstChanged == -1 ==>
      && !OutOfReach(previousLines, newLines, prevViewportTop)
      && |newLines| == |previousLines|
      && (forall i :: prevViewportTop <= i ==> !Differ(previousLines, newLines, i))
      && (!offscreenOnlyChange ==> newLines == previousLines)
    ensures firstChanged >= prevViewportTop ==>
      && SameFrom(previousLines, newLines, prevViewportTop, firstChanged)
      && firstChanged <= lastChanged < Max(|newLines|, |previousLines|)
      && (forall i :: lastChanged < i ==> !Differ(previousLines, newLines, i))
      && firstChanged <= |previousLines|
      && (Differ(previousLines, newLines, firstChanged) || firstChanged == |previousLines| < |newLines|)
      && (Differ(previousLines, newLines, lastChanged) || |previousLines| < |newLines|)
      && appendStart == (|newLines| > |previousLines| && firstChanged == |previousLines| && firstChanged > 0)
      && (|newLines| > |previousLines| ==> lastChanged == |newLines| - 1)
      && (|newLines| < |previousLines| ==> lastChanged == |previousLines| - 1)
    ensures firstChanged >= -1
    ensures 0 <= firstChanged < prevViewportTop ==> OutOfReach(previousLines, newLines, prevViewportTop)
    ensures OutOfReach(previousLines, newLines, prevViewportTop) ==>
      firstChanged < prevViewportTop || (firstChanged >= |newLines| && Max(0, |newLines| - 1) < prevViewportTop)
  {
    firstChanged, lastChanged := ComputeDiff(previousLines, newLines);
    ghost var first := firstChanged;
    var appendedLines := |newLines| > |previousLines|;
    appendStart := appendedLines && firstChanged == |previousLines| && firstChanged > 0;
    offscreenOnlyChange := false;
    var newContentReachesViewport := Max(0, |newLines| - 1) >= prevViewportTop;
    var shrinking := |newLines| < |previousLines|;
    ghost var atEnd := Differ(previousLines, newLines, |previousLines|);
    ghost var lastOld := Differ(previousLines, newLines, |previousLines| - 1);
    if firstChanged == -1 {
      EqualWhenSame(previousLines, newLines);
    }

    var visibleContentStableDuringShrink := true;
    if shrinking {
      var i := prevViewportTop;
      while i < |newLines|
        invariant prevViewportTop <= i
        invariant visibleContentStableDuringShrink
        invariant SameFrom(previousLines, newLines, prevViewportTop, i)
      {
        if previousLines[i] != newLines[i] {
          assert Differ(previousLines, newLines, i);
          visibleContentStableDuringShrink := false;
          break;
        }
        i := i + 1;
      }
    }

    if firstChanged >= 0 && firstChanged < prevViewportTop && newContentReachesViewport
       && visibleContentStableDuringShrink {
      var firstVisibleChanged := FirstDifference(previousLines, newLines, prevViewportTop);
      if firstVisibleChanged == -1 && !appendedLines {
        firstChanged, lastChanged, offscreenOnlyChange := -1, -1, true;
      } else {
        firstChanged := if firstVisibleChanged == -1 then |previousLines| else firstVisibleChanged;
        appendStart := appendedLines && firstChanged == |previousLines| && firstChanged > 0;
      }
    }
  }

  lemma EqualWhenSame(a: seq<Line>, b: seq<Line>)
    requires forall i :: 0 <= i < |a| ==> a[i] != []
    requires forall i :: 0 <= i < |b| ==> b[i] != []
    requires forall i :: 0 <= i ==> !Differ(a, b, i)
    ensures a == b
  {
    var atEnd := Differ(a, b, Min(|a|, |b|));
    forall i | 0 <= i < |a| ensures a[i] == b[i] {
      assert !Differ(a, b, i);
    }
  }

  /** First changed line at or below `from`, -1 if there is none. */
  method FirstDifference(previousLines: seq<Line>, newLines: seq<Line>, from: int) returns (first: int)
    requires 0 <= from
    ensures first == -1 ==> forall i :: from <= i ==> !Differ(previousLines, newLines, i)
    ensures first != -1 ==>
      && from <= first < Max(|newLines|, |previousLines|)
      && Differ(previousLines, newLines, first) && SameFrom(previousLines, newLines, from, first)
  {
    var i := from;
    while i < Max(|newLines|, |previousLines|)
      invariant from <= i && SameFrom(previousLines, newLines, from, i)
    {
      var oldLine := if i < |previousLines| then previousLines[i] else [];
      var newLine := if i < |newLines| then newLines[i] else [];
      if oldLine != newLine {
        return i;
      }
      i := i + 1;
    }
    return -1;
  }

  // ----- emitted buffers -----

  lemma GoTo(base: Term, t: Term, old_: seq<Line>, new_: seq<Line>, from: int, top: int, at: int, done: int, d: int)
    requires Repainting(base, t, old_, new_, from, top, at, done)
    requires 0 <= at + d - top < t.height
    ensures Repainting(base, Exec(t, MoveRows(d)), old_, new_, from, top, at + d, done)
    ensures Exec(t, MoveRows(d)).col == t.col
  {
    MoveRowsEffect(t, d);
  }

  lemma ReturnCarriage(base: Term, t: Term, old_: seq<Line>, new_: seq<Line>, from: int, top: int, at: int, done: int)
    requires Repainting(base, t, old_, new_, from, top, at, done)
    ensures Repainting(base, Exec(t, [CR]), old_, new_, from, top, at, done) && Exec(t, [CR]).col == 0
  {
    ExecOne(t, CR);
  }

  /** Lines that did not change count as repainted. */
  lemma SkipUnchanged(base: Term, t: Term, old_: seq<Line>, new_: seq<Line>, from: int, top: int, at: int,
                      done: int, done': int)
    requires Repainting(base, t, old_, new_, from, top, at, done)
    requires AllSendable(old_, t.width) && AllSendable(new_, t.width)
    requires done <= done' && SameFrom(old_, new_, Max(done, top), done')
    ensures Repainting(base, t, old_, new_, from, top, at, done')
  {
    forall r | 0 <= r < t.height
      ensures t.screen[r] == RowAt(if top + r < done' then new_ else old_, top + r, t.width)
    {
      if done <= top + r < done' {
        SameLineSameRow(old_, new_, top + r, t.width);
      }
    }
  }

  /** A coupled terminal is one on which nothing has been repainted yet. */
  lemma CoupledIsRepainting(t: Term, m: Memory, new_: seq<Line>)
    requires Coupled(t, m)
    ensures Repainting(t, t, m.lines, new_, m.top, m.top, m.cursorRow, m.top)
  {
    assert Rows(new_, m.top, m.top, t.width) == [];
  }

  // ----- what is sent, whatever the terminal shows -----

  /** Lines first..i, each after erasing its row. */
  function LinesOps(lines: seq<Line>, first: int, i: int): seq<Op>
    decreases i - first
  {
    if i <= first then []
    else LinesOps(lines, first, i - 1) + (if i - 1 > first then [CR, LF] else []) + [EL2, Write(LineAt(lines, i - 1))]
  }

  /** Clears n rows downwards from the cursor's without scrolling, or n rows below it. */
  function ClearTailOps(n: int): seq<Op>
    decreases n
  {
    if n <= 0 then [] else ClearTailOps(n - 1) + (if n > 1 then [CUD(1)] else []) + [CR, EL2]
  }

  function ClearBelowOps(n: int): seq<Op>
    decreases n
  {
    if n <= 0 then [] else ClearBelowOps(n - 1) + [CR, LF, EL2]
  }

  /** With only deleted lines changed, from their last remaining neighbour on. */
  function DeletedOps(oldCount: int, newCount: int): seq<Op> {
    var offset := if newCount == 0 then 0 else 1;
    [CR] + MoveRows(offset) + ClearTailOps(oldCount - newCount) + MoveRows(-Max(0, oldCount - newCount - 1 + offset))
  }

  /** Where the repaint of a range begins. */
  function MoveTarget(firstChanged: int, appendStart: bool): int {
    if appendStart then firstChanged - 1 else firstChanged
  }

  /** From there on. */
  function ChangedOps(oldCount: int, lines: seq<Line>, firstChanged: int, lastChanged: int,
                      appendStart: bool): seq<Op> {
    var renderEnd := Min(lastChanged, |lines| - 1);
    (if appendStart then [CR, LF] else [CR]) + LinesOps(lines, firstChanged, renderEnd + 1)
    + EndOps(oldCount, lines, renderEnd)
  }

  function EndOps(oldCount: int, lines: seq<Line>, renderEnd: int): seq<Op> {
    if oldCount <= |lines| then []
    else (if renderEnd < |lines| - 1 then [CUD(|lines| - 1 - renderEnd)] else [])
         + ClearBelowOps(oldCount - |lines|) + MoveRows(|lines| - oldCount)
  }

  function FinalRow(oldCount: int, lines: seq<Line>, lastChanged: int): int {
    if oldCount > |lines| then |lines| - 1 else Min(lastChanged, |lines| - 1)
  }

  /** What a differential render writes, and the line it believes the cursor is on then. */
  ghost predicate PatchOps(m: Memory, lines: seq<Line>, ops: seq<Op>, row: int) {
    || (&& |lines| == |m.lines| && (forall i :: m.top <= i ==> !Differ(m.lines, lines, i))
        && ops == [] && row == m.cursorRow)
    || (&& |lines| < |m.lines| && SameFrom(m.lines, lines, m.top, |lines|)
        && row == Max(0, |lines| - 1) && ops == MoveRows(row - m.cursorRow) + DeletedOps(|m.lines|, |lines|))
    || exists first: int, last: int, append: bool ::
         && first < |lines| && Planned(m, lines, first, last, append)
         && ops == MoveRows(MoveTarget(first, append) - m.cursorRow) + ChangedOps(|m.lines|, lines, first, last, append)
         && row == FinalRow(|m.lines|, lines, last)
  }

  /** A terminal on which a remembered frame is shown with the cursor on one of its lines. */
  ghost function Ideal(m: Memory, row: int): Term
    requires m.width >= 0 && m.height >= 0 && m.top <= row
  {
    Term(m.width, m.height, [], Rows(m.lines, m.top, m.top + m.height, m.width), row - m.top, 0, PLAIN, false)
  }

  lemma IdealIsCoupled(m: Memory, row: int)
    requires Sound(m) && m.lines != [] && m.top <= row < m.top + m.height
    ensures Coupled(Ideal(m, row), m.(cursorRow := row))
  {
    var t := Ideal(m, row);
    assert forall r :: 0 <= r < t.height ==> t.screen[r] == RowAt(m.lines, m.top + r, t.width);
  }

  lemma Arrives(t: Term, m: Memory, row: int)
    requires Coupled(t, m) && m.lines != [] && m.top <= row < m.top + t.height
    ensures var u := Exec(t, MoveRows(row - m.cursorRow));
      u == t.(row := row - m.top) && Coupled(u, m.(cursorRow := row))
  {
    hide Show, Sendable;
    MoveRowsEffect(t, row - m.cursorRow);
  }

  /** Vertical move to a line of the screen, appended to the buffer. */
  method EmitMove(oldLines: seq<Line>, newLines: seq<Line>, ghost from: int, ghost top: int, ghost at: int,
                  ghost done: int, d: int, buffer: seq<Op>, ghost base: Term) returns (r: seq<Op>)
    requires base.Valid()
    requires Repainting(base, Exec(base, buffer), oldLines, newLines, from, top, at, done)
    requires 0 <= at + d - top < base.height
    ensures Repainting(base, Exec(base, r), oldLines, newLines, from, top, at + d, done)
    ensures Exec(base, r).col == Exec(base, buffer).col
    ensures r == buffer + MoveRows(d)
  {
    GoTo(base, Exec(base, buffer), oldLines, newLines, from, top, at, done, d);
    ExecConcat(base, buffer, MoveRows(d));
    r := buffer + MoveRows(d);
  }

  /** Clears the rows that held lines |newLines|..|oldLines|, starting with the cursor on the first. */
  method EmitClearTail(oldLines: seq<Line>, newLines: seq<Line>, ghost top: int, before: seq<Op>, ghost t: Term)
    returns (buffer: seq<Op>)
    requires t.Valid() && top <= |newLines| < |oldLines| <= top + t.height
    requires Repainting(t, Exec(t, before), oldLines, newLines, top, top, |newLines|, |newLines|)
    ensures Repainting(t, Exec(t, buffer), oldLines, newLines, top, top, |oldLines| - 1, |oldLines|)
    ensures Exec(t, buffer).col == 0
    ensures buffer == before + ClearTailOps(|oldLines| - |newLines|)
  {
    hide Repainting, Exec;
    var extraLines := |oldLines| - |newLines|;
    buffer := before;
    for i := 0 to extraLines
      invariant Repainting(t, Exec(t, buffer), oldLines, newLines, top, top,
                           Min(|newLines| + i, |oldLines| - 1), |newLines| + i)
      invariant i == extraLines ==> Exec(t, buffer).col == 0
      invariant buffer == before + ClearTailOps(i) + (if 0 < i < extraLines then [CUD(1)] else [])
    {
      ghost var start := buffer;
      buffer := EmitClearLine(oldLines, newLines, top, |newLines| + i, buffer, t);
      if i < extraLines - 1 {
        buffer := EmitMove(oldLines, newLines, top, top, |newLines| + i, |newLines| + i + 1, 1, buffer, t);
      }
      assert start + [CR, EL2] == before + ClearTailOps(i + 1);
    }
  }

  /** With the cursor on the last remaining line, nothing above it having changed. */
  lemma ReturnAtEnd(m: Memory, newLines: seq<Line>, targetRow: int, t: Term)
    requires Coupled(t, m.(cursorRow := targetRow)) && AllSendable(newLines, t.width)
    requires |newLines| < |m.lines| && targetRow == Max(0, |newLines| - 1) >= m.top
    requires SameFrom(m.lines, newLines, m.top, |newLines|)
    ensures Repainting(t, Exec(t, [CR]), m.lines, newLines, m.top, m.top, targetRow, |newLines|)
  {
    hide Repainting, Sendable;
    CoupledIsRepainting(t, m.(cursorRow := targetRow), newLines);
    SkipUnchanged(t, t, m.lines, newLines, m.top, m.top, targetRow, m.top, |newLines|);
    ReturnCarriage(t, t, m.lines, newLines, m.top, m.top, targetRow, |newLines|);
  }

  /** Buffer when only lines past the new end were changed: clear them without scrolling. */
  method EmitDeletedTail(m: Memory, newLines: seq<Line>, ghost t: Term) returns (buffer: seq<Op>)
    requires Coupled(t, m.(cursorRow := Max(0, |newLines| - 1))) && AllSendable(newLines, t.width)
    requires |newLines| < |m.lines| && Max(0, |newLines| - 1) >= m.top
    requires SameFrom(m.lines, newLines, m.top, |newLines|)
    ensures buffer == DeletedOps(|m.lines|, |newLines|)
    ensures Repainting(t, Exec(t, buffer), m.lines, newLines, m.top, m.top, Max(0, |newLines| - 1), |m.lines|)
    ensures newLines == [] ==> Exec(t, buffer).col == 0
  {
    var targetRow := Max(0, |newLines| - 1);
    buffer := [CR];
    ReturnAtEnd(m, newLines, targetRow, t);
    var extraLines := |m.lines| - |newLines|;
    var clearStartOffset := if |newLines| == 0 then 0 else 1;
    buffer := EmitMove(m.lines, newLines, m.top, m.top, targetRow, |newLines|, clearStartOffset, buffer, t);
    buffer := EmitClearTail(m.lines, newLines, m.top, buffer, t);
    var moveBack := Max(0, extraLines - 1 + clearStartOffset);
    buffer := EmitMove(m.lines, newLines, m.top, m.top, |m.lines| - 1, |m.lines|, -moveBack, buffer, t);
  }

  /** CR and erase on a line below the new frame. */
  method EmitClearLine(oldLines: seq<Line>, newLines: seq<Line>, ghost top: int, ghost at: int,
                       buffer: seq<Op>, ghost t: Term) returns (r: seq<Op>)
    requires t.Valid() && |newLines| <= at
    requires Repainting(t, Exec(t, buffer), oldLines, newLines, top, top, at, at)
    ensures Repainting(t, Exec(t, r), oldLines, newLines, top, top, at, at + 1)
    ensures Exec(t, r).col == 0
    ensures r == buffer + [CR, EL2]
  {
    ExecConcat(t, buffer, [CR]);
    ReturnCarriage(t, Exec(t, buffer), oldLines, newLines, top, top, at, at);
    EraseStep(t, Exec(t, buffer + [CR]), oldLines, newLines, top, top, at);
    ExecConcat(t, buffer + [CR], [EL2]);
    r := buffer + [CR] + [EL2];
  }

  /** The viewport top once line i has been written below a viewport that began at `top`. */
  function TopAfter(top: int, i: int, height: int): int {
    Max(top, i - height + 1)
  }

  /** CR LF, appended to the buffer; the screen scrolls when the cursor is on its last row. */
  method EmitLineFeed(oldLines: seq<Line>, newLines: seq<Line>, ghost from: int, ghost top: int, ghost at: int,
                      buffer: seq<Op>, ghost base: Term) returns (r: seq<Op>)
    requires base.Valid() && 0 <= from && |oldLines| <= from + base.height
    requires Repainting(base, Exec(base, buffer), oldLines, newLines, from, top, at, at + 1)
    ensures Repainting(base, Exec(base, r), oldLines, newLines, from, TopAfter(top, at + 1, base.height), at + 1,
                       at + 1)
    ensures Exec(base, r).col == 0
    ensures r == buffer + [CR, LF]
  {
    LineFeedStep(base, Exec(base, buffer), oldLines, newLines, from, top, at);
    ExecConcat(base, buffer, [CR, LF]);
    r := buffer + [CR, LF];
  }

  /** Erase and write one line, appended to the buffer. */
  method EmitLine(oldLines: seq<Line>, newLines: seq<Line>, ghost from: int, ghost top: int, at: int,
                  buffer: seq<Op>, ghost base: Term) returns (r: seq<Op>)
    requires base.Valid() && 0 <= at < |newLines| && Sendable(newLines[at], base.width)
    requires Repainting(base, Exec(base, buffer), oldLines, newLines, from, top, at, at)
    requires Exec(base, buffer).col == 0
    ensures Repainting(base, Exec(base, r), oldLines, newLines, from, top, at, at + 1)
    ensures r == buffer + [EL2, Write(newLines[at])]
  {
    PaintStep(base, Exec(base, buffer), oldLines, newLines, from, top, at, true);
    ExecConcat(base, buffer, [EL2, Write(newLines[at])]);
    r := buffer + [EL2, Write(newLines[at])];
  }

  /** To the start of the first changed line, from that line or the one before an append. */
  method EmitStart(m: Memory, newLines: seq<Line>, height: int, firstChanged: int, appendStart: bool, ghost t: Term)
    returns (buffer: seq<Op>)
    requires Coupled(t, m.(cursorRow := MoveTarget(firstChanged, appendStart))) && m.lines != []
    requires AllSendable(newLines, t.width) && height == t.height
    requires m.top <= firstChanged < |newLines| && firstChanged <= |m.lines|
    requires SameFrom(m.lines, newLines, m.top, firstChanged)
    requires appendStart == (|newLines| > |m.lines| && firstChanged == |m.lines| && firstChanged > 0)
    ensures Repainting(t, Exec(t, buffer), m.lines, newLines, m.top, TopAfter(m.top, firstChanged, height),
                       firstChanged, firstChanged)
    ensures Exec(t, buffer).col == 0
    ensures buffer == if appendStart then [CR, LF] else [CR]
  {
    hide Sendable, Shows, Differ, Repainting;
    ghost var at := MoveTarget(firstChanged, appendStart);
    CoupledIsRepainting(t, m.(cursorRow := at), newLines);
    SkipUnchanged(t, t, m.lines, newLines, m.top, m.top, at, m.top, firstChanged);
    if appendStart {
      buffer := EmitLineFeed(m.lines, newLines, m.top, m.top, firstChanged - 1, [], t);
    } else {
      ReturnCarriage(t, t, m.lines, newLines, m.top, m.top, firstChanged, firstChanged);
      buffer := [CR];
    }
  }

  /** Lines first..i have been rewritten, or nothing has when i is first. */
  ghost predicate LinesUpTo(t: Term, s: Term, oldLines: seq<Line>, newLines: seq<Line>, top: int, first: int, i: int)
    requires t.Valid()
  {
    if i == first then
      s.col == 0 && Repainting(t, s, oldLines, newLines, top, TopAfter(top, first, t.height), first, first)
    else Repainting(t, s, oldLines, newLines, top, TopAfter(top, i - 1, t.height), i - 1, i)
  }

  method EmitNextLine(oldLines: seq<Line>, newLines: seq<Line>, ghost top: int, firstChanged: int, i: int,
                      before: seq<Op>, ghost t: Term) returns (buffer: seq<Op>)
    requires t.Valid() && 0 <= top <= firstChanged <= i < |newLines| && |oldLines| <= top + t.height
    requires Sendable(newLines[i], t.width)
    requires LinesUpTo(t, Exec(t, before), oldLines, newLines, top, firstChanged, i)
    ensures LinesUpTo(t, Exec(t, buffer), oldLines, newLines, top, firstChanged, i + 1)
    ensures buffer == before + (if i > firstChanged then [CR, LF] else []) + [EL2, Write(newLines[i])]
  {
    hide Repainting, Sendable, Exec;
    buffer := before;
    if i > firstChanged {
      buffer := EmitLineFeed(oldLines, newLines, top, TopAfter(top, i - 1, t.height), i - 1, buffer, t);
    }
    buffer := EmitLine(oldLines, newLines, top, TopAfter(top, i, t.height), i, buffer, t);
  }

  /** Rewrites lines firstChanged..renderEnd, the cursor being on the first of them. */
  method EmitLines(oldLines: seq<Line>, newLines: seq<Line>, ghost top: int, firstChanged: int, renderEnd: int,
                   before: seq<Op>, ghost t: Term) returns (buffer: seq<Op>)
    requires t.Valid() && AllSendable(newLines, t.width)
    requires 0 <= top <= firstChanged <= renderEnd < |newLines| && |oldLines| <= top + t.height
    requires LinesUpTo(t, Exec(t, before), oldLines, newLines, top, firstChanged, firstChanged)
    ensures LinesUpTo(t, Exec(t, buffer), oldLines, newLines, top, firstChanged, renderEnd + 1)
    ensures buffer == before + LinesOps(newLines, firstChanged, renderEnd + 1)
  {
    hide LinesUpTo, Sendable, Exec;
    buffer := before;
    for i := firstChanged to renderEnd + 1
      invariant LinesUpTo(t, Exec(t, buffer), oldLines, newLines, top, firstChanged, i)
      invariant buffer == before + LinesOps(newLines, firstChanged, i)
    {
      buffer := EmitNextLine(oldLines, newLines, top, firstChanged, i, buffer, t);
    }
  }

  /** Clears the old lines below a frame that got shorter, then returns to its last line. */
  method EmitClearBelow(oldLines: seq<Line>, newLines: seq<Line>, ghost top: int, before: seq<Op>, ghost t: Term)
    returns (buffer: seq<Op>)
    requires t.Valid() && 0 <= top < |newLines| < |oldLines| <= top + t.height
    requires Repainting(t, Exec(t, before), oldLines, newLines, top, top, |newLines| - 1, |newLines|)
    ensures Repainting(t, Exec(t, buffer), oldLines, newLines, top, top, |newLines| - 1, |oldLines|)
    ensures buffer == before + ClearBelowOps(|oldLines| - |newLines|) + MoveRows(|newLines| - |oldLines|)
  {
    hide Repainting, Exec;
    buffer := before;
    var extraLines := |oldLines| - |newLines|;
    for i := |newLines| to |oldLines|
      invariant Repainting(t, Exec(t, buffer), oldLines, newLines, top, top, i - 1, i)
      invariant buffer == before + ClearBelowOps(i - |newLines|)
    {
      buffer := EmitLineFeed(oldLines, newLines, top, top, i - 1, buffer, t);
      EraseStep(t, Exec(t, buffer), oldLines, newLines, top, top, i);
      ExecConcat(t, buffer, [EL2]);
      buffer := buffer + [EL2];
    }
    buffer := EmitMove(oldLines, newLines, top, top, |oldLines| - 1, |oldLines|, -extraLines, buffer, t);
  }

  /** A repaint from firstChanged to lastChanged covers every visible change. */
  ghost predicate Planned(m: Memory, newLines: seq<Line>, firstChanged: int, lastChanged: int, appendStart: bool) {
    && m.top <= firstChanged <= |m.lines|
    && firstChanged <= lastChanged < Max(|newLines|, |m.lines|)
    && SameFrom(m.lines, newLines, m.top, firstChanged)
    && (forall i :: lastChanged < i ==> !Differ(m.lines, newLines, i))
    && (Differ(m.lines, newLines, firstChanged) || firstChanged == |m.lines| < |newLines|)
    && (Differ(m.lines, newLines, lastChanged) || |m.lines| < |newLines|)
    && appendStart == (|newLines| > |m.lines| && firstChanged == |m.lines| && firstChanged > 0)
    && (|newLines| > |m.lines| ==> lastChanged == |newLines| - 1)
    && (|newLines| < |m.lines| ==> lastChanged == |m.lines| - 1)
  }

  /** Goes to the first changed line, then writes the changed lines. */
  method EmitChangedLines(m: Memory, newLines: seq<Line>, height: int, firstChanged: int, renderEnd: int,
                          appendStart: bool, ghost t: Term) returns (buffer: seq<Op>)
    requires Coupled(t, m.(cursorRow := MoveTarget(firstChanged, appendStart))) && m.lines != []
    requires AllSendable(newLines, t.width) && height == t.height
    requires m.top <= firstChanged <= renderEnd < |newLines| && firstChanged <= |m.lines|
    requires SameFrom(m.lines, newLines, m.top, firstChanged)
    requires appendStart == (|newLines| > |m.lines| && firstChanged == |m.lines| && firstChanged > 0)
    ensures Repainting(t, Exec(t, buffer), m.lines, newLines, m.top, TopAfter(m.top, renderEnd, height),
                       renderEnd, renderEnd + 1)
    ensures buffer == (if appendStart then [CR, LF] else [CR]) + LinesOps(newLines, firstChanged, renderEnd + 1)
  {
    buffer := EmitStart(m, newLines, height, firstChanged, appendStart, t);
    buffer := EmitLines(m.lines, newLines, m.top, firstChanged, renderEnd, buffer, t);
  }

  /** Clears what is left of a longer old frame and settles the final cursor line. */
  method EmitPatchEnd(m: Memory, newLines: seq<Line>, renderEnd: int, ghost lastChanged: int, before: seq<Op>,
                      ghost t: Term)
    returns (buffer: seq<Op>, finalCursorRow: int)
    requires t.Valid() && 0 <= m.top <= renderEnd < |newLines| && |m.lines| <= m.top + t.height
    requires AllSendable(m.lines, t.width) && AllSendable(newLines, t.width)
    requires renderEnd == Min(lastChanged, |newLines| - 1)
    requires forall i :: lastChanged < i ==> !Differ(m.lines, newLines, i)
    requires |newLines| > |m.lines| ==> lastChanged == |newLines| - 1
    requires |newLines| < |m.lines| ==> lastChanged == |m.lines| - 1
    requires Repainting(t, Exec(t, before), m.lines, newLines, m.top, TopAfter(m.top, renderEnd, t.height),
                        renderEnd, renderEnd + 1)
    ensures 0 <= finalCursorRow < |newLines|
    ensures TopAfter(m.top, finalCursorRow, t.height) == Max(m.top, |newLines| - t.height)
    ensures Repainting(t, Exec(t, buffer), m.lines, newLines, m.top, Max(m.top, |newLines| - t.height),
                       finalCursorRow, Max(|newLines|, |m.lines|))
    ensures buffer == before + EndOps(|m.lines|, newLines, renderEnd)
    ensures finalCursorRow == FinalRow(|m.lines|, newLines, lastChanged)
  {
    buffer := before;
    finalCursorRow := renderEnd;
    if |m.lines| > |newLines| {
      if renderEnd < |newLines| - 1 {
        buffer := buffer + [CUD(|newLines| - 1 - renderEnd)];
        finalCursorRow := |newLines| - 1;
      }
      buffer := EmitClearBelow(m.lines, newLines, m.top, buffer, t);
    } else {
      SkipUnchanged(t, Exec(t, buffer), m.lines, newLines, m.top, TopAfter(m.top, renderEnd, t.height), renderEnd,
                    renderEnd + 1, |newLines|);
    }
  }

  /** Buffer that repaints from the first changed line, or the line before an append, and the line the cursor ends
      on. */
  method EmitPatch(m: Memory, newLines: seq<Line>, height: int, firstChanged: int, lastChanged: int, appendStart: bool,
                   ghost t: Term) returns (buffer: seq<Op>, finalCursorRow: int)
    requires Coupled(t, m.(cursorRow := MoveTarget(firstChanged, appendStart))) && m.lines != []
    requires AllSendable(newLines, t.width) && height == t.height
    requires firstChanged < |newLines| && Planned(m, newLines, firstChanged, lastChanged, appendStart)
    ensures 0 <= finalCursorRow < |newLines|
    ensures TopAfter(m.top, finalCursorRow, height) == Max(m.top, |newLines| - height)
    ensures Repainting(t, Exec(t, buffer), m.lines, newLines, m.top, Max(m.top, |newLines| - height),
                       finalCursorRow, Max(|newLines|, |m.lines|))
    ensures buffer == ChangedOps(|m.lines|, newLines, firstChanged, lastChanged, appendStart)
    ensures finalCursorRow == FinalRow(|m.lines|, newLines, lastChanged)
  {
    var renderEnd := Min(lastChanged, |newLines| - 1);
    buffer := EmitChangedLines(m, newLines, height, firstChanged, renderEnd, appendStart, t);
    buffer, finalCursorRow := EmitPatchEnd(m, newLines, renderEnd, lastChanged, buffer, t);
  }
}
