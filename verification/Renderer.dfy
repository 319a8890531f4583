/** The differential renderer: it remembers the last frame, where the viewport stood and where the
    cursor was left, and sends only relative moves and changed lines. */
module Renderer {
  import opened Text
  import opened Terminal
  import opened Frames
  import opened Patching

  class Device {
    var state: Term

    constructor (t: Term)
      ensures state == t
    {
      state := t;
    }

    method Send(ops: seq<Op>)
      requires state.Valid()
      modifies this
      ensures state == Exec(old(state), ops)
    {
      var i := 0;
      assert ops[..0] == [];
      while i < |ops|
        invariant 0 <= i <= |ops| && state.Valid()
        invariant state == Exec(old(state), ops[..i])
      {
        ExecSnoc(old(state), ops[..i], ops[i]);
        assert ops[..i + 1] == ops[..i] + [ops[i]];
        state := Apply(state, ops[i]);
        i := i + 1;
      }
      assert ops[..i] == ops;
    }

    /** Sends the buffer inside a synchronized update. */
    method SendSynchronized(buffer: seq<Op>)
      requires state.Valid()
      modifies this
      ensures state == Exec(old(state), buffer)
    {
      SyncIsNeutral(state, buffer);
      Send(InSync(buffer));
    }

    method ShowCursor(on: bool)
      modifies this
      ensures state == old(state).(cursorShown := on)
    {
      state := state.(cursorShown := on);
    }
  }

  datatype Path = Full(mode: Mode) | Patch

  /** Which way a frame is rendered. `mayClear`: a shrinking frame is to be repainted whole. */
  ghost function PathOf(m: Memory, lines: seq<Line>, clear: bool, force: bool, resized: bool, mayClear: bool): Path {
    if clear then Full(Clear)
    else if force then Full(Viewport)
    else if m.lines == [] && !resized then Full(Initial)
    else if resized || (mayClear && |lines| < m.extent) || OutOfReach(m.lines, lines, m.top) then Full(Viewport)
    else Patch
  }

  /** A render that covers the whole screen, so that it does not matter what was there. */
  predicate Repaints(path: Path) {
    path.Full? && path.mode != Initial
  }

  // ----- what is sent, whatever the terminal shows -----

  function AllLinesOps(lines: seq<Line>, i: nat): seq<Op>
    requires i <= |lines|
  {
    if i == 0 then [] else AllLinesOps(lines, i - 1) + (if i > 1 then [CR, LF] else []) + [Write(lines[i - 1])]
  }

  function ClearRowsOps(n: nat): seq<Op> {
    if n == 0 then [] else ClearRowsOps(n - 1) + [CUP(n, 1), EL2]
  }

  function FillOps(lines: seq<Line>, top: nat, i: nat): seq<Op>
    requires i <= |lines|
    decreases i
  {
    if i <= top then [] else FillOps(lines, top, i - 1) + [CUP(i - top, 1), Write(lines[i - 1])]
  }

  function FullOps(mode: Mode, lines: seq<Line>, height: nat): seq<Op> {
    match mode
    case Initial => AllLinesOps(lines, |lines|)
    case Clear => ERASE_ALL + AllLinesOps(lines, |lines|)
    case Viewport => ClearRowsOps(height) + FillOps(lines, Max(0, |lines| - height), |lines|)
  }

  /** What a render writes on its path, and the line it believes the cursor is on then. */
  ghost predicate PathOps(path: Path, m: Memory, lines: seq<Line>, height: nat, ops: seq<Op>, row: int) {
    match path
    case Full(mode) => ops == FullOps(mode, lines, height) && row == Max(0, |lines| - 1)
    case Patch => PatchOps(m, lines, ops, row)
  }

  /** The viewport top a render remembers. */
  function TopFor(path: Path, m: Memory, lineCount: int, height: int): int {
    if path == Patch then Max(m.top, lineCount - height) else Max(0, lineCount - height)
  }

  function ExtentFor(path: Path, m: Memory, lineCount: int): int {
    if Repaints(path) then lineCount else Max(m.extent, lineCount)
  }

  /** A render in whatever state the terminal is: exactly what its path prescribes is written, the cursor is
      positioned from where it is believed to be, and the memory is as if all had gone well. */
  ghost predicate Sent(path: Path, t: Term, m: Memory, s: Term, lines: seq<Line>, pos: Option<Position>, m': Memory)
    requires t.Valid()
  {
    && s.Valid() && s.pen == PLAIN && s.width == t.width && s.height == t.height
    && Sound(m')
    && m' == Memory(lines, TopFor(path, m, |lines|, t.height), m'.cursorRow, ExtentFor(path, m, |lines|),
                    t.width, t.height)
    && exists ops: seq<Op>, row: int ::
         PathOps(path, m, lines, t.height, ops, row) && Positioned(Exec(t, ops), row, s, m'.cursorRow, pos, |lines|)
  }

  /** A differential render after the cursor has moved to line `row` as if the memory were right: there is a terminal
      on which it was, and from here on both are sent the same. */
  lemma Arrival(t: Term, m: Memory, row: int) returns (u: Term)
    requires t.Valid() && t.pen == PLAIN && Sound(m) && m.lines != [] && m.width == t.width && m.height == t.height
    requires m.top <= row < m.top + t.height
    ensures Coupled(u, m.(cursorRow := row)) && u.width == t.width && u.height == t.height
    ensures Exec(t, MoveRows(row - m.cursorRow)).pen == PLAIN
    ensures Coupled(t, m) ==> u == Exec(t, MoveRows(row - m.cursorRow)) && u.scrollback == t.scrollback
  {
    hide ScreenShown, CursorTracked, Sendable;
    MoveRowsEffect(t, row - m.cursorRow);
    if Coupled(t, m) {
      Arrives(t, m, row);
      u := Exec(t, MoveRows(row - m.cursorRow));
    } else {
      IdealIsCoupled(m, row);
      u := Ideal(m, row);
    }
  }

  /** What rendering `lines` does to the terminal and the memory, by path. */
  ghost predicate Rendered(path: Path, t: Term, m: Memory, s: Term, lines: seq<Line>, pos: Option<Position>,
                           m': Memory) {
    match path
    case Full(mode) => FullyRedrawn(mode, t, m.extent, s, lines, pos, m')
    case Patch => Patched(t, m, s, lines, pos, m')
  }

  class TUI {
    const terminal: Device
    var previousLines: seq<Line>
    var previousWidth: int
    var previousHeight: int
    var previousViewportTop: int
    var hardwareCursorRow: int
    var cursorRow: int
    var maxLinesRendered: int
    var fullRedrawCount: int
    var forceRedrawRequested: bool
    var clearScrollbackRequested: bool
    var showHardwareCursor: bool
    var clearOnShrink: bool
    var stopped: bool

    constructor (terminal: Device, showHardwareCursor: bool, clearOnShrink: bool)
      ensures this.terminal == terminal
      ensures Mem() == FRESH
      ensures !forceRedrawRequested && !clearScrollbackRequested && !stopped
      ensures this.showHardwareCursor == showHardwareCursor && this.clearOnShrink == clearOnShrink
    {
      this.terminal := terminal;
      previousLines, previousWidth, previousHeight := [], 0, 0;
      previousViewportTop, hardwareCursorRow, cursorRow, maxLinesRendered, fullRedrawCount := 0, 0, 0, 0, 0;
      forceRedrawRequested, clearScrollbackRequested, stopped := false, false, false;
      this.showHardwareCursor, this.clearOnShrink := showHardwareCursor, clearOnShrink;
    }

    function Mem(): Memory
      reads this
    {
      Memory(previousLines, previousViewportTop, hardwareCursorRow, maxLinesRendered, previousWidth, previousHeight)
    }

    predicate Resized()
      reads this, terminal
    {
      || (previousWidth != 0 && previousWidth != terminal.state.width)
      || (previousHeight != 0 && previousHeight != terminal.state.height)
    }

    method PositionHardwareCursor(cursorPos: Option<Position>, totalLines: int)
      requires terminal.state.Valid()
      modifies this`hardwareCursorRow, terminal
      ensures terminal.state.Valid()
      ensures Positioned(old(terminal.state), old(hardwareCursorRow), terminal.state, hardwareCursorRow, cursorPos,
                         totalLines)
      ensures terminal.state.cursorShown == (showHardwareCursor && cursorPos.Some? && totalLines > 0)
    {
      if cursorPos.None? || totalLines <= 0 {
        terminal.ShowCursor(false);
        return;
      }
      var targetRow := Max(0, Min(cursorPos.value.row, totalLines - 1));
      var targetCol := Max(0, cursorPos.value.col);
      var rowDelta := targetRow - hardwareCursorRow;
      var buffer := MoveRows(rowDelta);
      MoveRowsEffect(terminal.state, rowDelta);
      ExecSnoc(terminal.state, buffer, CHA(targetCol + 1));
      buffer := buffer + [CHA(targetCol + 1)];
      terminal.Send(buffer);
      hardwareCursorRow := targetRow;
      terminal.ShowCursor(showHardwareCursor);
    }

    /** Strips the cursor marker from the lowest of the bottom `height` lines that has one. */
    method ExtractCursorPosition(lines: seq<Line>, height: nat) returns (pos: Option<Position>, rest: seq<Line>)
      ensures pos == CursorOf(lines, height) && rest == Unmarked(lines, height)
    {
      var viewportTop := Max(0, |lines| - height);
      var row := |lines| - 1;
      while row >= viewportTop
        invariant viewportTop - 1 <= row < |lines|
        invariant CursorOf(lines, height) == FindCursor(lines, viewportTop, row + 1)
      {
        var line := lines[row];
        var markerIndex := MarkerIndex(line);
        if markerIndex < |line| {
          return Some(Position(row, VisibleWidth(line[..markerIndex]))), lines[row := StripMarker(line)];
        }
        row := row - 1;
      }
      return None, lines;
    }

    method ApplyLineResets(lines: seq<Line>) returns (r: seq<Line>)
      ensures r == WithResets(lines)
    {
      r := [];
      for i := 0 to |lines|
        invariant |r| == i
        invariant forall k :: 0 <= k < i ==> r[k] == WithReset(lines[k])
      {
        var line := NormalizeTerminalOutput(lines[i]);
        r := r + [line + SEGMENT_RESET];
      }
    }

    /** `normalizeTerminalOutput`: vowels first, then the visible tabs. */
    static method NormalizeTerminalOutput(line: Line) returns (result: Line)
      ensures result == Normalized(line)
    {
      result := [];
      for i := 0 to |line|
        invariant result == Normalized(line[..i])
      {
        assert line[..i + 1][..i] == line[..i];
        match line[i] {
          case Code(c) =>
            result := result + [Code(Decomposed(c))];
          case Grapheme(t, w) =>
            result := result + (if t == "\t" then TAB_SPACES else [Grapheme(Decomposed(t), w)]);
        }
      }
      assert line[..|line|] == line;
    }

    /** Buffer of the "initial" and "clear" modes: every line in order, separated by CR LF. */
    static method EmitAllLines(newLines: seq<Line>, ghost t: Term) returns (buffer: seq<Op>)
      requires Clean(t) && AllSendable(newLines, t.width)
      ensures Written(t, Exec(t, buffer), newLines, |newLines|)
      ensures buffer == AllLinesOps(newLines, |newLines|)
    {
      buffer := [];
      for i := 0 to |newLines|
        invariant buffer == AllLinesOps(newLines, i)
        invariant Written(t, Exec(t, buffer), newLines, i)
      {
        ghost var start := buffer;
        WriteNextLine(t, Exec(t, start), newLines, i);
        if i > 0 {
          ExecConcat(t, start, [CR, LF]);
          buffer := buffer + [CR, LF];
        }
        ExecConcat(t, buffer, [Write(newLines[i])]);
        buffer := buffer + [Write(newLines[i])];
      }
    }

    /** Buffer of the "viewport" mode: clear every row, then write the bottom lines by absolute position. */
    static method EmitViewport(newLines: seq<Line>, height: int, ghost t: Term) returns (buffer: seq<Op>)
      requires t.Valid() && t.pen == PLAIN && t.height == height && AllSendable(newLines, t.width)
      ensures Filled(t, Exec(t, buffer), newLines, Max(0, |newLines| - height), |newLines|)
      ensures buffer == FullOps(Viewport, newLines, height)
    {
      hide Sendable, Exec;
      buffer := EmitClearRows(height, t);
      ClearedIsFilled(t, Exec(t, buffer), newLines, Max(0, |newLines| - height));
      var viewportTop := Max(0, |newLines| - height);
      for i := viewportTop to |newLines|
        invariant Filled(t, Exec(t, buffer), newLines, viewportTop, i)
        invariant buffer == ClearRowsOps(height) + FillOps(newLines, viewportTop, i)
      {
        FillRow(t, Exec(t, buffer), newLines, viewportTop, i);
        ExecConcat(t, buffer, [CUP(i - viewportTop + 1, 1), Write(newLines[i])]);
        buffer := buffer + [CUP(i - viewportTop + 1, 1), Write(newLines[i])];
      }
    }

    static method EmitClearRows(height: int, ghost t: Term) returns (buffer: seq<Op>)
      requires t.Valid() && t.pen == PLAIN && t.height == height
      ensures Cleared(t, Exec(t, buffer), height)
      ensures buffer == ClearRowsOps(height)
    {
      buffer := [];
      for row := 1 to height + 1
        invariant Cleared(t, Exec(t, buffer), row - 1)
        invariant buffer == ClearRowsOps(row - 1)
      {
        ClearRow(t, Exec(t, buffer), row - 1);
        ExecConcat(t, buffer, [CUP(row, 1), EL2]);
        buffer := buffer + [CUP(row, 1), EL2];
      }
    }

    static method EmitFull(mode: Mode, newLines: seq<Line>, height: int, ghost t: Term) returns (buffer: seq<Op>)
      requires t.Valid() && t.pen == PLAIN && t.height == height && AllSendable(newLines, t.width)
      requires mode == Initial ==> Clean(t)
      ensures Redrawn(mode, t, Exec(t, buffer), newLines)
      ensures buffer == FullOps(mode, newLines, height)
    {
      if mode == Viewport {
        buffer := EmitViewport(newLines, height, t);
        FilledIsRedrawn(t, Exec(t, buffer), newLines);
      } else {
        buffer := if mode == Clear then ERASE_ALL else [];
        if mode == Clear {
          EraseAllCleans(t);
        }
        ghost var clean := Exec(t, buffer);
        var lines := EmitAllLines(newLines, clean);
        ExecConcat(t, buffer, lines);
        WrittenIsRedrawn(mode, t, clean, Exec(clean, lines), newLines);
        buffer := buffer + lines;
      }
    }

    /** Full redraw in one of its three modes. The initial mode writes onto what is there, and so shows the
        frame when the screen is as clean as it assumes. */
    method FullRender(mode: Mode, newLines: seq<Line>, cursorPos: Option<Position>)
      requires terminal.state.Valid() && terminal.state.pen == PLAIN
      requires AllSendable(newLines, terminal.state.width)
      requires cursorPos.Some? ==> cursorPos.value.row < |newLines|
      requires Sound(Mem())
      modifies this`fullRedrawCount, this`cursorRow, this`hardwareCursorRow, this`maxLinesRendered,
               this`previousViewportTop, this`previousLines, this`previousWidth, this`previousHeight, terminal
      ensures mode != Initial || old(Clean(terminal.state)) ==>
                FullyRedrawn(mode, old(terminal.state), old(maxLinesRendered), terminal.state, newLines, cursorPos,
                             Mem())
      ensures Sent(Full(mode), old(terminal.state), old(Mem()), terminal.state, newLines, cursorPos, Mem())
      ensures terminal.state.cursorShown == (showHardwareCursor && cursorPos.Some?)
    {
      hide Redrawn, FullyRedrawn, Positioned, Exec, Sendable, Clean, MoveRows, ScreenShown, FullOps;
      fullRedrawCount := fullRedrawCount + 1;
      var height := terminal.state.height;
      var width := terminal.state.width;
      ghost var t := terminal.state;
      SendFull(mode, newLines, height);
      ghost var drawn := terminal.state;
      cursorRow := Max(0, |newLines| - 1);
      hardwareCursorRow := cursorRow;
      maxLinesRendered := if mode == Initial then Max(maxLinesRendered, |newLines|) else |newLines|;
      previousViewportTop := Max(0, |newLines| - height);
      PositionHardwareCursor(cursorPos, |newLines|);
      previousLines := newLines;
      previousWidth := width;
      previousHeight := height;
      if mode != Initial || Clean(t) {
        RedrawCouples(mode, t, old(maxLinesRendered), drawn, terminal.state, newLines, cursorPos, Mem());
      }
      PositionedKeeps(drawn, Max(0, |newLines| - 1), terminal.state, hardwareCursorRow, cursorPos, |newLines|);
      FullIsSent(mode, t, old(Mem()), terminal.state, newLines, cursorPos, Mem());
    }

    method SendFull(mode: Mode, newLines: seq<Line>, height: int)
      requires terminal.state.Valid() && terminal.state.pen == PLAIN && terminal.state.height == height
      requires AllSendable(newLines, terminal.state.width)
      modifies terminal
      ensures terminal.state == Exec(old(terminal.state), FullOps(mode, newLines, height))
      ensures terminal.state.pen == PLAIN
      ensures mode != Initial || old(Clean(terminal.state)) ==>
                Redrawn(mode, old(terminal.state), terminal.state, newLines)
    {
      hide Redrawn, Exec, Sendable, Clean, FullOps;
      ghost var t := terminal.state;
      ghost var u := if mode == Initial && !Clean(t) then CleanTerm(t.width, height) else t;
      CleanTermIsClean(t.width, height);
      var buffer := EmitFull(mode, newLines, height, u);
      PenFollowsOps(t, u, buffer);
      RedrawnIsPlain(mode, u, Exec(u, buffer), newLines);
      terminal.SendSynchronized(buffer);
    }

    /** Renders one frame, in whatever state earlier renders have left the terminal. */
    method DoRender(frame: seq<Line>, overlays: bool)
      requires terminal.state.Valid() && terminal.state.pen == PLAIN
      requires Fits(frame, terminal.state.width)
      requires Sound(Mem())
      modifies this, terminal
      ensures old(stopped) ==> Mem() == old(Mem()) && terminal.state == old(terminal.state)
      ensures !old(stopped) ==>
        var lines := Prepared(frame, old(terminal.state.height));
        var path := PathOf(old(Mem()), lines, old(clearScrollbackRequested), old(forceRedrawRequested), old(Resized()),
                           clearOnShrink && !overlays);
        && Sent(path, old(terminal.state), old(Mem()), terminal.state, lines,
                CursorOf(frame, old(terminal.state.height)), Mem())
        && (Repaints(path) || Coupled(old(terminal.state), old(Mem())) ==>
              Rendered(path, old(terminal.state), old(Mem()), terminal.state, lines,
                       CursorOf(frame, old(terminal.state.height)), Mem()))
      ensures !old(stopped) ==> !forceRedrawRequested && !clearScrollbackRequested
      ensures stopped == old(stopped) && clearOnShrink == old(clearOnShrink)
      ensures showHardwareCursor == old(showHardwareCursor)
      ensures !old(stopped) ==>
        terminal.state.cursorShown == (showHardwareCursor && CursorOf(frame, old(terminal.state.height)).Some?)
    {
      hide FullyRedrawn, Patched, Coupled, Clean, Sound, AllSendable, OutOfReach, CursorOf, WithResets, Unmarked, Sent;
      if stopped {
        return;
      }
      var forceRedraw, clearScrollback := forceRedrawRequested, clearScrollbackRequested;
      forceRedrawRequested, clearScrollbackRequested := false, false;
      var width, height := terminal.state.width, terminal.state.height;
      var resized := Resized();
      var cursorPos, newLines := ExtractCursorPosition(frame, height);
      newLines := ApplyLineResets(newLines);
      PreparedSendable(frame, height, width);

      if clearScrollback {
        FullRender(Clear, newLines, cursorPos);
      } else if forceRedraw {
        FullRender(Viewport, newLines, cursorPos);
      } else if |previousLines| == 0 && !resized {
        CoupledEmptyIsClean(terminal.state, Mem());
        FullRender(Initial, newLines, cursorPos);
      } else if resized || (clearOnShrink && |newLines| < maxLinesRendered && !overlays) {
        FullRender(Viewport, newLines, cursorPos);
      } else {
        SoundIsSized(Mem());
        RenderDifference(newLines, cursorPos);
      }
    }

    /** What the differential branches rely on: a sound memory of a frame of the terminal's size. */
    ghost predicate Remembering()
      reads this, terminal
    {
      && terminal.state.Valid() && terminal.state.pen == PLAIN && Sound(Mem()) && previousLines != []
      && previousWidth == terminal.state.width && previousHeight == terminal.state.height
    }

    /** The differential branches of a render. */
    method RenderDifference(newLines: seq<Line>, cursorPos: Option<Position>)
      requires Remembering()
      requires AllSendable(newLines, terminal.state.width)
      requires cursorPos.Some? ==> cursorPos.value.row < |newLines|
      modifies this, terminal
      ensures
        var path :=
          if OutOfReach(old(previousLines), newLines, old(previousViewportTop)) then Full(Viewport) else Patch;
        && Sent(path, old(terminal.state), old(Mem()), terminal.state, newLines, cursorPos, Mem())
        && (Repaints(path) || Coupled(old(terminal.state), old(Mem())) ==>
              Rendered(path, old(terminal.state), old(Mem()), terminal.state, newLines, cursorPos, Mem()))
      ensures terminal.state.cursorShown == (showHardwareCursor && cursorPos.Some?)
      ensures stopped == old(stopped) && clearOnShrink == old(clearOnShrink)
      ensures showHardwareCursor == old(showHardwareCursor)
      ensures forceRedrawRequested == old(forceRedrawRequested)
      ensures clearScrollbackRequested == old(clearScrollbackRequested)
    {
      hide Sent, Coupled, FullyRedrawn, Patched, Paint, VisibleWidth;
      var firstChanged, lastChanged, appendStart, offscreenOnlyChange :=
        PlanPatch(previousLines, newLines, previousViewportTop);
      if firstChanged == -1 {
        RenderUnchanged(newLines, cursorPos, offscreenOnlyChange);
      } else if firstChanged >= |newLines| {
        if |previousLines| > |newLines| && Max(0, |newLines| - 1) < previousViewportTop {
          FullRender(Viewport, newLines, cursorPos);
        } else {
          RenderDeletedTail(newLines, cursorPos, firstChanged);
        }
      } else if firstChanged < previousViewportTop {
        FullRender(Viewport, newLines, cursorPos);
      } else {
        RenderChanged(newLines, cursorPos, firstChanged, lastChanged, appendStart);
      }
    }

    /** No visible change: only the hardware cursor may move. */
    method RenderUnchanged(newLines: seq<Line>, cursorPos: Option<Position>, offscreenOnlyChange: bool)
      requires Remembering()
      requires AllSendable(newLines, terminal.state.width)
      requires cursorPos.Some? ==> cursorPos.value.row < |newLines|
      requires |newLines| == |previousLines|
      requires forall i :: previousViewportTop <= i ==> !Differ(previousLines, newLines, i)
      requires !offscreenOnlyChange ==> newLines == previousLines
      modifies this`previousLines, this`hardwareCursorRow, this`previousViewportTop, this`previousHeight, terminal
      ensures Sent(Patch, old(terminal.state), old(Mem()), terminal.state, newLines, cursorPos, Mem())
      ensures old(Coupled(terminal.state, Mem())) ==>
                Patched(old(terminal.state), old(Mem()), terminal.state, newLines, cursorPos, Mem())
      ensures terminal.state.cursorShown == (showHardwareCursor && cursorPos.Some?)
    {
      hide Coupled, Patched, Sendable, Positioned, Differ;
      ghost var t, m := terminal.state, Mem();
      var height := terminal.state.height;
      PositionHardwareCursor(cursorPos, |newLines|);
      if offscreenOnlyChange {
        previousLines := newLines;
      }
      previousHeight := height;
      if Coupled(t, m) {
        UnchangedIsPatched(t, m, terminal.state, newLines, cursorPos, Mem());
      }
      assert PatchOps(m, newLines, [], m.cursorRow);
      PatchIsSent(t, m, [], m.cursorRow, terminal.state, newLines, cursorPos, Mem());
    }

    /** Every visible change is in deleted lines: clear them, nothing else is written. */
    method RenderDeletedTail(newLines: seq<Line>, cursorPos: Option<Position>, firstChanged: int)
      requires Remembering() && AllSendable(newLines, terminal.state.width)
      requires cursorPos.Some? ==> cursorPos.value.row < |newLines|
      requires |newLines| < |previousLines| && Max(0, |newLines| - 1) >= previousViewportTop
      requires firstChanged >= |newLines| && SameFrom(previousLines, newLines, previousViewportTop, firstChanged)
      modifies this`cursorRow, this`previousLines, this`previousWidth, this`previousHeight,
               this`hardwareCursorRow, terminal
      ensures Sent(Patch, old(terminal.state), old(Mem()), terminal.state, newLines, cursorPos, Mem())
      ensures old(Coupled(terminal.state, Mem())) ==>
                Patched(old(terminal.state), old(Mem()), terminal.state, newLines, cursorPos, Mem())
      ensures terminal.state.cursorShown == (showHardwareCursor && cursorPos.Some?)
    {
      hide Coupled, Patched, Sendable, Positioned, Differ, Repainting, PatchOps;
      ghost var t, m := terminal.state, Mem();
      var width, height := terminal.state.width, terminal.state.height;
      var targetRow := Max(0, |newLines| - 1);
      ghost var u, tail := SendDeletion(newLines, firstChanged);
      cursorRow := targetRow;
      hardwareCursorRow := targetRow;
      PositionHardwareCursor(cursorPos, |newLines|);
      previousLines := newLines;
      previousWidth := width;
      previousHeight := height;
      PatchOutcome(t, m, u, targetRow, tail, targetRow, terminal.state, newLines, cursorPos, Mem());
    }

    /** Clears the rows of the deleted lines. */
    method SendDeletion(newLines: seq<Line>, ghost firstChanged: int) returns (ghost u: Term, ghost tail: seq<Op>)
      requires Remembering() && AllSendable(newLines, terminal.state.width)
      requires |newLines| < |previousLines| && Max(0, |newLines| - 1) >= previousViewportTop
      requires firstChanged >= |newLines| && SameFrom(previousLines, newLines, previousViewportTop, firstChanged)
      modifies terminal
      ensures var (t, m) := (old(terminal.state), Mem());
        var targetRow := Max(0, |newLines| - 1);
        && terminal.state == Exec(t, MoveRows(targetRow - m.cursorRow) + tail)
        && PatchOps(m, newLines, MoveRows(targetRow - m.cursorRow) + tail, targetRow)
        && Coupled(u, m.(cursorRow := targetRow)) && u.width == t.width && u.height == t.height
        && Exec(t, MoveRows(targetRow - m.cursorRow)).pen == PLAIN
        && (Coupled(t, m) ==> u == Exec(t, MoveRows(targetRow - m.cursorRow)) && u.scrollback == t.scrollback)
        && Repainting(u, Exec(u, tail), m.lines, newLines, m.top, m.top, targetRow, |m.lines|)
        && (newLines == [] ==> Exec(u, tail).col == 0)
        && |m.lines| <= m.top + t.height
    {
      hide Coupled, Sendable, Repainting, DeletedOps, Differ, PatchOps, Exec, MoveRows;
      DeletedIsPatch(Mem(), newLines, firstChanged);
      var height := terminal.state.height;
      var targetRow := Max(0, |newLines| - 1);
      var extraLines := |previousLines| - |newLines|;
      if extraLines > height {
        assert false; // the old frame never reaches below the screen, so the source's repaint here is unused
      }
      var buffer := MoveRows(targetRow - hardwareCursorRow);
      u := Arrival(terminal.state, Mem(), targetRow);
      var rest := EmitDeletedTail(Mem(), newLines, u);
      tail := rest;
      buffer := buffer + rest;
      terminal.SendSynchronized(buffer);
    }

    /** Rewrites the changed lines, scrolling when the frame grows past the screen. */
    method RenderChanged(newLines: seq<Line>, cursorPos: Option<Position>, firstChanged: int, lastChanged: int,
                         appendStart: bool)
      requires Remembering() && AllSendable(newLines, terminal.state.width)
      requires cursorPos.Some? ==> cursorPos.value.row < |newLines|
      requires firstChanged < |newLines| && Planned(Mem(), newLines, firstChanged, lastChanged, appendStart)
      modifies this`cursorRow, this`maxLinesRendered, this`previousViewportTop, this`previousLines,
               this`previousWidth, this`previousHeight, this`hardwareCursorRow, terminal
      ensures Sent(Patch, old(terminal.state), old(Mem()), terminal.state, newLines, cursorPos, Mem())
      ensures old(Coupled(terminal.state, Mem())) ==>
                Patched(old(terminal.state), old(Mem()), terminal.state, newLines, cursorPos, Mem())
      ensures terminal.state.cursorShown == (showHardwareCursor && cursorPos.Some?)
    {
      hide Coupled, Patched, Sendable, Positioned, Repainting, PatchOps, Planned;
      ghost var t, m := terminal.state, Mem();
      var width, height := terminal.state.width, terminal.state.height;
      ghost var moveTargetRow := MoveTarget(firstChanged, appendStart);
      ghost var u: Term, changes: seq<Op>;
      var finalCursorRow;
      finalCursorRow, u, changes := SendChanges(newLines, firstChanged, lastChanged, appendStart);
      cursorRow := Max(0, |newLines| - 1);
      hardwareCursorRow := finalCursorRow;
      maxLinesRendered := Max(maxLinesRendered, |newLines|);
      previousViewportTop := Max(previousViewportTop, finalCursorRow - height + 1);
      PositionHardwareCursor(cursorPos, |newLines|);
      previousLines := newLines;
      previousWidth := width;
      previousHeight := height;
      PatchOutcome(t, m, u, moveTargetRow, changes, finalCursorRow, terminal.state, newLines, cursorPos, Mem());
    }

    /** Writes the changed lines. At an unchanged height the first changed line, or the line before an append, is
        always on the screen, so the branch that scrolls down to it first is never taken. */
    method SendChanges(newLines: seq<Line>, firstChanged: int, lastChanged: int, appendStart: bool)
      returns (finalCursorRow: int, ghost u: Term, ghost changes: seq<Op>)
      requires Remembering() && AllSendable(newLines, terminal.state.width)
      requires firstChanged < |newLines| && Planned(Mem(), newLines, firstChanged, lastChanged, appendStart)
      modifies terminal
      ensures var (t, m) := (old(terminal.state), Mem());
        var moveTargetRow := MoveTarget(firstChanged, appendStart);
        var top := Max(m.top, |newLines| - t.height);
        && terminal.state == Exec(t, MoveRows(moveTargetRow - m.cursorRow) + changes)
        && PatchOps(m, newLines, MoveRows(moveTargetRow - m.cursorRow) + changes, finalCursorRow)
        && Coupled(u, m.(cursorRow := moveTargetRow)) && u.width == t.width && u.height == t.height
        && Exec(t, MoveRows(moveTargetRow - m.cursorRow)).pen == PLAIN
        && (Coupled(t, m) ==> u == Exec(t, MoveRows(moveTargetRow - m.cursorRow)) && u.scrollback == t.scrollback)
        && Repainting(u, Exec(u, changes), m.lines, newLines, m.top, top, finalCursorRow, Max(|newLines|, |m.lines|))
      ensures 0 <= finalCursorRow < |newLines| && previousViewportTop < |newLines|
      ensures TopAfter(previousViewportTop, finalCursorRow, previousHeight)
           == Max(previousViewportTop, |newLines| - previousHeight)
    {
      hide Coupled, Sendable, Repainting, ChangedOps, Differ, PatchOps, Exec, MoveRows;
      ChangedIsPatch(Mem(), newLines, firstChanged, lastChanged, appendStart);
      var height := terminal.state.height;
      var prevViewportBottom := previousViewportTop + height - 1;
      var moveTargetRow := MoveTarget(firstChanged, appendStart);
      assert moveTargetRow <= prevViewportBottom;
      var buffer := MoveRows(moveTargetRow - hardwareCursorRow);
      u := Arrival(terminal.state, Mem(), moveTargetRow);
      var rest;
      rest, finalCursorRow := EmitPatch(Mem(), newLines, height, firstChanged, lastChanged, appendStart, u);
      changes := rest;
      buffer := buffer + rest;
      terminal.SendSynchronized(buffer);
    }
  }

  lemma ChangedIsPatch(m: Memory, lines: seq<Line>, first: int, last: int, append: bool)
    requires first < |lines| && Planned(m, lines, first, last, append)
    ensures PatchOps(m, lines, MoveRows(MoveTarget(first, append) - m.cursorRow)
                               + ChangedOps(|m.lines|, lines, first, last, append), FinalRow(|m.lines|, lines, last))
  {
    hide Planned, ChangedOps, MoveRows, FinalRow;
  }

  lemma DeletedIsPatch(m: Memory, lines: seq<Line>, firstChanged: int)
    requires |lines| < |m.lines| && firstChanged >= |lines| && SameFrom(m.lines, lines, m.top, firstChanged)
    ensures var row := Max(0, |lines| - 1);
      PatchOps(m, lines, MoveRows(row - m.cursorRow) + DeletedOps(|m.lines|, |lines|), row)
  {
    hide DeletedOps, MoveRows, Planned, Differ;
  }

  // ----- what cannot erase the scrollback -----

  ghost predicate KeepsScrollback(ops: seq<Op>) {
    ED3 !in ops
  }

  /** Without the code that erases it, the scrollback only grows. */
  lemma {:induction false} ScrollbackGrows(t: Term, ops: seq<Op>)
    requires t.Valid() && KeepsScrollback(ops)
    ensures t.scrollback <= Exec(t, ops).scrollback
    decreases |ops|
  {
    if ops != [] {
      assert ops[0] in ops && ops[0] != ED3;
      if ops[0].Write? {
        WritingGrows(t, ops[0].items);
      }
      ScrollbackGrows(Apply(t, ops[0]), ops[1..]);
    }
  }

  lemma {:induction false} WritingGrows(t: Term, items: Line)
    requires t.Valid()
    ensures t.scrollback <= WriteItems(t, items).scrollback
    decreases |items|
  {
    if items != [] {
      WritingGrows(WriteItem(t, items[0]), items[1..]);
    }
  }

  lemma {:induction false} LinesKeep(lines: seq<Line>, first: int, i: int)
    ensures KeepsScrollback(LinesOps(lines, first, i))
    decreases i - first
  {
    if i > first {
      LinesKeep(lines, first, i - 1);
    }
  }

  lemma {:induction false} ClearsKeep(n: int)
    ensures KeepsScrollback(ClearTailOps(n)) && KeepsScrollback(ClearBelowOps(n))
    decreases n
  {
    if n > 0 {
      ClearsKeep(n - 1);
    }
  }

  lemma {:induction false} FullKeeps(lines: seq<Line>, i: nat, top: nat, n: nat)
    requires i <= |lines|
    ensures KeepsScrollback(AllLinesOps(lines, i)) && KeepsScrollback(FillOps(lines, top, i))
    ensures KeepsScrollback(ClearRowsOps(n))
    decreases i + n
  {
    if i > 0 {
      FullKeeps(lines, i - 1, top, n);
    } else if n > 0 {
      FullKeeps(lines, i, top, n - 1);
    }
  }

  lemma PatchKeeps(m: Memory, lines: seq<Line>, ops: seq<Op>, row: int)
    requires PatchOps(m, lines, ops, row)
    ensures KeepsScrollback(ops)
  {
    hide Planned, SameFrom, Differ, LinesOps, ClearTailOps, ClearBelowOps;
    ClearsKeep(|m.lines| - |lines|);
    forall first: int, end: int
      ensures KeepsScrollback(LinesOps(lines, first, end))
    {
      LinesKeep(lines, first, end);
    }
  }

  /** Every path but the clearing one leaves the rows in the scrollback alone. */
  lemma SentKeepsScrollback(path: Path, t: Term, m: Memory, s: Term, lines: seq<Line>, pos: Option<Position>,
                            m': Memory)
    requires t.Valid() && Sent(path, t, m, s, lines, pos, m') && path != Full(Clear)
    ensures t.scrollback <= s.scrollback
  {
    hide PatchOps, AllLinesOps, ClearRowsOps, FillOps, Sound;
    var ops: seq<Op>, row: int :|
      PathOps(path, m, lines, t.height, ops, row) && Positioned(Exec(t, ops), row, s, m'.cursorRow, pos, |lines|);
    FullKeeps(lines, |lines|, Max(0, |lines| - t.height), t.height);
    if path == Patch {
      PatchKeeps(m, lines, ops, row);
    }
    ScrollbackGrows(t, ops);
  }

  lemma SoundIsSized(m: Memory)
    requires Sound(m)
    ensures m.lines != [] ==> m.width != 0 && m.height != 0
  {}

  lemma CoupledIsPlain(t: Term, m: Memory)
    requires Coupled(t, m)
    ensures t.Valid() && t.pen == PLAIN
  {}

  lemma RepaintingIsPlain(base: Term, t: Term, old_: seq<Line>, new_: seq<Line>, from: int, top: int, at: int,
                          done: int)
    requires Repainting(base, t, old_, new_, from, top, at, done)
    ensures t.pen == PLAIN
  {}

  lemma NothingLeft(m: Memory, lines: seq<Line>, ops: seq<Op>, row: int)
    requires PatchOps(m, lines, ops, row) && m.lines != [] && m.top >= 0
    ensures lines == [] ==> row == 0
  {}

  lemma PatchIsSent(t: Term, m: Memory, ops: seq<Op>, row: int, s: Term, lines: seq<Line>, pos: Option<Position>,
                    m': Memory)
    requires t.Valid() && AllSendable(lines, t.width) && Exec(t, ops).pen == PLAIN && Sound(m) && m.lines != []
    requires PatchOps(m, lines, ops, row) && Max(0, |lines| - 1) >= m.top
    requires Positioned(Exec(t, ops), row, s, m'.cursorRow, pos, |lines|) && s.Valid()
    requires m' == Memory(lines, Max(m.top, |lines| - t.height), m'.cursorRow, Max(m.extent, |lines|),
                          t.width, t.height)
    ensures Sent(Patch, t, m, s, lines, pos, m')
  {
    hide Sendable, Exec, Positioned, PatchOps;
    assert Exec(t, ops).Valid() && Exec(t, ops).width == t.width && Exec(t, ops).height == t.height;
    PositionedKeeps(Exec(t, ops), row, s, m'.cursorRow, pos, |lines|);
    PositionedNowhere(Exec(t, ops), row, s, m'.cursorRow, pos, |lines|);
    NothingLeft(m, lines, ops, row);
    assert PathOps(Patch, m, lines, t.height, ops, row);
  }

  /** A differential render that wrote: it first moved to line `arrived`, and u is the terminal there. */
  lemma PatchOutcome(t: Term, m: Memory, u: Term, arrived: int, rest: seq<Op>, row: int, s: Term, lines: seq<Line>,
                     pos: Option<Position>, m': Memory)
    requires t.Valid() && AllSendable(lines, t.width) && Sound(m) && m.lines != [] && Max(0, |lines| - 1) >= m.top
    requires Coupled(u, m.(cursorRow := arrived)) && u.width == t.width && u.height == t.height
    requires Exec(t, MoveRows(arrived - m.cursorRow)).pen == PLAIN
    requires Coupled(t, m) ==> u == Exec(t, MoveRows(arrived - m.cursorRow)) && u.scrollback == t.scrollback
    requires PatchOps(m, lines, MoveRows(arrived - m.cursorRow) + rest, row)
    requires Repainting(u, Exec(u, rest), m.lines, lines, m.top, Max(m.top, |lines| - t.height), row,
                        Max(|lines|, |m.lines|))
    requires lines == [] ==> Exec(u, rest).col == 0 && row == 0
    requires Positioned(Exec(t, MoveRows(arrived - m.cursorRow) + rest), row, s, m'.cursorRow, pos, |lines|)
    requires s.Valid()
    requires pos.Some? ==> pos.value.row < |lines|
    requires m' == Memory(lines, Max(m.top, |lines| - t.height), m'.cursorRow, Max(m.extent, |lines|),
                          t.width, t.height)
    ensures Sent(Patch, t, m, s, lines, pos, m')
    ensures Coupled(t, m) ==> Patched(t, m, s, lines, pos, m')
  {
    hide Sendable, Exec, Positioned, PatchOps, Sent, Repainting, ScreenShown, Sound, MoveRows;
    var first := MoveRows(arrived - m.cursorRow);
    CoupledIsPlain(u, m.(cursorRow := arrived));
    RepaintingIsPlain(u, Exec(u, rest), m.lines, lines, m.top, Max(m.top, |lines| - t.height), row,
                      Max(|lines|, |m.lines|));
    ExecConcat(t, first, rest);
    PenFollowsOps(Exec(t, first), u, rest);
    PatchIsSent(t, m, first + rest, row, s, lines, pos, m');
    if Coupled(t, m) {
      RepaintedIsPatched(u, m.(cursorRow := arrived), Exec(u, rest), row, s, lines, pos, m');
    }
  }

  lemma FullIsSent(mode: Mode, t: Term, m: Memory, s: Term, lines: seq<Line>, pos: Option<Position>, m': Memory)
    requires t.Valid() && AllSendable(lines, t.width) && s.pen == PLAIN && Sound(m)
    requires Positioned(Exec(t, FullOps(mode, lines, t.height)), Max(0, |lines| - 1), s, m'.cursorRow, pos, |lines|)
    requires s.Valid() && s.width == t.width && s.height == t.height
    requires m' == Memory(lines, Max(0, |lines| - t.height), m'.cursorRow, ExtentFor(Full(mode), m, |lines|),
                          t.width, t.height)
    ensures Sent(Full(mode), t, m, s, lines, pos, m')
  {
    hide FullOps, Exec, Sendable, Positioned, PatchOps;
    PositionedNowhere(Exec(t, FullOps(mode, lines, t.height)), Max(0, |lines| - 1), s, m'.cursorRow, pos, |lines|);
    assert PathOps(Full(mode), m, lines, t.height, FullOps(mode, lines, t.height), Max(0, |lines| - 1));
  }

  lemma CoupledEmptyIsClean(t: Term, m: Memory)
    requires m.lines == []
    ensures Coupled(t, m) ==> Clean(t)
  {}

  /** With no visible change, moving the cursor is a complete patch. */
  lemma UnchangedIsPatched(t: Term, m: Memory, s: Term, lines: seq<Line>, pos: Option<Position>, m': Memory)
    requires Coupled(t, m) && m.lines != [] && AllSendable(lines, t.width)
    requires |lines| == |m.lines| && forall i :: m.top <= i ==> !Differ(m.lines, lines, i)
    requires Positioned(t, m.cursorRow, s, m'.cursorRow, pos, |lines|)
    requires pos.Some? ==> pos.value.row < |lines|
    requires m' == m.(lines := lines, cursorRow := m'.cursorRow)
    ensures Patched(t, m, s, lines, pos, m')
  {
    CoupledIsRepainting(t, m, lines);
    SkipUnchanged(t, t, m.lines, lines, m.top, m.top, m.cursorRow, m.top, |lines|);
    RepaintedIsPatched(t, m, t, m.cursorRow, s, lines, pos, m');
  }
}
