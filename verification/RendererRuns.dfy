/** The renderer over whole runs: any sequence of frames, with repaint requests and resizes. */
module RendererRuns {
  import opened Text
  import opened Terminal
  import opened Frames
  import opened Patching
  import opened Renderer

  datatype Snap = Snap(term: Term, mem: Memory)

  /** One render request: the lines to send, where the cursor marker was, and the flags in force. */
  datatype Request = Request(lines: seq<Line>, pos: Option<Position>, clear: bool, force: bool, mayClear: bool)

  ghost predicate SizeChanged(m: Memory, t: Term) {
    (m.width != 0 && m.width != t.width) || (m.height != 0 && m.height != t.height)
  }

  ghost predicate WellPosed(q: Request, t: Term) {
    && AllSendable(q.lines, t.width)
    && (q.pos.Some? ==> Max(0, |q.lines| - t.height) <= q.pos.value.row < |q.lines|)
  }

  ghost function RequestPath(s: Snap, t: Term, q: Request): Path {
    PathOf(s.mem, q.lines, q.clear, q.force, SizeChanged(s.mem, t), q.mayClear)
  }

  /** A render that shows its frame: it covers the whole screen, or what it relies on is there. */
  ghost predicate Ready(s: Snap, t: Term, q: Request) {
    Repaints(RequestPath(s, t, q)) || Coupled(t, s.mem)
  }

  /** One render. Before it the terminal is as the last render left it, or has been resized, in which case its
      contents may be anything. */
  ghost predicate Step(s: Snap, t: Term, q: Request, s': Snap) {
    && t.Valid() && t.pen == PLAIN && (t == s.term || SizeChanged(s.mem, t))
    && WellPosed(q, t) && Sound(s.mem)
    && Sent(RequestPath(s, t, q), t, s.mem, s'.term, q.lines, q.pos, s'.mem)
    && (Ready(s, t, q) ==>
          Rendered(RequestPath(s, t, q), t, s.mem, s'.term, q.lines, q.pos, s'.mem))
  }

  ghost function SnapOf(tui: TUI): Snap
    reads tui, tui.terminal
  {
    Snap(tui.terminal.state, tui.Mem())
  }

  /** The request that rendering a frame amounts to. */
  ghost function RequestOf(tui: TUI, frame: seq<Line>, overlays: bool): Request
    requires tui.terminal.state.Valid()
    reads tui, tui.terminal
  {
    var height := tui.terminal.state.height;
    Request(Prepared(frame, height), CursorOf(frame, height), tui.clearScrollbackRequested, tui.forceRedrawRequested,
            tui.clearOnShrink && !overlays)
  }

  /** Every render of the renderer is a step of a run. */
  method RenderStep(tui: TUI, frame: seq<Line>, overlays: bool)
    requires tui.terminal.state.Valid() && tui.terminal.state.pen == PLAIN && !tui.stopped
    requires Fits(frame, tui.terminal.state.width)
    requires Sound(tui.Mem())
    modifies tui, tui.terminal
    ensures Step(old(SnapOf(tui)), old(tui.terminal.state), old(RequestOf(tui, frame, overlays)), SnapOf(tui))
    ensures !tui.forceRedrawRequested && !tui.clearScrollbackRequested && !tui.stopped
    ensures tui.clearOnShrink == old(tui.clearOnShrink)
  {
    hide Sent, Rendered, Sound, Prepared, CursorOf, OutOfReach, Coupled;
    PreparedSendable(frame, tui.terminal.state.height, tui.terminal.state.width);
    tui.DoRender(frame, overlays);
  }

  ghost predicate Start(s: Snap) {
    Clean(s.term) && s.mem == FRESH
  }

  /** The two ways to lose the cursor: a marker above the viewport that a patch keeps, and an empty
      frame repainted on a screen of several rows. */
  ghost predicate KeepsCursor(path: Path, m: Memory, q: Request, height: int) {
    && (q.pos.Some? ==> q.pos.value.row >= TopFor(path, m, |q.lines|, height))
    && !(path == Full(Viewport) && q.lines == [] && height > 1)
  }

  lemma StartIsCoupled(s: Snap)
    requires Start(s)
    ensures Coupled(s.term, s.mem) && Sound(s.mem)
  {}

  /** After a render that was ready the frame is on the screen, and the cursor is tracked exactly in the cases
      that KeepsCursor describes. */
  lemma StepShowsFrame(s: Snap, t: Term, q: Request, s': Snap)
    requires Step(s, t, q, s') && Ready(s, t, q)
    ensures ScreenShown(s'.term, s'.mem) && s'.mem.lines == q.lines
    ensures s'.mem.top == TopFor(RequestPath(s, t, q), s.mem, |q.lines|, t.height)
    ensures Coupled(s'.term, s'.mem) <==> KeepsCursor(RequestPath(s, t, q), s.mem, q, t.height)
  {}

  /** A repaint, requested or after a resize, recovers from anything, unless it shows nothing on several rows. */
  lemma RepaintRecovers(s: Snap, t: Term, q: Request, s': Snap)
    requires Step(s, t, q, s') && (q.clear || q.force || SizeChanged(s.mem, t))
    ensures ScreenShown(s'.term, s'.mem)
    ensures Coupled(s'.term, s'.mem) <==> q.clear || q.lines != [] || t.height == 1
  {
    hide Sent, ScreenShown, FullyRedrawn;
    StepShowsFrame(s, t, q, s');
  }

  ghost predicate Run(snaps: seq<Snap>, terms: seq<Term>, requests: seq<Request>) {
    && |snaps| == |requests| + 1 == |terms| + 1
    && Start(snaps[0])
    && forall k :: 0 <= k < |requests| ==> Step(snaps[k], terms[k], requests[k], snaps[k + 1])
  }

  /** Render i of a run keeps the cursor. */
  ghost predicate Keeps(snaps: seq<Snap>, terms: seq<Term>, requests: seq<Request>, i: nat)
    requires i < |snaps| && i < |terms| && i < |requests|
  {
    KeepsCursor(RequestPath(snaps[i], terms[i], requests[i]), snaps[i].mem, requests[i], terms[i].height)
  }

  /** Over any run, from any coupled state on (the start is one): the terminal stays coupled exactly as long as the
      requests keep the cursor. Screen row r then shows line top + r of the last frame and the cursor is where the
      renderer believes; and the first render that does not keep it still shows its frame. */
  lemma {:induction false} RunStaysCoupled(snaps: seq<Snap>, terms: seq<Term>, requests: seq<Request>, j: nat, k: nat)
    requires Run(snaps, terms, requests) && j <= k <= |requests|
    requires Coupled(snaps[j].term, snaps[j].mem)
    ensures (forall i :: j <= i <= k ==> Coupled(snaps[i].term, snaps[i].mem))
       <==> (forall i :: j <= i < k ==> Keeps(snaps, terms, requests, i))
    ensures k > j && (forall i :: j <= i < k - 1 ==> Keeps(snaps, terms, requests, i)) ==>
              ScreenShown(snaps[k].term, snaps[k].mem)
    ensures k > j ==> snaps[k].mem.lines == requests[k - 1].lines
  {
    hide Keeps, Coupled, Step, Start;
    if k > j {
      RunStaysCoupled(snaps, terms, requests, j, k - 1);
      if forall i :: j <= i <= k - 1 ==> Coupled(snaps[i].term, snaps[i].mem) {
        CoupledStep(snaps, terms, requests, k - 1);
      }
      LinesAreRemembered(snaps, terms, requests, k - 1);
    }
  }

  lemma CoupledStep(snaps: seq<Snap>, terms: seq<Term>, requests: seq<Request>, i: nat)
    requires Run(snaps, terms, requests) && i < |requests| && Coupled(snaps[i].term, snaps[i].mem)
    ensures Coupled(snaps[i + 1].term, snaps[i + 1].mem) <==> Keeps(snaps, terms, requests, i)
    ensures ScreenShown(snaps[i + 1].term, snaps[i + 1].mem)
  {
    hide Sent, Rendered, KeepsCursor, ScreenShown, CursorTracked;
    StepShowsFrame(snaps[i], terms[i], requests[i], snaps[i + 1]);
  }

  lemma LinesAreRemembered(snaps: seq<Snap>, terms: seq<Term>, requests: seq<Request>, i: nat)
    requires Run(snaps, terms, requests) && i < |requests|
    ensures snaps[i + 1].mem.lines == requests[i].lines
  {
    assert Step(snaps[i], terms[i], requests[i], snaps[i + 1]);
  }

  /** A frame and the repaint requests made before it. */
  datatype Call = Call(frame: seq<Line>, overlays: bool, force: bool, clear: bool)

  /** The request has the lines and flags of the call. */
  ghost predicate Matches(q: Request, call: Call, height: nat) {
    && q.lines == Prepared(call.frame, height) && q.pos == CursorOf(call.frame, height)
    && q.clear == call.clear && q.force == call.force
  }

  /** Rendering any frames one after another on a clean screen is a run; when every frame has lines and none a
      marker, the last one is on the screen and the cursor is where the renderer believes. */
  method RenderAll(device: Device, clearOnShrink: bool, calls: seq<Call>)
    returns (tui: TUI, ghost snaps: seq<Snap>, ghost terms: seq<Term>, ghost requests: seq<Request>)
    requires Clean(device.state)
    requires forall k :: 0 <= k < |calls| ==> Fits(calls[k].frame, device.state.width)
    modifies device
    ensures Run(snaps, terms, requests) && |requests| == |calls| && snaps[|calls|] == SnapOf(tui)
    ensures forall k :: 0 <= k < |calls| ==> Matches(requests[k], calls[k], old(device.state.height))
    ensures tui.terminal == device
    ensures (forall k :: 0 <= k < |calls| ==>
               calls[k].frame != [] && CursorOf(calls[k].frame, old(device.state.height)).None?) ==>
              Coupled(device.state, tui.Mem())
  {
    hide Prepared, CursorOf, Fits, RequestPath, Coupled, Ready, Sound, Sent, Rendered;
    tui := new TUI(device, true, clearOnShrink);
    snaps, terms, requests := [SnapOf(tui)], [], [];
    ghost var width, height := device.state.width, device.state.height;
    StartIsCoupled(snaps[0]);
    for k := 0 to |calls|
      invariant fresh(tui) && tui.terminal == device && !tui.stopped && tui.clearOnShrink == clearOnShrink
      invariant !tui.forceRedrawRequested && !tui.clearScrollbackRequested
      invariant Run(snaps, terms, requests) && |requests| == k && snaps[k] == SnapOf(tui)
      invariant Sound(tui.Mem()) && device.state.Valid() && device.state.pen == PLAIN
      invariant device.state.width == width && device.state.height == height
      invariant forall i :: 0 <= i < k ==> Matches(requests[i], calls[i], height) && terms[i].height == height
    {
      tui.forceRedrawRequested, tui.clearScrollbackRequested := calls[k].force, calls[k].clear;
      ghost var s, t, q := SnapOf(tui), device.state, RequestOf(tui, calls[k].frame, calls[k].overlays);
      RenderStep(tui, calls[k].frame, calls[k].overlays);
      StepKeeps(s, t, q, SnapOf(tui));
      snaps, terms, requests := snaps + [SnapOf(tui)], terms + [t], requests + [q];
    }
    if forall k :: 0 <= k < |calls| ==> calls[k].frame != [] && CursorOf(calls[k].frame, height).None? {
      forall i | 0 <= i < |calls|
        ensures Keeps(snaps, terms, requests, i)
      {
        assert Matches(requests[i], calls[i], height);
      }
      StartIsCoupled(snaps[0]);
      RunStaysCoupled(snaps, terms, requests, 0, |calls|);
    }
  }

  /** A render does not change the size of the terminal and leaves a plain pen and a sound memory. */
  lemma StepKeeps(s: Snap, t: Term, q: Request, s': Snap)
    requires Step(s, t, q, s')
    ensures s'.term.Valid() && s'.term.pen == PLAIN && s'.term.width == t.width && s'.term.height == t.height
    ensures Sound(s'.mem)
  {
  }

  /** A marker can only be lost by a patch that keeps the viewport below |lines| - height, which
      takes an earlier, longer frame. */
  lemma MarkerLostOnlyAfterShrink(s: Snap, t: Term, q: Request, s': Snap)
    requires Step(s, t, q, s') && Ready(s, t, q) && q.lines != [] && !CursorTracked(s'.term, s'.mem)
    ensures RequestPath(s, t, q) == Patch && s.mem.top > Max(0, |q.lines| - t.height)
  {}

  /** Such a loss does happen: three lines on a two-row screen, then the last one removed with the
      marker on the first. */
  lemma MarkerAboveViewportLosesCursor(a: Line, b: Line, c: Line, s: Snap, q: Request, s': Snap)
    requires s.term.height == 2 && s.mem == Memory([a, b, c], 1, s.mem.cursorRow, 3, s.term.width, 2)
    requires q.lines == [a, b] && q.pos.Some? && q.pos.value.row == 0 && !q.clear && !q.force && !q.mayClear
    requires Step(s, s.term, q, s') && Ready(s, s.term, q)
    ensures ScreenShown(s'.term, s'.mem) && !CursorTracked(s'.term, s'.mem)
    ensures s'.mem == Memory([a, b], 1, 0, 3, s.term.width, 2)
  {
    hide Sendable, Shows;
    assert forall i :: 1 <= i < 2 ==> !Differ([a, b, c], [a, b], i);
    assert RequestPath(s, s.term, q) == Patch;
    assert s'.mem.cursorRow == 0;
  }

  const A: Line := [Grapheme("a", 1)]
  const B: Line := [Grapheme("b", 1)]
  const C: Line := [Grapheme("c", 1)]
  const MARKED_A: Line := [Code(CURSOR_MARKER), Grapheme("a", 1)]

  lemma ThreeLines(height: nat)
    requires height == 2
    ensures Prepared([A, B, C], height) == [WithReset(A), WithReset(B), WithReset(C)]
    ensures CursorOf([A, B, C], height).None?
    ensures forall width :: width > 0 ==> Fits([A, B, C], width)
  {
  }

  lemma TwoLinesMarked(height: nat)
    requires height == 2
    ensures Prepared([MARKED_A, B], height) == [WithReset(A), WithReset(B)]
    ensures CursorOf([MARKED_A, B], height) == Some(Position(0, 0))
    ensures forall width :: width > 0 ==> Fits([MARKED_A, B], width)
  {
    assert MarkerIndex(MARKED_A) == 0 && MARKED_A[..0] == [] && VisibleWidth([]) == 0;
    assert B[1..] == [] && MarkerIndex(B) == 1;
    assert FindCursor([MARKED_A, B], 0, 1) == Some(Position(0, 0));
    assert StripMarker(MARKED_A) == A;
    assert VisibleWidth(MARKED_A) == 1 by {
      assert MARKED_A[1..] == A;
    }
  }

  lemma TwoLines(height: nat)
    requires height == 2
    ensures Prepared([A, C], height) == [WithReset(A), WithReset(C)] && CursorOf([A, C], height).None?
    ensures forall width :: width > 0 ==> Fits([A, C], width)
  {
  }

  /** The same by actual renders on a clean screen. */
  method LoseCursorByShrinking(device: Device) returns (tui: TUI)
    requires Clean(device.state) && device.state.height == 2 && device.state.width > 0
    modifies device
    ensures ScreenShown(device.state, tui.Mem()) && !CursorTracked(device.state, tui.Mem())
    ensures fresh(tui) && tui.terminal == device && !tui.stopped && !tui.clearOnShrink
    ensures !tui.forceRedrawRequested && !tui.clearScrollbackRequested
    ensures device.state.height == 2 && device.state.width == old(device.state.width)
    ensures tui.Mem() == Memory([WithReset(A), WithReset(B)], 1, 0, 3, device.state.width, 2)
  {
    hide Prepared, CursorOf, Fits, Show, Rows, WithReset, ScreenShown, CursorTracked, OutOfReach, PathOf, Sent,
         Rendered;
    tui := ShowThree(device);
    ghost var s, q := SnapOf(tui), RequestOf(tui, [MARKED_A, B], false);
    TwoLinesMarked(2);
    CoupledIsSound(device.state, tui.Mem());
    RenderStep(tui, [MARKED_A, B], false);
    StepKeeps(s, s.term, q, SnapOf(tui));
    MarkerAboveViewportLosesCursor(WithReset(A), WithReset(B), WithReset(C), s, q, SnapOf(tui));
  }

  lemma CoupledIsSound(t: Term, m: Memory)
    requires ScreenShown(t, m)
    ensures Sound(m) && t.Valid() && t.pen == PLAIN
  {}

  method ShowThree(device: Device) returns (tui: TUI)
    requires Clean(device.state) && device.state.height == 2 && device.state.width > 0
    modifies device
    ensures fresh(tui) && tui.terminal == device && !tui.stopped && !tui.clearOnShrink
    ensures !tui.forceRedrawRequested && !tui.clearScrollbackRequested
    ensures device.state.Valid() && device.state.pen == PLAIN
    ensures device.state.width == old(device.state.width) && device.state.height == 2
    ensures tui.Mem() == Memory([WithReset(A), WithReset(B), WithReset(C)], 1, tui.hardwareCursorRow, 3,
                                device.state.width, 2)
    ensures Coupled(device.state, tui.Mem())
  {
    hide Prepared, CursorOf, Fits, Show, Rows, WithReset, Sent;
    tui := new TUI(device, true, false);
    ThreeLines(2);
    RenderStep(tui, [A, B, C], false);
  }

  /** A patch of one visible line, the others being as they were: a move, the line and nothing else is sent. */
  lemma OneLinePatch(m: Memory, lines: seq<Line>, i: nat, ops: seq<Op>, row: int)
    requires PatchOps(m, lines, ops, row) && |lines| == |m.lines| && m.top <= i < |lines|
    requires forall k :: m.top <= k < |lines| ==> (Differ(m.lines, lines, k) <==> k == i)
    ensures ops == MoveRows(i - m.cursorRow) + [CR, EL2, Write(lines[i])] && row == i
  {
    assert Differ(m.lines, lines, i);
    assert LinesOps(lines, i, i + 1) == [EL2, Write(lines[i])] by {
      assert LinesOps(lines, i, i) == [];
    }
    assert forall first, last, append :: Planned(m, lines, first, last, append) ==> first == i && last == i && !append;
    assert ChangedOps(|m.lines|, lines, i, i, false) == [CR, EL2, Write(lines[i])];
  }

  /** With the cursor lost the next frame is not shown: its second line, which belongs on the first row, is written
      on the second, under a line that is no longer in the frame. */
  method ShowWrongFrame(device: Device) returns (tui: TUI)
    requires Clean(device.state) && device.state.height == 2 && device.state.width > 0
    modifies device
    ensures device.state.screen == [Show(WithReset(B), device.state.width), Show(WithReset(C), device.state.width)]
    ensures tui.Mem().lines == [WithReset(A), WithReset(C)] && tui.Mem().top == 1
    ensures !ScreenShown(device.state, tui.Mem())
  {
    hide Prepared, CursorOf, Fits, Show, Rows, WithReset, ScreenShown, CursorTracked, OutOfReach, PathOf, Sent,
         Rendered;
    tui := LoseCursorByShrinking(device);
    CoupledIsSound(device.state, tui.Mem());
    ghost var s, q := SnapOf(tui), RequestOf(tui, [A, C], false);
    TwoLines(2);
    RenderStep(tui, [A, C], false);
    WrongFrame(s, q, SnapOf(tui));
  }

  lemma WrongFrame(s: Snap, q: Request, s': Snap)
    requires s.term.height == 2 && ScreenShown(s.term, s.mem)
    requires s.mem == Memory([WithReset(A), WithReset(B)], 1, 0, 3, s.term.width, 2)
    requires q.lines == [WithReset(A), WithReset(C)] && !q.clear && !q.force && !q.mayClear
    requires Step(s, s.term, q, s')
    ensures s'.term.screen == [Show(WithReset(B), s.term.width), Show(WithReset(C), s.term.width)]
    ensures s'.term.width == s.term.width && s'.mem.lines == q.lines && s'.mem.top == 1
    ensures !ScreenShown(s'.term, s'.mem)
  {
    hide Show, Sendable, PatchOps, Rendered, WithReset, Paint;
    DifferentRows(s.term.width);
    assert s.term.Valid() && s.term.pen == PLAIN;
    assert RequestPath(s, s.term, q) == Patch;
    var ops, row :| PathOps(Patch, s.mem, q.lines, 2, ops, row)
                    && Positioned(Exec(s.term, ops), row, s'.term, s'.mem.cursorRow, q.pos, 2);
    OneLinePatch(s.mem, q.lines, 1, ops, row);
    SecondRowWritten(s.term, WithReset(C));
    assert ops == [CUD(1), CR, EL2, Write(WithReset(C))];
    assert s'.term.screen[0] != RowAt(s'.mem.lines, s'.mem.top + 0, s'.term.width);
  }

  lemma DifferentRows(width: nat)
    requires width > 0
    ensures Show(WithReset(B), width) != Show(WithReset(C), width) && WithReset(B) != WithReset(C)
  {
    hide Show, Paint;
    var none: Line := [];
    NormalStays(B);
    NormalStays(C);
    assert VisibleWidth(none) == 0;
    assert none + B + SEGMENT_RESET == WithReset(B) && none + C + SEGMENT_RESET == WithReset(C);
    ShowPutsGraphemeAtItsColumn(none, "b", 1, SEGMENT_RESET, width);
    ShowPutsGraphemeAtItsColumn(none, "c", 1, SEGMENT_RESET, width);
    assert "b"[0] != "c"[0];
    assert WithReset(B)[0] == Grapheme("b", 1) && WithReset(C)[0] == Grapheme("c", 1);
  }

  lemma SecondRowWritten(t: Term, line: Line)
    requires t.Valid() && t.pen == PLAIN && t.height == 2 && Sendable(line, t.width)
    ensures Exec(t, [CUD(1), CR, EL2, Write(line)]).screen == [t.screen[0], Show(line, t.width)]
  {
    hide Show, Sendable, WriteItems;
    var ops := [CUD(1), CR, EL2, Write(line)];
    assert ops[1..] == [CR, EL2, Write(line)] && ops[1..][1..] == [EL2, Write(line)];
    PaintEffect(Apply(Apply(t, CUD(1)), CR), line, true);
  }

  /** And by a repaint of an empty frame, which leaves the cursor on the last row it cleared. */
  method LoseCursorByEmptyFrame(device: Device) returns (tui: TUI)
    requires Clean(device.state) && device.state.height > 1
    modifies device
    ensures ScreenShown(device.state, tui.Mem()) && !CursorTracked(device.state, tui.Mem())
    ensures fresh(tui) && tui.terminal == device && !tui.stopped && !tui.clearOnShrink
    ensures !tui.forceRedrawRequested && !tui.clearScrollbackRequested
    ensures device.state.height == old(device.state.height) && device.state.width == old(device.state.width)
    ensures tui.Mem().lines == []
  {
    hide Sent;
    tui := new TUI(device, true, false);
    tui.forceRedrawRequested := true;
    ghost var s, q := SnapOf(tui), RequestOf(tui, [], false);
    RenderStep(tui, [], false);
    StepKeeps(s, s.term, q, SnapOf(tui));
    StepShowsFrame(s, s.term, q, SnapOf(tui));
  }

  // ----- what is left alone -----

  /** Without an explicit request nothing ever leaves the scrollback, in whatever state the terminal is; a repaint,
      requested or after a resize, adds nothing to it either. */
  lemma ScrollbackIsKept(s: Snap, t: Term, q: Request, s': Snap)
    requires Step(s, t, q, s') && !q.clear
    ensures t.scrollback <= s'.term.scrollback
    ensures q.force || SizeChanged(s.mem, t) || (q.mayClear && s.mem.lines != [] && |q.lines| < s.mem.extent) ==>
              t.scrollback == s'.term.scrollback
  {
    hide Sent, Positioned, OutOfReach;
    SentKeepsScrollback(RequestPath(s, t, q), t, s.mem, s'.term, q.lines, q.pos, s'.mem);
  }

  /** Over a run, as long as nobody asks for a clear and resizing keeps the scrollback, no row ever leaves it. */
  lemma {:induction false} RunKeepsScrollback(snaps: seq<Snap>, terms: seq<Term>, requests: seq<Request>, j: nat,
                                              k: nat)
    requires Run(snaps, terms, requests) && j <= k <= |requests|
    requires forall i :: j <= i < k ==> !requests[i].clear && snaps[i].term.scrollback <= terms[i].scrollback
    ensures snaps[j].term.scrollback <= snaps[k].term.scrollback
  {
    hide Step, Start;
    if j < k {
      RunKeepsScrollback(snaps, terms, requests, j, k - 1);
      assert Step(snaps[k - 1], terms[k - 1], requests[k - 1], snaps[k]);
      ScrollbackIsKept(snaps[k - 1], terms[k - 1], requests[k - 1], snaps[k]);
    }
  }

  /** A frame like the one before, whatever the screen shows: nothing is written, only the cursor may move. */
  lemma SameFrameWritesNothing(s: Snap, t: Term, q: Request, s': Snap)
    requires Step(s, t, q, s') && q.lines == s.mem.lines && s.mem.lines != []
    requires !q.clear && !q.force && !SizeChanged(s.mem, t) && !(q.mayClear && |q.lines| < s.mem.extent)
    ensures s'.term == t.(row := s'.term.row, col := s'.term.col, cursorShown := s'.term.cursorShown)
  {
    hide Sendable, Rendered, LinesOps, ClearTailOps, ClearBelowOps;
    assert RequestPath(s, t, q) == Patch;
    var ops: seq<Op>, row: int :|
      PathOps(Patch, s.mem, q.lines, t.height, ops, row)
      && Positioned(Exec(t, ops), row, s'.term, s'.mem.cursorRow, q.pos, |q.lines|);
    SamePatch(s.mem, q.lines, ops, row);
  }

  lemma SamePatch(m: Memory, lines: seq<Line>, ops: seq<Op>, row: int)
    requires PatchOps(m, lines, ops, row) && lines == m.lines
    ensures ops == []
  {
    hide LinesOps, ClearTailOps, ClearBelowOps;
  }

  ghost predicate OneRowShows(before: seq<Row>, after: seq<Row>, at: int, row: Row) {
    0 <= at < |before| && after == before[at := row]
  }

  /** A frame with one visible line changed: whatever the screen shows, no row but the one written changes. */
  lemma OneLineChangesOneRow(s: Snap, t: Term, q: Request, s': Snap, i: nat)
    requires Step(s, t, q, s') && |q.lines| == |s.mem.lines| && s.mem.top <= i < |q.lines|
    requires forall k :: s.mem.top <= k < |q.lines| ==> (Differ(s.mem.lines, q.lines, k) <==> k == i)
    requires !q.clear && !q.force && !SizeChanged(s.mem, t) && !(q.mayClear && |q.lines| < s.mem.extent)
    ensures s'.term.scrollback == t.scrollback
    ensures exists at :: OneRowShows(t.screen, s'.term.screen, at, Show(q.lines[i], t.width))
  {
    hide Sendable, Rendered, Show, PatchOps, WriteItems;
    assert RequestPath(s, t, q) == Patch by {
      hide Differ, Sendable, Rendered, Show, PatchOps;
    }
    var ops: seq<Op>, row: int :|
      PathOps(Patch, s.mem, q.lines, t.height, ops, row)
      && Positioned(Exec(t, ops), row, s'.term, s'.mem.cursorRow, q.pos, |q.lines|);
    OneLinePatch(s.mem, q.lines, i, ops, row);
    OneRowWritten(t, i - s.mem.cursorRow, q.lines[i]);
  }

  lemma OneRowWritten(t: Term, d: int, line: Line)
    requires t.Valid() && t.pen == PLAIN && Sendable(line, t.width)
    ensures var u := Exec(t, MoveRows(d) + [CR, EL2, Write(line)]);
      u.scrollback == t.scrollback
      && exists at :: OneRowShows(t.screen, u.screen, at, Show(line, t.width))
  {
    hide Show, Sendable, WriteItems;
    MoveRowsEffect(t, d);
    var u := Exec(t, MoveRows(d));
    ExecConcat(t, MoveRows(d), [CR, EL2, Write(line)]);
    assert [CR, EL2, Write(line)][1..] == [EL2, Write(line)];
    PaintEffect(Apply(u, CR), line, true);
    assert OneRowShows(t.screen, Exec(t, MoveRows(d) + [CR, EL2, Write(line)]).screen, u.row, Show(line, t.width));
  }

  /** Where the marker is: a render that keeps the cursor leaves it on the marker's row and column. */
  lemma CursorStandsAtMarker(s: Snap, t: Term, q: Request, s': Snap)
    requires Step(s, t, q, s') && q.pos.Some? && CursorTracked(s'.term, s'.mem)
    ensures s'.term.row == q.pos.value.row - s'.mem.top
    ensures s'.term.col == Min(q.pos.value.col, t.width - 1)
  {
    hide Rendered, PatchOps, FullOps, Sound;
  }

  /** With a shrinking frame that is to be repainted, the viewport goes back to the bottom of the frame and the rendered
      extent with it. */
  lemma ShrinkIsReclaimed(s: Snap, t: Term, q: Request, s': Snap)
    requires Step(s, t, q, s') && q.mayClear && s.mem.lines != [] && |q.lines| < s.mem.extent
    requires !q.clear && !q.force && !SizeChanged(s.mem, t)
    ensures ScreenShown(s'.term, s'.mem)
    ensures s'.mem.top == Max(0, |q.lines| - t.height) && s'.mem.extent == |q.lines|
  {
    hide Sent, Positioned, OutOfReach;
  }

  // ----- scrollback -----

  /** Scrollback and screen together are what was there before the run, then the frame. */
  ghost predicate TranscriptExact(s: Snap, before: seq<Row>) {
    s.term.scrollback + s.term.screen
      == before + Rows(s.mem.lines, 0, s.mem.top + s.term.height, s.term.width)
  }

  ghost predicate ScrollbackExact(s: Snap, before: seq<Row>) {
    s.term.scrollback == before + Rows(s.mem.lines, 0, s.mem.top, s.term.width)
  }

  lemma ExactScrollbackMakesExactTranscript(s: Snap, before: seq<Row>)
    requires ScreenShown(s.term, s.mem) && ScrollbackExact(s, before)
    ensures TranscriptExact(s, before)
  {
    hide Show, Sendable;
    var t, m := s.term, s.mem;
    assert Rows(m.lines, 0, m.top + t.height, t.width)
        == Rows(m.lines, 0, m.top, t.width) + t.screen;
  }

  /** A frame that only grows the transcript: no request, no resize, no line lost, and no change
      above the viewport. */
  ghost predicate Appends(s: Snap, t: Term, q: Request) {
    && t == s.term && !q.clear && !q.force && !SizeChanged(s.mem, t)
    && |q.lines| >= |s.mem.lines|
    && SameFrom(s.mem.lines, q.lines, 0, s.mem.top)
  }

  /** The state of a run whose frames never got shorter. */
  ghost predicate Grown(s: Snap) {
    && s.mem.extent == |s.mem.lines|
    && s.mem.top == Max(0, |s.mem.lines| - s.term.height)
  }

  lemma AppendPath(s: Snap, t: Term, q: Request)
    requires Appends(s, t, q) && Coupled(s.term, s.mem) && Grown(s)
    ensures RequestPath(s, t, q) == if s.mem.lines == [] then Full(Initial) else Patch
  {
    hide Shows, Sendable;
  }

  /** Lines above the viewport are the same in both frames, and so are their rows. */
  lemma SameAbove(s: Snap, t: Term, q: Request)
    requires Appends(s, t, q) && Coupled(s.term, s.mem) && AllSendable(q.lines, t.width)
    ensures Rows(s.mem.lines, 0, s.mem.top, t.width) == Rows(q.lines, 0, s.mem.top, t.width)
  {
    hide Show, Shows, Sendable, Differ;
    forall k | 0 <= k < s.mem.top
      ensures RowAt(s.mem.lines, k, t.width) == RowAt(q.lines, k, t.width)
    {
      SameLineSameRow(s.mem.lines, q.lines, k, t.width);
    }
  }

  lemma RowsSplit(lines: seq<Line>, lo: int, mid: int, hi: int, width: nat)
    requires lo <= mid <= hi
    ensures Rows(lines, lo, hi, width) == Rows(lines, lo, mid, width) + Rows(lines, mid, hi, width)
  {
    hide RowAt;
  }

  lemma AppendKeepsScrollbackExact(s: Snap, t: Term, q: Request, s': Snap, before: seq<Row>)
    requires Step(s, t, q, s') && Appends(s, t, q)
    requires Coupled(s.term, s.mem) && Grown(s) && ScrollbackExact(s, before)
    ensures Coupled(s'.term, s'.mem) && Grown(s') && ScrollbackExact(s', before)
  {
    hide Shows, Sendable, Sent, Sound, SameFrom, Rows, PathOf;
    AppendPath(s, t, q);
    StepShowsFrame(s, t, q, s');
    if s.mem.lines != [] {
      SameAbove(s, t, q);
      RowsSplit(q.lines, 0, s.mem.top, s'.mem.top, t.width);
    } else {
      NoRows(t.width);
    }
  }

  lemma NoRows(width: nat)
    ensures Rows([], 0, 0, width) == []
  {
  }

  /** Over any run of appending frames, scrollback followed by the screen is the initial scrollback
      followed by every line of the current frame exactly once, in order. */
  lemma {:induction false} RunKeepsTranscriptExact(snaps: seq<Snap>, terms: seq<Term>, requests: seq<Request>, k: nat)
    requires Run(snaps, terms, requests) && k <= |requests|
    requires forall i :: 0 <= i < k ==> Appends(snaps[i], terms[i], requests[i])
    ensures Coupled(snaps[k].term, snaps[k].mem) && Grown(snaps[k])
    ensures ScrollbackExact(snaps[k], snaps[0].term.scrollback)
    ensures TranscriptExact(snaps[k], snaps[0].term.scrollback)
  {
    var before := snaps[0].term.scrollback;
    if k == 0 {
      StartIsCoupled(snaps[0]);
      assert Rows([], 0, 0, snaps[0].term.width) == [];
    } else {
      RunKeepsTranscriptExact(snaps, terms, requests, k - 1);
      assert Step(snaps[k - 1], terms[k - 1], requests[k - 1], snaps[k]);
      AppendKeepsScrollbackExact(snaps[k - 1], terms[k - 1], requests[k - 1], snaps[k], before);
    }
    ExactScrollbackMakesExactTranscript(snaps[k], before);
  }

  /** An explicit transcript replacement makes the transcript exact from any state, with nothing
      of the old one left. */
  lemma ClearMakesTranscriptExact(s: Snap, t: Term, q: Request, s': Snap)
    requires Step(s, t, q, s') && q.clear
    ensures TranscriptExact(s', [])
  {
    ExactScrollbackMakesExactTranscript(s', []);
  }
}
