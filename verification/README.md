# Verified model of the agent toolkit's terminal UI and agent loop

This project models the parts of the repository whose correctness is easiest to break: the
differential terminal renderer, ANSI-aware wrapping and compositing, the input splitter, overlay
focus, key ids, the agent loop with its tool batches and queues, and four smaller pieces (proxy
streams, header and catalog overlays, fuzzy matching). `dafny verify dfyconfig.toml` checks
everything.

## How the model is laid out

| files | what they model |
|---|---|
| `Text`, `Terminal` | text as codes and graphemes of given width; the terminal as a machine (rows, scrollback, clamped cursor, pen) with the operations of ECMA-48 the renderer sends |
| `Frames`, `Patching`, `Renderer`, `RendererRuns` | `doRender` and its helpers as a class over that machine, and whole runs of it |
| `Ansi`, `Tracker`, `SgrMeaning`, `TrackerRoundTrip`, `AnsiCodeTracker` | SGR and OSC 8 codes and what each parameter does, the style tracker as a value and as the class that updates its fields |
| `Marks`, `Tokens`, `WrapLayout`, `Wrap`, `Compose`, `Overlay` | wrapping, slicing and compositing, judged by the graphemes a line shows, the style each has and where lines break |
| `Sequences`, `SequenceShapes`, `StdinBuffer` | the input splitter, which sequences there are, and bracketed paste |
| `OverlayFocus`, `Keys`, `KeyForms` | the overlay focus state machine; parsing and matching key reports, and the raw characters of older terminals |
| `AgentTypes`, `AgentState`, `MessageQueues`, `ToolBatches`, `AgentLoop`, `Agent` | the event protocol as an automaton, the reducing state, queues, tool batches under every interleaving, the loop, and the agent around it |
| `Proxy`, `Models`, `Fuzzy` | stream reconstruction, overlays and prices, fuzzy matching |

Classes stand for the source's objects; each of their methods is proved against a value-level
specification or a `Valid()` invariant that every operation keeps, so the claims hold over any
sequence of calls. The model provider, the user and the order in which parallel work completes are
arbitrary choices, and so are the replies of tools and hooks, which are given as parameters: what a method ensures holds for all of them. Widths, grapheme
boundaries, line layout of components, and JSON are given data.

## What came out

* The renderer shows every frame, whatever branch it takes, as long as it knows where the cursor is. Over any
  run it does so exactly until the first render that loses track of it, which happens in two
  cases: a patch that keeps a viewport lying below the frame's natural one, with the marker above it
  (reached by two renders in `LoseCursorByShrinking`), and an empty frame repainted on a screen of several
  rows (`LoseCursorByEmptyFrame`). That render still shows its frame; the next one may not, and
  `ShowWrongFrame` reaches a wrong screen in three renders. A repaint, on request or after a resize, recovers
  from anything (`RepaintRecovers`).
  Only an explicit clear erases the scrollback: every other render, in whatever state the terminal is, only adds to
  it, and a repaint adds nothing (`ScrollbackIsKept`, `RunKeepsScrollback`).
  Its guard `extraLines > height` can never hold (packages/tui/src/tui.ts:1537).
* A slice that begins right of the first column can change styles: codes met exactly at its edge are
  written before the earlier ones (packages/tui/src/utils.ts:1098-1116). A slice keeps its styles if and only
  if that order leaves the same style, or nothing is selected; `SliceChangesColor` gives a line on which
  green text comes out red.
* Composited tails keep their columns if and only if no wide grapheme straddles the overlay's right edge. Then a
  composited line shows every base glyph outside the overlay where it was, every overlay glyph in its place, and
  nothing else but spaces (`CompositedShows`).
* A text is split at line breaks before its codes are recognised (packages/tui/src/utils.ts:722), so a code that
  holds a line break is cut in two and its characters are shown. That is the only case in which the split
  differs from splitting the displayed text (`RawSplitExactly`), and wrapping is proved for all other texts.
* Wrapping loses blanks at the ends of lines and nothing else, and ends a line only where the next token, or the
  next grapheme of a token wider than a line, does not fit (`WrapOf`, `OnlyBlanksAreLost`).
* Splitting input is independent of chunking, for any number of non-empty chunks, if and only if no chunk boundary
  shows. Without a paste start marker in buffer and input the boundaries that show are those between `ESC ESC`
  and a character that begins a longer sequence (`UnmarkedCutShows`). With markers the same holds for the text before
  each start marker and after each paste; a boundary inside a start marker shows when the part that has arrived
  completes what waited before it (`MarkerCutShows`), and boundaries inside pastes never show (`CutShows`).
* Input that waits for its completion when a paste starts is dropped, a lone Escape for instance
  (`EscapeBeforePasteIsLost`); besides raw copies of reported keys nothing else is (`NothingLostExactly`).
* `parseKey` and `matchesKey` agree on Kitty reports of one-character keys except for the plus key and
  for code points from 65536 on; for xterm's modifyOtherKeys reports they agree only when a modifier is
  held, no lock bit is set and the key is not on the keypad. The comment on the base-layout fallback
  names letters and symbols; the parser also treats digits as authoritative and the matcher does not,
  so there a second id matches (`OtherIdMatches`). Each disagreement is exhibited on a concrete report. On one or two
  raw characters the parsed id of a one-character key matches unless the Kitty protocol is active and an escape comes
  first, and a matching id is the parsed one unless the raw form is also another key's (`RawIdMatches`); capitals, the
  double quote and plus are parsed under names that never match them (`RawNameFails`).
* A plain component that takes the focus from an overlay keeps it while input arrives, and the overlay has it again
  afterwards; what the overlay was opened from loses it again with the next input (`StealAndGiveUp`, `FocusOpener`).
* Merging headers is associative on all inputs, the order of names included.
* The loop's context gains exactly the final message if and only if the response stream starts at most
  once; a second start leaves a stale partial message in it and breaks the event protocol.

## Model

| member | source | states |
|---|---|---|
| Terminal.WriteFits | packages/tui/src/tui.ts:1635-1663 | a line no wider than the screen is written without wrapping: it changes only its row, which then shows the line |
| Terminal.ResetLeavesPlainPen | packages/tui/src/tui.ts:1106-1115 | a line with its appended resets leaves no style behind for the next one |
| Terminal.ShowPutsGraphemeAtItsColumn | packages/tui/src/tui.ts:1663-1663 | each grapheme of a written line stands at the column given by the widths before it |
| Renderer.TUI.ExtractCursorPosition | packages/tui/src/tui.ts:1260-1278 | finds the marker on the lowest of the bottom `height` lines that has one, its column being the width before it, and strips only that marker |
| Frames.MarkerIsStripped | packages/tui/src/tui.ts:1260-1278 | on any frame the lowest marker of the bottom lines, the first on its line, gives the cursor's place and is all that is taken out |
| Frames.NoMarker | packages/tui/src/tui.ts:1260-1278 | without one there is no cursor and the frame is untouched |
| Renderer.TUI.ApplyLineResets | packages/tui/src/tui.ts:1106-1115 | every line is normalised and gets the SGR reset and hyperlink close appended |
| Renderer.TUI.NormalizeTerminalOutput | packages/tui/src/utils.ts:284-305 | the loop equals the normal form: visible tabs as three spaces, Thai and Lao AM vowels decomposed, codes kept |
| Frames.NormalizedKeepsWidth | packages/tui/src/utils.ts:274-305 | normalising a writable line keeps its width |
| Frames.NormalizedTwice | packages/tui/src/utils.ts:274-305 | and doing it twice changes nothing more |
| Frames.NormalizedAcross | packages/tui/src/utils.ts:284-305 | normalising goes item by item |
| Frames.NormalizedOne | packages/tui/src/utils.ts:284-305 | a visible tab becomes three spaces, codes and other graphemes only have their vowels decomposed |
| Frames.DecomposedAcross | packages/tui/src/utils.ts:281-290 | character by character: the two AM vowels become their two code points each, and nothing else changes |
| Renderer.TUI.PositionHardwareCursor | packages/tui/src/tui.ts:1742-1773 | moves the cursor by the row difference, clamped by the terminal, to the marker's column, and remembers the row; the cursor is shown exactly when there is a marker and the setting says so |
| Renderer.TUI.EmitAllLines | packages/tui/src/tui.ts:1340-1362 | on a clean screen all lines end up in scrollback and screen, each once and in order |
| Renderer.TUI.EmitViewport | packages/tui/src/tui.ts:1327-1339 | every screen row is cleared and the bottom lines are shown, scrollback untouched |
| Renderer.TUI.FullRender | packages/tui/src/tui.ts:1315-1375 | each of the three modes sends just its lines, from any state, and shows the frame's bottom lines and re-establishes what the renderer remembers about the terminal, the initial mode on a clean screen |
| Patching.ComputeDiff | packages/tui/src/tui.ts:1430-1451 | the first and last differing lines, appended lines included |
| Patching.PlanPatch | packages/tui/src/tui.ts:1430-1505 | outside the range it returns no visible line differs; repainting is refused only when a visible change cannot be reached |
| Patching.EmitDeletedTail | packages/tui/src/tui.ts:1524-1555 | clears exactly the rows of the deleted lines, without scrolling, and returns to the last line kept |
| Patching.EmitPatch | packages/tui/src/tui.ts:1578-1685 | after its moves, scrolls, line writes and tail clears the screen shows the new frame from the new viewport top, scrolled-off rows being the frame's own lines |
| Renderer.TUI.RenderUnchanged | packages/tui/src/tui.ts:1508-1517 | with no visible change nothing is written and a screen in step already shows the frame |
| Renderer.TUI.RenderDeletedTail | packages/tui/src/tui.ts:1520-1566 | the branch for deleted lines sends its clears and leaves the frame on a screen in step |
| Renderer.TUI.RenderChanged | packages/tui/src/tui.ts:1576-1735 | the branch that rewrites lines sends just those and leaves the frame on a screen in step |
| Renderer.TUI.DoRender | packages/tui/src/tui.ts:1280-1735 | one render, in whatever state the terminal is: what its path sends and what it remembers; when the path repaints the screen or the terminal was in step, the prepared frame is on screen from the remembered viewport top; and whether the cursor is shown |
| RendererRuns.StepShowsFrame | packages/tui/src/tui.ts:1280-1773 | after a render that repaints or starts in step, screen row r shows line top + r of the frame; cursor and memory agree if and only if the render keeps the cursor in the stated sense |
| RendererRuns.RenderStep | packages/tui/src/tui.ts:1280-1773 | every render of the renderer is a step of a run, for the frame and the repaint requests it found |
| RendererRuns.RenderAll | packages/tui/src/tui.ts:1280-1773 | rendering any list of frames, with any repaint requests, on a clean screen is a run; without empty frames and markers it ends with the cursor tracked |
| RendererRuns.RunStaysCoupled | packages/tui/src/tui.ts:1280-1773 | over any run of frames, resizes and repaint requests, from any state in step on: all states stay in step if and only if all renders keep the cursor, and the first that does not still shows its frame |
| RendererRuns.RepaintRecovers | packages/tui/src/tui.ts:1315-1375 | after a requested repaint or a resize the frame is shown, from any state, and the cursor tracked unless an empty frame was repainted on several rows |
| RendererRuns.OneLinePatch | packages/tui/src/tui.ts:1576-1661 | when one visible line differs, a move, that line and nothing else is sent |
| RendererRuns.ScrollbackIsKept | packages/tui/src/tui.ts:1313-1458 | without a clear request no render, in any state of the terminal, takes a row from the scrollback; a forced, resized or shrunk repaint leaves it exactly as it was |
| RendererRuns.RunKeepsScrollback | packages/tui/src/tui.ts:1280-1735 | over any run without clear requests no row ever leaves the scrollback |
| RendererRuns.SameFrameWritesNothing | packages/tui/src/tui.ts:1508-1517 | the same frame again changes nothing but the cursor, whatever the screen shows |
| RendererRuns.OneLineChangesOneRow | packages/tui/src/tui.ts:1576-1661 | one changed visible line changes one row of the screen, to that line, and no scrollback |
| RendererRuns.CursorStandsAtMarker | packages/tui/src/tui.ts:1742-1773 | a render that keeps the cursor leaves it on the marker's row and, within the screen, its column |
| RendererRuns.ShrinkIsReclaimed | packages/tui/src/tui.ts:1421-1427 | a frame shorter than the rendered extent, when that is to be cleared, is shown from its own natural viewport and the extent shrinks to it |
| RendererRuns.MarkerLostOnlyAfterShrink | packages/tui/src/tui.ts:1726-1773 | a non-empty frame loses the cursor only by a patch whose kept viewport is below the frame's own |
| RendererRuns.MarkerAboveViewportLosesCursor | packages/tui/src/tui.ts:1742-1773 | and it does, when the last of three lines on two rows goes and the marker stands on the first |
| RendererRuns.LoseCursorByShrinking | packages/tui/src/tui.ts:1742-1773 | two renders on a clean two-row screen reach that case: the frame is shown and the cursor is not tracked |
| RendererRuns.LoseCursorByEmptyFrame | packages/tui/src/tui.ts:1315-1375 | the other loss: an empty frame repainted on several rows |
| RendererRuns.ShowWrongFrame | packages/tui/src/tui.ts:1576-1773 | a third render after the first loss leaves the wrong screen: a line is written one row too low, below one that is gone |
| RendererRuns.AppendKeepsScrollbackExact | packages/tui/src/tui.ts:1576-1735 | a frame that only appends keeps scrollback equal to the lines above the viewport |
| RendererRuns.RunKeepsTranscriptExact | packages/tui/src/tui.ts:1430-1458 | over any appending run scrollback followed by screen is every line exactly once and in order, after what was there before |
| RendererRuns.ClearMakesTranscriptExact | packages/tui/src/tui.ts:1341-1344 | an explicit clear makes the transcript exact from any state |
| Ansi.ExtractAnsiCode | packages/tui/src/utils.ts:311-349 | recognises a CSI code up to its final letter and OSC and APC codes up to BEL or ST, and nothing else |
| Ansi.CodeIsRecognised | packages/tui/src/utils.ts:311-349 | a complete code is read back whatever text follows it |
| Ansi.CsiIsCode | packages/tui/src/utils.ts:311-330 | a control sequence is a code up to the first of m, G, K, H, J, whatever follows |
| Ansi.StringIsCode | packages/tui/src/utils.ts:331-349 | an OSC or APC string is one up to BEL or ST |
| Ansi.NoOtherCode | packages/tui/src/utils.ts:311-349 | and nothing else is a code |
| Tracker.FormatUndoesParse | packages/tui/src/utils.ts:359-381 | formatting a parsed hyperlink gives back the very code, terminator included |
| Tracker.ProcessKeepsReachable | packages/tui/src/utils.ts:404-536 | every code keeps the tracker in the states that codes can produce (colours in written form, links with a url) |
| AnsiCodeTrackers.AnsiCodeTracker.Process | packages/tui/src/utils.ts:404-536 | the field-updating method equals the specification, whose effect the next rows state |
| SgrMeaning.LastParameterDecides | packages/tui/src/utils.ts:404-536 | for any parameter list, each attribute and colour is decided by the last parameter about it since the last reset, and is unchanged without one; links are never touched |
| SgrMeaning.SgrCodeMeans | packages/tui/src/utils.ts:404-536 | that is the effect of every SGR code, as text, on every style |
| SgrMeaning.DefaultsAndOffs | packages/tui/src/utils.ts:470-536 | 39 and 49 drop their own colour and nothing else; 22, 23, 24, 27 and 29 turn their own attributes off and nothing else |
| SgrMeaning.LinkCodeMeans | packages/tui/src/utils.ts:359-420 | a hyperlink code sets its link, or none without an address, and nothing else |
| SgrMeaning.OtherCodesChangeNothing | packages/tui/src/utils.ts:404-420 | codes that are neither change nothing |
| AnsiCodeTrackers.AnsiCodeTracker.GetActiveCodes | packages/tui/src/utils.ts:558-576 | emits the codes for the current state in the fixed order |
| AnsiCodeTrackers.AnsiCodeTracker.GetLineEndReset | packages/tui/src/utils.ts:600-609 | emits the closing codes of underline and hyperlink, for the state it is in |
| TrackerRoundTrip.LineEndResetCloses | packages/tui/src/utils.ts:600-609 | processed after any reachable state, those codes turn underline and hyperlink off and change nothing else |
| AnsiCodeTrackers.AnsiCodeTracker.UpdateFromText | packages/tui/src/utils.ts:612-623 | processes the codes of a text in order and skips everything else |
| TrackerRoundTrip.ActiveItemsRebuild | packages/tui/src/utils.ts:404-576 | from a cleared state the active codes rebuild any reachable state exactly |
| TrackerRoundTrip.ActiveCodesRoundTrip | packages/tui/src/utils.ts:404-623 | the same through text, for the state left by any string at all |
| TrackerRoundTrip.ScanReadsItems | packages/tui/src/utils.ts:612-623 | scanning the text of well-formed items processes exactly their codes |
| Tokens.SplitIntoTokensWithAnsi | packages/tui/src/utils.ts:628-702 | the tokens joined are the text, and it is cut exactly between neighbouring graphemes of which one is a space and the other not, or one may break anywhere; codes stay with the grapheme they precede |
| Wrap.BreakLongWord | packages/tui/src/utils.ts:837-904 | no grapheme lost, style carried over every break, every break before a grapheme that does not fit, every piece within the width |
| Wrap.WrapSingleLine | packages/tui/src/utils.ts:740-819 | inked graphemes come out once, in order and in their styles; every line but the last ends with underline and hyperlink off; lines fit when graphemes do and space is the only blank; a line that fits is kept, and another is wrapped greedily, as `WrapOf` says |
| WrapLayout.OnlyBlanksAreLost | packages/tui/src/utils.ts:740-819 | the lines, with blanks put back at their ends, show the whole text |
| Wrap.WrapTextWithAnsi | packages/tui/src/utils.ts:715-738 | for texts none of whose codes spans lines: reading each output line from a cleared tracker gives every inked grapheme of the whole text, in order, in the SGR and hyperlink state it had there; every line of the text is wrapped greedily behind the codes in force there; and every output line fits when each grapheme does and space is the only blank |
| Wrap.RawSplitExactly | packages/tui/src/utils.ts:715-733 | splitting the raw string at line breaks is splitting the displayed text if and only if no code holds a line break |
| Wrap.CutCodeIsShown | packages/tui/src/utils.ts:722-728 | the first piece of a code cut at a line break is recognised as no code |
| Wrap.BrokenLinkIsCut | packages/tui/src/utils.ts:722-728 | a concrete hyperlink whose address holds a line break is cut in two |
| Compose.SliceWithWidth | packages/tui/src/utils.ts:1083-1128 | exactly the graphemes that start inside the columns (a strict slice drops one reaching past the end); with their styles, from column 0 on, if and only if none is selected or the codes at the slice's edge commute with the earlier ones; the first one has the style of the edge's codes followed by the earlier ones; a slice from column 0 ends in the style of the codes left of its end |
| Compose.SelectionIsARun | packages/tui/src/utils.ts:1109-1123 | the selected graphemes are one run of the line's: all and only those whose columns qualify |
| Compose.EdgeCommutesWhenBare | packages/tui/src/utils.ts:1098-1116 | they do when there are none at the edge or none before it |
| Compose.SliceChangesColor | packages/tui/src/utils.ts:1098-1116 | on a concrete line they do not: the grapheme selected is green, and the style the slice gives it red |
| Overlay.ExtractSegments | packages/tui/src/utils.ts:1138-1209 | whole graphemes left of the cut, and the graphemes right of it with the style they inherit; the left part ends in its last grapheme's style, the right one in that of the codes left of its end |
| Overlay.CompositeLineAt | packages/tui/src/tui.ts:1202-1250 | exactly `totalWidth` columns: base left part, strictly clipped overlay, base tail, each padded with spaces in a determined style and each glyph in the style of its own line; an overlay reaching past the width is composited as wide as it reaches and cut strictly |
| Overlay.CompositedShows | packages/tui/src/tui.ts:1202-1250 | glyph by glyph: base glyphs left of the overlay and overlay glyphs in its columns are there, base glyphs right of it too when none straddles its edge, and then nothing else but spaces |
| Overlay.TailKeepsColumns | packages/tui/src/tui.ts:1202-1250 | the tail keeps its columns if and only if no grapheme straddles the overlay's right edge |
| Overlay.StraddledTailMoves | packages/tui/src/tui.ts:1202-1250 | on a concrete line with a wide grapheme there the tail moves one column left |
| Sequences.FindSequenceEnd | packages/tui/src/stdin-buffer.ts:200-245 | the prefix-by-prefix search finds the shortest complete sequence, or the lone escape before another sequence |
| Sequences.ExtractCompleteSequences | packages/tui/src/stdin-buffer.ts:192-255 | the loop yields the sequences and remainder of the specification, whose sequences the `SequenceShapes` rows state |
| Sequences.ExtractionLosesNothing | packages/tui/src/stdin-buffer.ts:192-255 | the sequences joined, followed by the remainder, are the buffer |
| Sequences.CutIsInvisible | packages/tui/src/stdin-buffer.ts:29-255 | extraction in two pieces equals extraction at once for every cut that splits no escape pair |
| Sequences.CutEscapePairShows | packages/tui/src/stdin-buffer.ts:207-230 | a cut that does split one yields `ESC ESC` instead of a lone `ESC` at that place |
| Sequences.CutIsInvisibleExactly | packages/tui/src/stdin-buffer.ts:29-255 | so the condition is exact, for all buffers and cuts |
| SequenceShapes.ControlSequence | packages/tui/src/stdin-buffer.ts:84-126 | every CSI sequence of parameter and intermediate bytes and a final byte 0x40 to 0x7E, old and SGR mouse reports aside, is one sequence, and all its proper beginnings are held back |
| SequenceShapes.OldMouseReport | packages/tui/src/stdin-buffer.ts:42-47 | so is ESC [ M with any three characters |
| SequenceShapes.MouseReport | packages/tui/src/stdin-buffer.ts:97-119 | so is an SGR mouse report |
| SequenceShapes.OnlyMouseReports | packages/tui/src/stdin-buffer.ts:99-117 | nothing else is recognised as one |
| SequenceShapes.MouseReportWaits | packages/tui/src/stdin-buffer.ts:99-119 | what begins like one is held back until it is one |
| SequenceShapes.SingleShift | packages/tui/src/stdin-buffer.ts:65-69 | ESC O and one character is one sequence |
| SequenceShapes.AltKey | packages/tui/src/stdin-buffer.ts:71-78 | so is ESC and a character that begins no longer sequence |
| SequenceShapes.OperatingSystemCommand | packages/tui/src/stdin-buffer.ts:132-143 | an OSC string up to BEL or ST is one sequence, its proper beginnings are held back |
| SequenceShapes.ControlString | packages/tui/src/stdin-buffer.ts:150-180 | DCS and APC strings up to ST likewise |
| SequenceShapes.SequenceThenMore | packages/tui/src/stdin-buffer.ts:192-255 | a sequence stays what it is whatever follows it |
| SequenceShapes.CharacterThenMore | packages/tui/src/stdin-buffer.ts:247-251 | any character but Escape is a sequence of its own |
| StdinBuffers.StdinBuffer.Process | packages/tui/src/stdin-buffer.ts:287-387 | the method, recursion over paste remainders included, terminates and equals the specification of one chunk |
| StdinBuffers.StdinBuffer.EmitDataSequence | packages/tui/src/stdin-buffer.ts:389-398 | the raw copy of a key just reported as a Kitty sequence is dropped, once |
| StdinBuffers.PrintableReport | packages/tui/src/stdin-buffer.ts:184-190 | the reports of a printable key, by its code point and optional alternate keys, are recognised with that code point from 32 on |
| StdinBuffers.OnlyPrintableReports | packages/tui/src/stdin-buffer.ts:184-190 | nothing else is |
| StdinBuffers.RawCopyIsDropped | packages/tui/src/stdin-buffer.ts:389-398 | a report followed by its raw character is emitted alone, followed by another character with it |
| StdinBuffers.StdinBuffer.Flush | packages/tui/src/stdin-buffer.ts:400-414 | what is buffered comes out as one sequence |
| StdinBuffers.ChunkCutExactly | packages/tui/src/stdin-buffer.ts:287-398 | in any state and for any input, feeding two non-empty chunks equals feeding their concatenation, events and state, if and only if the cut does not show (`CutShows`) |
| StdinBuffers.UnmarkedCutShows | packages/tui/src/stdin-buffer.ts:287-398 | outside a paste and without a start marker in buffer and input, a cut shows if and only if it splits an escape pair |
| StdinBuffers.MarkerCutShows | packages/tui/src/stdin-buffer.ts:337-369 | a concrete cut inside a start marker shows |
| StdinBuffers.ChunkingIsInvisibleExactly | packages/tui/src/stdin-buffer.ts:287-398 | the same for any number of non-empty chunks: if and only if no boundary shows |
| StdinBuffers.FeedAccounts | packages/tui/src/stdin-buffer.ts:287-398 | the events of a chunk and what is held back account for the whole input, but for as many characters as are counted as lost |
| StdinBuffers.NothingLostExactly | packages/tui/src/stdin-buffer.ts:287-398 | they are the whole input if and only if no raw copy is dropped and the text before every start marker is complete |
| StdinBuffers.EscapeBeforePasteIsLost | packages/tui/src/stdin-buffer.ts:337-369 | a lone Escape right before a paste is lost |
| StdinBuffers.PasteRoundTrip | packages/tui/src/stdin-buffer.ts:308-369 | content free of the end marker, bracketed and cut anywhere, gives exactly one paste event with that content and an idle buffer |
| OverlayFocus.TUI.constructor | packages/tui/src/tui.ts:333-345 | the focus invariant holds at the start |
| OverlayFocus.TUI.IsFocusAncestor | packages/tui/src/tui.ts:471-480 | terminates on any chain, cyclic ones included, and answers whether the component is reachable up the chain |
| OverlayFocus.TUI.SetFocusInternal | packages/tui/src/tui.ts:381-444 | keeps the invariant; where the focus ends up (target, or what a blocked restore state resumes) and the whole new restore state; what that comes to is stated by the scenario rows below |
| OverlayFocus.TUI.ShowOverlay | packages/tui/src/tui.ts:504-520 | the new entry is on top with the highest order and takes the focus exactly when visible and capturing |
| OverlayFocus.TUI.Retarget | packages/tui/src/tui.ts:482-488 | overlays opened over the removed one fall back to its previous focus, all others unchanged |
| OverlayFocus.TUI.GetTopmost | packages/tui/src/tui.ts:630-639 | the visible capturing overlay of highest order, if any |
| OverlayFocus.TUI.Hide | packages/tui/src/tui.ts:522-536 | the entry leaves the stack and the restore state for good and overlays opened over it fall back past it; the focus, if it had it, goes to the topmost capturing overlay or back, unless it was holding another overlay back, which then resumes |
| OverlayFocus.TUI.HideOverlay | packages/tui/src/tui.ts:600-613 | the same for the last entry |
| OverlayFocus.TUI.SetHidden | packages/tui/src/tui.ts:537-556 | hiding gives the focus up as removing does; showing a capturing overlay brings it to the front and focuses it |
| OverlayFocus.TUI.Focus | packages/tui/src/tui.ts:558-563 | brings a visible entry of the stack to the front and focuses it, otherwise does nothing |
| OverlayFocus.TUI.Unfocus | packages/tui/src/tui.ts:564-594 | nothing without focus or claim; a blocked claim gets the explicit target or is dropped; otherwise the focus goes to the target, or to the topmost other overlay or back, an overlay held back by it resuming first |
| OverlayFocus.TUI.RouteInput | packages/tui/src/tui.ts:808-834 | input never reaches a plain component while a visible overlay is due the focus, save the one it waits for; a vanished overlay hands over to the topmost, or else to what was focused before it and on to whatever resumes; the resulting focus is stated in every case |
| OverlayFocus.ShowThenHide | packages/tui/src/tui.ts:504-613 | showing and hiding an overlay restores the focus, or gives it to the topmost overlay that captures it |
| OverlayFocus.StealAndGiveUp | packages/tui/src/tui.ts:381-444 | from any state in which an overlay has the focus: a plain component that takes it keeps it while input arrives, the overlay waits, and has it again when the component gives it up |
| OverlayFocus.StealAndPassOn | packages/tui/src/tui.ts:395-418 | passed on, the focus is waited for at the next component, or returns at once when the first is no longer mounted |
| OverlayFocus.FocusOpener | packages/tui/src/tui.ts:406-418 | what the overlay was opened from may take the focus without being waited for, until the next input gives it back |
| OverlayFocus.UnfocusWhileWaiting | packages/tui/src/tui.ts:564-594 | an explicit target given to a waiting overlay takes effect when the focus next moves to a plain component or none |
| OverlayFocus.UnfocusForGood | packages/tui/src/tui.ts:564-594 | without a target the overlay makes no further claim |
| OverlayFocus.VanishAndReturn | packages/tui/src/tui.ts:808-834 | an overlay turned off by its `visible` callback gives the focus back with the next input and has it again once turned on |
| OverlayFocus.AncestorsClimb | packages/tui/src/tui.ts:471-480 | the ancestors of an overlay are what it was opened from and what overlays showing an ancestor were opened from |
| Keys.FormatParses | packages/tui/src/keys.ts:776-801 | `parseKeyId` undoes `formatKeyNameWithModifiers` |
| Keys.PlusParsesAsNothing | packages/tui/src/keys.ts:788-801 | except for the plus key, whose ids read back as nothing |
| Keys.ReportMatches | packages/tui/src/keys.ts:653-694 | a report matches a key code exactly when it is its identity, or its base-layout key and the identity is no letter or symbol |
| Keys.ParsedIdMatches | packages/tui/src/keys.ts:587-694 | the id parsed from a CSI u report of a one-character key matches that report if and only if its code point is below 65536 and it is not plus |
| Keys.OtherIdMatches | packages/tui/src/keys.ts:653-694 | another one-character id with the same modifiers matches if and only if it is the base-layout key of a digit's report |
| Keys.ModifyOtherKeysIdMatches | packages/tui/src/keys.ts:696-774 | for modifyOtherKeys reports: matches if and only if a modifier is held, no lock bit set, no keypad code, below 65536 and not plus |
| Keys.DigitReportMatchesLetter | packages/tui/src/keys.ts:653-694 | a concrete digit report is named "0" and matched by "c" |
| Keys.PlainReportFails | packages/tui/src/keys.ts:696-774 | a concrete modifyOtherKeys report without a modifier is not matched by its own id |
| Keys.LockedReportFails | packages/tui/src/keys.ts:696-774 | nor is one with a lock bit |
| Keys.KeypadReportFails | packages/tui/src/keys.ts:696-774 | nor is one from the keypad |
| Keys.PlusReportFails | packages/tui/src/keys.ts:1212-1249 | the concrete report of the plus key is named + and not matched by it |
| Keys.HighCodePointFails | packages/tui/src/keys.ts:1212-1249 | the concrete report of code point 65583 is named slash and not matched by it |
| Keys.MatchesFormatted | packages/tui/src/keys.ts:1148-1201 | for reports longer than a raw key, matching a formatted id is matching its code and modifiers |
| KeyForms.CsiUIsRead | packages/tui/src/keys.ts:587-611 | a CSI u report written from any code, alternate keys, modifiers and event is read back as those |
| KeyForms.LetteredIsRead | packages/tui/src/keys.ts:613-652 | so are the cursor key reports, by their letters, and no other letter is one |
| KeyForms.NumberedIsRead | packages/tui/src/keys.ts:622-641 | and the editing keys by their numbers, and no other number |
| KeyForms.IdsByModifier | packages/tui/src/keys.ts:776-786 | which bit is which modifier in an id |
| KeyForms.IdOfAll | packages/tui/src/keys.ts:776-786 | and the order in which they are listed |
| KeyForms.IdsOfOtherModifiers | packages/tui/src/keys.ts:776-786 | lock bits count for nothing, any other modifier leaves no id |
| KeyForms.KeypadIsNamed | packages/tui/src/keys.ts:326-358 | every keypad code carries the name of the ordinary key |
| KeyForms.SymbolsListed | packages/tui/src/keys.ts:258-290 | the symbol keys are the listed ones |
| KeyForms.RawMatches | packages/tui/src/keys.ts:1148-1201 | data too short for a report matches a one-character key if and only if it is one of its raw forms: itself, its capital, its control character, or one of these behind an escape |
| KeyForms.RawIdMatches | packages/tui/src/keys.ts:1251-1327 | for one or two characters: the parsed id matches if and only if the Kitty protocol is off or no escape comes first; a matching id is the parsed one if and only if the raw form is no other key's |
| KeyForms.RawNameFails | packages/tui/src/keys.ts:1251-1327 | capitals, the double quote and plus are parsed as themselves and not matched by those ids |
| AgentTypes.StartedCallEnds | packages/agent/src/agent-loop.ts:435-556 | in an unbroken trace every started call ends exactly once before its turn does |
| AgentTypes.UpdateWhileRunning | packages/agent/src/agent-loop.ts:668-710 | progress updates fall strictly between start and end of their call |
| AgentTypes.RunningMeansStarted | packages/agent/src/agent-loop.ts:435-556 | a running call has one start in this turn and no end since |
| AgentTypes.TurnsBalance | packages/agent/src/agent-loop.ts:157-277 | turns never nest and never end unopened, at any point of the trace |
| AgentStates.PendingStep | packages/agent/src/agent.ts:556-568 | every event keeps the pending ids among the running calls', and equal to them while ids are not reused |
| AgentTypes.FinishedTrace | packages/agent/src/agent-loop.ts:97-145 | a finished trace has one agent_start, first, one agent_end, last, and all turns closed |
| AgentTypes.EverythingInTurns | packages/agent/src/agent-loop.ts:157-277 | messages, calls and turn ends lie inside a turn, run ends and turn starts outside |
| AgentTypes.EndFollowsStart | packages/agent/src/agent-loop.ts:283-374 | every message end has its start before it with only updates in between |
| AgentStates.AgentState.Emit | packages/agent/src/agent.ts:540-588 | the reduced state stays determined by the transcript before the run and the events: messages, streaming message, last error; pending ids belong to running calls, and are all of them when ids are not reused |
| AgentStates.ErrorIsTheLast | packages/agent/src/agent.ts:569-573 | the error reported is that of the last failed turn |
| AgentStates.AgentState.FinishRun | packages/agent/src/agent.ts:525-531 | a finished run leaves no pending call and no streaming message |
| MessageQueues.PendingMessageQueue.Drain | packages/agent/src/agent.ts:142-155 | takes all or the oldest, by mode; everything enqueued is drained or still queued, in order |
| MessageQueues.LoopQueues.GetSteeringMessages | packages/agent/src/agent.ts:471-477 | the first poll after a steering continuation is skipped and takes nothing; every other takes the oldest message or all, by mode, from what is queued |
| MessageQueues.FollowUpsWait | packages/agent/src/agent-loop.ts:261-273 | in any schedule of the loop a follow-up poll comes right after a turn with nothing to continue and an empty steering poll |
| ToolBatches.PrepareToolCall | packages/agent/src/agent-loop.ts:602-666 | prepared if and only if the tool is known, its preparation and hook let it pass and nothing aborts; otherwise the error result of what went wrong |
| ToolBatches.ExecutePrepared | packages/agent/src/agent-loop.ts:668-710 | a prepared call reports each update its tool makes and comes to what the tool returned, or to an error with what it threw |
| ToolBatches.FinalizeExecuted | packages/agent/src/agent-loop.ts:717-762 | the hook after a call replaces just the fields it gives; when it throws the result is that error |
| ToolBatches.OnUpdate | packages/agent/src/agent-loop.ts:677-692 | an update is emitted only while the tool still runs |
| ToolBatches.FailTruncated | packages/agent/src/agent-loop.ts:383-408 | every call is started, ended with the truncation error and answered, none executed, and the batch continues; the added events are exactly those |
| ToolBatches.ExecuteSequential | packages/agent/src/agent-loop.ts:435-489 | the added events are exactly, call by call in source order, start, updates, end and answer; results a prefix of the calls, all of them unless aborted, and each what its tool and hooks came to |
| ToolBatches.PrepareAll | packages/agent/src/agent-loop.ts:501-539 | all calls are started in source order before any runs, an abort cutting the list |
| ToolBatches.RunAll | packages/agent/src/agent-loop.ts:523-544 | under every interleaving of updates, late updates and completions each pending call ends once |
| ToolBatches.ExecuteParallel | packages/agent/src/agent-loop.ts:491-556 | all starts come before the first update and the first answer, all ends before the first answer; results in source order whatever the completion order, a prefix of the calls, all of them unless aborted, each what its tool and hooks came to; terminate exactly when every result says so |
| ToolBatches.ExecuteToolCalls | packages/agent/src/agent-loop.ts:413-430 | calls run in parallel, in that sense, unless the configuration or a called tool asks for sequence, and then exactly one after the other |
| ToolBatches.AsksForSequenceMeans | packages/agent/src/agent-loop.ts:420-426 | a called tool asks for sequence when the first tool of its name is a sequential one |
| AgentLoop.StreamAssistantResponse | packages/agent/src/agent-loop.ts:283-374 | reports exactly the stream's starts, later updates and the final message; the context gains exactly it, and the trace stays unbroken, if and only if the stream starts at most once |
| AgentLoop.RunTurn | packages/agent/src/agent-loop.ts:194-226 | what a turn reports and appends: response, then one answer per executed call; nothing after a failed response |
| AgentLoop.RunLoop | packages/agent/src/agent-loop.ts:157-277 | the polls of the queues follow the schedule: steering first unless skipped and after every turn, follow-ups only after a quiet turn, each poll taking the oldest queued; the hooks decide when to stop and what context comes next; at every exit completed messages equal `newMessages`, context equals history plus them unless replaced, queues conserved, the last event is agent_end with them, and only the last turn of a failed run has failed |
| Agents.RunAgentLoop | packages/agent/src/agent-loop.ts:97-120 | the whole run from prompts: it begins with run, turn and prompts and follows the schedule of polls |
| Agents.RunAgentLoopContinue | packages/agent/src/agent-loop.ts:122-145 | refused exactly for an empty transcript or one ending with an assistant message; otherwise the whole run |
| Agents.Agent.Prompt | packages/agent/src/agent.ts:345-355 | refused exactly while a run is active; otherwise the transcript grows by the run's messages, prompts first, and the run follows the schedule of polls |
| Agents.Agent.Continue | packages/agent/src/agent.ts:358-385 | after an assistant message the oldest steering message, or else follow-up, or all of them, by mode, start the run, which follows the schedule of polls; both queues stay conserved in every outcome |
| Proxy.PartialMessage.Process | packages/agent/src/proxy.ts:238-367 | the new content, stop reason and error message, what is pushed, and which events are refused and change nothing |
| Proxy.BlockHoldsItsDeltas | packages/agent/src/proxy.ts:238-367 | over any accepted events, text and thinking are the deltas for their index since its latest start, with the signature of the last end; a call holds the deltas until it ends and the arguments read from them, and after an end what late deltas are joined to |
| Proxy.NoBlockWithoutStart | packages/agent/src/proxy.ts:238-367 | an index that was never started has no block |
| Proxy.BlocksAreIndependent | packages/agent/src/proxy.ts:238-367 | a block depends on the events about its own index alone |
| Proxy.LinesAcross | packages/agent/src/proxy.ts:192-194 | splitting into lines with a carried rest is the same for every cut of the text |
| Proxy.LinesMakeUp | packages/agent/src/proxy.ts:192-194 | lines and rest hold no line feed and joined by line feeds are the text |
| Proxy.TrimIsInner | packages/agent/src/proxy.ts:197-199 | trimming takes all white space from both ends and nothing else |
| Proxy.PayloadMeans | packages/agent/src/proxy.ts:196-199 | a line carries something exactly when `data: ` is followed by more than white space |
| Proxy.ReadStream | packages/agent/src/proxy.ts:183-224 | message and pushed events, up to the first exception, depend only on the text received and not on its chunks |
| Proxy.StreamAccepted | packages/agent/src/proxy.ts:183-210 | when all lines decode and all events are accepted: the message is what the events replay, closed by the last of them that closes, and each event is passed on, the end of a block with the block |
| Proxy.StreamFails | packages/agent/src/proxy.ts:196-224 | the first line that does not decode or is refused: what came before stands, an error with its message follows, and nothing later counts |
| Models.MergeHeaders | packages/ai/src/models.ts:202-216 | the loop equals the merge specification; undefined only when both sides are |
| Models.MergeOverrides | packages/ai/src/models.ts:202-216 | by case-folded name the override's last value wins, else the base's |
| Models.MergeStaysFolded | packages/ai/src/models.ts:202-216 | names stay unique ignoring case when the base's were |
| Models.MergeAssociative | packages/ai/src/models.ts:202-216 | associative on all headers, name order included |
| Models.RequestHeaders | packages/ai/src/models.ts:463-487 | provider, model and options headers layered, then the caller's transformation |
| Models.LayersOverride | packages/ai/src/models.ts:412-487 | options over model over provider, name by name |
| Models.CurrentModels | packages/ai/src/models.ts:561-569 | baseline entries stay in place by id, new ids follow, each with its latest dynamic entry |
| Models.OverlayLooksUp | packages/ai/src/models.ts:561-569 | looking an id up in the overlay is looking it up among the latest dynamic entries, then in the baseline |
| Models.OverlayKeepsUnique | packages/ai/src/models.ts:561-569 | ids are unique if and only if the baseline's are |
| Models.ChooseRates | packages/ai/src/models.ts:640-648 | the first of the tiers with the highest threshold strictly below the tokens, or the base rates |
| Models.OrderIrrelevant | packages/ai/src/models.ts:640-648 | reordering distinct tiers changes nothing |
| Models.CostAdds | packages/ai/src/models.ts:650-658 | at the same rates costs add up over requests, item by item |
| Models.PriceOfAMillion | packages/ai/src/models.ts:650-658 | a million tokens of a kind cost its rate and nothing else, one-hour cache writes twice the input rate |
| Models.TierStartsAbove | packages/ai/src/models.ts:640-648 | a tier is due from the first token above its threshold on |
| Models.CalculateCost | packages/ai/src/models.ts:639-659 | the cost at the chosen rates |
| Fuzzy.MatchQuery | packages/tui/src/fuzzy.ts:16-68 | the scan loop computes the greedy embedding's score |
| Fuzzy.PrefixScore | packages/tui/src/fuzzy.ts:31-66 | the score of a query that starts the text, in closed form |
| Fuzzy.GapScore | packages/tui/src/fuzzy.ts:31-66 | the score of two characters at their first places, together or apart |
| Fuzzy.RunIsCounted | packages/tui/src/fuzzy.ts:36-40 | a run counts the matches of the longest unbroken stretch but its first, which counts at the start of the text |
| Fuzzy.GreedyIsComplete | packages/tui/src/fuzzy.ts:31-59 | the scan accepts if and only if the query is a subsequence, and takes the leftmost embedding |
| Fuzzy.MatchMeansSubsequence | packages/tui/src/fuzzy.ts:12-93 | a query matches exactly the texts it is a subsequence of, as it is or with letters and digits swapped |
| Fuzzy.SwappedTwice | packages/tui/src/fuzzy.ts:75-81 | swapping is its own inverse |
| Fuzzy.SwappedMeans | packages/tui/src/fuzzy.ts:75-81 | only letters followed by digits, or digits by letters, are swapped |
| Fuzzy.SwappedCosts | packages/tui/src/fuzzy.ts:69-93 | the swapped form is tried only when the query does not match and costs five |
| Fuzzy.FuzzyFilter | packages/tui/src/fuzzy.ts:99-137 | exactly the items all of whose tokens match, each once, by total score with ties in input order; all items for a query without tokens |
| Fuzzy.TokensDivide | packages/tui/src/fuzzy.ts:100-113 | a separator divides the tokens of a query |
| Fuzzy.WordIsToken | packages/tui/src/fuzzy.ts:100-113 | and a word without one is its own token |
| Fuzzy.TotalAdds | packages/tui/src/fuzzy.ts:119-131 | the total score is the sum over the tokens |

## Left out

- Kitty and iTerm image lines, image deletion and Termux height handling in `doRender`; terminal start, stop, colour queries and render scheduling.
- Codes that move the cursor or erase, and control characters besides tabs, inside the lines of a frame: frames are assumed to hold none.
- The crash path for a line wider than the terminal: frames are assumed to fit, and `CompositeLineAt` and `WrapTextWithAnsi` are proved to produce lines that do.
- Grapheme segmentation, east-asian width, the width cache and ASCII fast paths: graphemes and their widths are data, and widths add up.
- `truncateToWidth`, `sliceByColumn`, background fills, and the layout of overlay boxes.
- EmitDataSequence: a character is a code point here and a UTF-16 unit in the source, where a raw key above 0xFFFF arrives as two units and is not recognised as the copy of a report.
- Conversion of bytes to text in the input splitter, its timer (a flush is one more call), and start-of-paste inside other input beyond what `Process` specifies.
- OverlayFocus: what `visible` callbacks answer and which components are mounted may change between calls; the component tree itself, input listeners and debug keys are not part of the model.
- Keys: the branches of `matchesKey` for keys named by several characters stand as a parameter, and the legacy sequences of `parseKey` of three and more characters are omitted; numbers are exact, lower-casing is of ASCII letters, and the remembered last event type is not kept.
- RunLoop: a run is observed for at most `turns` turns, for any number; that runs end is not claimed.
- AnyResponse: response streams start at most once, as the stream contract asks; `StreamAssistantResponse` itself is stated for all streams.
- Exceptions thrown by callbacks that promise not to throw, and `handleRunFailure`, which they lead to; clearing queues and `reset`.
- PrepareToolCall: what schema validation, argument preparation, tools and hooks answer is given; contents of messages, results and arguments are uninterpreted strings, durations are dropped.
- Updates of model and thinking level between turns have no effect on the protocol and are dropped.
- Proxy: fetching, aborting, UTF-8 decoding, usage numbers and events of unknown type; JSON reading is a parameter.
- Headers whose names look like array indexes, which JavaScript objects would reorder; names fold by ASCII.
- Cost arithmetic is over the reals, scores too; fuzzy matching lower-cases ASCII letters only.
- Packages for the server, model catalogs, command line, configuration and storage.
