/** The input splitter: buffers chunks, emits complete sequences, and collects bracketed pastes. */
module StdinBuffers {
  import opened Text
  import opened Ansi
  import opened Sequences

  const PASTE_START: string := [ESC] + "[200~"
  const PASTE_END: string := [ESC] + "[201~"

  datatype Event = Data(sequence: string) | Paste(content: string)

  /** `pending`: a printable key just reported as a Kitty sequence, whose raw copy is to be dropped. */
  datatype State = Buffered(buffer: string, pasteMode: bool, pasteBuffer: string, pending: Option<nat>)

  const IDLE := Buffered("", false, "", None)

  datatype Output = Output(state: State, events: seq<Event>)

  // ----- searching -----

  predicate OccursAt(s: string, pattern: string, i: int) {
    0 <= i && i + |pattern| <= |s| && s[i..i + |pattern|] == pattern
  }

  /** First occurrence at or after i. */
  function Find(s: string, pattern: string, i: nat): (r: Option<nat>)
    ensures r.Some? ==> i <= r.value && OccursAt(s, pattern, r.value)
    ensures r.Some? ==> forall k :: i <= k < r.value ==> !OccursAt(s, pattern, k)
    ensures r.None? ==> forall k :: i <= k ==> !OccursAt(s, pattern, k)
    decreases |s| - i
  {
    if i + |pattern| > |s| then None
    else if OccursAt(s, pattern, i) then Some(i)
    else Find(s, pattern, i + 1)
  }

  predicate Contains(s: string, pattern: string) {
    Find(s, pattern, 0).Some?
  }

  // ----- emitting -----

  /** The code point of a Kitty report of an unmodified printable key: ESC [ cp (:shifted)? (:base)? u */
  function KittyPrintable(sequence: string): Option<nat> {
    if |sequence| < 4 || sequence[0] != ESC || sequence[1] != '[' || sequence[|sequence| - 1] != 'u' then None
    else
      var parts := Split(sequence[2..|sequence| - 1], ':');
      if !IsNumber(parts[0]) || |parts| > 3 then None
      else if |parts| > 1 && !AllDigits(parts[1]) then None
      else if |parts| > 2 && !IsNumber(parts[2]) then None
      else if Digits(parts[0]) >= 32 then Some(Digits(parts[0])) else None
  }

  /** One sequence: emitted, unless it is the raw copy of the key just reported. */
  function Emit(pending: Option<nat>, sequence: string): (seq<Event>, Option<nat>) {
    if |sequence| == 1 && pending == Some(sequence[0] as nat) then ([], None)
    else ([Data(sequence)], KittyPrintable(sequence))
  }

  function EmitAll(pending: Option<nat>, sequences: seq<string>): (seq<Event>, Option<nat>)
    decreases |sequences|
  {
    if sequences == [] then ([], pending)
    else
      var (first, p) := Emit(pending, sequences[0]);
      var (rest, q) := EmitAll(p, sequences[1..]);
      (first + rest, q)
  }

  lemma {:induction false} EmitAllConcat(pending: Option<nat>, a: seq<string>, b: seq<string>)
    ensures var (ea, pa) := EmitAll(pending, a);
      var (eb, pb) := EmitAll(pa, b);
      EmitAll(pending, a + b) == (ea + eb, pb)
    decreases |a|
  {
    if a == [] {
      assert a + b == b;
      assert [] + EmitAll(pending, b).0 == EmitAll(pending, b).0;
    } else {
      assert (a + b)[1..] == a[1..] + b;
      var (first, p) := Emit(pending, a[0]);
      EmitAllConcat(p, a[1..], b);
      var (ra, pa) := EmitAll(p, a[1..]);
      var (eb, pb) := EmitAll(pa, b);
      assert first + (ra + eb) == (first + ra) + eb;
    }
  }

  // ----- one chunk -----

  /** What one chunk does. An end of paste hands the rest of the input back to the start. */
  function Feed(st: State, str: string): Output
    decreases |st.buffer| + |st.pasteBuffer| + |str|
  {
    if str == "" && st.buffer == "" then
      var (events, pending) := Emit(st.pending, "");
      Output(st.(pending := pending), events)
    else
      var buffer := st.buffer + str;
      if st.pasteMode then FeedPaste(st.pasteBuffer + buffer, st.pending)
      else
        var start := Find(buffer, PASTE_START, 0);
        if start.Some? then
          var before := if start.value > 0 then Extract(buffer[..start.value]).sequences else [];
          var rest := FeedPaste(buffer[start.value + |PASTE_START|..], None);
          Output(rest.state, EmitAll(st.pending, before).0 + rest.events)
        else
          var e := Extract(buffer);
          var (events, pending) := EmitAll(st.pending, e.sequences);
          Output(Buffered(e.remainder, false, st.pasteBuffer, pending), events)
  }

  /** Paste content so far, once more input has joined it. */
  function FeedPaste(pasteBuffer: string, pending: Option<nat>): Output
    decreases |pasteBuffer|, 0
  {
    var end := Find(pasteBuffer, PASTE_END, 0);
    if end.None? then Output(Buffered("", true, pasteBuffer, pending), [])
    else
      var remaining := pasteBuffer[end.value + |PASTE_END|..];
      var pasted := [Paste(pasteBuffer[..end.value])];
      if remaining == "" then Output(IDLE, pasted)
      else
        var rest := Feed(IDLE, remaining);
        Output(rest.state, pasted + rest.events)
  }

  // ----- the object -----

  class StdinBuffer {
    var buffer: string
    var pasteMode: bool
    var pasteBuffer: string
    var pendingKittyPrintableCodepoint: Option<nat>
    /** Everything emitted so far. */
    var emitted: seq<Event>

    constructor ()
      ensures State() == IDLE && emitted == []
    {
      buffer, pasteMode, pasteBuffer, pendingKittyPrintableCodepoint, emitted := "", false, "", None, [];
    }

    function State(): State
      reads this
    {
      Buffered(buffer, pasteMode, pasteBuffer, pendingKittyPrintableCodepoint)
    }

    method EmitDataSequence(sequence: string)
      modifies this`pendingKittyPrintableCodepoint, this`emitted
      ensures var (events, pending) := Emit(old(pendingKittyPrintableCodepoint), sequence);
        emitted == old(emitted) + events && pendingKittyPrintableCodepoint == pending
    {
      if |sequence| == 1 && pendingKittyPrintableCodepoint == Some(sequence[0] as nat) {
        pendingKittyPrintableCodepoint := None;
        return;
      }
      pendingKittyPrintableCodepoint := KittyPrintable(sequence);
      emitted := emitted + [Data(sequence)];
    }

    method EmitSequences(sequences: seq<string>)
      modifies this`pendingKittyPrintableCodepoint, this`emitted
      ensures var (events, pending) := EmitAll(old(pendingKittyPrintableCodepoint), sequences);
        emitted == old(emitted) + events && pendingKittyPrintableCodepoint == pending
    {
      var i := 0;
      while i < |sequences|
        invariant 0 <= i <= |sequences|
        invariant var (all, end) := EmitAll(old(pendingKittyPrintableCodepoint), sequences);
          var (rest, pending) := EmitAll(pendingKittyPrintableCodepoint, sequences[i..]);
          emitted + rest == old(emitted) + all && pending == end
      {
        assert sequences[i..][1..] == sequences[i + 1..];
        EmitDataSequence(sequences[i]);
        i := i + 1;
      }
    }

    method Process(str: string)
      modifies this
      ensures var out := Feed(old(State()), str);
        State() == out.state && emitted == old(emitted) + out.events
      decreases |buffer| + |pasteBuffer| + |str|, 1
    {
      hide Extract, Find, EmitAll, FeedPaste;
      if |str| == 0 && |buffer| == 0 {
        EmitDataSequence("");
        return;
      }
      buffer := buffer + str;
      if pasteMode {
        pasteBuffer := pasteBuffer + buffer;
        buffer := "";
        FinishPaste();
        return;
      }
      var startIndex := Find(buffer, PASTE_START, 0);
      if startIndex.Some? {
        StartPaste(startIndex.value);
        return;
      }
      var sequences, remainder := ExtractCompleteSequences(buffer);
      buffer := remainder;
      EmitSequences(sequences);
    }

    method EmitBefore(startIndex: nat)
      requires startIndex <= |buffer|
      modifies this`pendingKittyPrintableCodepoint, this`emitted
      ensures var before := if startIndex > 0 then Extract(buffer[..startIndex]).sequences else [];
        emitted == old(emitted) + EmitAll(old(pendingKittyPrintableCodepoint), before).0
    {
      if startIndex > 0 {
        var sequences, remainder := ExtractCompleteSequences(buffer[..startIndex]);
        EmitSequences(sequences);
      }
    }

    /** Emits what precedes the start marker, then enters paste mode. */
    method StartPaste(startIndex: nat)
      requires startIndex + |PASTE_START| <= |buffer|
      modifies this
      ensures var before := if startIndex > 0 then Extract(old(buffer)[..startIndex]).sequences else [];
        var out := FeedPaste(old(buffer)[startIndex + |PASTE_START|..], None);
        && State() == out.state
        && emitted == old(emitted) + (EmitAll(old(pendingKittyPrintableCodepoint), before).0 + out.events)
      decreases |buffer|, 0
    {
      hide Extract, EmitAll, Feed, FeedPaste, Find;
      EmitBefore(startIndex);
      pendingKittyPrintableCodepoint := None;
      pasteMode := true;
      pasteBuffer := buffer[startIndex + |PASTE_START|..];
      buffer := "";
      FinishPaste();
    }

    /** Emits the paste if its end has arrived, then processes what follows it. */
    method FinishPaste()
      requires pasteMode && buffer == ""
      modifies this
      ensures var out := FeedPaste(old(pasteBuffer), old(pendingKittyPrintableCodepoint));
        State() == out.state && emitted == old(emitted) + out.events
      decreases |pasteBuffer|, 0
    {
      hide Extract, Find, EmitAll, Feed;
      var endIndex := Find(pasteBuffer, PASTE_END, 0);
      if endIndex.Some? {
        var pastedContent := pasteBuffer[..endIndex.value];
        var remaining := pasteBuffer[endIndex.value + |PASTE_END|..];
        pasteMode := false;
        pasteBuffer := "";
        pendingKittyPrintableCodepoint := None;
        emitted := emitted + [Paste(pastedContent)];
        if |remaining| > 0 {
          Process(remaining);
        }
      }
    }

    /** The timer's flush: the incomplete sequence is given up as it is. */
    method Flush() returns (sequences: seq<string>)
      modifies this
      ensures sequences == if old(buffer) == "" then [] else [old(buffer)]
      ensures State() == if old(buffer) == "" then old(State()) else old(State()).(buffer := "", pending := None)
      ensures emitted == old(emitted)
    {
      if |buffer| == 0 {
        return [];
      }
      sequences := [buffer];
      buffer := "";
      pendingKittyPrintableCodepoint := None;
    }
  }

  // ----- chunks -----

  function FeedAll(st: State, chunks: seq<string>): Output {
    if chunks == [] then Output(st, [])
    else
      var first := FeedAll(st, chunks[..|chunks| - 1]);
      var last := Feed(first.state, chunks[|chunks| - 1]);
      Output(last.state, first.events + last.events)
  }

  lemma WholeContains(a: string, b: string, pattern: string)
    requires Contains(a, pattern) || Contains(b, pattern)
    ensures Contains(a + b, pattern)
  {
    if Contains(a, pattern) {
      var i := Find(a, pattern, 0).value;
      assert (a + b)[i..i + |pattern|] == a[i..i + |pattern|];
      assert OccursAt(a + b, pattern, i);
    } else {
      var i := Find(b, pattern, 0).value;
      assert (a + b)[|a| + i..|a| + i + |pattern|] == b[i..i + |pattern|];
      assert OccursAt(a + b, pattern, |a| + i);
    }
  }

  lemma PartsDoNotContain(a: string, b: string, pattern: string)
    requires !Contains(a + b, pattern)
    ensures !Contains(a, pattern) && !Contains(b, pattern)
  {
    if Contains(a, pattern) || Contains(b, pattern) {
      WholeContains(a, b, pattern);
    }
  }

  /** Outside a paste and without a paste marker, a chunk is simply extracted and emitted. */
  lemma FeedPlain(st: State, str: string)
    requires !st.pasteMode && str != "" && !Contains(st.buffer + str, PASTE_START)
    ensures var e := Extract(st.buffer + str);
      var (events, pending) := EmitAll(st.pending, e.sequences);
      Feed(st, str) == Output(Buffered(e.remainder, false, st.pasteBuffer, pending), events)
  {}

  lemma RemainderIsSuffix(buffer: string)
    ensures var r := Extract(buffer).remainder;
      |r| <= |buffer| && buffer[|buffer| - |r|..] == r
  {
    ExtractionLosesNothing(buffer);
    var e := Extract(buffer);
    assert buffer == Concat(e.sequences) + e.remainder;
  }

  /** Two chunks against one, outside a paste and without a paste marker. */
  lemma TwoChunks(st: State, a: string, b: string)
    requires !st.pasteMode && a != "" && b != "" && !Contains(st.buffer + a + b, PASTE_START)
    ensures var x := Feed(st, a);
      var y := Feed(x.state, b);
      && x.state.pasteMode == y.state.pasteMode == false
      && var two := ExtractInTwo(st.buffer + a, b);
         var (events, pending) := EmitAll(st.pending, two.sequences);
         y.state == Buffered(two.remainder, false, st.pasteBuffer, pending) && x.events + y.events == events
  {
    hide Extract, EmitAll, Find, OccursAt, Feed;
    var whole := st.buffer + a;
    var e := Extract(whole);
    PartsDoNotContain(whole, b, PASTE_START);
    FeedPlain(st, a);
    RemainderIsSuffix(whole);
    assert whole + b == whole[..|whole| - |e.remainder|] + (e.remainder + b);
    PartsDoNotContain(whole[..|whole| - |e.remainder|], e.remainder + b, PASTE_START);
    FeedPlain(Feed(st, a).state, b);
    EmitAllConcat(st.pending, e.sequences, Extract(e.remainder + b).sequences);
  }

  /** A pending key is printable, so never the Escape key. */
  ghost predicate PendingPrintable(pending: Option<nat>) {
    pending.Some? ==> pending.value >= 32
  }

  lemma {:induction false} EmitKeepsPendingPrintable(pending: Option<nat>, sequences: seq<string>)
    requires PendingPrintable(pending)
    ensures PendingPrintable(EmitAll(pending, sequences).1)
    decreases |sequences|
  {
    if sequences != [] {
      EmitKeepsPendingPrintable(Emit(pending, sequences[0]).1, sequences[1..]);
    }
  }

  /** A sequence that starts with an escape is always emitted, right after what precedes it. */
  lemma EscapeIsEmitted(pending: Option<nat>, x: seq<string>, n: nat)
    requires PendingPrintable(pending) && n < |x| && x[n] != "" && x[n][0] == ESC
    ensures var before, all := EmitAll(pending, x[..n]).0, EmitAll(pending, x).0;
      |before| < |all| && all[..|before|] == before && all[|before|] == Data(x[n])
  {
    var (before, p) := EmitAll(pending, x[..n]);
    EmitKeepsPendingPrintable(pending, x[..n]);
    assert x == x[..n] + x[n..];
    EmitAllConcat(pending, x[..n], x[n..]);
    assert EmitAll(p, x[n..]).0[0] == Data(x[n]);
  }

  /** Two lists of sequences that first differ in an escape pair against a lone escape: no emission of the one
      is the beginning of one of the other, whatever follows. */
  lemma EscapePairShowsInEvents(pending: Option<nat>, x: seq<string>, y: seq<string>, n: nat, more: seq<Event>)
    requires PendingPrintable(pending) && n < |x| && n < |y| && x[..n] == y[..n]
    requires x[n] == DOUBLE_ESC && y[n] == [ESC]
    ensures !(EmitAll(pending, x).0 <= EmitAll(pending, y).0 + more)
  {
    EscapeIsEmitted(pending, x, n);
    EscapeIsEmitted(pending, y, n);
    var at := |EmitAll(pending, x[..n]).0|;
    assert EmitAll(pending, x).0[at] == Data(DOUBLE_ESC);
    assert (EmitAll(pending, y).0 + more)[at] == Data([ESC]);
  }

  // ----- one cut, exactly -----

  /** When a cut between `text`, arriving outside a paste, and b shows. Before a start marker, or without one, it does
      when it splits an escape pair; inside the marker, when the part of the marker that has arrived completes what came
      before it; inside a paste it does not; and after one, it is a cut outside a paste again. */
  predicate PlainCutShows(text: string, b: string)
    decreases |text|, 1
  {
    var start := Find(text, PASTE_START, 0);
    if start.Some? then PasteCutShows(text[start.value + |PASTE_START|..], b)
    else
      var later := Find(text + b, PASTE_START, 0);
      if later.None? then CutsEscapePair(text, b)
      else if later.value < |text| then Extract(text).sequences != Extract(text[..later.value]).sequences
      else CutsEscapePair(text, b[..later.value - |text|])
  }

  predicate PasteCutShows(content: string, b: string)
    decreases |content|, 0
  {
    var end := Find(content, PASTE_END, 0);
    end.Some? && content[end.value + |PASTE_END|..] != "" && PlainCutShows(content[end.value + |PASTE_END|..], b)
  }

  predicate CutShows(st: State, a: string, b: string) {
    if st.pasteMode then PasteCutShows(st.pasteBuffer + (st.buffer + a), b) else PlainCutShows(st.buffer + a, b)
  }

  /** Two outputs in a row. */
  function Then(x: Output, y: Output): Output {
    Output(y.state, x.events + y.events)
  }

  /** Feeding first a and then b is feeding both at once, or the events of a are no beginning of the events of both. */
  ghost predicate Decided(shows: bool, x: Output, y: Output, whole: Output) {
    (!shows ==> whole == Then(x, y)) && (shows ==> !(x.events <= whole.events))
  }

  /** The same events in front change nothing. */
  lemma DecidedBehind(shows: bool, front: seq<Event>, x: Output, y: Output, whole: Output)
    requires Decided(shows, x, y, whole)
    ensures Decided(shows, Output(x.state, front + x.events), y, Output(whole.state, front + whole.events))
  {
    assert (front + x.events) + y.events == front + (x.events + y.events);
    if front + x.events <= front + whole.events {
      assert x.events == (front + x.events)[|front|..];
      assert (front + whole.events)[|front|..] == whole.events;
      assert x.events <= whole.events;
    }
  }

  lemma {:induction false} FindIsFirst(s: string, pattern: string, i: nat, at: nat)
    requires i <= at && OccursAt(s, pattern, at)
    requires forall k :: i <= k < at ==> !OccursAt(s, pattern, k)
    ensures Find(s, pattern, i) == Some(at)
    decreases at - i
  {
    if i < at {
      FindIsFirst(s, pattern, i + 1, at);
    }
  }

  /** A first occurrence stays the first when more follows. */
  lemma FindStays(s: string, more: string, pattern: string)
    requires Find(s, pattern, 0).Some?
    ensures Find(s + more, pattern, 0) == Find(s, pattern, 0)
  {
    var at := Find(s, pattern, 0).value;
    assert (s + more)[at..at + |pattern|] == s[at..at + |pattern|];
    forall k | 0 <= k < at
      ensures !OccursAt(s + more, pattern, k)
    {
      assert (s + more)[k..k + |pattern|] == s[k..k + |pattern|];
      assert !OccursAt(s, pattern, k);
    }
    FindIsFirst(s + more, pattern, 0, at);
  }

  /** And when what precedes it is taken away. */
  lemma FindInSuffix(head: string, tail: string, pattern: string)
    requires Find(head + tail, pattern, 0).Some? && Find(head + tail, pattern, 0).value >= |head|
    ensures Find(tail, pattern, 0) == Some(Find(head + tail, pattern, 0).value - |head|)
  {
    var whole := head + tail;
    var at := Find(whole, pattern, 0).value - |head|;
    assert whole[|head| + at..|head| + at + |pattern|] == tail[at..at + |pattern|];
    forall k | 0 <= k < at
      ensures !OccursAt(tail, pattern, k)
    {
      assert whole[|head| + k..|head| + k + |pattern|] == tail[k..k + |pattern|];
      assert !OccursAt(whole, pattern, |head| + k);
    }
    FindIsFirst(tail, pattern, 0, at);
  }

  /** What input with a start marker gives. */
  lemma MarkerOutput(st: State, str: string)
    requires !st.pasteMode && Contains(st.buffer + str, PASTE_START)
    ensures var buffer := st.buffer + str;
      var start := Find(buffer, PASTE_START, 0).value;
      var rest := FeedPaste(buffer[start + |PASTE_START|..], None);
      Feed(st, str) == Output(rest.state, EmitAll(st.pending, Extract(buffer[..start]).sequences).0 + rest.events)
  {
    hide FeedPaste;
    assert Extract("").sequences == [];
  }

  /** A paste that ends later, or has ended before the cut. */
  lemma {:induction false} PasteCut(content: string, pending: Option<nat>, b: string)
    requires b != ""
    ensures var x := FeedPaste(content, pending);
      Decided(PasteCutShows(content, b), x, Feed(x.state, b), FeedPaste(content + b, pending))
    decreases |content|, 0
  {
    hide Find, Extract, PlainCutShows;
    var end := Find(content, PASTE_END, 0);
    if end.None? {
      assert content + ("" + b) == content + b;
      var x := FeedPaste(content, pending);
      assert x.events + Feed(x.state, b).events == Feed(x.state, b).events;
    } else {
      FindStays(content, b, PASTE_END);
      var at := end.value;
      var remaining := content[at + |PASTE_END|..];
      var pasted := [Paste(content[..at])];
      assert (content + b)[at + |PASTE_END|..] == remaining + b && (content + b)[..at] == content[..at];
      if remaining != "" {
        PlainCut(IDLE, remaining, b);
        assert "" + remaining == remaining;
        var x := Feed(IDLE, remaining);
        DecidedBehind(PlainCutShows(remaining, b), pasted, x, Feed(x.state, b), Feed(IDLE, remaining + b));
      }
    }
  }

  /** A cut outside a paste. */
  lemma {:induction false} PlainCut(st: State, a: string, b: string)
    requires !st.pasteMode && a != "" && b != "" && PendingPrintable(st.pending)
    ensures var x := Feed(st, a);
      Decided(PlainCutShows(st.buffer + a, b), x, Feed(x.state, b), Feed(st, a + b))
    decreases |st.buffer| + |a|, 1
  {
    hide Find, Extract, EmitAll, Feed, FeedPaste, CutsEscapePair, PasteCutShows;
    var text := st.buffer + a;
    assert st.buffer + (a + b) == text + b;
    if Contains(text, PASTE_START) {
      var start := Find(text, PASTE_START, 0).value;
      var content := text[start + |PASTE_START|..];
      FindStays(text, b, PASTE_START);
      MarkerOutput(st, a);
      MarkerOutput(st, a + b);
      assert (text + b)[start + |PASTE_START|..] == content + b && (text + b)[..start] == text[..start];
      PasteCut(content, None, b);
      var x := FeedPaste(content, None);
      DecidedBehind(PasteCutShows(content, b), EmitAll(st.pending, Extract(text[..start]).sequences).0, x,
                    Feed(x.state, b), FeedPaste(content + b, None));
    } else if !Contains(text + b, PASTE_START) {
      UnmarkedCut(st, a, b);
    } else if Find(text + b, PASTE_START, 0).value >= |text| {
      CutBeforeMarker(st, a, b);
    } else {
      CutInMarker(st, a, b);
    }
  }

  /** Without a marker anywhere. */
  lemma UnmarkedCut(st: State, a: string, b: string)
    requires !st.pasteMode && a != "" && b != "" && !Contains(st.buffer + a + b, PASTE_START)
    requires PendingPrintable(st.pending)
    ensures var x := Feed(st, a);
      Decided(CutsEscapePair(st.buffer + a, b), x, Feed(x.state, b), Feed(st, a + b))
  {
    hide Extract, EmitAll, Find, OccursAt, Feed, CutsEscapePair, Contains;
    TwoChunks(st, a, b);
    assert st.buffer + (a + b) == st.buffer + a + b;
    FeedPlain(st, a + b);
    PartsDoNotContain(st.buffer + a, b, PASTE_START);
    FeedPlain(st, a);
    if CutsEscapePair(st.buffer + a, b) {
      PairShows(st.pending, st.buffer + a, b, []);
      assert EmitAll(st.pending, Extract(st.buffer + a + b).sequences).0 + [] == Feed(st, a + b).events;
    } else {
      CutIsInvisible(st.buffer + a, b);
    }
  }

  lemma PairShows(pending: Option<nat>, a: string, b: string, more: seq<Event>)
    requires PendingPrintable(pending) && CutsEscapePair(a, b)
    ensures !(EmitAll(pending, Extract(a).sequences).0 <= EmitAll(pending, Extract(a + b).sequences).0 + more)
  {
    hide Extract, EmitAll;
    CutEscapePairShows(a, b);
    var x, n := Extract(a).sequences, |Extract(a).sequences| - 1;
    assert ExtractInTwo(a, b).sequences[..n] == x[..n];
    EscapePairShowsInEvents(pending, x, Extract(a + b).sequences, n, more);
  }

  /** With the first start marker in the second chunk. */
  lemma CutBeforeMarker(st: State, a: string, b: string)
    requires !st.pasteMode && a != "" && b != "" && PendingPrintable(st.pending)
    requires !Contains(st.buffer + a, PASTE_START)
    requires Contains(st.buffer + a + b, PASTE_START)
    requires Find(st.buffer + a + b, PASTE_START, 0).value >= |st.buffer + a|
    ensures var x := Feed(st, a);
      var at := Find(st.buffer + a + b, PASTE_START, 0).value - |st.buffer + a|;
      Decided(CutsEscapePair(st.buffer + a, b[..at]), x, Feed(x.state, b), Feed(st, a + b))
  {
    hide Extract, EmitAll, Find, Feed, FeedPaste, CutsEscapePair;
    var text := st.buffer + a;
    var at := Find(text + b, PASTE_START, 0).value - |text|;
    var b1, content := b[..at], b[at + |PASTE_START|..];
    var e, rest := Extract(text), FeedPaste(content, None);
    FeedPlain(st, a);
    RemainderIsSuffix(text);
    var head := text[..|text| - |e.remainder|];
    assert text + b == head + (e.remainder + b);
    FindInSuffix(head, e.remainder + b, PASTE_START);
    MarkerOutput(Feed(st, a).state, b);
    assert (e.remainder + b)[..|e.remainder| + at] == e.remainder + b1;
    assert (e.remainder + b)[|e.remainder| + at + |PASTE_START|..] == content;
    assert st.buffer + (a + b) == text + b;
    MarkerOutput(st, a + b);
    assert (text + b)[..|text| + at] == text + b1 && (text + b)[|text| + at + |PASTE_START|..] == content;
    EmitAllConcat(st.pending, e.sequences, Extract(e.remainder + b1).sequences);
    if CutsEscapePair(text, b1) {
      PairShows(st.pending, text, b1, rest.events);
    } else {
      CutIsInvisible(text, b1);
      var (first, p) := EmitAll(st.pending, e.sequences);
      assert (first + EmitAll(p, Extract(e.remainder + b1).sequences).0) + rest.events
          == first + (EmitAll(p, Extract(e.remainder + b1).sequences).0 + rest.events);
    }
  }

  /** What remains of an extraction yields nothing by itself; unless empty it starts with an escape. */
  lemma {:induction false} RemainderIsStuck(buffer: string)
    ensures var r := Extract(buffer).remainder; Extract(r) == Extraction([], r) && (r != "" ==> r[0] == ESC)
    decreases |buffer|
  {
    if buffer != "" && FirstLength(buffer).Some? {
      RemainderIsStuck(buffer[FirstLength(buffer).value..]);
    }
  }

  /** The first thing that FeedPaste emits is a paste. */
  lemma PasteComesFirst(content: string, pending: Option<nat>)
    ensures FeedPaste(content, pending).events != [] ==> FeedPaste(content, pending).events[0].Paste?
  {
  }

  /** Up to a cut inside the first start marker: what came before it, and the part of the marker, together. */
  lemma ExtractPartOfMarker(before: string, part: string)
    requires part != "" && part < PASTE_START
    ensures var e, r := Extract(before), Extract(before).remainder;
      Extract(before + part) == Extraction(e.sequences + Extract(r + part).sequences, Extract(r + part).remainder)
    ensures Extract(Extract(before).remainder) == Extraction([], Extract(before).remainder)
    ensures var r := Extract(before).remainder;
      Extract(r + part).sequences != [] ==>
        Extract(r + part).sequences[0] != "" && Extract(r + part).sequences[0][0] == ESC
  {
    hide Extract, FirstLength;
    assert part[0] == ESC;
    CutIsInvisible(before, part);
    RemainderIsStuck(before);
    StartMarkerIsIncomplete(part);
    var r := Extract(before).remainder;
    if r == "" {
      assert r + part == part;
    } else if Extract(r + part).sequences != [] {
      FirstOfExtract(r + part);
    }
  }

  lemma FirstOfExtract(buffer: string)
    requires buffer != "" && buffer[0] == ESC && Extract(buffer).sequences != []
    ensures Extract(buffer).sequences[0] != "" && Extract(buffer).sequences[0][0] == ESC
  {
  }
  /** With the first start marker cut in two. */
  lemma CutInMarker(st: State, a: string, b: string)
    requires !st.pasteMode && a != "" && b != "" && PendingPrintable(st.pending)
    requires !Contains(st.buffer + a, PASTE_START)
    requires Contains(st.buffer + a + b, PASTE_START)
    requires Find(st.buffer + a + b, PASTE_START, 0).value < |st.buffer + a|
    ensures var x := Feed(st, a);
      var at := Find(st.buffer + a + b, PASTE_START, 0).value;
      Decided(Extract(st.buffer + a).sequences != Extract((st.buffer + a)[..at]).sequences,
              x, Feed(x.state, b), Feed(st, a + b))
  {
    hide Extract, EmitAll, Find, Feed, FeedPaste;
    var text := st.buffer + a;
    var at := Find(text + b, PASTE_START, 0).value;
    var before, part := text[..at], text[at..];
    var e, more := Extract(before), Extract(Extract(before).remainder + part);
    assert text == before + part && st.buffer + (a + b) == text + b;
    PartOfMarker(text, b, at);
    ExtractPartOfMarker(before, part);
    FeedPlain(st, a);
    MarkerOutput(st, a + b);
    assert (text + b)[..at] == before;
    if more.sequences == [] {
      StuckPart(st, a, b, at);
    } else {
      PasteComesFirst((text + b)[at + |PASTE_START|..], None);
      EscapeIsEmitted(st.pending, e.sequences + more.sequences, |e.sequences|);
      assert (e.sequences + more.sequences)[..|e.sequences|] == e.sequences;
      assert Extract(text).sequences != e.sequences;
    }
  }

  lemma PartOfMarker(text: string, b: string, at: nat)
    requires !Contains(text, PASTE_START) && at < |text| && OccursAt(text + b, PASTE_START, at)
    ensures text[at..] < PASTE_START
  {
    if at + |PASTE_START| <= |text| {
      assert text[at..at + |PASTE_START|] == (text + b)[at..at + |PASTE_START|];
      assert OccursAt(text, PASTE_START, at);
      assert false;
    } else {
      assert text[at..] == (text + b)[at..at + |PASTE_START|][..|text| - at];
    }
  }

  /** The part of the marker waits behind what was waiting before it. */
  lemma StuckPart(st: State, a: string, b: string, at: nat)
    requires !st.pasteMode && a != "" && b != "" && !Contains(st.buffer + a, PASTE_START)
    requires Find(st.buffer + a + b, PASTE_START, 0) == Some(at) && at < |st.buffer + a|
    requires var text := st.buffer + a;
      var e := Extract(text[..at]);
      Extract(text) == Extraction(e.sequences, Extract(e.remainder + text[at..]).remainder)
      && Extract(e.remainder + text[at..]).sequences == [] && Extract(e.remainder) == Extraction([], e.remainder)
    ensures var x := Feed(st, a); Feed(st, a + b) == Then(x, Feed(x.state, b))
    ensures Extract(st.buffer + a).sequences == Extract((st.buffer + a)[..at]).sequences
  {
    hide Extract, EmitAll, Find, OccursAt, Feed, FeedPaste;
    var text := st.buffer + a;
    var before, part := text[..at], text[at..];
    var r := Extract(before).remainder;
    Untouched(r + part);
    RemainderIsSuffix(before);
    MarkerFits(text + b, PASTE_START);
    var head := before[..at - |r|];
    var content := (text + b)[at + |PASTE_START|..];
    FeedPlain(st, a);
    assert text + b == head + ((r + part) + b);
    FindInSuffix(head, (r + part) + b, PASTE_START);
    MarkerOutput(Feed(st, a).state, b);
    assert ((r + part) + b)[..|r|] == r && ((r + part) + b)[|r| + |PASTE_START|..] == content;
    assert st.buffer + (a + b) == text + b && (text + b)[..at] == before;
    MarkerOutput(st, a + b);
    NothingEmitted(Feed(st, a).state.pending);
    var rest := FeedPaste(content, None);
    assert [] + rest.events == rest.events;
  }

  lemma Untouched(buffer: string)
    requires Extract(buffer).sequences == []
    ensures Extract(buffer).remainder == buffer
  {
    hide Extract;
    ExtractionLosesNothing(buffer);
    assert "" + Extract(buffer).remainder == Extract(buffer).remainder;
  }

  lemma MarkerFits(s: string, marker: string)
    ensures Find(s, marker, 0).Some? ==> Find(s, marker, 0).value + |marker| <= |s|
  {
  }

  lemma NothingEmitted(pending: Option<nat>)
    ensures EmitAll(pending, []) == ([], pending)
  {
  }

  /** The exact condition on one cut, whatever the state and the input: feeding two chunks gives the same events and
      the same state as feeding one if and only if the cut does not show. */
  lemma ChunkCutExactly(st: State, a: string, b: string)
    requires a != "" && b != "" && PendingPrintable(st.pending)
    ensures var x := Feed(st, a);
      Feed(st, a + b) == Then(x, Feed(x.state, b)) <==> !CutShows(st, a, b)
  {
    hide Feed, PlainCutShows, PasteCutShows;
    CutDecided(st, a, b);
  }

  lemma CutDecided(st: State, a: string, b: string)
    requires a != "" && b != "" && PendingPrintable(st.pending)
    ensures var x := Feed(st, a);
      Decided(CutShows(st, a, b), x, Feed(x.state, b), Feed(st, a + b))
  {
    hide PlainCutShows, PasteCutShows, FeedPaste, Extract, EmitAll, Find;
    if st.pasteMode {
      assert st.pasteBuffer + (st.buffer + a) + b == st.pasteBuffer + (st.buffer + (a + b));
      PasteCut(st.pasteBuffer + (st.buffer + a), st.pending, b);
    } else {
      PlainCut(st, a, b);
    }
  }

  /** Without a start marker in the input it is the split escape pair that shows, and nothing else. */
  lemma UnmarkedCutShows(st: State, a: string, b: string)
    requires !st.pasteMode && !Contains(st.buffer + a + b, PASTE_START)
    ensures CutShows(st, a, b) <==> CutsEscapePair(st.buffer + a, b)
  {
    PartsDoNotContain(st.buffer + a, b, PASTE_START);
  }

  /** A cut inside the marker at work: the part that has arrived completes what precedes it, and the paste is missed. */
  lemma MarkerCutShows()
    ensures CutShows(IDLE, [ESC, 'O', ESC], "[200~")
  {
    hide Extract, PasteCutShows, Find;
    var a := [ESC, 'O', ESC];
    var whole := a + "[200~";
    assert "" + a == a && whole[2..8] == PASTE_START;
    assert whole[0..6][1] != PASTE_START[1] && whole[1..7][0] != PASTE_START[0];
    FindIsFirst(whole, PASTE_START, 0, 2);
    assert a[..2] == [ESC, 'O'];
    NoMarkerIn(a);
    SingleShiftExtracts();
  }

  lemma NoMarkerIn(s: string)
    requires |s| < |PASTE_START|
    ensures !Contains(s, PASTE_START)
  {
  }

  lemma SingleShiftExtracts()
    ensures Extract([ESC, 'O']).sequences == [] && Extract([ESC, 'O', ESC]).sequences != []
  {
    var a := [ESC, 'O', ESC];
    assert a[..1] == [ESC] && a[..2] == [ESC, 'O'] && a[..3] == a;
    assert IsCompleteSequence(a) == Complete && IsCompleteSequence([ESC, 'O']) == Incomplete;
    assert CompletePrefix(a, 2) == Some(3) && CompletePrefix(a, 1) == Some(3);
    assert [ESC, 'O'][..1] == [ESC] && [ESC, 'O'][..2] == [ESC, 'O'];
    assert CompletePrefix([ESC, 'O'], 3).None? && CompletePrefix([ESC, 'O'], 2).None?;
  }

  // ----- any number of chunks -----

  /** No boundary between two chunks shows. */
  ghost predicate CleanCuts(st: State, chunks: seq<string>) {
    forall k :: 0 < k < |chunks| ==> !CutShows(st, Concat(chunks[..k]), Concat(chunks[k..]))
  }

  /** What shows with less input following shows with more. */
  lemma {:induction false} PlainCutStillShows(text: string, b: string, more: string)
    requires b != "" && PlainCutShows(text, b)
    ensures PlainCutShows(text, b + more)
    decreases |text|, 1
  {
    hide Extract, CutsEscapePair;
    var start := Find(text, PASTE_START, 0);
    assert text + (b + more) == (text + b) + more;
    if start.Some? {
      PasteCutStillShows(text[start.value + |PASTE_START|..], b, more);
    } else if Contains(text + b, PASTE_START) {
      FindStays(text + b, more, PASTE_START);
      var at := Find(text + b, PASTE_START, 0).value;
      assert at >= |text| ==> (b + more)[..at - |text|] == b[..at - |text|];
    } else {
      PairStillCut(text, b, more);
    }
  }

  lemma MarkerStartsWithEscape(text: string, rest: string)
    ensures rest != "" && OccursAt(text + rest, PASTE_START, |text|) ==> rest[0] == ESC
  {
    if rest != "" && OccursAt(text + rest, PASTE_START, |text|) {
      assert (text + rest)[|text|..|text| + |PASTE_START|][0] == rest[0];
    }
  }

  lemma PairStillCut(text: string, b: string, more: string)
    requires CutsEscapePair(text, b) && !Contains(text, PASTE_START) && !Contains(text + b, PASTE_START)
    ensures PlainCutShows(text, b + more)
  {
    hide Extract;
    var later := Find(text + (b + more), PASTE_START, 0);
    MarkerStartsWithEscape(text, b + more);
    if later.Some? {
      var at := later.value;
      if at < |text| {
        var e := Extract(text);
        PartOfMarker(text, b + more, at);
        assert text == text[..at] + text[at..];
        ExtractPartOfMarker(text[..at], text[at..]);
        PairBehindMarker(text[..at], text[at..]);
      } else if at > |text| {
        assert (b + more)[..at - |text|][0] == b[0];
      }
    }
  }

  lemma PairBehindMarker(before: string, part: string)
    requires part != "" && part < PASTE_START && Extract(before + part).remainder == ""
    ensures Extract(before + part).sequences != Extract(before).sequences
  {
    hide Extract, FirstLength;
    var x, e := Extract(before + part), Extract(before);
    ExtractionLosesNothing(before + part);
    ExtractionLosesNothing(before);
    assert |before + part| == |Concat(x.sequences)|;
    assert |before| >= |Concat(e.sequences)|;
  }

  lemma {:induction false} PasteCutStillShows(content: string, b: string, more: string)
    requires b != "" && PasteCutShows(content, b)
    ensures PasteCutShows(content, b + more)
    decreases |content|, 0
  {
    PlainCutStillShows(content[Find(content, PASTE_END, 0).value + |PASTE_END|..], b, more);
  }

  lemma CutStillShows(st: State, a: string, b: string, more: string)
    requires b != "" && CutShows(st, a, b)
    ensures CutShows(st, a, b + more)
  {
    hide PlainCutShows, PasteCutShows;
    if st.pasteMode {
      PasteCutStillShows(st.pasteBuffer + (st.buffer + a), b, more);
    } else {
      PlainCutStillShows(st.buffer + a, b, more);
    }
  }

  lemma NonEmptyConcat(chunks: seq<string>)
    requires chunks != [] && chunks[0] != ""
    ensures Concat(chunks) != ""
  {}

  ghost predicate NoneEmpty(chunks: seq<string>) {
    forall k :: 0 <= k < |chunks| ==> chunks[k] != ""
  }

  lemma CleanInit(st: State, init: seq<string>, last: string)
    requires CleanCuts(st, init + [last]) && NoneEmpty(init)
    ensures CleanCuts(st, init)
    ensures init != [] ==> !CutShows(st, Concat(init), last)
  {
    hide CutShows;
    var chunks := init + [last];
    forall k | 0 < k < |init|
      ensures !CutShows(st, Concat(init[..k]), Concat(init[k..]))
    {
      assert chunks[..k] == init[..k] && chunks[k..] == init[k..] + [last];
      ConcatSnoc(init[k..], last);
      NonEmptyConcat(init[k..]);
      if CutShows(st, Concat(init[..k]), Concat(init[k..])) {
        CutStillShows(st, Concat(init[..k]), Concat(init[k..]), last);
      }
    }
    if init != [] {
      var k := |init|;
      assert chunks[..k] == init && chunks[k..] == [last];
      OneChunk(last);
    }
  }

  lemma OneChunk(chunk: string)
    ensures Concat([chunk]) == chunk
  {
    assert [chunk][1..] == [];
  }

  lemma FeedAllSnoc(st: State, init: seq<string>, last: string)
    ensures FeedAll(st, init + [last]) == Then(FeedAll(st, init), Feed(FeedAll(st, init).state, last))
  {
    hide Feed;
    assert (init + [last])[..|init|] == init;
  }

  /** Cuts that do not show are invisible. */
  lemma {:induction false} CleanChunks(st: State, chunks: seq<string>)
    requires chunks != [] && NoneEmpty(chunks) && CleanCuts(st, chunks) && PendingPrintable(st.pending)
    ensures FeedAll(st, chunks) == Feed(st, Concat(chunks))
    decreases |chunks|
  {
    hide Feed, FeedAll, CutShows, CleanCuts;
    var init, last := chunks[..|chunks| - 1], chunks[|chunks| - 1];
    assert chunks == init + [last];
    FeedAllSnoc(st, init, last);
    CleanInit(st, init, last);
    ConcatSnoc(init, last);
    if init == [] {
      assert [] + [last] == [last];
      FeedNothing(st);
      OneChunk(last);
      assert [] + Feed(st, last).events == Feed(st, last).events;
    } else {
      CleanChunks(st, init);
      NonEmptyConcat(init);
      CutDecided(st, Concat(init), last);
    }
  }

  lemma FeedNothing(st: State)
    ensures FeedAll(st, []) == Output(st, [])
  {
  }

  lemma {:induction false} EventsGrow(st: State, chunks: seq<string>, k: nat)
    requires k <= |chunks|
    ensures FeedAll(st, chunks[..k]).events <= FeedAll(st, chunks).events
    decreases |chunks| - k
  {
    hide Feed;
    if k == |chunks| {
      assert chunks[..k] == chunks;
    } else {
      assert chunks[..k + 1] == chunks[..k] + [chunks[k]];
      FeedAllSnoc(st, chunks[..k], chunks[k]);
      EventsGrow(st, chunks, k + 1);
    }
  }

  /** The first cut that shows. */
  lemma {:induction false} FirstVisibleCut(st: State, chunks: seq<string>) returns (k: nat)
    requires !CleanCuts(st, chunks) && NoneEmpty(chunks)
    ensures 0 < k < |chunks| && CutShows(st, Concat(chunks[..k]), Concat(chunks[k..]))
    ensures CleanCuts(st, chunks[..k])
    decreases |chunks|
  {
    hide CutShows, Concat;
    k :| 0 < k < |chunks| && CutShows(st, Concat(chunks[..k]), Concat(chunks[k..]));
    if !CleanCuts(st, chunks[..k]) {
      var init, rest := chunks[..k], chunks[k..];
      k := FirstVisibleCut(st, init);
      assert init[..k] == chunks[..k] && chunks[k..] == init[k..] + rest;
      ConcatAppends(init[k..], rest);
      NonEmptyConcat(init[k..]);
      CutStillShows(st, Concat(init[..k]), Concat(init[k..]), Concat(rest));
    }
  }

  /** Chunking independence, exactly, whatever the state and the input: cutting the input into non-empty chunks emits
      the same events and leaves the same state as feeding it at once, if and only if no boundary between chunks
      shows. */
  lemma ChunkingIsInvisibleExactly(st: State, chunks: seq<string>)
    requires chunks != [] && NoneEmpty(chunks) && PendingPrintable(st.pending)
    ensures FeedAll(st, chunks) == Feed(st, Concat(chunks)) <==> CleanCuts(st, chunks)
  {
    hide Feed, FeedAll, CutShows, CleanCuts;
    if CleanCuts(st, chunks) {
      CleanChunks(st, chunks);
    } else {
      var k := FirstVisibleCut(st, chunks);
      var before, rest := chunks[..k], chunks[k..];
      assert chunks == before + rest;
      ConcatAppends(before, rest);
      NonEmptyConcat(before);
      NonEmptyConcat(rest);
      CleanChunks(st, before);
      CutDecided(st, Concat(before), Concat(rest));
      EventsGrow(st, chunks, k);
    }
  }

  // ----- what is lost -----

  /** The input that an event stands for. */
  function Wire(events: seq<Event>): string {
    if events == [] then ""
    else
      var last := events[|events| - 1];
      Wire(events[..|events| - 1]) + (match last case Data(s) => s case Paste(c) => PASTE_START + c + PASTE_END)
  }

  /** The input that a state still holds. */
  function Held(st: State): string {
    if st.pasteMode then PASTE_START + st.pasteBuffer + st.buffer else st.buffer
  }

  /** How many raw copies of a reported key are dropped. */
  function Copies(pending: Option<nat>, sequences: seq<string>): nat
    decreases |sequences|
  {
    if sequences == [] then 0
    else (if Emit(pending, sequences[0]).0 == [] then 1 else 0) + Copies(Emit(pending, sequences[0]).1, sequences[1..])
  }

  /** How much of the input is dropped: raw copies, and before every start marker what is not yet complete. */
  function Lost(st: State, str: string): nat
    decreases |st.buffer| + |st.pasteBuffer| + |str|, 1
  {
    var buffer := st.buffer + str;
    if str == "" && st.buffer == "" then 0
    else if st.pasteMode then LostAfterPaste(st.pasteBuffer + buffer)
    else
      var start := Find(buffer, PASTE_START, 0);
      var e := Extract(if start.Some? then buffer[..start.value] else buffer);
      Copies(st.pending, e.sequences)
      + (if start.Some? then |e.remainder| + LostAfterPaste(buffer[start.value + |PASTE_START|..]) else 0)
  }

  function LostAfterPaste(content: string): nat
    decreases |content|, 0
  {
    var end := Find(content, PASTE_END, 0);
    if end.None? || content[end.value + |PASTE_END|..] == "" then 0
    else Lost(IDLE, content[end.value + |PASTE_END|..])
  }

  lemma {:induction false} WireConcat(a: seq<Event>, b: seq<Event>)
    ensures Wire(a + b) == Wire(a) + Wire(b)
    decreases |b|
  {
    if b == [] {
      assert a + b == a;
    } else {
      assert (a + b)[..|a + b| - 1] == a + b[..|b| - 1];
      WireConcat(a, b[..|b| - 1]);
    }
  }

  lemma WireOne(e: Event)
    ensures Wire([e]) == match e case Data(s) => s case Paste(c) => PASTE_START + c + PASTE_END
  {
    assert [e][..0] == [];
  }

  /** All of the input `from` is in `kept`, but for `lost` characters; nothing is lost only when it is all there. */
  predicate Accounts(from: string, kept: string, lost: nat) {
    |kept| + lost == |from| && (lost == 0 ==> kept == from)
  }

  lemma {:induction false} EmissionsAccount(pending: Option<nat>, sequences: seq<string>)
    ensures Accounts(Concat(sequences), Wire(EmitAll(pending, sequences).0), Copies(pending, sequences))
    decreases |sequences|
  {
    if sequences != [] {
      var (first, p) := Emit(pending, sequences[0]);
      EmissionsAccount(p, sequences[1..]);
      WireConcat(first, EmitAll(p, sequences[1..]).0);
      WireOne(Data(sequences[0]));
    }
  }

  lemma AccountsBoth(a: string, keptA: string, lostA: nat, b: string, keptB: string, lostB: nat)
    requires Accounts(a, keptA, lostA) && Accounts(b, keptB, lostB)
    ensures Accounts(a + b, keptA + keptB, lostA + lostB)
  {
  }

  /** A paste in front of what follows it. */
  lemma PastedAccounts(pasted: string, rest: string, out: Output, lost: nat)
    requires Accounts(rest, Wire(out.events) + Held(out.state), lost)
    ensures Accounts(PASTE_START + pasted + PASTE_END + rest,
                     Wire([Paste(pasted)] + out.events) + Held(out.state), lost)
  {
    hide Wire, Held;
    WireOne(Paste(pasted));
    WireConcat([Paste(pasted)], out.events);
    AccountsBoth(PASTE_START + pasted + PASTE_END, Wire([Paste(pasted)]), 0,
                 rest, Wire(out.events) + Held(out.state), lost);
    assert Wire([Paste(pasted)]) + (Wire(out.events) + Held(out.state))
        == Wire([Paste(pasted)]) + Wire(out.events) + Held(out.state);
  }

  lemma NothingAccounts()
    ensures Accounts("", Wire([]) + Held(IDLE), 0)
  {
  }

  lemma HeldAccounts(content: string, pending: Option<nat>)
    ensures Accounts(PASTE_START + content, Wire([]) + Held(Buffered("", true, content, pending)), 0)
  {
    assert PASTE_START + content + "" == PASTE_START + content;
  }

  lemma {:induction false} PasteAccounts(content: string, pending: Option<nat>)
    ensures var out := FeedPaste(content, pending);
      Accounts(PASTE_START + content, Wire(out.events) + Held(out.state), LostAfterPaste(content))
    decreases |content|, 0
  {
    hide Extract, EmitAll, Copies, Lost, Find, OccursAt, Feed, Wire, Held, Accounts;
    var end := Find(content, PASTE_END, 0);
    if end.None? {
      HeldAccounts(content, pending);
    } else {
      MarkerIsThere(content, PASTE_END);
      var pasted, remaining := content[..end.value], content[end.value + |PASTE_END|..];
      assert PASTE_START + content == PASTE_START + pasted + PASTE_END + remaining;
      if remaining == "" {
        NothingAccounts();
        PastedAccounts(pasted, "", Output(IDLE, []), 0);
        assert [Paste(pasted)] + [] == [Paste(pasted)];
      } else {
        FeedAccounts(IDLE, remaining);
        IdleHoldsNothing(remaining);
        PastedAccounts(pasted, remaining, Feed(IDLE, remaining), Lost(IDLE, remaining));
      }
    }
  }

  lemma IdleHoldsNothing(str: string)
    ensures Held(IDLE) + str == str
  {
  }

  /** Conservation: what a chunk makes of the input, the events and what is held back, is the input but for the
      characters that Lost counts. */
  lemma {:induction false} FeedAccounts(st: State, str: string)
    ensures var out := Feed(st, str);
      Accounts(Held(st) + str, Wire(out.events) + Held(out.state), Lost(st, str))
    decreases |st.buffer| + |st.pasteBuffer| + |str|, 1
  {
    hide Extract, EmitAll, Copies, Find, LostAfterPaste;
    var buffer := st.buffer + str;
    if str == "" && st.buffer == "" {
      EmptyAccounts(st);
    } else if st.pasteMode {
      PasteAccounts(st.pasteBuffer + buffer, st.pending);
      assert PASTE_START + (st.pasteBuffer + buffer) == PASTE_START + st.pasteBuffer + st.buffer + str;
    } else if Contains(buffer, PASTE_START) {
      MarkerAccounts(st, str);
    } else {
      var e := Extract(buffer);
      EmissionsAccount(st.pending, e.sequences);
      ExtractionLosesNothing(buffer);
      AccountsBoth(Concat(e.sequences), Wire(EmitAll(st.pending, e.sequences).0), Copies(st.pending, e.sequences),
                   e.remainder, e.remainder, 0);
    }
  }

  lemma EmptyAccounts(st: State)
    requires st.buffer == ""
    ensures var out := Feed(st, ""); Accounts(Held(st) + "", Wire(out.events) + Held(out.state), 0)
  {
    var out := Feed(st, "");
    assert out.events == [Data("")];
    WireOne(Data(""));
  }

  lemma MarkerIsThere(s: string, marker: string)
    requires Contains(s, marker)
    ensures var at := Find(s, marker, 0).value; at + |marker| <= |s| && s[at..at + |marker|] == marker
  {
  }

  lemma {:induction false} MarkerAccounts(st: State, str: string)
    requires !st.pasteMode && str + st.buffer != "" && Contains(st.buffer + str, PASTE_START)
    ensures var out := Feed(st, str);
      Accounts(st.buffer + str, Wire(out.events) + Held(out.state), Lost(st, str))
    decreases |st.buffer| + |str|, 0
  {
    hide Extract, EmitAll, Copies, Find, OccursAt, Feed, FeedPaste, LostAfterPaste, Wire, Held, Accounts, Concat;
    MarkerIsThere(st.buffer + str, PASTE_START);
    var buffer := st.buffer + str;
    var start := Find(buffer, PASTE_START, 0).value;
    var before, content := buffer[..start], buffer[start + |PASTE_START|..];
    var e, rest := Extract(before), FeedPaste(content, None);
    var events := EmitAll(st.pending, e.sequences).0;
    assert buffer == before + (PASTE_START + content);
    MarkerOutput(st, str);
    EmissionsAccount(st.pending, e.sequences);
    ExtractionLosesNothing(before);
    PasteAccounts(content, None);
    WireConcat(events, rest.events);
    AccountsBoth(Concat(e.sequences), Wire(events), Copies(st.pending, e.sequences), e.remainder, "", |e.remainder|);
    AccountsBoth(before, Wire(events), Copies(st.pending, e.sequences) + |e.remainder|,
                 PASTE_START + content, Wire(rest.events) + Held(rest.state), LostAfterPaste(content));
    assert Wire(events) + "" == Wire(events);
    assert Wire(events) + (Wire(rest.events) + Held(rest.state)) == Wire(events) + Wire(rest.events) + Held(rest.state);
  }

  /** Nothing is lost if and only if the events and what is held back are the whole input. */
  lemma NothingLostExactly(st: State, str: string)
    ensures var out := Feed(st, str);
      Lost(st, str) == 0 <==> Wire(out.events) + Held(out.state) == Held(st) + str
  {
    FeedAccounts(st, str);
  }

  /** A lone Escape just before a paste is lost. */
  lemma EscapeBeforePasteIsLost()
    ensures Feed(IDLE, [ESC] + PASTE_START + "x" + PASTE_END) == Output(IDLE, [Paste("x")])
    ensures Lost(IDLE, [ESC] + PASTE_START + "x" + PASTE_END) == 1
  {
    hide Feed, FeedPaste, Lost, LostAfterPaste, Wire, Held, EmitAll, Extract, Find, Split;
    var input := [ESC] + PASTE_START + "x" + PASTE_END;
    var out := Feed(IDLE, input);
    assert "" + input == input && input[1..7] == PASTE_START;
    assert input[0..6][1] != PASTE_START[1];
    FindIsFirst(input, PASTE_START, 0, 1);
    MarkerOutput(IDLE, input);
    assert input[..1] == [ESC] && input[7..] == "x" + PASTE_END;
    LoneEscapeWaits();
    NoMarkerInLetter();
    PasteCollects("x", "x" + PASTE_END, None);
    NothingEmitted(None);
    assert [] + [Paste("x")] == [Paste("x")];
    FeedAccounts(IDLE, input);
    KeptOfPaste();
  }

  lemma LoneEscapeWaits()
    ensures Extract([ESC]) == Extraction([], [ESC])
  {
    assert IsCompleteSequence([ESC]) == Incomplete;
    assert [ESC][..1] == [ESC];
    assert CompletePrefix([ESC], 2).None?;
  }

  lemma NoMarkerInLetter()
    ensures !Contains("x", PASTE_END)
  {
  }

  lemma KeptOfPaste()
    ensures Wire([Paste("x")]) + Held(IDLE) == PASTE_START + "x" + PASTE_END && Held(IDLE) == ""
  {
    WireOne(Paste("x"));
  }

  // ----- raw copies -----

  /** The reports of printable keys, without modifiers: a code point, and optionally the shifted key, which may be left
      empty, and the key of the base layout. */
  lemma PrintableReport(d: string, shifted: string, base: string)
    requires IsNumber(d) && AllDigits(shifted) && IsNumber(base)
    ensures var n := if Digits(d) >= 32 then Some(Digits(d)) else None;
      && KittyPrintable([ESC] + "[" + d + "u") == n
      && KittyPrintable([ESC] + "[" + d + ":" + shifted + "u") == n
      && KittyPrintable([ESC] + "[" + d + ":" + shifted + ":" + base + "u") == n
  {
    hide Split, Digits, KittyPrintable;
    JoinedFields(d, shifted, base);
    FieldsDecide([d]);
    FieldsDecide([d, shifted]);
    FieldsDecide([d, shifted, base]);
    assert [ESC] + "[" + (d + ":" + shifted) + "u" == [ESC] + "[" + d + ":" + shifted + "u";
    assert [ESC] + "[" + (d + ":" + shifted + ":" + base) + "u" == [ESC] + "[" + d + ":" + shifted + ":" + base + "u";
  }

  lemma FieldsDecide(fields: seq<string>)
    requires 1 <= |fields| <= 3 && IsNumber(fields[0])
    requires |fields| > 1 ==> AllDigits(fields[1])
    requires |fields| > 2 ==> IsNumber(fields[2])
    ensures KittyPrintable([ESC] + "[" + Join(fields, ':') + "u") ==
            if Digits(fields[0]) >= 32 then Some(Digits(fields[0])) else None
  {
    hide Split, Digits, Join, IsNumber, AllDigits;
    FieldsHaveNoColon(fields);
    JoinSplits(fields, ':');
    JoinIsNotEmpty(fields);
    BodyIsRead(Join(fields, ':'));
  }

  lemma FieldsHaveNoColon(fields: seq<string>)
    requires 1 <= |fields| <= 3 && IsNumber(fields[0])
    requires |fields| > 1 ==> AllDigits(fields[1])
    requires |fields| > 2 ==> IsNumber(fields[2])
    ensures forall p <- fields :: ':' !in p
    ensures fields[0] != ""
  {
  }

  lemma JoinIsNotEmpty(fields: seq<string>)
    requires fields != [] && fields[0] != ""
    ensures Join(fields, ':') != ""
  {
  }

  lemma BodyIsRead(body: string)
    requires body != ""
    ensures var report := [ESC] + "[" + body + "u";
      |report| >= 4 && report[0] == ESC && report[1] == '[' && report[|report| - 1] == 'u'
      && report[2..|report| - 1] == body
  {
  }

  lemma JoinedFields(d: string, shifted: string, base: string)
    ensures Join([d], ':') == d && Join([d, shifted], ':') == d + ":" + shifted
    ensures Join([d, shifted, base], ':') == d + ":" + shifted + ":" + base
  {
    assert [d, shifted][1..] == [shifted];
    assert [d, shifted, base][1..] == [shifted, base] && [shifted, base][1..] == [base];
    assert Join([shifted], ':') == shifted && Join([base], ':') == base;
    assert Join([shifted, base], ':') == shifted + [':'] + base;
    assert d + [':'] + (shifted + [':'] + base) == d + ":" + shifted + ":" + base;
  }

  /** No other sequence is such a report. */
  lemma OnlyPrintableReports(sequence: string)
    requires KittyPrintable(sequence).Some?
    ensures exists body: string ::
              && sequence == [ESC] + "[" + body + "u" && 1 <= |Split(body, ':')| <= 3
              && IsNumber(Split(body, ':')[0]) && Digits(Split(body, ':')[0]) == KittyPrintable(sequence).value >= 32
  {
    hide Split, Digits;
    var body := sequence[2..|sequence| - 1];
    assert sequence == [ESC] + "[" + body + "u";
  }

  /** A key reported as a printable one and then sent raw comes out once; any other character comes out besides. */
  lemma RawCopyIsDropped(pending: Option<nat>, report: string, c: char)
    requires KittyPrintable(report).Some?
    ensures EmitAll(pending, [report, [c]]) ==
            if c as nat == KittyPrintable(report).value then ([Data(report)], None)
            else ([Data(report), Data([c])], None)
  {
    hide KittyPrintable;
    LongReport(report);
    assert KittyPrintable([c]).None? by {
      ShortIsNoReport(c);
    }
    var p := KittyPrintable(report);
    assert [report, [c]][1..] == [[c]] && [[c]][1..] == [];
    assert Emit(pending, report) == ([Data(report)], p);
    assert Emit(p, [c]) == if c as nat == p.value then ([], None) else ([Data([c])], None);
    EmitOne(p, [c]);
    var (rest, q) := EmitAll(p, [[c]]);
    assert EmitAll(pending, [report, [c]]) == ([Data(report)] + rest, q);
    assert [Data(report)] + [Data([c])] == [Data(report), Data([c])] && [Data(report)] + [] == [Data(report)];
  }

  lemma EmitOne(pending: Option<nat>, sequence: string)
    ensures EmitAll(pending, [sequence]) == Emit(pending, sequence)
  {
    var (first, p) := Emit(pending, sequence);
    assert [sequence][1..] == [] && EmitAll(p, []) == ([], p);
    assert first + [] == first;
  }

  lemma LongReport(report: string)
    requires KittyPrintable(report).Some?
    ensures |report| >= 4
  {
  }

  lemma ShortIsNoReport(c: char)
    ensures KittyPrintable([c]).None?
  {
  }

  // ----- pastes -----

  /** In content followed by the end marker the first end marker is that one. */
  lemma MarkerAfterContent(content: string)
    requires !Contains(content, PASTE_END)
    ensures Find(content + PASTE_END, PASTE_END, 0) == Some(|content|)
  {
    var s := content + PASTE_END;
    assert s[|content|..|content| + 6] == PASTE_END;
    forall j | 0 <= j < |content| ensures !OccursAt(s, PASTE_END, j) {
      NoEarlierMarker(content, j);
    }
    FindIsFirst(s, PASTE_END, 0, |content|);
  }

  lemma NoEarlierMarker(content: string, j: nat)
    requires !Contains(content, PASTE_END) && j < |content|
    ensures !OccursAt(content + PASTE_END, PASTE_END, j)
  {
    var s := content + PASTE_END;
    var k := |content| - j;
    if k >= 6 {
      assert s[j..j + 6] == content[j..j + 6];
      assert !OccursAt(content, PASTE_END, j);
    } else {
      assert s[j..j + 6][k] == s[|content|] == ESC;
      EscOnlyInFront(k);
    }
  }

  lemma EscOnlyInFront(k: nat)
    requires 1 <= k < 6
    ensures PASTE_END[k] != ESC
  {}

  lemma ProperPrefixHasNoEnd(content: string, p: string)
    requires !Contains(content, PASTE_END) && p < content + PASTE_END
    ensures !Contains(p, PASTE_END)
  {
    MarkerAfterContent(content);
    if Contains(p, PASTE_END) {
      var j := Find(p, PASTE_END, 0).value;
      assert p[j..j + 6] == (content + PASTE_END)[j..j + 6];
      assert OccursAt(content + PASTE_END, PASTE_END, j);
      assert false;
    }
  }

  /** An unfinished start marker stays in the buffer. */
  lemma StartMarkerIsIncomplete(p: string)
    requires p < PASTE_START
    ensures Extract(p) == Extraction([], p) && !Contains(p, PASTE_START)
  {
    if p != "" {
      forall k | 1 <= k <= |p| ensures IsCompleteSequence(p[..k]) != Complete {
        assert p[..k] == PASTE_START[..k];
        assert k > 2 ==> p[..k][2..][k - 3] == PASTE_START[k - 1];
      }
      assert !EscapeBeforeSequence(p);
    }
  }

  /** The state after part of a bracketed paste. */
  function PasteProgress(st: State, content: string, p: string): Output {
    if |p| < 6 then Output(Buffered(p, false, "", st.pending), [])
    else if |p| < 12 + |content| then Output(Buffered("", true, p[6..], None), [])
    else Output(IDLE, [Paste(content)])
  }

  ghost predicate Idle(st: State) {
    st.buffer == "" && !st.pasteMode && st.pasteBuffer == ""
  }

  lemma PasteStep(st: State, content: string, p: string, chunk: string)
    requires Idle(st) && !Contains(content, PASTE_END) && chunk != ""
    requires p + chunk <= PASTE_START + content + PASTE_END
    ensures var x := PasteProgress(st, content, p);
      var y := Feed(x.state, chunk);
      PasteProgress(st, content, p + chunk) == Output(y.state, x.events + y.events)
  {
    hide Extract, Find, OccursAt, IsCompleteSequence;
    var whole := PASTE_START + content + PASTE_END;
    var q := p + chunk;
    assert q == whole[..|q|];
    if |q| < 6 {
      assert q < PASTE_START by { assert q == PASTE_START[..|q|]; }
      StartMarkerIsIncomplete(q);
      assert EmitAll(st.pending, []) == ([], st.pending);
    } else {
      if |p| < 6 {
        StartAtFront(q);
      } else {
        assert p[6..] + ("" + chunk) == q[6..];
      }
      PasteCollects(content, q[6..], None);
      assert EmitAll(st.pending, []).0 == [];
    }
  }

  lemma StartAtFront(q: string)
    requires PASTE_START <= q
    ensures Find(q, PASTE_START, 0) == Some(0)
  {
    assert q[0..6] == PASTE_START;
  }

  lemma PasteCollects(content: string, inside: string, pending: Option<nat>)
    requires !Contains(content, PASTE_END) && inside <= content + PASTE_END
    ensures FeedPaste(inside, pending) ==
      if |inside| < |content| + 6 then Output(Buffered("", true, inside, pending), [])
      else Output(IDLE, [Paste(content)])
  {
    if |inside| < |content| + 6 {
      ProperPrefixHasNoEnd(content, inside);
    } else {
      assert inside == content + PASTE_END;
      MarkerAfterContent(content);
      assert inside[..|content|] == content && inside[|content| + 6..] == "";
    }
  }

  /** Paste round trip: any content free of the end marker, bracketed and cut anywhere, comes out as
      one paste with that content, and nothing else; the buffer is idle again. */
  lemma PasteRoundTrip(st: State, content: string, chunks: seq<string>)
    requires Idle(st) && !Contains(content, PASTE_END)
    requires forall k :: 0 <= k < |chunks| ==> chunks[k] != ""
    requires Concat(chunks) == PASTE_START + content + PASTE_END
    ensures FeedAll(st, chunks) == Output(IDLE, [Paste(content)])
  {
    assert chunks[..|chunks|] == chunks;
    PasteRun(st, content, chunks, |chunks|);
  }

  lemma {:induction false} PasteRun(st: State, content: string, chunks: seq<string>, k: nat)
    requires Idle(st) && !Contains(content, PASTE_END) && k <= |chunks|
    requires forall i :: 0 <= i < |chunks| ==> chunks[i] != ""
    requires Concat(chunks) == PASTE_START + content + PASTE_END
    ensures FeedAll(st, chunks[..k]) == PasteProgress(st, content, Concat(chunks[..k]))
    decreases k
  {
    if k > 0 {
      PasteRun(st, content, chunks, k - 1);
      assert chunks[..k] == chunks[..k - 1] + [chunks[k - 1]];
      ConcatSnoc(chunks[..k - 1], chunks[k - 1]);
      ConcatPrefix(chunks, k);
      PasteStep(st, content, Concat(chunks[..k - 1]), chunks[k - 1]);
    }
  }
}
