/** Recognising complete escape sequences at the front of an input buffer. */
module Sequences {
  import opened Text
  import opened Ansi

  datatype Status = Complete | Incomplete | NotEscape

  predicate EndsWith(s: string, suffix: string) {
    |suffix| <= |s| && s[|s| - |suffix|..] == suffix
  }

  /** <B;X;Y followed by M or m: the SGR mouse report. */
  predicate IsSgrMouse(payload: string) {
    && |payload| >= 2 && payload[0] == '<'
    && (payload[|payload| - 1] == 'M' || payload[|payload| - 1] == 'm')
    && var parts := Split(payload[1..|payload| - 1], ';');
       |parts| == 3 && IsNumber(parts[0]) && IsNumber(parts[1]) && IsNumber(parts[2])
  }

  /** ESC [ up to a final byte in 0x40..0x7E (ECMA-48 section 5.4). A payload that starts as a mouse
      report is complete only as one. */
  function IsCompleteCsi(data: string): (r: Status)
    requires |data| >= 2 && data[0] == ESC && data[1] == '['
    ensures r != NotEscape
  {
    if |data| < 3 then Incomplete
    else
      var payload := data[2..];
      var lastChar := payload[|payload| - 1];
      if !('\U{40}' <= lastChar <= '\U{7e}') then Incomplete
      else if payload[0] != '<' then Complete
      else if IsSgrMouse(payload) then Complete
      else Incomplete
  }

  function IsCompleteSequence(data: string): (r: Status)
    ensures r == NotEscape <==> data == "" || data[0] != ESC
    ensures r == Complete ==> |data| >= 2
  {
    if data == "" || data[0] != ESC then NotEscape
    else if |data| == 1 then Incomplete
    else if data[1] == '[' then
      if |data| >= 3 && data[2] == 'M' then (if |data| >= 6 then Complete else Incomplete)
      else IsCompleteCsi(data)
    else if data[1] == ']' then
      if EndsWith(data, ST) || EndsWith(data, [BEL]) then Complete else Incomplete
    else if data[1] == 'P' || data[1] == '_' then
      if EndsWith(data, ST) then Complete else Incomplete
    else if data[1] == 'O' then
      if |data| >= 3 then Complete else Incomplete
    else Complete
  }

  const DOUBLE_ESC: string := [ESC, ESC]

  /** Characters that, after ESC, begin a longer sequence. */
  predicate BeginsSequence(c: char) {
    c == '[' || c == ']' || c == 'O' || c == 'P' || c == '_'
  }

  /** The two escapes at the front are the Escape key followed by a sequence of its own. */
  predicate EscapeBeforeSequence(buffer: string) {
    |buffer| >= 3 && buffer[..2] == DOUBLE_ESC && BeginsSequence(buffer[2])
  }

  /** The length of the shortest complete prefix of at least n characters. */
  function CompletePrefix(buffer: string, n: nat): (r: Option<nat>)
    ensures r.Some? ==> n <= r.value <= |buffer| && IsCompleteSequence(buffer[..r.value]) == Complete
    ensures r.Some? ==> forall k :: n <= k < r.value ==> IsCompleteSequence(buffer[..k]) != Complete
    ensures r.None? ==> forall k :: n <= k <= |buffer| ==> IsCompleteSequence(buffer[..k]) != Complete
    decreases |buffer| - n
  {
    if n > |buffer| then None
    else if IsCompleteSequence(buffer[..n]) == Complete then Some(n)
    else CompletePrefix(buffer, n + 1)
  }

  /** How much of a non-empty buffer its first sequence takes; None when it is not complete yet. */
  function FirstLength(buffer: string): (r: Option<nat>)
    requires buffer != ""
    ensures r.Some? ==> 0 < r.value <= |buffer|
  {
    if buffer[0] != ESC then Some(1)
    else if EscapeBeforeSequence(buffer) then Some(1)
    else CompletePrefix(buffer, 1)
  }

  datatype Extraction = Extraction(sequences: seq<string>, remainder: string)

  /** The sequences at the front of a buffer, and what is left. */
  function Extract(buffer: string): Extraction
    decreases |buffer|
  {
    if buffer == "" then Extraction([], "")
    else
      var n := FirstLength(buffer);
      if n.None? then Extraction([], buffer)
      else
        var rest := Extract(buffer[n.value..]);
        Extraction([buffer[..n.value]] + rest.sequences, rest.remainder)
  }

  lemma EscapePairIsComplete(buffer: string)
    requires |buffer| >= 2 && buffer[..2] == DOUBLE_ESC
    ensures CompletePrefix(buffer, 1) == Some(2)
  {
    assert buffer[..2][0] == ESC && buffer[..2][1] == ESC;
    assert IsCompleteSequence(buffer[..1]) == Incomplete;
    assert IsCompleteSequence(buffer[..2]) == Complete;
  }

  /** Finds the end of the escape sequence at the front, as the source does it: longer and longer
      candidates, with the double escape looked at once it is complete. */
  method FindSequenceEnd(remaining: string) returns (seqEnd: nat, cut: nat)
    requires remaining != "" && remaining[0] == ESC
    ensures seqEnd <= |remaining| ==> FirstLength(remaining) == Some(cut)
    ensures seqEnd > |remaining| ==> FirstLength(remaining).None?
  {
    seqEnd, cut := 1, 0;
    while seqEnd <= |remaining|
      invariant 1 <= seqEnd <= |remaining| + 1
      invariant forall k :: 1 <= k < seqEnd ==> IsCompleteSequence(remaining[..k]) != Complete
      invariant CompletePrefix(remaining, 1) == CompletePrefix(remaining, seqEnd)
    {
      var candidate := remaining[..seqEnd];
      var status := IsCompleteSequence(candidate);
      if status == Complete {
        if candidate == DOUBLE_ESC {
          if seqEnd < |remaining| && BeginsSequence(remaining[seqEnd]) {
            return seqEnd, 1;
          }
        }
        if EscapeBeforeSequence(remaining) {
          EscapePairIsComplete(remaining);
        }
        return seqEnd, seqEnd;
      }
      seqEnd := seqEnd + 1;
    }
    if EscapeBeforeSequence(remaining) {
      EscapePairIsComplete(remaining);
    }
  }

  method ExtractCompleteSequences(buffer: string) returns (sequences: seq<string>, remainder: string)
    ensures Extraction(sequences, remainder) == Extract(buffer)
  {
    sequences := [];
    var pos := 0;
    while pos < |buffer|
      invariant 0 <= pos <= |buffer|
      invariant Extract(buffer) ==
        Extraction(sequences + Extract(buffer[pos..]).sequences, Extract(buffer[pos..]).remainder)
    {
      var remaining := buffer[pos..];
      if remaining[0] == ESC {
        var seqEnd, cut := FindSequenceEnd(remaining);
        if seqEnd > |remaining| {
          return sequences, remaining;
        }
        sequences := sequences + [remaining[..cut]];
        assert remaining[cut..] == buffer[pos + cut..];
        pos := pos + cut;
      } else {
        sequences := sequences + [[remaining[0]]];
        assert remaining[..1] == [remaining[0]] && remaining[1..] == buffer[pos + 1..];
        pos := pos + 1;
      }
    }
    remainder := "";
  }

  /** Nothing is lost, invented or reordered. */
  lemma {:induction false} ExtractionLosesNothing(buffer: string)
    ensures Concat(Extract(buffer).sequences) + Extract(buffer).remainder == buffer
    decreases |buffer|
  {
    hide FirstLength, CompletePrefix, IsCompleteSequence;
    if buffer != "" {
      var n := FirstLength(buffer);
      if n.Some? {
        var rest := Extract(buffer[n.value..]);
        ExtractionLosesNothing(buffer[n.value..]);
        assert ([buffer[..n.value]] + rest.sequences)[1..] == rest.sequences;
        assert buffer == buffer[..n.value] + buffer[n.value..];
      }
    }
  }

  // ----- cutting the input -----

  /** The cut falls between two escapes already taken as one sequence and a character that would
      have begun a sequence of the second. */
  predicate CutsEscapePair(a: string, b: string) {
    var e := Extract(a);
    && e.remainder == "" && e.sequences != [] && e.sequences[|e.sequences| - 1] == DOUBLE_ESC
    && b != "" && BeginsSequence(b[0])
  }

  function ExtractInTwo(a: string, b: string): Extraction {
    var first := Extract(a);
    var second := Extract(first.remainder + b);
    Extraction(first.sequences + second.sequences, second.remainder)
  }

  lemma {:induction false} CompletePrefixStays(a: string, b: string, n: nat)
    requires CompletePrefix(a, n).Some?
    ensures CompletePrefix(a + b, n) == CompletePrefix(a, n)
    decreases |a| - n
  {
    assert (a + b)[..n] == a[..n];
    if IsCompleteSequence(a[..n]) != Complete {
      CompletePrefixStays(a, b, n + 1);
    }
  }

  /** A first sequence stays the first sequence when more input follows, except for an escape pair
      that turns out to be the Escape key before another sequence. */
  lemma FirstLengthStays(a: string, b: string)
    requires a != "" && FirstLength(a).Some?
    requires !(a == DOUBLE_ESC && b != "" && BeginsSequence(b[0]))
    ensures FirstLength(a + b) == FirstLength(a)
  {
    if a[0] == ESC {
      if |a| >= 3 {
        assert (a + b)[..2] == a[..2];
        if !EscapeBeforeSequence(a) {
          CompletePrefixStays(a, b, 1);
        }
      } else {
        CompletePrefixStays(a, b, 1);
        assert |a| == 2;
        assert (a + b)[..2] == a;
        if a == DOUBLE_ESC && b != "" {
          assert (a + b)[2] == b[0];
        }
      }
    }
  }

  lemma CutFreeTail(a: string, b: string, n: nat)
    requires a != "" && FirstLength(a) == Some(n) && !CutsEscapePair(a, b) && n < |a|
    ensures !CutsEscapePair(a[n..], b)
  {
    var rest := Extract(a[n..]);
    var all := [a[..n]] + rest.sequences;
    if rest.sequences != [] {
      assert all[|all| - 1] == rest.sequences[|rest.sequences| - 1];
    }
  }

  lemma EscapePairAlone()
    ensures Extract(DOUBLE_ESC) == Extraction([DOUBLE_ESC], "")
  {
    EscapePairIsComplete(DOUBLE_ESC);
    assert DOUBLE_ESC[..2] == DOUBLE_ESC && DOUBLE_ESC[2..] == "";
  }

  /** Taking the first sequence off, before and after more input is known. */
  lemma ExtractStep(a: string, b: string, n: nat)
    requires a != "" && FirstLength(a) == Some(n) && FirstLength(a + b) == Some(n)
    ensures var whole := Extract(a[n..] + b);
      Extract(a + b) == Extraction([a[..n]] + whole.sequences, whole.remainder)
    ensures var two := ExtractInTwo(a[n..], b);
      ExtractInTwo(a, b) == Extraction([a[..n]] + two.sequences, two.remainder)
  {
    assert (a + b)[..n] == a[..n] && (a + b)[n..] == a[n..] + b;
    var rest := Extract(a[n..]);
    var second := Extract(rest.remainder + b);
    assert [a[..n]] + (rest.sequences + second.sequences) == ([a[..n]] + rest.sequences) + second.sequences;
  }

  /** Extraction does not depend on where the input is cut, unless the cut splits an escape pair. */
  lemma {:induction false} CutIsInvisible(a: string, b: string)
    requires !CutsEscapePair(a, b)
    ensures ExtractInTwo(a, b) == Extract(a + b)
    decreases |a|
  {
    hide IsCompleteSequence, CompletePrefix, EscapeBeforeSequence;
    if a == "" {
      assert a + b == b;
    } else if FirstLength(a).Some? {
      var n := FirstLength(a).value;
      EscapePairAlone();
      FirstLengthStays(a, b);
      ExtractStep(a, b, n);
      if n < |a| {
        CutFreeTail(a, b, n);
      } else {
        assert a[n..] == "";
      }
      CutIsInvisible(a[n..], b);
    }
  }

  /** And a cut that splits an escape pair always shows. */
  lemma {:induction false} CutEscapePairShows(a: string, b: string)
    requires CutsEscapePair(a, b)
    ensures |ExtractInTwo(a, b).sequences| > |Extract(a).sequences| - 1 >= 0
    ensures |Extract(a + b).sequences| > |Extract(a).sequences| - 1
    ensures ExtractInTwo(a, b).sequences[|Extract(a).sequences| - 1] == DOUBLE_ESC
    ensures Extract(a + b).sequences[|Extract(a).sequences| - 1] == [ESC]
    ensures var n := |Extract(a).sequences| - 1;
      ExtractInTwo(a, b).sequences[..n] == Extract(a + b).sequences[..n]
    decreases |a|
  {
    hide IsCompleteSequence, CompletePrefix, FirstLength, EscapeBeforeSequence;
    var n := FirstLength(a).value;
    var rest := Extract(a[n..]);
    assert Extract(a).sequences == [a[..n]] + rest.sequences;
    if a == DOUBLE_ESC {
      EscapePairAlone();
      EscapePairSplit(b);
    } else {
      LastOfMany(a, n, rest);
      FirstLengthStays(a, b);
      ExtractStep(a, b, n);
      CutEscapePairShows(a[n..], b);
    }
  }

  /** An escape pair that ends a longer buffer ends what follows its first sequence. */
  lemma LastOfMany(a: string, n: nat, rest: Extraction)
    requires a != "" && a != DOUBLE_ESC && FirstLength(a) == Some(n) && rest == Extract(a[n..])
    requires var e := Extract(a);
      e.remainder == "" && e.sequences[|e.sequences| - 1] == DOUBLE_ESC
    ensures rest.remainder == "" && rest.sequences != [] && rest.sequences[|rest.sequences| - 1] == DOUBLE_ESC
  {
    hide FirstLength;
    var all := [a[..n]] + rest.sequences;
    ExtractionLosesNothing(a[n..]);
    var tail := a[n..];
    assert a == a[..n] + tail;
    assert rest.sequences == [] ==> |all| == 1 && tail == rest.remainder;
    assert |rest.sequences| > 0 ==> all[|all| - 1] == rest.sequences[|rest.sequences| - 1];
  }

  lemma EscapePairSplit(b: string)
    requires b != "" && BeginsSequence(b[0])
    ensures ExtractInTwo(DOUBLE_ESC, b).sequences != [] && Extract(DOUBLE_ESC + b).sequences != []
    ensures ExtractInTwo(DOUBLE_ESC, b).sequences[0] == DOUBLE_ESC
    ensures Extract(DOUBLE_ESC + b).sequences[0] == [ESC]
  {
    EscapePairAlone();
    var whole := DOUBLE_ESC + b;
    assert whole[..2] == DOUBLE_ESC && whole[2] == b[0] && whole[..1] == [ESC];
  }

  /** The exact condition: a cut is invisible if and only if it does not split an escape pair. */
  lemma CutIsInvisibleExactly(a: string, b: string)
    ensures ExtractInTwo(a, b) == Extract(a + b) <==> !CutsEscapePair(a, b)
  {
    if CutsEscapePair(a, b) {
      CutEscapePairShows(a, b);
      assert DOUBLE_ESC != [ESC];
    } else {
      CutIsInvisible(a, b);
    }
  }
}
