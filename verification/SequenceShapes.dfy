/** Which inputs are sequences: each shape comes out whole and at once, and nothing of it before its last character. */
module SequenceShapes {
  import opened Text
  import opened Ansi
  import opened Sequences

  /** The input is one sequence, and no beginning of it is. */
  ghost predicate OneSequence(a: string) {
    && Extract(a) == Extraction([a], "")
    && forall k :: 0 < k < |a| ==> Extract(a[..k]) == Extraction([], a[..k])
  }

  lemma CompletesAtTheEnd(a: string)
    requires |a| >= 2 && a[0] == ESC && a[1] != ESC
    requires IsCompleteSequence(a) == Complete
    requires forall k :: 1 <= k < |a| ==> IsCompleteSequence(a[..k]) != Complete
    ensures OneSequence(a)
  {
    hide IsCompleteSequence;
    assert a[..|a|] == a && a[|a|..] == "";
    assert a[..2][1] == a[1];
    assert CompletePrefix(a, 1) == Some(|a|);
    assert Extract("") == Extraction([], "");
    forall k | 0 < k < |a|
      ensures Extract(a[..k]) == Extraction([], a[..k])
    {
      var b := a[..k];
      assert forall j :: 1 <= j <= k ==> b[..j] == a[..j];
      assert k >= 2 ==> b[..2][1] == a[1];
      assert CompletePrefix(b, 1).None?;
    }
  }

  /** A sequence stays what it is when more follows. */
  lemma SequenceThenMore(a: string, rest: string)
    requires OneSequence(a) && a != "" && a[0] == ESC && a != DOUBLE_ESC
    ensures Extract(a + rest) == Extraction([a] + Extract(rest).sequences, Extract(rest).remainder)
  {
    hide FirstLength;
    FirstTakesAll(a);
    FirstLengthStays(a, rest);
    ExtractStep(a, rest, |a|);
    assert a[|a|..] + rest == rest && a[..|a|] == a;
  }

  lemma FirstTakesAll(a: string)
    requires a != "" && Extract(a) == Extraction([a], "")
    ensures FirstLength(a) == Some(|a|)
  {
    hide FirstLength;
    var n := FirstLength(a);
    if n.Some? {
      assert Extract(a).sequences[0] == a[..n.value];
    }
  }

  /** Any other character than Escape is a sequence of its own. */
  lemma CharacterThenMore(c: char, rest: string)
    requires c != ESC
    ensures Extract([c] + rest) == Extraction([[c]] + Extract(rest).sequences, Extract(rest).remainder)
  {
    assert ([c] + rest)[..1] == [c] && ([c] + rest)[1..] == rest;
  }

  // ----- the shapes -----

  /** Parameter and intermediate bytes of a control sequence: ECMA-48 section 5.4. */
  predicate IsParameterByte(c: char) { '\U{20}' <= c <= '\U{3f}' }
  predicate IsFinalByte(c: char) { '\U{40}' <= c <= '\U{7e}' }

  /** A control sequence ends with its first final byte; the arrow keys are such. */
  lemma ControlSequence(p: string, f: char)
    requires (forall i :: 0 <= i < |p| ==> IsParameterByte(p[i])) && IsFinalByte(f)
    requires p != "" ==> p[0] != '<'
    requires p == "" ==> f != 'M'
    ensures OneSequence([ESC] + "[" + p + [f])
  {
    var a := [ESC] + "[" + p + [f];
    assert a[0] == ESC && a[1] == '[' && a[2..] == p + [f];
    assert a[2] == if p == "" then f else p[0];
    forall k | 1 <= k < |a|
      ensures IsCompleteSequence(a[..k]) != Complete
    {
      if k >= 3 {
        var b := a[..k];
        assert b[1] == '[' && b[2] == p[0] && b[2..][k - 3] == p[k - 3];
      }
    }
    CompletesAtTheEnd(a);
  }

  /** The old mouse report: three characters after ESC [ M, whatever they are. */
  lemma OldMouseReport(b: char, x: char, y: char)
    ensures OneSequence([ESC] + "[M" + [b, x, y])
  {
    var a := [ESC] + "[M" + [b, x, y];
    assert a[0] == ESC && a[1] == '[' && a[2] == 'M' && |a| == 6;
    forall k | 1 <= k < |a|
      ensures IsCompleteSequence(a[..k]) != Complete
    {
      assert k >= 3 ==> a[..k][2] == 'M';
    }
    CompletesAtTheEnd(a);
  }

  /** The SGR mouse report: three numbers and M or m. */
  lemma MouseReport(b: string, x: string, y: string, f: char)
    requires IsNumber(b) && IsNumber(x) && IsNumber(y) && (f == 'M' || f == 'm')
    ensures OneSequence([ESC] + "[<" + b + ";" + x + ";" + y + [f])
  {
    hide Split, OneSequence;
    var inner := b + ";" + x + ";" + y;
    var a := [ESC] + "[<" + b + ";" + x + ";" + y + [f];
    assert a == [ESC] + "[<" + inner + [f];
    ThreeNumbers(b, x, y);
    assert a[2..] == "<" + inner + [f] && ("<" + inner + [f])[1..|inner| + 1] == inner;
    NumbersHaveNoFinalByte(b, x, y);
    forall k | 1 <= k < |a|
      ensures IsCompleteSequence(a[..k]) != Complete
    {
      if k >= 3 {
        assert a[..k][2] == '<' && a[..k][1] == '[';
        assert a[..k][2..][k - 3] == if k == 3 then '<' else inner[k - 4];
      }
    }
    CompletesAtTheEnd(a);
  }

  lemma ThreeNumbers(b: string, x: string, y: string)
    requires IsNumber(b) && IsNumber(x) && IsNumber(y)
    ensures Split(b + ";" + x + ";" + y, ';') == [b, x, y]
  {
    hide Split;
    assert ';' !in b && ';' !in x && ';' !in y;
    SplitWithout(b, ';');
    SplitWithout(x, ';');
    SplitWithout(y, ';');
    SplitAtSeparator(b, x + ";" + y, ';');
    SplitAtSeparator(x, y, ';');
    assert b + [';'] + (x + ";" + y) == b + ";" + x + ";" + y;
    assert [b] + ([x] + [y]) == [b, x, y];
  }

  lemma NumbersHaveNoFinalByte(b: string, x: string, y: string)
    requires IsNumber(b) && IsNumber(x) && IsNumber(y)
    ensures var inner := b + ";" + x + ";" + y; forall i :: 0 <= i < |inner| ==> inner[i] < '\U{40}'
  {
  }

  /** And nothing else is one. */
  lemma OnlyMouseReports(payload: string)
    requires IsSgrMouse(payload)
    ensures exists b: string, x: string, y: string, f: char ::
              && IsNumber(b) && IsNumber(x) && IsNumber(y) && (f == 'M' || f == 'm')
              && payload == "<" + b + ";" + x + ";" + y + [f]
  {
    var inner, f := payload[1..|payload| - 1], payload[|payload| - 1];
    var parts := Split(inner, ';');
    SplitJoins(inner, ';');
    assert parts[1..] == [parts[1], parts[2]] && parts[1..][1..] == [parts[2]];
    assert Join([parts[1], parts[2]], ';') == parts[1] + [';'] + parts[2];
    assert inner == parts[0] + ";" + parts[1] + ";" + parts[2];
    assert payload == "<" + inner + [f];
    assert payload == "<" + parts[0] + ";" + parts[1] + ";" + parts[2] + [f];
  }

  /** A report that begins as a mouse report waits until it is one. */
  lemma MouseReportWaits(payload: string)
    requires payload != "" && payload[0] == '<' && !IsSgrMouse(payload)
    ensures IsCompleteSequence([ESC] + "[" + payload) == Incomplete
  {
    var a := [ESC] + "[" + payload;
    assert a[1] == '[' && a[2] == '<' && a[2..] == payload;
  }

  /** SS3 and one character: the function keys. */
  lemma SingleShift(c: char)
    ensures OneSequence([ESC, 'O', c])
  {
    var a := [ESC, 'O', c];
    forall k | 1 <= k < |a|
      ensures IsCompleteSequence(a[..k]) != Complete
    {
    }
    CompletesAtTheEnd(a);
  }

  /** Escape and any other character that begins no longer sequence: the key with Alt. */
  lemma AltKey(c: char)
    requires !BeginsSequence(c) && c != ESC
    ensures OneSequence([ESC, c])
  {
    var a := [ESC, c];
    assert a[..1] == [ESC];
    CompletesAtTheEnd(a);
  }

  /** An OSC string ends with BEL or ST. */
  lemma OperatingSystemCommand(body: string, terminator: string)
    requires BEL !in body && ESC !in body && (terminator == [BEL] || terminator == [ESC, '\\'])
    ensures OneSequence([ESC] + "]" + body + terminator)
  {
    var a := [ESC] + "]" + body + terminator;
    assert a[0] == ESC && a[1] == ']';
    assert EndsWith(a, terminator);
    forall k | 1 <= k < |a|
      ensures IsCompleteSequence(a[..k]) != Complete
    {
      LastOfString("]", body, terminator, k);
    }
    CompletesAtTheEnd(a);
  }

  /** DCS and APC strings end with ST only. */
  lemma ControlString(kind: string, body: string)
    requires (kind == "P" || kind == "_") && ESC !in body
    ensures OneSequence([ESC] + kind + body + [ESC, '\\'])
  {
    var terminator := [ESC, '\\'];
    var a := [ESC] + kind + body + terminator;
    assert a[0] == ESC && a[1] == kind[0];
    assert EndsWith(a, terminator);
    forall k | 1 <= k < |a|
      ensures IsCompleteSequence(a[..k]) != Complete
    {
      LastOfString(kind, body, terminator, k);
    }
    CompletesAtTheEnd(a);
  }

  /** No proper beginning of such a string ends with its terminator. */
  lemma LastOfString(kind: string, body: string, terminator: string, k: nat)
    requires |kind| == 1 && kind[0] != ESC && kind[0] != BEL && kind[0] != '\\' && ESC !in body
    requires terminator == [BEL] || terminator == [ESC, '\\']
    requires 1 <= k < |[ESC] + kind + body + terminator|
    ensures var b := ([ESC] + kind + body + terminator)[..k];
      && b[0] == ESC && (k >= 2 ==> b[1] == kind[0])
      && !EndsWith(b, ST) && (BEL !in body ==> !EndsWith(b, [BEL]))
  {
    var a := [ESC] + kind + body + terminator;
    var b := a[..k];
    assert b[k - 1] == a[k - 1];
    assert 2 <= k - 1 < 2 + |body| ==> a[k - 1] == body[k - 3] && body[k - 3] in body;
    assert 2 <= k - 2 < 2 + |body| ==> a[k - 2] == body[k - 4] && body[k - 4] in body;
    assert k >= 2 ==> b[k - 2] == a[k - 2];
    assert a[1] == kind[0];
    EndsWithTells(b);
  }

  lemma EndsWithTells(b: string)
    ensures EndsWith(b, ST) <==> |b| >= 2 && b[|b| - 2] == ESC && b[|b| - 1] == '\\'
    ensures EndsWith(b, [BEL]) <==> b != "" && b[|b| - 1] == BEL
  {
    if |b| >= 2 {
      assert b[|b| - 2..] == [b[|b| - 2], b[|b| - 1]];
    }
    if b != "" {
      assert b[|b| - 1..] == [b[|b| - 1]];
    }
  }
}
