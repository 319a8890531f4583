/** The tracker object: it updates its fields code by code. */
module AnsiCodeTrackers {
  import opened Text
  import opened Ansi
  import T = Tracker
  import R = TrackerRoundTrip

  class AnsiCodeTracker {
    var bold: bool
    var dim: bool
    var italic: bool
    var underline: bool
    var blink: bool
    var inverse: bool
    var hidden: bool
    var strikethrough: bool
    var fgColor: Option<string>
    var bgColor: Option<string>
    var activeHyperlink: Option<T.Hyperlink>

    constructor ()
      ensures State() == T.CLEAR
    {
      bold, dim, italic, underline := false, false, false, false;
      blink, inverse, hidden, strikethrough := false, false, false, false;
      fgColor, bgColor, activeHyperlink := None, None, None;
    }

    ghost function State(): T.Style
      reads this
    {
      T.Style(FlagState(), fgColor, bgColor, activeHyperlink)
    }

    method Reset()
      modifies this
      ensures State() == T.ResetSgr(old(State()))
    {
      bold, dim, italic, underline := false, false, false, false;
      blink, inverse, hidden, strikethrough := false, false, false, false;
      fgColor, bgColor := None, None;
    }

    method Clear()
      modifies this
      ensures State() == T.CLEAR
    {
      Reset();
      activeHyperlink := None;
    }

    ghost function FlagState(): T.Flags
      reads this
    {
      T.Flags(bold, dim, italic, underline, blink, inverse, hidden, strikethrough)
    }

    method SwitchOn(code: nat)
      requires code < 10
      modifies this`bold, this`dim, this`italic, this`underline, this`blink, this`inverse, this`hidden,
               this`strikethrough
      ensures FlagState() == T.ApplyFlag(old(FlagState()), code)
    {
      if code == 1 { bold := true; }
      else if code == 2 { dim := true; }
      else if code == 3 { italic := true; }
      else if code == 4 { underline := true; }
      else if code == 5 { blink := true; }
      else if code == 7 { inverse := true; }
      else if code == 8 { hidden := true; }
      else if code == 9 { strikethrough := true; }
    }

    method SwitchOff(code: nat)
      requires code >= 10
      modifies this`bold, this`dim, this`italic, this`underline, this`blink, this`inverse, this`hidden,
               this`strikethrough
      ensures FlagState() == T.ApplyFlag(old(FlagState()), code)
    {
      if code == 21 { bold := false; }
      else if code == 22 { bold := false; dim := false; }
      else if code == 23 { italic := false; }
      else if code == 24 { underline := false; }
      else if code == 25 { blink := false; }
      else if code == 27 { inverse := false; }
      else if code == 28 { hidden := false; }
      else if code == 29 { strikethrough := false; }
    }

    method ProcessFlag(code: nat)
      modifies this`bold, this`dim, this`italic, this`underline, this`blink, this`inverse, this`hidden,
               this`strikethrough
      ensures FlagState() == T.ApplyFlag(old(FlagState()), code)
    {
      if code < 10 { SwitchOn(code); } else { SwitchOff(code); }
    }

    method ProcessStandard(code: nat)
      modifies this
      ensures State() == T.ApplyCode(old(State()), code)
    {
      if code == 0 {
        Reset();
      } else if code == 39 {
        fgColor := None;
      } else if code == 49 {
        bgColor := None;
      } else if T.IsForeground(code) {
        fgColor := Some(Decimal(code));
      } else if T.IsBackground(code) {
        bgColor := Some(Decimal(code));
      } else {
        ProcessFlag(code);
      }
    }

    method ProcessParts(parts: seq<string>)
      requires T.AllDigitParts(parts)
      modifies this
      ensures State() == T.ApplyParams(old(State()), parts)
    {
      var i := 0;
      while i < |parts|
        invariant 0 <= i <= |parts|
        invariant T.ApplyParams(State(), parts[i..]) == T.ApplyParams(old(State()), parts)
      {
        var rest := parts[i..];
        var code := ParseInt(parts[i]);
        var n := T.ColorLength(rest);
        if n > 0 {
          var colorCode := Join(rest[..n], ';');
          if code == Some(38) {
            fgColor := Some(colorCode);
          } else {
            bgColor := Some(colorCode);
          }
          assert rest[n..] == parts[i + n..];
          i := i + n;
          continue;
        }
        if code.Some? {
          ProcessStandard(code.value);
        }
        assert rest[1..] == parts[i + 1..];
        i := i + 1;
      }
    }

    method Process(ansiCode: string)
      modifies this
      ensures State() == T.Process(old(State()), ansiCode)
    {
      var hyperlink := T.ParseOsc8(ansiCode);
      if hyperlink.Some? {
        activeHyperlink := hyperlink.value;
        return;
      }
      if ansiCode == "" || ansiCode[|ansiCode| - 1] != 'm' {
        return;
      }
      var params := T.SgrParams(ansiCode, 0);
      if params.None? {
        return;
      }
      if params.value == "" || params.value == "0" {
        Reset();
        return;
      }
      SplitParams(params.value);
      ProcessParts(Split(params.value, ';'));
    }

    /** Processes every complete code of a text. */
    method UpdateFromText(text: string)
      modifies this
      ensures State() == R.ScanText(old(State()), text)
    {
      var i := 0;
      while i < |text|
        invariant 0 <= i <= |text|
        invariant R.ScanText(State(), text[i..]) == R.ScanText(old(State()), text)
      {
        var ansiResult := ExtractAnsiCode(text, i);
        if ansiResult.Some? {
          Process(ansiResult.value);
          assert text[i..][|ansiResult.value|..] == text[i + |ansiResult.value|..];
          i := i + |ansiResult.value|;
        } else {
          assert text[i..][1..] == text[i + 1..];
          i := i + 1;
        }
      }
    }

    /** The same for a text given as items. */
    method UpdateFromItems(line: Line)
      modifies this
      ensures State() == T.StyleAfter(old(State()), line)
    {
      var i := 0;
      while i < |line|
        invariant 0 <= i <= |line|
        invariant T.StyleAfter(State(), line[i..]) == T.StyleAfter(old(State()), line)
      {
        assert line[i..][1..] == line[i + 1..];
        if line[i].Code? {
          Process(line[i].code);
        }
        i := i + 1;
      }
    }

    method GetActiveCodes() returns (codes: Line)
      ensures codes == T.ActiveItems(State())
    {
      var sgr := PushFlags();
      var flags := sgr;
      if fgColor.Some? { sgr := sgr + [fgColor.value]; }
      if bgColor.Some? { sgr := sgr + [bgColor.value]; }
      assert sgr == flags + (T.OptColor(fgColor) + T.OptColor(bgColor));
      codes := if |sgr| > 0 then [Code(T.SgrCode(sgr))] else [];
      if activeHyperlink.Some? {
        codes := codes + [Code(T.FormatOsc8(activeHyperlink.value))];
      }
    }

    method PushFlags() returns (sgr: seq<string>)
      ensures sgr == T.FlagCodes(FlagState())
    {
      sgr := PushFour([], bold, "1", dim, "2", italic, "3", underline, "4");
      sgr := PushFour(sgr, blink, "5", inverse, "7", hidden, "8", strikethrough, "9");
      T.FlagCodesInHalves(FlagState());
    }

    static method PushFour(before: seq<string>, on1: bool, part1: string, on2: bool, part2: string,
                           on3: bool, part3: string, on4: bool, part4: string) returns (sgr: seq<string>)
      ensures sgr == before + (T.Opt(on1, part1) + T.Opt(on2, part2) + T.Opt(on3, part3) + T.Opt(on4, part4))
    {
      sgr := before;
      if on1 { sgr := sgr + [part1]; }
      if on2 { sgr := sgr + [part2]; }
      if on3 { sgr := sgr + [part3]; }
      if on4 { sgr := sgr + [part4]; }
    }

    method GetLineEndReset() returns (codes: Line)
      ensures codes == T.LineEndReset(State())
    {
      codes := [];
      if underline {
        codes := codes + [Code([ESC] + "[24m")];
      }
      if activeHyperlink.Some? {
        codes := codes + [Code(T.FormatOsc8Close(activeHyperlink.value.terminator))];
      }
    }
  }
}
