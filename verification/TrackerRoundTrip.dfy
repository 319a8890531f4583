/** Writing the active codes of a style and reading them back rebuilds the style. */
module TrackerRoundTrip {
  import opened Text
  import opened Ansi
  import opened Tracker

  // ----- the parameter list -----

  lemma OneFlag(s: Style, on: bool, part: string, code: nat, rest: seq<string>)
    requires 1 <= code <= 9 && part == ['0' + code as char] && AllDigitParts(rest)
    ensures AllDigitParts(Opt(on, part) + rest)
    ensures ApplyParams(s, Opt(on, part) + rest)
         == ApplyParams(if on then s.(flags := ApplyFlag(s.flags, code)) else s, rest)
  {
    hide ApplyFlag, Join;
    if on {
      assert |part| == 1 && part[..0] == "";
      assert Digits(part) == Digits(part[..0]) * 10 + code;
      assert ([part] + rest)[1..] == rest;
    } else {
      assert [] + rest == rest;
    }
  }

  /** Four optional flags at the head of a parameter list. */
  lemma FourFlags(s: Style, on: seq<bool>, codes: seq<nat>, parts: seq<string>, rest: seq<string>)
    requires |on| == |codes| == |parts| == 4 && AllDigitParts(rest)
    requires forall i :: 0 <= i < 4 ==> 1 <= codes[i] <= 9 && parts[i] == ['0' + codes[i] as char]
    ensures var all :=
              Opt(on[0], parts[0]) + (Opt(on[1], parts[1]) + (Opt(on[2], parts[2]) + (Opt(on[3], parts[3]) + rest)));
      AllDigitParts(all) && ApplyParams(s, all) == ApplyParams(s.(flags := SetFlags(s.flags, on, codes)), rest)
  {
    var f1 := SetFlag(s.flags, on[0], codes[0]);
    var f2 := SetFlag(f1, on[1], codes[1]);
    var f3 := SetFlag(f2, on[2], codes[2]);
    var r3 := Opt(on[3], parts[3]) + rest;
    var r2 := Opt(on[2], parts[2]) + r3;
    var r1 := Opt(on[1], parts[1]) + r2;
    OneFlag(s.(flags := f3), on[3], parts[3], codes[3], rest);
    OneFlag(s.(flags := f2), on[2], parts[2], codes[2], r3);
    OneFlag(s.(flags := f1), on[1], parts[1], codes[1], r2);
    OneFlag(s, on[0], parts[0], codes[0], r1);
  }

  function SetFlag(f: Flags, on: bool, code: nat): Flags {
    if on then ApplyFlag(f, code) else f
  }

  function SetFlags(f: Flags, on: seq<bool>, codes: seq<nat>): Flags
    requires |on| == |codes| == 4
  {
    SetFlag(SetFlag(SetFlag(SetFlag(f, on[0], codes[0]), on[1], codes[1]), on[2], codes[2]), on[3], codes[3])
  }

  lemma ConcatIsAssociative(a: seq<string>, b: seq<string>, c: seq<string>)
    ensures (a + b) + c == a + (b + c)
  {}

  lemma FlagsRebuilt(f: Flags, rest: seq<string>)
    requires AllDigitParts(rest)
    ensures AllDigitParts(FlagCodes(f) + rest)
    ensures ApplyParams(CLEAR, FlagCodes(f) + rest) == ApplyParams(CLEAR.(flags := f), rest)
  {
    var half := CLEAR.(flags := NO_FLAGS.(bold := f.bold, dim := f.dim, italic := f.italic, underline := f.underline));
    LaterFlagsRebuilt(half, f, rest);
    var later := LaterFlagCodes(f) + rest;
    var on := [f.bold, f.dim, f.italic, f.underline];
    FourFlags(CLEAR, on, [1, 2, 3, 4], ["1", "2", "3", "4"], later);
    var o1, o2, o3, o4 := Opt(f.bold, "1"), Opt(f.dim, "2"), Opt(f.italic, "3"), Opt(f.underline, "4");
    ConcatIsAssociative(o4, LaterFlagCodes(f), rest);
    ConcatIsAssociative(o3, o4 + LaterFlagCodes(f), rest);
    ConcatIsAssociative(o2, o3 + (o4 + LaterFlagCodes(f)), rest);
    ConcatIsAssociative(o1, o2 + (o3 + (o4 + LaterFlagCodes(f))), rest);
  }

  lemma LaterFlagsRebuilt(s: Style, f: Flags, rest: seq<string>)
    requires AllDigitParts(rest)
    requires s.flags == NO_FLAGS.(bold := f.bold, dim := f.dim, italic := f.italic, underline := f.underline)
    ensures AllDigitParts(LaterFlagCodes(f) + rest)
    ensures ApplyParams(s, LaterFlagCodes(f) + rest) == ApplyParams(s.(flags := f), rest)
  {
    FourFlags(s, [f.blink, f.inverse, f.hidden, f.strikethrough], [5, 7, 8, 9], ["5", "7", "8", "9"], rest);
    var o5, o7, o8, o9 := Opt(f.blink, "5"), Opt(f.inverse, "7"), Opt(f.hidden, "8"), Opt(f.strikethrough, "9");
    ConcatIsAssociative(o8, o9, rest);
    ConcatIsAssociative(o7, o8 + o9, rest);
    ConcatIsAssociative(o5, o7 + (o8 + o9), rest);
  }

  lemma ColorRebuilt(s: Style, c: string, base: nat, rest: seq<string>)
    requires (base == 38 || base == 48) && IsColor(c, base) && AllDigitParts(rest)
    ensures AllDigitParts(Split(c, ';') + rest)
    ensures ApplyParams(s, Split(c, ';') + rest) == ApplyParams(SetColor(s, base, c), rest)
  {
    SplitParams(c);
    var parts := Split(c, ';');
    if AllDigits(c) {
      SplitWithout(c, ';');
      DecimalParses(Digits(c));
      assert ([c] + rest)[1..] == rest;
    } else {
      SplitJoins(c, ';');
      assert (parts + rest)[..|parts|] == parts && (parts + rest)[|parts|..] == rest;
    }
  }

  /** The parts of all codes, in order. */
  function FlatSplit(codes: seq<string>): seq<string> {
    if codes == [] then [] else Split(codes[0], ';') + FlatSplit(codes[1..])
  }

  lemma {:induction false} JoinSplitsFlat(codes: seq<string>)
    requires codes != []
    ensures Split(Join(codes, ';'), ';') == FlatSplit(codes)
  {
    if |codes| > 1 {
      JoinSplitsFlat(codes[1..]);
      SplitAtSeparator(codes[0], Join(codes[1..], ';'), ';');
    }
  }

  lemma {:induction false} FlatSplitDigits(codes: seq<string>, more: seq<string>)
    requires AllDigitParts(codes)
    ensures FlatSplit(codes + more) == codes + FlatSplit(more)
  {
    if codes == [] {
      assert codes + more == more;
    } else {
      SplitWithout(codes[0], ';');
      FlatSplitDigits(codes[1..], more);
      assert (codes + more)[1..] == codes[1..] + more;
    }
  }

  lemma ColorsRebuilt(s: Style, fg: Option<string>, bg: Option<string>)
    requires fg.Some? ==> IsColor(fg.value, 38)
    requires bg.Some? ==> IsColor(bg.value, 48)
    requires s.fg == None && s.bg == None
    ensures var parts := FlatSplit(OptColor(fg) + OptColor(bg));
      AllDigitParts(parts) && ApplyParams(s, parts) == s.(fg := fg, bg := bg)
  {
    var last := FlatSplit(OptColor(bg));
    if bg.Some? {
      assert OptColor(bg) == [bg.value] && [bg.value][1..] == [] && FlatSplit([]) == [];
      assert last == Split(bg.value, ';') + [];
      ColorRebuilt(s.(fg := fg), bg.value, 48, []);
    }
    if fg.Some? {
      ColorRebuilt(s, fg.value, 38, last);
      assert (OptColor(fg) + OptColor(bg))[1..] == OptColor(bg);
    } else {
      assert OptColor(fg) + OptColor(bg) == OptColor(bg);
    }
  }

  lemma SgrCodesRebuild(s: Style)
    requires Reachable(s)
    ensures var parts := FlatSplit(SgrCodes(s));
      AllDigitParts(parts) && ApplyParams(CLEAR, parts) == s.(link := None)
  {
    var colors := OptColor(s.fg) + OptColor(s.bg);
    ColorsRebuilt(CLEAR.(flags := s.flags), s.fg, s.bg);
    FlagsRebuilt(s.flags, []);
    assert FlagCodes(s.flags) + [] == FlagCodes(s.flags);
    FlatSplitDigits(FlagCodes(s.flags), colors);
    FlagsRebuilt(s.flags, FlatSplit(colors));
  }

  // ----- the code around it -----

  ghost predicate AllParams(codes: seq<string>) {
    forall i :: 0 <= i < |codes| ==> AllParamChars(codes[i])
  }

  lemma {:induction false} JoinedCodes(codes: seq<string>)
    requires AllParams(codes)
    ensures AllParamChars(Join(codes, ';'))
  {
    if |codes| > 1 {
      JoinedCodes(codes[1..]);
    }
  }

  lemma SgrCodeIsRead(codes: seq<string>)
    requires AllParams(codes)
    ensures IsCode(SgrCode(codes)) && ParseOsc8(SgrCode(codes)) == None
    ensures SgrParams(SgrCode(codes), 0) == Some(Join(codes, ';'))
    ensures SgrCode(codes) != "" && SgrCode(codes)[|SgrCode(codes)| - 1] == 'm'
  {
    JoinedCodes(codes);
    var joined, code := Join(codes, ';'), SgrCode(codes);
    var last := |code| - 1;
    assert code[2..last] == joined && code[last] == 'm' && code[1] == '[';
    assert forall k :: 2 <= k < last ==> code[k] == joined[k - 2];
    assert CsiEnd(code, 2) == Some(|code|);
    assert code[..|code|] == code;
    assert ParamsEnd(code, 2) == last;
  }

  lemma SgrCodesAreParams(s: Style)
    requires Reachable(s)
    ensures AllParams(SgrCodes(s))
  {
    hide Split, Decimal, Digits, ApplyParams;
    FlagsRebuilt(s.flags, []);
    assert FlagCodes(s.flags) + [] == FlagCodes(s.flags);
  }

  ghost predicate AllCodes(line: Line) {
    forall i :: 0 <= i < |line| ==> line[i].Code? && IsCode(line[i].code)
  }

  /** Parameters that reset, processed one by one, clear just as the short cut does. */
  lemma ResetParams(params: string)
    requires params == "" || params == "0"
    ensures Split(params, ';') == [params] && ApplyParams(CLEAR, [params]) == CLEAR
  {
    SplitWithout(params, ';');
    assert params == "0" ==> Digits(params) == Digits(params[..0]) * 10;
    assert [params][1..] == [];
    assert ApplyParams(CLEAR, []) == CLEAR;
  }

  lemma SgrItemRebuilds(s: Style)
    requires Reachable(s) && SgrCodes(s) != []
    ensures Process(CLEAR, SgrCode(SgrCodes(s))) == s.(link := None)
  {
    hide SgrCodes, SgrCode, Join, Split, FlatSplit, ApplyParams, Reachable, ParseOsc8, SgrParams, AllParams;
    var codes := SgrCodes(s);
    SgrCodesAreParams(s);
    SgrCodeIsRead(codes);
    JoinSplitsFlat(codes);
    SgrCodesRebuild(s);
    if Join(codes, ';') == "" || Join(codes, ';') == "0" {
      ResetParams(Join(codes, ';'));
    }
  }

  /** From a cleared style, the active codes of a style put exactly that style in force. */
  lemma ActiveItemsRebuild(s: Style)
    requires Reachable(s)
    ensures AllCodes(ActiveItems(s))
    ensures StyleAfter(CLEAR, ActiveItems(s)) == s
  {
    hide SgrCodes, SgrCode, FormatOsc8, ParseOsc8, SgrParams, IsCode, IsColor, Join;
    SgrCodesAreParams(s);
    SgrCodeIsRead(SgrCodes(s));
    var sgr := if SgrCodes(s) != [] then [Code(SgrCode(SgrCodes(s)))] else [];
    var link := if s.link.Some? then [Code(FormatOsc8(s.link.value))] else [];
    if SgrCodes(s) != [] {
      SgrItemRebuilds(s);
      assert sgr[1..] == [];
    } else {
      SgrCodesRebuild(s);
    }
    assert StyleAfter(CLEAR, sgr) == s.(link := None);
    StyleAfterConcat(CLEAR, sgr, link);
    if s.link.Some? {
      assert link[1..] == [];
    }
  }

  // ----- the same at the level of text -----

  // ----- the end of a line -----

  lemma UnderlineOff(s: Style)
    ensures Process(s, [ESC] + "[24m") == s.(flags := s.flags.(underline := false))
  {
    hide SgrParams, ParseOsc8;
    SgrCodeIsRead(["24"]);
    assert SgrCode(["24"]) == [ESC] + "[24m" && Join(["24"], ';') == "24";
    SplitWithout("24", ';');
    assert ParseInt("24") == Some(24) by {
      assert "24"[..1] == "2" && "2"[..0] == "";
    }
    assert ["24"][1..] == [];
    assert ApplyParams(s, ["24"]) == ApplyParams(ApplyCode(s, 24), []);
  }

  lemma LinkClosed(s: Style)
    requires Reachable(s) && s.link.Some?
    ensures Process(s, FormatOsc8Close(s.link.value.terminator)) == s.(link := None)
  {
    var t := s.link.value.terminator;
    var code := FormatOsc8Close(t);
    assert t == [BEL] || t == ST by {
      hide FormatOsc8, IndexOf;
    }
    assert OSC8 <= code && code[4..|code| - |t|] == ";";
    assert IndexOf(";", ';') == 0;
  }

  /** The codes at the end of a line turn off underline and hyperlink, and change nothing else. */
  lemma LineEndResetCloses(s: Style)
    requires Reachable(s)
    ensures StyleAfter(s, LineEndReset(s)) == s.(flags := s.flags.(underline := false), link := None)
  {
    hide Process, Reachable, FormatOsc8Close;
    var off := if s.flags.underline then [Code([ESC] + "[24m")] else [];
    var close := if s.link.Some? then [Code(FormatOsc8Close(s.link.value.terminator))] else [];
    var plain := s.(flags := s.flags.(underline := false));
    UnderlineOff(s);
    StyleAfterConcat(s, off, close);
    assert StyleAfter(s, off) == plain;
    SameLink(s, plain);
    if s.link.Some? {
      LinkClosed(plain);
    }
  }

  lemma SameLink(s: Style, t: Style)
    requires Reachable(s) && t == s.(flags := t.flags)
    ensures Reachable(t)
  {
  }

  function TextOf(line: Line): string {
    if line == [] then ""
    else (if line[0].Code? then line[0].code else line[0].text) + TextOf(line[1..])
  }

  /** The active codes as the tracker writes them. */
  function ActiveCodes(s: Style): string { TextOf(ActiveItems(s)) }

  /** The style after scanning a text: complete codes are processed, other characters skipped. */
  function ScanText(s: Style, text: string): Style
    decreases |text|
  {
    if text == "" then s
    else
      var code := CodeAtStart(text);
      if code.Some? then ScanText(Process(s, code.value), text[|code.value|..])
      else ScanText(s, text[1..])
  }

  ghost predicate WellFormedItem(item: Item) {
    if item.Code? then IsCode(item.code) else item.text != "" && ESC !in item.text
  }

  /** Items that a text can be read back into: complete codes, and graphemes without ESC. */
  ghost predicate WellFormed(line: Line) {
    forall i :: 0 <= i < |line| ==> WellFormedItem(line[i])
  }

  lemma {:induction false} ScanSkipsPlain(s: Style, plain: string, rest: string)
    requires ESC !in plain
    ensures ScanText(s, plain + rest) == ScanText(s, rest)
    decreases |plain|
  {
    if plain == "" {
      assert plain + rest == rest;
    } else {
      assert (plain + rest)[0] == plain[0] && (plain + rest)[1..] == plain[1..] + rest;
      ScanSkipsPlain(s, plain[1..], rest);
    }
  }

  /** Scanning the text of well-formed items processes exactly their codes. */
  lemma {:induction false} ScanReadsItems(s: Style, line: Line)
    requires WellFormed(line)
    ensures ScanText(s, TextOf(line)) == StyleAfter(s, line)
    decreases |line|
  {
    if line != [] {
      var rest := TextOf(line[1..]);
      if line[0].Code? {
        var c := line[0].code;
        CodeIsRecognised(c, rest);
        assert (c + rest)[|c|..] == rest;
        ScanReadsItems(Process(s, c), line[1..]);
      } else {
        ScanSkipsPlain(s, line[0].text, rest);
        ScanReadsItems(s, line[1..]);
      }
    }
  }

  lemma {:induction false} StyleAfterIsReachable(s: Style, line: Line)
    requires Reachable(s) && WellFormed(line)
    ensures Reachable(StyleAfter(s, line))
    decreases |line|
  {
    if line != [] {
      if line[0].Code? {
        ProcessKeepsReachable(s, line[0].code);
      }
      StyleAfterIsReachable(if line[0].Code? then Process(s, line[0].code) else s, line[1..]);
    }
  }

  // ----- any text at all -----

  lemma ClearIsReachable()
    ensures Reachable(CLEAR)
  {
  }

  lemma {:induction false} CsiEndOfPrefix(s: string, j: nat)
    requires CsiEnd(s, j).Some?
    ensures CsiEnd(s[..CsiEnd(s, j).value], j) == CsiEnd(s, j)
    decreases |s| - j
  {
    if !IsCsiEnd(s[j]) {
      CsiEndOfPrefix(s, j + 1);
    }
  }

  lemma {:induction false} StringEndOfPrefix(s: string, j: nat)
    requires StringEnd(s, j).Some?
    ensures StringEnd(s[..StringEnd(s, j).value], j) == StringEnd(s, j)
    decreases |s| - j
  {
    if s[j] != BEL && !(s[j] == ESC && j + 1 < |s| && s[j + 1] == '\\') {
      StringEndOfPrefix(s, j + 1);
    }
  }

  /** What is extracted from a text is a complete code by itself. */
  lemma ExtractedIsCode(s: string)
    requires CodeAtStart(s).Some?
    ensures IsCode(CodeAtStart(s).value)
  {
    var code := CodeAtStart(s).value;
    if s[1] == '[' {
      CsiEndOfPrefix(s, 2);
    } else {
      StringEndOfPrefix(s, 2);
    }
    assert code[..|code|] == code;
  }

  lemma {:induction false} ScanKeepsReachable(s: Style, text: string)
    requires Reachable(s)
    ensures Reachable(ScanText(s, text))
    decreases |text|
  {
    hide Process, Reachable, CodeAtStart;
    if text != "" {
      var code := CodeAtStart(text);
      if code.Some? {
        ExtractedIsCode(text);
        ProcessKeepsReachable(s, code.value);
        ScanKeepsReachable(Process(s, code.value), text[|code.value|..]);
      } else {
        ScanKeepsReachable(s, text[1..]);
      }
    }
  }

  /** The round trip: the style left by any text, whatever it holds, is rebuilt, from a cleared tracker, by
      scanning the codes the tracker writes for it. */
  lemma ActiveCodesRoundTrip(text: string)
    ensures var s := ScanText(CLEAR, text);
      ScanText(CLEAR, ActiveCodes(s)) == s
  {
    hide Process, Reachable, ScanText, ActiveItems;
    var s := ScanText(CLEAR, text);
    ClearIsReachable();
    ScanKeepsReachable(CLEAR, text);
    ActiveItemsRebuild(s);
    ScanReadsItems(CLEAR, ActiveItems(s));
  }
}
