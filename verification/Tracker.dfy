/** The style in force: SGR attributes, colours and the open hyperlink, as the tracker keeps them. */
module Tracker {
  import opened Text
  import opened Ansi

  datatype Hyperlink = Hyperlink(params: string, url: string, terminator: string)

  datatype Flags = Flags(bold: bool, dim: bool, italic: bool, underline: bool, blink: bool, inverse: bool,
                         hidden: bool, strikethrough: bool)

  datatype Style = Style(flags: Flags, fg: Option<string>, bg: Option<string>, link: Option<Hyperlink>)

  const NO_FLAGS := Flags(false, false, false, false, false, false, false, false)
  const CLEAR := Style(NO_FLAGS, None, None, None)

  /** SGR reset: everything but the hyperlink. */
  function ResetSgr(s: Style): Style { CLEAR.(link := s.link) }

  // ----- OSC 8 -----

  const OSC8: string := [ESC] + "]8;"

  function IndexOf(s: string, c: char): (i: nat)
    ensures i <= |s|
    ensures i < |s| ==> s[i] == c
    ensures c !in s[..i]
  {
    if s == "" || s[0] == c then 0
    else
      var i := 1 + IndexOf(s[1..], c);
      assert s[..i] == [s[0]] + s[1..][..i - 1];
      i
  }

  /** None: not a hyperlink code. Some(None): a closing code. Some(Some(h)): an opening one. */
  function ParseOsc8(code: string): (r: Option<Option<Hyperlink>>) {
    if !(OSC8 <= code) then None
    else
      var terminator := if code[|code| - 1] == BEL then [BEL] else ST;
      var bodyEnd := |code| - |terminator|;
      var body := if bodyEnd < 4 then "" else code[4..bodyEnd];
      var separatorIndex := IndexOf(body, ';');
      if separatorIndex == |body| then None
      else if body[separatorIndex + 1..] == "" then Some(None)
      else Some(Some(Hyperlink(body[..separatorIndex], body[separatorIndex + 1..], terminator)))
  }

  function FormatOsc8(h: Hyperlink): string {
    OSC8 + h.params + ";" + h.url + h.terminator
  }

  function FormatOsc8Close(terminator: string): string {
    OSC8 + ";" + terminator
  }

  // ----- SGR -----

  /** The longest run of digits and semicolons from i. */
  function ParamsEnd(s: string, i: nat): (e: nat)
    requires i <= |s|
    ensures i <= e <= |s|
    ensures forall k :: i <= k < e ==> IsParamChar(s[k])
    ensures e < |s| ==> !IsParamChar(s[e])
    decreases |s| - i
  {
    if i == |s| || !IsParamChar(s[i]) then i else ParamsEnd(s, i + 1)
  }

  /** The parameters of the first SGR sequence found at or after i. */
  function SgrParams(s: string, i: nat): (r: Option<string>)
    requires i <= |s|
    ensures r.Some? ==> AllParamChars(r.value)
    decreases |s| - i
  {
    if i + 2 > |s| then None
    else
      var e := ParamsEnd(s, i + 2);
      if s[i] == ESC && s[i + 1] == '[' && e < |s| && s[e] == 'm' then Some(s[i + 2..e])
      else SgrParams(s, i + 1)
  }

  ghost predicate AllDigitParts(parts: seq<string>) {
    forall i :: 0 <= i < |parts| ==> AllDigits(parts[i])
  }

  predicate IsForeground(code: nat) { 30 <= code <= 37 || 90 <= code <= 97 }
  predicate IsBackground(code: nat) { 40 <= code <= 47 || 100 <= code <= 107 }

  function ApplyFlag(f: Flags, code: nat): Flags {
    Flags(code == 1 || (f.bold && code != 21 && code != 22),
          code == 2 || (f.dim && code != 22),
          code == 3 || (f.italic && code != 23),
          code == 4 || (f.underline && code != 24),
          code == 5 || (f.blink && code != 25),
          code == 7 || (f.inverse && code != 27),
          code == 8 || (f.hidden && code != 28),
          code == 9 || (f.strikethrough && code != 29))
  }

  /** One standard SGR parameter. */
  function ApplyCode(s: Style, code: nat): Style {
    if code == 0 then ResetSgr(s)
    else if code == 39 then s.(fg := None)
    else if code == 49 then s.(bg := None)
    else if IsForeground(code) then s.(fg := Some(Decimal(code)))
    else if IsBackground(code) then s.(bg := Some(Decimal(code)))
    else s.(flags := ApplyFlag(s.flags, code))
  }

  function SetColor(s: Style, code: nat, color: string): Style {
    if code == 38 then s.(fg := Some(color)) else s.(bg := Some(color))
  }

  /** How many parameters an extended colour at the head of the list takes, 0 if there is none. */
  function ColorLength(parts: seq<string>): (n: nat)
    requires AllDigitParts(parts)
    ensures n <= |parts|
    ensures n == 0 || n == 3 || n == 5
  {
    if parts == [] || (ParseInt(parts[0]) != Some(38) && ParseInt(parts[0]) != Some(48)) then 0
    else if |parts| > 2 && parts[1] == "5" then 3
    else if |parts| > 4 && parts[1] == "2" then 5
    else 0
  }

  function ApplyParams(s: Style, parts: seq<string>): Style
    requires AllDigitParts(parts)
    decreases |parts|
  {
    if parts == [] then s
    else
      var code := ParseInt(parts[0]);
      var n := ColorLength(parts);
      if n > 0 then ApplyParams(SetColor(s, code.value, Join(parts[..n], ';')), parts[n..])
      else ApplyParams(if code.Some? then ApplyCode(s, code.value) else s, parts[1..])
  }

  /** The effect of one code on the style. */
  function Process(s: Style, code: string): Style {
    var hyperlink := ParseOsc8(code);
    if hyperlink.Some? then s.(link := hyperlink.value)
    else if code == "" || code[|code| - 1] != 'm' then s
    else
      var params := SgrParams(code, 0);
      if params.None? then s
      else if params.value == "" || params.value == "0" then ResetSgr(s)
      else
        SplitParams(params.value);
        ApplyParams(s, Split(params.value, ';'))
  }

  // ----- writing a style -----

  function Opt(b: bool, part: string): seq<string> { if b then [part] else [] }

  function OptColor(c: Option<string>): seq<string> { if c.Some? then [c.value] else [] }

  function SgrCodes(s: Style): seq<string> {
    FlagCodes(s.flags) + (OptColor(s.fg) + OptColor(s.bg))
  }

  /** The flags as the parameters that set them, in the order they are written. */
  function FlagCodes(f: Flags): seq<string> {
    Opt(f.bold, "1") + (Opt(f.dim, "2") + (Opt(f.italic, "3") + (Opt(f.underline, "4") + LaterFlagCodes(f))))
  }

  function LaterFlagCodes(f: Flags): seq<string> {
    Opt(f.blink, "5") + (Opt(f.inverse, "7") + (Opt(f.hidden, "8") + Opt(f.strikethrough, "9")))
  }

  lemma RightNested(a: seq<string>, b: seq<string>, c: seq<string>, d: seq<string>, rest: seq<string>)
    ensures (a + b + c + d) + rest == a + (b + (c + (d + rest)))
    ensures a + b + c + d == a + (b + (c + d))
  {}

  lemma FlagCodesInHalves(f: Flags)
    ensures FlagCodes(f) == ([] + (Opt(f.bold, "1") + Opt(f.dim, "2") + Opt(f.italic, "3") + Opt(f.underline, "4")))
      + (Opt(f.blink, "5") + Opt(f.inverse, "7") + Opt(f.hidden, "8") + Opt(f.strikethrough, "9"))
  {
    RightNested(Opt(f.bold, "1"), Opt(f.dim, "2"), Opt(f.italic, "3"), Opt(f.underline, "4"), LaterFlagCodes(f));
    RightNested(Opt(f.blink, "5"), Opt(f.inverse, "7"), Opt(f.hidden, "8"), Opt(f.strikethrough, "9"), []);
  }

  function SgrCode(codes: seq<string>): string { [ESC] + "[" + Join(codes, ';') + "m" }

  /** The codes that put the style in force, as items and as text. */
  function ActiveItems(s: Style): Line {
    (if SgrCodes(s) != [] then [Code(SgrCode(SgrCodes(s)))] else [])
    + (if s.link.Some? then [Code(FormatOsc8(s.link.value))] else [])
  }

  function LineEndReset(s: Style): Line {
    (if s.flags.underline then [Code([ESC] + "[24m")] else [])
    + (if s.link.Some? then [Code(FormatOsc8Close(s.link.value.terminator))] else [])
  }

  /** The style after the codes of a line. */
  function StyleAfter(s: Style, line: Line): Style
    decreases |line|
  {
    if line == [] then s
    else StyleAfter(if line[0].Code? then Process(s, line[0].code) else s, line[1..])
  }

  lemma {:induction false} StyleAfterConcat(s: Style, a: Line, b: Line)
    ensures StyleAfter(s, a + b) == StyleAfter(StyleAfter(s, a), b)
    decreases |a|
  {
    if a == [] {
      assert a + b == b;
    } else {
      assert (a + b)[1..] == a[1..] + b;
      StyleAfterConcat(if a[0].Code? then Process(s, a[0].code) else s, a[1..], b);
    }
  }

  // ----- styles that codes can produce -----

  /** A number from lo to hi, written without leading zeros. */
  predicate IsDecimalIn(s: string, lo: nat, hi: nat) {
    AllDigits(s) && lo <= Digits(s) <= hi && s == Decimal(Digits(s))
  }

  /** A colour as the tracker stores it: one standard parameter, or an extended colour. */
  predicate IsColor(s: string, base: nat)
    requires base == 38 || base == 48
  {
    var parts := Split(s, ';');
    && s != "" && AllParamChars(s)
    && (|| (if base == 38 then IsDecimalIn(s, 30, 37) || IsDecimalIn(s, 90, 97)
            else IsDecimalIn(s, 40, 47) || IsDecimalIn(s, 100, 107))
        || (((|parts| == 3 && parts[1] == "5") || (|parts| == 5 && parts[1] == "2"))
            && AllDigits(parts[0]) && ParseInt(parts[0]) == Some(base)))
  }

  /** A hyperlink that some code opens. */
  predicate IsLink(h: Hyperlink) {
    IsCode(FormatOsc8(h)) && ParseOsc8(FormatOsc8(h)) == Some(Some(h))
  }

  predicate Reachable(s: Style) {
    && (s.fg.Some? ==> IsColor(s.fg.value, 38))
    && (s.bg.Some? ==> IsColor(s.bg.value, 48))
    && (s.link.Some? ==> IsLink(s.link.value))
  }

  // ----- codes keep styles reachable -----

  lemma {:induction false} JoinedParams(parts: seq<string>)
    requires AllDigitParts(parts)
    ensures AllParamChars(Join(parts, ';'))
  {
    if |parts| > 1 {
      JoinedParams(parts[1..]);
    }
  }

  lemma ExtendedColorIsColor(parts: seq<string>)
    requires AllDigitParts(parts) && ColorLength(parts) > 0
    ensures IsColor(Join(parts[..ColorLength(parts)], ';'), ParseInt(parts[0]).value)
  {
    var own := parts[..ColorLength(parts)];
    JoinedParams(own);
    assert forall p <- own :: ';' !in p;
    JoinSplits(own, ';');
    assert own[0] == parts[0] && own[1] == parts[1];
    assert Join(own, ';') != "" by { assert own[0] != ""; }
  }

  lemma StandardColorIsColor(code: nat)
    ensures IsForeground(code) ==> IsColor(Decimal(code), 38)
    ensures IsBackground(code) ==> IsColor(Decimal(code), 48)
  {
    DecimalParses(code);
  }

  lemma ColorKeepsReachable(s: Style, parts: seq<string>, r: Style)
    requires Reachable(s) && AllDigitParts(parts) && ColorLength(parts) > 0
    requires r == SetColor(s, ParseInt(parts[0]).value, Join(parts[..ColorLength(parts)], ';'))
    ensures Reachable(r)
  {
    ExtendedColorIsColor(parts);
  }

  /** A standard parameter leaves the colours alone, drops one, or sets one of the right kind. */
  lemma ApplyCodeColors(s: Style, code: nat, r: Style)
    requires r == ApplyCode(s, code)
    ensures r.link == s.link
    ensures r.fg == s.fg || r.fg == None || (IsForeground(code) && r.fg == Some(Decimal(code)))
    ensures r.bg == s.bg || r.bg == None || (IsBackground(code) && r.bg == Some(Decimal(code)))
  {}

  lemma ApplyCodeKeepsReachable(s: Style, code: nat, r: Style)
    requires Reachable(s) && r == ApplyCode(s, code)
    ensures Reachable(r)
  {
    ApplyCodeColors(s, code, r);
    StandardColorIsColor(code);
  }

  lemma {:induction false} ApplyParamsKeepsReachable(s: Style, parts: seq<string>)
    requires Reachable(s) && AllDigitParts(parts)
    ensures Reachable(ApplyParams(s, parts))
    decreases |parts|
  {
    if parts != [] {
      var code, n := ParseInt(parts[0]), ColorLength(parts);
      var s' := if n > 0 then SetColor(s, code.value, Join(parts[..n], ';'))
                else if code.Some? then ApplyCode(s, code.value) else s;
      assert Reachable(s') by {
        if n > 0 {
          ColorKeepsReachable(s, parts, s');
        } else if code.Some? {
          ApplyCodeKeepsReachable(s, code.value, s');
        }
      }
      ApplyParamsKeepsReachable(s', if n > 0 then parts[n..] else parts[1..]);
    }
  }

  /** A complete OSC 8 code closes with BEL or ST, and the body lies between. */
  lemma Osc8Shape(code: string)
    requires IsCode(code) && OSC8 <= code
    ensures var terminator := if code[|code| - 1] == BEL then [BEL] else ST;
      |code| >= 4 + |terminator| && code[|code| - |terminator|..] == terminator
  {
    assert code[2] == '8' && code[3] == ';';
    assert StringEnd(code, 2) == StringEnd(code, 3) == StringEnd(code, 4);
    StringEndPrefix(code, "", 4);
  }

  lemma FormatBody(code: string, terminator: string, body: string, i: nat)
    requires OSC8 <= code && code == OSC8 + body + terminator
    requires i < |body| && body[i] == ';'
    ensures FormatOsc8(Hyperlink(body[..i], body[i + 1..], terminator)) == code
  {
    assert body == body[..i] + ";" + body[i + 1..];
    calc {
      OSC8 + body[..i] + ";" + body[i + 1..] + terminator;
      OSC8 + (body[..i] + ";" + body[i + 1..]) + terminator;
      OSC8 + body + terminator;
    }
  }

  /** Writing back a parsed hyperlink gives the very code it came from. */
  lemma FormatUndoesParse(code: string)
    requires IsCode(code) && ParseOsc8(code).Some? && ParseOsc8(code).value.Some?
    ensures FormatOsc8(ParseOsc8(code).value.value) == code
  {
    Osc8Shape(code);
    var terminator := if code[|code| - 1] == BEL then [BEL] else ST;
    var bodyEnd := |code| - |terminator|;
    var body := code[4..bodyEnd];
    assert code == OSC8 + body + terminator by {
      assert code == code[..4] + code[4..bodyEnd] + code[bodyEnd..];
    }
    FormatBody(code, terminator, body, IndexOf(body, ';'));
  }

  lemma ProcessKeepsReachable(s: Style, code: string)
    requires Reachable(s) && IsCode(code)
    ensures Reachable(Process(s, code))
  {
    var hyperlink := ParseOsc8(code);
    if hyperlink.Some? {
      if hyperlink.value.Some? {
        FormatUndoesParse(code);
      }
    } else {
      var params := SgrParams(code, 0);
      if params.Some? {
        SplitParams(params.value);
        ApplyParamsKeepsReachable(s, Split(params.value, ';'));
      }
    }
  }
}
