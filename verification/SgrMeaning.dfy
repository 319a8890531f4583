/** What the codes of a text mean for a style, attribute by attribute: ECMA-48 8.3.117 and OSC 8. */
module SgrMeaning {
  import opened Text
  import opened Ansi
  import opened Tracker

  // ----- parameters -----

  /** One instruction of a parameter list: a number, a colour of several parameters (`text` is how it was written), or
      an empty parameter. */
  datatype Param = Number(n: nat) | Color(foreground: bool, text: string) | Empty

  function Parsed(parts: seq<string>): seq<Param>
    requires AllDigitParts(parts)
    decreases |parts|
  {
    if parts == [] then []
    else if parts[0] == "" then [Empty] + Parsed(parts[1..])
    else
      var n := Digits(parts[0]);
      if (n == 38 || n == 48) && |parts| >= 3 && parts[1] == "5" then
        [Color(n == 38, parts[0] + ";5;" + parts[2])] + Parsed(parts[3..])
      else if (n == 38 || n == 48) && |parts| >= 5 && parts[1] == "2" then
        [Color(n == 38, parts[0] + ";2;" + parts[2] + ";" + parts[3] + ";" + parts[4])] + Parsed(parts[5..])
      else [Number(n)] + Parsed(parts[1..])
  }

  // ----- attributes -----

  datatype Attribute = Bold | Dim | Italic | Underline | Blink | Inverse | Hidden | Strikethrough

  function Get(f: Flags, a: Attribute): bool {
    match a
    case Bold => f.bold
    case Dim => f.dim
    case Italic => f.italic
    case Underline => f.underline
    case Blink => f.blink
    case Inverse => f.inverse
    case Hidden => f.hidden
    case Strikethrough => f.strikethrough
  }

  /** The parameter that turns an attribute on, and those that turn it off. */
  function OnCode(a: Attribute): nat {
    match a
    case Bold => 1
    case Dim => 2
    case Italic => 3
    case Underline => 4
    case Blink => 5
    case Inverse => 7
    case Hidden => 8
    case Strikethrough => 9
  }

  function OffCodes(a: Attribute): set<nat> {
    match a
    case Bold => {0, 21, 22}
    case Dim => {0, 22}
    case Italic => {0, 23}
    case Underline => {0, 24}
    case Blink => {0, 25}
    case Inverse => {0, 27}
    case Hidden => {0, 28}
    case Strikethrough => {0, 29}
  }

  /** The last parameter about an attribute decides it. */
  function FlagValue(params: seq<Param>, a: Attribute, before: bool): bool {
    if params == [] then before
    else
      var last := params[|params| - 1];
      if last == Number(OnCode(a)) then true
      else if last.Number? && last.n in OffCodes(a) then false
      else FlagValue(params[..|params| - 1], a, before)
  }

  /** And the last one about a colour: 0 and the default, a standard or bright colour, or a colour of several
      parameters. */
  function ColorValue(params: seq<Param>, foreground: bool, before: Option<string>): Option<string> {
    if params == [] then before
    else
      var first := if foreground then 30 else 40;
      match params[|params| - 1]
      case Number(n) =>
        if n == 0 || n == first + 9 then None
        else if first <= n <= first + 7 || first + 60 <= n <= first + 67 then Some(Decimal(n))
        else ColorValue(params[..|params| - 1], foreground, before)
      case Color(ground, text) =>
        if ground == foreground then Some(text) else ColorValue(params[..|params| - 1], foreground, before)
      case Empty => ColorValue(params[..|params| - 1], foreground, before)
  }

  /** The style r is what the parameters make of s. */
  ghost predicate Means(params: seq<Param>, s: Style, r: Style) {
    && (forall a :: Get(r.flags, a) == FlagValue(params, a, Get(s.flags, a)))
    && r.fg == ColorValue(params, true, s.fg)
    && r.bg == ColorValue(params, false, s.bg)
    && r.link == s.link
  }

  lemma {:induction false} FlagCons(p: Param, rest: seq<Param>, a: Attribute, before: bool)
    ensures FlagValue([p] + rest, a, before) == FlagValue(rest, a, FlagValue([p], a, before))
    decreases |rest|
  {
    if rest == [] {
      assert [p] + rest == [p];
    } else {
      assert ([p] + rest)[..|rest|] == [p] + rest[..|rest| - 1];
      FlagCons(p, rest[..|rest| - 1], a, before);
    }
  }

  lemma {:induction false} ColorCons(p: Param, rest: seq<Param>, foreground: bool, before: Option<string>)
    ensures ColorValue([p] + rest, foreground, before)
              == ColorValue(rest, foreground, ColorValue([p], foreground, before))
    decreases |rest|
  {
    hide Decimal;
    if rest == [] {
      assert [p] + rest == [p];
    } else {
      assert ([p] + rest)[..|rest|] == [p] + rest[..|rest| - 1];
      ColorCons(p, rest[..|rest| - 1], foreground, before);
    }
  }

  lemma MeansCons(p: Param, rest: seq<Param>, s: Style, mid: Style, r: Style)
    requires Means([p], s, mid) && Means(rest, mid, r)
    ensures Means([p] + rest, s, r)
  {
    hide FlagValue, ColorValue;
    forall a
      ensures Get(r.flags, a) == FlagValue([p] + rest, a, Get(s.flags, a))
    {
      FlagCons(p, rest, a, Get(s.flags, a));
    }
    ColorCons(p, rest, true, s.fg);
    ColorCons(p, rest, false, s.bg);
  }

  lemma OneNumber(s: Style, n: nat)
    ensures Means([Number(n)], s, ApplyCode(s, n))
  {
    hide ApplyCode, Decimal, FlagValue, ColorValue;
    forall a
      ensures Get(ApplyCode(s, n).flags, a) == FlagValue([Number(n)], a, Get(s.flags, a))
    {
      OneFlagCode(s, n, a);
      OneValue(n, a, Get(s.flags, a), s.fg);
    }
    OneValue(n, Bold, false, s.fg);
    OneValue(n, Bold, false, s.bg);
    OneColorCode(s, n);
  }

  lemma OneValue(n: nat, a: Attribute, flag: bool, color: Option<string>)
    ensures FlagValue([Number(n)], a, flag) == if n == OnCode(a) then true else if n in OffCodes(a) then false else flag
    ensures ColorValue([Number(n)], true, color) ==
            if n == 0 || n == 39 then None else if 30 <= n <= 37 || 90 <= n <= 97 then Some(Decimal(n)) else color
    ensures ColorValue([Number(n)], false, color) ==
            if n == 0 || n == 49 then None else if 40 <= n <= 47 || 100 <= n <= 107 then Some(Decimal(n)) else color
  {
    hide Decimal, OnCode, OffCodes;
    var one := [Number(n)];
    assert one[..|one| - 1] == [];
  }

  lemma OneColorCode(s: Style, n: nat)
    ensures ApplyCode(s, n).fg ==
            if n == 0 || n == 39 then None else if 30 <= n <= 37 || 90 <= n <= 97 then Some(Decimal(n)) else s.fg
    ensures ApplyCode(s, n).bg ==
            if n == 0 || n == 49 then None else if 40 <= n <= 47 || 100 <= n <= 107 then Some(Decimal(n)) else s.bg
    ensures ApplyCode(s, n).link == s.link
  {
    hide Decimal;
  }

  lemma OneFlagCode(s: Style, n: nat, a: Attribute)
    ensures Get(ApplyCode(s, n).flags, a) ==
            if n == OnCode(a) then true else if n in OffCodes(a) then false else Get(s.flags, a)
  {
    hide Decimal, ApplyFlag;
    assert ApplyCode(s, n).flags ==
           if n == 0 then NO_FLAGS
           else if n == 39 || n == 49 || IsForeground(n) || IsBackground(n) then s.flags
           else ApplyFlag(s.flags, n);
    FlagsSet(s.flags, n);
    LaterFlagsSet(s.flags, n);
    if n == 0 || n >= 30 {
      NoFlagOtherwise(s.flags, n);
    }
  }

  lemma FlagsSet(f: Flags, n: nat)
    ensures var g := ApplyFlag(f, n);
      && g.bold == (if n == 1 then true else if n == 21 || n == 22 then false else f.bold)
      && g.dim == (if n == 2 then true else if n == 22 then false else f.dim)
      && g.italic == (if n == 3 then true else if n == 23 then false else f.italic)
      && g.underline == (if n == 4 then true else if n == 24 then false else f.underline)
  {
  }

  lemma LaterFlagsSet(f: Flags, n: nat)
    ensures var g := ApplyFlag(f, n);
      && g.blink == (if n == 5 then true else if n == 25 then false else f.blink)
      && g.inverse == (if n == 7 then true else if n == 27 then false else f.inverse)
      && g.hidden == (if n == 8 then true else if n == 28 then false else f.hidden)
      && g.strikethrough == (if n == 9 then true else if n == 29 then false else f.strikethrough)
  {
  }

  lemma NoFlagOtherwise(f: Flags, n: nat)
    requires n == 0 || n >= 30
    ensures ApplyFlag(f, n) == f
  {
  }

  lemma JoinedColor(parts: seq<string>)
    ensures |parts| >= 3 && parts[1] == "5" ==> Join(parts[..3], ';') == parts[0] + ";5;" + parts[2]
    ensures |parts| >= 5 && parts[1] == "2" ==>
              Join(parts[..5], ';') == parts[0] + ";2;" + parts[2] + ";" + parts[3] + ";" + parts[4]
  {
    hide Join;
    if |parts| >= 3 && parts[1] == "5" {
      assert parts[..3] == [parts[0], "5", parts[2]];
      JoinThree(parts[0], "5", parts[2]);
      assert parts[0] + (";" + "5" + ";") + parts[2] == parts[0] + ";5;" + parts[2];
    }
    if |parts| >= 5 && parts[1] == "2" {
      assert parts[..5] == [parts[0], "2", parts[2], parts[3], parts[4]];
      JoinFive(parts[0], "2", parts[2], parts[3], parts[4]);
      assert parts[0] + (";" + "2" + ";") + parts[2] == parts[0] + ";2;" + parts[2];
    }
  }

  lemma JoinThree(a: string, b: string, c: string)
    ensures Join([a, b, c], ';') == a + (";" + b + ";") + c
  {
    assert [a, b, c][1..] == [b, c] && [b, c][1..] == [c];
    assert Join([b, c], ';') == b + [';'] + c;
    assert a + [';'] + (b + [';'] + c) == a + (";" + b + ";") + c;
  }

  lemma JoinFive(a: string, b: string, c: string, d: string, e: string)
    ensures Join([a, b, c, d, e], ';') == a + (";" + b + ";") + c + ";" + d + ";" + e
  {
    assert [a, b, c, d, e][1..] == [b, c, d, e] && [b, c, d, e][1..] == [c, d, e];
    JoinThree(c, d, e);
    assert Join([b, c, d, e], ';') == b + [';'] + Join([c, d, e], ';');
    assert a + [';'] + (b + [';'] + (c + (";" + d + ";") + e)) == a + (";" + b + ";") + c + ";" + d + ";" + e;
  }

  lemma OneColor(s: Style, n: nat, text: string)
    requires n == 38 || n == 48
    ensures Means([Color(n == 38, text)], s, SetColor(s, n, text))
  {
    var one := [Color(n == 38, text)];
    assert one[..|one| - 1] == [];
    forall a
      ensures FlagValue(one, a, Get(s.flags, a)) == Get(s.flags, a)
    {
    }
  }

  /** Whatever the list: the last parameter about an attribute or a colour, a reset included, decides it, and the
      hyperlink stays. */
  lemma {:induction false} LastParameterDecides(s: Style, parts: seq<string>)
    requires AllDigitParts(parts)
    ensures Means(Parsed(parts), s, ApplyParams(s, parts))
    decreases |parts|
  {
    hide Means, ApplyCode, SetColor, Decimal, Digits, Join;
    if parts == [] {
      NothingMeans(s);
    } else if ColorLength(parts) > 0 {
      var n := ColorLength(parts);
      var code := ParseInt(parts[0]).value;
      var text := Join(parts[..n], ';');
      JoinedColor(parts);
      OneColor(s, code, text);
      var mid := SetColor(s, code, text);
      LastParameterDecides(mid, parts[n..]);
      MeansCons(Color(code == 38, text), Parsed(parts[n..]), s, mid, ApplyParams(s, parts));
    } else if parts[0] == "" {
      EmptyMeans(s);
      LastParameterDecides(s, parts[1..]);
      MeansCons(Empty, Parsed(parts[1..]), s, s, ApplyParams(s, parts));
    } else {
      var n := Digits(parts[0]);
      OneNumber(s, n);
      LastParameterDecides(ApplyCode(s, n), parts[1..]);
      MeansCons(Number(n), Parsed(parts[1..]), s, ApplyCode(s, n), ApplyParams(s, parts));
    }
  }

  lemma NothingMeans(s: Style)
    ensures Means([], s, s)
  {
  }

  lemma EmptyMeans(s: Style)
    ensures Means([Empty], s, s)
  {
    var one := [Empty];
    assert one[..|one| - 1] == [];
    forall a
      ensures FlagValue(one, a, Get(s.flags, a)) == Get(s.flags, a)
    {
    }
  }

  // ----- codes -----

  /** The instructions of an SGR code; without parameters it is a reset. */
  function Instructions(params: string): seq<Param>
    requires AllParamChars(params)
  {
    SplitParams(params);
    if params == "" then [Number(0)] else Parsed(Split(params, ';'))
  }

  lemma SgrIsFound(params: string)
    requires AllParamChars(params)
    ensures var code := [ESC] + "[" + params + "m";
      ParseOsc8(code) == None && SgrParams(code, 0) == Some(params) && code[|code| - 1] == 'm'
  {
    var code := [ESC] + "[" + params + "m";
    var last := |code| - 1;
    assert code[2..last] == params && code[last] == 'm' && code[1] == '[' && code[0] == ESC;
    assert forall k :: 2 <= k < last ==> code[k] == params[k - 2];
    RunOfParams(code, 2, last);
  }

  lemma {:induction false} RunOfParams(s: string, i: nat, e: nat)
    requires i <= e < |s| && (forall k :: i <= k < e ==> IsParamChar(s[k])) && !IsParamChar(s[e])
    ensures ParamsEnd(s, i) == e
    decreases e - i
  {
    if i < e {
      RunOfParams(s, i + 1, e);
    }
  }

  /** The effect of every SGR code on every style. */
  lemma SgrCodeMeans(s: Style, params: string)
    requires AllParamChars(params)
    ensures Means(Instructions(params), s, Process(s, [ESC] + "[" + params + "m"))
  {
    hide Means, ApplyParams, Parsed, ParseOsc8, SgrParams, Split, Decimal, Digits;
    SgrIsFound(params);
    SplitParams(params);
    if params == "" || params == "0" {
      ResetMeans(s);
      ZeroIsOneNumber();
    } else {
      LastParameterDecides(s, Split(params, ';'));
    }
  }

  lemma ResetMeans(s: Style)
    ensures Means([Number(0)], s, ResetSgr(s))
  {
    var one := [Number(0)];
    assert one[..|one| - 1] == [];
    forall a
      ensures !FlagValue(one, a, Get(s.flags, a)) && !Get(ResetSgr(s).flags, a)
    {
    }
  }

  lemma ZeroIsOneNumber()
    ensures Split("0", ';') == ["0"] && AllDigitParts(["0"]) && Parsed(["0"]) == [Number(0)]
  {
    SplitWithout("0", ';');
    assert "0"[..0] == "" && Digits("0") == 0;
    assert ["0"][1..] == [];
  }

  /** A hyperlink code opens its link, or closes the link when it has no address; nothing else changes. */
  lemma LinkCodeMeans(s: Style, params: string, url: string, terminator: string)
    requires ';' !in params && (terminator == [BEL] || terminator == [ESC, '\\'])
    ensures Process(s, [ESC] + "]8;" + params + ";" + url + terminator) ==
            s.(link := if url == "" then None else Some(Hyperlink(params, url, terminator)))
  {
    var body := params + ";" + url;
    assert [ESC] + "]8;" + params + ";" + url + terminator == OSC8 + body + terminator;
    SeparatorAt(body, |params|);
    assert body[..|params|] == params && body[|params| + 1..] == url;
    LinkBodyIsRead(body, terminator);
  }

  lemma LinkBodyIsRead(body: string, terminator: string)
    requires terminator == [BEL] || terminator == [ESC, '\\']
    requires IndexOf(body, ';') < |body|
    ensures var i := IndexOf(body, ';');
      ParseOsc8(OSC8 + body + terminator) ==
      Some(if body[i + 1..] == "" then None else Some(Hyperlink(body[..i], body[i + 1..], terminator)))
  {
    hide IndexOf;
    BodyBetween(body, terminator);
  }

  lemma BodyBetween(body: string, terminator: string)
    requires terminator == [BEL] || terminator == [ESC, '\\']
    ensures var code := OSC8 + body + terminator;
      && OSC8 <= code && |code| == 4 + |body| + |terminator| && code[4..|code| - |terminator|] == body
      && code[|code| - 1] == terminator[|terminator| - 1] && code[|code| - |terminator|..] == terminator
  {
  }

  lemma {:induction false} SeparatorAt(s: string, i: nat)
    requires i < |s| && s[i] == ';' && ';' !in s[..i]
    ensures IndexOf(s, ';') == i
    decreases i
  {
    if i > 0 {
      assert s[..i][0] == s[0] && s[1..][..i - 1] == s[..i][1..];
      SeparatorAt(s[1..], i - 1);
    }
  }

  /** Codes that neither end in m nor open a hyperlink change nothing. */
  lemma OtherCodesChangeNothing(s: Style, code: string)
    requires code == "" || code[|code| - 1] != 'm'
    requires !([ESC] + "]8;" <= code)
    ensures Process(s, code) == s
  {
  }

  // ----- what a caller relies on -----

  /** Leaving the default colours, and turning off each attribute by itself. */
  lemma DefaultsAndOffs(s: Style)
    ensures Process(s, [ESC] + "[39m") == s.(fg := None) && Process(s, [ESC] + "[49m") == s.(bg := None)
    ensures Process(s, [ESC] + "[22m") == s.(flags := s.flags.(bold := false, dim := false))
    ensures Process(s, [ESC] + "[23m") == s.(flags := s.flags.(italic := false))
    ensures Process(s, [ESC] + "[24m") == s.(flags := s.flags.(underline := false))
    ensures Process(s, [ESC] + "[27m") == s.(flags := s.flags.(inverse := false))
    ensures Process(s, [ESC] + "[29m") == s.(flags := s.flags.(strikethrough := false))
  {
    hide Process, Means, ApplyFlag, Digits;
    TwoDigits();
    OffFlags(s.flags);
    assert ([ESC] + "[") + "39" + "m" == [ESC] + "[39m" && ([ESC] + "[") + "49" + "m" == [ESC] + "[49m";
    assert ([ESC] + "[") + "22" + "m" == [ESC] + "[22m" && ([ESC] + "[") + "23" + "m" == [ESC] + "[23m";
    assert ([ESC] + "[") + "24" + "m" == [ESC] + "[24m" && ([ESC] + "[") + "27" + "m" == [ESC] + "[27m";
    assert ([ESC] + "[") + "29" + "m" == [ESC] + "[29m";
    OneParameter(s, "39");
    OneParameter(s, "49");
    OneParameter(s, "22");
    OneParameter(s, "23");
    OneParameter(s, "24");
    OneParameter(s, "27");
    OneParameter(s, "29");
  }

  lemma OffFlags(f: Flags)
    ensures ApplyFlag(f, 22) == f.(bold := false, dim := false) && ApplyFlag(f, 23) == f.(italic := false)
    ensures ApplyFlag(f, 24) == f.(underline := false) && ApplyFlag(f, 27) == f.(inverse := false)
    ensures ApplyFlag(f, 29) == f.(strikethrough := false)
  {
  }

  lemma TwoDigits()
    ensures Digits("39") == 39 && Digits("49") == 49 && Digits("22") == 22 && Digits("23") == 23 && Digits("24") == 24
    ensures Digits("27") == 27 && Digits("29") == 29
  {
    assert "39"[..1] == "3" && "49"[..1] == "4" && "3"[..0] == "" && "4"[..0] == "" && "2"[..0] == "";
    assert "22"[..1] == "2" && "23"[..1] == "2" && "24"[..1] == "2" && "27"[..1] == "2" && "29"[..1] == "2";
  }

  lemma OneParameter(s: Style, digits: string)
    requires digits != "" && AllDigits(digits) && 0 < Digits(digits)
    requires Digits(digits) != 38 && Digits(digits) != 48
    ensures Process(s, [ESC] + "[" + digits + "m") == ApplyCode(s, Digits(digits))
  {
    hide ApplyCode, ParseOsc8, SgrParams, Digits;
    SgrIsFound(digits);
    assert ';' !in digits;
    SplitWithout(digits, ';');
    ZeroDigits();
    assert AllParamChars(digits);
    assert [digits][1..] == [];
    assert ApplyParams(s, [digits]) == ApplyParams(ApplyCode(s, Digits(digits)), []);
  }

  lemma ZeroDigits()
    ensures Digits("0") == 0
  {
    assert "0"[..0] == "";
  }
}
