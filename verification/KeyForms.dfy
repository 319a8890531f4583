/** The forms in which keys arrive: reports written field by field, and the raw characters of older terminals. */
module KeyForms {
  import opened Text
  import opened Ansi
  import opened Keys

  // ----- reports -----

  function Optional(n: Option<nat>): seq<string> {
    if n.Some? then [Decimal(n.value)] else []
  }

  /** The first field of a CSI u report: the code, the shifted key, possibly empty, and the base-layout key. */
  function HeadOf(code: nat, shifted: Option<nat>, base: Option<nat>): seq<string> {
    if base.None? then [Decimal(code)] + Optional(shifted)
    else [Decimal(code), if shifted.Some? then Decimal(shifted.value) else "", Decimal(base.value)]
  }

  /** The last field of a report: the modifiers plus one, and the kind of event. */
  function TailOf(modifier: nat, event: Option<nat>): seq<string> {
    [Decimal(modifier)] + Optional(event)
  }

  function CsiUReport(code: nat, shifted: Option<nat>, base: Option<nat>, modifier: nat, event: Option<nat>): string {
    [ESC] + "[" + (Join(HeadOf(code, shifted, base), ':') + ";" + Join(TailOf(modifier, event), ':')) + "u"
  }

  function LetteredReport(letter: char, modifier: nat, event: Option<nat>): string {
    [ESC] + "[1;" + Join(TailOf(modifier, event), ':') + [letter]
  }

  function NumberedReport(n: nat, modifier: nat, event: Option<nat>): string {
    [ESC] + "[" + (Decimal(n) + ";" + Join(TailOf(modifier, event), ':')) + "~"
  }

  /** The kinds of event: 2 repeats, 3 releases, and anything else presses. */
  function KindOf(event: Option<nat>): EventType {
    if event == Some(2) then Repeat else if event == Some(3) then Release else Press
  }

  lemma {:induction false} JoinHasNo(parts: seq<string>, sep: char, c: char)
    requires c != sep && forall p <- parts :: c !in p
    ensures c !in Join(parts, sep)
  {
    if c in Join(parts, sep) {
      JoinClean(parts, sep, c);
    }
  }

  lemma DigitsHaveNo(n: nat, c: char)
    requires !IsDigit(c)
    ensures c !in Decimal(n) && IsNumber(Decimal(n)) && Digits(Decimal(n)) == n
  {
    DecimalIsNumber(n, c);
  }

  lemma TailReads(modifier: nat, event: Option<nat>)
    ensures var tail := TailOf(modifier, event);
      && IsTail(tail) && Split(Join(tail, ':'), ':') == tail && ';' !in Join(tail, ':')
      && Digits(tail[0]) == modifier && (|tail| > 1 ==> IsNumber(tail[1]))
      && (|tail| > 1 <==> event.Some?) && (event.Some? ==> Digits(tail[1]) == event.value)
      && ParseEventType(if |tail| > 1 then Some(tail[1]) else None) == KindOf(event)
  {
    hide Split, Join, Decimal, Digits;
    var tail := TailOf(modifier, event);
    DigitsHaveNo(modifier, ':');
    DigitsHaveNo(modifier, ';');
    if event.Some? {
      DigitsHaveNo(event.value, ':');
      DigitsHaveNo(event.value, ';');
    }
    JoinSplits(tail, ':');
    JoinHasNo(tail, ':', ';');
  }

  lemma HeadReads(code: nat, shifted: Option<nat>, base: Option<nat>, modifier: nat, event: Option<string>)
    requires event.Some? ==> IsNumber(event.value)
    ensures var head := HeadOf(code, shifted, base);
      && IsHead(head) && Split(Join(head, ':'), ':') == head && ';' !in Join(head, ':')
      && Report(head, modifier, event) == KittyReport(code, shifted, base, modifier - 1, ParseEventType(event))
  {
    hide Split, Join, Decimal, Digits;
    var head := HeadOf(code, shifted, base);
    DigitsHaveNo(code, ':');
    DigitsHaveNo(code, ';');
    if shifted.Some? {
      DigitsHaveNo(shifted.value, ':');
      DigitsHaveNo(shifted.value, ';');
    }
    if base.Some? {
      DigitsHaveNo(base.value, ':');
      DigitsHaveNo(base.value, ';');
    }
    JoinSplits(head, ':');
    JoinHasNo(head, ':', ';');
  }

  lemma TwoParts(a: string, b: string)
    requires ';' !in a && ';' !in b
    ensures Split(a + ";" + b, ';') == [a, b]
  {
    SplitAtSeparator(a, b, ';');
    SplitWithout(a, ';');
    SplitWithout(b, ';');
  }

  /** A CSI u report is read field by field. */
  lemma CsiUIsRead(code: nat, shifted: Option<nat>, base: Option<nat>, modifier: nat, event: Option<nat>)
    ensures ParseKitty(CsiUReport(code, shifted, base, modifier, event))
              == Some(KittyReport(code, shifted, base, modifier - 1, KindOf(event)))
  {
    hide Split, Join, Decimal, Digits, IsHead, IsTail, HeadOf, TailOf, Report, ParseEventType, ParseLettered,
         ParseFunctional;
    var data := CsiUReport(code, shifted, base, modifier, event);
    var head, tail := HeadOf(code, shifted, base), TailOf(modifier, event);
    TailReads(modifier, event);
    HeadReads(code, shifted, base, modifier, if |tail| > 1 then Some(tail[1]) else None);
    TwoParts(Join(head, ':'), Join(tail, ':'));
    assert data[2..|data| - 1] == Join(head, ':') + ";" + Join(tail, ':');
    assert data[..2] == [ESC, '['] && data[|data| - 1] == 'u';
  }

  /** The cursor keys with modifiers. */
  lemma LetteredIsRead(letter: char, modifier: nat, event: Option<nat>)
    requires letter != 'u' && letter != '~'
    ensures var p := ParseKitty(LetteredReport(letter, modifier, event));
      && (p.Some? <==> letter in "ABCDHF")
      && (p.Some? ==>
            && p.value == KittyReport(p.value.codepoint, None, None, modifier - 1, KindOf(event))
            && KeyName(p.value.codepoint) ==
               Some(if letter == 'A' then "up" else if letter == 'B' then "down" else if letter == 'C' then "right"
                    else if letter == 'D' then "left" else if letter == 'H' then "home" else "end"))
  {
    hide Split, Join, Decimal, Digits, TailOf, ParseEventType, IsTail, KindOf;
    var data := LetteredReport(letter, modifier, event);
    var tail := TailOf(modifier, event);
    TailReads(modifier, event);
    TailIsLong(modifier, event);
    assert data[4..|data| - 1] == Join(tail, ':');
    assert data[..4] == [ESC, '[', '1', ';'] && data[|data| - 1] == letter;
  }

  lemma TailIsLong(modifier: nat, event: Option<nat>)
    ensures |Join(TailOf(modifier, event), ':')| > 0
  {
    hide Decimal;
  }

  /** The editing keys. */
  lemma NumberedIsRead(n: nat, modifier: nat, event: Option<nat>)
    ensures var p := ParseKitty(NumberedReport(n, modifier, event));
      && (p.Some? <==> n in {2, 3, 5, 6, 7, 8})
      && (p.Some? ==>
            && p.value == KittyReport(p.value.codepoint, None, None, modifier - 1, KindOf(event))
            && KeyName(p.value.codepoint) ==
               Some(if n == 2 then "insert" else if n == 3 then "delete" else if n == 5 then "pageUp"
                    else if n == 6 then "pageDown" else if n == 7 then "home" else "end"))
  {
    hide Split, Join, Decimal, Digits, TailOf, ParseEventType, IsTail, KindOf, ParseCsiU, ParseLettered;
    var data := NumberedReport(n, modifier, event);
    var tail := TailOf(modifier, event);
    TailReads(modifier, event);
    DigitsHaveNo(n, ';');
    TwoParts(Decimal(n), Join(tail, ':'));
    assert data[2..|data| - 1] == Decimal(n) + ";" + Join(tail, ':');
    assert data[..2] == [ESC, '['] && data[|data| - 1] == '~';
    NotLettered(data);
  }

  lemma NotLettered(data: string)
    requires |data| > 2 && data[|data| - 1] == '~'
    ensures ParseCsiU(data).None? && ParseLettered(data).None?
  {
  }

  // ----- names -----

  lemma FormatsAs(key: string, modifier: int, m: nat, names: seq<string>)
    requires Unlocked(modifier) == m < 16 && ModifierNames(m) == names
    ensures FormatWithModifiers(key, modifier) == Some(Join(names + [key], '+'))
  {
  }

  lemma Joined(first: string, rest: seq<string>)
    requires rest != []
    ensures Join([first] + rest, '+') == first + "+" + Join(rest, '+')
  {
    assert ([first] + rest)[1..] == rest;
  }

  lemma Alone(key: string)
    ensures Join([key], '+') == Join([] + [key], '+') == key
  {
    assert [] + [key] == [key];
  }

  /** A modifier by its bit. */
  lemma IdsByModifier(key: string)
    ensures FormatWithModifiers(key, 1) == Some("shift" + "+" + key)
    ensures FormatWithModifiers(key, 2) == Some("alt" + "+" + key)
    ensures FormatWithModifiers(key, 4) == Some("ctrl" + "+" + key)
    ensures FormatWithModifiers(key, 8) == Some("super" + "+" + key)
  {
    hide Join, FormatWithModifiers;
    Alone(key);
    Joined("shift", [key]);
    Joined("alt", [key]);
    Joined("ctrl", [key]);
    Joined("super", [key]);
    FormatsAs(key, 1, 1, ["shift"]);
    FormatsAs(key, 2, 2, ["alt"]);
    FormatsAs(key, 4, 4, ["ctrl"]);
    FormatsAs(key, 8, 8, ["super"]);
  }

  /** All four, in the order in which an id lists them. */
  lemma IdOfAll(key: string)
    ensures FormatWithModifiers(key, 15) == Some("shift" + "+" + ("ctrl" + "+" + ("alt" + "+" + ("super" + "+" + key))))
  {
    hide Join, FormatWithModifiers;
    var r1, r2, r3 := ["super"] + [key], ["alt"] + (["super"] + [key]), ["ctrl"] + (["alt"] + (["super"] + [key]));
    var names := ["shift", "ctrl", "alt", "super"];
    Alone(key);
    Joined("super", [key]);
    Joined("alt", r1);
    Joined("ctrl", r2);
    Joined("shift", r3);
    FormatsAs(key, 15, 15, names);
    assert names + [key] == ["shift"] + r3;
  }

  /** The lock keys count for nothing, and other modifiers have no id. */
  lemma IdsOfOtherModifiers(key: string, modifier: nat)
    requires modifier < 256
    ensures FormatWithModifiers(key, modifier).Some? <==> modifier / 16 % 4 == 0
    ensures modifier / 16 % 4 == 0 ==> FormatWithModifiers(key, modifier) == FormatWithModifiers(key, modifier % 16)
  {
    hide Join, ModifierNames, Unlocked;
    LocksIgnored(modifier);
    LocksIgnored(modifier % 16);
  }

  lemma LocksIgnored(modifier: nat)
    requires modifier < 256
    ensures Unlocked(modifier) == modifier % 64
    ensures modifier % 64 < 16 <==> modifier / 16 % 4 == 0
    ensures modifier % 64 < 16 ==> modifier % 64 == modifier % 16
  {
    var high, low := modifier / 64, modifier % 64;
    assert modifier == 64 * high + low && high % 4 == high;
    assert modifier / 16 == 4 * high + low / 16;
    assert modifier % 16 == low % 16;
  }

  /** The keys of the keypad carry the names of the ordinary ones. */
  lemma KeypadIsNamed(n: nat)
    requires 57399 <= n <= 57426
    ensures KeyName(Effective(n, 0, None)) == Some(
      if n <= 57408 then ['0' + (n - 57399) as char]
      else ([".", "/", "*", "-", "+", "enter", "=", ",", "left", "right", "up", "down", "pageUp", "pageDown", "home",
             "end", "insert", "delete"])[n - 57409])
  {
  }

  /** The symbol keys, one by one. */
  lemma SymbolsListed(c: char)
    requires c as int < 65536
    ensures IsSymbol(c as int) <==> c in "`-=[]\\;',./!@#$%^&*()_+|~{}:<>?"
  {
  }

  // ----- raw characters -----

  /** The control character of a key: the letters count from 1, and minus shares the key of underscore. */
  predicate IsControlOf(key: char, c: char) {
    || ('a' <= key <= 'z' && c as int == key as int - 'a' as int + 1)
    || (key == '[' && c == '\U{1b}') || (key == '\\' && c == '\U{1c}') || (key == ']' && c == '\U{1d}')
    || ((key == '_' || key == '-') && c == '\U{1f}')
  }

  /** What older terminals send for a key: itself, its capital for shift, its control character for ctrl, and an escape
      in front for alt, which the Kitty protocol takes differently. */
  predicate IsRawForm(kitty: bool, data: string, key: char, modifier: nat) {
    || (modifier == 0 && data == [key])
    || (modifier == 1 && |data| == 1 && 'A' <= data[0] <= 'Z' && key as int == data[0] as int + 32)
    || (modifier == 4 && |data| == 1 && IsControlOf(key, data[0]))
    || (modifier == 2 && !kitty && data == [ESC, key])
    || (modifier == 6 && !kitty && |data| == 2 && data[0] == ESC && IsControlOf(key, data[1]))
  }

  lemma RawCtrlIsControl(key: char, c: char)
    ensures RawCtrl(key) == Some(c) <==> IsControlOf(key, c)
  {
  }

  lemma ShortIsNoReport(data: string)
    requires |data| < 4
    ensures ParseKitty(data).None? && ParseModifyOtherKeys(data).None?
  {
  }

  /** Data too short for a report matches a key exactly when it is one of its raw forms. */
  lemma RawMatches(kitty: bool, data: string, key: char, modifier: nat, named: (string, KeyId) -> bool)
    requires IsPrintableKey(key) && key != '+' && modifier < 16 && |data| < 4
    ensures FormatWithModifiers([key], modifier).Some?
    ensures MatchesKey(kitty, data, FormatWithModifiers([key], modifier).value, named)
            == IsRawForm(kitty, data, key, modifier)
  {
    hide MatchesCharacter, IsRawForm, IsPrintableKey, Join, ModifierNames, ParseKeyId, PlainName, Unlocked, ToModifier,
         Shift, Ctrl, Alt, Super;
    PrintableIsPlain(key);
    SmallIsUnlocked(modifier);
    FormatParses([key], modifier);
    RawCharacter(kitty, data, key, modifier);
  }

  lemma SmallIsUnlocked(modifier: nat)
    requires modifier < 16
    ensures Unlocked(modifier) == modifier
  {
  }

  lemma PrintableIsPlain(key: char)
    requires IsPrintableKey(key) && key != '+'
    ensures PlainName([key])
  {
    KeyCodesArePlain(key as int);
  }

  lemma RawCharacter(kitty: bool, data: string, key: char, modifier: nat)
    requires IsPrintableKey(key) && |data| < 4
    ensures MatchesCharacter(kitty, data, key, modifier) <==> IsRawForm(kitty, data, key, modifier)
  {
    hide ParseKitty, ParseModifyOtherKeys, IsPrintableKey, RawCtrl, IsControlOf;
    ShortIsNoReport(data);
    if |data| > 0 {
      RawCtrlIsControl(key, data[|data| - 1]);
    }
  }

  /** `parseKey` on at most two characters. `windows`: under Windows Terminal. */
  function ParseShort(kitty: bool, windows: bool, data: string): Option<string>
    requires |data| <= 2
  {
    if |data| == 0 then None
    else if |data| == 1 then ParseOne(kitty, windows, data[0])
    else if data[0] != ESC then None
    else ParseEscaped(kitty, data[1])
  }

  /** One character. */
  function ParseOne(kitty: bool, windows: bool, c: char): Option<string> {
    var n := c as int;
    if kitty && n == 10 then Some("shift+enter")
    else if n == 27 then Some("escape")
    else if n == 28 then Some("ctrl+\\")
    else if n == 29 then Some("ctrl+]")
    else if n == 31 then Some("ctrl+-")
    else if n == 9 then Some("tab")
    else if n == 13 || n == 10 then Some("enter")
    else if n == 0 then Some("ctrl+space")
    else if n == 32 then Some("space")
    else if n == 127 then Some("backspace")
    else if n == 8 then Some(if windows then "ctrl+backspace" else "backspace")
    else if 1 <= n <= 26 then Some("ctrl+" + [(n + 96) as char])
    else if 32 <= n <= 126 then Some([c])
    else None
  }

  /** One character behind an escape. */
  function ParseEscaped(kitty: bool, c: char): Option<string> {
    var n := c as int;
    if kitty && n == 13 then Some("shift+enter")
    else if c == 'b' then Some("alt+left")
    else if c == 'f' then Some("alt+right")
    else if c == 'p' then Some("alt+up")
    else if c == 'n' then Some("alt+down")
    else if n == 27 then Some("ctrl+alt+[")
    else if n == 28 then Some("ctrl+alt+\\")
    else if n == 29 then Some("ctrl+alt+]")
    else if n == 31 then Some("ctrl+alt+-")
    else if !kitty && n == 13 then Some("alt+enter")
    else if !kitty && n == 32 then Some("alt+space")
    else if n == 127 || n == 8 then Some("alt+backspace")
    else if !kitty && c == 'B' then Some("alt+left")
    else if !kitty && c == 'F' then Some("alt+right")
    else if !kitty && 1 <= n <= 26 then Some("ctrl+alt+" + [(n + 96) as char])
    else if !kitty && IsPrintableKey(c) then Some("alt+" + [c])
    else None
  }

  /** The id of a one-character key under some modifiers. */
  function IdOf(key: char, modifier: nat): string
    requires modifier < 16
  {
    Join(ModifierNames(modifier) + [[key]], '+')
  }

  lemma IdIsFormatted(key: char, modifier: nat)
    requires modifier < 16
    ensures FormatWithModifiers([key], modifier) == Some(IdOf(key, modifier))
  {
    hide Join, ModifierNames;
    SmallIsUnlocked(modifier);
  }

  lemma IdsAreDistinct(key: char, modifier: nat, key': char, modifier': nat)
    requires IsPrintableKey(key) && key != '+' && modifier < 16 && IsPrintableKey(key') && key' != '+' && modifier' < 16
    requires IdOf(key, modifier) == IdOf(key', modifier')
    ensures key == key' && modifier == modifier'
  {
    hide FormatWithModifiers, ParseKeyId, IdOf, IsPrintableKey, PlainName, Unlocked, ToModifier, Shift, Ctrl, Alt,
         Super;
    PrintableIsPlain(key);
    PrintableIsPlain(key');
    IdIsFormatted(key, modifier);
    IdIsFormatted(key', modifier');
    SmallIsUnlocked(modifier);
    SmallIsUnlocked(modifier');
    FormatParses([key], modifier);
    FormatParses([key'], modifier');
    assert [key][0] == [key'][0];
  }

  /** The ids that raw forms have. */
  lemma IdsOfRawForms(key: char)
    ensures IdOf(key, 0) == [key] && IdOf(key, 2) == "alt+" + [key]
    ensures IdOf(key, 4) == "ctrl+" + [key] && IdOf(key, 6) == "ctrl+alt+" + [key]
  {
    hide Join;
    Alone([key]);
    Joined("alt", [[key]]);
    Joined("ctrl", [[key]]);
    Joined("ctrl", ["alt"] + [[key]]);
    assert ModifierNames(0) + [[key]] == [] + [[key]];
    assert ModifierNames(6) + [[key]] == ["ctrl"] + (["alt"] + [[key]]);
    assert ModifierNames(2) + [[key]] == ["alt"] + [[key]] && ModifierNames(4) + [[key]] == ["ctrl"] + [[key]];
    assert "alt" + "+" == "alt+" && "ctrl" + "+" == "ctrl+";
    assert "ctrl" + "+" + ("alt" + "+" + [key]) == "ctrl+alt+" + [key];
  }

  /** An id ends in its key, with a plus in front unless that is all. */
  lemma IdEnds(key: char, modifier: nat)
    requires modifier < 16
    ensures var id := IdOf(key, modifier); id == [key] || (|id| >= 2 && id[|id| - 2] == '+' && id[|id| - 1] == key)
  {
    hide Join;
    JoinEnds(ModifierNames(modifier), [key]);
  }

  lemma {:induction false} JoinEnds(names: seq<string>, last: string)
    ensures var id := Join(names + [last], '+');
      if names == [] then id == last
      else |id| >= |last| + 1 && id[|id| - |last|..] == last && id[|id| - |last| - 1] == '+'
  {
    if names == [] {
      Alone(last);
    } else {
      JoinEnds(names[1..], last);
      assert names + [last] == [names[0]] + (names[1..] + [last]);
      Joined(names[0], names[1..] + [last]);
    }
  }

  /** Raw forms that stand for something else first: capitals, the controls that are keys of their own, the other
      control 31, and the letters that move by words. */
  predicate Shared(key: char, modifier: nat) {
    || modifier == 1 || (modifier == 2 && key in "bfnp")
    || (modifier == 4 && key in "[_hijm") || (modifier == 6 && key in "_hm")
  }

  /** A raw form is parsed as its key exactly when it is not shared. */
  lemma RawFormIsNamed(kitty: bool, windows: bool, data: string, key: char, modifier: nat)
    requires IsPrintableKey(key) && key != '+' && modifier < 16 && |data| <= 2
    requires IsRawForm(kitty, data, key, modifier)
    ensures ParseShort(kitty, windows, data) == Some(IdOf(key, modifier)) <==> !Shared(key, modifier)
  {
    hide IdOf;
    IdsOfRawForms(key);
    IdEnds(key, modifier);
    SymbolIds();
    if modifier == 1 {
      ShiftIdIsLong(key);
    }
  }

  lemma SymbolIds()
    ensures "ctrl+" + ['\\'] == "ctrl+\\" && "ctrl+" + [']'] == "ctrl+]" && "ctrl+" + ['-'] == "ctrl+-"
    ensures "ctrl+alt+" + ['\\'] == "ctrl+alt+\\" && "ctrl+alt+" + [']'] == "ctrl+alt+]"
    ensures "ctrl+alt+" + ['-'] == "ctrl+alt+-" && "ctrl+alt+" + ['['] == "ctrl+alt+["
  {
  }

  lemma ShiftIdIsLong(key: char)
    ensures |IdOf(key, 1)| > 1
  {
    hide Join;
    assert ModifierNames(1) + [[key]] == ["shift"] + [[key]];
    Joined("shift", [[key]]);
  }

  /** And data parsed as a key is one of its raw forms, unless the Kitty protocol is active and an escape comes
      first. */
  lemma NamedIsRawForm(kitty: bool, windows: bool, data: string, key: char, modifier: nat)
    requires IsPrintableKey(key) && key != '+' && modifier < 16 && |data| <= 2
    requires ParseShort(kitty, windows, data) == Some(IdOf(key, modifier))
    ensures IsRawForm(kitty, data, key, modifier) <==> !kitty || |data| == 1
  {
    hide IdOf;
    if |data| == 1 {
      NamedOne(kitty, windows, data[0], key, modifier);
    } else {
      NamedEscaped(kitty, data[1], key, modifier);
    }
  }

  lemma NamedOne(kitty: bool, windows: bool, c: char, key: char, modifier: nat)
    requires IsPrintableKey(key) && key != '+' && modifier < 16
    requires ParseOne(kitty, windows, c) == Some(IdOf(key, modifier))
    ensures IsRawForm(kitty, [c], key, modifier)
  {
    hide IdOf;
    IdEnds(key, modifier);
    var id := IdOf(key, modifier);
    assert id[|id| - 1] == key;
    IdsOfRawForms(key);
    if id == IdOf(key, 0) {
      IdsAreDistinct(key, modifier, key, 0);
    } else {
      assert id == IdOf(key, 4);
      IdsAreDistinct(key, modifier, key, 4);
    }
  }

  lemma NamedEscaped(kitty: bool, c: char, key: char, modifier: nat)
    requires IsPrintableKey(key) && key != '+' && modifier < 16
    requires ParseEscaped(kitty, c) == Some(IdOf(key, modifier))
    ensures IsRawForm(kitty, [ESC, c], key, modifier) <==> !kitty
  {
    hide IdOf;
    IdEnds(key, modifier);
    var id := IdOf(key, modifier);
    assert id[|id| - 1] == key;
    IdsOfRawForms(key);
    if id == IdOf(key, 2) {
      IdsAreDistinct(key, modifier, key, 2);
    } else {
      assert id == IdOf(key, 6);
      IdsAreDistinct(key, modifier, key, 6);
    }
  }

  /** Parser and matcher on raw data, exactly. The id the data is parsed as matches it unless the Kitty protocol is
      active and the data begins with an escape; and a matching id is the parsed one unless the raw form is shared. */
  lemma RawIdMatches(kitty: bool, windows: bool, data: string, key: char, modifier: nat, named: (string, KeyId) -> bool)
    requires IsPrintableKey(key) && key != '+' && modifier < 16 && |data| <= 2
    ensures ParseShort(kitty, windows, data) == Some(IdOf(key, modifier)) ==>
      (MatchesKey(kitty, data, IdOf(key, modifier), named) <==> !kitty || |data| == 1)
    ensures MatchesKey(kitty, data, IdOf(key, modifier), named) ==>
      (ParseShort(kitty, windows, data) == Some(IdOf(key, modifier)) <==> !Shared(key, modifier))
  {
    hide IdOf, IsRawForm, ParseShort, Shared, MatchesKey, FormatWithModifiers, IsPrintableKey;
    IdIsFormatted(key, modifier);
    RawMatches(kitty, data, key, modifier, named);
    if ParseShort(kitty, windows, data) == Some(IdOf(key, modifier)) {
      NamedIsRawForm(kitty, windows, data, key, modifier);
    }
    if IsRawForm(kitty, data, key, modifier) {
      RawFormIsNamed(kitty, windows, data, key, modifier);
    }
  }

  lemma OneCharacterId(c: char)
    requires c != '+' && !('A' <= c <= 'Z')
    ensures ParseKeyId([c]) == Some(KeyId([c], false, false, false, false))
  {
    LowerFixed([c]);
    SplitWithout([c], '+');
    assert [[c]][0] == [c] && "ctrl" != [c] && "shift" != [c] && "alt" != [c] && "super" != [c];
  }

  lemma CapitalId(c: char)
    requires 'A' <= c <= 'Z'
    ensures ParseKeyId([c]) == ParseKeyId([(c as int + 32) as char])
  {
    var small := [(c as int + 32) as char];
    assert Lower([c]) == small;
    LowerFixed(small);
  }

  /** Capitals, the double quote and plus are parsed as themselves, and no id matches them by those names. */
  lemma RawNameFails(kitty: bool, windows: bool, c: char, named: (string, KeyId) -> bool)
    requires 'A' <= c <= 'Z' || c == '"' || c == '+'
    ensures ParseShort(kitty, windows, [c]) == Some([c])
    ensures !MatchesKey(kitty, [c], [c], named)
  {
    hide ParseKeyId, ParseKitty, ParseModifyOtherKeys;
    if c == '+' {
      Alone("+");
      BareName("+");
      PlusParsesAsNothing(0);
    } else if c == '"' {
      OneCharacterId(c);
    } else {
      var key := (c as int + 32) as char;
      CapitalId(c);
      OneCharacterId(key);
      RawCharacter(kitty, [c], key, 0);
    }
  }
}
