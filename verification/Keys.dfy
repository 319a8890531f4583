/** Key ids: parsing a key report into an id, and matching a report against an id. */
module Keys {
  import opened Text
  import opened Ansi

  // ----- code points -----

  const ESCAPE := 27
  const TAB := 9
  const ENTER := 13
  const SPACE := 32
  const BACKSPACE := 127
  const KP_ENTER := 57414
  const UP := -1
  const DOWN := -2
  const RIGHT := -3
  const LEFT := -4
  const DELETE := -10
  const INSERT := -11
  const PAGE_UP := -12
  const PAGE_DOWN := -13
  const HOME := -14
  const END := -15

  /** `String.fromCharCode` keeps the low 16 bits. */
  function CharCode(n: int): nat { n % 65536 }

  /** The symbol keys: the punctuation of ASCII, all but the double quote. */
  predicate IsSymbol(n: int) {
    var c := CharCode(n);
    c == 33 || 35 <= c <= 47 || 58 <= c <= 64 || 91 <= c <= 96 || 123 <= c <= 126
  }

  predicate IsLetter(n: int) { 97 <= n <= 122 }

  predicate IsDigitCode(n: int) { 48 <= n <= 57 }

  /** The keypad, in terms of ordinary keys. */
  function NormalizeFunctional(n: int): int {
    if 57399 <= n <= 57408 then n - 57399 + 48
    else if n == 57409 then 46
    else if n == 57410 then 47
    else if n == 57411 then 42
    else if n == 57412 then 45
    else if n == 57413 then 43
    else if n == 57415 then 61
    else if n == 57416 then 44
    else if n == 57417 then LEFT
    else if n == 57418 then RIGHT
    else if n == 57419 then UP
    else if n == 57420 then DOWN
    else if n == 57421 then PAGE_UP
    else if n == 57422 then PAGE_DOWN
    else if n == 57423 then HOME
    else if n == 57424 then END
    else if n == 57425 then INSERT
    else if n == 57426 then DELETE
    else n
  }

  // ----- modifiers -----

  /** `modifier & ~LOCK_MASK` on 32 bits, read as unsigned: without the bits for Caps Lock (64) and Num Lock (128). */
  function Unlocked(modifier: int): nat {
    var m := modifier % 0x1_0000_0000;
    m - m / 64 % 4 * 64
  }

  predicate Shift(m: nat) { m % 2 == 1 }
  predicate Alt(m: nat) { m / 2 % 2 == 1 }
  predicate Ctrl(m: nat) { m / 4 % 2 == 1 }
  predicate Super(m: nat) { m / 8 % 2 == 1 }

  function ToModifier(ctrl: bool, shift: bool, alt: bool, super: bool): nat {
    (if shift then 1 else 0) + (if alt then 2 else 0) + (if ctrl then 4 else 0) + (if super then 8 else 0)
  }

  /** A shifted capital letter stands for the letter key. */
  function NormalizeShifted(n: int, modifier: int): int {
    if Shift(Unlocked(modifier)) && 65 <= n <= 90 then n + 32 else n
  }

  // ----- parsing reports -----

  datatype EventType = Press | Repeat | Release

  datatype KittyReport = KittyReport(codepoint: int, shiftedKey: Option<nat>, baseLayoutKey: Option<nat>,
                                     modifier: int, eventType: EventType)

  function ParseEventType(s: Option<string>): EventType
    requires s.Some? ==> AllDigits(s.value)
  {
    if s.None? || s.value == "" then Press
    else if Digits(s.value) == 2 then Repeat
    else if Digits(s.value) == 3 then Release
    else Press
  }

  /** code (: shifted)? (: base)?, the shifted key possibly empty */
  predicate IsHead(fields: seq<string>) {
    && 1 <= |fields| <= 3 && IsNumber(fields[0])
    && (|fields| > 1 ==> AllDigits(fields[1]))
    && (|fields| > 2 ==> IsNumber(fields[2]))
  }

  /** modifier (: event)? */
  predicate IsTail(fields: seq<string>) {
    1 <= |fields| <= 2 && IsNumber(fields[0]) && (|fields| > 1 ==> IsNumber(fields[1]))
  }

  function Report(head: seq<string>, modifier: nat, event: Option<string>): KittyReport
    requires IsHead(head) && (event.Some? ==> IsNumber(event.value))
  {
    KittyReport(Digits(head[0]),
                if |head| > 1 && head[1] != "" then Some(Digits(head[1])) else None,
                if |head| > 2 then Some(Digits(head[2])) else None,
                modifier - 1, ParseEventType(event))
  }

  /** ESC [ code (: shifted)? (: base)? (; modifier)? (: event)? u */
  function ParseCsiU(data: string): Option<KittyReport> {
    if |data| < 4 || data[..2] != [ESC, '['] || data[|data| - 1] != 'u' then None
    else
      var parts := Split(data[2..|data| - 1], ';');
      var head := Split(parts[0], ':');
      if |parts| == 1 then
        if IsHead(head) then Some(Report(head, 1, None))
        else if |head| == 4 && IsHead(head[..3]) && IsNumber(head[3]) then Some(Report(head[..3], 1, Some(head[3])))
        else None
      else if |parts| == 2 && IsHead(head) then
        var tail := Split(parts[1], ':');
        if IsTail(tail) then
          Some(Report(head, Digits(tail[0]), if |tail| > 1 then Some(tail[1]) else None))
        else None
      else None
  }

  /** ESC [ 1 ; modifier (: event)? and one of A B C D H F */
  function ParseLettered(data: string): Option<KittyReport> {
    if |data| < 6 || data[..4] != [ESC, '[', '1', ';'] then None
    else
      var tail := Split(data[4..|data| - 1], ':');
      var code := match data[|data| - 1]
        case 'A' => Some(UP)
        case 'B' => Some(DOWN)
        case 'C' => Some(RIGHT)
        case 'D' => Some(LEFT)
        case 'H' => Some(HOME)
        case 'F' => Some(END)
        case _ => None;
      if code.None? || !IsTail(tail) then None
      else Some(KittyReport(code.value, None, None, Digits(tail[0]) - 1,
                            ParseEventType(if |tail| > 1 then Some(tail[1]) else None)))
  }

  function FunctionalCode(n: nat): Option<int> {
    match n
    case 2 => Some(INSERT)
    case 3 => Some(DELETE)
    case 5 => Some(PAGE_UP)
    case 6 => Some(PAGE_DOWN)
    case 7 => Some(HOME)
    case 8 => Some(END)
    case _ => None
  }

  /** ESC [ number (; modifier)? (: event)? ~ */
  function ParseFunctional(data: string): Option<KittyReport> {
    if |data| < 4 || data[..2] != [ESC, '['] || data[|data| - 1] != '~' then None
    else
      var parts := Split(data[2..|data| - 1], ';');
      var fields := Split(parts[|parts| - 1], ':');
      if |parts| > 2 || !IsTail(fields) || (|parts| == 2 && !IsNumber(parts[0])) then None
      else
        var code := FunctionalCode(Digits(if |parts| == 2 then parts[0] else fields[0]));
        if code.None? then None
        else Some(KittyReport(code.value, None, None, if |parts| == 2 then Digits(fields[0]) - 1 else 0,
                              ParseEventType(if |fields| > 1 then Some(fields[1]) else None)))
  }

  /** `parseKittySequence` */
  function ParseKitty(data: string): Option<KittyReport> {
    var u := ParseCsiU(data);
    var lettered := ParseLettered(data);
    if u.Some? then u else if lettered.Some? then lettered else ParseFunctional(data)
  }

  /** `parseModifyOtherKeysSequence`: ESC [ 27 ; modifier ; code ~ gives the code point and the modifier */
  function ParseModifyOtherKeys(data: string): Option<(nat, int)> {
    if |data| < 4 || data[..2] != [ESC, '['] || data[|data| - 1] != '~' then None
    else
      var parts := Split(data[2..|data| - 1], ';');
      if |parts| != 3 || parts[0] != "27" || !IsNumber(parts[1]) || !IsNumber(parts[2]) then None
      else Some((Digits(parts[2]), Digits(parts[1]) - 1))
  }

  // ----- naming -----

  function ModifierNames(m: nat): seq<string> {
    (if Shift(m) then ["shift"] else []) + (if Ctrl(m) then ["ctrl"] else [])
    + (if Alt(m) then ["alt"] else []) + (if Super(m) then ["super"] else [])
  }

  /** `formatKeyNameWithModifiers`; unsupported modifier bits give no id. */
  function FormatWithModifiers(keyName: string, modifier: int): Option<string> {
    var m := Unlocked(modifier);
    if m >= 16 then None else Some(Join(ModifierNames(m) + [keyName], '+'))
  }

  /** The code point a report is identified by, keypad and shift aside. */
  function Identity(codepoint: int, modifier: int): int {
    NormalizeShifted(NormalizeFunctional(codepoint), modifier)
  }

  /** The key a report stands for: the base layout only replaces what is no letter, digit or symbol. */
  function Effective(codepoint: int, modifier: int, base: Option<nat>): int {
    var identity := Identity(codepoint, modifier);
    if IsLetter(identity) || IsDigitCode(identity) || IsSymbol(identity) || base.None? then identity else base.value
  }

  function KeyName(n: int): Option<string> {
    if n == ESCAPE then Some("escape")
    else if n == TAB then Some("tab")
    else if n == ENTER || n == KP_ENTER then Some("enter")
    else if n == SPACE then Some("space")
    else if n == BACKSPACE then Some("backspace")
    else if n == DELETE then Some("delete")
    else if n == INSERT then Some("insert")
    else if n == HOME then Some("home")
    else if n == END then Some("end")
    else if n == PAGE_UP then Some("pageUp")
    else if n == PAGE_DOWN then Some("pageDown")
    else if n == UP then Some("up")
    else if n == DOWN then Some("down")
    else if n == LEFT then Some("left")
    else if n == RIGHT then Some("right")
    else if IsDigitCode(n) || IsLetter(n) then Some([n as char])
    else if IsSymbol(n) then Some([CharCode(n) as char])
    else None
  }

  /** `formatParsedKey` */
  function FormatParsedKey(codepoint: int, modifier: int, base: Option<nat>): Option<string> {
    var name := KeyName(Effective(codepoint, modifier, base));
    if name.None? then None else FormatWithModifiers(name.value, modifier)
  }

  // ----- ids -----

  datatype KeyId = KeyId(key: string, ctrl: bool, shift: bool, alt: bool, super: bool)

  /** `parseKeyId` */
  function ParseKeyId(keyId: string): Option<KeyId> {
    var parts := Split(Lower(keyId), '+');
    var key := parts[|parts| - 1];
    if key == "" then None
    else Some(KeyId(key, "ctrl" in parts, "shift" in parts, "alt" in parts, "super" in parts))
  }

  // ----- matching -----

  /** `matchesKittySequence` */
  predicate MatchesKitty(data: string, expected: int, expectedModifier: int) {
    var parsed := ParseKitty(data);
    parsed.Some? && MatchesReport(parsed.value, expected, expectedModifier)
  }

  predicate MatchesReport(p: KittyReport, expected: int, expectedModifier: int) {
    && Unlocked(p.modifier) == Unlocked(expectedModifier)
    && (var identity := Identity(p.codepoint, p.modifier);
        || identity == Identity(expected, expectedModifier)
        || (p.baseLayoutKey.Some? && p.baseLayoutKey.value == expected && !IsLetter(identity) && !IsSymbol(identity)))
  }

  /** `matchesPrintableModifyOtherKeys` */
  predicate MatchesModifyOtherKeys(data: string, expected: int, expectedModifier: int) {
    var parsed := ParseModifyOtherKeys(data);
    && expectedModifier != 0 && parsed.Some? && parsed.value.1 == expectedModifier
    && NormalizeShifted(parsed.value.0, parsed.value.1) == NormalizeShifted(expected, expectedModifier)
  }

  /** `rawCtrlChar` of a one-character key */
  function RawCtrl(key: char): Option<char> {
    if 'a' <= key <= 'z' || key == '[' || key == '\\' || key == ']' || key == '_' then Some((key as int % 32) as char)
    else if key == '-' then Some(31 as char)
    else None
  }

  predicate IsPrintableKey(c: char) {
    'a' <= c <= 'z' || '0' <= c <= '9' || ((c as int) < 65536 && IsSymbol(c as int))
  }

  /** The part of `matchesKey` for single-character keys. `kitty`: the Kitty protocol is active. */
  predicate MatchesCharacter(kitty: bool, data: string, key: char, modifier: nat) {
    var code := key as int;
    var raw := RawCtrl(key);
    if !IsPrintableKey(key) then false
    else if modifier == 6 && !kitty && raw.Some? && data == [ESC, raw.value] then true
    else if modifier == 2 && !kitty && data == [ESC, key] then true
    else if modifier == 4 && raw.Some? && data == [raw.value] then true
    else if modifier == 1 && 'a' <= key <= 'z' && data == [(key as int - 32) as char] then true
    else if modifier != 0 then MatchesKitty(data, code, modifier) || MatchesModifyOtherKeys(data, code, modifier)
    else data == [key] || MatchesKitty(data, code, 0)
  }

  /** `matchesKey`; `named` stands for the branches of the keys whose name has several characters. */
  predicate MatchesKey(kitty: bool, data: string, keyId: string, named: (string, KeyId) -> bool) {
    var id := ParseKeyId(keyId);
    if id.None? then false
    else
      var k := id.value;
      if |k.key| == 1 then MatchesCharacter(kitty, data, k.key[0], ToModifier(k.ctrl, k.shift, k.alt, k.super))
      else named(data, k)
  }

  // ----- ids parse back -----

  lemma {:induction false} LowerFixed(s: string)
    requires forall c <- s :: !('A' <= c <= 'Z')
    ensures Lower(s) == s
  {
    assert forall i :: 0 <= i < |s| ==> s[i] in s;
  }

  lemma {:induction false} JoinClean(parts: seq<string>, sep: char, c: char)
    requires c in Join(parts, sep)
    ensures c == sep || exists p <- parts :: c in p
  {
    if |parts| > 1 && c != sep && c !in parts[0] {
      JoinClean(parts[1..], sep, c);
      var p :| p in parts[1..] && c in p;
      assert p in parts;
    }
  }

  const MODIFIER_NAMES: seq<string> := ["shift", "ctrl", "alt", "super"]

  /** A key name that reads back: lower case, no separator, and no modifier itself. */
  predicate PlainName(keyName: string) {
    && keyName != "" && '+' !in keyName && keyName !in MODIFIER_NAMES
    && forall c <- keyName :: !('A' <= c <= 'Z')
  }

  lemma NamesAreClean(m: nat)
    ensures forall p <- ModifierNames(m) :: '+' !in p && forall c <- p :: !('A' <= c <= 'Z')
  {
    forall p | p in ModifierNames(m)
      ensures '+' !in p && forall c <- p :: !('A' <= c <= 'Z')
    {
      assert p == "shift" || p == "ctrl" || p == "alt" || p == "super";
    }
  }

  lemma NamesTell(m: nat, keyName: string)
    requires keyName !in MODIFIER_NAMES
    ensures var parts := ModifierNames(m) + [keyName];
            && ("shift" in parts <==> Shift(m)) && ("ctrl" in parts <==> Ctrl(m))
            && ("alt" in parts <==> Alt(m)) && ("super" in parts <==> Super(m))
  {
    hide Shift, Ctrl, Alt, Super;
    assert MODIFIER_NAMES[0] == "shift" && MODIFIER_NAMES[1] == "ctrl" && MODIFIER_NAMES[2] == "alt"
           && MODIFIER_NAMES[3] == "super";
  }

  /** `parseKeyId` undoes `formatKeyNameWithModifiers`. */
  lemma FormatParses(keyName: string, modifier: int)
    requires PlainName(keyName) && FormatWithModifiers(keyName, modifier).Some?
    ensures var m := Unlocked(modifier);
            ParseKeyId(FormatWithModifiers(keyName, modifier).value)
              == Some(KeyId(keyName, Ctrl(m), Shift(m), Alt(m), Super(m)))
    ensures var m := Unlocked(modifier); ToModifier(Ctrl(m), Shift(m), Alt(m), Super(m)) == m
  {
    hide Join, Split, Lower, ModifierNames, Unlocked;
    var m := Unlocked(modifier);
    var parts := ModifierNames(m) + [keyName];
    var id := Join(parts, '+');
    NamesAreClean(m);
    forall c | c in id
      ensures !('A' <= c <= 'Z')
    {
      JoinClean(parts, '+', c);
    }
    LowerFixed(id);
    JoinSplits(parts, '+');
    NamesTell(m, keyName);
  }

  /** An id for the plus key reads back as nothing: its name is the separator. */
  lemma PlusParsesAsNothing(modifier: int)
    requires FormatWithModifiers("+", modifier).Some?
    ensures ParseKeyId(FormatWithModifiers("+", modifier).value).None?
  {
    hide Join, Split, Lower, ModifierNames, Unlocked;
    var names := ModifierNames(Unlocked(modifier));
    var id := Join(names + ["+"], '+');
    EndsWithLast(names, "+");
    NamesAreClean(Unlocked(modifier));
    forall c | c in id
      ensures !('A' <= c <= 'Z')
    {
      JoinClean(names + ["+"], '+', c);
      if c != '+' {
        var part :| part in names + ["+"] && c in part;
        assert part in names || part == "+";
      }
    }
    LowerFixed(id);
    SplitAtSeparator(id[..|id| - 1], "", '+');
    SplitWithout("", '+');
    assert id == id[..|id| - 1] + ['+'] + "";
  }

  lemma {:induction false} EndsWithLast(parts: seq<string>, last: string)
    requires |last| > 0
    ensures |Join(parts + [last], '+')| > 0
    ensures Join(parts + [last], '+')[|Join(parts + [last], '+')| - 1] == last[|last| - 1]
  {
    if parts != [] {
      assert (parts + [last])[1..] == parts[1..] + [last];
      EndsWithLast(parts[1..], last);
    }
  }

  // ----- parser and matcher -----

  /** The code of a key named by one character. */
  predicate IsKeyCode(n: int) {
    IsLetter(n) || IsDigitCode(n) || (0 <= n < 128 && IsSymbol(n))
  }

  lemma SymbolsAreLow(n: int)
    requires IsSymbol(n)
    ensures 33 <= CharCode(n) < 127 && !(48 <= CharCode(n) <= 57) && !(65 <= CharCode(n) <= 90)
    ensures !IsLetter(CharCode(n))
    ensures IsSymbol(CharCode(n)) && IsKeyCode(CharCode(n))
  {
  }

  lemma KeyCodesArePlain(n: int)
    requires IsKeyCode(n)
    ensures 33 <= n < 127 && !(65 <= n <= 90) && CharCode(n) == n
    ensures IsPrintableKey(n as char) && (n != 43 ==> PlainName([n as char]))
    ensures forall m: nat :: Identity(n, m) == n
  {
    if !IsLetter(n) && !IsDigitCode(n) {
      SymbolsAreLow(n);
    }
    var c := n as char;
    assert forall d <- [c] :: d == c;
    assert c !in "shift" || |"shift"| > 1;
    assert [c] !in MODIFIER_NAMES by {
      assert forall name <- MODIFIER_NAMES :: |name| > 1;
    }
  }

  /** A one-character name is the character with the low 16 bits of the code point. */
  lemma SingleName(n: int)
    requires KeyName(n).Some? && |KeyName(n).value| == 1
    ensures IsLetter(n) || IsDigitCode(n) || IsSymbol(n)
    ensures IsKeyCode(CharCode(n)) && KeyName(n).value == [CharCode(n) as char]
  {
    hide IsSymbol;
    if !IsLetter(n) && !IsDigitCode(n) {
      SymbolsAreLow(n);
    }
  }

  /** When a report matches a key code under its own modifiers. */
  lemma ReportMatches(p: KittyReport, code: int)
    requires IsKeyCode(code) && Unlocked(p.modifier) < 16
    ensures var identity := Identity(p.codepoint, p.modifier);
            MatchesReport(p, code, Unlocked(p.modifier)) <==>
              identity == code || (p.baseLayoutKey == Some(code) && !IsLetter(identity) && !IsSymbol(identity))
  {
    hide Identity, IsSymbol, IsKeyCode;
    KeyCodesArePlain(code);
  }

  /** Key codes are pairwise different characters, so a report only matches a code it stands for. */
  lemma EffectiveMatches(p: KittyReport)
    requires var eff := Effective(p.codepoint, p.modifier, p.baseLayoutKey);
             (IsLetter(eff) || IsDigitCode(eff) || IsSymbol(eff)) && IsKeyCode(CharCode(eff))
    requires Unlocked(p.modifier) < 16
    ensures var eff := Effective(p.codepoint, p.modifier, p.baseLayoutKey);
            MatchesReport(p, CharCode(eff), Unlocked(p.modifier)) <==> CharCode(eff) == eff
  {
    var eff := Effective(p.codepoint, p.modifier, p.baseLayoutKey);
    var identity := Identity(p.codepoint, p.modifier);
    ReportMatches(p, CharCode(eff));
    if CharCode(eff) != eff {
      assert IsSymbol(eff);
      SymbolsAreLow(eff);
    }
  }

  lemma CharCodeFixed(n: int)
    ensures CharCode(n) == n <==> 0 <= n < 65536
  {
  }

  lemma CsiUIsLong(data: string)
    requires ParseCsiU(data).Some?
    ensures |data| >= 4 && ParseModifyOtherKeys(data).None? && ParseKitty(data) == ParseCsiU(data)
    ensures ParseCsiU(data).value.codepoint >= 0
  {
  }

  lemma NamedIsNatural(p: KittyReport)
    requires p.codepoint >= 0
    requires var eff := Effective(p.codepoint, p.modifier, p.baseLayoutKey);
             IsLetter(eff) || IsDigitCode(eff) || IsSymbol(eff)
    ensures Effective(p.codepoint, p.modifier, p.baseLayoutKey) >= 0
  {
    var eff := Effective(p.codepoint, p.modifier, p.baseLayoutKey);
    if eff < 0 {
      SymbolsAreLow(eff);
    }
  }

  /** Reading an id made from a one-character name, and matching data longer than any raw form of the key. */
  lemma MatchesFormatted(kitty: bool, data: string, code: int, modifier: int, named: (string, KeyId) -> bool)
    requires IsKeyCode(code) && code != 43 && Unlocked(modifier) < 16 && |data| >= 4
    ensures var m := Unlocked(modifier);
            MatchesKey(kitty, data, FormatWithModifiers([code as char], modifier).value, named) <==>
              MatchesKitty(data, code, m) || MatchesModifyOtherKeys(data, code, m)
  {
    hide MatchesKitty, Join, ParseKeyId, IsPrintableKey, PlainName, IsKeyCode, ParseModifyOtherKeys;
    KeyCodesArePlain(code);
    FormatParses([code as char], modifier);
  }

  /** Parser and matcher agree on every CSI u report that names a one-character key, except for the plus key
      and for code points beyond 16 bits whose low bits alone look like a symbol. */
  lemma ParsedIdMatches(kitty: bool, data: string, named: (string, KeyId) -> bool)
    requires ParseCsiU(data).Some?
    requires var p := ParseCsiU(data).value;
             var name := KeyName(Effective(p.codepoint, p.modifier, p.baseLayoutKey));
             name.Some? && |name.value| == 1
             && FormatParsedKey(p.codepoint, p.modifier, p.baseLayoutKey).Some?
    ensures var p := ParseCsiU(data).value;
            var eff := Effective(p.codepoint, p.modifier, p.baseLayoutKey);
            MatchesKey(kitty, data, FormatParsedKey(p.codepoint, p.modifier, p.baseLayoutKey).value, named)
            <==> eff < 65536 && KeyName(eff).value != "+"
  {
    hide ParseCsiU, ParseKitty, ParseModifyOtherKeys, MatchesKey, MatchesReport, KeyName, Effective, IsKeyCode,
         IsSymbol;
    var p := ParseCsiU(data).value;
    var eff := Effective(p.codepoint, p.modifier, p.baseLayoutKey);
    CsiUIsLong(data);
    SingleName(eff);
    NamedIsNatural(p);
    CharCodeFixed(eff);
    if CharCode(eff) == 43 {
      PlusParsesAsNothing(p.modifier);
      NothingMatches(kitty, data, FormatWithModifiers("+", p.modifier).value, named);
    } else {
      MatchesFormatted(kitty, data, CharCode(eff), p.modifier, named);
      EffectiveMatches(p);
      KeyCodesArePlain(CharCode(eff));
    }
  }

  lemma NothingMatches(kitty: bool, data: string, keyId: string, named: (string, KeyId) -> bool)
    requires ParseKeyId(keyId).None?
    ensures !MatchesKey(kitty, data, keyId, named)
  {
  }

  /** Under the same modifiers no other key matches, with one exception: a key of the base layout also
      matches when the report's own key is a digit, which the parser takes as authoritative. */
  lemma OtherIdMatches(kitty: bool, data: string, code: int, named: (string, KeyId) -> bool)
    requires ParseCsiU(data).Some? && Unlocked(ParseCsiU(data).value.modifier) < 16
    requires IsKeyCode(code) && code != 43
    requires var p := ParseCsiU(data).value;
             var name := KeyName(Effective(p.codepoint, p.modifier, p.baseLayoutKey));
             name.Some? && |name.value| == 1 && name.value != [code as char]
    ensures var p := ParseCsiU(data).value;
            MatchesKey(kitty, data, FormatWithModifiers([code as char], p.modifier).value, named)
            <==> IsDigitCode(Identity(p.codepoint, p.modifier)) && p.baseLayoutKey == Some(code)
  {
    hide ParseCsiU, ParseKitty, ParseModifyOtherKeys, MatchesKey, MatchesReport, KeyName, Identity, IsKeyCode, IsSymbol;
    var p := ParseCsiU(data).value;
    CsiUIsLong(data);
    SingleName(Effective(p.codepoint, p.modifier, p.baseLayoutKey));
    KeyCodesArePlain(code);
    MatchesFormatted(kitty, data, code, p.modifier, named);
    ReportMatches(p, code);
    KeyCodeKinds(code);
    DigitIsNoSymbol(Identity(p.codepoint, p.modifier));
  }

  lemma KeyCodeKinds(code: int)
    requires IsKeyCode(code)
    ensures IsLetter(code) || IsDigitCode(code) || IsSymbol(code)
  {
  }

  lemma DigitIsNoSymbol(n: int)
    ensures IsDigitCode(n) ==> !IsSymbol(n) && !IsLetter(n)
  {
  }

  lemma ModifyOtherKeysIsNoKitty(data: string)
    requires ParseModifyOtherKeys(data).Some?
    ensures |data| >= 4 && ParseKitty(data).None? && ParseModifyOtherKeys(data).value.1 >= -1
  {
  }

  /** Reports of xterm's modifyOtherKeys carry no lock-bit or keypad normalisation in the matcher: parser and
      matcher agree exactly when some modifier is held, no lock bit is set and the key is not on the keypad. */
  lemma ModifyOtherKeysIdMatches(kitty: bool, data: string, named: (string, KeyId) -> bool)
    requires ParseModifyOtherKeys(data).Some?
    requires var (codepoint, modifier) := ParseModifyOtherKeys(data).value;
             var name := KeyName(Effective(codepoint, modifier, None));
             name.Some? && |name.value| == 1 && FormatParsedKey(codepoint, modifier, None).Some?
    ensures var (codepoint, modifier) := ParseModifyOtherKeys(data).value;
            MatchesKey(kitty, data, FormatParsedKey(codepoint, modifier, None).value, named)
            <==> 1 <= modifier < 16 && NormalizeFunctional(codepoint) == codepoint && codepoint < 65536
                 && KeyName(Effective(codepoint, modifier, None)).value != "+"
  {
    hide ParseKitty, ParseModifyOtherKeys, MatchesKey, KeyName, IsKeyCode, IsSymbol, NormalizeFunctional;
    var (codepoint, modifier) := ParseModifyOtherKeys(data).value;
    var eff := Effective(codepoint, modifier, None);
    ModifyOtherKeysIsNoKitty(data);
    SingleName(eff);
    UnlockedFixed(modifier);
    if CharCode(eff) == 43 {
      PlusParsesAsNothing(modifier);
      NothingMatches(kitty, data, FormatWithModifiers("+", modifier).value, named);
    } else {
      MatchesFormatted(kitty, data, CharCode(eff), modifier, named);
      KeyCodesArePlain(CharCode(eff));
      PlainCodeMatches(codepoint, modifier);
    }
  }

  lemma PlainCodeMatches(codepoint: nat, modifier: int)
    requires var identity := Identity(codepoint, modifier);
             IsLetter(identity) || IsDigitCode(identity) || IsSymbol(identity)
    ensures NormalizeShifted(codepoint, modifier) == CharCode(Identity(codepoint, modifier))
            <==> NormalizeFunctional(codepoint) == codepoint && codepoint < 65536
  {
    hide Unlocked;
    var identity := Identity(codepoint, modifier);
    if IsSymbol(identity) {
      SymbolsAreLow(identity);
    }
  }

  lemma UnlockedFixed(modifier: int)
    requires modifier >= -1 && Unlocked(modifier) < 16
    ensures modifier == Unlocked(modifier) <==> 0 <= modifier < 16
  {
  }

  const HIGH_REPORT: string := [ESC] + "[65583u"

  lemma HighReportParses()
    ensures ParseCsiU(HIGH_REPORT) == Some(KittyReport(65583, None, None, 0, Press))
  {
    hide Digits, Split;
    assert HIGH_REPORT[2..|HIGH_REPORT| - 1] == "65583";
    SplitWithout("65583", ';');
    SplitWithout("65583", ':');
    HighDigits();
  }

  lemma HighDigits()
    ensures Digits("65583") == 65583
  {
    assert "65583"[..4] == "6558" && "6558"[..3] == "655" && "655"[..2] == "65" && "65"[..1] == "6" && "6"[..0] == "";
    assert Digits("655") == 655;
  }

  lemma HighName()
    ensures KeyName(Effective(65583, 0, None)) == Some("/") && FormatParsedKey(65583, 0, None) == Some("/")
  {
    assert ModifierNames(0) + ["/"] == ["/"];
    assert KeyName(65583) == Some(['/']);
  }

  /** The first exception at work: the report of code point 65583 is parsed as the slash key and not matched by it. */
  lemma HighCodePointFails(kitty: bool, named: (string, KeyId) -> bool)
    ensures ParseCsiU(HIGH_REPORT) == Some(KittyReport(65583, None, None, 0, Press))
    ensures FormatParsedKey(65583, 0, None) == Some("/")
    ensures !MatchesKey(kitty, HIGH_REPORT, "/", named)
  {
    assert Effective(65583, 0, None) == 65583;
    hide *;
    HighReportParses();
    HighName();
    ParsedIdMatches(kitty, HIGH_REPORT, named);
  }

  const PLUS_REPORT: string := [ESC] + "[43u"

  lemma PlusReportParses()
    ensures ParseCsiU(PLUS_REPORT) == Some(KittyReport(43, None, None, 0, Press))
  {
    hide Digits, Split;
    assert PLUS_REPORT[2..|PLUS_REPORT| - 1] == "43";
    SplitWithout("43", ';');
    SplitWithout("43", ':');
    PlusDigits();
  }

  lemma PlusDigits()
    ensures Digits("43") == 43
  {
    assert "43"[..1] == "4" && "4"[..0] == "";
  }

  lemma PlusName()
    ensures Effective(43, 0, None) == 43
    ensures KeyName(Effective(43, 0, None)) == Some("+") && FormatParsedKey(43, 0, None) == Some("+")
  {
    assert ModifierNames(0) + ["+"] == ["+"];
    assert KeyName(43) == Some(['+']);
  }

  /** The other exception: the report of the plus key is parsed as that key and not matched by it. */
  lemma PlusReportFails(kitty: bool, named: (string, KeyId) -> bool)
    ensures ParseCsiU(PLUS_REPORT) == Some(KittyReport(43, None, None, 0, Press))
    ensures FormatParsedKey(43, 0, None) == Some("+")
    ensures !MatchesKey(kitty, PLUS_REPORT, "+", named)
  {
    hide *;
    PlusReportParses();
    PlusName();
    ParsedIdMatches(kitty, PLUS_REPORT, named);
  }

  // ----- the other disagreements at work -----

  lemma DecimalIsNumber(n: nat, sep: char)
    requires !IsDigit(sep)
    ensures IsNumber(Decimal(n)) && Digits(Decimal(n)) == n && sep !in Decimal(n)
  {
    hide Decimal;
    DecimalParses(n);
  }

  lemma SmallDecimals()
    ensures Decimal(27) == "27" && Decimal(48) == "48" && Decimal(97) == "97" && Decimal(99) == "99"
    ensures Decimal(1) == "1" && Decimal(5) == "5" && Decimal(69) == "69"
  {
    assert Decimal(2) == "2" && Decimal(4) == "4" && Decimal(9) == "9" && Decimal(6) == "6";
  }

  lemma KeypadDecimal()
    ensures Decimal(57400) == "57400"
  {
    assert Decimal(5) == "5" && Decimal(57) == "57";
    assert Decimal(574) == "574";
    assert Decimal(5740) == "5740";
  }

  /** The report of the zero key, at the place where the standard layout has the letter c. */
  const DIGIT_REPORT: string := [ESC] + "[48::99u"

  lemma DigitReportParses()
    ensures ParseCsiU(DIGIT_REPORT) == Some(KittyReport(48, None, Some(99), 0, Press))
  {
    hide Split, Digits, Decimal;
    var fields := ["48", "", "99"];
    SmallDecimals();
    DecimalIsNumber(48, ':');
    DecimalIsNumber(99, ':');
    assert Join(fields, ':') == "48::99" by {
      assert fields[1..] == ["", "99"] && fields[1..][1..] == ["99"];
    }
    assert DIGIT_REPORT[2..|DIGIT_REPORT| - 1] == "48::99";
    SplitWithout("48::99", ';');
    JoinSplits(fields, ':');
  }

  /** It is named "0" and matched by "c" as well. */
  lemma DigitReportMatchesLetter(kitty: bool, named: (string, KeyId) -> bool)
    ensures ParseCsiU(DIGIT_REPORT) == Some(KittyReport(48, None, Some(99), 0, Press))
    ensures FormatParsedKey(48, 0, Some(99)) == Some("0")
    ensures MatchesKey(kitty, DIGIT_REPORT, "c", named)
  {
    hide ParseCsiU, MatchesKey;
    DigitReportParses();
    BareName("0");
    BareName("c");
    assert KeyName(Effective(48, 0, Some(99))) == Some("0");
    OtherIdMatches(kitty, DIGIT_REPORT, 99, named);
  }

  lemma BareName(keyName: string)
    ensures FormatWithModifiers(keyName, 0) == Some(keyName)
  {
    assert ModifierNames(0) + [keyName] == [keyName];
  }

  lemma CtrlName(keyName: string, modifier: int)
    requires modifier == 4 || modifier == 68
    ensures FormatWithModifiers(keyName, modifier) == Some("ctrl+" + keyName)
  {
    assert Unlocked(modifier) == 4;
    assert ModifierNames(4) + [keyName] == ["ctrl", keyName];
    assert ["ctrl", keyName][1..] == [keyName];
    assert Join([keyName], '+') == keyName;
    assert Join(["ctrl", keyName], '+') == "ctrl" + ['+'] + keyName;
    assert "ctrl" + ['+'] == "ctrl+";
  }

  /** A report of modifyOtherKeys. */
  function OtherKeysReport(modifier: nat, code: nat): string {
    [ESC] + "[" + Join(["27", Decimal(modifier), Decimal(code)], ';') + "~"
  }

  lemma OtherKeysReportParses(modifier: nat, code: nat)
    ensures ParseModifyOtherKeys(OtherKeysReport(modifier, code)) == Some((code, modifier - 1))
  {
    hide Split, Digits, Decimal;
    var parts := ["27", Decimal(modifier), Decimal(code)];
    var data := OtherKeysReport(modifier, code);
    DecimalIsNumber(modifier, ';');
    DecimalIsNumber(code, ';');
    JoinSplits(parts, ';');
    assert data[2..|data| - 1] == Join(parts, ';');
  }

  lemma OtherKeysReportText()
    ensures OtherKeysReport(1, 97) == [ESC] + "[27;1;97~" && OtherKeysReport(69, 97) == [ESC] + "[27;69;97~"
    ensures OtherKeysReport(5, 57400) == [ESC] + "[27;5;57400~"
  {
    hide Decimal;
    SmallDecimals();
    KeypadDecimal();
    JoinThree("27", "1", "97");
    JoinThree("27", "69", "97");
    JoinThree("27", "5", "57400");
  }

  lemma JoinThree(a: string, b: string, c: string)
    ensures Join([a, b, c], ';') == a + ";" + b + ";" + c
  {
    assert [a, b, c][1..] == [b, c] && [b, c][1..] == [c];
    assert Join([c], ';') == c && Join([b, c], ';') == b + [';'] + c;
    assert a + [';'] + (b + [';'] + c) == a + ";" + b + ";" + c;
  }

  /** A report without a modifier is not matched by the id it is named by. */
  lemma PlainReportFails(kitty: bool, named: (string, KeyId) -> bool)
    ensures FormatParsedKey(97, 0, None) == Some("a") && !MatchesKey(kitty, [ESC] + "[27;1;97~", "a", named)
  {
    hide MatchesKey, ParseModifyOtherKeys, OtherKeysReport;
    assert KeyName(Effective(97, 0, None)) == Some("a");
    BareName("a");
    OtherKeysReportText();
    OtherKeysReportParses(1, 97);
    ReportFails(kitty, 1, 97, named);
  }

  /** Nor is one with Caps Lock on. */
  lemma LockedReportFails(kitty: bool, named: (string, KeyId) -> bool)
    ensures FormatParsedKey(97, 68, None) == Some("ctrl+a") && !MatchesKey(kitty, [ESC] + "[27;69;97~", "ctrl+a", named)
  {
    hide MatchesKey, ParseModifyOtherKeys, OtherKeysReport;
    assert KeyName(Effective(97, 68, None)) == Some("a");
    CtrlName("a", 68);
    assert "ctrl+" + "a" == "ctrl+a";
    OtherKeysReportText();
    OtherKeysReportParses(69, 97);
    ReportFails(kitty, 69, 97, named);
  }

  /** Nor is one from the keypad. */
  lemma KeypadReportFails(kitty: bool, named: (string, KeyId) -> bool)
    ensures FormatParsedKey(57400, 4, None) == Some("ctrl+1")
    ensures !MatchesKey(kitty, [ESC] + "[27;5;57400~", "ctrl+1", named)
  {
    hide MatchesKey, ParseModifyOtherKeys, OtherKeysReport;
    assert KeyName(Effective(57400, 4, None)) == Some("1");
    CtrlName("1", 4);
    assert "ctrl+" + "1" == "ctrl+1";
    OtherKeysReportText();
    OtherKeysReportParses(5, 57400);
    ReportFails(kitty, 5, 57400, named);
  }

  lemma ReportFails(kitty: bool, modifier: nat, code: nat, named: (string, KeyId) -> bool)
    requires var name := KeyName(Effective(code, modifier - 1, None)); name.Some? && |name.value| == 1
    requires FormatParsedKey(code, modifier - 1, None).Some?
    requires !(1 <= modifier - 1 < 16) || NormalizeFunctional(code) != code
    ensures !MatchesKey(kitty, OtherKeysReport(modifier, code), FormatParsedKey(code, modifier - 1, None).value, named)
  {
    hide *;
    OtherKeysReportParses(modifier, code);
    ModifyOtherKeysIdMatches(kitty, OtherKeysReport(modifier, code), named);
  }
}
