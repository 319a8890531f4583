/** Escape codes as strings: where a code ends, what an SGR or OSC 8 code does to the style in
    force, and how a style is written back as codes. */
module Ansi {
  import opened Text

  /** What closes a string code, besides BEL. */
  const ST: string := [ESC, '\\']

  // ----- strings -----

  predicate IsDigit(c: char) { '0' <= c <= '9' }

  predicate IsParamChar(c: char) { IsDigit(c) || c == ';' }

  predicate AllParamChars(s: string) { forall i :: 0 <= i < |s| ==> IsParamChar(s[i]) }

  predicate AllDigits(s: string) { forall i :: 0 <= i < |s| ==> IsDigit(s[i]) }

  /** Decimal digits, at least one. */
  predicate IsNumber(s: string) { s != "" && AllDigits(s) }

  /** Reads a string of digits; like parseInt, nothing comes of the empty string. */
  function ParseInt(s: string): Option<nat>
    requires AllDigits(s)
  {
    if s == "" then None else Some(Digits(s))
  }

  function Digits(s: string): nat
    requires AllDigits(s)
  {
    if s == "" then 0 else Digits(s[..|s| - 1]) * 10 + (s[|s| - 1] as int - '0' as int)
  }

  function Decimal(n: nat): (s: string)
    ensures s != "" && AllDigits(s)
  {
    var d := ['0' + (n % 10) as char];
    if n < 10 then d else Decimal(n / 10) + d
  }

  lemma {:induction false} DecimalParses(n: nat)
    ensures ParseInt(Decimal(n)) == Some(n)
  {
    var s := Decimal(n);
    if n >= 10 {
      DecimalParses(n / 10);
      assert s == Decimal(n / 10) + ['0' + (n % 10) as char];
      assert s[..|s| - 1] == Decimal(n / 10);
      assert Digits(s) == Digits(Decimal(n / 10)) * 10 + n % 10;
    } else {
      assert s[..0] == "";
    }
  }

  /** Splits at every separator: one more part than there are separators. */
  function Split(s: string, sep: char): (parts: seq<string>)
    ensures |parts| > 0
    decreases |s|
  {
    if s == "" then [""]
    else if s[0] == sep then [""] + Split(s[1..], sep)
    else
      var rest := Split(s[1..], sep);
      [[s[0]] + rest[0]] + rest[1..]
  }

  function Join(parts: seq<string>, sep: char): string {
    if parts == [] then ""
    else if |parts| == 1 then parts[0]
    else parts[0] + [sep] + Join(parts[1..], sep)
  }

  lemma {:induction false} SplitAtSeparator(a: string, b: string, sep: char)
    ensures Split(a + [sep] + b, sep) == Split(a, sep) + Split(b, sep)
    decreases |a|
  {
    if a == "" {
      assert (a + [sep] + b)[1..] == b;
    } else {
      SplitAtSeparator(a[1..], b, sep);
      assert (a + [sep] + b)[1..] == a[1..] + [sep] + b;
      var ra, rb := Split(a[1..], sep), Split(b, sep);
      assert Split(a + [sep] + b, sep) ==
        if a[0] == sep then [""] + (ra + rb) else [[a[0]] + (ra + rb)[0]] + (ra + rb)[1..];
      if a[0] == sep {
        assert [""] + (ra + rb) == ([""] + ra) + rb;
      } else {
        assert [[a[0]] + (ra + rb)[0]] + (ra + rb)[1..] == ([[a[0]] + ra[0]] + ra[1..]) + rb;
      }
    }
  }

  lemma {:induction false} SplitJoins(s: string, sep: char)
    ensures Join(Split(s, sep), sep) == s
    decreases |s|
  {
    if s != "" {
      SplitJoins(s[1..], sep);
      var rest := Split(s[1..], sep);
      if s[0] == sep {
        assert ([""] + rest)[1..] == rest;
      } else {
        assert ([[s[0]] + rest[0]] + rest[1..])[1..] == rest[1..];
      }
    }
  }

  lemma {:induction false} SplitWithout(s: string, sep: char)
    requires sep !in s
    ensures Split(s, sep) == [s]
    decreases |s|
  {
    if s != "" {
      SplitWithout(s[1..], sep);
      assert Split(s, sep) == [[s[0]] + s[1..]] + [s[1..]][1..];
      assert [s[0]] + s[1..] == s;
    }
  }

  /** Splitting undoes joining when no part holds the separator. */
  lemma {:induction false} JoinSplits(parts: seq<string>, sep: char)
    requires parts != [] && forall p <- parts :: sep !in p
    ensures Split(Join(parts, sep), sep) == parts
  {
    if |parts| == 1 {
      SplitWithout(parts[0], sep);
      assert parts == [parts[0]];
    } else {
      SplitAtSeparator(parts[0], Join(parts[1..], sep), sep);
      SplitWithout(parts[0], sep);
      JoinSplits(parts[1..], sep);
      assert parts == [parts[0]] + parts[1..];
    }
  }

  /** Every part of a parameter string is a digit string. */
  lemma {:induction false} SplitParams(s: string)
    requires AllParamChars(s)
    ensures forall i :: 0 <= i < |Split(s, ';')| ==> AllDigits(Split(s, ';')[i])
    decreases |s|
  {
    if s != "" {
      SplitParams(s[1..]);
    }
  }

  // ----- where a code ends -----

  predicate IsCsiEnd(c: char) { c == 'm' || c == 'G' || c == 'K' || c == 'H' || c == 'J' }

  /** Index past the first CSI end at or after j. */
  function CsiEnd(s: string, j: nat): (e: Option<nat>)
    ensures e.Some? ==> j < e.value <= |s| && IsCsiEnd(s[e.value - 1])
    ensures e.Some? ==> forall k :: j <= k < e.value - 1 ==> !IsCsiEnd(s[k])
    ensures e.None? ==> forall k :: j <= k < |s| ==> !IsCsiEnd(s[k])
    decreases |s| - j
  {
    if j >= |s| then None
    else if IsCsiEnd(s[j]) then Some(j + 1)
    else CsiEnd(s, j + 1)
  }

  /** Index past the first BEL or ESC \ at or after j. */
  function StringEnd(s: string, j: nat): (e: Option<nat>)
    ensures e.Some? ==> j < e.value <= |s|
    decreases |s| - j
  {
    if j >= |s| then None
    else if s[j] == BEL then Some(j + 1)
    else if s[j] == ESC && j + 1 < |s| && s[j + 1] == '\\' then Some(j + 2)
    else StringEnd(s, j + 1)
  }

  /** The escape code a string starts with, if it starts with a complete one. */
  function CodeAtStart(s: string): (code: Option<string>)
    ensures code.Some? ==> 2 < |code.value| <= |s| && code.value == s[..|code.value|]
  {
    if |s| < 2 || s[0] != ESC then None
    else
      var e := if s[1] == '[' then CsiEnd(s, 2)
               else if s[1] == ']' || s[1] == '_' then StringEnd(s, 2)
               else None;
      if e.None? then None else Some(s[..e.value])
  }

  // ----- which codes there are -----

  /** A control sequence is a code up to the first of the letters m, G, K, H and J, whatever follows. */
  lemma CsiIsCode(params: string, f: char, rest: string)
    requires forall i :: 0 <= i < |params| ==> params[i] !in "mGKHJ"
    requires f in "mGKHJ"
    ensures CodeAtStart([ESC] + "[" + params + [f] + rest) == Some([ESC] + "[" + params + [f])
  {
    var code := [ESC] + "[" + params + [f];
    var s := code + rest;
    assert s == [ESC] + "[" + params + [f] + rest;
    assert s[..|code|] == code && s[|code| - 1] == f;
    forall k | 2 <= k < |code| - 1
      ensures !IsCsiEnd(s[k])
    {
      assert s[k] == params[k - 2];
    }
    FirstCsiEnd(s, 2, |code|);
  }

  lemma {:induction false} FirstCsiEnd(s: string, j: nat, e: nat)
    requires j < e <= |s| && IsCsiEnd(s[e - 1]) && forall k :: j <= k < e - 1 ==> !IsCsiEnd(s[k])
    ensures CsiEnd(s, j) == Some(e)
    decreases e - j
  {
    if j < e - 1 {
      FirstCsiEnd(s, j + 1, e);
    }
  }

  /** An OSC or APC string is a code up to BEL or ESC \, whatever follows. */
  lemma StringIsCode(kind: char, body: string, terminator: string, rest: string)
    requires kind == ']' || kind == '_'
    requires BEL !in body && ESC !in body && (terminator == [BEL] || terminator == [ESC, '\\'])
    ensures CodeAtStart([ESC, kind] + body + terminator + rest) == Some([ESC, kind] + body + terminator)
  {
    var code := [ESC, kind] + body + terminator;
    var s := code + rest;
    assert s == [ESC, kind] + body + terminator + rest;
    assert s[..|code|] == code && s[2 + |body|] == terminator[0];
    assert |terminator| == 2 ==> s[3 + |body|] == '\\';
    forall k | 2 <= k < 2 + |body|
      ensures s[k] != BEL && s[k] != ESC
    {
      assert s[k] == body[k - 2];
    }
    FirstTerminator(s, 2, 2 + |body|);
  }

  lemma {:induction false} FirstTerminator(s: string, j: nat, at: nat)
    requires j <= at < |s| && forall k :: j <= k < at ==> s[k] != BEL && s[k] != ESC
    ensures s[at] == BEL ==> StringEnd(s, j) == Some(at + 1)
    ensures s[at] == ESC && at + 1 < |s| && s[at + 1] == '\\' ==> StringEnd(s, j) == Some(at + 2)
    decreases at - j
  {
    if j < at {
      FirstTerminator(s, j + 1, at);
    }
  }

  /** Nothing else is: not without ESC and one of [ ] _ in front, and not before the end has come. */
  lemma NoOtherCode(s: string)
    requires |s| < 2 || s[0] != ESC || s[1] !in "[]_"
             || (s[1] == '[' && forall i :: 2 <= i < |s| ==> s[i] !in "mGKHJ")
             || (s[1] != '[' && BEL !in s[2..] && ESC !in s[2..])
    ensures CodeAtStart(s).None?
  {
    if |s| >= 2 && s[0] == ESC && s[1] in "]_" {
      assert forall k :: 2 <= k < |s| ==> s[k] == s[2..][k - 2];
      NoTerminator(s, 2);
    }
  }

  lemma {:induction false} NoTerminator(s: string, j: nat)
    requires forall k :: j <= k < |s| ==> s[k] != BEL && s[k] != ESC
    ensures StringEnd(s, j).None?
    decreases |s| - j
  {
    if j < |s| {
      NoTerminator(s, j + 1);
    }
  }

  predicate IsCode(code: string) {
    CodeAtStart(code) == Some(code)
  }

  method ExtractAnsiCode(str: string, pos: nat) returns (code: Option<string>)
    requires pos <= |str|
    ensures code == CodeAtStart(str[pos..])
  {
    ghost var s := str[pos..];
    if pos >= |str| || str[pos] != ESC || pos + 1 >= |str| {
      return None;
    }
    var next := str[pos + 1];
    if next == '[' {
      var j := pos + 2;
      while j < |str| && !IsCsiEnd(str[j])
        invariant pos + 2 <= j <= |str|
        invariant CsiEnd(s, 2) == CsiEnd(s, j - pos)
      {
        j := j + 1;
      }
      if j < |str| {
        assert str[pos..j + 1] == s[..j + 1 - pos];
        return Some(str[pos..j + 1]);
      }
      return None;
    }
    if next == ']' || next == '_' {
      var j := pos + 2;
      while j < |str|
        invariant pos + 2 <= j <= |str|
        invariant StringEnd(s, 2) == StringEnd(s, j - pos)
      {
        if str[j] == BEL {
          assert str[pos..j + 1] == s[..j + 1 - pos];
          return Some(str[pos..j + 1]);
        }
        if str[j] == ESC && j + 1 < |str| && str[j + 1] == '\\' {
          assert str[pos..j + 2] == s[..j + 2 - pos];
          return Some(str[pos..j + 2]);
        }
        j := j + 1;
      }
      return None;
    }
    return None;
  }

  lemma {:induction false} CsiEndPrefix(c: string, rest: string, j: nat)
    requires CsiEnd(c, j).Some?
    ensures CsiEnd(c + rest, j) == CsiEnd(c, j)
    decreases |c| - j
  {
    if !IsCsiEnd(c[j]) {
      CsiEndPrefix(c, rest, j + 1);
    }
  }

  lemma {:induction false} StringEndPrefix(c: string, rest: string, j: nat)
    requires StringEnd(c, j) == Some(|c|)
    ensures StringEnd(c + rest, j) == Some(|c|)
    ensures (c[|c| - 1] == BEL && |c| >= j + 1) || (|c| >= j + 2 && c[|c| - 2] == ESC && c[|c| - 1] == '\\')
    decreases |c| - j
  {
    if c[j] == BEL {
    } else if c[j] == ESC && j + 1 < |c| && c[j + 1] == '\\' {
    } else {
      StringEndPrefix(c, rest, j + 1);
    }
  }

  /** A complete code is recognised whatever follows it. */
  lemma CodeIsRecognised(c: string, rest: string)
    requires IsCode(c)
    ensures CodeAtStart(c + rest) == Some(c)
  {
    if c[1] == '[' {
      CsiEndPrefix(c, rest, 2);
    } else {
      StringEndPrefix(c, rest, 2);
    }
    assert (c + rest)[..|c|] == c;
  }
}
