/** Text as the terminal UI sees it: escape codes that take no column, and graphemes
    that take a given number of columns. */
module Text {

  datatype Option<+T> = None | Some(value: T)

  const ESC: char := '\U{1b}'
  const BEL: char := '\U{07}'

  datatype Item =
    | Code(code: string)
    | Grapheme(text: string, width: nat)

  type Line = seq<Item>

  function ItemWidth(item: Item): nat {
    match item
    case Code(_) => 0
    case Grapheme(_, w) => w
  }

  function VisibleWidth(line: Line): nat {
    if line == [] then 0 else ItemWidth(line[0]) + VisibleWidth(line[1..])
  }

  lemma {:induction false} VisibleWidthConcat(a: Line, b: Line)
    ensures VisibleWidth(a + b) == VisibleWidth(a) + VisibleWidth(b)
  {
    if a == [] {
      assert a + b == b;
    } else {
      assert (a + b)[1..] == a[1..] + b;
      VisibleWidthConcat(a[1..], b);
    }
  }

  /** The two codes written after every rendered line: SGR reset and hyperlink close. */
  const SGR_RESET: string := [ESC] + "[0m"
  const LINK_CLOSE: string := [ESC] + "]8;;" + [BEL]
  const SEGMENT_RESET: Line := [Code(SGR_RESET), Code(LINK_CLOSE)]

  /** Lower case, of ASCII letters. */
  function Lower(s: string): string {
    seq(|s|, i requires 0 <= i < |s| => if 'A' <= s[i] <= 'Z' then (s[i] as int + 32) as char else s[i])
  }

  /** The white space and line terminators of JavaScript. */
  predicate IsSpace(c: char) {
    var n := c as int;
    9 <= n <= 13 || n == 32 || n == 0xA0 || n == 0x1680 || 0x2000 <= n <= 0x200A || n == 0x2028 || n == 0x2029
    || n == 0x202F || n == 0x205F || n == 0x3000 || n == 0xFEFF
  }

  // ----- strings in pieces -----

  function Concat(parts: seq<string>): string {
    if parts == [] then "" else parts[0] + Concat(parts[1..])
  }

  lemma {:induction false} ConcatSnoc(chunks: seq<string>, chunk: string)
    ensures Concat(chunks + [chunk]) == Concat(chunks) + chunk
    decreases |chunks|
  {
    if chunks == [] {
      assert [chunk][1..] == [];
    } else {
      assert (chunks + [chunk])[1..] == chunks[1..] + [chunk];
      ConcatSnoc(chunks[1..], chunk);
    }
  }

  lemma {:induction false} ConcatAppends(a: seq<string>, b: seq<string>)
    ensures Concat(a + b) == Concat(a) + Concat(b)
    decreases |a|
  {
    if a == [] {
      assert a + b == b;
    } else {
      assert (a + b)[1..] == a[1..] + b;
      ConcatAppends(a[1..], b);
    }
  }

  lemma {:induction false} ConcatPrefix(chunks: seq<string>, k: nat)
    requires k <= |chunks|
    ensures Concat(chunks[..k]) <= Concat(chunks)
    decreases k
  {
    if k > 0 {
      assert chunks[..k][1..] == chunks[1..][..k - 1];
      ConcatPrefix(chunks[1..], k - 1);
    }
  }

  // ----- numbers -----

  function Max(a: int, b: int): int { if a < b then b else a }
  function Min(a: int, b: int): int { if a < b then a else b }
}
