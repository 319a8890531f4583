/** The part of an ECMA-48 terminal that the renderer relies on: a screen of rows over a
    scrollback, a clamped cursor, and a pen whose attributes colour what is written. */
module Terminal {
  import opened Text

  /** Codes in force: everything since the last SGR reset, and the open hyperlink. */
  datatype Pen = Pen(sgr: seq<string>, link: string)
  const PLAIN := Pen([], "")

  datatype Cell = Cell(text: string, pen: Pen)
  type Row = seq<Cell>

  function Blank(width: nat, pen: Pen): (row: Row)
    ensures |row| == width
  {
    seq(width, _ => Cell(" ", pen))
  }

  function PenAfter(pen: Pen, code: string): Pen {
    if code == SGR_RESET then pen.(sgr := [])
    else if code == LINK_CLOSE then pen.(link := "")
    else if [ESC] + "]8;" <= code then pen.(link := code)
    else pen.(sgr := pen.sgr + [code])
  }

  /** A grapheme of width w fills w cells; the text sits in the first. */
  function Place(row: Row, col: nat, text: string, w: nat, pen: Pen): (r: Row)
    ensures |r| == |row|
  {
    if w == 0 || col + w > |row| then row
    else row[..col] + [Cell(text, pen)] + seq(w - 1, _ => Cell("", pen)) + row[col + w..]
  }

  /** What writing items from column `col` does to one row, when nothing wraps. */
  datatype Ink = Ink(row: Row, col: nat, pen: Pen)

  function Paint(ink: Ink, items: Line): (r: Ink)
    ensures |r.row| == |ink.row|
    ensures r.col == ink.col + VisibleWidth(items)
    decreases |items|
  {
    if items == [] then ink
    else Paint(PaintItem(ink, items[0]), items[1..])
  }

  function PaintItem(ink: Ink, item: Item): (r: Ink)
    ensures |r.row| == |ink.row| && r.col == ink.col + ItemWidth(item)
  {
    match item
    case Code(c) => ink.(pen := PenAfter(ink.pen, c))
    case Grapheme(t, w) => Ink(Place(ink.row, ink.col, t, w, ink.pen), ink.col + w, ink.pen)
  }

  /** The row a line is meant to produce: written from column 0 on a blank row with a plain pen. */
  function Show(line: Line, width: nat): (row: Row)
    ensures |row| == width
  {
    Paint(Ink(Blank(width, PLAIN), 0, PLAIN), line).row
  }

  datatype Term = Term(width: nat, height: nat, scrollback: seq<Row>, screen: seq<Row>,
                       row: int, col: nat, pen: Pen, cursorShown: bool)
  {
    ghost predicate Valid() {
      && width > 0 && height > 0
      && |screen| == height
      && 0 <= row < height
      && forall r :: 0 <= r < height ==> |screen[r]| == width
    }
  }

  datatype Op =
    | Write(items: Line)
    | CR                      // carriage return, ECMA-48 8.3.15
    | LF                      // line feed, 8.3.74: scrolls when the cursor is on the last row
    | CUU(n: int)             // cursor up, 8.3.22, stops at the first row
    | CUD(n: int)             // cursor down, 8.3.19, stops at the last row
    | CUP(line: int, column: int)  // cursor position, 8.3.21, both counted from 1
    | CHA(column: int)        // cursor character absolute, 8.3.9, counted from 1
    | EL2                     // erase the whole line, 8.3.41
    | ED2                     // erase the whole page, 8.3.39
    | ED3                     // xterm: erase the scrollback
    | Synchronized(on: bool)  // private mode 2026, no visible effect here

  function Clamp(lo: int, x: int, hi: int): int {
    if x < lo then lo else if x > hi then hi else x
  }

  function LineFeed(t: Term): (r: Term)
    requires t.Valid()
    ensures r.Valid() && r.width == t.width && r.height == t.height
  {
    if t.row < t.height - 1 then t.(row := t.row + 1)
    else t.(scrollback := t.scrollback + [t.screen[0]],
            screen := t.screen[1..] + [Blank(t.width, t.pen)])
  }

  /** Writing one item, with automatic wrapping at the right margin. */
  function WriteItem(t: Term, item: Item): (r: Term)
    requires t.Valid()
    ensures r.Valid() && r.width == t.width && r.height == t.height
  {
    match item
    case Code(c) => t.(pen := PenAfter(t.pen, c))
    case Grapheme(text, w) =>
      var u := if w > 0 && t.col + w > t.width then LineFeed(t).(col := 0) else t;
      u.(screen := u.screen[u.row := Place(u.screen[u.row], u.col, text, w, u.pen)], col := u.col + w)
  }

  function WriteItems(t: Term, items: Line): (r: Term)
    requires t.Valid()
    ensures r.Valid() && r.width == t.width && r.height == t.height
    decreases |items|
  {
    if items == [] then t else WriteItems(WriteItem(t, items[0]), items[1..])
  }

  function Apply(t: Term, op: Op): (r: Term)
    requires t.Valid()
    ensures r.Valid() && r.width == t.width && r.height == t.height
  {
    match op
    case Write(items) => WriteItems(t, items)
    case CR => t.(col := 0)
    case LF => LineFeed(t)
    case CUU(n) => t.(row := Clamp(0, t.row - n, t.height - 1))
    case CUD(n) => t.(row := Clamp(0, t.row + n, t.height - 1))
    case CUP(l, c) => t.(row := Clamp(0, l - 1, t.height - 1), col := Clamp(0, c - 1, t.width - 1))
    case CHA(c) => t.(col := Clamp(0, c - 1, t.width - 1))
    case EL2 => t.(screen := t.screen[t.row := Blank(t.width, t.pen)])
    case ED2 => t.(screen := seq(t.height, _ => Blank(t.width, t.pen)))
    case ED3 => t.(scrollback := [])
    case Synchronized(_) => t
  }

  function Exec(t: Term, ops: seq<Op>): (r: Term)
    requires t.Valid()
    ensures r.Valid() && r.width == t.width && r.height == t.height
    decreases |ops|
  {
    if ops == [] then t else Exec(Apply(t, ops[0]), ops[1..])
  }

  lemma {:induction false} ExecConcat(t: Term, a: seq<Op>, b: seq<Op>)
    requires t.Valid()
    ensures Exec(t, a + b) == Exec(Exec(t, a), b)
    decreases |a|
  {
    if a == [] {
      assert a + b == b;
    } else {
      assert (a + b)[0] == a[0] && (a + b)[1..] == a[1..] + b;
      ExecConcat(Apply(t, a[0]), a[1..], b);
    }
  }

  lemma ExecOne(t: Term, op: Op)
    requires t.Valid()
    ensures Exec(t, [op]) == Apply(t, op)
  {
    assert [op][1..] == [];
  }

  lemma ExecSnoc(t: Term, ops: seq<Op>, op: Op)
    requires t.Valid()
    ensures Exec(t, ops + [op]) == Apply(Exec(t, ops), op)
  {
    ExecConcat(t, ops, [op]);
    ExecOne(Exec(t, ops), op);
  }

  lemma {:induction false} PenFollowsItems(t: Term, u: Term, items: Line)
    requires t.Valid() && u.Valid() && t.pen == u.pen
    ensures WriteItems(t, items).pen == WriteItems(u, items).pen
    decreases |items|
  {
    if items != [] {
      PenFollowsItems(WriteItem(t, items[0]), WriteItem(u, items[0]), items[1..]);
    }
  }

  /** The pen depends on what was sent, not on where it was written. */
  lemma {:induction false} PenFollowsOps(t: Term, u: Term, ops: seq<Op>)
    requires t.Valid() && u.Valid() && t.pen == u.pen
    ensures Exec(t, ops).pen == Exec(u, ops).pen
    decreases |ops|
  {
    if ops != [] {
      if ops[0].Write? {
        PenFollowsItems(t, u, ops[0].items);
      }
      PenFollowsOps(Apply(t, ops[0]), Apply(u, ops[0]), ops[1..]);
    }
  }

  /** A line that fits is written on the cursor's row alone, without wrapping. */
  lemma {:induction false} WriteFits(t: Term, items: Line)
    requires t.Valid()
    requires t.col + VisibleWidth(items) <= t.width
    ensures var ink := Paint(Ink(t.screen[t.row], t.col, t.pen), items);
      WriteItems(t, items) == t.(screen := t.screen[t.row := ink.row], col := ink.col, pen := ink.pen)
    decreases |items|
  {
    if items == [] {
      assert t.screen[t.row := t.screen[t.row]] == t.screen;
    } else {
      var u := WriteItem(t, items[0]);
      WriteFits(u, items[1..]);
      assert u.screen[u.row := Paint(Ink(u.screen[u.row], u.col, u.pen), items[1..]).row]
          == t.screen[t.row := Paint(Ink(t.screen[t.row], t.col, t.pen), items).row];
    }
  }

  lemma {:induction false} PaintConcat(ink: Ink, a: Line, b: Line)
    ensures Paint(ink, a + b) == Paint(Paint(ink, a), b)
    decreases |a|
  {
    if a == [] {
      assert a + b == b;
    } else {
      assert (a + b)[1..] == a[1..] + b;
      PaintConcat(PaintItem(ink, a[0]), a[1..], b);
    }
  }

  /** A line closed by the segment reset leaves a plain pen, so no style reaches the next line. */
  lemma ResetLeavesPlainPen(ink: Ink, line: Line)
    ensures Paint(ink, line + SEGMENT_RESET).pen == PLAIN
  {
    PaintConcat(ink, line, SEGMENT_RESET);
    assert LINK_CLOSE[1] == ']' && SGR_RESET[1] == '[';
    var mid := Paint(ink, line);
    var off := PaintItem(mid, Code(SGR_RESET));
    var end := PaintItem(off, Code(LINK_CLOSE));
    calc {
      Paint(mid, SEGMENT_RESET);
      { assert SEGMENT_RESET[1..] == [Code(LINK_CLOSE)]; }
      Paint(off, [Code(LINK_CLOSE)]);
      { assert [Code(LINK_CLOSE)][1..] == []; }
      end;
    }
  }

  lemma {:induction false} PaintKeepsLeft(ink: Ink, items: Line, k: nat)
    requires k < ink.col && k < |ink.row|
    ensures Paint(ink, items).row[k] == ink.row[k]
    decreases |items|
  {
    if items != [] {
      PaintKeepsLeft(PaintItem(ink, items[0]), items[1..], k);
    }
  }

  /** What Show means: each grapheme stands at the column given by the widths before it, in the
      pen left by the codes before it. */
  lemma ShowPutsGraphemeAtItsColumn(before: Line, text: string, w: nat, after: Line, width: nat)
    requires w > 0 && VisibleWidth(before) + w <= width
    ensures Show(before + [Grapheme(text, w)] + after, width)[VisibleWidth(before)]
         == Cell(text, Paint(Ink(Blank(width, PLAIN), 0, PLAIN), before).pen)
  {
    var ink0 := Ink(Blank(width, PLAIN), 0, PLAIN);
    var g := Grapheme(text, w);
    PaintConcat(ink0, before + [g], after);
    PaintConcat(ink0, before, [g]);
    var mid := Paint(ink0, before);
    assert Paint(mid, [g]) == PaintItem(mid, g) by { assert [g][1..] == []; }
    PaintKeepsLeft(PaintItem(mid, g), after, VisibleWidth(before));
  }
}
