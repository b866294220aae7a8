/** How often a glyph other than the space stands on a canvas, and what writing and painting do to that number. */
module AnsiGlyphs {
  import opened Text
  import opened CanvasModel
  import opened AnsiWriter
  import opened AnsiParser
  import opened AnsiExpansion

  type Glyph = c: char | c != ' ' witness 'x'

  // ---------------------------------------------------------------- on a canvas

  function Mark(c: Glyph, cell: Cell): nat {
    if cell.ch == c then 1 else 0
  }

  function Marks(c: Glyph, cells: seq<Cell>): nat {
    if cells == [] then 0 else Mark(c, cells[0]) + Marks(c, cells[1..])
  }

  function RowMarks(c: Glyph, rows: seq<seq<Cell>>): nat {
    if rows == [] then 0 else Marks(c, rows[0]) + RowMarks(c, rows[1..])
  }

  lemma {:induction false} MarksSet(c: Glyph, cells: seq<Cell>, x: nat, cell: Cell)
    requires x < |cells|
    ensures Marks(c, cells[x := cell]) <= Marks(c, cells) + Mark(c, cell)
  {
    if x == 0 {
      assert cells[x := cell][1..] == cells[1..];
    } else {
      assert cells[x := cell][1..] == cells[1..][x - 1 := cell];
      MarksSet(c, cells[1..], x - 1, cell);
    }
  }

  lemma {:induction false} RowMarksSet(c: Glyph, rows: seq<seq<Cell>>, y: nat, row: seq<Cell>, more: nat)
    requires y < |rows| && Marks(c, row) <= Marks(c, rows[y]) + more
    ensures RowMarks(c, rows[y := row]) <= RowMarks(c, rows) + more
  {
    if y == 0 {
      assert rows[y := row][1..] == rows[1..];
    } else {
      assert rows[y := row][1..] == rows[1..][y - 1 := row];
      RowMarksSet(c, rows[1..], y - 1, row, more);
    }
  }

  lemma SetMarks(c: Glyph, g: Grid, x: int, y: int, cell: Cell)
    requires g.Valid()
    ensures RowMarks(c, g.Set(x, y, cell).rows) <= RowMarks(c, g.rows) + Mark(c, cell.Normal())
  {
    hide Marks, RowMarks;
    if g.InBounds(x, y) {
      MarksSet(c, g.rows[y], x, cell.Normal());
      RowMarksSet(c, g.rows, y, g.rows[y][x := cell.Normal()], Mark(c, cell.Normal()));
    }
  }

  /** A cell of a row that goes on in blanks for ever. */
  function CellOr(cells: seq<Cell>, x: nat): Cell {
    if x < |cells| then cells[x] else BLANK
  }

  lemma {:induction false} MarksMonotone(c: Glyph, a: seq<Cell>, b: seq<Cell>)
    requires forall x: nat :: Mark(c, CellOr(a, x)) <= Mark(c, CellOr(b, x))
    ensures Marks(c, a) <= Marks(c, b)
    decreases |a|
  {
    if a != [] {
      var b' := if b == [] then [] else b[1..];
      assert Mark(c, CellOr(a, 0)) <= Mark(c, CellOr(b, 0));
      forall x: nat ensures Mark(c, CellOr(a[1..], x)) <= Mark(c, CellOr(b', x)) {
        assert Mark(c, CellOr(a, x + 1)) <= Mark(c, CellOr(b, x + 1));
      }
      MarksMonotone(c, a[1..], b');
    }
  }

  function RowOr(rows: seq<seq<Cell>>, y: nat): seq<Cell> {
    if y < |rows| then rows[y] else []
  }

  lemma {:induction false} RowMarksMonotone(c: Glyph, a: seq<seq<Cell>>, b: seq<seq<Cell>>)
    requires forall y: nat :: Marks(c, RowOr(a, y)) <= Marks(c, RowOr(b, y))
    ensures RowMarks(c, a) <= RowMarks(c, b)
    decreases |a|
  {
    hide Marks;
    if a != [] {
      var b' := if b == [] then [] else b[1..];
      assert Marks(c, RowOr(a, 0)) <= Marks(c, RowOr(b, 0));
      NoMarks(c);
      forall y: nat ensures Marks(c, RowOr(a[1..], y)) <= Marks(c, RowOr(b', y)) {
        assert Marks(c, RowOr(a, y + 1)) <= Marks(c, RowOr(b, y + 1));
      }
      RowMarksMonotone(c, a[1..], b');
    }
  }

  lemma NoMarks(c: Glyph)
    ensures Marks(c, []) == 0
  {
  }

  /** A grid that shows the glyph nowhere but where another does has it at most as often. */
  lemma GridMarks(c: Glyph, a: Grid, b: Grid)
    requires a.Valid() && b.Valid()
    requires forall x, y :: Mark(c, a.Get(x, y)) <= Mark(c, b.Get(x, y))
    ensures RowMarks(c, a.rows) <= RowMarks(c, b.rows)
  {
    hide Marks, RowMarks;
    forall y: nat ensures Marks(c, RowOr(a.rows, y)) <= Marks(c, RowOr(b.rows, y)) {
      forall x: nat ensures Mark(c, CellOr(RowOr(a.rows, y), x)) <= Mark(c, CellOr(RowOr(b.rows, y), x)) {
        assert Mark(c, a.Get(x, y)) <= Mark(c, b.Get(x, y));
      }
      MarksMonotone(c, RowOr(a.rows, y), RowOr(b.rows, y));
    }
    RowMarksMonotone(c, a.rows, b.rows);
  }

  /** The glyph in the drawn part of each row. */
  function DrawnRowMarks(c: Glyph, rows: seq<seq<Cell>>): nat {
    if rows == [] then 0 else Marks(c, Drawn(rows[0])) + DrawnRowMarks(c, rows[1..])
  }

  lemma {:induction false} DrawnMarks(c: Glyph, rows: seq<seq<Cell>>)
    ensures DrawnRowMarks(c, rows) <= RowMarks(c, rows)
  {
    hide Marks;
    if rows != [] {
      forall x: nat ensures Mark(c, CellOr(Drawn(rows[0]), x)) <= Mark(c, CellOr(rows[0], x)) {
      }
      MarksMonotone(c, Drawn(rows[0]), rows[0]);
      DrawnMarks(c, rows[1..]);
    }
  }

  lemma BlankMarks(c: Glyph, cols: nat, rows: nat)
    requires 1 <= cols <= MAX_COLS && 1 <= rows <= MAX_ROWS
    ensures RowMarks(c, BlankGrid(cols, rows).rows) == 0
  {
    hide RowMarks, Marks;
    GridMarks(c, BlankGrid(cols, rows), Grid(1, [[BLANK]]));
    OneBlank(c);
  }

  lemma OneBlank(c: Glyph)
    ensures RowMarks(c, [[BLANK]]) == 0
  {
    assert [[BLANK]][1..] == [] && [BLANK][1..] == [];
    assert Marks(c, [BLANK]) == 0;
  }

  // ---------------------------------------------------------------- painted

  lemma PutMarks(c: Glyph, s: Screen, ch: char)
    requires s.grid.Valid()
    ensures RowMarks(c, s.Put(ch).grid.rows) <= RowMarks(c, s.grid.rows) + (if ch == c then 1 else 0)
  {
    hide RowMarks;
    SetMarks(c, s.grid, s.cx, s.cy, Cell(ch, s.attr.fg, s.attr.bg));
  }

  lemma {:induction false} TabMarks(c: Glyph, s: Screen)
    requires s.grid.Valid()
    ensures RowMarks(c, Tabbed(s).grid.rows) <= RowMarks(c, s.grid.rows)
    decreases TabGap(s.cx)
  {
    hide RowMarks;
    if s.cx % 8 != 0 {
      TabShrinks(s.cx);
      PutMarks(c, s, ' ');
      TabMarks(c, s.Put(' '));
    }
  }

  lemma ControlMarks(c: Glyph, s: Screen, final: char, params: seq<int>)
    requires s.grid.Valid()
    ensures RowMarks(c, Controlled(s, final, params).grid.rows) <= RowMarks(c, s.grid.rows)
  {
    hide RowMarks, Applied, InErasedDisplay, InErasedLine;
    var r := Controlled(s, final, params);
    if final == 'J' || final == 'K' {
      forall x, y ensures Mark(c, r.grid.Get(x, y)) <= Mark(c, s.grid.Get(x, y)) {
      }
      GridMarks(c, r.grid, s.grid);
    }
  }

  /** One turn of the painting pass adds the glyph at most where it reads it as a glyph. */
  lemma OneMarks(c: Glyph, s: Screen, t: string)
    requires s.grid.Valid() && t != []
    ensures RowMarks(c, PaintOne(s, t).grid.rows) <=
      RowMarks(c, s.grid.rows) + (if CsiFinal(t) == 0 && t[0] == c then 1 else 0)
  {
    hide RowMarks, CsiFinal, Controlled, Tabbed, Params;
    var j := CsiFinal(t);
    if j != 0 {
      ControlMarks(c, s, t[j], Params(t[2..j]));
    } else if t[0] == '\t' {
      TabMarks(c, s);
    } else if t[0] >= ' ' {
      PutMarks(c, s, t[0]);
    }
  }

  // ---------------------------------------------------------------- in a text

  function Times(c: char, t: string): nat {
    if t == [] then 0 else (if t[0] == c then 1 else 0) + Times(c, t[1..])
  }

  lemma {:induction false} TimesAppend(c: char, a: string, b: string)
    ensures Times(c, a + b) == Times(c, a) + Times(c, b)
  {
    if a == [] {
      assert a + b == b;
    } else {
      assert (a + b)[1..] == a[1..] + b;
      TimesAppend(c, a[1..], b);
    }
  }

  lemma TimesSplit(c: char, t: string, i: nat)
    requires i <= |t|
    ensures Times(c, t) == Times(c, t[..i]) + Times(c, t[i..])
  {
    assert t == t[..i] + t[i..];
    TimesAppend(c, t[..i], t[i..]);
  }

  lemma {:induction false} NoTimes(c: char, t: string)
    requires c !in t
    ensures Times(c, t) == 0
  {
    if t != [] {
      NoTimes(c, t[1..]);
    }
  }

  /** Painting a text adds the glyph at most as often as the text holds it. */
  lemma {:induction false} PaintTimes(c: Glyph, s: Screen, t: string)
    requires s.grid.Valid()
    ensures RowMarks(c, Painted(s, t).grid.rows) <= RowMarks(c, s.grid.rows) + Times(c, t)
    decreases |t|
  {
    hide RowMarks, PaintOne, CsiFinal;
    if !AtEnd(t) {
      OneMarks(c, s, t);
      PaintTimes(c, PaintOne(s, t), t[Item(t)..]);
      TimesSplit(c, t, Item(t));
      FirstTimes(c, t, Item(t));
    }
  }

  lemma FirstTimes(c: char, t: string, n: nat)
    requires 0 < n <= |t|
    ensures Times(c, t[..n]) >= if t[0] == c then 1 else 0
  {
    assert t[..n][0] == t[0];
  }

  /** The pre-pass only puts in ESC. */
  lemma {:induction false} ExpandedTimes(c: char, s: string)
    requires c != ESC
    ensures Times(c, Expanded(s)) == Times(c, s)
    decreases |s|
  {
    hide ExpandsBefore, RunLength, Times;
    if s == [] {
    } else if s[0] == '[' && ExpandsBefore(s[1..]) {
      CodeEnds(s);
      var n := RunLength(s[1..]) + 2;
      ExpandedTimes(c, s[n..]);
      TimesSplit(c, s, n);
      TimesAppend(c, [ESC] + s[..n], Expanded(s[n..]));
      TimesAppend(c, [ESC], s[..n]);
      NoTimes(c, [ESC]);
    } else {
      ExpandedTimes(c, s[1..]);
      TimesSplit(c, s, 1);
      TimesAppend(c, [s[0]], Expanded(s[1..]));
      assert s[..1] == [s[0]];
    }
  }

  lemma CodeEnds(s: string)
    requires s != [] && s[0] == '[' && ExpandsBefore(s[1..])
    ensures RunLength(s[1..]) + 2 <= |s|
  {
  }

  // ---------------------------------------------------------------- written

  /** A glyph that no colour code and no line end holds. */
  predicate Foreign(c: Glyph) {
    c != ESC && c != '[' && c != 'm' && !InRun(c) && c != '\r' && c != '\n'
  }

  lemma CodeTimes(c: Glyph, codes: seq<Byte>, rest: string)
    requires Foreign(c) && codes != []
    ensures Times(c, Sgr(codes) + rest) == Times(c, rest)
  {
    hide Times, Join, Decimals;
    JoinedRun(codes);
    TimesAppend(c, Sgr(codes), rest);
    NoTimes(c, Sgr(codes));
  }

  lemma ChangeTimes(c: Glyph, pen: Pen, fg: Color, bg: Color, rest: string)
    requires Foreign(c) && fg.ValidFG() && bg.ValidBG()
    ensures Times(c, ColorChange("", pen, fg, bg) + rest) == Times(c, rest)
  {
    hide Times, Sgr;
    if pen == Holding(fg, bg) {
      assert "" + rest == rest;
    } else {
      assert "" + Sgr(SgrCodes(pen.Fresh?, fg, bg)) == Sgr(SgrCodes(pen.Fresh?, fg, bg));
      CodeTimes(c, SgrCodes(pen.Fresh?, fg, bg), rest);
    }
  }

  lemma {:induction false} RenderTimes(c: Glyph, pen: Pen, cells: seq<Cell>, rest: string)
    requires Foreign(c) && c != '\0' && ValidCells(cells)
    ensures Times(c, Render("", pen, cells) + rest) == Marks(c, cells) + Times(c, rest)
    decreases |cells|
  {
    hide Times, Render;
    if cells == [] {
      RenderNothing("", pen);
      assert "" + rest == rest;
    } else {
      var cell := cells[0];
      var next := Holding(cell.fg, cell.bg);
      var ch := cell.Normal().ch;
      var tail := Render("", next, cells[1..]) + rest;
      RenderCons("", pen, cells, rest);
      ChangeTimes(c, pen, cell.fg, cell.bg, [ch] + tail);
      TimesAppend(c, [ch], tail);
      OneTime(c, ch);
      RenderTimes(c, next, cells[1..], rest);
    }
  }

  lemma OneTime(c: char, ch: char)
    ensures Times(c, [ch]) == if ch == c then 1 else 0
  {
    assert [ch][1..] == [];
  }

  lemma {:induction false} RowsTimes(c: Glyph, pen: Pen, rows: seq<seq<Cell>>)
    requires Foreign(c) && c != '\0' && ValidRows(rows)
    ensures Times(c, RenderRows("", pen, rows)) == DrawnRowMarks(c, rows)
    decreases |rows|
  {
    hide Times, Render, RenderRows, Marks, Drawn;
    if rows == [] {
      RenderNoRows("", pen);
      assert "" + Sgr([0]) == Sgr([0]) + "";
      CodeTimes(c, [0], "");
      NoTimes(c, "");
    } else {
      var cells := Drawn(rows[0]);
      var next := PenAfter(pen, cells);
      var below := RenderRows("", next, rows[1..]);
      DrawnIsValid(rows[0]);
      RenderFirstRow("", pen, rows);
      RenderTimes(c, pen, cells, CRLF + below);
      TimesAppend(c, CRLF, below);
      NoTimes(c, CRLF);
      RowsTimes(c, next, rows[1..]);
    }
  }

  lemma DrawnIsValid(row: seq<Cell>)
    requires ValidCells(row)
    ensures ValidCells(Drawn(row))
  {
  }

  /** A text that holds the glyph less often than the canvas was written with cannot show that canvas. */
  lemma FewerGlyphs(c: Glyph, g: Grid, text: string, cols: int, rows: int)
    requires g.Valid() && ValidRows(g.rows) && Foreign(c) && c != '\0'
    requires Times(c, text) < Times(c, Written(g))
    ensures RowMarks(c, Parsed(text, cols, rows).rows) < RowMarks(c, g.rows)
  {
    hide Expanded, Painted, Measured, RenderRows, RowMarks, Times, BlankGrid;
    var runes := Expanded(text);
    MeasuredGrows(Extent(0, 0, Size(cols, DEF_COLS) - 1, Size(rows, DEF_ROWS) - 1, 0, 0), runes);
    var s := Start(Extents(runes, cols, rows));
    PaintTimes(c, s, runes);
    BlankMarks(c, s.grid.cols, |s.grid.rows|);
    ExpandedTimes(c, text);
    RowsTimes(c, Fresh, g.rows);
    DrawnMarks(c, g.rows);
  }
}
