/** AnsiEdit/write.go: a canvas printed as text with the fewest SGR sequences.

    Works on code points: a canvas is written as UTF-8 and decoded again before it is parsed. */
module AnsiWriter {
  import opened Text
  import opened CanvasModel

  const CRLF: string := "\r\n"

  /** The colours the terminal is known to hold: none before the first SGR. */
  datatype Pen = Fresh | Holding(fg: Color, bg: Color)

  function ResetCodes(first: bool, fg: Color, bg: Color): seq<Byte> {
    if first || (!fg.Truecolor? && !bg.Truecolor?) then [0] else []
  }

  function FgCodes(fg: Color): seq<Byte>
    requires fg.ValidFG()
  {
    match fg
    case Truecolor(r, g, b) => [38, 2, r, g, b]
    case Classic(idx) => if idx >= 8 then [1, 30 + idx - 8] else [30 + idx]
  }

  function BgCodes(bg: Color): seq<Byte>
    requires bg.ValidBG()
  {
    match bg
    case Truecolor(r, g, b) => [48, 2, r, g, b]
    case Classic(idx) => [40 + idx]
  }

  /** The parameters of one full colour update. */
  function SgrCodes(first: bool, fg: Color, bg: Color): seq<Byte>
    requires fg.ValidFG() && bg.ValidBG()
  {
    ResetCodes(first, fg, bg) + FgCodes(fg) + BgCodes(bg)
  }

  function Decimals(ns: seq<Byte>): seq<string> {
    seq(|ns|, i requires 0 <= i < |ns| => Decimal(ns[i]))
  }

  function Sgr(codes: seq<Byte>): string {
    [ESC, '['] + Join(Decimals(codes), ';') + ['m']
  }

  /** The colour change before a cell; `pre` is put in front of every SGR (see Expanded in AnsiParser). */
  function ColorChange(pre: string, pen: Pen, fg: Color, bg: Color): string
    requires fg.ValidFG() && bg.ValidBG()
  {
    if pen == Holding(fg, bg) then "" else pre + Sgr(SgrCodes(pen.Fresh?, fg, bg))
  }

  /** The text drawn for one cell. */
  function Token(pre: string, pen: Pen, cell: Cell): string
    requires cell.fg.ValidFG() && cell.bg.ValidBG()
  {
    ColorChange(pre, pen, cell.fg, cell.bg) + [cell.Normal().ch]
  }

  predicate ValidCells(cells: seq<Cell>) {
    forall i :: 0 <= i < |cells| ==> cells[i].fg.ValidFG() && cells[i].bg.ValidBG()
  }

  predicate ValidRows(rows: seq<seq<Cell>>) {
    forall y :: 0 <= y < |rows| ==> ValidCells(rows[y])
  }

  function Render(pre: string, pen: Pen, cells: seq<Cell>): string
    requires ValidCells(cells)
    decreases |cells|
  {
    if cells == [] then ""
    else Token(pre, pen, cells[0]) + Render(pre, Holding(cells[0].fg, cells[0].bg), cells[1..])
  }

  function PenAfter(pen: Pen, cells: seq<Cell>): Pen {
    if cells == [] then pen else Holding(cells[|cells| - 1].fg, cells[|cells| - 1].bg)
  }

  /** The column after the last cell of a row that is not a default blank. */
  function RowEnd(row: seq<Cell>): (end: nat)
    ensures end <= |row|
    ensures end > 0 ==> row[end - 1] != BLANK
    ensures forall x :: end <= x < |row| ==> row[x] == BLANK
  {
    if row != [] && row[|row| - 1] == BLANK then RowEnd(row[..|row| - 1]) else |row|
  }

  function Drawn(row: seq<Cell>): seq<Cell> {
    row[..RowEnd(row)]
  }

  function RenderRows(pre: string, pen: Pen, rows: seq<seq<Cell>>): string
    requires ValidRows(rows)
    decreases |rows|
  {
    if rows == [] then pre + Sgr([0])
    else Render(pre, pen, Drawn(rows[0])) + CRLF + RenderRows(pre, PenAfter(pen, Drawn(rows[0])), rows[1..])
  }

  lemma RenderNoRows(pre: string, pen: Pen)
    ensures RenderRows(pre, pen, []) == pre + Sgr([0])
  {
  }

  lemma RenderFirstRow(pre: string, pen: Pen, rows: seq<seq<Cell>>)
    requires ValidRows(rows) && rows != []
    ensures RenderRows(pre, pen, rows) ==
      Render(pre, pen, Drawn(rows[0])) + (CRLF + RenderRows(pre, PenAfter(pen, Drawn(rows[0])), rows[1..]))
  {
    Assoc(Render(pre, pen, Drawn(rows[0])), CRLF, RenderRows(pre, PenAfter(pen, Drawn(rows[0])), rows[1..]));
  }

  /** What WriteANSI prints for a canvas. */
  function Written(g: Grid): string
    requires ValidRows(g.rows)
  {
    RenderRows("", Fresh, g.rows)
  }

  lemma RenderNothing(pre: string, pen: Pen)
    ensures Render(pre, pen, []) == ""
  {
  }

  /** Appending a cell to a row appends its token. */
  lemma {:induction false} RenderSnoc(pre: string, pen: Pen, cells: seq<Cell>, cell: Cell)
    requires ValidCells(cells) && cell.fg.ValidFG() && cell.bg.ValidBG()
    ensures Render(pre, pen, cells + [cell]) == Render(pre, pen, cells) + Token(pre, PenAfter(pen, cells), cell)
    decreases |cells|
  {
    if cells == [] {
      assert (cells + [cell])[1..] == [];
      assert Token(pre, pen, cell) + "" == Token(pre, pen, cell) == "" + Token(pre, pen, cell);
    } else {
      var next := Holding(cells[0].fg, cells[0].bg);
      assert (cells + [cell])[1..] == cells[1..] + [cell];
      RenderSnoc(pre, next, cells[1..], cell);
      Assoc(Token(pre, pen, cells[0]), Render(pre, next, cells[1..]), Token(pre, PenAfter(pen, cells), cell));
    }
  }

  lemma DecimalsConcat(a: seq<Byte>, b: seq<Byte>)
    ensures Decimals(a + b) == Decimals(a) + Decimals(b)
  {
  }

  function ResetParts(first: bool, fg: Color, bg: Color): (parts: seq<string>)
    ensures parts == Decimals(ResetCodes(first, fg, bg))
  {
    if first || (!fg.Truecolor? && !bg.Truecolor?) then [Decimal(0)] else []
  }

  function ForegroundParts(fg: Color): (parts: seq<string>)
    requires fg.ValidFG()
    ensures parts == Decimals(FgCodes(fg))
  {
    match fg
    case Truecolor(r, g, b) => [Decimal(38), Decimal(2), Decimal(r), Decimal(g), Decimal(b)]
    case Classic(idx) => if idx >= 8 then [Decimal(1), Decimal(30 + idx - 8)] else [Decimal(30 + idx)]
  }

  function BackgroundParts(bg: Color): (parts: seq<string>)
    requires bg.ValidBG()
    ensures parts == Decimals(BgCodes(bg))
  {
    match bg
    case Truecolor(r, g, b) => [Decimal(48), Decimal(2), Decimal(r), Decimal(g), Decimal(b)]
    case Classic(idx) => [Decimal(40 + idx)]
  }

  lemma SgrOfParts(parts: seq<string>, codes: seq<Byte>)
    requires parts == Decimals(codes)
    ensures "" + Sgr(codes) == [ESC, '['] + Join(parts, ';') + ['m']
  {
    hide Join, Decimals;
  }

  /** The closure emitSGR: the text it writes for a cell's colours. */
  method EmitSGR(pen: Pen, fg: Color, bg: Color) returns (out: string)
    requires fg.ValidFG() && bg.ValidBG()
    ensures out == ColorChange("", pen, fg, bg)
  {
    if pen == Holding(fg, bg) {
      return "";
    }
    hide Decimals;
    var parts := ResetParts(pen.Fresh?, fg, bg);
    parts := parts + ForegroundParts(fg);
    DecimalsConcat(ResetCodes(pen.Fresh?, fg, bg), FgCodes(fg));
    parts := parts + BackgroundParts(bg);
    DecimalsConcat(ResetCodes(pen.Fresh?, fg, bg) + FgCodes(fg), BgCodes(bg));
    SgrOfParts(parts, SgrCodes(pen.Fresh?, fg, bg));
    out := [ESC, '['] + Join(parts, ';') + ['m'];
  }

  /** The loop that looks for the last cell of row y to draw. */
  method FindRowEnd(c: Canvas, y: nat) returns (end: nat)
    requires c.Valid() && y < c.rows
    ensures end == RowEnd(c.View().rows[y])
  {
    ghost var row := c.View().rows[y];
    end := c.cols;
    assert row[..end] == row;
    while end > 0
      invariant 0 <= end <= c.cols
      invariant RowEnd(row[..end]) == RowEnd(row)
    {
      var cell := c.Get(end - 1, y);
      assert cell == row[end - 1];
      if cell.ch != ' ' || cell.bg.Truecolor? || (!cell.bg.Truecolor? && cell.bg.idx != 0) ||
        (cell.fg.Truecolor? || (!cell.fg.Truecolor? && cell.fg.idx != 7)) {
        return;
      }
      assert row[..end][..end - 1] == row[..end - 1];
      end := end - 1;
    }
  }

  /** The loop that draws the first `end` cells of row y. */
  method WriteRow(c: Canvas, y: nat, end: nat, pen: Pen) returns (out: string, after: Pen)
    requires c.Valid() && y < c.rows && end <= c.cols && ValidRows(c.View().rows)
    ensures out == Render("", pen, c.View().rows[y][..end])
    ensures after == PenAfter(pen, c.View().rows[y][..end])
  {
    hide Render;
    ghost var row := c.View().rows[y];
    out, after := "", pen;
    RenderNothing("", pen);
    for x := 0 to end
      invariant out == Render("", pen, row[..x]) && after == PenAfter(pen, row[..x])
    {
      var cell := c.Get(x, y);
      RenderSnoc("", pen, row[..x], row[x]);
      assert row[..x + 1] == row[..x] + [row[x]];
      var sgr := EmitSGR(after, cell.fg, cell.bg);
      var ch := cell.ch;
      if ch == '\0' {
        ch := ' ';
      }
      assert sgr + [ch] == Token("", after, row[x]);
      out := out + (sgr + [ch]);
      after := Holding(cell.fg, cell.bg);
    }
  }

  lemma FromRow(out: string, pen: Pen, rows: seq<seq<Cell>>, y: nat)
    requires ValidRows(rows) && y < |rows|
    ensures out + RenderRows("", pen, rows[y..]) ==
      out + (Render("", pen, Drawn(rows[y])) + CRLF) + RenderRows("", PenAfter(pen, Drawn(rows[y])), rows[y + 1..])
  {
    hide Render;
    assert rows[y..][1..] == rows[y + 1..];
    Assoc(out, Render("", pen, Drawn(rows[y])) + CRLF, RenderRows("", PenAfter(pen, Drawn(rows[y])), rows[y + 1..]));
  }

  /** WriteANSI with preferCP437 off. */
  method WriteANSI(c: Canvas) returns (out: string)
    requires c.Valid() && ValidRows(c.View().rows)
    ensures out == Written(c.View())
  {
    hide RenderRows, Render;
    ghost var rows := c.View().rows;
    out := "";
    var pen := Fresh;
    var y := 0;
    assert rows[0..] == rows && "" + RenderRows("", pen, rows) == RenderRows("", pen, rows);
    while y < c.rows
      invariant 0 <= y <= c.rows == |rows|
      invariant out + RenderRows("", pen, rows[y..]) == RenderRows("", Fresh, rows)
    {
      FromRow(out, pen, rows, y);
      var end := FindRowEnd(c, y);
      var line, after := WriteRow(c, y, end, pen);
      out := out + (line + CRLF);
      pen := after;
      y := y + 1;
    }
    assert rows[y..] == [] && "" + Sgr([0]) == Sgr([0]);
    RenderNoRows("", pen);
    out := out + Sgr([0]);
  }
}
