/** Loading what AnsiEdit saved: ParseANSI after WriteANSI.

    The writer keeps the colours it emitted last, the parser keeps colours, bold and a cursor. The lemmas
    carry both along the text, through the sizing pass and then through the painting pass. */
module AnsiRoundTrip {
  import opened Text
  import opened CanvasModel
  import opened AnsiWriter
  import opened AnsiParser
  import opened AnsiExpansion
  import AnsiBrackets
  import AnsiGlyphs

  predicate Printable(cells: seq<Cell>) {
    forall x :: 0 <= x < |cells| ==> cells[x].ch >= ' '
  }

  predicate PrintableRows(rows: seq<seq<Cell>>) {
    forall y :: 0 <= y < |rows| ==> Printable(rows[y])
  }

  // ---------------------------------------------------------------- one loaded colour change

  /** A loaded colour change is an ESC both passes ignore and one `m` sequence. */
  lemma SgrItems(codes: seq<Byte>, rest: string)
    requires codes != []
    ensures var t := [ESC] + Sgr(codes) + rest;
      && CsiFinal(t) == 0 && t[0] == ESC && t[1..] == Sgr(codes) + rest
      && var j := CsiFinal(t[1..]);
         j != 0 && t[1..][j] == 'm' && Params(t[1..][2..j]) == codes && t[1..][j + 1..] == rest
  {
    hide Join, Decimals, Params;
    var q := Join(Decimals(codes), ';');
    var u := Sgr(codes) + rest;
    JoinedRun(codes);
    ParamsOfJoined(codes);
    SgrText(codes, rest);
    assert u[2..] == q + (['m'] + rest);
    NonLettersOf(q, ['m'] + rest);
    var j := 2 + |q|;
    assert CsiFinal(u) == j && u[j] == 'm' && u[2..j] == q && u[j + 1..] == rest;
    assert ([ESC] + Sgr(codes) + rest)[1..] == u;
  }

  lemma MeasureSgr(e: Extent, codes: seq<Byte>, rest: string)
    requires codes != []
    ensures Measured(e, [ESC] + Sgr(codes) + rest) == Measured(e.Note(e.cx, e.cy), rest)
  {
    hide Params, Sgr, Measured, MeasureOne, CsiFinal, Item;
    SgrItems(codes, rest);
    var t := [ESC] + Sgr(codes) + rest;
    var u := t[1..];
    MeasureLoneEsc(e, t);
    MeasureStep(e, t);
    MeasureCode(e, u);
    MeasureStep(e, u);
  }

  lemma MeasureStep(e: Extent, t: string)
    requires !AtEnd(t)
    ensures Measured(e, t) == Measured(MeasureOne(e, t), t[Item(t)..])
  {
    hide MeasureOne, Item;
  }

  lemma MeasureLoneEsc(e: Extent, t: string)
    requires t != [] && t[0] == ESC && CsiFinal(t) == 0
    ensures MeasureOne(e, t) == e && Item(t) == 1 && !AtEnd(t)
  {
    hide CsiFinal;
  }

  lemma MeasureCode(e: Extent, u: string)
    requires u != [] && CsiFinal(u) != 0 && u[CsiFinal(u)] == 'm'
    ensures MeasureOne(e, u) == e.Note(e.cx, e.cy) && Item(u) == CsiFinal(u) + 1 && !AtEnd(u)
  {
    hide Params;
  }

  lemma PaintSgr(s: Screen, codes: seq<Byte>, rest: string)
    requires s.grid.Valid() && codes != []
    ensures Painted(s, [ESC] + Sgr(codes) + rest) == Painted(s.(attr := Applied(s.attr, codes)), rest)
  {
    hide Params, Sgr;
    SgrItems(codes, rest);
    var t := [ESC] + Sgr(codes) + rest;
    var u := t[1..];
    assert Painted(s, t) == Painted(s, u);
    assert PaintOne(s, u) == s.(attr := Applied(s.attr, codes)) && u[Item(u)..] == rest;
    assert Painted(s, u) == Painted(PaintOne(s, u), u[Item(u)..]);
  }

  lemma MeasureChar(e: Extent, ch: char, rest: string)
    requires ch != ESC && ch != EOF_MARK
    ensures Measured(e, [ch] + rest) == Measured(MeasureOne(e, [ch]), rest)
  {
    var t := [ch] + rest;
    assert CsiFinal(t) == 0 && CsiFinal([ch]) == 0 && t[Item(t)..] == rest;
    assert MeasureOne(e, t) == MeasureOne(e, [ch]);
  }

  lemma PaintChar(s: Screen, ch: char, rest: string)
    requires s.grid.Valid() && ch != ESC && ch != EOF_MARK
    ensures Painted(s, [ch] + rest) == Painted(PaintOne(s, [ch]), rest)
  {
    var t := [ch] + rest;
    assert CsiFinal(t) == 0 && CsiFinal([ch]) == 0 && t[Item(t)..] == rest;
    assert PaintOne(s, t) == PaintOne(s, [ch]);
  }

  lemma MeasureGlyph(e: Extent, ch: char)
    requires ch >= ' '
    ensures MeasureOne(e, [ch]) == e.(cx := e.cx + 1).Note(e.cx, e.cy)
  {
  }

  lemma MeasureNothing(e: Extent)
    ensures Measured(e, "") == e
  {
  }

  lemma MeasureLineEnd(e: Extent, rest: string)
    ensures Measured(e, CRLF + rest) == Measured(e.(cx := 0, cy := e.cy + 1, maxY := Max(e.maxY, e.cy + 1)), rest)
  {
    hide Measured;
    assert CRLF + rest == ['\r'] + (['\n'] + rest);
    MeasureChar(e, '\r', ['\n'] + rest);
    assert MeasureOne(e, ['\r']) == e.(cx := 0);
    MeasureChar(e.(cx := 0), '\n', rest);
    assert MeasureOne(e.(cx := 0), ['\n']) == e.(cx := 0, cy := e.cy + 1, maxY := Max(e.maxY, e.cy + 1));
  }

  lemma LineEndText(rest: string)
    ensures CRLF + rest == ['\r'] + (['\n'] + rest)
  {
  }

  lemma PaintReturn(s: Screen)
    requires s.grid.Valid()
    ensures PaintOne(s, ['\r']) == s.(cx := 0)
  {
  }

  lemma PaintFeed(s: Screen)
    requires s.grid.Valid()
    ensures PaintOne(s, ['\n']) == s.(cx := 0, cy := s.cy + 1)
  {
  }

  lemma PaintLineEnd(s: Screen, rest: string)
    requires s.grid.Valid()
    ensures Painted(s, CRLF + rest) == Painted(s.(cx := 0, cy := s.cy + 1), rest)
  {
    hide Painted, PaintOne;
    var home := s.(cx := 0);
    LineEndText(rest);
    PaintReturn(s);
    PaintFeed(home);
    assert Painted(s, CRLF + rest) == Painted(home, ['\n'] + rest) by {
      PaintChar(s, '\r', ['\n'] + rest);
    }
    assert home.(cx := 0, cy := home.cy + 1) == s.(cx := 0, cy := s.cy + 1);
    PaintChar(home, '\n', rest);
  }

  // ---------------------------------------------------------------- sizing pass

  /** The extent after drawing n cells from the cursor on. */
  function Advanced(e: Extent, n: nat): Extent {
    if n == 0 then e else e.(cx := e.cx + n, maxX := Max(e.maxX, e.cx + n - 1))
  }

  lemma MeasureChange(e: Extent, pen: Pen, fg: Color, bg: Color, rest: string)
    requires fg.ValidFG() && bg.ValidBG()
    ensures Measured(e, ColorChange([ESC], pen, fg, bg) + rest)
         == Measured(if pen == Holding(fg, bg) then e else e.Note(e.cx, e.cy), rest)
  {
    if pen == Holding(fg, bg) {
      assert "" + rest == rest;
    } else {
      MeasureSgr(e, SgrCodes(pen.Fresh?, fg, bg), rest);
    }
  }

  lemma {:induction false} MeasureRender(e: Extent, pen: Pen, cells: seq<Cell>, rest: string)
    requires ValidCells(cells) && Printable(cells) && e.maxY >= e.cy
    ensures Measured(e, Render([ESC], pen, cells) + rest) == Measured(Advanced(e, |cells|), rest)
    decreases |cells|
  {
    hide Measured, MeasureOne, Render;
    if cells == [] {
      RenderNothing([ESC], pen);
      assert "" + rest == rest;
    } else {
      var cell := cells[0];
      var next := Holding(cell.fg, cell.bg);
      var tail := Render([ESC], next, cells[1..]) + rest;
      var glyph := [cell.Normal().ch] + tail;
      RenderCons([ESC], pen, cells, rest);
      MeasureChange(e, pen, cell.fg, cell.bg, glyph);
      var e' := if pen == next then e else e.Note(e.cx, e.cy);
      MeasureChar(e', cell.Normal().ch, tail);
      MeasureGlyph(e', cell.Normal().ch);
      assert e'.(cx := e'.cx + 1).Note(e'.cx, e'.cy) == Advanced(e, 1);
      MeasureRender(Advanced(e, 1), next, cells[1..], rest);
      assert Advanced(Advanced(e, 1), |cells| - 1) == Advanced(e, |cells|);
    }
  }

  /** The longest drawn row. */
  function Widest(rows: seq<seq<Cell>>): nat {
    if rows == [] then 0 else Max(RowEnd(rows[0]), Widest(rows[1..]))
  }

  /** The extent at the start of the row below one with n drawn cells. */
  function NextRow(e: Extent, n: nat): Extent {
    Advanced(e, n).(cx := 0, cy := e.cy + 1, maxY := Max(e.maxY, e.cy + 1))
  }

  lemma NextRowReach(e: Extent, n: nat, w: nat, k: nat)
    requires e.cx == 0 && e.maxX >= 0
    ensures NextRow(e, n).maxX >= 0 && NextRow(e, n).maxY >= NextRow(e, n).cy
    ensures Max(NextRow(e, n).maxX, w - 1) == Max(e.maxX, Max(n, w) - 1)
    ensures Max(NextRow(e, n).maxY, NextRow(e, n).cy + k) == Max(e.maxY, e.cy + 1 + k)
  {
  }

  lemma MeasureRow(e: Extent, pen: Pen, rows: seq<seq<Cell>>)
    requires ValidRows(rows) && PrintableRows(rows) && e.maxY >= e.cy && rows != []
    ensures Measured(e, RenderRows([ESC], pen, rows))
         == Measured(NextRow(e, RowEnd(rows[0])), RenderRows([ESC], PenAfter(pen, Drawn(rows[0])), rows[1..]))
  {
    hide Measured, Render, RenderRows;
    var cells := Drawn(rows[0]);
    var below := RenderRows([ESC], PenAfter(pen, cells), rows[1..]);
    RenderFirstRow([ESC], pen, rows);
    MeasureRender(e, pen, cells, CRLF + below);
    MeasureLineEnd(Advanced(e, |cells|), below);
  }

  lemma {:induction false} MeasureRows(e: Extent, pen: Pen, rows: seq<seq<Cell>>)
    requires ValidRows(rows) && PrintableRows(rows) && e.cx == 0 && e.maxX >= 0 && e.maxY >= e.cy
    ensures Measured(e, RenderRows([ESC], pen, rows)).maxX == Max(e.maxX, Widest(rows) - 1)
    ensures Measured(e, RenderRows([ESC], pen, rows)).maxY == Max(e.maxY, e.cy + |rows|)
    decreases |rows|
  {
    hide Measured, Render, RenderRows;
    if rows == [] {
      RenderNoRows([ESC], pen);
      assert [ESC] + Sgr([0]) == [ESC] + Sgr([0]) + "";
      MeasureSgr(e, [0], "");
      MeasureNothing(e.Note(e.cx, e.cy));
    } else {
      MeasureRow(e, pen, rows);
      NextRowReach(e, RowEnd(rows[0]), Widest(rows[1..]), |rows| - 1);
      MeasureRows(NextRow(e, RowEnd(rows[0])), PenAfter(pen, Drawn(rows[0])), rows[1..]);
    }
  }

  // ---------------------------------------------------------------- colours

  /** A dark classic foreground on a truecolor background is written without a reset. */
  predicate DarkOnTrue(cell: Cell) {
    cell.fg.Classic? && cell.fg.idx < 8 && cell.bg.Truecolor?
  }

  /** The parser's bold flag after a cell is drawn. */
  function BoldAfter(bold: bool, cell: Cell): bool {
    if cell.fg.Classic? && (cell.bg.Classic? || cell.fg.idx >= 8) then cell.fg.idx >= 8 else bold
  }

  /** The attributes the parser draws a cell with when its bold flag was `bold` before. */
  function AttrFor(bold: bool, cell: Cell): Attr
    requires cell.fg.ValidFG()
  {
    Attr(if bold && DarkOnTrue(cell) then Classic(cell.fg.idx + 8) else cell.fg, cell.bg, BoldAfter(bold, cell))
  }

  /** Writer and parser agree on the colours in force. */
  predicate InStep(pen: Pen, a: Attr) {
    match pen
    case Fresh => !a.bold
    case Holding(fg, bg) => fg.ValidFG() && a == AttrFor(a.bold, Cell(' ', fg, bg))
  }

  lemma SgrHead(a: Attr, head: seq<int>, rest: seq<int>)
    requires head != [] && SgrSpan(head + rest) == |head|
    ensures SgrFrom(a, head + rest) == SgrFrom(SgrStep(a, head + rest), rest)
  {
    assert (head + rest)[|head|..] == rest;
  }

  lemma ResetApplied(a: Attr, rest: seq<int>)
    ensures SgrFrom(a, [0] + rest) == SgrFrom(PLAIN, rest)
  {
    SgrHead(a, [0], rest);
  }

  function WithFg(a: Attr, fg: Color): Attr
    requires fg.ValidFG()
  {
    if fg.Classic? then
      if fg.idx >= 8 then a.(fg := fg, bold := true) else a.(fg := if a.bold then Classic(fg.idx + 8) else fg)
    else a.(fg := fg)
  }

  lemma FgApplied(a: Attr, fg: Color, rest: seq<int>)
    requires fg.ValidFG()
    ensures SgrFrom(a, FgCodes(fg) + rest) == SgrFrom(WithFg(a, fg), rest)
  {
    hide SgrFrom;
    if fg.Truecolor? {
      SgrHead(a, FgCodes(fg), rest);
      assert SgrStep(a, FgCodes(fg) + rest) == WithFg(a, fg);
    } else if fg.idx >= 8 {
      var a' := SgrStep(a, [1] + ([30 + fg.idx - 8] + rest));
      assert FgCodes(fg) + rest == [1] + ([30 + fg.idx - 8] + rest);
      SgrHead(a, [1], [30 + fg.idx - 8] + rest);
      SgrHead(a', [30 + fg.idx - 8], rest);
      assert SgrStep(a', [30 + fg.idx - 8] + rest) == WithFg(a, fg);
    } else {
      SgrHead(a, [30 + fg.idx], rest);
      assert SgrStep(a, [30 + fg.idx] + rest) == WithFg(a, fg);
    }
  }

  lemma BgApplied(a: Attr, bg: Color)
    requires bg.ValidBG()
    ensures SgrFrom(a, BgCodes(bg)) == a.(bg := bg)
  {
    assert BgCodes(bg) == BgCodes(bg) + [];
    SgrHead(a, BgCodes(bg), []);
  }

  /** Writer state and parser state stay in step over a colour change. */
  lemma ChangeApplied(pen: Pen, a: Attr, cell: Cell)
    requires cell.fg.ValidFG() && cell.bg.ValidBG() && InStep(pen, a)
    ensures pen == Holding(cell.fg, cell.bg) ==> AttrFor(a.bold, cell) == a
    ensures pen != Holding(cell.fg, cell.bg) ==> Applied(a, SgrCodes(pen.Fresh?, cell.fg, cell.bg)) == AttrFor(a.bold, cell)
    ensures InStep(Holding(cell.fg, cell.bg), AttrFor(a.bold, cell))
  {
    hide SgrFrom, SgrStep;
    var codes := SgrCodes(pen.Fresh?, cell.fg, cell.bg);
    var fgbg := FgCodes(cell.fg) + BgCodes(cell.bg);
    var a' := a;
    if pen.Fresh? || (cell.fg.Classic? && cell.bg.Classic?) {
      assert codes == [0] + fgbg;
      ResetApplied(a, fgbg);
      a' := PLAIN;
    } else {
      assert codes == fgbg;
    }
    assert SgrFrom(a, codes) == SgrFrom(a', fgbg);
    FgApplied(a', cell.fg, BgCodes(cell.bg));
    BgApplied(WithFg(a', cell.fg), cell.bg);
  }

  // ---------------------------------------------------------------- painting pass

  function DrawCell(s: Screen, cell: Cell): (r: Screen)
    requires s.grid.Valid() && cell.fg.ValidFG()
    ensures r.grid.Valid() && r.grid.cols == s.grid.cols && |r.grid.rows| == |s.grid.rows|
  {
    s.(attr := AttrFor(s.attr.bold, cell)).Put(cell.Normal().ch)
  }

  function DrawCells(s: Screen, cells: seq<Cell>): (r: Screen)
    requires s.grid.Valid() && ValidCells(cells)
    ensures r.grid.Valid() && r.grid.cols == s.grid.cols && |r.grid.rows| == |s.grid.rows|
    decreases |cells|
  {
    if cells == [] then s else DrawCells(DrawCell(s, cells[0]), cells[1..])
  }

  lemma PaintNothing(s: Screen)
    requires s.grid.Valid()
    ensures Painted(s, "") == s
  {
  }

  lemma PaintChange(s: Screen, pen: Pen, cell: Cell, rest: string)
    requires s.grid.Valid() && cell.fg.ValidFG() && cell.bg.ValidBG() && InStep(pen, s.attr)
    ensures Painted(s, ColorChange([ESC], pen, cell.fg, cell.bg) + rest)
         == Painted(s.(attr := AttrFor(s.attr.bold, cell)), rest)
  {
    hide Painted;
    ChangeApplied(pen, s.attr, cell);
    if pen == Holding(cell.fg, cell.bg) {
      assert "" + rest == rest;
    } else {
      PaintSgr(s, SgrCodes(pen.Fresh?, cell.fg, cell.bg), rest);
    }
  }

  lemma PaintGlyph(s: Screen, ch: char)
    requires s.grid.Valid() && ch >= ' '
    ensures PaintOne(s, [ch]) == s.Put(ch)
  {
  }

  lemma {:induction false} PaintRender(s: Screen, pen: Pen, cells: seq<Cell>, rest: string)
    requires s.grid.Valid() && ValidCells(cells) && Printable(cells) && InStep(pen, s.attr)
    ensures Painted(s, Render([ESC], pen, cells) + rest) == Painted(DrawCells(s, cells), rest)
    ensures InStep(PenAfter(pen, cells), DrawCells(s, cells).attr)
    decreases |cells|
  {
    hide Painted, PaintOne, Render;
    if cells == [] {
      RenderNothing([ESC], pen);
      assert "" + rest == rest;
    } else {
      var cell := cells[0];
      var next := Holding(cell.fg, cell.bg);
      var tail := Render([ESC], next, cells[1..]) + rest;
      var glyph := [cell.Normal().ch] + tail;
      RenderCons([ESC], pen, cells, rest);
      PaintChange(s, pen, cell, glyph);
      ChangeApplied(pen, s.attr, cell);
      var ready := s.(attr := AttrFor(s.attr.bold, cell));
      PaintChar(ready, cell.Normal().ch, tail);
      PaintGlyph(ready, cell.Normal().ch);
      PaintRender(DrawCell(s, cell), next, cells[1..], rest);
    }
  }

  /** Drawing row after row. */
  function DrawRows(s: Screen, rows: seq<seq<Cell>>): (r: Screen)
    requires s.grid.Valid() && ValidRows(rows)
    ensures r.grid.Valid() && r.grid.cols == s.grid.cols && |r.grid.rows| == |s.grid.rows|
    decreases |rows|
  {
    if rows == [] then s
    else
      var after := DrawCells(s, Drawn(rows[0]));
      DrawRows(after.(cx := 0, cy := after.cy + 1), rows[1..])
  }

  lemma {:induction false} PaintRows(s: Screen, pen: Pen, rows: seq<seq<Cell>>)
    requires s.grid.Valid() && ValidRows(rows) && PrintableRows(rows) && InStep(pen, s.attr)
    ensures Painted(s, RenderRows([ESC], pen, rows)).grid == DrawRows(s, rows).grid
    decreases |rows|
  {
    hide Painted, Render, RenderRows, DrawCells;
    if rows == [] {
      RenderNoRows([ESC], pen);
      assert [ESC] + Sgr([0]) == [ESC] + Sgr([0]) + "";
      PaintSgr(s, [0], "");
      PaintNothing(s.(attr := Applied(s.attr, [0])));
    } else {
      var cells := Drawn(rows[0]);
      var next := PenAfter(pen, cells);
      var below := RenderRows([ESC], next, rows[1..]);
      var after := DrawCells(s, cells);
      RenderFirstRow([ESC], pen, rows);
      PaintRender(s, pen, cells, CRLF + below);
      PaintLineEnd(after, below);
      PaintRows(after.(cx := 0, cy := after.cy + 1), next, rows[1..]);
    }
  }

  // ---------------------------------------------------------------- where the cells go

  /** The cells of one row as the parser draws them. */
  function Shown(bold: bool, cells: seq<Cell>): (r: seq<Cell>)
    requires ValidCells(cells)
    ensures |r| == |cells|
    decreases |cells|
  {
    if cells == [] then []
    else
      var a := AttrFor(bold, cells[0]);
      [Cell(cells[0].Normal().ch, a.fg, a.bg)] + Shown(a.bold, cells[1..])
  }

  function BoldAfterCells(bold: bool, cells: seq<Cell>): bool
    decreases |cells|
  {
    if cells == [] then bold else BoldAfterCells(BoldAfter(bold, cells[0]), cells[1..])
  }

  /** A row drawn from (cx, cy) that does not reach past the right margin. */
  lemma {:induction false} DrawnCells(s: Screen, cells: seq<Cell>)
    requires s.grid.Valid() && ValidCells(cells) && s.cx + |cells| <= s.grid.cols
    ensures var r := DrawCells(s, cells);
      && (forall x, y :: r.grid.Get(x, y) ==
           if y == s.cy && s.cx <= x < s.cx + |cells| && s.grid.InBounds(x, y) then Shown(s.attr.bold, cells)[x - s.cx]
           else s.grid.Get(x, y))
      && r.attr.bold == BoldAfterCells(s.attr.bold, cells)
      && (if cells != [] && s.cx + |cells| == s.grid.cols then r.cx == 0 && r.cy == s.cy + 1
          else r.cx == s.cx + |cells| && r.cy == s.cy)
    decreases |cells|
  {
    if cells != [] {
      var s' := DrawCell(s, cells[0]);
      var shown := Shown(s.attr.bold, cells);
      var rest := Shown(s'.attr.bold, cells[1..]);
      assert forall k :: 1 <= k < |cells| ==> shown[k] == rest[k - 1];
      if |cells| == 1 {
        assert cells[1..] == [];
      } else {
        DrawnCells(s', cells[1..]);
      }
    }
  }

  // ---------------------------------------------------------------- the round trip

  /** No dark foreground on truecolor is drawn while the parser's bold flag is on. */
  predicate NoStaleBold(bold: bool, cells: seq<Cell>)
    decreases |cells|
  {
    cells == [] || (!(bold && DarkOnTrue(cells[0])) && NoStaleBold(BoldAfter(bold, cells[0]), cells[1..]))
  }

  predicate NoStaleBoldRows(bold: bool, rows: seq<seq<Cell>>)
    decreases |rows|
  {
    rows == [] || (NoStaleBold(bold, Drawn(rows[0])) && NoStaleBoldRows(BoldAfterCells(bold, Drawn(rows[0])), rows[1..]))
  }

  /** Every row drawn up to the right margin w, which wraps the cursor, has only blank rows below it. */
  predicate WrapsOnlyAtEnd(w: nat, rows: seq<seq<Cell>>) {
    forall k, k' :: 0 <= k < k' < |rows| && RowEnd(rows[k]) == w ==> RowEnd(rows[k']) == 0
  }

  lemma WrapTail(w: nat, rows: seq<seq<Cell>>)
    requires rows != []
    ensures WrapsOnlyAtEnd(w, rows) <==>
      WrapsOnlyAtEnd(w, rows[1..]) && (RowEnd(rows[0]) == w ==> forall k :: 0 <= k < |rows| - 1 ==> RowEnd(rows[1..][k]) == 0)
  {
    if WrapsOnlyAtEnd(w, rows[1..]) && (RowEnd(rows[0]) == w ==> forall k :: 0 <= k < |rows| - 1 ==> RowEnd(rows[1..][k]) == 0) {
      forall k, k' | 0 <= k < k' < |rows| && RowEnd(rows[k]) == w ensures RowEnd(rows[k']) == 0 {
        assert rows[k'] == rows[1..][k' - 1];
        if k > 0 {
          assert rows[k] == rows[1..][k - 1];
        }
      }
    }
  }

  /** The colours survive exactly when no stale bold brightens one. */
  lemma {:induction false} ShownAsDrawn(bold: bool, cells: seq<Cell>)
    requires ValidCells(cells) && Printable(cells)
    ensures Shown(bold, cells) == cells <==> NoStaleBold(bold, cells)
    decreases |cells|
  {
    if cells != [] {
      ShownAsDrawn(BoldAfter(bold, cells[0]), cells[1..]);
      var shown := Shown(bold, cells);
      assert shown[1..] == Shown(BoldAfter(bold, cells[0]), cells[1..]);
      assert cells == [cells[0]] + cells[1..];
      assert shown == [shown[0]] + shown[1..];
    }
  }

  function CellAt(rows: seq<seq<Cell>>, x: int, k: int): Cell {
    if 0 <= k < |rows| && 0 <= x < |rows[k]| then rows[k][x] else BLANK
  }

  ghost predicate BlankFrom(g: Grid, y0: int)
    requires g.Valid()
  {
    forall x, y :: y >= y0 ==> g.Get(x, y) == BLANK
  }

  /** The drawn rows look like the given ones from row y0 on. */
  ghost predicate Appear(s: Screen, rows: seq<seq<Cell>>, y0: int)
    requires s.grid.Valid() && ValidRows(rows)
  {
    forall x, y :: y >= y0 ==> DrawRows(s, rows).grid.Get(x, y) == CellAt(rows, x, y - y0)
  }

  /** Rows without drawn cells leave the canvas alone. */
  lemma {:induction false} DrawBlankRows(s: Screen, rows: seq<seq<Cell>>)
    requires s.grid.Valid() && ValidRows(rows) && forall k :: 0 <= k < |rows| ==> RowEnd(rows[k]) == 0
    ensures DrawRows(s, rows).grid == s.grid
    decreases |rows|
  {
    if rows != [] {
      assert Drawn(rows[0]) == [];
      DrawBlankRows(s.(cx := 0, cy := s.cy + 1), rows[1..]);
    }
  }

  /** What every later row finds: the screen after the first of the rows. */
  function AfterRow(s: Screen, row: seq<Cell>): (r: Screen)
    requires s.grid.Valid() && ValidCells(row)
    ensures r.grid.Valid() && r.grid.cols == s.grid.cols && |r.grid.rows| == |s.grid.rows|
  {
    var after := DrawCells(s, Drawn(row));
    after.(cx := 0, cy := after.cy + 1)
  }

  lemma RowDrawn(s: Screen, row: seq<Cell>)
    requires s.grid.Valid() && ValidCells(row) && s.cx == 0 && RowEnd(row) <= s.grid.cols
    ensures var r := AfterRow(s, row);
      && (forall x, y :: r.grid.Get(x, y) ==
           if y == s.cy && 0 <= x < RowEnd(row) && s.grid.InBounds(x, y) then Shown(s.attr.bold, Drawn(row))[x]
           else s.grid.Get(x, y))
      && r.attr.bold == BoldAfterCells(s.attr.bold, Drawn(row))
      && r.cx == 0 && r.cy == s.cy + (if RowEnd(row) == s.grid.cols then 2 else 1)
  {
    DrawnCells(s, Drawn(row));
  }

  lemma RowCursor(s: Screen, row: seq<Cell>)
    requires s.grid.Valid() && ValidCells(row) && s.cx == 0 && RowEnd(row) <= s.grid.cols
    ensures AfterRow(s, row).cx == 0 && AfterRow(s, row).cy > s.cy
  {
    RowDrawn(s, row);
  }

  /** Drawing never goes back to an earlier row. */
  lemma {:induction false} DrawKeepsAbove(s: Screen, rows: seq<seq<Cell>>)
    requires s.grid.Valid() && ValidRows(rows) && s.cx == 0
    requires forall k :: 0 <= k < |rows| ==> RowEnd(rows[k]) <= s.grid.cols
    ensures forall x, y :: y < s.cy ==> DrawRows(s, rows).grid.Get(x, y) == s.grid.Get(x, y)
    decreases |rows|
  {
    hide DrawCells;
    if rows != [] {
      RowDrawn(s, rows[0]);
      DrawKeepsAbove(AfterRow(s, rows[0]), rows[1..]);
    }
  }

  lemma BlankRowsAppear(s: Screen, rows: seq<seq<Cell>>, y0: int)
    requires s.grid.Valid() && ValidRows(rows) && BlankFrom(s.grid, y0)
    requires forall k :: 0 <= k < |rows| ==> RowEnd(rows[k]) == 0
    ensures Appear(s, rows, y0)
  {
    hide DrawRows;
    DrawBlankRows(s, rows);
    forall x, y | y >= y0 ensures DrawRows(s, rows).grid.Get(x, y) == CellAt(rows, x, y - y0) {
      assert 0 <= y - y0 < |rows| ==> RowEnd(rows[y - y0]) == 0;
    }
  }

  lemma DrawFirstRow(s: Screen, rows: seq<seq<Cell>>)
    requires s.grid.Valid() && ValidRows(rows) && rows != []
    ensures DrawRows(s, rows) == DrawRows(AfterRow(s, rows[0]), rows[1..])
  {
    hide DrawCells;
  }

  lemma FirstRowShows(s: Screen, row: seq<Cell>, x: int)
    requires s.grid.Valid() && ValidCells(row) && s.cx == 0 && RowEnd(row) <= s.grid.cols
    requires s.cy < |s.grid.rows| && BlankFrom(s.grid, s.cy)
    requires Shown(s.attr.bold, Drawn(row)) == Drawn(row)
    ensures AfterRow(s, row).grid.Get(x, s.cy) == if 0 <= x < |row| then row[x] else BLANK
  {
    hide DrawCells, Shown;
    RowDrawn(s, row);
  }

  lemma CellAppears(s: Screen, rows: seq<seq<Cell>>, x: int, y: int)
    requires s.grid.Valid() && ValidRows(rows) && s.cx == 0 && rows != []
    requires forall k :: 0 <= k < |rows| ==> RowEnd(rows[k]) <= s.grid.cols
    requires s.cy < |s.grid.rows| && BlankFrom(s.grid, s.cy) && y >= s.cy
    requires Shown(s.attr.bold, Drawn(rows[0])) == Drawn(rows[0])
    requires Appear(AfterRow(s, rows[0]), rows[1..], s.cy + 1)
    ensures DrawRows(s, rows).grid.Get(x, y) == CellAt(rows, x, y - s.cy)
  {
    hide DrawCells, DrawRows, AfterRow, Shown, RowEnd, BlankFrom;
    var s' := AfterRow(s, rows[0]);
    DrawFirstRow(s, rows);
    if y == s.cy {
      FirstRowShows(s, rows[0], x);
      RowCursor(s, rows[0]);
      DrawKeepsAbove(s', rows[1..]);
      assert DrawRows(s', rows[1..]).grid.Get(x, y) == s'.grid.Get(x, y);
    } else {
      assert DrawRows(s', rows[1..]).grid.Get(x, y) == CellAt(rows[1..], x, y - (s.cy + 1));
    }
  }

  lemma RowsAppearFrom(s: Screen, rows: seq<seq<Cell>>)
    requires s.grid.Valid() && ValidRows(rows) && s.cx == 0 && rows != []
    requires forall k :: 0 <= k < |rows| ==> RowEnd(rows[k]) <= s.grid.cols
    requires s.cy < |s.grid.rows| && BlankFrom(s.grid, s.cy)
    requires Shown(s.attr.bold, Drawn(rows[0])) == Drawn(rows[0])
    requires Appear(AfterRow(s, rows[0]), rows[1..], s.cy + 1)
    ensures Appear(s, rows, s.cy)
  {
    forall x, y | y >= s.cy ensures DrawRows(s, rows).grid.Get(x, y) == CellAt(rows, x, y - s.cy) {
      CellAppears(s, rows, x, y);
    }
  }

  /** Under the two conditions every row appears at its own place. */
  lemma {:induction false} RowsAppear(s: Screen, rows: seq<seq<Cell>>)
    requires s.grid.Valid() && ValidRows(rows) && PrintableRows(rows) && s.cx == 0
    requires forall k :: 0 <= k < |rows| ==> RowEnd(rows[k]) <= s.grid.cols
    requires s.cy + |rows| <= |s.grid.rows| && BlankFrom(s.grid, s.cy)
    requires WrapsOnlyAtEnd(s.grid.cols, rows) && NoStaleBoldRows(s.attr.bold, rows)
    ensures Appear(s, rows, s.cy)
    decreases |rows|
  {
    hide DrawCells, Shown;
    if rows != [] {
      hide DrawRows, AfterRow, RowEnd;
      var s' := AfterRow(s, rows[0]);
      RowDrawn(s, rows[0]);
      ShownAsDrawn(s.attr.bold, Drawn(rows[0]));
      WrapTail(s.grid.cols, rows);
      if RowEnd(rows[0]) == s.grid.cols {
        BlankRowsAppear(s', rows[1..], s.cy + 1);
      } else {
        RowsAppear(s', rows[1..]);
      }
      RowsAppearFrom(s, rows);
    }
  }

  lemma TailAppears(s: Screen, rows: seq<seq<Cell>>, y0: int)
    requires s.grid.Valid() && ValidRows(rows) && rows != [] && Appear(s, rows, y0)
    ensures Appear(AfterRow(s, rows[0]), rows[1..], y0 + 1)
  {
    hide DrawCells;
    var s' := AfterRow(s, rows[0]);
    forall x, y | y >= y0 + 1 ensures DrawRows(s', rows[1..]).grid.Get(x, y) == CellAt(rows[1..], x, y - (y0 + 1)) {
      assert DrawRows(s, rows).grid.Get(x, y) == CellAt(rows, x, y - y0);
    }
  }

  /** One row too low, only blank rows can look right. */
  lemma {:induction false} ShiftedRowsBlank(s: Screen, rows: seq<seq<Cell>>, z: int)
    requires s.grid.Valid() && ValidRows(rows) && s.cx == 0 && s.cy == z + 1
    requires forall k :: 0 <= k < |rows| ==> RowEnd(rows[k]) <= s.grid.cols
    requires BlankFrom(s.grid, z)
    requires Appear(s, rows, z)
    ensures forall k :: 0 <= k < |rows| ==> RowEnd(rows[k]) == 0
    decreases |rows|
  {
    hide DrawCells;
    if rows != [] {
      hide DrawRows;
      DrawKeepsAbove(s, rows);
      var x := RowEnd(rows[0]) - 1;
      assert DrawRows(s, rows).grid.Get(x, z) == CellAt(rows, x, 0);
      assert RowEnd(rows[0]) == 0;
      RowDrawn(s, rows[0]);
      TailAppears(s, rows, z);
      ShiftedRowsBlank(AfterRow(s, rows[0]), rows[1..], z + 1);
      forall k | 0 <= k < |rows| ensures RowEnd(rows[k]) == 0 {
        if k > 0 {
          assert rows[k] == rows[1..][k - 1];
        }
      }
    }
  }

  lemma {:induction false} BlankRowsAreSafe(bold: bool, w: nat, rows: seq<seq<Cell>>)
    requires forall k :: 0 <= k < |rows| ==> RowEnd(rows[k]) == 0
    ensures NoStaleBoldRows(bold, rows) && WrapsOnlyAtEnd(w, rows)
    decreases |rows|
  {
    if rows != [] {
      assert Drawn(rows[0]) == [];
      BlankRowsAreSafe(bold, w, rows[1..]);
    }
  }

  lemma FirstRowForced(s: Screen, rows: seq<seq<Cell>>)
    requires s.grid.Valid() && ValidRows(rows) && PrintableRows(rows) && s.cx == 0 && rows != []
    requires forall k :: 0 <= k < |rows| ==> RowEnd(rows[k]) <= s.grid.cols
    requires s.cy < |s.grid.rows| && Appear(s, rows, s.cy)
    ensures NoStaleBold(s.attr.bold, Drawn(rows[0]))
  {
    hide DrawCells;
    var s' := AfterRow(s, rows[0]);
    var cells := Drawn(rows[0]);
    RowDrawn(s, rows[0]);
    DrawKeepsAbove(s', rows[1..]);
    forall x | 0 <= x < |cells| ensures Shown(s.attr.bold, cells)[x] == cells[x] {
      assert DrawRows(s, rows).grid.Get(x, s.cy) == CellAt(rows, x, 0);
      assert DrawRows(s', rows[1..]).grid.Get(x, s.cy) == s'.grid.Get(x, s.cy);
    }
    ShownAsDrawn(s.attr.bold, cells);
  }

  /** If every row appears at its own place then the two conditions hold. */
  lemma {:induction false} RowsForced(s: Screen, rows: seq<seq<Cell>>)
    requires s.grid.Valid() && ValidRows(rows) && PrintableRows(rows) && s.cx == 0
    requires forall k :: 0 <= k < |rows| ==> RowEnd(rows[k]) <= s.grid.cols
    requires s.cy + |rows| <= |s.grid.rows| && BlankFrom(s.grid, s.cy) && Appear(s, rows, s.cy)
    ensures WrapsOnlyAtEnd(s.grid.cols, rows) && NoStaleBoldRows(s.attr.bold, rows)
    decreases |rows|
  {
    hide DrawCells, DrawRows, AfterRow, RowEnd;
    if rows != [] {
      var s' := AfterRow(s, rows[0]);
      FirstRowForced(s, rows);
      TailAppears(s, rows, s.cy);
      RowDrawn(s, rows[0]);
      WrapTail(s.grid.cols, rows);
      if RowEnd(rows[0]) == s.grid.cols {
        ShiftedRowsBlank(s', rows[1..], s.cy + 1);
        BlankRowsAreSafe(s'.attr.bold, s.grid.cols, rows[1..]);
      } else {
        RowsForced(s', rows[1..]);
      }
    }
  }

  lemma {:induction false} WithinWidest(rows: seq<seq<Cell>>, k: nat)
    requires k < |rows|
    ensures RowEnd(rows[k]) <= Widest(rows)
  {
    if k > 0 {
      WithinWidest(rows[1..], k - 1);
    }
  }

  lemma {:induction false} WidestInGrid(rows: seq<seq<Cell>>, w: nat)
    requires forall k :: 0 <= k < |rows| ==> |rows[k]| <= w
    ensures Widest(rows) <= w
  {
    if rows != [] {
      WidestInGrid(rows[1..], w);
    }
  }

  /** The same picture: equal cells at every coordinate, blanks where only one grid reaches. */
  ghost predicate SamePicture(a: Grid, b: Grid)
    requires a.Valid() && b.Valid()
  {
    forall x, y :: a.Get(x, y) == b.Get(x, y)
  }

  /** The canvases the round trip is about: colours the terminal knows and printable glyphs. */
  predicate Drawable(g: Grid) {
    ValidRows(g.rows) && PrintableRows(g.rows)
  }

  /** The round trip of a canvas on which no drawn '[' spells a code. */
  lemma PlainCanvas(g: Grid, cols: int, rows: int)
    requires g.Valid() && Drawable(g) && PlainRows(g.rows)
    ensures var p := Parsed(Written(g), cols, rows);
      && p.cols == Min(MAX_COLS, Max(Size(cols, DEF_COLS), Widest(g.rows)))
      && |p.rows| == Min(MAX_ROWS, Max(Size(rows, DEF_ROWS), |g.rows| + 1))
      && (SamePicture(p, g) <==> WrapsOnlyAtEnd(p.cols, g.rows) && NoStaleBoldRows(false, g.rows))
  {
    hide Expanded, Measured, Painted, RenderRows, DrawRows;
    var runes := RenderRows([ESC], Fresh, g.rows);
    ExpandRows(Fresh, g.rows);
    var first := Extent(0, 0, Size(cols, DEF_COLS) - 1, Size(rows, DEF_ROWS) - 1, 0, 0);
    MeasureRows(first, Fresh, g.rows);
    WidestInGrid(g.rows, MAX_COLS);
    var e := Measured(first, runes);
    var s := Start(e);
    PaintRows(s, Fresh, g.rows);
    var p := Parsed(Written(g), cols, rows);
    assert p == DrawRows(s, g.rows).grid;
    forall k | 0 <= k < |g.rows| ensures RowEnd(g.rows[k]) <= s.grid.cols {
      WithinWidest(g.rows, k);
    }
    assert forall x, y :: y >= 0 ==> g.Get(x, y) == CellAt(g.rows, x, y - s.cy);
    assert forall x, y :: y < 0 ==> g.Get(x, y) == p.Get(x, y);
    if WrapsOnlyAtEnd(p.cols, g.rows) && NoStaleBoldRows(false, g.rows) {
      RowsAppear(s, g.rows);
      assert SamePicture(p, g);
    }
    if SamePicture(p, g) {
      RowsForced(s, g.rows);
    }
  }

  /** Saving and loading a canvas, for any default size.

      The loaded canvas shows the same picture exactly when no drawn '[' spells a colour code, no row that wraps
      has drawn cells below it, and no stale bold brightens a dark foreground on truecolor. Without a spelled
      code it is as wide as the asked width or the longest drawn row, and has one row more than the saved one. */
  lemma WriteThenParse(g: Grid, cols: int, rows: int)
    requires g.Valid() && Drawable(g)
    ensures var p := Parsed(Written(g), cols, rows);
      && (PlainRows(g.rows) ==>
            && p.cols == Min(MAX_COLS, Max(Size(cols, DEF_COLS), Widest(g.rows)))
            && |p.rows| == Min(MAX_ROWS, Max(Size(rows, DEF_ROWS), |g.rows| + 1)))
      && (SamePicture(p, g) <==>
            PlainRows(g.rows) && WrapsOnlyAtEnd(p.cols, g.rows) && NoStaleBoldRows(false, g.rows))
  {
    hide Parsed, Written, PlainRows, Widest, WrapsOnlyAtEnd, NoStaleBoldRows;
    var p := Parsed(Written(g), cols, rows);
    if PlainRows(g.rows) {
      PlainCanvas(g, cols, rows);
    } else {
      AnsiBrackets.SpelledIsLost(g, cols, rows);
      if SamePicture(p, g) {
        AnsiGlyphs.GridMarks('[', g, p);
      }
    }
  }

  /** No row reaches the right margin and no dark foreground lies on truecolor: the picture survives. */
  lemma SafeCanvasSurvives(g: Grid)
    requires g.Valid() && Drawable(g) && PlainRows(g.rows)
    requires forall y :: 0 <= y < |g.rows| ==> g.rows[y][g.cols - 1] == BLANK
    requires forall x, y :: 0 <= y < |g.rows| && 0 <= x < g.cols ==> !DarkOnTrue(g.rows[y][x])
    ensures var p := Parsed(Written(g), g.cols, |g.rows|);
      SamePicture(p, g) && p.cols == g.cols && |p.rows| == Min(MAX_ROWS, |g.rows| + 1)
  {
    hide Parsed, Written;
    WriteThenParse(g, g.cols, |g.rows|);
    WidestInGrid(g.rows, g.cols);
    forall y | 0 <= y < |g.rows| ensures RowEnd(g.rows[y]) < g.cols {
      assert g.rows[y][g.cols - 1] == BLANK;
    }
    NeverStale(false, g.rows);
  }

  lemma {:induction false} NeverStaleCells(bold: bool, cells: seq<Cell>)
    requires forall x :: 0 <= x < |cells| ==> !DarkOnTrue(cells[x])
    ensures NoStaleBold(bold, cells)
    decreases |cells|
  {
    if cells != [] {
      NeverStaleCells(BoldAfter(bold, cells[0]), cells[1..]);
    }
  }

  lemma {:induction false} NeverStale(bold: bool, rows: seq<seq<Cell>>)
    requires forall x, y :: 0 <= y < |rows| && 0 <= x < |rows[y]| ==> !DarkOnTrue(rows[y][x])
    ensures NoStaleBoldRows(bold, rows)
    decreases |rows|
  {
    if rows != [] {
      NeverStaleCells(bold, Drawn(rows[0]));
      NeverStale(BoldAfterCells(bold, Drawn(rows[0])), rows[1..]);
    }
  }

  // ---------------------------------------------------------------- what is lost without the conditions

  /** One column, two glyphs: the first row wraps and pushes the second one down. */
  lemma WrappedRowPushesDown()
    ensures var g := Grid(1, [[Cell('x', Classic(7), Classic(0))], [Cell('y', Classic(7), Classic(0))]]);
      g.Valid() && Drawable(g) && PlainRows(g.rows) && NoStaleBoldRows(false, g.rows) && !SamePicture(Parsed(Written(g), 1, 2), g)
  {
    hide Parsed, Written;
    var g := Grid(1, [[Cell('x', Classic(7), Classic(0))], [Cell('y', Classic(7), Classic(0))]]);
    assert RowEnd(g.rows[0]) == 1 && RowEnd(g.rows[1]) == 1;
    assert g.rows[1..][1..] == [];
    NeverStale(false, g.rows);
    WriteThenParse(g, 1, 2);
  }

  /** A bright glyph, then a dark one on truecolor: the second one is loaded bright. */
  lemma StaleBoldBrightens()
    ensures var g := Grid(3, [[Cell('x', Classic(15), Classic(0)), Cell('y', Classic(1), Truecolor(9, 9, 9)), BLANK]]);
      g.Valid() && Drawable(g) && PlainRows(g.rows) && WrapsOnlyAtEnd(3, g.rows) && !SamePicture(Parsed(Written(g), 3, 1), g)
  {
    hide Parsed, Written;
    var row := [Cell('x', Classic(15), Classic(0)), Cell('y', Classic(1), Truecolor(9, 9, 9)), BLANK];
    var g := Grid(3, [row]);
    assert row[..2] == [row[0], row[1]];
    assert RowEnd(row) == 2;
    assert Drawn(row)[1..] == [row[1]];
    assert !NoStaleBold(true, [row[1]]);
    WriteThenParse(g, 3, 1);
  }

  /** The drawn text "[0m" is read as a colour code and not drawn, although no row wraps and nothing is stale. */
  lemma DrawnCodeIsLost()
    ensures var g := Grid(4, [[Cell('[', Classic(7), Classic(0)), Cell('0', Classic(7), Classic(0)),
                               Cell('m', Classic(7), Classic(0)), BLANK]]);
      && g.Valid() && Drawable(g) && WrapsOnlyAtEnd(4, g.rows) && NoStaleBoldRows(false, g.rows)
      && !SamePicture(Parsed(Written(g), 4, 1), g)
  {
    hide Parsed, Written;
    var row := [Cell('[', Classic(7), Classic(0)), Cell('0', Classic(7), Classic(0)), Cell('m', Classic(7), Classic(0)), BLANK];
    var g := Grid(4, [row]);
    assert RowEnd(row) == 3;
    var cells := Drawn(row);
    assert cells == [row[0], row[1], row[2]];
    assert cells[1..] == [row[1], row[2]] && cells[1..][1..] == [row[2]];
    assert LetterRun([row[2]], Classic(7), Classic(0));
    assert cells[0].ch == '[' && SpellsCode(cells[0 + 1..], Classic(7), Classic(0));
    assert Drawn(g.rows[0]) == cells && !PlainBrackets(cells);
    NeverStale(false, g.rows);
    WriteThenParse(g, 4, 1);
  }
}
