/** The art file: what SaveFile writes for a canvas and a sauce, and what LoadFile makes of a file.

    Canvases hold ASCII glyphs here, so that the octets of the file are the characters of the text, and the guess
    of an encoding in LoadFile changes nothing. The clock is a parameter. */
module AnsiFile {
  import opened Text
  import opened CanvasModel
  import opened AnsiWriter
  import opened AnsiParser
  import opened AnsiExpansion
  import opened AnsiRoundTrip
  import opened SauceModel
  import AnsiGlyphs
  import Octets

  predicate Ascii(g: Grid) {
    forall y :: 0 <= y < |g.rows| ==> AsciiCells(g.rows[y])
  }

  predicate AsciiCells(cells: seq<Cell>) {
    forall x :: 0 <= x < |cells| ==> cells[x].ch < '\U{80}'
  }

  /** The sauce with the size of the canvas where it has none. */
  function Sized(g: Grid, s: Sauce): (r: Sauce)
    requires g.Valid()
    ensures r.present == s.present
  {
    s.(tInfo1 := if s.tInfo1 == 0 then g.cols else s.tInfo1, tInfo2 := if s.tInfo2 == 0 then |g.rows| else s.tInfo2)
  }

  /** `SaveFile` */
  function Saved(g: Grid, s: Sauce, today: string): string
    requires g.Valid() && ValidRows(g.rows)
  {
    if s.present then Appended(Written(g), Sized(g, s), today) else Written(g)
  }

  /** `LoadFile` */
  function Loaded(data: string): (r: (Grid, Sauce))
    ensures r.0.Valid()
  {
    var (art, s) := SplitOf(data);
    (Parsed(art, DEF_COLS, DEF_ROWS), s)
  }

  method SaveFile(c: Canvas, s: Sauce, today: string) returns (data: string)
    requires c.Valid() && ValidRows(c.View().rows) && Ascii(c.View())
    ensures data == Saved(c.View(), s, today)
  {
    hide Written, Appended;
    data := WriteANSI(c);
    if s.present {
      var sauce := s;
      if sauce.tInfo1 == 0 {
        sauce := sauce.(tInfo1 := c.cols);
      }
      if sauce.tInfo2 == 0 {
        sauce := sauce.(tInfo2 := c.rows);
      }
      data := AppendSauce(data, sauce, today);
    }
  }

  method LoadFile(data: string) returns (c: Canvas, s: Sauce)
    requires forall i :: 0 <= i < |data| ==> data[i] < '\U{80}'
    ensures c.Valid() && (c.View(), s) == Loaded(data)
  {
    hide Parsed, SplitOf;
    var art;
    art, s := SplitSauce(data);
    c := ParseANSI(art, DEF_COLS, DEF_ROWS);
  }

  // ---------------------------------------------------------------- a text that looks signed

  /** The last 128 octets of the text begin like a record, and there is room for the comment lines that the
      record would announce. */
  predicate Signed(text: string) {
    |text| >= SAUCE_LEN
    && var start := |text| - SAUCE_LEN;
       && text[start..start + 7] == SAUCE_ID
       && (Octets.FromOctet(text[start + 104]) == 0 || start >= 5 + COMNT_LINE_LEN * Octets.FromOctet(text[start + 104]))
  }

  /** Splitting takes the end of a text off exactly when it looks signed. */
  lemma SplitIff(text: string)
    ensures Signed(text) ==> SplitOf(text).1.present && SplitOf(text).0 <= text && |SplitOf(text).0| <= |text| - SAUCE_LEN
    ensures !Signed(text) ==> SplitOf(text) == (text, Absent())
  {
    hide LinesAt, Trimmed, Octets.FromLe32, Octets.FromLe16;
    if |text| >= SAUCE_LEN {
      var start := |text| - SAUCE_LEN;
      assert text[start..][0..7] == text[start..start + 7];
      assert text[start..][104] == text[start + 104];
    }
  }

  lemma {:induction false} HasTimes(c: char, t: string, i: nat)
    requires i < |t| && t[i] == c
    ensures AnsiGlyphs.Times(c, t) > 0
  {
    if i > 0 {
      HasTimes(c, t[1..], i - 1);
    }
  }

  lemma FirstOfId(text: string, start: nat)
    requires start + 7 <= |text| && text[start..start + 7] == SAUCE_ID
    ensures text[start] == 'S'
  {
    assert SAUCE_ID[0] == 'S' && text[start..start + 7][0] == text[start];
  }

  /** What is taken off holds an S. */
  lemma CutLosesGlyph(text: string, art: string)
    requires Signed(text) && art <= text && |art| <= |text| - SAUCE_LEN
    ensures AnsiGlyphs.Times('S', art) < AnsiGlyphs.Times('S', text)
  {
    hide AnsiGlyphs.Times;
    var start := |text| - SAUCE_LEN;
    FirstOfId(text, start);
    assert text[..|art|] == art && text[|art|..][start - |art|] == text[start];
    AnsiGlyphs.TimesSplit('S', text, |art|);
    HasTimes('S', text[|art|..], start - |art|);
  }

  /** A canvas that is saved without a sauce, and whose text looks signed, is not loaded as it was. */
  lemma SignedIsLost(g: Grid)
    requires g.Valid() && Drawable(g) && Signed(Written(g))
    ensures !SamePicture(Parsed(SplitOf(Written(g)).0, DEF_COLS, DEF_ROWS), g)
  {
    hide Parsed, Written, SplitOf, Signed, AnsiGlyphs.Times, AnsiGlyphs.RowMarks;
    var text := Written(g);
    var art := SplitOf(text).0;
    SplitIff(text);
    CutLosesGlyph(text, art);
    AnsiGlyphs.FewerGlyphs('S', g, art, DEF_COLS, DEF_ROWS);
    var p := Parsed(art, DEF_COLS, DEF_ROWS);
    if SamePicture(p, g) {
      AnsiGlyphs.GridMarks('S', g, p);
    }
  }

  lemma SizeSurvives(art: string, g: Grid, s: Sauce, today: string)
    requires g.Valid()
    ensures var back := Normalised(art, Sized(g, s), today);
      && back.tInfo1 == (if s.tInfo1 == 0 then g.cols else s.tInfo1)
      && back.tInfo2 == (if s.tInfo2 == 0 then |g.rows| else s.tInfo2)
  {
    hide Trimmed, KeptLines, TrimmedLines;
  }

  /** Saving and loading a file. The loaded canvas shows the same picture exactly when its text would be read back
      as that picture, and either a sauce was saved or the text does not look signed by itself. A saved sauce comes
      back in its normal form, and without one there is none. */
  lemma SaveThenLoad(g: Grid, s: Sauce, today: string)
    requires g.Valid() && Drawable(g) && Ascii(g)
    ensures var (p, back) := Loaded(Saved(g, s, today));
      && (SamePicture(p, g) <==>
            && PlainRows(g.rows) && WrapsOnlyAtEnd(p.cols, g.rows) && NoStaleBoldRows(false, g.rows)
            && (s.present || !Signed(Written(g))))
      && (s.present ==> back == Normalised(Written(g), Sized(g, s), today))
      && (s.present ==> back.tInfo1 == (if s.tInfo1 == 0 then g.cols else s.tInfo1)
                        && back.tInfo2 == (if s.tInfo2 == 0 then |g.rows| else s.tInfo2))
      && (!s.present && !Signed(Written(g)) ==> back == Absent())
  {
    hide Parsed, Written, SplitOf, Appended, Signed, PlainRows, WrapsOnlyAtEnd, NoStaleBoldRows, Normalised;
    WriteThenParse(g, DEF_COLS, DEF_ROWS);
    if s.present {
      SplitAppended(Written(g), Sized(g, s), today);
      SizeSurvives(Written(g), g, s, today);
    } else {
      SplitIff(Written(g));
      if Signed(Written(g)) {
        SignedIsLost(g);
      }
    }
  }

  // ---------------------------------------------------------------- a canvas that is cut

  /** Cells in the default colours. */
  predicate DefaultColours(cells: seq<Cell>) {
    forall x :: 0 <= x < |cells| ==> cells[x].fg == Classic(7) && cells[x].bg == Classic(0) && cells[x].ch != '\0'
  }

  function Glyphs(cells: seq<Cell>): (r: string)
    ensures |r| == |cells| && forall x :: 0 <= x < |r| ==> r[x] == cells[x].ch
  {
    seq(|cells|, x requires 0 <= x < |cells| => cells[x].ch)
  }

  lemma {:induction false} RenderDefault(cells: seq<Cell>)
    requires DefaultColours(cells)
    ensures ValidCells(cells) && Render("", Holding(Classic(7), Classic(0)), cells) == Glyphs(cells)
    decreases |cells|
  {
    if cells != [] {
      RenderDefault(cells[1..]);
      assert Glyphs(cells) == [cells[0].ch] + Glyphs(cells[1..]);
    }
  }

  lemma {:induction false} RenderLength(pen: Pen, cells: seq<Cell>)
    requires ValidCells(cells)
    ensures |Render("", pen, cells)| >= |cells|
    decreases |cells|
  {
    hide Sgr;
    if cells != [] {
      RenderLength(Holding(cells[0].fg, cells[0].bg), cells[1..]);
    }
  }

  lemma ResetText()
    ensures |Sgr([0])| == 4
  {
    assert Decimals([0]) == ["0"] && Join(["0"], ';') == "0";
  }

  /** The end of the text of a canvas in the default colours, and how much is in front of it. */
  lemma {:induction false} Ending(pen: Pen, rows: seq<seq<Cell>>, row: seq<Cell>) returns (front: string)
    requires forall y :: 0 <= y < |rows| ==> DefaultColours(rows[y]) && RowEnd(rows[y]) == 159
    requires DefaultColours(row) && (rows == [] ==> pen == Holding(Classic(7), Classic(0)))
    ensures ValidRows(rows + [row]) && |front| >= 161 * |rows|
    ensures RenderRows("", pen, rows + [row]) == front + (Glyphs(Drawn(row)) + (CRLF + Sgr([0])))
    decreases |rows|
  {
    hide Render, RenderRows, Sgr;
    var all := rows + [row];
    assert ValidRows(all) by {
      forall y | 0 <= y < |all| ensures ValidCells(all[y]) {
        RenderDefault(all[y]);
      }
    }
    RenderFirstRow("", pen, all);
    var cells := Drawn(all[0]);
    if rows == [] {
      assert all[1..] == [] && all[0] == row;
      RenderDefault(cells);
      RenderNoRows("", PenAfter(pen, cells));
      assert "" + Sgr([0]) == Sgr([0]);
      front := "";
    } else {
      assert all[1..] == rows[1..] + [row] && all[0] == rows[0];
      var below := Ending(PenAfter(pen, cells), rows[1..], row);
      RenderLength(pen, cells);
      front := Render("", pen, cells) + (CRLF + below);
      assert Render("", pen, cells) + (CRLF + (below + (Glyphs(Drawn(row)) + (CRLF + Sgr([0])))))
        == front + (Glyphs(Drawn(row)) + (CRLF + Sgr([0])));
    }
  }

  function Dot(): Cell {
    Cell('.', Classic(7), Classic(0))
  }

  function DottedCell(x: nat): Cell {
    if x < 159 then Dot() else BLANK
  }

  /** Dots, with SAUCE00 at column 37 and a space at column 141. */
  function SignedCell(x: nat): Cell {
    if 37 <= x < 44 then Cell(SAUCE_ID[x - 37], Classic(7), Classic(0)) else if x == 141 then BLANK else DottedCell(x)
  }

  function DottedRow(): (row: seq<Cell>)
    ensures |row| == 160 && forall x :: 0 <= x < 160 ==> row[x] == DottedCell(x)
  {
    seq(160, x requires 0 <= x < 160 => DottedCell(x))
  }

  function SignedRow(): (row: seq<Cell>)
    ensures |row| == 160 && forall x :: 0 <= x < 160 ==> row[x] == SignedCell(x)
  {
    seq(160, x requires 0 <= x < 160 => SignedCell(x))
  }

  function SignedCanvas(): Grid {
    Grid(160, seq(13, _ => DottedRow()) + [SignedRow()])
  }

  lemma RowsEnd()
    ensures RowEnd(DottedRow()) == 159 && RowEnd(SignedRow()) == 159
  {
    assert DottedRow()[158] == Dot() != BLANK && DottedRow()[159] == BLANK;
    assert SignedRow()[158] == Dot() != BLANK && SignedRow()[159] == BLANK;
  }

  lemma LooksSigned(front: string, w: string, tail: string)
    requires |front| >= 161 * 13 && |w| == 159 && |tail| == 6
    requires w[37..44] == SAUCE_ID && w[141] == ' '
    ensures Signed(front + (w + tail))
  {
    var text := front + (w + tail);
    var start := |text| - SAUCE_LEN;
    assert start == |front| + 37;
    assert text[start..start + 7] == w[37..44];
    assert text[start + 104] == w[141];
  }

  /** Fourteen rows of dots with SAUCE00 drawn in the last: saved without a sauce, the last row is taken for one,
      although the canvas meets every other condition. */
  lemma DrawnSignatureIsCut(s: Sauce, today: string)
    requires !s.present
    ensures var g := SignedCanvas();
      && g.Valid() && Drawable(g) && Ascii(g)
      && PlainRows(g.rows) && WrapsOnlyAtEnd(160, g.rows) && NoStaleBoldRows(false, g.rows)
      && !SamePicture(Loaded(Saved(g, s, today)).0, g)
  {
    hide Loaded, Saved, Signed, Written, RenderRows, NoStaleBoldRows, PlainRows, SignedRow, DottedRow;
    var g := SignedCanvas();
    SignedCanvasIsPlain();
    var front := Ending(Fresh, g.rows[..13], SignedRow());
    assert g.rows == g.rows[..13] + [SignedRow()];
    var w := Glyphs(Drawn(SignedRow()));
    SignedGlyphs();
    ResetText();
    LooksSigned(front, w, CRLF + Sgr([0]));
    assert Written(g) == front + (w + (CRLF + Sgr([0]))) by { WrittenIs(g); }
    SaveThenLoad(g, s, today);
  }

  lemma WrittenIs(g: Grid)
    requires ValidRows(g.rows)
    ensures Written(g) == RenderRows("", Fresh, g.rows)
  {
    hide RenderRows;
  }

  lemma SignedGlyphs()
    ensures var w := Glyphs(Drawn(SignedRow()));
      |w| == 159 && w[37..44] == SAUCE_ID && w[141] == ' '
  {
    RowsEnd();
    var w := Glyphs(Drawn(SignedRow()));
    assert |SAUCE_ID| == 7;
    forall i | 0 <= i < 7 ensures w[37..44][i] == SAUCE_ID[i] {
      assert w[37 + i] == SignedRow()[37 + i].ch;
    }
    assert SignedRow()[141] == BLANK;
  }

  lemma SignedCanvasIsPlain()
    ensures var g := SignedCanvas();
      && g.Valid() && Drawable(g) && Ascii(g) && |g.rows| == 14 && g.rows[13] == SignedRow()
      && PlainRows(g.rows) && WrapsOnlyAtEnd(160, g.rows) && NoStaleBoldRows(false, g.rows)
      && forall y :: 0 <= y < 14 ==> DefaultColours(g.rows[y]) && RowEnd(g.rows[y]) == 159
  {
    hide RowEnd, NoStaleBoldRows, SignedRow, DottedRow;
    var g := SignedCanvas();
    RowsEnd();
    forall y | 0 <= y < 14
      ensures |g.rows[y]| == 160 && DefaultColours(g.rows[y]) && PlainCells(g.rows[y])
    {
      PlainRowsOfCanvas();
    }
    NoBrackets(g.rows);
    NeverStale(false, g.rows);
  }

  /** Printable ASCII glyphs, and no bracket. */
  predicate PlainCells(cells: seq<Cell>) {
    forall x :: 0 <= x < |cells| ==> ' ' <= cells[x].ch < '\U{80}' && cells[x].ch != '['
  }

  lemma NoBrackets(rows: seq<seq<Cell>>)
    requires forall y :: 0 <= y < |rows| ==> PlainCells(rows[y])
    ensures PlainRows(rows)
  {
    hide RowEnd;
    forall y | 0 <= y < |rows| ensures PlainBrackets(Drawn(rows[y])) {
      assert PlainCells(rows[y]);
    }
  }

  lemma CellByCell(cells: seq<Cell>)
    requires forall x :: 0 <= x < |cells| ==> DefaultColours([cells[x]]) && PlainCells([cells[x]])
    ensures DefaultColours(cells) && PlainCells(cells)
  {
    forall x | 0 <= x < |cells|
      ensures cells[x].fg == Classic(7) && cells[x].bg == Classic(0) && ' ' <= cells[x].ch < '\U{80}' && cells[x].ch != '['
    {
      assert [cells[x]][0] == cells[x];
    }
  }

  lemma PlainRowsOfCanvas()
    ensures DefaultColours(DottedRow()) && PlainCells(DottedRow())
    ensures DefaultColours(SignedRow()) && PlainCells(SignedRow())
  {
    hide DottedRow, SignedRow;
    assert SAUCE_ID == ['S', 'A', 'U', 'C', 'E', '0', '0'];
    forall x | 0 <= x < 160
      ensures DefaultColours([DottedRow()[x]]) && PlainCells([DottedRow()[x]])
      ensures DefaultColours([SignedRow()[x]]) && PlainCells([SignedRow()[x]])
    {
      assert DottedRow()[x] == DottedCell(x) && SignedRow()[x] == SignedCell(x);
    }
    CellByCell(DottedRow());
    CellByCell(SignedRow());
  }
}
