/** A canvas on which a drawn '[' spells a colour code is always lost: a loaded picture holds at most the
    brackets that the pre-pass left bare, and each spelled code takes at least one drawn bracket out of them. */
module AnsiBrackets {
  import opened Text
  import opened CanvasModel
  import opened AnsiWriter
  import opened AnsiParser
  import opened AnsiExpansion
  import opened AnsiGlyphs

  // ---------------------------------------------------------------- brackets in a loaded text

  /** The brackets without an ESC directly in front. */
  function Bare(esc: bool, t: string): nat
    decreases |t|
  {
    if t == [] then 0 else (if t[0] == '[' && !esc then 1 else 0) + Bare(t[0] == ESC, t[1..])
  }

  lemma {:induction false} BareAppend(esc: bool, a: string, c: char, rest: string)
    ensures Bare(esc, a + [c] + rest) == Bare(esc, a + [c]) + Bare(c == ESC, rest)
    decreases |a|
  {
    if a == [] {
      assert a + [c] + rest == [c] + rest && a + [c] == [c] && [c][1..] == [] && ([c] + rest)[1..] == rest;
    } else {
      assert (a + [c] + rest)[1..] == a[1..] + [c] + rest && (a + [c])[1..] == a[1..] + [c];
      BareAppend(a[0] == ESC, a[1..], c, rest);
    }
  }

  lemma {:induction false} NoneBare(esc: bool, a: string)
    requires '[' !in a
    ensures Bare(esc, a) == 0
    decreases |a|
  {
    if a != [] {
      NoneBare(a[0] == ESC, a[1..]);
    }
  }

  /** The text ends in a letter, as every text the writer prints does. */
  predicate EndsInLetter(t: string) {
    t == [] || IsLetter(t[|t| - 1])
  }

  lemma {:induction false} LetterAhead(t: string)
    requires t != [] && IsLetter(t[|t| - 1])
    ensures NonLetters(t) < |t|
  {
    if !IsLetter(t[0]) {
      assert t[1..] != [] && t[1..][|t| - 2] == t[|t| - 1];
      LetterAhead(t[1..]);
    }
  }

  lemma CodeHasFinal(t: string)
    requires |t| > 1 && t[0] == ESC && t[1] == '[' && EndsInLetter(t)
    ensures CsiFinal(t) != 0
  {
    assert IsLetter(t[|t| - 1]);
    assert t[2..][|t| - 3] == t[|t| - 1];
    LetterAhead(t[2..]);
  }

  /** After one item of a text that ends in a letter the rest does so too, and has no more bare brackets. */
  lemma ItemBare(esc: bool, t: string)
    requires t != [] && EndsInLetter(t)
    ensures EndsInLetter(t[Item(t)..])
    ensures CsiFinal(t) != 0 ==> Bare(false, t[Item(t)..]) <= Bare(esc, t)
    ensures CsiFinal(t) == 0 ==> t[0] == ESC ==> t[1..] == [] || t[1] != '['
  {
    hide Bare;
    var j := CsiFinal(t);
    assert Item(t) < |t| ==> t[Item(t)..][|t| - Item(t) - 1] == t[|t| - 1];
    if j != 0 {
      assert t == t[..j] + [t[j]] + t[j + 1..];
      assert t[j] == t[2..][j - 2];
      BareAppend(esc, t[..j], t[j], t[j + 1..]);
    }
    if t[0] == ESC && |t| > 1 && t[1] == '[' {
      CodeHasFinal(t);
    }
  }

  /** The rest after a single character, read as after any other character. */
  lemma StepBare(t: string)
    requires t != [] && (t[0] == ESC ==> t[1..] == [] || t[1] != '[')
    ensures Bare(false, t) == (if t[0] == '[' then 1 else 0) + Bare(false, t[1..])
  {
    assert t[0] == ESC && t[1..] != [] ==> t[1..][0] == t[1];
  }

  /** Painting a text adds at most its bare brackets. */
  lemma {:induction false} PaintMarks(s: Screen, t: string)
    requires s.grid.Valid() && EndsInLetter(t)
    ensures RowMarks('[', Painted(s, t).grid.rows) <= RowMarks('[', s.grid.rows) + Bare(false, t)
    decreases |t|
  {
    hide RowMarks, PaintOne, CsiFinal, Bare, EndsInLetter;
    if !AtEnd(t) {
      OneMarks('[', s, t);
      ItemBare(false, t);
      if CsiFinal(t) == 0 {
        StepBare(t);
      }
      PaintMarks(PaintOne(s, t), t[Item(t)..]);
    }
  }

  // ---------------------------------------------------------------- brackets the pre-pass leaves alone

  /** The brackets that the pre-pass does not take for the start of a code. */
  function Left(s: string): nat {
    if s == [] then 0 else (if s[0] == '[' && !ExpandsBefore(s[1..]) then 1 else 0) + Left(s[1..])
  }

  lemma LeftCons(c: char, t: string)
    ensures Left([c] + t) == (if c == '[' && !ExpandsBefore(t) then 1 else 0) + Left(t)
  {
    assert ([c] + t)[1..] == t;
  }

  lemma {:induction false} LeftShrinks(s: string, n: nat)
    requires n <= |s|
    ensures Left(s[n..]) <= Left(s)
  {
    hide ExpandsBefore;
    if n > 0 {
      LeftShrinks(s[1..], n - 1);
      assert s[1..][n - 1..] == s[n..];
    } else {
      assert s[0..] == s;
    }
  }

  lemma CodeBare(esc: bool, s: string, rest: string)
    requires s != [] && s[0] == '[' && ExpandsBefore(s[1..])
    ensures var n := RunLength(s[1..]) + 2;
      n <= |s| && Bare(esc, [ESC] + s[..n] + rest) == Bare(false, rest)
  {
    hide RunLength;
    var n := RunLength(s[1..]) + 2;
    var q := s[1..n - 1];
    var last := s[n - 1];
    assert last == s[1..][n - 2] && IsLetter(last);
    forall i | 0 <= i < |q| ensures q[i] != '[' {
      assert q[i] == s[1..][i] && InRun(s[1..][i]);
    }
    assert '[' !in q + [last];
    var t := q + [last];
    assert s[..n] == ['['] + t;
    var u := [ESC] + s[..n];
    assert u[1..] == ['['] + t && (['['] + t)[1..] == t;
    NoneBare(false, t);
    assert Bare(true, ['['] + t) == Bare(false, t);
    assert Bare(esc, u) == 0;
    assert u == u[..n] + [last];
    BareAppend(esc, u[..n], last, rest);
  }

  /** The bare brackets of a loaded text are among those the pre-pass left alone. */
  lemma {:induction false} ExpandedBare(esc: bool, s: string)
    ensures Bare(esc, Expanded(s)) <= Left(s)
    decreases |s|
  {
    hide ExpandsBefore, RunLength;
    if s == [] {
    } else if s[0] == '[' && ExpandsBefore(s[1..]) {
      CodeEnds(s);
      var n := RunLength(s[1..]) + 2;
      CodeBare(esc, s, Expanded(s[n..]));
      ExpandedBare(false, s[n..]);
      LeftShrinks(s, n);
    } else {
      ExpandedBare(s[0] == ESC, s[1..]);
      var t := [s[0]] + Expanded(s[1..]);
      assert t[1..] == Expanded(s[1..]);
    }
  }

  // ---------------------------------------------------------------- brackets of a written canvas

  lemma {:induction false} LeftSkip(q: string, rest: string)
    requires '[' !in q
    ensures Left(q + rest) == Left(rest)
  {
    hide ExpandsBefore;
    if q == [] {
      assert q + rest == rest;
    } else {
      LeftCons(q[0], q[1..] + rest);
      assert q + rest == [q[0]] + (q[1..] + rest);
      LeftSkip(q[1..], rest);
    }
  }

  lemma LeftSgr(codes: seq<Byte>, rest: string)
    requires codes != []
    ensures Left(Sgr(codes) + rest) == Left(rest)
  {
    hide Left, RunLength, Sgr, Join, Decimals;
    var q := Join(Decimals(codes), ';');
    SgrText(codes, rest);
    JoinedRun(codes);
    RunLengthOf(q, ['m'] + rest);
    var t := q + (['m'] + rest);
    assert ExpandsBefore(t);
    LeftCons(ESC, ['['] + t);
    LeftCons('[', t);
    LeftSkip(q, ['m'] + rest);
    LeftCons('m', rest);
  }

  lemma LeftChange(pen: Pen, fg: Color, bg: Color, rest: string)
    requires fg.ValidFG() && bg.ValidBG()
    ensures Left(ColorChange("", pen, fg, bg) + rest) == Left(rest)
  {
    hide Left, Sgr;
    if pen == Holding(fg, bg) {
      assert "" + rest == rest;
    } else {
      assert "" + Sgr(SgrCodes(pen.Fresh?, fg, bg)) == Sgr(SgrCodes(pen.Fresh?, fg, bg));
      LeftSgr(SgrCodes(pen.Fresh?, fg, bg), rest);
    }
  }

  lemma PlainHead(cells: seq<Cell>)
    requires cells != []
    ensures PlainBrackets(cells) <==>
      PlainBrackets(cells[1..]) && (cells[0].ch == '[' ==> !SpellsCode(cells[1..], cells[0].fg, cells[0].bg))
  {
    hide SpellsCode;
    if PlainBrackets(cells) {
      PlainTail(cells);
    }
    if PlainBrackets(cells[1..]) && (cells[0].ch == '[' ==> !SpellsCode(cells[1..], cells[0].fg, cells[0].bg)) {
      forall x | 0 <= x < |cells| && cells[x].ch == '[' ensures !SpellsCode(cells[x + 1..], cells[x].fg, cells[x].bg) {
        assert x > 0 ==> cells[x] == cells[1..][x - 1] && cells[x + 1..] == cells[1..][x..];
      }
    }
  }

  lemma CodeInText(cells: seq<Cell>, fg: Color, bg: Color, rest: string)
    requires ValidCells(cells) && rest != [] && rest[0] == '\r' && SpellsCode(cells, fg, bg)
    ensures ExpandsBefore(Render("", Holding(fg, bg), cells) + rest)
  {
    LetterRunInText(cells, fg, bg, rest);
    var text := Render("", Holding(fg, bg), cells) + rest;
    assert Token("", Holding(fg, bg), cells[0]) == [cells[0].Normal().ch];
    assert text[0] == cells[0].Normal().ch;
  }

  /** Every bracket of a row is left alone, except those that spell a code. */
  lemma {:induction false} LeftOfRow(pen: Pen, cells: seq<Cell>, rest: string)
    requires ValidCells(cells) && rest != [] && rest[0] == '\r'
    ensures Left(Render("", pen, cells) + rest) <= Marks('[', cells) + Left(rest)
    ensures !PlainBrackets(cells) ==> Left(Render("", pen, cells) + rest) < Marks('[', cells) + Left(rest)
    decreases |cells|
  {
    hide Left, SpellsCode, ExpandsBefore, Render, PlainBrackets;
    if cells == [] {
      RenderNothing("", pen);
      assert "" + rest == rest;
      NoBrackets();
    } else {
      var cell := cells[0];
      var next := Holding(cell.fg, cell.bg);
      var ch := cell.Normal().ch;
      var tail := Render("", next, cells[1..]) + rest;
      RenderCons("", pen, cells, rest);
      LeftChange(pen, cell.fg, cell.bg, [ch] + tail);
      LeftCons(ch, tail);
      PlainHead(cells);
      LeftOfRow(next, cells[1..], rest);
      if ch == '[' && SpellsCode(cells[1..], cell.fg, cell.bg) {
        CodeInText(cells[1..], cell.fg, cell.bg, rest);
      }
    }
  }

  lemma NoBrackets()
    ensures PlainBrackets([])
  {
  }

  lemma PlainFirstRow(rows: seq<seq<Cell>>)
    requires rows != []
    ensures PlainRows(rows) <==> PlainBrackets(Drawn(rows[0])) && PlainRows(rows[1..])
  {
    hide PlainBrackets, Drawn;
    if PlainRows(rows) {
      forall y | 0 <= y < |rows[1..]| ensures PlainBrackets(Drawn(rows[1..][y])) {
        assert rows[1..][y] == rows[y + 1];
      }
    }
    if PlainBrackets(Drawn(rows[0])) && PlainRows(rows[1..]) {
      forall y | 0 <= y < |rows| ensures PlainBrackets(Drawn(rows[y])) {
        assert y > 0 ==> rows[y] == rows[1..][y - 1];
      }
    }
  }

  lemma {:induction false} LeftOfRows(pen: Pen, rows: seq<seq<Cell>>)
    requires ValidRows(rows)
    ensures Left(RenderRows("", pen, rows)) <= DrawnRowMarks('[', rows)
    ensures !PlainRows(rows) ==> Left(RenderRows("", pen, rows)) < DrawnRowMarks('[', rows)
    decreases |rows|
  {
    hide Left, Render, RenderRows, PlainBrackets, PlainRows, Marks, Drawn;
    if rows == [] {
      RenderNoRows("", pen);
      NothingLeft();
      NoPlainRows();
      assert "" + Sgr([0]) == Sgr([0]) + "";
      LeftSgr([0], "");
    } else {
      var cells := Drawn(rows[0]);
      var next := PenAfter(pen, cells);
      var below := RenderRows("", next, rows[1..]);
      DrawnIsValid(rows[0]);
      RenderFirstRow("", pen, rows);
      LeftOfRow(pen, cells, CRLF + below);
      LeftSkip(CRLF, below);
      LeftOfRows(next, rows[1..]);
      PlainFirstRow(rows);
    }
  }

  lemma NothingLeft()
    ensures Left("") == 0
  {
  }

  lemma NoPlainRows()
    ensures PlainRows([])
  {
  }

  // ---------------------------------------------------------------- the end of a written canvas

  lemma {:induction false} EndOfRows(pre: string, pen: Pen, rows: seq<seq<Cell>>) returns (front: string)
    requires ValidRows(rows)
    ensures RenderRows(pre, pen, rows) == front + Sgr([0])
    decreases |rows|
  {
    hide Render, RenderRows, Sgr;
    if rows == [] {
      RenderNoRows(pre, pen);
      front := pre;
    } else {
      RenderFirstRow(pre, pen, rows);
      var cells := Drawn(rows[0]);
      var tail := EndOfRows(pre, PenAfter(pen, cells), rows[1..]);
      front := Render(pre, pen, cells) + (CRLF + tail);
      assert Render(pre, pen, cells) + (CRLF + (tail + Sgr([0]))) == front + Sgr([0]);
    }
  }

  /** The pre-pass keeps the last character of a text. */
  lemma {:induction false} ExpandedEnd(s: string)
    requires s != []
    ensures Expanded(s) != [] && Expanded(s)[|Expanded(s)| - 1] == s[|s| - 1]
    decreases |s|
  {
    hide Expanded;
    var head, rest := ExpandedStep(s);
    if rest == [] {
      ExpandNothing();
      assert head + [] == head;
    } else {
      ExpandedEnd(rest);
      assert rest[|rest| - 1] == s[|s| - 1];
    }
  }

  /** One step of the pre-pass. */
  lemma ExpandedStep(s: string) returns (head: string, rest: string)
    requires s != []
    ensures Expanded(s) == head + Expanded(rest) && |rest| < |s| && rest == s[|s| - |rest|..]
    ensures head != [] && (rest == [] ==> head[|head| - 1] == s[|s| - 1])
  {
    hide ExpandsBefore, RunLength;
    if s[0] == '[' && ExpandsBefore(s[1..]) {
      CodeEnds(s);
      var n := RunLength(s[1..]) + 2;
      head, rest := [ESC] + s[..n], s[n..];
    } else {
      head, rest := [s[0]], s[1..];
    }
  }

  lemma WrittenEndsInLetter(g: Grid)
    requires ValidRows(g.rows)
    ensures EndsInLetter(Expanded(Written(g)))
  {
    hide Expanded, RenderRows;
    var front := EndOfRows("", Fresh, g.rows);
    ExpandedEnd(Written(g));
  }

  /** A canvas with a spelled code loses a bracket, for any default size. */
  lemma SpelledIsLost(g: Grid, cols: int, rows: int)
    requires g.Valid() && ValidRows(g.rows) && !PlainRows(g.rows)
    ensures RowMarks('[', Parsed(Written(g), cols, rows).rows) < RowMarks('[', g.rows)
  {
    hide Expanded, Painted, Measured, RenderRows, RowMarks, Left, Bare, PlainRows, BlankGrid;
    var runes := Expanded(Written(g));
    MeasuredGrows(Extent(0, 0, Size(cols, DEF_COLS) - 1, Size(rows, DEF_ROWS) - 1, 0, 0), runes);
    var s := Start(Extents(runes, cols, rows));
    WrittenEndsInLetter(g);
    PaintMarks(s, runes);
    BlankMarks('[', s.grid.cols, |s.grid.rows|);
    ExpandedBare(false, Written(g));
    LeftOfRows(Fresh, g.rows);
    DrawnMarks('[', g.rows);
  }
}
