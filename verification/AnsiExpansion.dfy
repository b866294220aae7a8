/** What expandPCBAnsi makes of the text WriteANSI prints. */
module AnsiExpansion {
  import opened Text
  import opened CanvasModel
  import opened AnsiWriter
  import opened AnsiParser

  // ---------------------------------------------------------------- the text of one SGR

  lemma {:induction false} JoinedRun(codes: seq<Byte>)
    requires codes != []
    ensures var q := Join(Decimals(codes), ';');
      q != [] && IsDigit(q[0]) && forall i :: 0 <= i < |q| ==> InRun(q[i]) && !IsLetter(q[i])
  {
    var parts := Decimals(codes);
    DecimalIsInverse(codes[0]);
    forall i | 0 <= i < |parts[0]| ensures InRun(parts[0][i]) && !IsLetter(parts[0][i]) {
      assert IsDigit(parts[0][i]);
    }
    if |codes| > 1 {
      JoinedRun(codes[1..]);
      assert parts[1..] == Decimals(codes[1..]);
    }
  }

  lemma ParamsOfJoined(codes: seq<Byte>)
    requires codes != []
    ensures Params(Join(Decimals(codes), ';')) == codes
  {
    JoinedRun(codes);
    var parts := Decimals(codes);
    forall i | 0 <= i < |parts| ensures ';' !in parts[i] && ParamValue(parts[i]) == codes[i] {
      DecimalIsInverse(codes[i]);
      AtoiDecimal(codes[i]);
    }
    SplitJoin(parts, ';');
  }

  lemma {:induction false} RunLengthOf(q: string, t: string)
    requires forall i :: 0 <= i < |q| ==> InRun(q[i])
    requires t == [] || !InRun(t[0])
    ensures RunLength(q + t) == |q|
  {
    if q == [] {
      assert q + t == t;
    } else {
      assert (q + t)[1..] == q[1..] + t;
      RunLengthOf(q[1..], t);
    }
  }

  lemma {:induction false} NonLettersOf(q: string, t: string)
    requires forall i :: 0 <= i < |q| ==> !IsLetter(q[i])
    requires t != [] && IsLetter(t[0])
    ensures NonLetters(q + t) == |q|
  {
    if q == [] {
      assert q + t == t;
    } else {
      assert (q + t)[1..] == q[1..] + t;
      NonLettersOf(q[1..], t);
    }
  }

  // ---------------------------------------------------------------- expandPCBAnsi

  lemma ExpandPlain(ch: char, rest: string)
    requires ch == '[' ==> !ExpandsBefore(rest)
    ensures Expanded([ch] + rest) == [ch] + Expanded(rest)
  {
    assert ([ch] + rest)[1..] == rest;
  }

  lemma ExpandCode(q: string, rest: string)
    requires q != [] && IsDigit(q[0]) && forall i :: 0 <= i < |q| ==> InRun(q[i])
    ensures Expanded(['['] + (q + (['m'] + rest))) == [ESC] + (['['] + q + ['m']) + Expanded(rest)
  {
    hide RunLength;
    var t := q + (['m'] + rest);
    var s := ['['] + t;
    RunLengthOf(q, ['m'] + rest);
    assert s[1..] == t && t[|q|] == 'm' && ExpandsBefore(t);
    assert s[..|q| + 2] == ['['] + q + ['m'] && s[|q| + 2..] == rest;
  }

  lemma SgrText(codes: seq<Byte>, rest: string)
    ensures Sgr(codes) + rest == [ESC] + (['['] + (Join(Decimals(codes), ';') + (['m'] + rest)))
    ensures Sgr(codes) == [ESC] + (['['] + Join(Decimals(codes), ';') + ['m'])
  {
    hide Join, Decimals;
  }

  /** The pre-pass doubles the ESC of every colour change. */
  lemma ExpandSgr(codes: seq<Byte>, rest: string)
    requires codes != []
    ensures Expanded(Sgr(codes) + rest) == [ESC] + Sgr(codes) + Expanded(rest)
  {
    hide Expanded, Join, Decimals, Sgr;
    var q := Join(Decimals(codes), ';');
    var code := ['['] + q + ['m'];
    JoinedRun(codes);
    SgrText(codes, rest);
    ExpandPlain(ESC, ['['] + (q + (['m'] + rest)));
    ExpandCode(q, rest);
    Assoc([ESC], [ESC] + code, Expanded(rest));
    Assoc([ESC], [ESC], code);
  }

  lemma ExpandNothing()
    ensures Expanded("") == ""
  {
  }

  lemma ExpandLineEnd(rest: string)
    ensures Expanded(CRLF + rest) == CRLF + Expanded(rest)
  {
    hide Expanded;
    ExpandPlain('\n', rest);
    ExpandPlain('\r', ['\n'] + rest);
    assert CRLF + rest == ['\r'] + (['\n'] + rest);
    assert CRLF + Expanded(rest) == ['\r'] + (['\n'] + Expanded(rest));
  }

  /** The cells continue in the given colours with run characters up to a letter. */
  predicate LetterRun(cells: seq<Cell>, fg: Color, bg: Color)
    decreases |cells|
  {
    cells != [] && cells[0].fg == fg && cells[0].bg == bg
    && (IsLetter(cells[0].ch) || (InRun(cells[0].ch) && LetterRun(cells[1..], fg, bg)))
  }

  /** The cells right of a drawn '[' spell a PCBoard colour code in the colours of that '['. */
  predicate SpellsCode(cells: seq<Cell>, fg: Color, bg: Color) {
    LetterRun(cells, fg, bg) && IsDigit(cells[0].ch)
  }

  predicate PlainBrackets(cells: seq<Cell>) {
    forall x :: 0 <= x < |cells| && cells[x].ch == '[' ==> !SpellsCode(cells[x + 1..], cells[x].fg, cells[x].bg)
  }

  lemma PlainTail(cells: seq<Cell>)
    requires cells != [] && PlainBrackets(cells)
    ensures PlainBrackets(cells[1..])
  {
    forall x | 0 <= x < |cells[1..]| && cells[1..][x].ch == '['
      ensures !SpellsCode(cells[1..][x + 1..], cells[1..][x].fg, cells[1..][x].bg)
    {
      assert cells[1..][x] == cells[x + 1] && cells[1..][x + 1..] == cells[x + 2..];
    }
  }

  predicate HitsLetter(t: string) {
    RunLength(t) < |t| && IsLetter(t[RunLength(t)])
  }

  lemma HitsLetterStep(ch: char, t: string)
    ensures HitsLetter([ch] + t) <==> IsLetter(ch) || (InRun(ch) && HitsLetter(t))
  {
    assert ([ch] + t)[1..] == t;
  }

  /** The text of a row, taken apart after its first glyph. */
  lemma RenderCons(pre: string, pen: Pen, cells: seq<Cell>, rest: string)
    requires ValidCells(cells) && cells != []
    ensures Render(pre, pen, cells) + rest == ColorChange(pre, pen, cells[0].fg, cells[0].bg)
      + ([cells[0].Normal().ch] + (Render(pre, Holding(cells[0].fg, cells[0].bg), cells[1..]) + rest))
  {
    var change := ColorChange(pre, pen, cells[0].fg, cells[0].bg);
    var glyph := [cells[0].Normal().ch];
    var tail := Render(pre, Holding(cells[0].fg, cells[0].bg), cells[1..]);
    Assoc(change + glyph, tail, rest);
    Assoc(change, glyph, tail + rest);
  }

  lemma LetterRunAtEnd(fg: Color, bg: Color, rest: string)
    requires rest != [] && rest[0] == '\r'
    ensures !HitsLetter(Render("", Holding(fg, bg), []) + rest)
  {
    hide RunLength, Render, HitsLetter;
    RenderNothing("", Holding(fg, bg));
    assert rest == ['\r'] + rest[1..];
    assert "" + rest == rest;
    HitsLetterStep('\r', rest[1..]);
  }

  lemma LetterRunAtChange(cells: seq<Cell>, fg: Color, bg: Color, rest: string)
    requires ValidCells(cells) && cells != [] && (cells[0].fg != fg || cells[0].bg != bg)
    ensures !HitsLetter(Render("", Holding(fg, bg), cells) + rest)
  {
    hide RunLength, Render, HitsLetter;
    var text := Render("", Holding(fg, bg), cells) + rest;
    RenderCons("", Holding(fg, bg), cells, rest);
    assert text[0] == ESC;
    assert text == [ESC] + text[1..];
    HitsLetterStep(ESC, text[1..]);
  }

  lemma LetterRunGoesOn(cells: seq<Cell>, fg: Color, bg: Color, rest: string)
    requires ValidCells(cells) && cells != [] && cells[0].fg == fg && cells[0].bg == bg
    ensures HitsLetter(Render("", Holding(fg, bg), cells) + rest) <==>
      IsLetter(cells[0].Normal().ch)
      || (InRun(cells[0].Normal().ch) && HitsLetter(Render("", Holding(fg, bg), cells[1..]) + rest))
  {
    hide RunLength, Render, HitsLetter;
    var tail := Render("", Holding(fg, bg), cells[1..]) + rest;
    RenderCons("", Holding(fg, bg), cells, rest);
    assert Render("", Holding(fg, bg), cells) + rest == [cells[0].Normal().ch] + tail;
    HitsLetterStep(cells[0].Normal().ch, tail);
  }

  /** Whether the text of the cells reads as a run up to a letter is decided by the cells. */
  lemma {:induction false} LetterRunInText(cells: seq<Cell>, fg: Color, bg: Color, rest: string)
    requires ValidCells(cells) && rest != [] && rest[0] == '\r'
    ensures HitsLetter(Render("", Holding(fg, bg), cells) + rest) <==> LetterRun(cells, fg, bg)
    decreases |cells|
  {
    hide RunLength, Render, HitsLetter;
    if cells == [] {
      LetterRunAtEnd(fg, bg, rest);
    } else if cells[0].fg != fg || cells[0].bg != bg {
      LetterRunAtChange(cells, fg, bg, rest);
    } else {
      LetterRunGoesOn(cells, fg, bg, rest);
      LetterRunInText(cells[1..], fg, bg, rest);
    }
  }

  lemma NoCodeInText(cells: seq<Cell>, fg: Color, bg: Color, rest: string)
    requires ValidCells(cells) && rest != [] && rest[0] == '\r' && !SpellsCode(cells, fg, bg)
    ensures !ExpandsBefore(Render("", Holding(fg, bg), cells) + rest)
  {
    LetterRunInText(cells, fg, bg, rest);
    var text := Render("", Holding(fg, bg), cells) + rest;
    if cells != [] && cells[0].fg == fg && cells[0].bg == bg {
      assert Token("", Holding(fg, bg), cells[0]) == [cells[0].Normal().ch];
      assert text[0] == cells[0].Normal().ch;
    }
  }

  lemma ExpandChange(pen: Pen, fg: Color, bg: Color, rest: string)
    requires fg.ValidFG() && bg.ValidBG()
    ensures Expanded(ColorChange("", pen, fg, bg) + rest) == ColorChange([ESC], pen, fg, bg) + Expanded(rest)
  {
    hide Expanded;
    if pen == Holding(fg, bg) {
      assert "" + rest == rest && "" + Expanded(rest) == Expanded(rest);
    } else {
      var codes := SgrCodes(pen.Fresh?, fg, bg);
      assert "" + Sgr(codes) == Sgr(codes);
      ExpandSgr(codes, rest);
    }
  }

  lemma {:induction false} ExpandRender(pen: Pen, cells: seq<Cell>, rest: string)
    requires ValidCells(cells) && PlainBrackets(cells) && rest != [] && rest[0] == '\r'
    ensures Expanded(Render("", pen, cells) + rest) == Render([ESC], pen, cells) + Expanded(rest)
    decreases |cells|
  {
    hide Expanded;
    if cells == [] {
      assert Render("", pen, cells) + rest == rest && Render([ESC], pen, cells) + Expanded(rest) == Expanded(rest);
    } else {
      var cell := cells[0];
      var next := Holding(cell.fg, cell.bg);
      var ch := cell.Normal().ch;
      var tail := Render("", next, cells[1..]) + rest;
      PlainTail(cells);
      ExpandRender(next, cells[1..], rest);
      assert ch == '[' ==> !SpellsCode(cells[1..], cell.fg, cell.bg);
      if ch == '[' {
        NoCodeInText(cells[1..], cell.fg, cell.bg, rest);
      }
      ExpandPlain(ch, tail);
      RenderCons("", pen, cells, rest);
      RenderCons([ESC], pen, cells, Expanded(rest));
      ExpandChange(pen, cell.fg, cell.bg, [ch] + tail);
    }
  }

  predicate PlainRows(rows: seq<seq<Cell>>) {
    forall y :: 0 <= y < |rows| ==> PlainBrackets(Drawn(rows[y]))
  }

  lemma {:induction false} ExpandRows(pen: Pen, rows: seq<seq<Cell>>)
    requires ValidRows(rows) && PlainRows(rows)
    ensures Expanded(RenderRows("", pen, rows)) == RenderRows([ESC], pen, rows)
    decreases |rows|
  {
    hide Expanded, Render, RenderRows;
    if rows == [] {
      ExpandNothing();
      ExpandSgr([0], "");
      RenderNoRows("", pen);
      RenderNoRows([ESC], pen);
      assert "" + Sgr([0]) == Sgr([0]) && Sgr([0]) + "" == Sgr([0]) && [ESC] + Sgr([0]) + "" == [ESC] + Sgr([0]);
    } else {
      var cells := Drawn(rows[0]);
      var next := PenAfter(pen, cells);
      var below := RenderRows("", next, rows[1..]);
      RenderFirstRow("", pen, rows);
      RenderFirstRow([ESC], pen, rows);
      ExpandRows(next, rows[1..]);
      ExpandLineEnd(below);
      ExpandRender(pen, cells, CRLF + below);
    }
  }
}
