/** What each control sequence does to the screen, with the sequence written out as text: the cursor movements and
    their limits, the saved cursor, erasing, tabs, and every colour code, also those that the writer never emits. */
module AnsiControls {
  import opened Text
  import opened CanvasModel
  import opened AnsiParser
  import opened AnsiExpansion
  import opened AnsiRoundTrip

  // ---------------------------------------------------------------- numbers in a sequence

  /** Numbers that `strconv.Atoi` reads back. */
  type Num = n: nat | n <= MAX_INT64

  function Numerals(ns: seq<Num>): (parts: seq<string>)
    ensures |parts| == |ns| && forall i :: 0 <= i < |ns| ==> parts[i] == Decimal(ns[i])
  {
    seq(|ns|, i requires 0 <= i < |ns| => Decimal(ns[i]))
  }

  predicate NoLetters(q: string) {
    forall i :: 0 <= i < |q| ==> !IsLetter(q[i])
  }

  lemma {:induction false} JoinedNoLetters(ns: seq<Num>)
    requires ns != []
    ensures var q := Join(Numerals(ns), ';'); q != "" && NoLetters(q)
  {
    var parts := Numerals(ns);
    DecimalIsInverse(ns[0]);
    assert forall i :: 0 <= i < |parts[0]| ==> IsDigit(parts[0][i]);
    if |ns| > 1 {
      JoinedNoLetters(ns[1..]);
      assert parts[1..] == Numerals(ns[1..]);
    }
  }

  lemma ParamsOf(ns: seq<Num>)
    requires ns != []
    ensures var q := Join(Numerals(ns), ';'); NoLetters(q) && Params(q) == ns
  {
    hide Join, Split, Decimal, Atoi, NoLetters;
    JoinedNoLetters(ns);
    var parts := Numerals(ns);
    forall i | 0 <= i < |parts| ensures ';' !in parts[i] && ParamValue(parts[i]) == ns[i] {
      DecimalIsInverse(ns[i]);
      NoSemicolon(parts[i]);
      AtoiDecimal(ns[i]);
    }
    SplitJoin(parts, ';');
  }

  lemma NoSemicolon(d: string)
    requires AllDigits(d)
    ensures ';' !in d
  {
  }

  lemma JoinedTexts(a: string, b: string, c: string)
    ensures Join([a], ';') == a && Join([a, b], ';') == a + ";" + b && Join([a, b, c], ';') == a + ";" + b + ";" + c
  {
    assert [a, b][1..] == [b] && [a, b, c][1..] == [b, c] && [b, c][1..] == [c];
    assert Join([b, c], ';') == b + [';'] + c;
  }

  lemma FiveTexts(a: string, b: string, c: string, d: string, e: string)
    ensures Join([a, b, c, d, e], ';') == a + ";" + b + ";" + c + ";" + d + ";" + e
  {
    hide Join;
    JoinedTexts(c, d, e);
    FrontText(b, [c, d, e]);
    FrontText(a, [b, c, d, e]);
    assert [b] + [c, d, e] == [b, c, d, e] && [a] + [b, c, d, e] == [a, b, c, d, e];
    var tail := c + ";" + d + ";" + e;
    assert a + [';'] + (b + [';'] + tail) == a + ";" + b + ";" + c + ";" + d + ";" + e;
  }

  lemma FrontText(a: string, parts: seq<string>)
    requires parts != []
    ensures Join([a] + parts, ';') == a + [';'] + Join(parts, ';')
  {
    assert ([a] + parts)[1..] == parts;
  }

  lemma OneNumber(a: Num)
    ensures NoLetters(Decimal(a)) && Params(Decimal(a)) == [a]
  {
    hide Params, Decimal, NoLetters, Join;
    ParamsOf([a]);
    JoinedTexts(Decimal(a), "", "");
    assert Numerals([a]) == [Decimal(a)];
  }

  lemma TwoNumbers(a: Num, b: Num)
    ensures NoLetters(Decimal(a) + ";" + Decimal(b)) && Params(Decimal(a) + ";" + Decimal(b)) == [a, b]
  {
    hide Params, Decimal, NoLetters, Join;
    ParamsOf([a, b]);
    JoinedTexts(Decimal(a), Decimal(b), "");
    assert Numerals([a, b]) == [Decimal(a), Decimal(b)];
  }

  lemma ThreeNumbers(a: Num, b: Num, c: Num)
    ensures var q := Decimal(a) + ";" + Decimal(b) + ";" + Decimal(c); NoLetters(q) && Params(q) == [a, b, c]
  {
    hide Params, Decimal, NoLetters, Join;
    ParamsOf([a, b, c]);
    JoinedTexts(Decimal(a), Decimal(b), Decimal(c));
    assert Numerals([a, b, c]) == [Decimal(a), Decimal(b), Decimal(c)];
  }

  lemma FiveNumbers(a: Num, b: Num, c: Num, d: Num, e: Num)
    ensures var q := Decimal(a) + ";" + Decimal(b) + ";" + Decimal(c) + ";" + Decimal(d) + ";" + Decimal(e);
      NoLetters(q) && Params(q) == [a, b, c, d, e]
  {
    hide Params, Decimal, NoLetters, Join;
    ParamsOf([a, b, c, d, e]);
    FiveTexts(Decimal(a), Decimal(b), Decimal(c), Decimal(d), Decimal(e));
    assert Numerals([a, b, c, d, e]) == [Decimal(a), Decimal(b), Decimal(c), Decimal(d), Decimal(e)];
  }

  lemma NoNumber()
    ensures NoLetters("") && Params("") == []
  {
  }

  // ---------------------------------------------------------------- one sequence

  lemma SequenceShape(q: string, final: char, rest: string)
    requires NoLetters(q) && IsLetter(final)
    ensures var t := [ESC, '['] + q + [final] + rest; var j := 2 + |q|;
      && CsiFinal(t) == j && t[j] == final && t[2..j] == q && Item(t) == j + 1 && t[j + 1..] == rest && !AtEnd(t)
  {
    hide NonLetters;
    var t := [ESC, '['] + q + [final] + rest;
    assert t[2..] == q + ([final] + rest);
    NonLettersOf(q, [final] + rest);
  }

  /** A sequence is taken as a whole, with the numbers in it. */
  lemma Sequence(s: Screen, q: string, final: char, rest: string)
    requires s.grid.Valid() && NoLetters(q) && IsLetter(final)
    ensures Painted(s, [ESC, '['] + q + [final] + rest) == Painted(Controlled(s, final, Params(q)), rest)
  {
    hide CsiFinal, Item, Params, Controlled, NoLetters;
    SequenceShape(q, final, rest);
  }

  lemma BareText(final: char, rest: string)
    ensures [ESC, '['] + "" + [final] + rest == [ESC, '[', final] + rest
  {
  }

  /** A sequence without a number. */
  lemma Bare(s: Screen, final: char, rest: string)
    requires s.grid.Valid() && IsLetter(final)
    ensures Painted(s, [ESC, '[', final] + rest) == Painted(Controlled(s, final, []), rest)
  {
    hide Painted, Params, NoLetters, Controlled;
    NoNumber();
    BareText(final, rest);
    Sequence(s, "", final, rest);
  }

  lemma MeasuredSequence(e: Extent, q: string, final: char, rest: string)
    requires NoLetters(q) && IsLetter(final)
    ensures var m := Moved(e, final, Params(q));
      Measured(e, [ESC, '['] + q + [final] + rest) == Measured(m.Note(m.cx, m.cy), rest)
  {
    hide CsiFinal, Item, Params, Moved, NoLetters;
    SequenceShape(q, final, rest);
  }

  /** A number that is missing or 0 counts 1. */
  function OrOne(n: nat): nat {
    if n == 0 then 1 else n
  }

  // ---------------------------------------------------------------- the cursor

  /** `H` and `f` take a row and a column, both counted from 1. */
  lemma CursorTo(s: Screen, r: Num, c: Num, rest: string)
    requires s.grid.Valid()
    ensures Painted(s, [ESC, '['] + (Decimal(r) + ";" + Decimal(c)) + "H" + rest)
         == Painted(s.(cy := OrOne(r) - 1, cx := OrOne(c) - 1), rest)
    ensures Painted(s, [ESC, '['] + (Decimal(r) + ";" + Decimal(c)) + "f" + rest)
         == Painted(s.(cy := OrOne(r) - 1, cx := OrOne(c) - 1), rest)
  {
    hide Painted, Params, Decimal, NoLetters;
    TwoNumbers(r, c);
    Sequence(s, Decimal(r) + ";" + Decimal(c), 'H', rest);
    Sequence(s, Decimal(r) + ";" + Decimal(c), 'f', rest);
  }

  /** A row alone goes to its first column, and no number at all goes home. */
  lemma CursorToRow(s: Screen, r: Num, rest: string)
    requires s.grid.Valid()
    ensures Painted(s, [ESC, '['] + Decimal(r) + "H" + rest) == Painted(s.(cy := OrOne(r) - 1, cx := 0), rest)
    ensures Painted(s, [ESC, '[', 'H'] + rest) == Painted(s.(cy := 0, cx := 0), rest)
  {
    hide Painted, Decimal;
    OneNumber(r);
    Sequence(s, Decimal(r), 'H', rest);
    Bare(s, 'H', rest);
  }

  /** `A`, `B`, `C` and `D` move by a number, up to the first or last row or column. */
  lemma CursorUp(s: Screen, n: Num, rest: string)
    requires s.grid.Valid()
    ensures Painted(s, [ESC, '['] + Decimal(n) + "A" + rest) == Painted(s.(cy := Max(0, s.cy - OrOne(n))), rest)
  {
    hide Painted, Params, Decimal, NoLetters;
    OneNumber(n);
    Sequence(s, Decimal(n), 'A', rest);
  }

  lemma CursorDown(s: Screen, n: Num, rest: string)
    requires s.grid.Valid()
    ensures Painted(s, [ESC, '['] + Decimal(n) + "B" + rest) == Painted(s.(cy := Min(|s.grid.rows| - 1, s.cy + OrOne(n))), rest)
  {
    hide Painted, Params, Decimal, NoLetters;
    OneNumber(n);
    Sequence(s, Decimal(n), 'B', rest);
  }

  lemma CursorRight(s: Screen, n: Num, rest: string)
    requires s.grid.Valid()
    ensures Painted(s, [ESC, '['] + Decimal(n) + "C" + rest) == Painted(s.(cx := Min(s.grid.cols - 1, s.cx + OrOne(n))), rest)
  {
    hide Painted, Params, Decimal, NoLetters;
    OneNumber(n);
    Sequence(s, Decimal(n), 'C', rest);
  }

  lemma CursorLeft(s: Screen, n: Num, rest: string)
    requires s.grid.Valid()
    ensures Painted(s, [ESC, '['] + Decimal(n) + "D" + rest) == Painted(s.(cx := Max(0, s.cx - OrOne(n))), rest)
  {
    hide Painted, Params, Decimal, NoLetters;
    OneNumber(n);
    Sequence(s, Decimal(n), 'D', rest);
  }

  lemma ByOne(s: Screen)
    requires s.grid.Valid()
    ensures Controlled(s, 'A', []) == s.(cy := Max(0, s.cy - 1))
    ensures Controlled(s, 'B', []) == s.(cy := Min(|s.grid.rows| - 1, s.cy + 1))
    ensures Controlled(s, 'C', []) == s.(cx := Min(s.grid.cols - 1, s.cx + 1))
    ensures Controlled(s, 'D', []) == s.(cx := Max(0, s.cx - 1))
  {
  }

  /** Without a number they move by one. */
  lemma OneUp(s: Screen, rest: string)
    requires s.grid.Valid()
    ensures Painted(s, [ESC, '[', 'A'] + rest) == Painted(s.(cy := Max(0, s.cy - 1)), rest)
  {
    hide Painted, Controlled;
    ByOne(s);
    Bare(s, 'A', rest);
  }

  lemma OneDown(s: Screen, rest: string)
    requires s.grid.Valid()
    ensures Painted(s, [ESC, '[', 'B'] + rest) == Painted(s.(cy := Min(|s.grid.rows| - 1, s.cy + 1)), rest)
  {
    hide Painted, Controlled;
    ByOne(s);
    Bare(s, 'B', rest);
  }

  lemma OneRight(s: Screen, rest: string)
    requires s.grid.Valid()
    ensures Painted(s, [ESC, '[', 'C'] + rest) == Painted(s.(cx := Min(s.grid.cols - 1, s.cx + 1)), rest)
  {
    hide Painted, Controlled;
    ByOne(s);
    Bare(s, 'C', rest);
  }

  lemma OneLeft(s: Screen, rest: string)
    requires s.grid.Valid()
    ensures Painted(s, [ESC, '[', 'D'] + rest) == Painted(s.(cx := Max(0, s.cx - 1)), rest)
  {
    hide Painted, Controlled;
    ByOne(s);
    Bare(s, 'D', rest);
  }

  lemma SaveCursor(s: Screen, rest: string)
    requires s.grid.Valid()
    ensures Painted(s, [ESC, '[', 's'] + rest) == Painted(s.(savedX := s.cx, savedY := s.cy), rest)
  {
    hide Painted;
    Bare(s, 's', rest);
  }

  lemma RestoreCursor(s: Screen, rest: string)
    requires s.grid.Valid()
    ensures Painted(s, [ESC, '[', 'u'] + rest) == Painted(s.(cx := s.savedX, cy := s.savedY), rest)
  {
    hide Painted;
    Bare(s, 'u', rest);
  }

  /** Saved, moved anywhere, restored: the cursor is where it was. */
  lemma ThereAndBack(s: Screen, r: Num, c: Num, rest: string)
    requires s.grid.Valid()
    ensures Painted(s, [ESC, '[', 's'] + ([ESC, '['] + (Decimal(r) + ";" + Decimal(c)) + "H" + ([ESC, '[', 'u'] + rest)))
         == Painted(s.(savedX := s.cx, savedY := s.cy), rest)
  {
    hide Painted, Decimal;
    var back := [ESC, '[', 'u'] + rest;
    var saved := s.(savedX := s.cx, savedY := s.cy);
    SaveCursor(s, [ESC, '['] + (Decimal(r) + ";" + Decimal(c)) + "H" + back);
    CursorTo(saved, r, c, back);
    RestoreCursor(saved.(cy := OrOne(r) - 1, cx := OrOne(c) - 1), rest);
  }

  // ---------------------------------------------------------------- erasing

  /** `J` after the cursor (0 or no number), up to and with it (1), or everywhere (2): these cells become blanks of
      the current colours, and no other cell changes. */
  lemma EraseInDisplay(s: Screen, mode: Num, rest: string) returns (g: Grid)
    requires s.grid.Valid()
    ensures g.Valid() && g.cols == s.grid.cols && |g.rows| == |s.grid.rows|
    ensures Painted(s, [ESC, '['] + Decimal(mode) + "J" + rest) == Painted(s.(grid := g), rest)
    ensures mode == 0 ==> Painted(s, [ESC, '[', 'J'] + rest) == Painted(s.(grid := g), rest)
    ensures forall x, y :: g.Get(x, y) ==
                           if s.grid.InBounds(x, y)
                              && ((mode == 0 && (y > s.cy || (y == s.cy && x >= s.cx)))
                                  || (mode == 1 && (y < s.cy || (y == s.cy && x <= s.cx))) || mode == 2)
                           then Cell(' ', s.attr.fg, s.attr.bg) else s.grid.Get(x, y)
  {
    hide Painted, Decimal;
    OneNumber(mode);
    Sequence(s, Decimal(mode), 'J', rest);
    Bare(s, 'J', rest);
    g := Erased(s.grid, false, mode, s.cx, s.cy, Cell(' ', s.attr.fg, s.attr.bg));
  }

  /** `K` does the same within the line of the cursor. */
  lemma EraseInLine(s: Screen, mode: Num, rest: string) returns (g: Grid)
    requires s.grid.Valid()
    ensures g.Valid() && g.cols == s.grid.cols && |g.rows| == |s.grid.rows|
    ensures Painted(s, [ESC, '['] + Decimal(mode) + "K" + rest) == Painted(s.(grid := g), rest)
    ensures mode == 0 ==> Painted(s, [ESC, '[', 'K'] + rest) == Painted(s.(grid := g), rest)
    ensures forall x, y :: g.Get(x, y) ==
                           if s.grid.InBounds(x, y) && y == s.cy
                              && ((mode == 0 && x >= s.cx) || (mode == 1 && x <= s.cx) || mode == 2)
                           then Cell(' ', s.attr.fg, s.attr.bg) else s.grid.Get(x, y)
  {
    hide Painted, Decimal;
    OneNumber(mode);
    Sequence(s, Decimal(mode), 'K', rest);
    Bare(s, 'K', rest);
    g := Erased(s.grid, true, mode, s.cx, s.cy, Cell(' ', s.attr.fg, s.attr.bg));
  }

  // ---------------------------------------------------------------- colours

  /** A sequence of colour codes changes the colours alone. */
  lemma Coloured(s: Screen, q: string, rest: string)
    requires s.grid.Valid() && NoLetters(q)
    ensures Painted(s, [ESC, '['] + q + "m" + rest) == Painted(s.(attr := Applied(s.attr, Params(q))), rest)
  {
    hide Painted, Params, NoLetters;
    Sequence(s, q, 'm', rest);
  }

  lemma OneCode(s: Screen, p: Num, rest: string)
    requires s.grid.Valid()
    ensures Painted(s, [ESC, '['] + Decimal(p) + "m" + rest) == Painted(s.(attr := SgrStep(s.attr, [p])), rest)
  {
    hide Painted, Params, Decimal, NoLetters, SgrStep;
    OneNumber(p);
    Coloured(s, Decimal(p), rest);
    assert [p][1..] == [];
    assert SgrFrom(SgrStep(s.attr, [p]), []) == SgrStep(s.attr, [p]);
  }

  /** 0 resets; 1 is bold and brightens a dark foreground; 22 undoes both. */
  lemma Weights(s: Screen, rest: string)
    requires s.grid.Valid()
    ensures Painted(s, [ESC, '['] + Decimal(0) + "m" + rest) == Painted(s.(attr := Attr(Classic(7), Classic(0), false)), rest)
    ensures Painted(s, [ESC, '['] + Decimal(1) + "m" + rest) == Painted(s.(attr := Attr(
      if s.attr.fg.Classic? && s.attr.fg.idx < 8 then Classic(s.attr.fg.idx + 8) else s.attr.fg, s.attr.bg, true)), rest)
    ensures Painted(s, [ESC, '['] + Decimal(22) + "m" + rest) == Painted(s.(attr := Attr(
      if s.attr.fg.Classic? && s.attr.fg.idx >= 8 then Classic(s.attr.fg.idx - 8) else s.attr.fg, s.attr.bg, false)), rest)
  {
    hide Painted, Decimal, SgrStep, Controlled, Params, NoLetters, Applied;
    StyleSteps(s.attr);
    OneCode(s, 0, rest);
    OneCode(s, 1, rest);
    OneCode(s, 22, rest);
  }

  /** 39 and 49 give the default foreground, bright when bold, and the default background. */
  lemma Defaults(s: Screen, rest: string)
    requires s.grid.Valid()
    ensures Painted(s, [ESC, '['] + Decimal(39) + "m" + rest) ==
      Painted(s.(attr := Attr(if s.attr.bold then Classic(15) else Classic(7), s.attr.bg, s.attr.bold)), rest)
    ensures Painted(s, [ESC, '['] + Decimal(49) + "m" + rest) ==
      Painted(s.(attr := Attr(s.attr.fg, Classic(0), s.attr.bold)), rest)
  {
    hide Painted, Decimal, SgrStep, Controlled, Params, NoLetters, Applied;
    StyleSteps(s.attr);
    OneCode(s, 39, rest);
    OneCode(s, 49, rest);
  }

  /** No code at all resets. */
  lemma NoCode(s: Screen, rest: string)
    requires s.grid.Valid()
    ensures Painted(s, [ESC, '[', 'm'] + rest) == Painted(s.(attr := Attr(Classic(7), Classic(0), false)), rest)
  {
    hide Painted, Applied;
    Bare(s, 'm', rest);
    AppliedNone(s.attr);
  }

  lemma AppliedNone(a: Attr)
    ensures Applied(a, []) == PLAIN
  {
    assert SgrStep(a, [0]) == PLAIN;
    assert [0][1..] == [];
    assert SgrFrom(PLAIN, []) == PLAIN;
  }

  lemma StyleSteps(a: Attr)
    ensures SgrStep(a, [0]) == Attr(Classic(7), Classic(0), false)
    ensures SgrStep(a, [1]) ==
      Attr(if a.fg.Classic? && a.fg.idx < 8 then Classic(a.fg.idx + 8) else a.fg, a.bg, true)
    ensures SgrStep(a, [22]) ==
      Attr(if a.fg.Classic? && a.fg.idx >= 8 then Classic(a.fg.idx - 8) else a.fg, a.bg, false)
    ensures SgrStep(a, [39]) == Attr(if a.bold then Classic(15) else Classic(7), a.bg, a.bold)
    ensures SgrStep(a, [49]) == Attr(a.fg, Classic(0), a.bold)
  {
  }

  /** The eight colours: 30 and on for the foreground, bright when bold, 40 and on for the background, 90 and on for
      the bright foreground, and 100 and on for the background again. */
  lemma Colours(s: Screen, k: nat, rest: string)
    requires s.grid.Valid() && k < 8
    ensures Painted(s, [ESC, '['] + Decimal(30 + k) + "m" + rest) ==
      Painted(s.(attr := Attr(Classic(if s.attr.bold then k + 8 else k), s.attr.bg, s.attr.bold)), rest)
    ensures Painted(s, [ESC, '['] + Decimal(40 + k) + "m" + rest) ==
      Painted(s.(attr := Attr(s.attr.fg, Classic(k), s.attr.bold)), rest)
    ensures Painted(s, [ESC, '['] + Decimal(90 + k) + "m" + rest) ==
      Painted(s.(attr := Attr(Classic(k + 8), s.attr.bg, s.attr.bold)), rest)
    ensures Painted(s, [ESC, '['] + Decimal(100 + k) + "m" + rest) ==
      Painted(s.(attr := Attr(s.attr.fg, Classic(k), s.attr.bold)), rest)
  {
    hide Painted, Decimal;
    OneCode(s, 30 + k, rest);
    OneCode(s, 40 + k, rest);
    OneCode(s, 90 + k, rest);
    OneCode(s, 100 + k, rest);
  }

  /** Any other single number changes nothing. */
  lemma OtherCodes(s: Screen, p: Num, rest: string)
    requires s.grid.Valid() && p !in {0, 1, 22, 39, 49} && !(30 <= p <= 37) && !(40 <= p <= 47) && !(90 <= p <= 107 && p != 98 && p != 99)
    ensures Painted(s, [ESC, '['] + Decimal(p) + "m" + rest) == Painted(s, rest)
  {
    hide Painted, Decimal;
    OneCode(s, p, rest);
    assert s.(attr := s.attr) == s;
  }

  /** 38;5;n and 48;5;n take a colour of the palette, cut to its 16 and 8 colours. */
  lemma Palette(s: Screen, n: Num, rest: string)
    requires s.grid.Valid()
    ensures Painted(s, [ESC, '['] + (Decimal(38) + ";" + Decimal(5) + ";" + Decimal(n)) + "m" + rest) ==
      Painted(s.(attr := Attr(Classic(n % 16), s.attr.bg, s.attr.bold)), rest)
    ensures Painted(s, [ESC, '['] + (Decimal(48) + ";" + Decimal(5) + ";" + Decimal(n)) + "m" + rest) ==
      Painted(s.(attr := Attr(s.attr.fg, Classic(n % 8), s.attr.bold)), rest)
  {
    hide Painted, Params, Decimal, NoLetters, Applied;
    ThreeNumbers(38, 5, n);
    ThreeNumbers(48, 5, n);
    PaletteCodes(s.attr, n);
    Coloured(s, Decimal(38) + ";" + Decimal(5) + ";" + Decimal(n), rest);
    Coloured(s, Decimal(48) + ";" + Decimal(5) + ";" + Decimal(n), rest);
  }

  lemma PaletteCodes(a: Attr, n: nat)
    ensures Applied(a, [38, 5, n]) == Attr(Classic(n % 16), a.bg, a.bold)
    ensures Applied(a, [48, 5, n]) == Attr(a.fg, Classic(n % 8), a.bold)
  {
    var fore: seq<int>, back: seq<int> := [38, 5, n], [48, 5, n];
    assert fore[3..] == [] && back[3..] == [];
    assert SgrFrom(a, fore) == SgrFrom(SgrStep(a, fore), fore[3..]);
    assert SgrFrom(a, back) == SgrFrom(SgrStep(a, back), back[3..]);
  }

  /** 38;2;r;g;b and 48;2;r;g;b take a colour of 24 bits. */
  lemma TrueColours(s: Screen, r: Num, g: Num, b: Num, rest: string)
    requires s.grid.Valid()
    ensures Painted(s, [ESC, '['] + (Decimal(38) + ";" + Decimal(2) + ";" + Decimal(r) + ";" + Decimal(g) + ";" + Decimal(b)) + "m" + rest)
         == Painted(s.(attr := Attr(Truecolor(r % 256, g % 256, b % 256), s.attr.bg, s.attr.bold)), rest)
    ensures Painted(s, [ESC, '['] + (Decimal(48) + ";" + Decimal(2) + ";" + Decimal(r) + ";" + Decimal(g) + ";" + Decimal(b)) + "m" + rest)
         == Painted(s.(attr := Attr(s.attr.fg, Truecolor(r % 256, g % 256, b % 256), s.attr.bold)), rest)
  {
    hide Painted, Params, Decimal, NoLetters, Applied;
    FiveNumbers(38, 2, r, g, b);
    FiveNumbers(48, 2, r, g, b);
    TrueCodes(s.attr, r, g, b);
    Coloured(s, Decimal(38) + ";" + Decimal(2) + ";" + Decimal(r) + ";" + Decimal(g) + ";" + Decimal(b), rest);
    Coloured(s, Decimal(48) + ";" + Decimal(2) + ";" + Decimal(r) + ";" + Decimal(g) + ";" + Decimal(b), rest);
  }

  lemma TrueCodes(a: Attr, r: nat, g: nat, b: nat)
    ensures Applied(a, [38, 2, r, g, b]) == Attr(Truecolor(r % 256, g % 256, b % 256), a.bg, a.bold)
    ensures Applied(a, [48, 2, r, g, b]) == Attr(a.fg, Truecolor(r % 256, g % 256, b % 256), a.bold)
  {
    var fore: seq<int>, back: seq<int> := [38, 2, r, g, b], [48, 2, r, g, b];
    assert fore[5..] == [] && back[5..] == [];
    assert SgrFrom(a, fore) == SgrFrom(SgrStep(a, fore), fore[5..]);
    assert SgrFrom(a, back) == SgrFrom(SgrStep(a, back), back[5..]);
  }

  /** Several codes in one sequence act like one sequence after another. */
  lemma CodesInOrder(s: Screen, p: Num, ns: seq<Num>, rest: string)
    requires s.grid.Valid() && p != 38 && p != 48 && ns != []
    ensures Painted(s, [ESC, '['] + (Decimal(p) + ";" + Join(Numerals(ns), ';')) + "m" + rest)
         == Painted(s, [ESC, '['] + Decimal(p) + "m" + ([ESC, '['] + Join(Numerals(ns), ';') + "m" + rest))
  {
    hide Painted, Params, Decimal, NoLetters, SgrStep, Join;
    var q := Join(Numerals(ns), ';');
    ParamsOf(ns);
    ParamsOf([p] + ns);
    JoinCons(p, ns);
    Coloured(s, Decimal(p) + ";" + q, rest);
    OneCode(s, p, [ESC, '['] + q + "m" + rest);
    Coloured(s.(attr := SgrStep(s.attr, [p])), q, rest);
    SameFirst(s.attr, p, ns);
    assert ([p] + ns)[1..] == ns;
  }

  lemma JoinCons(p: Num, ns: seq<Num>)
    requires ns != []
    ensures Join(Numerals([p] + ns), ';') == Decimal(p) + ";" + Join(Numerals(ns), ';')
  {
    hide Decimal;
    var parts := Numerals([p] + ns);
    assert parts[1..] == Numerals(ns);
  }

  lemma SameFirst(a: Attr, p: Num, ns: seq<Num>)
    requires p != 38 && p != 48
    ensures SgrStep(a, [p] + ns) == SgrStep(a, [p]) && SgrSpan([p] + ns) == 1
  {
  }

  // ---------------------------------------------------------------- tabs

  /** A tab inside a row draws blanks up to the next column that 8 divides, or up to the margin, where the cursor
      wraps; at such a column it does nothing. */
  lemma TabStops(s: Screen, rest: string) returns (r: Screen)
    requires s.grid.Valid() && s.cx < s.grid.cols
    ensures r.grid.Valid() && Painted(s, "\t" + rest) == Painted(r, rest)
    ensures var to := Min((s.cx + 7) / 8 * 8, s.grid.cols);
      && (r.cx, r.cy) == (if s.cx % 8 != 0 && to == s.grid.cols then (0, s.cy + 1) else (to, s.cy))
      && r.attr == s.attr && r.savedX == s.savedX && r.savedY == s.savedY
      && forall x, y :: r.grid.Get(x, y) ==
           if y == s.cy && s.cx <= x < to && s.grid.InBounds(x, y) then Cell(' ', s.attr.fg, s.attr.bg) else s.grid.Get(x, y)
  {
    hide Painted, Tabbed;
    PaintChar(s, '\t', rest);
    OneTab(s);
    r := Tabbed(s);
    TabCursor(s);
    forall x, y ensures r.grid.Get(x, y) ==
      if y == s.cy && s.cx <= x < Min((s.cx + 7) / 8 * 8, s.grid.cols) && s.grid.InBounds(x, y)
      then Cell(' ', s.attr.fg, s.attr.bg) else s.grid.Get(x, y)
    {
      TabCell(s, x, y);
    }
  }

  lemma OneTab(s: Screen)
    requires s.grid.Valid()
    ensures PaintOne(s, ['\t']) == Tabbed(s)
  {
  }

  lemma {:induction false} TabCursor(s: Screen)
    requires s.grid.Valid() && s.cx < s.grid.cols
    ensures var r := Tabbed(s); var to := Min((s.cx + 7) / 8 * 8, s.grid.cols);
      && (r.cx, r.cy) == (if s.cx % 8 != 0 && to == s.grid.cols then (0, s.cy + 1) else (to, s.cy))
      && r.attr == s.attr && r.savedX == s.savedX && r.savedY == s.savedY
    decreases TabGap(s.cx)
  {
    if s.cx % 8 != 0 {
      TabShrinks(s.cx);
      NextStop(s.cx);
      var next := s.Put(' ');
      if s.cx + 1 < s.grid.cols {
        TabCursor(next);
      } else {
        assert Tabbed(next) == next;
      }
    }
  }

  lemma {:induction false} TabCell(s: Screen, x: int, y: int)
    requires s.grid.Valid() && s.cx < s.grid.cols
    ensures Tabbed(s).grid.Get(x, y) ==
      if y == s.cy && s.cx <= x < Min((s.cx + 7) / 8 * 8, s.grid.cols) && s.grid.InBounds(x, y)
      then Cell(' ', s.attr.fg, s.attr.bg) else s.grid.Get(x, y)
    decreases TabGap(s.cx)
  {
    if s.cx % 8 != 0 {
      TabShrinks(s.cx);
      NextStop(s.cx);
      var next := s.Put(' ');
      if s.cx + 1 < s.grid.cols {
        TabCell(next, x, y);
      } else {
        assert Tabbed(next) == next;
      }
    }
  }

  lemma NextStop(x: nat)
    requires x % 8 != 0
    ensures (x + 7) / 8 * 8 == (x + 8) / 8 * 8 && (x + 7) / 8 * 8 > x
  {
  }

  // ---------------------------------------------------------------- the sizing pass

  /** The sizing pass moves its cursor the same way, but only the left and upper edge limit it, and notes where it
      lands. */
  lemma SizedTo(e: Extent, r: Num, c: Num, rest: string)
    ensures var m := e.(cy := OrOne(r) - 1, cx := OrOne(c) - 1,
                        maxX := Max(e.maxX, OrOne(c) - 1), maxY := Max(e.maxY, OrOne(r) - 1));
      && Measured(e, [ESC, '['] + (Decimal(r) + ";" + Decimal(c)) + "H" + rest) == Measured(m, rest)
      && Measured(e, [ESC, '['] + (Decimal(r) + ";" + Decimal(c)) + "f" + rest) == Measured(m, rest)
  {
    hide Measured, Params, Decimal, NoLetters;
    TwoNumbers(r, c);
    MeasuredSequence(e, Decimal(r) + ";" + Decimal(c), 'H', rest);
    MeasuredSequence(e, Decimal(r) + ";" + Decimal(c), 'f', rest);
  }

  lemma SizedUp(e: Extent, n: Num, rest: string)
    ensures Measured(e, [ESC, '['] + Decimal(n) + "A" + rest) == Measured(e.(cy := Max(0, e.cy - OrOne(n))).Note(e.cx, Max(0, e.cy - OrOne(n))), rest)
  {
    hide Measured, Params, Decimal, NoLetters;
    OneNumber(n);
    MeasuredSequence(e, Decimal(n), 'A', rest);
  }

  lemma SizedDown(e: Extent, n: Num, rest: string)
    ensures Measured(e, [ESC, '['] + Decimal(n) + "B" + rest) == Measured(e.(cy := e.cy + OrOne(n)).Note(e.cx, e.cy + OrOne(n)), rest)
  {
    hide Measured, Params, Decimal, NoLetters;
    OneNumber(n);
    MeasuredSequence(e, Decimal(n), 'B', rest);
  }

  lemma SizedRight(e: Extent, n: Num, rest: string)
    ensures Measured(e, [ESC, '['] + Decimal(n) + "C" + rest) == Measured(e.(cx := e.cx + OrOne(n)).Note(e.cx + OrOne(n), e.cy), rest)
  {
    hide Measured, Params, Decimal, NoLetters;
    OneNumber(n);
    MeasuredSequence(e, Decimal(n), 'C', rest);
  }

  lemma SizedLeft(e: Extent, n: Num, rest: string)
    ensures Measured(e, [ESC, '['] + Decimal(n) + "D" + rest) == Measured(e.(cx := Max(0, e.cx - OrOne(n))).Note(Max(0, e.cx - OrOne(n)), e.cy), rest)
  {
    hide Measured, Params, Decimal, NoLetters;
    OneNumber(n);
    MeasuredSequence(e, Decimal(n), 'D', rest);
  }

  lemma SizedSave(e: Extent, rest: string)
    ensures Measured(e, [ESC, '[', 's'] + rest) == Measured(e.(savedX := e.cx, savedY := e.cy).Note(e.cx, e.cy), rest)
  {
    hide Measured, Params, Decimal, NoLetters;
    NoNumber();
    BareText('s', rest);
    MeasuredSequence(e, "", 's', rest);
  }

  lemma SizedRestore(e: Extent, rest: string)
    ensures Measured(e, [ESC, '[', 'u'] + rest) == Measured(e.(cx := e.savedX, cy := e.savedY).Note(e.savedX, e.savedY), rest)
  {
    hide Measured, Params, Decimal, NoLetters;
    NoNumber();
    BareText('u', rest);
    MeasuredSequence(e, "", 'u', rest);
  }

  /** A tab goes on to the next column that 8 divides, even from one. */
  lemma SizedTab(e: Extent, rest: string)
    ensures var x := (e.cx / 8 + 1) * 8;
      Measured(e, "\t" + rest) == Measured(e.(cx := x).Note(x - 1, e.cy), rest)
  {
    hide Measured, MeasureOne;
    MeasureChar(e, '\t', rest);
    OneSizedTab(e);
  }

  lemma OneSizedTab(e: Extent)
    ensures var x := (e.cx / 8 + 1) * 8; MeasureOne(e, ['\t']) == e.(cx := x).Note(x - 1, e.cy)
  {
    assert (e.cx + 8) / 8 == e.cx / 8 + 1;
  }

  // ---------------------------------------------------------------- a whole text

  /** A glyph placed by a sequence is the only one on the loaded canvas, at its row and column, and the canvas is
      large enough for it as far as the limits go. */
  lemma PlacedGlyph(r: Num, c: Num, ch: char, cols: int, rows: int)
    requires r >= 1 && c >= 1 && ch >= ' '
    ensures var p := Parsed([ESC, '['] + (Decimal(r) + ";" + Decimal(c)) + "H" + [ch], cols, rows);
      && p.cols == Min(MAX_COLS, Max(Size(cols, DEF_COLS), c)) && |p.rows| == Min(MAX_ROWS, Max(Size(rows, DEF_ROWS), r))
      && forall x, y :: p.Get(x, y) ==
           if x == c - 1 && y == r - 1 && p.InBounds(x, y) then Cell(ch, Classic(7), Classic(0)) else BLANK
  {
    hide Expanded, Measured, Painted, Decimal, PaintOne, MeasureOne;
    var q := Decimal(r) + ";" + Decimal(c);
    var text := [ESC, '['] + q + "H" + [ch];
    var runes := [ESC] + text;
    PlacedText(r, c, ch);
    var first := Extent(0, 0, Size(cols, DEF_COLS) - 1, Size(rows, DEF_ROWS) - 1, 0, 0);
    LoneEsc(text);
    MeasureLoneEsc(first, runes);
    MeasureStep(first, runes);
    assert runes[1..] == text;
    SizedTo(first, r, c, [ch]);
    var e1 := first.(cy := r - 1, cx := c - 1, maxX := Max(first.maxX, c - 1), maxY := Max(first.maxY, r - 1));
    MeasureChar(e1, ch, "");
    assert [ch] + "" == [ch];
    MeasureGlyph(e1, ch);
    MeasureNothing(MeasureOne(e1, [ch]));
    var e := Extents(runes, cols, rows);
    assert e == MeasureOne(e1, [ch]);
    var s := Start(e);
    PaintLoneEsc(s, text);
    CursorTo(s, r, c, [ch]);
    var s1 := s.(cy := r - 1, cx := c - 1);
    PaintChar(s1, ch, "");
    PaintGlyph(s1, ch);
    PaintNothing(s1.Put(ch));
    assert Parsed(text, cols, rows) == s1.Put(ch).grid by { ParsedIs(text, cols, rows); }
  }

  lemma ParsedIs(text: string, cols: int, rows: int)
    ensures var e := Extents(Expanded(text), cols, rows);
      e.maxX >= 0 && e.maxY >= 0 && Parsed(text, cols, rows) == Painted(Start(e), Expanded(text)).grid
  {
    hide Expanded, Measured, Painted;
    MeasuredGrows(Extent(0, 0, Size(cols, DEF_COLS) - 1, Size(rows, DEF_ROWS) - 1, 0, 0), Expanded(text));
  }

  lemma LoneEsc(text: string)
    requires text != [] && text[0] == ESC
    ensures CsiFinal([ESC] + text) == 0
  {
  }

  lemma PaintLoneEsc(s: Screen, text: string)
    requires s.grid.Valid() && text != [] && text[0] == ESC
    ensures Painted(s, [ESC] + text) == Painted(s, text)
  {
    hide PaintOne, CsiFinal;
    LoneEsc(text);
    var t := [ESC] + text;
    assert t[1..] == text;
    SkipEsc(s, t);
  }

  lemma SkipEsc(s: Screen, t: string)
    requires s.grid.Valid() && t != [] && t[0] == ESC && CsiFinal(t) == 0
    ensures PaintOne(s, t) == s && Item(t) == 1 && !AtEnd(t)
  {
    hide CsiFinal;
  }

  /** The pre-pass puts an ESC in front of the bracket, which both passes ignore. */
  lemma PlacedText(r: Num, c: Num, ch: char)
    requires ch >= ' '
    ensures var q := Decimal(r) + ";" + Decimal(c);
      Expanded([ESC, '['] + q + "H" + [ch]) == [ESC] + ([ESC, '['] + q + "H" + [ch])
  {
    hide Expanded, Decimal, Value;
    var q := Decimal(r) + ";" + Decimal(c);
    DecimalIsInverse(r);
    DecimalIsInverse(c);
    RunOfTwo(Decimal(r), Decimal(c));
    var t := q + (['H'] + [ch]);
    RunLengthOf(q, ['H'] + [ch]);
    ExpandPlain(ESC, ['['] + t);
    assert [ESC] + (['['] + t) == [ESC, '['] + q + "H" + [ch];
    ExpandRunOf(q, 'H', [ch]);
    ExpandPlain(ch, "");
    ExpandNothing();
    assert [ch] + "" == [ch];
    assert [ESC] + ([ESC] + (['['] + q + ['H']) + [ch]) == [ESC] + ([ESC, '['] + q + "H" + [ch]);
  }

  lemma RunOfTwo(a: string, b: string)
    requires AllDigits(a) && AllDigits(b) && a != ""
    ensures var q := a + ";" + b; q != [] && IsDigit(q[0]) && forall i :: 0 <= i < |q| ==> InRun(q[i])
  {
  }

  lemma ExpandRunOf(q: string, final: char, rest: string)
    requires q != [] && IsDigit(q[0]) && (forall i :: 0 <= i < |q| ==> InRun(q[i])) && IsLetter(final)
    ensures Expanded(['['] + (q + ([final] + rest))) == [ESC] + (['['] + q + [final]) + Expanded(rest)
  {
    hide RunLength;
    var t := q + ([final] + rest);
    var s := ['['] + t;
    RunLengthOf(q, [final] + rest);
    assert s[1..] == t && t[|q|] == final && ExpandsBefore(t);
    assert s[..|q| + 2] == ['['] + q + [final] && s[|q| + 2..] == rest;
  }
}
