/** AnsiEdit/parse.go and the pre-pass of AnsiEdit/cp437.go: text drawn on a fresh canvas. */
module AnsiParser {
  import opened Text
  import opened CanvasModel

  const EOF_MARK: char := '\U{1a}'

  // ---------------------------------------------------------------- PCBoard escapes

  predicate InRun(c: char) {
    '0' <= c <= '?'
  }

  /** How many leading characters are digits or one of  : ; < = > ?  */
  function RunLength(t: string): (n: nat)
    ensures n <= |t|
    ensures forall i :: 0 <= i < n ==> InRun(t[i])
    ensures n < |t| ==> !InRun(t[n])
  {
    if t != [] && InRun(t[0]) then 1 + RunLength(t[1..]) else 0
  }

  /** Whether the text after a '[' makes expandPCBAnsi put an ESC in front of that '['. */
  predicate ExpandsBefore(t: string) {
    t != [] && IsDigit(t[0]) && RunLength(t) < |t| && IsLetter(t[RunLength(t)])
  }

  /** What expandPCBAnsi makes of a text. */
  function Expanded(s: string): string
    decreases |s|
  {
    if s == [] then []
    else if s[0] == '[' && ExpandsBefore(s[1..]) then
      var n := RunLength(s[1..]) + 2;
      [ESC] + s[..n] + Expanded(s[n..])
    else [s[0]] + Expanded(s[1..])
  }

  lemma {:induction false} NothingToExpand(s: string)
    requires forall i :: 0 <= i < |s| - 1 && s[i] == '[' ==> !IsDigit(s[i + 1])
    ensures Expanded(s) == s
    decreases |s|
  {
    if s != [] {
      forall i | 0 <= i < |s[1..]| - 1 && s[1..][i] == '[' ensures !IsDigit(s[1..][i + 1]) {
        assert s[i + 1] == '[' && s[1..][i + 1] == s[i + 2];
      }
      NothingToExpand(s[1..]);
      assert s == [s[0]] + s[1..];
    }
  }

  /** The first loop of expandPCBAnsi: is there a '[' in front of a digit at all? */
  method NeedsExpansion(s: string) returns (needs: bool)
    ensures !needs ==> forall i :: 0 <= i < |s| - 1 && s[i] == '[' ==> !IsDigit(s[i + 1])
  {
    for i := 0 to |s|
      invariant forall k :: 0 <= k < i && k < |s| - 1 && s[k] == '[' ==> !IsDigit(s[k + 1])
    {
      if s[i] == '[' && i + 1 < |s| && IsDigit(s[i + 1]) {
        return true;
      }
    }
    return false;
  }

  /** The inner scan of expandPCBAnsi. */
  method RunEnd(s: string, i: nat) returns (j: nat)
    requires i <= |s|
    ensures j == i + RunLength(s[i..])
  {
    j := i;
    while j < |s| && InRun(s[j])
      invariant i <= j <= |s|
      invariant i + RunLength(s[i..]) == j + RunLength(s[j..])
    {
      assert s[j..][1..] == s[j + 1..];
      j := j + 1;
    }
  }

  /** One turn of the expanding loop. */
  lemma ExpandTurn(out: string, s: string, i: nat, j: nat)
    requires i < |s|
    requires j == i + 1 + RunLength(s[i + 1..])
    ensures if s[i] == '[' && i + 1 < |s| && IsDigit(s[i + 1]) && j < |s| && IsLetter(s[j])
      then out + Expanded(s[i..]) == out + ([ESC, '['] + s[i + 1..j + 1]) + Expanded(s[j + 1..])
      else out + Expanded(s[i..]) == out + [s[i]] + Expanded(s[i + 1..])
  {
    hide RunLength;
    var t := s[i..];
    assert t[1..] == s[i + 1..];
    if t[0] == '[' && ExpandsBefore(t[1..]) {
      var n := RunLength(t[1..]) + 2;
      assert t[n..] == s[j + 1..];
      assert [ESC] + t[..n] == [ESC, '['] + s[i + 1..j + 1] by {
        assert t[..n] == ['['] + s[i + 1..j + 1];
      }
      Assoc(out, [ESC] + t[..n], Expanded(t[n..]));
    } else {
      Assoc(out, [s[i]], Expanded(t[1..]));
    }
  }

  lemma ExpandedNothing()
    ensures Expanded("") == ""
  {
  }

  method ExpandPCBAnsi(s: string) returns (out: string)
    ensures out == Expanded(s)
  {
    hide Expanded, RunLength;
    var needs := NeedsExpansion(s);
    if !needs {
      NothingToExpand(s);
      return s;
    }
    out := "";
    var i := 0;
    assert s[0..] == s && out + Expanded(s) == Expanded(s);
    while i < |s|
      invariant 0 <= i <= |s|
      invariant out + Expanded(s[i..]) == Expanded(s)
    {
      var j := RunEnd(s, i + 1);
      ExpandTurn(out, s, i, j);
      if s[i] == '[' && i + 1 < |s| && IsDigit(s[i + 1]) && j < |s| && IsLetter(s[j]) {
        out := out + ([ESC, '['] + s[i + 1..j + 1]);
        i := j + 1;
      } else {
        out := out + [s[i]];
        i := i + 1;
      }
    }
    ExpandedNothing();
    assert s[i..] == [] && out + [] == out;
  }

  // ---------------------------------------------------------------- parameters and colours

  function ParamValue(p: string): int {
    match Atoi(p)
    case Some(n) => n
    case None => 0
  }

  function Params(s: string): seq<int> {
    if s == "" then []
    else
      var parts := Split(s, ';');
      seq(|parts|, i requires 0 <= i < |parts| => ParamValue(parts[i]))
  }

  method ParseParams(s: string) returns (out: seq<int>)
    ensures out == Params(s)
  {
    if s == "" {
      return [];
    }
    var parts := Split(s, ';');
    out := [];
    for i := 0 to |parts|
      invariant |out| == i && forall k :: 0 <= k < i ==> out[k] == ParamValue(parts[k])
    {
      if parts[i] == "" {
        out := out + [0];
      } else {
        match Atoi(parts[i]) {
          case None => out := out + [0];
          case Some(n) => out := out + [n];
        }
      }
    }
  }

  datatype Attr = Attr(fg: Color, bg: Color, bold: bool)

  const PLAIN: Attr := Attr(Classic(7), Classic(0), false)

  function ClassicFG(idx: int): Color {
    Classic(idx % 16)
  }

  function ClassicBG(idx: int): Color {
    Classic(idx % 8)
  }

  /** `rgbColor(uint8(r), uint8(g), uint8(b))`. */
  function Rgb(r: int, g: int, b: int): Color {
    Truecolor(r % 256, g % 256, b % 256)
  }

  /** How many parameters the first one consumes. */
  function SgrSpan(ps: seq<int>): (n: nat)
    requires ps != []
    ensures 1 <= n <= |ps|
  {
    if (ps[0] == 38 || ps[0] == 48) && |ps| > 1 then
      if ps[1] == 2 && |ps| > 4 then 5 else if ps[1] == 5 && |ps| > 2 then 3 else 1
    else 1
  }

  function SgrStep(a: Attr, ps: seq<int>): Attr
    requires ps != []
  {
    var p := ps[0];
    if p == 0 then PLAIN
    else if p == 1 then a.(bold := true, fg := if a.fg.Classic? && a.fg.idx < 8 then Classic(a.fg.idx + 8) else a.fg)
    else if p == 22 then a.(bold := false, fg := if a.fg.Classic? && a.fg.idx >= 8 then Classic(a.fg.idx - 8) else a.fg)
    else if p == 39 then a.(fg := if a.bold then Classic(15) else Classic(7))
    else if p == 49 then a.(bg := Classic(0))
    else if 30 <= p <= 37 then a.(fg := ClassicFG(p - 30 + if a.bold then 8 else 0))
    else if 40 <= p <= 47 then a.(bg := ClassicBG(p - 40))
    else if 90 <= p <= 97 then a.(fg := ClassicFG(p - 90 + 8))
    else if 100 <= p <= 107 then a.(bg := ClassicBG(p - 100))
    else if p == 38 && SgrSpan(ps) == 5 then a.(fg := Rgb(ps[2], ps[3], ps[4]))
    else if p == 38 && SgrSpan(ps) == 3 then a.(fg := ClassicFG(ps[2]))
    else if p == 48 && SgrSpan(ps) == 5 then a.(bg := Rgb(ps[2], ps[3], ps[4]))
    else if p == 48 && SgrSpan(ps) == 3 then a.(bg := ClassicBG(ps[2]))
    else a
  }

  function SgrFrom(a: Attr, ps: seq<int>): Attr
    decreases |ps|
  {
    if ps == [] then a else SgrFrom(SgrStep(a, ps), ps[SgrSpan(ps)..])
  }

  /** The effect of one `m` sequence; no parameters mean a reset. */
  function Applied(a: Attr, ps: seq<int>): Attr {
    SgrFrom(a, if ps == [] then [0] else ps)
  }

  /** One turn of the closure applySGR. */
  method SgrTurn(a: Attr, params: seq<int>, i: nat) returns (r: Attr, used: nat)
    requires i < |params|
    ensures r == SgrStep(a, params[i..]) && used == SgrSpan(params[i..])
  {
    var p := params[i];
    r, used := a, 1;
    if p == 0 {
      r := PLAIN;
    } else if p == 1 {
      r := r.(bold := true);
      if !r.fg.Truecolor? && r.fg.idx < 8 {
        r := r.(fg := Classic(r.fg.idx + 8));
      }
    } else if p == 22 {
      r := r.(bold := false);
      if !r.fg.Truecolor? && r.fg.idx >= 8 {
        r := r.(fg := Classic(r.fg.idx - 8));
      }
    } else if p == 39 {
      r := r.(fg := ClassicFG(7));
      if r.bold {
        r := r.(fg := Classic(15));
      }
    } else if p == 49 {
      r := r.(bg := ClassicBG(0));
    } else if 30 <= p <= 37 {
      var idx := p - 30;
      if r.bold {
        idx := idx + 8;
      }
      r := r.(fg := ClassicFG(idx));
    } else if 40 <= p <= 47 {
      r := r.(bg := ClassicBG(p - 40));
    } else if 90 <= p <= 97 {
      r := r.(fg := ClassicFG(p - 90 + 8));
    } else if 100 <= p <= 107 {
      r := r.(bg := ClassicBG(p - 100));
    } else if p == 38 && i + 1 < |params| {
      if params[i + 1] == 2 && i + 4 < |params| {
        r := r.(fg := Rgb(params[i + 2], params[i + 3], params[i + 4]));
        used := 5;
      } else if params[i + 1] == 5 && i + 2 < |params| {
        r := r.(fg := ClassicFG(params[i + 2]));
        used := 3;
      }
    } else if p == 48 && i + 1 < |params| {
      if params[i + 1] == 2 && i + 4 < |params| {
        r := r.(bg := Rgb(params[i + 2], params[i + 3], params[i + 4]));
        used := 5;
      } else if params[i + 1] == 5 && i + 2 < |params| {
        r := r.(bg := ClassicBG(params[i + 2]));
        used := 3;
      }
    }
  }

  method ApplySGR(a: Attr, given: seq<int>) returns (r: Attr)
    ensures r == Applied(a, given)
  {
    var params := given;
    if |params| == 0 {
      params := [0];
    }
    r := a;
    var i := 0;
    assert params[0..] == params;
    while i < |params|
      invariant 0 <= i <= |params|
      invariant SgrFrom(r, params[i..]) == SgrFrom(a, params)
    {
      var next, used := SgrTurn(r, params, i);
      assert params[i..][used..] == params[i + used..];
      r, i := next, i + used;
    }
  }

  // ---------------------------------------------------------------- control sequences

  function NonLetters(t: string): (n: nat)
    ensures n <= |t|
    ensures forall i :: 0 <= i < n ==> !IsLetter(t[i])
    ensures n < |t| ==> IsLetter(t[n])
  {
    if t == [] || IsLetter(t[0]) then 0 else 1 + NonLetters(t[1..])
  }

  /** The position of the final letter of the control sequence that starts t, if there is one. */
  function CsiFinal(t: string): (j: nat)
    ensures j != 0 ==> 2 <= j < |t|
  {
    if |t| >= 2 && t[0] == ESC && t[1] == '[' && 2 + NonLetters(t[2..]) < |t| then 2 + NonLetters(t[2..]) else 0
  }

  /** The scan for the final letter, from position i of the whole text. */
  method FindFinal(runes: string, i: nat) returns (j: nat)
    requires i < |runes|
    ensures j == CsiFinal(runes[i..])
  {
    ghost var t := runes[i..];
    if runes[i] != ESC || i + 1 >= |runes| || runes[i + 1] != '[' {
      return 0;
    }
    var k := i + 2;
    assert t[2..] == runes[i + 2..];
    while k < |runes| && !IsLetter(runes[k])
      invariant i + 2 <= k <= |runes|
      invariant NonLetters(t[2..]) == (k - i - 2) + NonLetters(runes[k..])
    {
      assert runes[k..][1..] == runes[k + 1..];
      k := k + 1;
    }
    if k < |runes| {
      return k - i;
    }
    return 0;
  }

  /** A movement count: the first parameter if positive, else 1. */
  function Count(params: seq<int>): nat {
    if |params| > 0 && params[0] > 0 then params[0] else 1
  }

  function ColumnArg(params: seq<int>): nat {
    if |params| > 1 && params[1] > 0 then params[1] else 1
  }

  function Mode(params: seq<int>): int {
    if |params| > 0 then params[0] else 0
  }

  // ---------------------------------------------------------------- first pass: size

  datatype Extent = Extent(cx: nat, cy: nat, maxX: int, maxY: int, savedX: nat, savedY: nat) {
    function Note(x: int, y: int): Extent {
      this.(maxX := Max(maxX, x), maxY := Max(maxY, y))
    }
  }

  function Moved(e: Extent, final: char, params: seq<int>): (r: Extent)
    ensures r.maxX == e.maxX && r.maxY == e.maxY
  {
    if final == 'H' || final == 'f' then e.(cy := Count(params) - 1, cx := ColumnArg(params) - 1)
    else if final == 'A' then e.(cy := Max(0, e.cy - Count(params)))
    else if final == 'B' then e.(cy := e.cy + Count(params))
    else if final == 'C' then e.(cx := e.cx + Count(params))
    else if final == 'D' then e.(cx := Max(0, e.cx - Count(params)))
    else if final == 's' then e.(savedX := e.cx, savedY := e.cy)
    else if final == 'u' then e.(cx := e.savedX, cy := e.savedY)
    else e
  }

  /** The characters one turn of either pass consumes. */
  function Item(t: string): (n: nat)
    requires t != []
    ensures 1 <= n <= |t|
  {
    if CsiFinal(t) != 0 then CsiFinal(t) + 1 else 1
  }

  /** Both passes end at the end of the text or at a Ctrl-Z. */
  predicate AtEnd(t: string) {
    t == [] || t[0] == EOF_MARK
  }

  /** One turn of the sizing pass. Colours do not matter to it. */
  function MeasureOne(e: Extent, t: string): (r: Extent)
    requires t != []
    ensures r.maxX >= e.maxX && r.maxY >= e.maxY
  {
    var j := CsiFinal(t);
    if j != 0 then
      var m := Moved(e, t[j], Params(t[2..j]));
      m.Note(m.cx, m.cy)
    else if t[0] == '\r' then e.(cx := 0)
    else if t[0] == '\n' then e.(cx := 0, cy := e.cy + 1, maxY := Max(e.maxY, e.cy + 1))
    else if t[0] == '\t' then
      var x := (e.cx + 8) / 8 * 8;
      e.(cx := x).Note(x - 1, e.cy)
    else if t[0] >= ' ' then e.(cx := e.cx + 1).Note(e.cx, e.cy)
    else e
  }

  function Measured(e: Extent, t: string): Extent
    decreases |t|
  {
    if AtEnd(t) then e else Measured(MeasureOne(e, t), t[Item(t)..])
  }

  // ---------------------------------------------------------------- second pass: paint

  datatype Screen = Screen(grid: Grid, cx: nat, cy: nat, savedX: nat, savedY: nat, attr: Attr) {
    /** The closure put. */
    function Put(ch: char): (s: Screen)
      requires grid.Valid()
      ensures s.grid.Valid() && s.grid.cols == grid.cols && |s.grid.rows| == |grid.rows|
    {
      var drawn := this.(grid := grid.Set(cx, cy, Cell(ch, attr.fg, attr.bg)));
      if cx + 1 >= grid.cols then drawn.(cx := 0, cy := cy + 1) else drawn.(cx := cx + 1)
    }
  }

  predicate InErasedDisplay(mode: int, cx: int, cy: int, x: int, y: int) {
    if mode == 0 then y > cy || (y == cy && x >= cx)
    else if mode == 1 then y < cy || (y == cy && x <= cx)
    else mode == 2
  }

  predicate InErasedLine(mode: int, cx: int, cy: int, x: int, y: int) {
    y == cy && (if mode == 0 then x >= cx else if mode == 1 then x <= cx else mode == 2)
  }

  function Erased(g: Grid, line: bool, mode: int, cx: int, cy: int, blank: Cell): (r: Grid)
    requires g.Valid()
    ensures r.Valid() && r.cols == g.cols && |r.rows| == |g.rows|
  {
    Grid(g.cols, seq(|g.rows|, y => seq(g.cols, x =>
      if (if line then InErasedLine(mode, cx, cy, x, y) else InErasedDisplay(mode, cx, cy, x, y)) then blank
      else g.Get(x, y))))
  }

  function Controlled(s: Screen, final: char, params: seq<int>): (r: Screen)
    requires s.grid.Valid()
    ensures r.grid.Valid()
  {
    if final == 'm' then s.(attr := Applied(s.attr, params))
    else if final == 'H' || final == 'f' then s.(cy := Count(params) - 1, cx := ColumnArg(params) - 1)
    else if final == 'A' then s.(cy := Max(0, s.cy - Count(params)))
    else if final == 'B' then s.(cy := Min(|s.grid.rows| - 1, s.cy + Count(params)))
    else if final == 'C' then s.(cx := Min(s.grid.cols - 1, s.cx + Count(params)))
    else if final == 'D' then s.(cx := Max(0, s.cx - Count(params)))
    else if final == 's' then s.(savedX := s.cx, savedY := s.cy)
    else if final == 'u' then s.(cx := s.savedX, cy := s.savedY)
    else if final == 'J' || final == 'K' then
      s.(grid := Erased(s.grid, final == 'K', Mode(params), s.cx, s.cy, Cell(' ', s.attr.fg, s.attr.bg)))
    else s
  }

  /** The columns a tab at column x still has to fill. */
  function TabGap(x: nat): nat {
    (8 - x % 8) % 8
  }

  lemma TabShrinks(x: nat)
    requires x % 8 != 0
    ensures TabGap(x + 1) < TabGap(x) && TabGap(0) < TabGap(x)
  {
  }

  /** A tab pads with spaces up to a multiple of 8, and does nothing at one. */
  function Tabbed(s: Screen): (r: Screen)
    requires s.grid.Valid()
    ensures r.grid.Valid()
    decreases TabGap(s.cx)
  {
    if s.cx % 8 == 0 then s else
      TabShrinks(s.cx);
      Tabbed(s.Put(' '))
  }

  /** One turn of the painting pass. */
  function PaintOne(s: Screen, t: string): (r: Screen)
    requires s.grid.Valid() && t != []
    ensures r.grid.Valid()
  {
    var j := CsiFinal(t);
    if j != 0 then Controlled(s, t[j], Params(t[2..j]))
    else if t[0] == '\r' then s.(cx := 0)
    else if t[0] == '\n' then s.(cx := 0, cy := s.cy + 1)
    else if t[0] == '\t' then Tabbed(s)
    else if t[0] >= ' ' then s.Put(t[0])
    else s
  }

  function Painted(s: Screen, t: string): (r: Screen)
    requires s.grid.Valid()
    ensures r.grid.Valid()
    decreases |t|
  {
    if AtEnd(t) then s else Painted(PaintOne(s, t), t[Item(t)..])
  }

  // ---------------------------------------------------------------- the whole parse

  function Size(asked: int, fallback: nat): nat {
    if asked < 1 then fallback else asked
  }

  function Extents(runes: string, cols: int, rows: int): Extent {
    Measured(Extent(0, 0, Size(cols, DEF_COLS) - 1, Size(rows, DEF_ROWS) - 1, 0, 0), runes)
  }

  lemma {:induction false} MeasuredGrows(e: Extent, t: string)
    ensures Measured(e, t).maxX >= e.maxX && Measured(e, t).maxY >= e.maxY
    decreases |t|
  {
    if !AtEnd(t) {
      MeasuredGrows(MeasureOne(e, t), t[Item(t)..]);
    }
  }

  /** The blank screen the second pass starts on. The saved cursor is carried over. */
  function Start(e: Extent): (s: Screen)
    requires e.maxX >= 0 && e.maxY >= 0
    ensures s.grid.Valid()
  {
    Screen(BlankGrid(Min(MAX_COLS, e.maxX + 1), Min(MAX_ROWS, e.maxY + 1)), 0, 0, e.savedX, e.savedY, PLAIN)
  }

  /** The grid ParseANSI returns. */
  function Parsed(text: string, cols: int, rows: int): (g: Grid)
    ensures g.Valid()
  {
    var runes := Expanded(text);
    MeasuredGrows(Extent(0, 0, Size(cols, DEF_COLS) - 1, Size(rows, DEF_ROWS) - 1, 0, 0), runes);
    Painted(Start(Extents(runes, cols, rows)), runes).grid
  }

  // ---------------------------------------------------------------- the two loops

  lemma MeasuredTurn(e: Extent, runes: string, i: nat)
    requires i < |runes| && runes[i] != EOF_MARK
    ensures i + Item(runes[i..]) <= |runes|
    ensures Measured(e, runes[i..]) == Measured(MeasureOne(e, runes[i..]), runes[i + Item(runes[i..])..])
  {
    assert runes[i..][Item(runes[i..])..] == runes[i + Item(runes[i..])..];
  }

  lemma MeasuredEnd(e: Extent, t: string)
    requires AtEnd(t)
    ensures Measured(e, t) == e
  {
  }

  lemma PaintedEnd(s: Screen, t: string)
    requires s.grid.Valid() && AtEnd(t)
    ensures Painted(s, t) == s
  {
  }

  lemma PaintedTurn(s: Screen, runes: string, i: nat)
    requires s.grid.Valid() && i < |runes| && runes[i] != EOF_MARK
    ensures i + Item(runes[i..]) <= |runes|
    ensures Painted(s, runes[i..]) == Painted(PaintOne(s, runes[i..]), runes[i + Item(runes[i..])..])
  {
    assert runes[i..][Item(runes[i..])..] == runes[i + Item(runes[i..])..];
  }

  method MeasureTurn(before: Extent, runes: string, i: nat) returns (e: Extent, used: nat)
    requires i < |runes|
    ensures e == MeasureOne(before, runes[i..]) && used == Item(runes[i..])
  {
    e, used := before, 1;
    var j := FindFinal(runes, i);
    if j != 0 {
      assert runes[i..][2..j] == runes[i + 2..i + j];
      var params := ParseParams(runes[i + 2..i + j]);
      e := Moved(e, runes[i + j], params);
      if e.cx > e.maxX {
        e := e.(maxX := e.cx);
      }
      if e.cy > e.maxY {
        e := e.(maxY := e.cy);
      }
      used := j + 1;
    } else if runes[i] == '\r' {
      e := e.(cx := 0);
    } else if runes[i] == '\n' {
      e := e.(cy := e.cy + 1, cx := 0);
      if e.cy > e.maxY {
        e := e.(maxY := e.cy);
      }
    } else if runes[i] >= ' ' || runes[i] == '\t' {
      if runes[i] == '\t' {
        e := e.(cx := (e.cx + 8) / 8 * 8);
      } else {
        e := e.(cx := e.cx + 1);
      }
      if e.cx - 1 > e.maxX {
        e := e.(maxX := e.cx - 1);
      }
      if e.cy > e.maxY {
        e := e.(maxY := e.cy);
      }
    }
  }

  /** The first loop: how far the cursor and the glyphs reach. */
  method MeasurePass(runes: string, cols: nat, rows: nat) returns (e: Extent)
    ensures e == Measured(Extent(0, 0, cols - 1, rows - 1, 0, 0), runes)
  {
    hide Measured, MeasureOne;
    e := Extent(0, 0, cols - 1, rows - 1, 0, 0);
    ghost var start := e;
    var i := 0;
    assert runes[0..] == runes;
    while i < |runes| && runes[i] != EOF_MARK
      invariant 0 <= i <= |runes|
      invariant Measured(e, runes[i..]) == Measured(start, runes)
    {
      MeasuredTurn(e, runes, i);
      var next, used := MeasureTurn(e, runes, i);
      e, i := next, i + used;
    }
    MeasuredEnd(e, runes[i..]);
  }

  /** The inner loop of the erase functions: blanks columns x0 .. x1 - 1 of row y. */
  method EraseSpan(c: Canvas, y: nat, x0: int, x1: int, blank: Cell)
    requires c.Valid() && 0 <= x0 && blank.ch == ' '
    modifies c.cells
    ensures c.Valid()
    ensures forall x', y' :: c.View().Get(x', y') ==
                             if y' == y && x0 <= x' < x1 && c.View().InBounds(x', y') then blank else old(c.View()).Get(x', y')
  {
    ghost var before := c.View();
    var x := x0;
    while x < x1
      invariant x0 <= x <= Max(x0, x1)
      invariant c.Valid()
      invariant forall x', y' :: c.View().Get(x', y') ==
                                 if y' == y && x0 <= x' < x && c.View().InBounds(x', y') then blank else before.Get(x', y')
    {
      c.Set(x, y, blank);
      x := x + 1;
    }
  }

  method EraseDisplay(c: Canvas, cx: nat, cy: nat, mode: int, fg: Color, bg: Color)
    requires c.Valid()
    modifies c.cells
    ensures c.Valid() && c.View() == Erased(old(c.View()), false, mode, cx, cy, Cell(' ', fg, bg))
  {
    var blank := Cell(' ', fg, bg);
    ghost var before := c.View();
    if mode == 0 {
      var y := cy;
      while y < c.rows
        invariant cy <= y && c.Valid()
        invariant forall x', y' :: c.View().Get(x', y') ==
                                   if cy <= y' < y && InErasedDisplay(mode, cx, cy, x', y') && before.InBounds(x', y') then blank else before.Get(x', y')
      {
        EraseSpan(c, y, if y == cy then cx else 0, c.cols, blank);
        y := y + 1;
      }
    } else if mode == 1 {
      var y := 0;
      while y <= cy
        invariant 0 <= y <= cy + 1 && c.Valid()
        invariant forall x', y' :: c.View().Get(x', y') ==
                                   if y' < y && InErasedDisplay(mode, cx, cy, x', y') && before.InBounds(x', y') then blank else before.Get(x', y')
      {
        EraseSpan(c, y, 0, if y == cy then cx + 1 else c.cols, blank);
        y := y + 1;
      }
    } else if mode == 2 {
      var y := 0;
      while y < c.rows
        invariant 0 <= y <= c.rows && c.Valid()
        invariant forall x', y' :: c.View().Get(x', y') ==
                                   if y' < y && before.InBounds(x', y') then blank else before.Get(x', y')
      {
        EraseSpan(c, y, 0, c.cols, blank);
        y := y + 1;
      }
    }
    GridExtensional(c.View(), Erased(before, false, mode, cx, cy, blank));
  }

  method EraseLine(c: Canvas, cx: nat, cy: nat, mode: int, fg: Color, bg: Color)
    requires c.Valid()
    modifies c.cells
    ensures c.Valid() && c.View() == Erased(old(c.View()), true, mode, cx, cy, Cell(' ', fg, bg))
  {
    var blank := Cell(' ', fg, bg);
    ghost var before := c.View();
    if mode == 0 {
      EraseSpan(c, cy, cx, c.cols, blank);
    } else if mode == 1 {
      EraseSpan(c, cy, 0, cx + 1, blank);
    } else if mode == 2 {
      EraseSpan(c, cy, 0, c.cols, blank);
    }
    GridExtensional(c.View(), Erased(before, true, mode, cx, cy, blank));
  }

  /** The painting state of ParseANSI: the canvas and the local variables beside it. */
  class Painter {
    const c: Canvas
    var cx: nat
    var cy: nat
    var savedX: nat
    var savedY: nat
    var attr: Attr

    ghost predicate Valid()
      reads this, c, c.cells
    {
      c.Valid()
    }

    ghost function View(): (s: Screen)
      requires Valid()
      reads this, c, c.cells
      ensures s.grid.Valid()
    {
      Screen(c.View(), cx, cy, savedX, savedY, attr)
    }

    constructor (c: Canvas, savedX: nat, savedY: nat)
      requires c.Valid()
      ensures this.c == c && Valid() && View() == Screen(c.View(), 0, 0, savedX, savedY, PLAIN)
    {
      this.c := c;
      cx, cy := 0, 0;
      this.savedX, this.savedY := savedX, savedY;
      attr := PLAIN;
    }

    method Put(ch: char)
      requires Valid()
      modifies this, c.cells
      ensures Valid() && View() == old(View()).Put(ch)
    {
      c.Set(cx, cy, Cell(ch, attr.fg, attr.bg));
      cx := cx + 1;
      if cx >= c.cols {
        cx := 0;
        cy := cy + 1;
      }
    }

    method Tab()
      requires Valid()
      modifies this, c.cells
      ensures Valid() && View() == Tabbed(old(View()))
    {
      ghost var start := View();
      while cx % 8 != 0
        invariant Valid()
        invariant Tabbed(View()) == Tabbed(start)
        decreases TabGap(cx)
      {
        TabShrinks(cx);
        Put(' ');
      }
    }

    method Control(final: char, params: seq<int>)
      requires Valid()
      modifies this, c.cells
      ensures Valid() && View() == Controlled(old(View()), final, params)
    {
      var n := Count(params);
      if final == 'm' {
        attr := ApplySGR(attr, params);
      } else if final == 'H' || final == 'f' {
        cy, cx := n - 1, ColumnArg(params) - 1;
      } else if final == 'A' {
        cy := if cy < n then 0 else cy - n;
      } else if final == 'B' {
        cy := cy + n;
        if cy >= c.rows {
          cy := c.rows - 1;
        }
      } else if final == 'C' {
        cx := cx + n;
        if cx >= c.cols {
          cx := c.cols - 1;
        }
      } else if final == 'D' {
        cx := if cx < n then 0 else cx - n;
      } else if final == 's' {
        savedX, savedY := cx, cy;
      } else if final == 'u' {
        cx, cy := savedX, savedY;
      } else if final == 'J' {
        EraseDisplay(c, cx, cy, Mode(params), attr.fg, attr.bg);
      } else if final == 'K' {
        EraseLine(c, cx, cy, Mode(params), attr.fg, attr.bg);
      }
    }

    /** One turn of the second loop; `used` characters are consumed. */
    method Turn(runes: string, i: nat) returns (used: nat)
      requires Valid() && i < |runes|
      modifies this, c.cells
      ensures Valid() && View() == PaintOne(old(View()), runes[i..]) && used == Item(runes[i..])
    {
      used := 1;
      var j := FindFinal(runes, i);
      if j != 0 {
        assert runes[i..][2..j] == runes[i + 2..i + j];
        var params := ParseParams(runes[i + 2..i + j]);
        Control(runes[i + j], params);
        used := j + 1;
      } else if runes[i] == '\r' {
        cx := 0;
      } else if runes[i] == '\n' {
        cy := cy + 1;
        cx := 0;
      } else if runes[i] == '\t' {
        Tab();
      } else if runes[i] >= ' ' {
        Put(runes[i]);
      }
    }
  }

  /** The second loop. */
  method PaintPass(p: Painter, runes: string)
    requires p.Valid()
    modifies p, p.c.cells
    ensures p.Valid() && p.View() == Painted(old(p.View()), runes)
  {
    hide Painted, PaintOne;
    ghost var start := p.View();
    var i := 0;
    assert runes[0..] == runes;
    while i < |runes| && runes[i] != EOF_MARK
      invariant 0 <= i <= |runes| && p.Valid()
      invariant Painted(p.View(), runes[i..]) == Painted(start, runes)
    {
      PaintedTurn(p.View(), runes, i);
      var used := p.Turn(runes, i);
      i := i + used;
    }
    PaintedEnd(p.View(), runes[i..]);
  }

  method ParseANSI(text: string, defaultCols: int, defaultRows: int) returns (c: Canvas)
    ensures c.Valid() && c.View() == Parsed(text, defaultCols, defaultRows)
  {
    hide Painted, Measured, Expanded;
    var runes := ExpandPCBAnsi(text);
    var cols := if defaultCols < 1 then DEF_COLS else defaultCols;
    var rows := if defaultRows < 1 then DEF_ROWS else defaultRows;
    var e := MeasurePass(runes, cols, rows);
    MeasuredGrows(Extent(0, 0, cols - 1, rows - 1, 0, 0), runes);
    var w, h := e.maxX + 1, e.maxY + 1;
    if w > MAX_COLS {
      w := MAX_COLS;
    }
    if h > MAX_ROWS {
      h := MAX_ROWS;
    }
    c := new Canvas(w, h);
    var p := new Painter(c, e.savedX, e.savedY);
    assert e == Extents(runes, defaultCols, defaultRows);
    assert p.View() == Start(e);
    PaintPass(p, runes);
  }
}
