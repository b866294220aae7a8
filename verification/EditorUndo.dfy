/** The editing commands of AnsiEdit and its bounded undo stack.

    An edit records the cell it overwrites, cell by cell, before it writes; a text stamp with a drop shadow may
    record one cell twice. Undo writes the records back, last one first. */
module EditorUndo {
  import opened CanvasModel

  const UNDO_LIMIT: nat := 25

  datatype UndoCell = UndoCell(x: int, y: int, prev: Cell)

  type UndoEntry = seq<UndoCell>

  datatype CellWrite = CellWrite(x: int, y: int, cell: Cell)

  /** No stored cell holds the zero rune: `Canvas.Set` and `NewCanvas` see to that. */
  predicate Clean(g: Grid)
    requires g.Valid()
  {
    forall y :: 0 <= y < |g.rows| ==> forall x :: 0 <= x < g.cols ==> g.rows[y][x].ch != '\0'
  }

  // ---------------------------------------------------------------- one edit and its record

  predicate SameSize(a: Grid, b: Grid) {
    a.cols == b.cols && |a.rows| == |b.rows|
  }

  function Applied(g: Grid, ws: seq<CellWrite>): (r: Grid)
    requires g.Valid()
    ensures r.Valid() && r.cols == g.cols && |r.rows| == |g.rows|
  {
    if ws == [] then g
    else
      var w := ws[|ws| - 1];
      Applied(g, ws[..|ws| - 1]).Set(w.x, w.y, w.cell)
  }

  /** The undo record of a batch of writes. */
  function Recorded(g: Grid, ws: seq<CellWrite>): UndoEntry
    requires g.Valid()
  {
    if ws == [] then []
    else
      var w := ws[|ws| - 1];
      Recorded(g, ws[..|ws| - 1]) + [UndoCell(w.x, w.y, Applied(g, ws[..|ws| - 1]).Get(w.x, w.y))]
  }

  /** Writing an entry back, last record first. */
  function Reverted(g: Grid, entry: UndoEntry): (r: Grid)
    requires g.Valid()
    ensures r.Valid() && r.cols == g.cols && |r.rows| == |g.rows|
    decreases |entry|
  {
    if entry == [] then g
    else
      var c := entry[|entry| - 1];
      Reverted(g.Set(c.x, c.y, c.prev), entry[..|entry| - 1])
  }

  lemma SetKeepsClean(g: Grid, x: int, y: int, cell: Cell)
    requires g.Valid() && Clean(g)
    ensures Clean(g.Set(x, y, cell))
  {
  }

  lemma {:induction false} AppliedClean(g: Grid, ws: seq<CellWrite>)
    requires g.Valid() && Clean(g)
    ensures Clean(Applied(g, ws))
  {
    if ws != [] {
      AppliedClean(g, ws[..|ws| - 1]);
      var w := ws[|ws| - 1];
      SetKeepsClean(Applied(g, ws[..|ws| - 1]), w.x, w.y, w.cell);
    }
  }

  lemma SetBack(g: Grid, x: int, y: int, cell: Cell)
    requires g.Valid() && Clean(g)
    ensures g.Set(x, y, cell).Set(x, y, g.Get(x, y)) == g
  {
    GridExtensional(g.Set(x, y, cell).Set(x, y, g.Get(x, y)), g);
  }

  /** Undoing a batch restores the canvas, however often the batch wrote one cell. */
  lemma {:induction false} RevertRecorded(g: Grid, ws: seq<CellWrite>)
    requires g.Valid() && Clean(g)
    ensures Reverted(Applied(g, ws), Recorded(g, ws)) == g
  {
    if ws != [] {
      var before := ws[..|ws| - 1];
      var w := ws[|ws| - 1];
      var h := Applied(g, before);
      AppliedClean(g, before);
      SetBack(h, w.x, w.y, w.cell);
      assert Recorded(g, ws)[..|Recorded(g, ws)| - 1] == Recorded(g, before);
      RevertRecorded(g, before);
    }
  }

  lemma {:induction false} RecordedSize(g: Grid, ws: seq<CellWrite>)
    requires g.Valid()
    ensures |Recorded(g, ws)| == |ws|
    ensures forall i :: 0 <= i < |ws| ==> Recorded(g, ws)[i].x == ws[i].x && Recorded(g, ws)[i].y == ws[i].y
  {
    if ws != [] {
      RecordedSize(g, ws[..|ws| - 1]);
    }
  }

  // ---------------------------------------------------------------- text stamps

  /** The writes of one row of a stamp: spaces and cells outside the canvas are skipped. */
  function RowWrites(g: Grid, row: seq<char>, x0: int, y: int, fg: Color, bg: Color): (ws: seq<CellWrite>)
    requires g.Valid()
    ensures forall i :: 0 <= i < |ws| ==> g.InBounds(ws[i].x, ws[i].y)
  {
    if row == [] then []
    else
      var n := |row| - 1;
      RowWrites(g, row[..n], x0, y, fg, bg)
      + (if row[n] != ' ' && g.InBounds(x0 + n, y) then [CellWrite(x0 + n, y, Cell(row[n], fg, bg))] else [])
  }

  function GridWrites(g: Grid, text: seq<seq<char>>, x0: int, y0: int, fg: Color, bg: Color): (ws: seq<CellWrite>)
    requires g.Valid()
    ensures forall i :: 0 <= i < |ws| ==> g.InBounds(ws[i].x, ws[i].y)
  {
    if text == [] then []
    else
      var n := |text| - 1;
      GridWrites(g, text[..n], x0, y0, fg, bg) + RowWrites(g, text[n], x0, y0 + n, fg, bg)
  }

  /** The whole stamp: the shadow one cell down and right, then the text over it. */
  function StampWrites(g: Grid, text: seq<seq<char>>, shadow: bool, x: int, y: int, fg: Color, bg: Color): (ws: seq<CellWrite>)
    requires g.Valid()
    ensures forall i :: 0 <= i < |ws| ==> g.InBounds(ws[i].x, ws[i].y)
  {
    (if shadow then GridWrites(g, text, x + 1, y + 1, Classic(8), Classic(0)) else [])
    + GridWrites(g, text, x, y, fg, bg)
  }

  /** A glyph of a rendered text: a space draws nothing. */
  predicate Inked(text: seq<seq<char>>, k: int, r: int) {
    0 <= r < |text| && 0 <= k < |text[r]| && text[r][k] != ' '
  }

  lemma {:induction false} AppliedAppend(g: Grid, a: seq<CellWrite>, b: seq<CellWrite>)
    requires g.Valid()
    ensures Applied(g, a + b) == Applied(Applied(g, a), b)
    decreases |b|
  {
    if b == [] {
      assert a + b == a;
    } else {
      assert (a + b)[..|a + b| - 1] == a + b[..|b| - 1];
      AppliedAppend(g, a, b[..|b| - 1]);
    }
  }

  lemma OneSet(g: Grid, x0: int, y0: int, cell: Cell, x: int, y: int)
    requires g.Valid() && g.InBounds(x0, y0)
    ensures g.Set(x0, y0, cell).Get(x, y) == if x == x0 && y == y0 then cell.Normal() else g.Get(x, y)
  {
  }

  /** One row of a stamp, on any canvas of the size the writes were made for. */
  lemma {:induction false} RowShows(h: Grid, g: Grid, row: seq<char>, x0: int, y0: int, fg: Color, bg: Color, x: int, y: int)
    requires h.Valid() && g.Valid() && SameSize(h, g)
    ensures Applied(h, RowWrites(g, row, x0, y0, fg, bg)).Get(x, y) ==
      if g.InBounds(x, y) && y == y0 && 0 <= x - x0 < |row| && row[x - x0] != ' '
      then Cell(row[x - x0], fg, bg).Normal() else h.Get(x, y)
  {
    hide Applied, RowWrites, Recorded;
    if row == [] {
      RowWritesNothing(g, x0, y0, fg, bg);
      NothingApplied(h);
    } else {
      var n := |row| - 1;
      var ws := RowWrites(g, row[..n], x0, y0, fg, bg);
      RowShows(h, g, row[..n], x0, y0, fg, bg, x, y);
      RowWritesStep(g, row, n, x0, y0, fg, bg);
      assert row[..n + 1] == row && ws + [] == ws;
      if row[n] != ' ' && g.InBounds(x0 + n, y0) {
        var w := CellWrite(x0 + n, y0, Cell(row[n], fg, bg));
        RecordedSnoc(h, ws, w);
        OneSet(Applied(h, ws), w.x, w.y, w.cell, x, y);
      }
    }
  }

  /** A whole text, on any canvas of the size the writes were made for. */
  lemma {:induction false} GridShows(h: Grid, g: Grid, text: seq<seq<char>>, x0: int, y0: int, fg: Color, bg: Color, x: int, y: int)
    requires h.Valid() && g.Valid() && SameSize(h, g)
    ensures Applied(h, GridWrites(g, text, x0, y0, fg, bg)).Get(x, y) ==
      if g.InBounds(x, y) && Inked(text, x - x0, y - y0) then Cell(text[y - y0][x - x0], fg, bg).Normal() else h.Get(x, y)
  {
    hide Applied, RowWrites;
    if text == [] {
      NothingApplied(h);
    } else {
      var n := |text| - 1;
      var before := GridWrites(g, text[..n], x0, y0, fg, bg);
      GridShows(h, g, text[..n], x0, y0, fg, bg, x, y);
      AppliedAppend(h, before, RowWrites(g, text[n], x0, y0 + n, fg, bg));
      RowShows(Applied(h, before), g, text[n], x0, y0 + n, fg, bg, x, y);
    }
  }

  lemma NothingApplied(g: Grid)
    requires g.Valid()
    ensures Applied(g, []) == g
  {
  }

  /** What a stamp with its top left corner at (cx, cy) leaves at a place: the text in its colours; where the text
      has no glyph, the shadow of the glyph one up and left in dark grey on black; and everywhere else what was there. */
  function StampedCell(g: Grid, text: seq<seq<char>>, shadow: bool, cx: int, cy: int, fg: Color, bg: Color, x: int, y: int): Cell
    requires g.Valid()
  {
    if g.InBounds(x, y) && Inked(text, x - cx, y - cy) then Cell(text[y - cy][x - cx], fg, bg).Normal()
    else if g.InBounds(x, y) && shadow && Inked(text, x - cx - 1, y - cy - 1)
    then Cell(text[y - cy - 1][x - cx - 1], Classic(8), Classic(0)).Normal()
    else g.Get(x, y)
  }

  lemma StampAt(g: Grid, text: seq<seq<char>>, shadow: bool, cx: int, cy: int, fg: Color, bg: Color, x: int, y: int)
    requires g.Valid()
    ensures Applied(g, StampWrites(g, text, shadow, cx, cy, fg, bg)).Get(x, y)
         == StampedCell(g, text, shadow, cx, cy, fg, bg, x, y)
  {
    hide Applied, GridWrites, Inked;
    var dark := if shadow then GridWrites(g, text, cx + 1, cy + 1, Classic(8), Classic(0)) else [];
    AppliedAppend(g, dark, GridWrites(g, text, cx, cy, fg, bg));
    GridShows(Applied(g, dark), g, text, cx, cy, fg, bg, x, y);
    if shadow {
      GridShows(g, g, text, cx + 1, cy + 1, Classic(8), Classic(0), x, y);
    } else {
      NothingApplied(g);
    }
  }

  /** The text lies over its shadow, and no other cell changes. */
  lemma StampShows(g: Grid, text: seq<seq<char>>, shadow: bool, cx: int, cy: int, fg: Color, bg: Color)
    requires g.Valid()
    ensures var h := Applied(g, StampWrites(g, text, shadow, cx, cy, fg, bg));
      forall x, y :: h.Get(x, y) == StampedCell(g, text, shadow, cx, cy, fg, bg, x, y)
  {
    hide Applied, StampWrites, StampedCell;
    var h := Applied(g, StampWrites(g, text, shadow, cx, cy, fg, bg));
    forall x, y ensures h.Get(x, y) == StampedCell(g, text, shadow, cx, cy, fg, bg, x, y) {
      StampAt(g, text, shadow, cx, cy, fg, bg, x, y);
    }
  }

  // ---------------------------------------------------------------- the editor as a state machine

  datatype State = State(grid: Grid, undo: seq<UndoEntry>, cx: int, cy: int, fg: Color, bg: Color, dirty: bool)

  datatype Key = Up | Down | Left | Right | Home | End | PageUp(rows: nat) | PageDown(rows: nat)

  datatype Command =
    | Move(key: Key)
    | Foreground(idx: nat)
    | Background(idx: nat)
    | Paint(ch: char)
    | Delete(backspace: bool)
    | Stamp(text: seq<seq<char>>, shadow: bool)
    | Undo
    | Resize(cols: int, rows: int)
    | Replace(grid: Grid, keepDirty: bool)

  /** `pushUndoBatch`: an empty batch is not pushed, and only the newest 25 entries stay. */
  function Pushed<T>(stack: seq<T>, e: T): seq<T> {
    var s := stack + [e];
    if |s| > UNDO_LIMIT then s[|s| - UNDO_LIMIT..] else s
  }

  function Edited(s: State, ws: seq<CellWrite>): (r: State)
    requires s.grid.Valid()
    ensures r.grid.Valid() && SameSize(r.grid, s.grid) && r.cx == s.cx && r.cy == s.cy
  {
    if ws == [] then s
    else s.(grid := Applied(s.grid, ws), undo := Pushed(s.undo, Recorded(s.grid, ws)), dirty := true)
  }

  function Undone(s: State): State
    requires s.grid.Valid()
  {
    if s.undo == [] then s
    else
      var u := s.undo[|s.undo| - 1];
      s.(grid := Reverted(s.grid, u), undo := s.undo[..|s.undo| - 1], dirty := true,
         cx := if u == [] then s.cx else u[0].x, cy := if u == [] then s.cy else u[0].y)
  }

  function CursorWrite(s: State, cell: Cell): seq<CellWrite>
    requires s.grid.Valid()
  {
    if s.grid.InBounds(s.cx, s.cy) then [CellWrite(s.cx, s.cy, cell)] else []
  }

  function Moved(s: State, key: Key): State
    requires s.grid.Valid()
  {
    match key
    case Up => if s.cy > 0 then s.(cy := s.cy - 1) else s
    case Down => if s.cy + 1 < |s.grid.rows| then s.(cy := s.cy + 1) else s
    case Left => if s.cx > 0 then s.(cx := s.cx - 1) else s
    case Right => if s.cx + 1 < s.grid.cols then s.(cx := s.cx + 1) else s
    case Home => s.(cx := 0)
    case End => s.(cx := s.grid.cols - 1)
    case PageUp(n) => s.(cy := Max(0, s.cy - n))
    case PageDown(n) => s.(cy := Min(|s.grid.rows| - 1, s.cy + n))
  }

  function Step(s: State, c: Command): State
    requires s.grid.Valid() && (c.Replace? ==> c.grid.Valid())
  {
    match c
    case Move(key) => Moved(s, key)
    case Foreground(idx) => s.(fg := Classic(Min(15, idx)))
    case Background(idx) => s.(bg := Classic(Min(7, idx)))
    case Paint(ch) =>
      var t := Edited(s, CursorWrite(s, Cell(ch, s.fg, s.bg)));
      t.(dirty := true, cx := if s.cx + 1 < s.grid.cols then s.cx + 1 else s.cx)
    case Delete(backspace) =>
      var t := Edited(s, CursorWrite(s, BLANK));
      t.(dirty := true, cx := if backspace && s.cx > 0 then s.cx - 1 else s.cx)
    case Stamp(text, shadow) => Edited(s, StampWrites(s.grid, text, shadow, s.cx, s.cy, s.fg, s.bg))
    case Undo => Undone(s)
    case Resize(cols, rows) =>
      var g := Resized(s.grid, cols, rows);
      if g.cols == s.grid.cols && |g.rows| == |s.grid.rows| then s
      else s.(grid := g, undo := [], dirty := true, cx := Max(0, Min(s.cx, g.cols - 1)), cy := Max(0, Min(s.cy, |g.rows| - 1)))
    case Replace(grid, keepDirty) => s.(grid := grid, undo := [], cx := 0, cy := 0, dirty := keepDirty)
  }

  // ---------------------------------------------------------------- what undo promises

  /** The canvases from before each edit that is still on the stack, newest last. */
  function Journal(s: State, journal: seq<Grid>, c: Command): seq<Grid>
    requires s.grid.Valid() && (c.Replace? ==> c.grid.Valid())
  {
    match c
    case Paint(_) => if CursorWrite(s, BLANK) == [] then journal else Pushed(journal, s.grid)
    case Delete(_) => if CursorWrite(s, BLANK) == [] then journal else Pushed(journal, s.grid)
    case Stamp(text, shadow) =>
      if StampWrites(s.grid, text, shadow, s.cx, s.cy, s.fg, s.bg) == [] then journal else Pushed(journal, s.grid)
    case Undo => if journal == [] then [] else journal[..|journal| - 1]
    case Resize(_, _) => if Step(s, c) == s then journal else []
    case Replace(_, _) => []
    case _ => journal
  }

  /** The canvas that entry i was recorded on: the one after edit i. */
  function Later(g: Grid, journal: seq<Grid>, i: int): Grid
    requires 0 <= i < |journal|
  {
    if i + 1 < |journal| then journal[i + 1] else g
  }

  predicate Inside(g: Grid, e: UndoEntry) {
    e != [] && forall k :: 0 <= k < |e| ==> g.InBounds(e[k].x, e[k].y)
  }

  /** Reverting entry i turns the canvas it was made on into journal[i]; no entry leaves the canvas. */
  ghost predicate Linked(g: Grid, undo: seq<UndoEntry>, journal: seq<Grid>) {
    && |undo| == |journal|
    && g.Valid() && Clean(g)
    && (forall i :: 0 <= i < |journal| ==> journal[i].Valid() && Clean(journal[i]) && SameSize(journal[i], g))
    && (forall i :: 0 <= i < |undo| ==> Reverted(Later(g, journal, i), undo[i]) == journal[i])
    && (forall i :: 0 <= i < |undo| ==> Inside(g, undo[i]))
  }

  ghost predicate Chained(g: Grid, undo: seq<UndoEntry>, journal: seq<Grid>) {
    Linked(g, undo, journal) && |undo| <= UNDO_LIMIT
  }

  ghost predicate Reachable(s: State, journal: seq<Grid>) {
    Chained(s.grid, s.undo, journal) && s.grid.InBounds(s.cx, s.cy)
  }

  lemma InsideSameSize(a: Grid, b: Grid, e: UndoEntry)
    requires SameSize(a, b)
    ensures Inside(a, e) <==> Inside(b, e)
  {
  }

  lemma AppendLinks(g: Grid, undo: seq<UndoEntry>, journal: seq<Grid>, after: Grid, e: UndoEntry)
    requires Linked(g, undo, journal) && after.Valid() && Clean(after) && SameSize(after, g)
    requires Reverted(after, e) == g && Inside(g, e)
    ensures Linked(after, undo + [e], journal + [g])
  {
    hide Reverted, Clean, Inside;
    var undo', journal' := undo + [e], journal + [g];
    forall i | 0 <= i < |undo'| ensures Reverted(Later(after, journal', i), undo'[i]) == journal'[i] {
      if i < |undo| {
        assert Later(after, journal', i) == Later(g, journal, i);
      }
    }
    forall i | 0 <= i < |undo'| ensures Inside(after, undo'[i]) {
      InsideSameSize(g, after, undo'[i]);
    }
  }

  lemma DropOldest(g: Grid, undo: seq<UndoEntry>, journal: seq<Grid>)
    requires Linked(g, undo, journal) && undo != []
    ensures Linked(g, undo[1..], journal[1..])
  {
    hide Reverted, Clean, Inside;
    forall i | 0 <= i < |undo| - 1 ensures Reverted(Later(g, journal[1..], i), undo[1..][i]) == journal[1..][i] {
      assert Later(g, journal[1..], i) == Later(g, journal, i + 1);
    }
  }

  lemma PushKeepsChain(g: Grid, undo: seq<UndoEntry>, journal: seq<Grid>, after: Grid, e: UndoEntry)
    requires Chained(g, undo, journal) && after.Valid() && Clean(after) && SameSize(after, g)
    requires Reverted(after, e) == g && Inside(g, e)
    ensures Chained(after, Pushed(undo, e), Pushed(journal, g))
  {
    hide Reverted, Clean, Inside;
    AppendLinks(g, undo, journal, after, e);
    assert |undo| == |journal|;
    hide Linked;
    if |undo| == UNDO_LIMIT {
      DropOldest(after, undo + [e], journal + [g]);
    }
  }

  lemma PopKeepsChain(g: Grid, undo: seq<UndoEntry>, journal: seq<Grid>)
    requires Chained(g, undo, journal) && undo != []
    ensures var n := |undo| - 1;
      Reverted(g, undo[n]) == journal[n] && Chained(journal[n], undo[..n], journal[..n])
  {
    hide Reverted, Clean;
    var n := |undo| - 1;
    assert Later(g, journal, n) == g;
    forall i | 0 <= i < n ensures Reverted(Later(journal[n], journal[..n], i), undo[..n][i]) == journal[..n][i] {
      assert Later(journal[n], journal[..n], i) == Later(g, journal, i);
    }
  }

  lemma EditKeepsChain(s: State, journal: seq<Grid>, ws: seq<CellWrite>)
    requires Chained(s.grid, s.undo, journal)
    requires forall i :: 0 <= i < |ws| ==> s.grid.InBounds(ws[i].x, ws[i].y)
    ensures Chained(Edited(s, ws).grid, Edited(s, ws).undo, if ws == [] then journal else Pushed(journal, s.grid))
  {
    hide Reverted, Clean, Applied, Recorded, Pushed;
    if ws != [] {
      RevertRecorded(s.grid, ws);
      RecordedSize(s.grid, ws);
      AppliedClean(s.grid, ws);
      PushKeepsChain(s.grid, s.undo, journal, Applied(s.grid, ws), Recorded(s.grid, ws));
    }
  }

  lemma UndoKeepsReachable(s: State, journal: seq<Grid>)
    requires Reachable(s, journal)
    ensures Reachable(Undone(s), Journal(s, journal, Undo))
  {
    hide Reverted, Clean;
    if s.undo != [] {
      PopKeepsChain(s.grid, s.undo, journal);
      assert Inside(s.grid, s.undo[|s.undo| - 1]);
    }
  }

  lemma ResizedClean(g: Grid, cols: int, rows: int)
    requires g.Valid() && Clean(g)
    ensures Clean(Resized(g, cols, rows))
  {
    var r := Resized(g, cols, rows);
    forall y | 0 <= y < |r.rows| ensures forall x :: 0 <= x < r.cols ==> r.rows[y][x].ch != '\0' {
      forall x | 0 <= x < r.cols ensures r.rows[y][x].ch != '\0' {
        assert r.Get(x, y) == g.Get(x, y).Normal();
      }
    }
  }

  lemma EmptyChain(g: Grid)
    requires g.Valid() && Clean(g)
    ensures Chained(g, [], [])
  {
  }

  lemma CursorEditKeepsReachable(s: State, journal: seq<Grid>, cell: Cell)
    requires Reachable(s, journal)
    ensures Chained(Edited(s, CursorWrite(s, cell)).grid, Edited(s, CursorWrite(s, cell)).undo, Pushed(journal, s.grid))
  {
    hide Edited, Pushed;
    EditKeepsChain(s, journal, CursorWrite(s, cell));
  }

  lemma ChainedIsClean(s: State, journal: seq<Grid>)
    requires Reachable(s, journal)
    ensures s.grid.Valid() && Clean(s.grid)
  {
  }

  /** Every command keeps the undo stack truthful, within its limit and inside the canvas. */
  lemma StepKeepsReachable(s: State, journal: seq<Grid>, c: Command)
    requires Reachable(s, journal) && (c.Replace? ==> c.grid.Valid() && Clean(c.grid))
    ensures Reachable(Step(s, c), Journal(s, journal, c))
  {
    hide Step, Journal, Reachable, Clean;
    if c.Paint? || c.Delete? || c.Stamp? || c.Undo? {
      EditStepKeepsReachable(s, journal, c);
    } else {
      OtherStepKeepsReachable(s, journal, c);
    }
  }

  lemma EditStepKeepsReachable(s: State, journal: seq<Grid>, c: Command)
    requires Reachable(s, journal) && (c.Paint? || c.Delete? || c.Stamp? || c.Undo?)
    ensures Reachable(Step(s, c), Journal(s, journal, c))
  {
    hide Edited, Pushed, StampWrites, Chained, Undone, Clean;
    ChainedIsClean(s, journal);
    match c
    case Paint(ch) => CursorEditKeepsReachable(s, journal, Cell(ch, s.fg, s.bg));
    case Delete(backspace) => CursorEditKeepsReachable(s, journal, BLANK);
    case Stamp(text, shadow) => EditKeepsChain(s, journal, StampWrites(s.grid, text, shadow, s.cx, s.cy, s.fg, s.bg));
    case Undo => UndoKeepsReachable(s, journal);
  }

  lemma OtherStepKeepsReachable(s: State, journal: seq<Grid>, c: Command)
    requires Reachable(s, journal) && !(c.Paint? || c.Delete? || c.Stamp? || c.Undo?)
    requires c.Replace? ==> c.grid.Valid() && Clean(c.grid)
    ensures Reachable(Step(s, c), Journal(s, journal, c))
  {
    hide Edited, Pushed, StampWrites, Chained, Undone, Clean;
    ChainedIsClean(s, journal);
    match c
    case Resize(cols, rows) =>
      ResizedClean(s.grid, cols, rows);
      EmptyChain(Resized(s.grid, cols, rows));
    case Replace(grid, _) => EmptyChain(grid);
    case _ =>
  }

  // ---------------------------------------------------------------- whole runs

  ghost predicate ValidCommands(cs: seq<Command>) {
    forall i :: 0 <= i < |cs| && cs[i].Replace? ==> cs[i].grid.Valid() && Clean(cs[i].grid)
  }

  /** A fresh editor on a canvas. */
  function Opened(g: Grid): State {
    State(g, [], 0, 0, Classic(15), Classic(0), false)
  }

  function Run(s: State, cs: seq<Command>): (r: State)
    requires s.grid.Valid() && ValidCommands(cs)
    ensures r.grid.Valid()
  {
    if cs == [] then s else Step(Run(s, cs[..|cs| - 1]), cs[|cs| - 1])
  }

  ghost function RunJournal(s: State, cs: seq<Command>): seq<Grid>
    requires s.grid.Valid() && ValidCommands(cs)
  {
    if cs == [] then []
    else Journal(Run(s, cs[..|cs| - 1]), RunJournal(s, cs[..|cs| - 1]), cs[|cs| - 1])
  }

  lemma {:induction false} RunIsReachable(g: Grid, cs: seq<Command>)
    requires g.Valid() && Clean(g) && ValidCommands(cs)
    ensures Reachable(Run(Opened(g), cs), RunJournal(Opened(g), cs))
  {
    hide Reverted, Clean, Journal, Step;
    if cs != [] {
      var before := cs[..|cs| - 1];
      RunIsReachable(g, before);
      StepKeepsReachable(Run(Opened(g), before), RunJournal(Opened(g), before), cs[|cs| - 1]);
    }
  }

  function UndoTimes(s: State, k: nat): (r: State)
    requires s.grid.Valid()
    ensures r.grid.Valid()
    decreases k
  {
    if k == 0 then s else UndoTimes(Undone(s), k - 1)
  }

  lemma {:induction false} UndoTimesRestores(s: State, journal: seq<Grid>, k: nat)
    requires Reachable(s, journal) && 0 < k <= |s.undo|
    ensures UndoTimes(s, k).grid == journal[|journal| - k]
    ensures UndoTimes(s, k).undo == s.undo[..|s.undo| - k]
    decreases k
  {
    hide Reverted, Clean, UndoTimes, Reachable, Undone;
    UndoOnce(s, journal);
    UndoTimesStep(s, k);
    if k > 1 {
      UndoTimesRestores(Undone(s), journal[..|journal| - 1], k - 1);
    } else {
      UndoTimesNone(Undone(s));
    }
  }

  lemma UndoTimesStep(s: State, k: nat)
    requires s.grid.Valid() && k > 0
    ensures UndoTimes(s, k) == UndoTimes(Undone(s), k - 1)
  {
    hide Undone;
  }

  lemma UndoTimesNone(s: State)
    requires s.grid.Valid()
    ensures UndoTimes(s, 0) == s
  {
  }

  lemma UndoOnce(s: State, journal: seq<Grid>)
    requires Reachable(s, journal) && s.undo != []
    ensures s.grid.Valid() && Undone(s).grid.Valid() && |s.undo| == |journal| && Reachable(Undone(s), journal[..|journal| - 1])
    ensures Undone(s).grid == journal[|journal| - 1] && Undone(s).undo == s.undo[..|s.undo| - 1]
  {
    hide Reverted, Clean;
    UndoKeepsReachable(s, journal);
    PopKeepsChain(s.grid, s.undo, journal);
  }

  /** After any commands on any canvas, k undos give back, cell for cell, the canvas from before the last k
      edits still on the stack, and at most 25 are. */
  lemma UndoRestoresAnyRun(g: Grid, cs: seq<Command>, k: nat)
    requires g.Valid() && Clean(g) && ValidCommands(cs) && 0 < k <= |Run(Opened(g), cs).undo|
    ensures var s := Run(Opened(g), cs);
            var journal := RunJournal(Opened(g), cs);
      |journal| == |s.undo| <= UNDO_LIMIT && UndoTimes(s, k).grid == journal[|journal| - k]
  {
    hide Reverted, Clean, Journal, Step, Run, RunJournal, UndoTimes;
    RunIsReachable(g, cs);
    UndoTimesRestores(Run(Opened(g), cs), RunJournal(Opened(g), cs), k);
  }

  // ---------------------------------------------------------------- the editor object

  lemma ResizedClamped(g: Grid, cols: int, rows: int)
    requires g.Valid() && cols >= 1 && rows >= 1
    ensures Resized(g, Min(MAX_COLS, cols), Min(MAX_ROWS, rows)) == Resized(g, cols, rows)
  {
  }

  lemma AppliedNothing(g: Grid)
    requires g.Valid()
    ensures Applied(g, []) == g && Recorded(g, []) == []
  {
  }

  lemma RowWritesNothing(g: Grid, x0: int, y: int, fg: Color, bg: Color)
    requires g.Valid()
    ensures RowWrites(g, [], x0, y, fg, bg) == []
  {
  }

  lemma GridWritesNothing(g: Grid, x0: int, y0: int, fg: Color, bg: Color)
    requires g.Valid()
    ensures GridWrites(g, [], x0, y0, fg, bg) == []
  {
  }

  lemma RowWritesStep(g: Grid, row: seq<char>, x: nat, x0: int, y: int, fg: Color, bg: Color)
    requires g.Valid() && x < |row|
    ensures RowWrites(g, row[..x + 1], x0, y, fg, bg) == RowWrites(g, row[..x], x0, y, fg, bg)
      + (if row[x] != ' ' && g.InBounds(x0 + x, y) then [CellWrite(x0 + x, y, Cell(row[x], fg, bg))] else [])
  {
    assert row[..x + 1][..x] == row[..x];
  }

  lemma GridWritesStep(g: Grid, text: seq<seq<char>>, y: nat, x0: int, y0: int, fg: Color, bg: Color)
    requires g.Valid() && y < |text|
    ensures GridWrites(g, text[..y + 1], x0, y0, fg, bg)
         == GridWrites(g, text[..y], x0, y0, fg, bg) + RowWrites(g, text[y], x0, y0 + y, fg, bg)
  {
    assert text[..y + 1][..y] == text[..y];
  }

  lemma RecordedSnoc(g: Grid, ws: seq<CellWrite>, w: CellWrite)
    requires g.Valid()
    ensures Applied(g, ws + [w]) == Applied(g, ws).Set(w.x, w.y, w.cell)
    ensures Recorded(g, ws + [w]) == Recorded(g, ws) + [UndoCell(w.x, w.y, Applied(g, ws).Get(w.x, w.y))]
  {
    assert (ws + [w])[..|ws|] == ws;
  }

  class Editor {
    var canvas: Canvas
    var undo: seq<UndoEntry>
    var cx: int
    var cy: int
    var fg: Color
    var bg: Color
    var dirty: bool

    ghost predicate Valid()
      reads this, canvas, canvas.cells
    {
      canvas.Valid()
    }

    ghost function View(): (s: State)
      requires Valid()
      reads this, canvas, canvas.cells
      ensures s.grid.Valid()
    {
      State(canvas.View(), undo, cx, cy, fg, bg, dirty)
    }

    constructor (c: Canvas)
      requires c.Valid()
      ensures Valid() && canvas == c && View() == Opened(c.View())
    {
      canvas, undo, cx, cy := c, [], 0, 0;
      fg, bg, dirty := Classic(15), Classic(0), false;
    }

    method PushUndoBatch(cells: UndoEntry)
      modifies this`undo
      ensures undo == if cells == [] then old(undo) else Pushed(old(undo), cells)
    {
      if |cells| == 0 {
        return;
      }
      undo := undo + [cells];
      if |undo| > UNDO_LIMIT {
        undo := undo[|undo| - UNDO_LIMIT..];
      }
    }

    method PushUndo(x: int, y: int)
      requires Valid()
      modifies this`undo
      ensures undo == if canvas.View().InBounds(x, y) then Pushed(old(undo), [UndoCell(x, y, canvas.View().Get(x, y))])
                      else old(undo)
    {
      if !(0 <= x < canvas.cols && 0 <= y < canvas.rows) {
        return;
      }
      var prev := canvas.Get(x, y);
      PushUndoBatch([UndoCell(x, y, prev)]);
    }

    /** The two statements every single-cell edit makes: record, then write. */
    method EditAtCursor(cell: Cell)
      requires Valid()
      modifies this, canvas.cells
      ensures Valid() && canvas == old(canvas)
      ensures View() == Edited(old(View()), CursorWrite(old(View()), cell)).(dirty := true)
      ensures canvas.View() == old(canvas.View()).Set(old(cx), old(cy), cell)
    {
      ghost var s := View();
      PushUndo(cx, cy);
      canvas.Set(cx, cy, cell);
      dirty := true;
      if s.grid.InBounds(s.cx, s.cy) {
        RecordedSnoc(s.grid, [], CellWrite(s.cx, s.cy, cell));
        assert [] + [CellWrite(s.cx, s.cy, cell)] == CursorWrite(s, cell);
        assert Recorded(s.grid, []) + [UndoCell(s.cx, s.cy, s.grid.Get(s.cx, s.cy))] == [UndoCell(s.cx, s.cy, s.grid.Get(s.cx, s.cy))];
      }
    }

    method PaintKey(ch: char)
      requires Valid()
      modifies this, canvas.cells
      ensures Valid() && View() == Step(old(View()), Paint(ch))
      ensures forall x, y :: canvas.View().Get(x, y) ==
                             if canvas.View().InBounds(x, y) && x == old(cx) && y == old(cy)
                             then Cell(ch, old(fg), old(bg)).Normal() else old(canvas.View()).Get(x, y)
      ensures cx == (if old(cx) + 1 < canvas.cols then old(cx) + 1 else old(cx)) && cy == old(cy)
    {
      EditAtCursor(Cell(ch, fg, bg));
      if cx + 1 < canvas.cols {
        cx := cx + 1;
      }
    }

    method DeleteKey(backspace: bool)
      requires Valid()
      modifies this, canvas.cells
      ensures Valid() && View() == Step(old(View()), Delete(backspace))
      ensures forall x, y :: canvas.View().Get(x, y) ==
                             if x == old(cx) && y == old(cy) then Cell(' ', Classic(7), Classic(0))
                             else old(canvas.View()).Get(x, y)
      ensures cx == (if backspace && old(cx) > 0 then old(cx) - 1 else old(cx)) && cy == old(cy)
    {
      EditAtCursor(BLANK);
      if backspace && cx > 0 {
        cx := cx - 1;
      }
    }

    method UndoLast()
      requires Valid()
      modifies this, canvas.cells
      ensures Valid() && View() == Step(old(View()), Undo)
    {
      if |undo| == 0 {
        return;
      }
      ghost var s := View();
      var u := undo[|undo| - 1];
      undo := undo[..|undo| - 1];
      var i := |u|;
      assert u[..i] == u;
      while i > 0
        invariant 0 <= i <= |u| && Valid() && canvas == old(canvas)
        invariant undo == s.undo[..|s.undo| - 1] && fg == s.fg && bg == s.bg && dirty == s.dirty
        invariant Reverted(canvas.View(), u[..i]) == Reverted(s.grid, u)
        invariant i == |u| ==> cx == s.cx && cy == s.cy
        invariant i < |u| ==> cx == u[i].x && cy == u[i].y
      {
        i := i - 1;
        assert u[..i + 1][..i] == u[..i];
        var c := u[i];
        canvas.Set(c.x, c.y, c.prev);
        cx, cy := c.x, c.y;
      }
      dirty := true;
    }

    /** The two inner loops of stampTextGrid for one row. */
    method StampRow(row: seq<char>, x0: int, y: int, fg: Color, bg: Color, batch: UndoEntry, ghost g: Grid, ghost ws: seq<CellWrite>)
      returns (out: UndoEntry)
      requires Valid() && g.Valid() && canvas.View() == Applied(g, ws) && batch == Recorded(g, ws)
      modifies canvas.cells
      ensures Valid()
      ensures canvas.View() == Applied(g, ws + RowWrites(g, row, x0, y, fg, bg))
      ensures out == Recorded(g, ws + RowWrites(g, row, x0, y, fg, bg))
    {
      hide Applied, Recorded, RowWrites;
      out := batch;
      var x := 0;
      ghost var done := ws;
      RowWritesNothing(g, x0, y, fg, bg);
      assert row[..0] == [] && ws + [] == ws;
      while x < |row|
        invariant 0 <= x <= |row| && Valid()
        invariant done == ws + RowWrites(g, row[..x], x0, y, fg, bg)
        invariant canvas.View() == Applied(g, done) && out == Recorded(g, done)
      {
        var ch := row[x];
        RowWritesStep(g, row, x, x0, y, fg, bg);
        if ch != ' ' && 0 <= x0 + x < canvas.cols && 0 <= y < canvas.rows {
          var prev := canvas.Get(x0 + x, y);
          RecordedSnoc(g, done, CellWrite(x0 + x, y, Cell(ch, fg, bg)));
          out := out + [UndoCell(x0 + x, y, prev)];
          canvas.Set(x0 + x, y, Cell(ch, fg, bg));
          done := done + [CellWrite(x0 + x, y, Cell(ch, fg, bg))];
        }
        x := x + 1;
      }
      assert row[..x] == row;
    }

    method StampGrid(text: seq<seq<char>>, x0: int, y0: int, fg: Color, bg: Color, batch: UndoEntry, ghost g: Grid, ghost ws: seq<CellWrite>)
      returns (out: UndoEntry)
      requires Valid() && g.Valid() && canvas.View() == Applied(g, ws) && batch == Recorded(g, ws)
      modifies canvas.cells
      ensures Valid()
      ensures canvas.View() == Applied(g, ws + GridWrites(g, text, x0, y0, fg, bg))
      ensures out == Recorded(g, ws + GridWrites(g, text, x0, y0, fg, bg))
    {
      hide Applied, Recorded, RowWrites, GridWrites;
      out := batch;
      var y := 0;
      ghost var done := ws;
      GridWritesNothing(g, x0, y0, fg, bg);
      assert text[..0] == [] && ws + [] == ws;
      while y < |text|
        invariant 0 <= y <= |text| && Valid()
        invariant done == ws + GridWrites(g, text[..y], x0, y0, fg, bg)
        invariant canvas.View() == Applied(g, done) && out == Recorded(g, done)
      {
        GridWritesStep(g, text, y, x0, y0, fg, bg);
        out := StampRow(text[y], x0, y0 + y, fg, bg, out, g, done);
        done := done + RowWrites(g, text[y], x0, y0 + y, fg, bg);
        y := y + 1;
      }
      assert text[..y] == text;
    }

    /** Shadow, then text; the canvas is written and the batch of overwritten cells returned. */
    method StampBatch(text: seq<seq<char>>, shadow: bool) returns (batch: UndoEntry)
      requires Valid()
      modifies canvas.cells
      ensures Valid()
      ensures canvas.View() == Applied(old(canvas.View()), StampWrites(old(canvas.View()), text, shadow, cx, cy, fg, bg))
      ensures batch == Recorded(old(canvas.View()), StampWrites(old(canvas.View()), text, shadow, cx, cy, fg, bg))
    {
      hide GridWrites, Applied, Recorded;
      ghost var g := canvas.View();
      ghost var ws := if shadow then GridWrites(g, text, cx + 1, cy + 1, Classic(8), Classic(0)) else [];
      batch := [];
      AppliedNothing(g);
      if shadow {
        batch := StampGrid(text, cx + 1, cy + 1, Classic(8), Classic(0), batch, g, []);
        assert [] + ws == ws;
      }
      batch := StampGrid(text, cx, cy, fg, bg, batch, g, ws);
    }

    method StampTextGrid(text: seq<seq<char>>, shadow: bool) returns (n: nat)
      requires Valid()
      modifies this, canvas.cells
      ensures Valid() && View() == Step(old(View()), Stamp(text, shadow))
      ensures n == |StampWrites(old(View()).grid, text, shadow, old(cx), old(cy), old(fg), old(bg))|
      ensures forall x, y :: canvas.View().Get(x, y) ==
                             StampedCell(old(canvas.View()), text, shadow, old(cx), old(cy), old(fg), old(bg), x, y)
      ensures cx == old(cx) && cy == old(cy) && fg == old(fg) && bg == old(bg)
    {
      hide Applied, Recorded, StampWrites, StampedCell;
      var batch := StampBatch(text, shadow);
      RecordedSize(old(canvas.View()), StampWrites(old(canvas.View()), text, shadow, cx, cy, fg, bg));
      if |batch| > 0 {
        PushUndoBatch(batch);
        dirty := true;
      } else {
        AppliedNothing(old(canvas.View()));
      }
      n := |batch|;
      StampShows(old(canvas.View()), text, shadow, cx, cy, fg, bg);
    }

    /** Brings the cursor back inside the canvas. */
    method ClampCursor()
      requires Valid()
      modifies this`cx, this`cy
      ensures Valid() && cx == Max(0, Min(old(cx), canvas.cols - 1)) && cy == Max(0, Min(old(cy), canvas.rows - 1))
    {
      if cx >= canvas.cols {
        cx := canvas.cols - 1;
      }
      if cy >= canvas.rows {
        cy := canvas.rows - 1;
      }
      if cx < 0 {
        cx := 0;
      }
      if cy < 0 {
        cy := 0;
      }
    }

    method ResizeTo(newCols: int, newRows: int)
      requires Valid() && newCols >= 1 && newRows >= 1
      modifies this, canvas
      ensures Valid() && View() == Step(old(View()), Resize(newCols, newRows))
    {
      hide Resized;
      ResizedClamped(canvas.View(), newCols, newRows);
      var w := if newCols > MAX_COLS then MAX_COLS else newCols;
      var h := if newRows > MAX_ROWS then MAX_ROWS else newRows;
      if w == canvas.cols && h == canvas.rows {
        return;
      }
      canvas.Resize(w, h);
      ClampCursor();
      undo := [];
      dirty := true;
    }

    /** New, Open and Import put another canvas in place and clear the undo stack. */
    method ReplaceCanvas(c: Canvas, keepDirty: bool)
      requires Valid() && c.Valid()
      modifies this
      ensures Valid() && canvas == c
      ensures View() == Step(old(View()), Replace(c.View(), keepDirty))
    {
      canvas := c;
      cx, cy := 0, 0;
      undo := [];
      dirty := keepDirty;
    }

    method MoveCursor(key: Key)
      requires Valid()
      modifies this`cx, this`cy
      ensures Valid() && View() == Step(old(View()), Move(key))
      ensures match key
              case Up => cx == old(cx) && cy == (if old(cy) > 0 then old(cy) - 1 else old(cy))
              case Down => cx == old(cx) && cy == (if old(cy) + 1 < canvas.rows then old(cy) + 1 else old(cy))
              case Left => cx == (if old(cx) > 0 then old(cx) - 1 else old(cx)) && cy == old(cy)
              case Right => cx == (if old(cx) + 1 < canvas.cols then old(cx) + 1 else old(cx)) && cy == old(cy)
              case Home => cx == 0 && cy == old(cy)
              case End => cx == canvas.cols - 1 && cy == old(cy)
              case PageUp(n) => cx == old(cx) && cy == Max(0, old(cy) - n)
              case PageDown(n) => cx == old(cx) && cy == Min(canvas.rows - 1, old(cy) + n)
    {
      match key {
        case Up => if cy > 0 { cy := cy - 1; }
        case Down => if cy + 1 < canvas.rows { cy := cy + 1; }
        case Left => if cx > 0 { cx := cx - 1; }
        case Right => if cx + 1 < canvas.cols { cx := cx + 1; }
        case Home => cx := 0;
        case End => cx := canvas.cols - 1;
        case PageUp(rows) =>
          cy := cy - rows;
          if cy < 0 { cy := 0; }
        case PageDown(rows) =>
          cy := cy + rows;
          if cy >= canvas.rows { cy := canvas.rows - 1; }
      }
    }
  }
}
