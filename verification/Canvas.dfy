/** The art buffer of AnsiEdit: colours, cells, and the mutable canvas. */
module CanvasModel {

  const MAX_COLS: nat := 160
  const MAX_ROWS: nat := 200
  const DEF_COLS: nat := 80
  const DEF_ROWS: nat := 25

  type Byte = b: int | 0 <= b < 256

  /** A classic palette index or a 24-bit colour. */
  datatype Color = Classic(idx: Byte) | Truecolor(r: Byte, g: Byte, b: Byte) {
    predicate ValidFG() {
      Classic? ==> idx < 16
    }

    predicate ValidBG() {
      Classic? ==> idx < 8
    }
  }

  datatype Cell = Cell(ch: char, fg: Color, bg: Color) {
    /** What `Canvas.Set` stores: a zero rune becomes a space. */
    function Normal(): Cell {
      if ch == '\0' then this.(ch := ' ') else this
    }

    predicate Valid() {
      ch != '\0' && fg.ValidFG() && bg.ValidBG()
    }
  }

  const BLANK: Cell := Cell(' ', Classic(7), Classic(0))

  /** The abstract value of a canvas: its rows, each `cols` cells long. */
  datatype Grid = Grid(cols: nat, rows: seq<seq<Cell>>) {
    predicate Valid() {
      && 1 <= cols <= MAX_COLS && 1 <= |rows| <= MAX_ROWS
      && forall y :: 0 <= y < |rows| ==> |rows[y]| == cols
    }

    predicate InBounds(x: int, y: int) {
      0 <= x < cols && 0 <= y < |rows|
    }

    function Get(x: int, y: int): Cell
      requires Valid()
    {
      if InBounds(x, y) then rows[y][x] else BLANK
    }

    function Set(x: int, y: int, cell: Cell): (g: Grid)
      requires Valid()
      ensures g.Valid() && g.cols == cols && |g.rows| == |rows|
      ensures forall x', y' :: g.Get(x', y') == if InBounds(x, y) && x' == x && y' == y then cell.Normal() else Get(x', y')
    {
      if InBounds(x, y) then Grid(cols, rows[y := rows[y][x := cell.Normal()]]) else this
    }
  }

  function BlankGrid(cols: nat, rows: nat): (g: Grid)
    requires 1 <= cols <= MAX_COLS && 1 <= rows <= MAX_ROWS
    ensures g.Valid() && g.cols == cols && |g.rows| == rows
    ensures forall x, y :: g.Get(x, y) == BLANK
  {
    Grid(cols, seq(rows, _ => seq(cols, _ => BLANK)))
  }

  /** Two grids of one size that agree at every coordinate are equal. */
  lemma GridExtensional(a: Grid, b: Grid)
    requires a.Valid() && b.Valid() && a.cols == b.cols && |a.rows| == |b.rows|
    requires forall x, y :: a.Get(x, y) == b.Get(x, y)
    ensures a == b
  {
    forall y | 0 <= y < |a.rows| ensures a.rows[y] == b.rows[y] {
      forall x | 0 <= x < a.cols ensures a.rows[y][x] == b.rows[y][x] {
        assert a.Get(x, y) == b.Get(x, y);
      }
    }
  }

  function Min(a: int, b: int): int {
    if a < b then a else b
  }

  function Max(a: int, b: int): int {
    if a < b then b else a
  }

  /** A w x h grid holding the cells of g before (x, y) in row-major order, blank from there on. */
  function Copied(g: Grid, w: nat, h: nat, x: nat, y: nat): (r: Grid)
    requires g.Valid() && 1 <= w <= MAX_COLS && 1 <= h <= MAX_ROWS
    ensures r.Valid() && r.cols == w && |r.rows| == h
  {
    Grid(w, seq(h, j => seq(w, i => if j < y || (j == y && i < x) then g.Get(i, j).Normal() else BLANK)))
  }

  lemma CopyStart(g: Grid, w: nat, h: nat)
    requires g.Valid() && 1 <= w <= MAX_COLS && 1 <= h <= MAX_ROWS
    ensures BlankGrid(w, h) == Copied(g, w, h, 0, 0)
  {
    GridExtensional(BlankGrid(w, h), Copied(g, w, h, 0, 0));
  }

  lemma CopyCell(g: Grid, w: nat, h: nat, x: nat, y: nat)
    requires g.Valid() && 1 <= w <= MAX_COLS && 1 <= h <= MAX_ROWS && x < w && y < h
    ensures Copied(g, w, h, x, y).Set(x, y, g.Get(x, y)) == Copied(g, w, h, x + 1, y)
  {
    GridExtensional(Copied(g, w, h, x, y).Set(x, y, g.Get(x, y)), Copied(g, w, h, x + 1, y));
  }

  lemma CopyRowEnd(g: Grid, w: nat, h: nat, x: nat, y: nat)
    requires g.Valid() && 1 <= w <= MAX_COLS && 1 <= h <= MAX_ROWS && x >= Min(w, g.cols)
    ensures Copied(g, w, h, x, y) == Copied(g, w, h, 0, y + 1)
  {
    GridExtensional(Copied(g, w, h, x, y), Copied(g, w, h, 0, y + 1));
  }

  lemma CopyEnd(g: Grid, w: nat, h: nat, y: nat)
    requires g.Valid() && 1 <= w <= MAX_COLS && 1 <= h <= MAX_ROWS && y >= Min(h, |g.rows|)
    ensures Copied(g, w, h, 0, y) == Copied(g, w, h, 0, h)
  {
    GridExtensional(Copied(g, w, h, 0, y), Copied(g, w, h, 0, h));
  }

  /** Resizing keeps the common top-left part and fills the rest with blanks. */
  function Resized(g: Grid, cols: int, rows: int): (r: Grid)
    requires g.Valid()
    ensures r.Valid() && r.cols == Min(MAX_COLS, Max(1, cols)) && |r.rows| == Min(MAX_ROWS, Max(1, rows))
    ensures forall x, y :: r.Get(x, y) == if r.InBounds(x, y) then g.Get(x, y).Normal() else BLANK
  {
    var h := Min(MAX_ROWS, Max(1, rows));
    Copied(g, Min(MAX_COLS, Max(1, cols)), h, 0, h)
  }

  /** The row-major position of (x, y). */
  function Idx(cols: nat, x: nat, y: nat): int {
    y * cols + x
  }

  function Area(cols: nat, rows: nat): nat {
    cols * rows
  }

  /** Row-major positions of distinct cells differ and lie inside the buffer. */
  lemma RowMajor(cols: nat, rows: nat, x: nat, y: nat, x': nat, y': nat)
    requires x < cols && x' < cols && y < rows && y' < rows
    ensures 0 <= Idx(cols, x, y) < Area(cols, rows)
    ensures Idx(cols, x, y) == Idx(cols, x', y') ==> x == x' && y == y'
  {
    assert (y + 1) * cols <= rows * cols;
    if y < y' {
      assert (y + 1) * cols <= y' * cols;
    } else if y' < y {
      assert (y' + 1) * cols <= y * cols;
    }
  }

  lemma RowMajorBound(cols: nat, rows: nat, x: nat, y: nat)
    requires x < cols && y < rows
    ensures 0 <= Idx(cols, x, y) < Area(cols, rows)
  {
    RowMajor(cols, rows, x, y, x, y);
  }

  /** The cell of a row-major buffer at (x, y). */
  ghost function At(flat: seq<Cell>, cols: nat, rows: nat, x: nat, y: nat): Cell
    requires |flat| == Area(cols, rows) && x < cols && y < rows
  {
    RowMajorBound(cols, rows, x, y);
    flat[Idx(cols, x, y)]
  }

  /** The cells of a row-major buffer, row by row. */
  ghost function RowsOf(flat: seq<Cell>, cols: nat, rows: nat): (g: seq<seq<Cell>>)
    requires |flat| == Area(cols, rows)
  {
    seq(rows, y requires 0 <= y < rows => seq(cols, x requires 0 <= x < cols => At(flat, cols, rows, x, y)))
  }

  lemma WriteOne(flat: seq<Cell>, cols: nat, rows: nat, x: nat, y: nat, cell: Cell, x': nat, y': nat)
    requires |flat| == Area(cols, rows) && x < cols && y < rows && x' < cols && y' < rows
    ensures 0 <= Idx(cols, x, y) < |flat|
    ensures At(flat[Idx(cols, x, y) := cell], cols, rows, x', y') == if x' == x && y' == y then cell else At(flat, cols, rows, x', y')
  {
    RowMajor(cols, rows, x, y, x', y');
    RowMajorBound(cols, rows, x', y');
  }

  ghost function GridOf(flat: seq<Cell>, cols: nat, rows: nat): (g: Grid)
    requires 1 <= cols <= MAX_COLS && 1 <= rows <= MAX_ROWS && |flat| == Area(cols, rows)
    ensures g.Valid() && g.cols == cols && |g.rows| == rows
  {
    Grid(cols, RowsOf(flat, cols, rows))
  }

  /** Writing one buffer position changes exactly the cell it stands for. */
  lemma WriteAt(flat: seq<Cell>, cols: nat, rows: nat, x: nat, y: nat, i: nat, cell: Cell)
    requires 1 <= cols <= MAX_COLS && 1 <= rows <= MAX_ROWS && |flat| == Area(cols, rows)
    requires x < cols && y < rows && i == Idx(cols, x, y) && i < |flat|
    ensures GridOf(flat[i := cell.Normal()], cols, rows) == GridOf(flat, cols, rows).Set(x, y, cell)
  {
    var after := RowsOf(flat[i := cell.Normal()], cols, rows);
    var expected := GridOf(flat, cols, rows).Set(x, y, cell).rows;
    forall y' | 0 <= y' < rows ensures after[y'] == expected[y'] {
      forall x' | 0 <= x' < cols ensures after[y'][x'] == expected[y'][x'] {
        WriteOne(flat, cols, rows, x, y, cell.Normal(), x', y');
      }
    }
  }

  class Canvas {
    var cols: nat
    var rows: nat
    var cells: array<Cell>  // row-major

    ghost predicate Valid()
      reads this, cells
    {
      1 <= cols <= MAX_COLS && 1 <= rows <= MAX_ROWS && cells.Length == Area(cols, rows)
    }

    ghost function View(): (g: Grid)
      requires Valid()
      reads this, cells
      ensures g.Valid() && g.cols == cols && |g.rows| == rows
    {
      GridOf(cells[..], cols, rows)
    }

    constructor (cols: int, rows: int)
      ensures Valid() && fresh(cells)
      ensures View() == BlankGrid(if cols < 1 then DEF_COLS else Min(cols, MAX_COLS),
                                  if rows < 1 then DEF_ROWS else Min(rows, MAX_ROWS))
    {
      var w := if cols < 1 then DEF_COLS else Min(cols, MAX_COLS);
      var h := if rows < 1 then DEF_ROWS else Min(rows, MAX_ROWS);
      this.cols, this.rows := w, h;
      cells := new Cell[Area(w, h)](_ => BLANK);
      new;
      forall x: nat, y: nat | x < w && y < h ensures At(cells[..], w, h, x, y) == BLANK {
        RowMajorBound(w, h, x, y);
      }
      GridExtensional(View(), BlankGrid(w, h));
    }

    method Get(x: int, y: int) returns (cell: Cell)
      requires Valid()
      ensures cell == View().Get(x, y)
    {
      if 0 <= x < cols && 0 <= y < rows {
        RowMajorBound(cols, rows, x, y);
        cell := cells[Idx(cols, x, y)];
        assert cell == At(cells[..], cols, rows, x, y);
      } else {
        cell := BLANK;
      }
    }

    method Set(x: int, y: int, cell: Cell)
      requires Valid()
      modifies cells
      ensures Valid() && View() == old(View()).Set(x, y, cell)
    {
      if 0 <= x < cols && 0 <= y < rows {
        ghost var before := cells[..];
        RowMajorBound(cols, rows, x, y);
        var i := Idx(cols, x, y);
        WriteAt(before, cols, rows, x, y, i, cell);
        cells[i] := cell.Normal();
        assert cells[..] == before[i := cell.Normal()];
      }
    }

    /** The two copying loops of Resize, the inner one first. */
    method CopyRow(n: Canvas, y: nat)
      requires Valid() && n.Valid() && n.cells != cells && y < n.rows && y < rows
      requires n.View() == Copied(View(), n.cols, n.rows, 0, y)
      modifies n.cells
      ensures n.Valid() && n.View() == Copied(View(), n.cols, n.rows, 0, y + 1)
    {
      hide Copied;
      ghost var source := View();
      var x := 0;
      while x < n.cols && x < cols
        invariant 0 <= x <= n.cols && x <= cols
        invariant Valid() && View() == source
        invariant n.Valid() && n.View() == Copied(source, n.cols, n.rows, x, y)
      {
        var cell := Get(x, y);
        n.Set(x, y, cell);
        CopyCell(source, n.cols, n.rows, x, y);
        x := x + 1;
      }
      CopyRowEnd(source, n.cols, n.rows, x, y);
    }

    method CopyInto(n: Canvas)
      requires Valid() && n.Valid() && n.cells != cells && n.View() == BlankGrid(n.cols, n.rows)
      modifies n.cells
      ensures n.Valid() && n.View() == Copied(View(), n.cols, n.rows, 0, n.rows)
    {
      ghost var source := View();
      CopyStart(source, n.cols, n.rows);
      var y := 0;
      while y < n.rows && y < rows
        invariant 0 <= y <= n.rows && y <= rows
        invariant Valid() && View() == source
        invariant n.Valid() && n.View() == Copied(source, n.cols, n.rows, 0, y)
      {
        CopyRow(n, y);
        y := y + 1;
      }
      CopyEnd(source, n.cols, n.rows, y);
    }

    method Resize(newCols: int, newRows: int)
      requires Valid()
      modifies this
      ensures Valid() && fresh(cells)
      ensures View() == Resized(old(View()), newCols, newRows)
    {
      var w := Min(MAX_COLS, Max(1, newCols));
      var h := Min(MAX_ROWS, Max(1, newRows));
      var n := new Canvas(w, h);
      CopyInto(n);
      cols, rows, cells := n.cols, n.rows, n.cells;
    }
  }
}
