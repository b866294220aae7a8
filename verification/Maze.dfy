/** The maze object of MathMaze: generation with a depth-first backtracker and choice of the exit.

    The random generator is modelled as arbitrary choice. */
module MazeModel {
  import opened MazeGraph
  import opened MazeSearch
  import opened Text

  /** The three corners an exit may lie in, in the order they are tried. */
  function Corners(w: nat, h: nat): (c: seq<Pt>)
    ensures |c| == 3
  {
    [Pt(w - 1, h - 1), Pt(w - 1, 0), Pt(0, h - 1)]
  }

  lemma PerfectIsClosed(g: Passages, w: nat, h: nat)
    requires PerfectMaze(g, w, h)
    ensures Closed(g)
  {
  }

  /** In a perfect maze every cell lies at some distance from the origin. */
  lemma PerfectIsConnected(g: Passages, w: nat, h: nat, t: Pt)
    requires PerfectMaze(g, w, h) && t in g
    ensures exists n: nat :: HasWalk(g, Pt(0, 0), t, n)
  {
  }

  class Maze {
    var w: nat
    var h: nat
    var cells: Passages
    var start: Pt
    var end: Pt
    var solved: set<Pt>

    ghost predicate Valid()
      reads this
    {
      && w >= 5 && h >= 5 && PerfectMaze(cells, w, h)
      && start == Pt(0, 0) && end in Corners(w, h) && end in cells
      && start in solved && solved <= cells.Keys
    }

    /** The exit is the first corner at the greatest distance from the start. */
    ghost predicate ExitIsFarthest()
      reads this
    {
      exists b: nat :: b < 3 && end == Corners(w, h)[b] && FarthestCorner(cells, w, h, b)
    }

    /** The unvisited neighbours of a cell, as the generator collects them. */
    method UnvisitedNeighbours(cur: Pt, visited: set<Pt>) returns (ns: seq<Dir>)
      ensures forall d :: d in ns <==> (0 <= Go(cur, d).x < w && 0 <= Go(cur, d).y < h && Go(cur, d) !in visited)
    {
      ns := [];
      for i := 0 to 4
        invariant forall d :: d in ns <==>
                    (d in DIRS[..i] && 0 <= Go(cur, d).x < w && 0 <= Go(cur, d).y < h && Go(cur, d) !in visited)
      {
        var n := Go(cur, DIRS[i]);
        if 0 <= n.x < w && 0 <= n.y < h && n !in visited {
          ns := ns + [DIRS[i]];
        }
        assert DIRS[..i + 1] == DIRS[..i] + [DIRS[i]];
      }
      assert DIRS[..4] == DIRS;
      forall d: Dir ensures d in DIRS {
        assert d == DIRS[0] || d == DIRS[1] || d == DIRS[2] || d == DIRS[3];
      }
    }

    /** A random unvisited neighbour, if there is one. */
    method PickNeighbour(cur: Pt, visited: set<Pt>) returns (found: bool, d: Dir)
      ensures found ==> 0 <= Go(cur, d).x < w && 0 <= Go(cur, d).y < h && Go(cur, d) !in visited
      ensures !found ==> forall e :: 0 <= Go(cur, e).x < w && 0 <= Go(cur, e).y < h ==> Go(cur, e) in visited
    {
      var neighbours := UnvisitedNeighbours(cur, visited);
      if |neighbours| == 0 {
        found, d := false, N;
        forall e | 0 <= Go(cur, e).x < w && 0 <= Go(cur, e).y < h ensures Go(cur, e) in visited {
          assert e !in neighbours;
        }
        return;
      }
      var k: nat :| k < |neighbours|;
      found, d := true, neighbours[k];
      assert d in neighbours;
    }

    /** The backtracker: carves passages until no visited cell has an unvisited neighbour. */
    method Carve()
      requires w >= 1 && h >= 1 && cells == map p | p in GridPoints(w, h) :: {}
      modifies this`cells
      ensures PerfectMaze(cells, w, h)
    {
      hide TreeSoFar, Searching, PerfectMaze, Step, GridPoints, CanCarve;
      var stack := [Pt(0, 0)];
      var visited := {Pt(0, 0)};
      ghost var c := Carving(cells, visited, stack, map[Pt(0, 0) := Pt(0, 0)], map[Pt(0, 0) := 0]);
      CarvingStart(c, w, h);
      while |stack| > 0
        invariant c.g == cells && c.visited == visited && c.stack == stack
        invariant cells.Keys == GridPoints(w, h) && TreeSoFar(c) && Searching(c)
        decreases 2 * |cells.Keys - visited| + |stack|
      {
        var cur := stack[|stack| - 1];
        var found, d := PickNeighbour(cur, visited);
        if !found {
          PopStuck(c, w, h);
          stack := stack[..|stack| - 1];
          c := c.(stack := stack);
        } else {
          var n := Go(cur, d);
          CarveInto(c, w, h, d);
          cells := cells[cur := cells[cur] + {d}];
          cells := cells[n := cells[n] + {Opposite(d)}];
          visited := visited + {n};
          stack := stack + [n];
          c := Step(c, d);
        }
      }
      CarvingDone(c, w, h);
    }

    /** The loop over the corners: the first one at the greatest distance. */
    method ChooseExit() returns (best: nat)
      requires w >= 1 && h >= 1 && PerfectMaze(cells, w, h)
      ensures best < 3 && FarthestCorner(cells, w, h, best)
    {
      hide PerfectMaze, Distance, HasWalk;
      var corners := Corners(w, h);
      PerfectIsClosed(cells, w, h);
      OriginInGrid(cells, w, h);
      best := 0;
      var bestDist := -1;
      for i := 0 to 3
        invariant best < 3 && (i > 0 ==> best < i && bestDist >= 0)
        invariant i == 0 ==> bestDist == -1
        invariant i > 0 ==> Distance(cells, Pt(0, 0), corners[best], bestDist)
        invariant forall j :: 0 <= j < i ==> CornerWithin(cells, corners[j], bestDist)
        invariant forall j :: 0 <= j < best < i ==> CornerWithin(cells, corners[j], bestDist - 1)
      {
        var d := BfsDist(cells, Pt(0, 0), corners[i]);
        CornerReached(cells, w, h, i, d);
        assert CornerWithin(cells, corners[i], d);
        if d > bestDist {
          forall j | 0 <= j < i ensures CornerWithin(cells, corners[j], d) && CornerWithin(cells, corners[j], d - 1) {
            CornerWithinMore(cells, corners[j], bestDist, d - 1);
            CornerWithinMore(cells, corners[j], d - 1, d);
          }
          bestDist := d;
          best := i;
        } else {
          CornerWithinMore(cells, corners[i], d, bestDist);
        }
      }
    }

    /** Everything NewMaze does after the size is fixed. */
    method Generate()
      requires w >= 5 && h >= 5 && cells == map p | p in GridPoints(w, h) :: {}
      modifies this
      ensures w == old(w) && h == old(h) && Valid() && ExitIsFarthest() && solved == {start}
      ensures end == Pt(w - 1, h - 1) || end == Pt(w - 1, 0) || end == Pt(0, h - 1)
    {
      hide PerfectMaze, FarthestCorner;
      Carve();
      start := Pt(0, 0);
      var best := ChooseExit();
      end := Corners(w, h)[best];
      solved := {start};
      PerfectKeys(cells, w, h);
      OriginInGrid(cells, w, h);
    }

    constructor (width: int, height: int)
      ensures Valid() && ExitIsFarthest()
      ensures w == OddAtLeast5(width) && h == OddAtLeast5(height)
      ensures w == (if width < 5 then 5 else if width % 2 == 0 then width + 1 else width)
      ensures h == (if height < 5 then 5 else if height % 2 == 0 then height + 1 else height)
      ensures solved == {start} && start == Pt(0, 0)
      ensures end == Pt(w - 1, h - 1) || end == Pt(w - 1, 0) || end == Pt(0, h - 1)
    {
      hide PerfectMaze, FarthestCorner, GridPoints;
      var w, h := width, height;
      if w % 2 == 0 {
        w := w + 1;
      }
      if h % 2 == 0 {
        h := h + 1;
      }
      if w < 5 {
        w := 5;
      }
      if h < 5 {
        h := 5;
      }
      this.w, this.h := w, h;
      cells := map p | p in GridPoints(w, h) :: {};
      start, end := Pt(0, 0), Pt(0, 0);
      solved := {};
      new;
      Generate();
    }

    /** The cell reached by direction d, if open. */
    method Neighbor(p: Pt, d: Dir) returns (r: Option<Pt>)
      requires p in cells
      ensures r == if d in cells[p] && 0 <= Go(p, d).x < w && 0 <= Go(p, d).y < h then Some(Go(p, d)) else None
      ensures r.Some? ==> match d
                          case N => r.value == Pt(p.x, p.y - 1)
                          case S => r.value == Pt(p.x, p.y + 1)
                          case E => r.value == Pt(p.x + 1, p.y)
                          case W => r.value == Pt(p.x - 1, p.y)
    {
      if d !in cells[p] {
        return None;
      }
      var n := Go(p, d);
      if n.x < 0 || n.x >= w || n.y < 0 || n.y >= h {
        return None;
      }
      return Some(n);
    }

    method MarkSolved(p: Pt)
      modifies this`solved
      ensures solved == old(solved) + {p}
    {
      solved := solved + {p};
    }
  }

  function OddAtLeast5(n: int): nat {
    if n < 5 then 5 else if n % 2 == 0 then n + 1 else n
  }

  lemma PerfectKeys(g: Passages, w: nat, h: nat)
    requires PerfectMaze(g, w, h)
    ensures g.Keys == GridPoints(w, h)
  {
  }

  lemma OriginInGrid(g: Passages, w: nat, h: nat)
    requires PerfectMaze(g, w, h) && w >= 1 && h >= 1
    ensures Pt(0, 0) in g
  {
    assert Pt(0, 0) in GridPoints(w, h);
  }

  /** The corner c lies at most n steps from the origin. */
  ghost predicate CornerWithin(g: Passages, c: Pt, n: int) {
    exists d: nat :: d <= n && Distance(g, Pt(0, 0), c, d)
  }

  lemma CornerWithinMore(g: Passages, c: Pt, n: int, m: int)
    requires CornerWithin(g, c, n) && n <= m
    ensures CornerWithin(g, c, m)
  {
    var d: nat :| d <= n && Distance(g, Pt(0, 0), c, d);
    assert d <= m;
  }

  /** bfsDist never fails on a corner of a perfect maze. */
  lemma CornerReached(g: Passages, w: nat, h: nat, i: nat, d: int)
    requires PerfectMaze(g, w, h) && w >= 1 && h >= 1 && i < 3 && IsAnswer(g, Pt(0, 0), Corners(w, h)[i], d)
    ensures d >= 0 && Distance(g, Pt(0, 0), Corners(w, h)[i], d) && CornerWithin(g, Corners(w, h)[i], d)
  {
    var c := Corners(w, h)[i];
    assert c in GridPoints(w, h);
    PerfectIsConnected(g, w, h, c);
  }

  /** Corner b is reached, no corner lies farther away, and the ones tried before it lie nearer. */
  ghost predicate FarthestCorner(g: Passages, w: nat, h: nat, b: nat)
    requires b < 3
  {
    exists n: nat ::
      && Distance(g, Pt(0, 0), Corners(w, h)[b], n)
      && (forall j :: 0 <= j < 3 ==> CornerWithin(g, Corners(w, h)[j], n))
      && (forall j :: 0 <= j < b ==> CornerWithin(g, Corners(w, h)[j], n - 1))
  }

  lemma TopIsVisited(c: Carving)
    requires TreeSoFar(c) && Searching(c) && c.stack != []
    ensures c.stack[|c.stack| - 1] in c.visited && c.stack[|c.stack| - 1] in c.depth && c.visited <= c.g.Keys
  {
  }

  lemma InGrid(w: nat, h: nat, p: Pt)
    ensures p in GridPoints(w, h) <==> 0 <= p.x < w && 0 <= p.y < h
  {
  }

  lemma PopStuck(c: Carving, w: nat, h: nat)
    requires TreeSoFar(c) && Searching(c) && c.stack != [] && c.g.Keys == GridPoints(w, h)
    requires var cur := c.stack[|c.stack| - 1];
      forall e :: 0 <= Go(cur, e).x < w && 0 <= Go(cur, e).y < h ==> Go(cur, e) in c.visited
    ensures TreeSoFar(c.(stack := c.stack[..|c.stack| - 1])) && Searching(c.(stack := c.stack[..|c.stack| - 1]))
  {
    hide TreeSoFar, Searching, GridPoints;
    var cur := c.stack[|c.stack| - 1];
    forall e | Go(cur, e) in c.g ensures Go(cur, e) in c.visited {
      InGrid(w, h, Go(cur, e));
    }
    PopTurn(c);
  }

  lemma CarveInto(c: Carving, w: nat, h: nat, d: Dir)
    requires TreeSoFar(c) && Searching(c) && c.stack != [] && c.g.Keys == GridPoints(w, h)
    requires var cur := c.stack[|c.stack| - 1];
      0 <= Go(cur, d).x < w && 0 <= Go(cur, d).y < h && Go(cur, d) !in c.visited
    ensures CanCarve(c, d)
    ensures var p := c.stack[|c.stack| - 1];
            var q := Go(p, d);
            var n := Step(c, d);
      && p in c.g && q in c.g && p in c.depth
      && TreeSoFar(n) && Searching(n)
      && n.g == c.g[p := c.g[p] + {d}][q := c.g[p := c.g[p] + {d}][q] + {Opposite(d)}]
      && n.g.Keys == c.g.Keys && n.visited == c.visited + {q} && n.stack == c.stack + [q]
      && |c.g.Keys - n.visited| < |c.g.Keys - c.visited|
  {
    TopIsVisited(c);
    hide TreeSoFar, Searching, GridPoints;
    InGrid(w, h, Go(c.stack[|c.stack| - 1], d));
    CarveTurn(c, d);
  }

  lemma CarvingStart(c: Carving, w: nat, h: nat)
    requires w >= 1 && h >= 1 && c.g == map p | p in GridPoints(w, h) :: {}
    requires c.visited == {Pt(0, 0)} && c.stack == [Pt(0, 0)]
    requires c.parent.Keys == {Pt(0, 0)} && c.depth.Keys == {Pt(0, 0)}
    ensures TreeSoFar(c) && Searching(c)
  {
    assert Pt(0, 0) in GridPoints(w, h);
    assert Once(c.g) == {};
    assert c.stack[0] == Pt(0, 0);
  }
}
