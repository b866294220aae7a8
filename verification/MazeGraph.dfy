/** Passages of a maze as a graph: walks, distances, and what makes a perfect maze.

    The four direction bits of a cell are modelled as a set of directions, the cell grid as a map from
    coordinates to those sets. */
module MazeGraph {

  datatype Dir = N | S | E | W

  datatype Pt = Pt(x: int, y: int)

  function Go(p: Pt, d: Dir): Pt {
    match d
    case N => Pt(p.x, p.y - 1)
    case S => Pt(p.x, p.y + 1)
    case E => Pt(p.x + 1, p.y)
    case W => Pt(p.x - 1, p.y)
  }

  function Opposite(d: Dir): Dir {
    match d
    case N => S
    case S => N
    case E => W
    case W => E
  }

  type Passages = map<Pt, set<Dir>>

  function GridPoints(w: nat, h: nat): set<Pt> {
    set x, y | 0 <= x < w && 0 <= y < h :: Pt(x, y)
  }

  function RowPoints(w: nat, y: int): set<Pt> {
    set x | 0 <= x < w :: Pt(x, y)
  }

  lemma {:induction false} RowSize(w: nat, y: int)
    ensures |RowPoints(w, y)| == w
  {
    if w == 0 {
      assert RowPoints(w, y) == {};
    } else {
      RowSize(w - 1, y);
      assert RowPoints(w, y) == RowPoints(w - 1, y) + {Pt(w - 1, y)};
    }
  }

  lemma {:induction false} GridSize(w: nat, h: nat)
    ensures |GridPoints(w, h)| == w * h
    decreases h
  {
    if h == 0 {
      assert GridPoints(w, h) == {};
    } else {
      RowSize(w, h - 1);
      GridSize(w, h - 1);
      assert GridPoints(w, h) == GridPoints(w, h - 1) + RowPoints(w, h - 1);
      assert GridPoints(w, h - 1) !! RowPoints(w, h - 1);
      assert w * h == w * (h - 1) + w;
    }
  }

  /** Cell p is open in direction d. */
  predicate Open(g: Passages, p: Pt, d: Dir) {
    p in g && d in g[p]
  }

  predicate Edge(g: Passages, p: Pt, q: Pt) {
    exists d :: Open(g, p, d) && Go(p, d) == q
  }

  /** Every passage leads to a cell of the grid and is open from the other side too. */
  ghost predicate Symmetric(g: Passages) {
    forall p, d {:trigger Open(g, p, d)} :: Open(g, p, d) ==> Go(p, d) in g && Opposite(d) in g[Go(p, d)]
  }

  // ---------------------------------------------------------------- walks and distances

  ghost predicate IsWalk(g: Passages, walk: seq<Pt>) {
    walk != [] && walk[0] in g && forall i :: 0 <= i < |walk| - 1 ==> Edge(g, walk[i], walk[i + 1])
  }

  /** There is a walk of n steps from s to t. */
  ghost predicate HasWalk(g: Passages, s: Pt, t: Pt, n: nat) {
    exists walk: seq<Pt> :: IsWalk(g, walk) && |walk| == n + 1 && walk[0] == s && walk[n] == t
  }

  /** The shortest walk from s to t has n steps. */
  ghost predicate Distance(g: Passages, s: Pt, t: Pt, n: nat) {
    HasWalk(g, s, t, n) && forall k: nat :: HasWalk(g, s, t, k) ==> n <= k
  }

  lemma WalkStart(g: Passages, s: Pt)
    requires s in g
    ensures HasWalk(g, s, s, 0)
  {
    assert IsWalk(g, [s]);
  }

  lemma WalkOn(g: Passages, s: Pt, t: Pt, n: nat, q: Pt)
    requires HasWalk(g, s, t, n) && Edge(g, t, q)
    ensures HasWalk(g, s, q, n + 1)
  {
    var walk :| IsWalk(g, walk) && |walk| == n + 1 && walk[0] == s && walk[n] == t;
    var longer := walk + [q];
    forall i | 0 <= i < |longer| - 1 ensures Edge(g, longer[i], longer[i + 1]) {
    }
    assert IsWalk(g, longer);
  }

  lemma WalkBack(g: Passages, s: Pt, q: Pt, n: nat) returns (t: Pt)
    requires HasWalk(g, s, q, n + 1)
    ensures HasWalk(g, s, t, n) && Edge(g, t, q)
  {
    var walk :| IsWalk(g, walk) && |walk| == n + 2 && walk[0] == s && walk[n + 1] == q;
    t := walk[n];
    var shorter := walk[..n + 1];
    assert IsWalk(g, shorter);
    assert Edge(g, walk[n], walk[n + 1]);
  }

  lemma WalkNowhere(g: Passages, s: Pt, t: Pt)
    requires HasWalk(g, s, t, 0)
    ensures s == t && s in g
  {
  }

  // ---------------------------------------------------------------- perfect mazes

  /** A cycle: three or more distinct cells, each open to the next and the last to the first. */
  ghost predicate IsCycle(g: Passages, c: seq<Pt>) {
    && |c| >= 3
    && (forall i, j :: 0 <= i < j < |c| ==> c[i] != c[j])
    && (forall i :: 0 <= i < |c| - 1 ==> Edge(g, c[i], c[i + 1]))
    && Edge(g, c[|c| - 1], c[0])
  }

  /** The passages, each counted once: from its northern or western end. */
  function Once(g: Passages): set<(Pt, Dir)> {
    set p, d | p in g && d in g[p] && (d == S || d == E) :: (p, d)
  }

  /** A spanning tree of the w x h grid rooted at the origin. */
  ghost predicate PerfectMaze(g: Passages, w: nat, h: nat) {
    && g.Keys == GridPoints(w, h)
    && Symmetric(g)
    && (forall p :: p in g ==> exists n :: HasWalk(g, Pt(0, 0), p, n))
    && |Once(g)| == w * h - 1
    && (forall c :: !IsCycle(g, c))
  }

  // ---------------------------------------------------------------- carving

  /** The generator's state: carved passages, visited cells, the stack of open ends, and (ghost in the
      generator) the cell each visited cell was entered from and how deep it lies. */
  datatype Carving = Carving(g: Passages, visited: set<Pt>, stack: seq<Pt>, parent: map<Pt, Pt>, depth: map<Pt, nat>)

  function Carved(g: Passages, p: Pt, d: Dir): Passages
    requires p in g && Go(p, d) in g
  {
    var g' := g[p := g[p] + {d}];
    g'[Go(p, d) := g'[Go(p, d)] + {Opposite(d)}]
  }

  predicate Mirror(c: Carving, p: Pt, d: Dir) {
    p in c.visited && Go(p, d) in c.visited && Go(p, d) in c.g && Opposite(d) in c.g[Go(p, d)]
  }

  /** Passages join visited cells and are open from both sides. */
  ghost predicate Mirrored(c: Carving) {
    forall p, d {:trigger Open(c.g, p, d)} :: Open(c.g, p, d) ==> Mirror(c, p, d)
  }

  /** Every visited cell but the origin was entered through a passage from a cell one step less deep. */
  ghost predicate Rooted(c: Carving) {
    && c.parent.Keys == c.visited && c.depth.Keys == c.visited
    && forall p :: p in c.visited && p != Pt(0, 0) ==>
         c.parent[p] in c.visited && Edge(c.g, c.parent[p], p) && c.depth[p] == c.depth[c.parent[p]] + 1
  }

  /** q was entered from p. */
  predicate EnteredFrom(c: Carving, q: Pt, p: Pt) {
    q in c.parent && q != Pt(0, 0) && c.parent[q] == p
  }

  /** No passage but those the cells were entered through. */
  ghost predicate OnlyEntries(c: Carving) {
    forall p, d {:trigger Open(c.g, p, d)} :: Open(c.g, p, d) ==> EnteredFrom(c, p, Go(p, d)) || EnteredFrom(c, Go(p, d), p)
  }

  /** The tree part of the invariant. */
  ghost predicate TreeSoFar(c: Carving) {
    && Pt(0, 0) in c.visited && c.visited <= c.g.Keys
    && Mirrored(c) && Rooted(c) && OnlyEntries(c)
    && |Once(c.g)| == |c.visited| - 1
  }

  /** All neighbours of p inside the grid have been visited. */
  ghost predicate DeadEnd(c: Carving, p: Pt) {
    forall d :: Go(p, d) in c.g ==> Go(p, d) in c.visited
  }

  /** The search part: only cells on the stack can have unvisited neighbours. */
  ghost predicate Searching(c: Carving) {
    && (forall i :: 0 <= i < |c.stack| ==> c.stack[i] in c.visited)
    && (forall p :: p in c.visited && p !in c.stack ==> DeadEnd(c, p))
  }

  function Step(c: Carving, d: Dir): Carving
    requires c.stack != [] && c.stack[|c.stack| - 1] in c.g && Go(c.stack[|c.stack| - 1], d) in c.g
    requires c.stack[|c.stack| - 1] in c.depth
  {
    var p := c.stack[|c.stack| - 1];
    var q := Go(p, d);
    Carving(Carved(c.g, p, d), c.visited + {q}, c.stack + [q], c.parent[q := p], c.depth[q := c.depth[p] + 1])
  }

  lemma OnceGrows(g: Passages, p: Pt, d: Dir)
    requires p in g && Go(p, d) in g && d !in g[p] && Opposite(d) !in g[Go(p, d)]
    ensures |Once(Carved(g, p, d))| == |Once(g)| + 1
  {
    var q := Go(p, d);
    var added := if d == S || d == E then (p, d) else (q, Opposite(d));
    assert added !in Once(g);
    assert Once(Carved(g, p, d)) == Once(g) + {added};
  }

  /** The top of the stack has an unvisited neighbour in direction d. */
  ghost predicate CanCarve(c: Carving, d: Dir) {
    && TreeSoFar(c) && c.stack != [] && c.stack[|c.stack| - 1] in c.visited
    && c.stack[|c.stack| - 1] in c.g && c.stack[|c.stack| - 1] in c.depth
    && Go(c.stack[|c.stack| - 1], d) in c.g && Go(c.stack[|c.stack| - 1], d) !in c.visited
  }

  /** Nothing is open at an unvisited cell, nor towards it. */
  lemma FreshCell(c: Carving, d: Dir)
    requires CanCarve(c, d)
    ensures var p := c.stack[|c.stack| - 1];
            var q := Go(p, d);
      d !in c.g[p] && c.g[q] == {} && p != q
  {
    hide Rooted, OnlyEntries, Once;
    var p := c.stack[|c.stack| - 1];
    var q := Go(p, d);
    assert Open(c.g, p, d) ==> Mirror(c, p, d);
    forall e ensures e !in c.g[q] {
      assert Open(c.g, q, e) ==> Mirror(c, q, e);
    }
  }

  lemma CarvedPassages(c: Carving, d: Dir)
    requires CanCarve(c, d)
    ensures var p := c.stack[|c.stack| - 1];
            var q := Go(p, d);
            var g := Step(c, d).g;
      && d !in c.g[p] && c.g[q] == {} && g.Keys == c.g.Keys
      && forall r :: r in g ==> g[r] == if r == p then c.g[p] + {d} else if r == q then {Opposite(d)} else c.g[r]
  {
    FreshCell(c, d);
    hide TreeSoFar;
  }

  /** After a carving step: the old passages and the new one, seen from both sides. */
  lemma CarvedOpen(c: Carving, d: Dir, r: Pt, e: Dir)
    requires CanCarve(c, d)
    ensures var p := c.stack[|c.stack| - 1];
            var q := Go(p, d);
      && Go(q, Opposite(d)) == p
      && (Open(Step(c, d).g, r, e) <==> Open(c.g, r, e) || (r == p && e == d) || (r == q && e == Opposite(d)))
  {
    CarvedPassages(c, d);
  }

  lemma CarveMirror(c: Carving, d: Dir, r: Pt, e: Dir)
    requires CanCarve(c, d) && Open(Step(c, d).g, r, e)
    ensures Mirror(Step(c, d), r, e)
  {
    hide Rooted, OnlyEntries, Once;
    CarvedPassages(c, d);
    CarvedOpen(c, d, r, e);
    if Open(c.g, r, e) {
      assert Mirror(c, r, e);
    }
  }

  lemma CarveKeepsMirrored(c: Carving, d: Dir)
    requires CanCarve(c, d)
    ensures Mirrored(Step(c, d))
  {
    var n := Step(c, d);
    hide Mirror, Open, Step;
    forall r, e | Open(n.g, r, e) ensures Mirror(n, r, e) {
      CarveMirror(c, d, r, e);
    }
  }

  lemma EdgeStays(c: Carving, d: Dir, p: Pt, q: Pt)
    requires CanCarve(c, d) && Edge(c.g, p, q)
    ensures Edge(Step(c, d).g, p, q)
  {
    hide TreeSoFar;
    var e :| Open(c.g, p, e) && Go(p, e) == q;
    hide Open;
    CarvedOpen(c, d, p, e);
    assert Open(Step(c, d).g, p, e);
  }

  lemma NewEdge(c: Carving, d: Dir)
    requires CanCarve(c, d)
    ensures Edge(Step(c, d).g, c.stack[|c.stack| - 1], Go(c.stack[|c.stack| - 1], d))
  {
    CarvedOpen(c, d, c.stack[|c.stack| - 1], d);
    assert Open(Step(c, d).g, c.stack[|c.stack| - 1], d);
  }

  lemma CarveKeepsRooted(c: Carving, d: Dir)
    requires CanCarve(c, d)
    ensures Rooted(Step(c, d))
  {
    hide Mirrored, OnlyEntries, Once, Edge;
    var p := c.stack[|c.stack| - 1];
    var q := Go(p, d);
    var n := Step(c, d);
    NewEdge(c, d);
    hide Carved;
    forall r | r in n.visited && r != Pt(0, 0)
      ensures n.parent[r] in n.visited && Edge(n.g, n.parent[r], r) && n.depth[r] == n.depth[n.parent[r]] + 1
    {
      hide Step;
      if r == q {
        StepParent(c, d, q);
      } else {
        StepParent(c, d, r);
        EdgeStays(c, d, c.parent[r], r);
      }
    }
  }

  /** Who is entered from where, and how deep, after a step. */
  lemma StepParent(c: Carving, d: Dir, r: Pt)
    requires CanCarve(c, d)
    ensures var p := c.stack[|c.stack| - 1];
      var q, n := Go(p, d), Step(c, d);
      && p in n.visited && p in n.depth && q in n.parent && q in n.depth
      && (r == q ==> r in n.parent && r in n.depth && n.parent[r] == p && n.depth[r] == n.depth[p] + 1)
      && (r in c.visited ==> r != q && r in n.parent && r in n.depth && n.parent[r] == c.parent[r])
      && (r in c.visited && r != Pt(0, 0) ==>
            n.parent[r] in n.visited && n.parent[r] in n.depth && n.depth[r] == n.depth[n.parent[r]] + 1)
  {
    hide Mirrored, OnlyEntries, Once, Edge, Carved;
  }

  lemma CarveKeepsOnlyEntries(c: Carving, d: Dir)
    requires CanCarve(c, d)
    ensures OnlyEntries(Step(c, d))
  {
    hide Mirrored, Once, Open;
    var n := Step(c, d);
    forall r, e | Open(n.g, r, e) ensures EnteredFrom(n, r, Go(r, e)) || EnteredFrom(n, Go(r, e), r) {
      CarvedOpen(c, d, r, e);
      if Open(c.g, r, e) {
        assert EnteredFrom(c, r, Go(r, e)) || EnteredFrom(c, Go(r, e), r);
      }
    }
  }

  /** Carving into an unvisited neighbour keeps the tree. */
  lemma CarveKeepsTree(c: Carving, d: Dir)
    requires CanCarve(c, d)
    ensures TreeSoFar(Step(c, d))
  {
    hide Mirrored, Rooted, OnlyEntries, Once;
    CarvedPassages(c, d);
    CarveKeepsMirrored(c, d);
    CarveKeepsRooted(c, d);
    CarveKeepsOnlyEntries(c, d);
    OnceGrows(c.g, c.stack[|c.stack| - 1], d);
  }

  lemma CarveKeepsSearching(c: Carving, d: Dir)
    requires CanCarve(c, d) && Searching(c)
    ensures Searching(Step(c, d))
  {
    CarvedPassages(c, d);
    var n := Step(c, d);
    assert forall i :: 0 <= i < |c.stack| ==> n.stack[i] == c.stack[i];
    assert n.stack[|c.stack|] == Go(c.stack[|c.stack| - 1], d);
    forall r | r in n.visited && r !in n.stack ensures DeadEnd(n, r) {
      assert DeadEnd(c, r);
    }
  }

  /** What one carving step does to the state, and that it keeps both parts of the invariant. */
  lemma CarveTurn(c: Carving, d: Dir)
    requires CanCarve(c, d) && Searching(c)
    ensures var p := c.stack[|c.stack| - 1];
            var q := Go(p, d);
            var n := Step(c, d);
      && TreeSoFar(n) && Searching(n)
      && n.g == c.g[p := c.g[p] + {d}][q := c.g[p := c.g[p] + {d}][q] + {Opposite(d)}]
      && n.g.Keys == c.g.Keys && n.visited == c.visited + {q} && n.stack == c.stack + [q]
      && |c.g.Keys - n.visited| < |c.g.Keys - c.visited|
  {
    CarveKeepsTree(c, d);
    CarveKeepsSearching(c, d);
    var q := Go(c.stack[|c.stack| - 1], d);
    assert c.g.Keys - c.visited == (c.g.Keys - (c.visited + {q})) + {q};
  }

  /** Leaving a dead end keeps the invariant. */
  lemma PopTurn(c: Carving)
    requires TreeSoFar(c) && Searching(c) && c.stack != [] && DeadEnd(c, c.stack[|c.stack| - 1])
    ensures TreeSoFar(c.(stack := c.stack[..|c.stack| - 1])) && Searching(c.(stack := c.stack[..|c.stack| - 1]))
  {
    var n := c.(stack := c.stack[..|c.stack| - 1]);
    forall p | p in n.visited && p !in n.stack ensures DeadEnd(n, p) {
      if p in c.stack {
        assert p == c.stack[|c.stack| - 1];
      }
      assert DeadEnd(c, p);
    }
  }

  /** With the stack empty every cell of the grid has been visited. */
  lemma {:induction false} AllVisited(c: Carving, w: nat, h: nat, p: Pt)
    requires c.g.Keys == GridPoints(w, h) && Pt(0, 0) in c.visited && Searching(c) && c.stack == []
    requires p in c.g
    ensures p in c.visited
    decreases p.x + p.y
  {
    if p.x > 0 {
      AllVisited(c, w, h, Pt(p.x - 1, p.y));
      assert DeadEnd(c, Pt(p.x - 1, p.y));
      assert Go(Pt(p.x - 1, p.y), E) == p;
    } else if p.y > 0 {
      AllVisited(c, w, h, Pt(p.x, p.y - 1));
      assert DeadEnd(c, Pt(p.x, p.y - 1));
      assert Go(Pt(p.x, p.y - 1), S) == p;
    }
  }

  lemma {:induction false} WalkFromRoot(c: Carving, p: Pt)
    requires TreeSoFar(c) && p in c.visited
    ensures exists n :: HasWalk(c.g, Pt(0, 0), p, n)
    decreases c.depth[p]
  {
    if p == Pt(0, 0) {
      WalkStart(c.g, p);
    } else {
      WalkFromRoot(c, c.parent[p]);
      var n :| HasWalk(c.g, Pt(0, 0), c.parent[p], n);
      WalkOn(c.g, Pt(0, 0), c.parent[p], n, p);
    }
  }

  /** The deepest of the cells c[..k]. */
  lemma {:induction false} Deepest(depth: map<Pt, nat>, c: seq<Pt>, k: nat) returns (m: nat)
    requires 0 < k <= |c| && forall i :: 0 <= i < |c| ==> c[i] in depth
    ensures m < k && forall i :: 0 <= i < k ==> depth[c[i]] <= depth[c[m]]
  {
    if k == 1 {
      m := 0;
    } else {
      m := Deepest(depth, c, k - 1);
      if depth[c[m]] < depth[c[k - 1]] {
        m := k - 1;
      }
    }
  }

  /** From a deepest cell of a closed walk there is only the way back to its parent. */
  lemma OnlyToParent(c: Carving, p: Pt, q: Pt)
    requires TreeSoFar(c) && p in c.visited && q in c.visited && (Edge(c.g, p, q) || Edge(c.g, q, p))
    requires c.depth[q] <= c.depth[p]
    ensures p != Pt(0, 0) && q == c.parent[p]
  {
    if Edge(c.g, p, q) {
      var d :| Open(c.g, p, d) && Go(p, d) == q;
      assert EnteredFrom(c, p, q) || EnteredFrom(c, q, p);
    } else {
      var d :| Open(c.g, q, d) && Go(q, d) == p;
      assert EnteredFrom(c, q, p) || EnteredFrom(c, p, q);
    }
  }

  lemma InCycleVisited(c: Carving, cycle: seq<Pt>, i: nat)
    requires TreeSoFar(c) && IsCycle(c.g, cycle) && i < |cycle|
    ensures cycle[i] in c.visited
  {
    var q := if i == |cycle| - 1 then cycle[0] else cycle[i + 1];
    assert Edge(c.g, cycle[i], q);
    var d :| Open(c.g, cycle[i], d) && Go(cycle[i], d) == q;
  }

  lemma CycleEdges(g: Passages, cycle: seq<Pt>, m: nat, prev: nat, next: nat)
    requires IsCycle(g, cycle) && m < |cycle|
    requires prev == (if m == 0 then |cycle| - 1 else m - 1) && next == if m == |cycle| - 1 then 0 else m + 1
    ensures Edge(g, cycle[prev], cycle[m]) && Edge(g, cycle[m], cycle[next]) && cycle[prev] != cycle[next]
  {
  }

  lemma NoCycle(c: Carving, cycle: seq<Pt>)
    requires TreeSoFar(c)
    ensures !IsCycle(c.g, cycle)
  {
    hide Mirrored, OnlyEntries, Once;
    if IsCycle(c.g, cycle) {
      var n := |cycle|;
      forall i | 0 <= i < n ensures cycle[i] in c.visited {
        InCycleVisited(c, cycle, i);
      }
      var m := Deepest(c.depth, cycle, n);
      var prev, next := (if m == 0 then n - 1 else m - 1), if m == n - 1 then 0 else m + 1;
      CycleEdges(c.g, cycle, m, prev, next);
      OnlyToParent(c, cycle[m], cycle[prev]);
      OnlyToParent(c, cycle[m], cycle[next]);
      assert false;
    }
  }

  /** When the stack runs empty the carved passages form a perfect maze. */
  lemma CarvingDone(c: Carving, w: nat, h: nat)
    requires TreeSoFar(c) && Searching(c) && c.stack == [] && c.g.Keys == GridPoints(w, h)
    ensures PerfectMaze(c.g, w, h)
  {
    forall p | p in c.g ensures p in c.visited && exists n :: HasWalk(c.g, Pt(0, 0), p, n) {
      AllVisited(c, w, h, p);
      WalkFromRoot(c, p);
    }
    assert c.visited == c.g.Keys;
    GridSize(w, h);
    forall cycle ensures !IsCycle(c.g, cycle) {
      NoCycle(c, cycle);
    }
  }
}
