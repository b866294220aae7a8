/** bfsDist: breadth-first search over the open passages. */
module MazeSearch {
  import opened MazeGraph

  const DIRS: seq<Dir> := [N, S, E, W]

  datatype QueueNode = QueueNode(p: Pt, d: nat)

  /** No passage leaves the grid. */
  ghost predicate Closed(g: Passages) {
    forall p, d {:trigger Open(g, p, d)} :: Open(g, p, d) ==> Go(p, d) in g
  }

  /** The state of a search from s: the queue, the cells seen with the distance they were seen at, and the
      cells already taken from the queue. */
  datatype Search = Search(q: seq<QueueNode>, dist: map<Pt, nat>, done: set<Pt>)

  ghost predicate Sound(g: Passages, s: Pt, f: Search) {
    && s in f.dist && f.dist[s] == 0 && f.dist.Keys <= g.Keys
    && forall p :: p in f.dist ==> HasWalk(g, s, p, f.dist[p])
  }

  predicate InQueue(q: seq<QueueNode>, p: Pt) {
    exists i :: 0 <= i < |q| && q[i].p == p
  }

  /** Queue nodes are distinct seen cells, nearest first, over at most two distances. */
  ghost predicate Ordered(f: Search) {
    && f.done <= f.dist.Keys
    && (forall i :: 0 <= i < |f.q| ==> f.q[i].p in f.dist && f.q[i].p !in f.done && f.dist[f.q[i].p] == f.q[i].d)
    && (forall i, j :: 0 <= i < j < |f.q| ==> f.q[i].p != f.q[j].p && f.q[i].d <= f.q[j].d)
    && (forall i :: 0 <= i < |f.q| ==> f.q[i].d <= f.q[0].d + 1)
    && (forall p :: p in f.done && f.q != [] ==> f.dist[p] <= f.q[0].d)
  }

  /** The queue holds exactly the cells seen and not yet done. */
  ghost predicate Queued(f: Search) {
    Ordered(f) && forall p :: p in f.dist && p !in f.done ==> InQueue(f.q, p)
  }

  /** All neighbours of p have been seen, at most one step further away. */
  ghost predicate Spread(g: Passages, f: Search, p: Pt)
    requires p in f.dist
  {
    forall q :: Edge(g, p, q) ==> q in f.dist && f.dist[q] <= f.dist[p] + 1
  }

  ghost predicate Exploring(g: Passages, s: Pt, f: Search) {
    Sound(g, s, f) && Queued(f) && forall p :: p in f.done ==> Spread(g, f, p)
  }

  /** A walk either ends in a done cell it could not reach sooner, or is at least as long as the front. */
  lemma {:induction false} NoShortcut(g: Passages, s: Pt, f: Search, v: Pt, n: nat)
    requires Exploring(g, s, f) && HasWalk(g, s, v, n)
    ensures (v in f.done && f.dist[v] <= n) || (f.q != [] && n >= f.q[0].d)
    decreases n
  {
    if n == 0 {
      WalkNowhere(g, s, v);
    } else {
      var u := WalkBack(g, s, v, n - 1);
      NoShortcut(g, s, f, u, n - 1);
      if u in f.done && f.dist[u] <= n - 1 {
        assert Spread(g, f, u);
        assert v in f.dist && f.dist[v] <= n;
      }
    }
  }

  /** One neighbour of the cell at the front: seen for the first time, or skipped. */
  function Visit(f: Search, q: Pt, d: nat): Search {
    if q in f.dist then f else f.(q := f.q + [QueueNode(q, d)], dist := f.dist[q := d])
  }

  /** The queue reaches at most one step beyond the cell that is being expanded. */
  ghost predicate Near(f: Search, cur: QueueNode) {
    && cur.p in f.done && cur.p in f.dist && f.dist[cur.p] == cur.d
    && (forall i :: 0 <= i < |f.q| ==> cur.d <= f.q[i].d <= cur.d + 1)
    && (forall p :: p in f.done ==> p in f.dist && f.dist[p] <= cur.d)
  }

  ghost predicate OthersSpread(g: Passages, f: Search, cur: QueueNode) {
    forall p :: p in f.done && p != cur.p ==> p in f.dist && Spread(g, f, p)
  }

  predicate NeighbourSeen(f: Search, cur: QueueNode, d: Dir) {
    Go(cur.p, d) in f.dist && f.dist[Go(cur.p, d)] <= cur.d + 1
  }

  /** While the front cell `cur` is being expanded: it is done, its neighbours in DIRS[..k] have been seen. */
  ghost predicate Expanding(g: Passages, s: Pt, f: Search, cur: QueueNode, k: nat)
    requires k <= 4
  {
    && Sound(g, s, f) && Queued(f) && Near(f, cur) && OthersSpread(g, f, cur)
    && (forall i :: 0 <= i < k && Open(g, cur.p, DIRS[i]) ==> NeighbourSeen(f, cur, DIRS[i]))
  }

  /** The search after the front cell has been taken from the queue. */
  function Taken(f: Search): Search
    requires f.q != []
  {
    f.(q := f.q[1..], done := f.done + {f.q[0].p})
  }

  lemma TakenOrdered(f: Search)
    requires Ordered(f) && f.q != []
    ensures Ordered(Taken(f)) && Near(Taken(f), f.q[0])
  {
    var n := Taken(f);
    assert forall i :: 0 <= i < |n.q| ==> n.q[i] == f.q[i + 1];
  }

  lemma TakenQueued(f: Search)
    requires Queued(f) && f.q != []
    ensures Queued(Taken(f)) && Near(Taken(f), f.q[0])
  {
    var n := Taken(f);
    TakenOrdered(f);
    hide Ordered, Near;
    forall p | p in n.dist && p !in n.done ensures InQueue(n.q, p) {
      var i :| 0 <= i < |f.q| && f.q[i].p == p;
      assert n.q[i - 1].p == p;
    }
  }

  lemma TakeFront(g: Passages, s: Pt, f: Search)
    requires Exploring(g, s, f) && f.q != []
    ensures Expanding(g, s, Taken(f), f.q[0], 0)
  {
    TakenQueued(f);
    var n := Taken(f);
    forall p | p in n.done && p != f.q[0].p ensures p in n.dist && Spread(g, n, p) {
      assert Spread(g, f, p);
    }
  }

  lemma VisitKeepsOrdered(f: Search, cur: QueueNode, q: Pt)
    requires Ordered(f) && Near(f, cur)
    ensures Ordered(Visit(f, q, cur.d + 1)) && Near(Visit(f, q, cur.d + 1), cur)
  {
    if q !in f.dist {
      var n := Visit(f, q, cur.d + 1);
      assert forall i :: 0 <= i < |f.q| ==> n.q[i] == f.q[i];
      assert n.q[|f.q|] == QueueNode(q, cur.d + 1);
    }
  }

  lemma VisitKeepsQueued(f: Search, cur: QueueNode, q: Pt)
    requires Queued(f) && Near(f, cur)
    ensures Queued(Visit(f, q, cur.d + 1)) && Near(Visit(f, q, cur.d + 1), cur)
  {
    VisitKeepsOrdered(f, cur, q);
    var n := Visit(f, q, cur.d + 1);
    hide Ordered, Near;
    if q !in f.dist {
      forall p | p in n.dist && p !in n.done ensures InQueue(n.q, p) {
        if p == q {
          assert n.q[|f.q|].p == p;
        } else {
          var i :| 0 <= i < |f.q| && f.q[i].p == p;
          assert n.q[i].p == p;
        }
      }
    }
  }

  lemma VisitKeepsSound(g: Passages, s: Pt, f: Search, cur: QueueNode, d: Dir)
    requires Closed(g) && Sound(g, s, f) && Near(f, cur) && Open(g, cur.p, d)
    ensures Sound(g, s, Visit(f, Go(cur.p, d), cur.d + 1))
  {
    hide HasWalk;
    assert Edge(g, cur.p, Go(cur.p, d));
    WalkOn(g, s, cur.p, cur.d, Go(cur.p, d));
  }

  lemma VisitKeepsOthers(g: Passages, f: Search, cur: QueueNode, q: Pt)
    requires OthersSpread(g, f, cur)
    ensures OthersSpread(g, Visit(f, q, cur.d + 1), cur)
  {
    var n := Visit(f, q, cur.d + 1);
    forall p | p in n.done && p != cur.p ensures p in n.dist && Spread(g, n, p) {
      assert Spread(g, f, p);
    }
  }

  lemma VisitKeepsExpanding(g: Passages, s: Pt, f: Search, cur: QueueNode, k: nat)
    requires k < 4 && Closed(g) && Expanding(g, s, f, cur, k) && Open(g, cur.p, DIRS[k])
    ensures Expanding(g, s, Visit(f, Go(cur.p, DIRS[k]), cur.d + 1), cur, k + 1)
  {
    var q := Go(cur.p, DIRS[k]);
    var n := Visit(f, q, cur.d + 1);
    VisitKeepsSound(g, s, f, cur, DIRS[k]);
    VisitKeepsQueued(f, cur, q);
    VisitKeepsOthers(g, f, cur, q);
    hide Sound, Ordered, Near, OthersSpread, Open, NeighbourSeen, Visit, Spread;
    forall i | 0 <= i < k + 1 && Open(g, cur.p, DIRS[i]) ensures NeighbourSeen(n, cur, DIRS[i]) {
      if i == k {
        VisitSees(f, cur, DIRS[k]);
      } else {
        StaysSeen(f, cur, q, DIRS[i]);
      }
    }
  }

  lemma StaysSeen(f: Search, cur: QueueNode, q: Pt, d: Dir)
    requires NeighbourSeen(f, cur, d)
    ensures NeighbourSeen(Visit(f, q, cur.d + 1), cur, d)
  {
  }

  lemma VisitSees(f: Search, cur: QueueNode, d: Dir)
    requires Queued(f) && Near(f, cur)
    ensures NeighbourSeen(Visit(f, Go(cur.p, d), cur.d + 1), cur, d)
  {
    var q := Go(cur.p, d);
    if q in f.dist && q !in f.done {
      var i :| 0 <= i < |f.q| && f.q[i].p == q;
      assert f.q[i].d <= cur.d + 1;
    }
  }

  lemma SkipKeepsExpanding(g: Passages, s: Pt, f: Search, cur: QueueNode, k: nat)
    requires k < 4 && Expanding(g, s, f, cur, k) && !Open(g, cur.p, DIRS[k])
    ensures Expanding(g, s, f, cur, k + 1)
  {
  }

  lemma AllDirections(g: Passages, s: Pt, f: Search, cur: QueueNode)
    requires Expanding(g, s, f, cur, 4)
    ensures Exploring(g, s, f)
  {
    forall q | Edge(g, cur.p, q) ensures q in f.dist && f.dist[q] <= cur.d + 1 {
      var d :| Open(g, cur.p, d) && Go(cur.p, d) == q;
      assert d == DIRS[0] || d == DIRS[1] || d == DIRS[2] || d == DIRS[3];
      assert NeighbourSeen(f, cur, d);
    }
    assert Spread(g, f, cur.p);
  }

  /** The length of a shortest open path, or -1 exactly when there is none. */
  ghost predicate IsAnswer(g: Passages, s: Pt, t: Pt, d: int) {
    if d < 0 then d == -1 && forall n: nat :: !HasWalk(g, s, t, n) else Distance(g, s, t, d)
  }

  lemma FoundTarget(g: Passages, s: Pt, f: Search)
    requires Exploring(g, s, f) && f.q != []
    ensures Distance(g, s, f.q[0].p, f.q[0].d)
  {
    forall n: nat | HasWalk(g, s, f.q[0].p, n) ensures f.q[0].d <= n {
      NoShortcut(g, s, f, f.q[0].p, n);
    }
  }

  lemma FrontIsNew(g: Passages, s: Pt, f: Search)
    requires Exploring(g, s, f) && f.q != []
    ensures f.q[0].p in g && f.q[0].p !in f.done && f.done <= g.Keys
  {
  }

  lemma SearchStart(g: Passages, s: Pt)
    requires s in g
    ensures Exploring(g, s, Search([QueueNode(s, 0)], map[s := 0], {}))
  {
    WalkStart(g, s);
    var f := Search([QueueNode(s, 0)], map[s := 0], {});
    assert f.q[0].p == s;
  }

  lemma NoWalkLeft(g: Passages, s: Pt, f: Search, t: Pt)
    requires Exploring(g, s, f) && f.q == [] && t !in f.done
    ensures forall n: nat :: !HasWalk(g, s, t, n)
  {
    forall n: nat ensures !HasWalk(g, s, t, n) {
      if HasWalk(g, s, t, n) {
        NoShortcut(g, s, f, t, n);
      }
    }
  }

  method BfsDist(g: Passages, s: Pt, t: Pt) returns (d: int)
    requires Closed(g) && s in g
    ensures IsAnswer(g, s, t, d)
  {
    hide Closed, Exploring, Expanding, HasWalk, Distance;
    var q := [QueueNode(s, 0)];
    var seen := {s};
    ghost var f := Search(q, map[s := 0], {});
    SearchStart(g, s);
    while |q| > 0
      invariant q == f.q && seen == f.dist.Keys && Exploring(g, s, f) && t !in f.done
      decreases g.Keys - f.done
    {
      var cur := q[0];
      FrontIsNew(g, s, f);
      if cur.p == t {
        FoundTarget(g, s, f);
        return cur.d;
      }
      TakeFront(g, s, f);
      ghost var before := f.done;
      q := q[1..];
      f := Taken(f);
      for k := 0 to 4
        invariant q == f.q && seen == f.dist.Keys && Expanding(g, s, f, cur, k)
        invariant f.done == before + {cur.p}
      {
        if DIRS[k] !in g[cur.p] {
          SkipKeepsExpanding(g, s, f, cur, k);
          continue;
        }
        var next := Go(cur.p, DIRS[k]);
        VisitKeepsExpanding(g, s, f, cur, k);
        f := Visit(f, next, cur.d + 1);
        if next in seen {
          continue;
        }
        seen := seen + {next};
        q := q + [QueueNode(next, cur.d + 1)];
      }
      AllDirections(g, s, f, cur);
    }
    NoWalkLeft(g, s, f, t);
    return -1;
  }
}
