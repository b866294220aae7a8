/** One MathMaze session: moving, answering questions, finishing levels, and the score that is recorded.

    The key presses are a queue; an empty queue stands for a disconnect. Drawing, messages and the score file
    are left out. */
module MathGame {
  import opened MazeGraph
  import opened MazeModel
  import opened Text
  import opened MathQuestions

  datatype Key = Arrow(dir: Dir) | Digit(n: nat) | Quit | Other

  /** What `finish` hands to the score store. */
  datatype Record = Record(levelScores: map<int, int>, maxLevel: nat, overall: int)

  // ---------------------------------------------------------------- scores

  /** The score stored for a level; a level without one counts 0. */
  function Scored(scores: map<int, int>, level: int): int {
    if level in scores then scores[level] else 0
  }

  /** The sum of the scores of levels 1 .. n. */
  function Total(scores: map<int, int>, n: nat): int {
    if n == 0 then 0 else Total(scores, n - 1) + Scored(scores, n)
  }

  /** What a wrong answer costs: 2 points, or what there is. */
  function Penalty(score: int): int {
    if score < 2 then score else 2
  }

  lemma {:induction false} TotalUnchanged(scores: map<int, int>, n: nat, level: int, score: int)
    requires level > n
    ensures Total(scores[level := score], n) == Total(scores, n)
  {
    if n > 0 {
      TotalUnchanged(scores, n - 1, level, score);
    }
  }

  /** Levels 1 .. n have been finished, none with a negative score. */
  ghost predicate Finished(scores: map<int, int>, n: nat) {
    (forall k :: k in scores <==> 1 <= k <= n) && forall k :: k in scores ==> scores[k] >= 0
  }

  // ---------------------------------------------------------------- solved rooms

  ghost predicate WalkInside(g: Passages, rooms: set<Pt>, walk: seq<Pt>) {
    IsWalk(g, walk) && forall i :: 0 <= i < |walk| ==> walk[i] in rooms
  }

  ghost predicate ReachedInside(g: Passages, rooms: set<Pt>, s: Pt, p: Pt) {
    exists walk: seq<Pt> :: WalkInside(g, rooms, walk) && walk[0] == s && walk[|walk| - 1] == p
  }

  /** Every solved room can be reached from the start through solved rooms. */
  ghost predicate Explored(g: Passages, rooms: set<Pt>, s: Pt) {
    s in rooms && forall p :: p in rooms ==> ReachedInside(g, rooms, s, p)
  }

  lemma StaysReached(g: Passages, rooms: set<Pt>, s: Pt, p: Pt, q: Pt)
    requires ReachedInside(g, rooms, s, p)
    ensures ReachedInside(g, rooms + {q}, s, p)
  {
    var walk :| WalkInside(g, rooms, walk) && walk[0] == s && walk[|walk| - 1] == p;
    assert WalkInside(g, rooms + {q}, walk);
  }

  /** Solving a room next to a solved one keeps the solved rooms connected. */
  lemma SolveNeighbour(g: Passages, rooms: set<Pt>, s: Pt, p: Pt, q: Pt)
    requires Explored(g, rooms, s) && p in rooms && Edge(g, p, q)
    ensures Explored(g, rooms + {q}, s)
  {
    hide WalkInside, Edge;
    forall r | r in rooms + {q} ensures ReachedInside(g, rooms + {q}, s, r) {
      if r in rooms {
        StaysReached(g, rooms, s, r, q);
      } else {
        ReachedInto(g, rooms, s, p, q);
      }
    }
  }

  lemma ReachedInto(g: Passages, rooms: set<Pt>, s: Pt, p: Pt, q: Pt)
    requires ReachedInside(g, rooms, s, p) && Edge(g, p, q)
    ensures ReachedInside(g, rooms + {q}, s, q)
  {
    var walk :| WalkInside(g, rooms, walk) && walk[0] == s && walk[|walk| - 1] == p;
    var longer := walk + [q];
    forall i | 0 <= i < |longer| - 1 ensures Edge(g, longer[i], longer[i + 1]) {
      if i == |walk| - 1 {
        assert longer[i] == p && longer[i + 1] == q;
      } else {
        assert Edge(g, walk[i], walk[i + 1]);
      }
    }
    assert WalkInside(g, rooms + {q}, longer);
  }

  lemma ExploredStart(g: Passages, s: Pt)
    requires s in g
    ensures Explored(g, {s}, s)
  {
    assert WalkInside(g, {s}, [s]);
  }

  // ---------------------------------------------------------------- the quiz

  /** Four different non-negative choices, of which exactly the one at `correct` answers the question. */
  ghost predicate FairQuiz(q: Question, choices: seq<int>, correct: int) {
    && q.Valid() && |choices| == 4 && 0 <= correct < 4
    && Distinct(choices) && AllNonNegative(choices)
    && forall i :: 0 <= i < 4 ==> (choices[i] == Solution(q.prompt) <==> i == correct)
  }

  class Game {
    const baseWidth: int
    const baseHeight: int
    var keys: seq<Key>
    var level: nat
    var levelScore: int
    var overall: int
    var levelScores: map<int, int>
    var maxLevelSeen: nat
    var maze: Maze
    var pos: Pt
    var quizActive: bool
    var quizQ: Question
    var quizChoices: seq<int>
    var quizCorrect: int
    var quizTarget: Pt

    /** Score conservation: what was earned on finished levels and on this one adds up, and is never negative. */
    ghost predicate ScoresAdd()
      reads this
    {
      && level >= 1 && maxLevelSeen == level
      && levelScore >= 0 && Finished(levelScores, level - 1)
      && overall == Total(levelScores, level - 1) + levelScore
    }

    ghost predicate OnSolvedGround()
      reads this, maze
    {
      && maze.Valid() && maze.ExitIsFarthest()
      && pos in maze.solved && Explored(maze.cells, maze.solved, maze.start)
    }

    ghost predicate QuizInOrder()
      reads this, maze
    {
      quizActive ==>
        Edge(maze.cells, pos, quizTarget) && quizTarget in maze.cells && quizTarget !in maze.solved
        && FairQuiz(quizQ, quizChoices, quizCorrect)
    }

    ghost predicate Valid()
      reads this, maze
    {
      ScoresAdd() && OnSolvedGround() && QuizInOrder()
    }

    function MazeSize(): (size: (int, int))
      reads this
      ensures size.0 <= 21 && size.1 <= 15
    {
      var grow := (level - 1) / 2;
      var w := baseWidth + grow * 2;
      var h := baseHeight + grow * 2;
      (if w > 21 then 21 else w, if h > 15 then 15 else h)
    }

    method StartLevel()
      requires level >= 1 && maxLevelSeen <= level
      requires Finished(levelScores, level - 1) && overall == Total(levelScores, level - 1)
      modifies this
      ensures Valid() && fresh(maze) && level == old(level) && levelScore == 0 && !quizActive
      ensures overall == old(overall) && levelScores == old(levelScores) && keys == old(keys)
      ensures pos == maze.start && maze.solved == {pos}
      ensures maze.w == OddAtLeast5(MazeSize().0) && maze.h == OddAtLeast5(MazeSize().1)
      ensures var wide := baseWidth + (level - 1) / 2 * 2;
        maze.w == (if wide > 21 then 21 else if wide < 5 then 5 else if wide % 2 == 0 then wide + 1 else wide)
      ensures var high := baseHeight + (level - 1) / 2 * 2;
        maze.h == (if high > 15 then 15 else if high < 5 then 5 else if high % 2 == 0 then high + 1 else high)
    {
      hide PerfectMaze, FarthestCorner, Total, Explored, FairQuiz, Edge, OddAtLeast5;
      var size := MazeSize();
      maze := new Maze(size.0, size.1);
      pos := maze.start;
      levelScore := 0;
      quizActive := false;
      if level > maxLevelSeen {
        maxLevelSeen := level;
      }
      assert maze.start in maze.cells;
      ExploredStart(maze.cells, maze.start);
    }

    constructor (baseWidth: int, baseHeight: int, keys: seq<Key>)
      ensures Valid() && level == 1 && overall == 0 && this.keys == keys && fresh(maze)
    {
      this.baseWidth, this.baseHeight, this.keys := baseWidth, baseHeight, keys;
      level, levelScore, overall, levelScores, maxLevelSeen := 1, 0, 0, map[], 1;
      maze := new Maze(5, 5);
      pos, quizTarget := Pt(0, 0), Pt(0, 0);
      quizActive, quizQ, quizChoices, quizCorrect := false, Question(Plus(0, 0), 0), [], 0;
      new;
      StartLevel();
    }

    /** A new question for the same door. The repair branch of the source, for a missing answer, is never taken. */
    method ReshuffleQuiz()
      modifies this`quizQ, this`quizChoices, this`quizCorrect
      ensures FairQuiz(quizQ, quizChoices, quizCorrect)
    {
      var q := NewQuestion(level);
      var choices := Distractors(q.answer, 4);
      var correct := -1;
      var i := 0;
      while i < |choices| && correct < 0
        invariant 0 <= i <= |choices|
        invariant correct < 0 ==> correct == -1 && forall k :: 0 <= k < i ==> choices[k] != q.answer
        invariant correct >= 0 ==> correct < |choices| && choices[correct] == q.answer
        decreases |choices| - i, -correct
      {
        if choices[i] == q.answer {
          correct := i;
        } else {
          i := i + 1;
        }
      }
      if correct < 0 {
        assert false;
      }
      OnlyOneRight(choices, q.answer, correct);
      quizQ, quizChoices, quizCorrect := q, choices, correct;
    }

    method BeginQuiz(target: Pt)
      requires Valid() && Edge(maze.cells, pos, target) && target in maze.cells && target !in maze.solved
      modifies this`quizActive, this`quizTarget, this`quizQ, this`quizChoices, this`quizCorrect
      ensures Valid() && quizActive && quizTarget == target
    {
      hide PerfectMaze, FarthestCorner, FairQuiz, Explored, Edge, Total, Finished;
      quizActive := true;
      quizTarget := target;
      ReshuffleQuiz();
    }

    /** At the exit: the level's score is stored, one key is awaited, and the next level begins. */
    method CheckLevelComplete()
      requires Valid() && !quizActive
      modifies this
      ensures Valid() && !quizActive && (maze == old(maze) || fresh(maze))
      ensures if old(pos) != old(maze.end) then unchanged(this)
              else && level == old(level) + 1 && levelScore == 0 && overall == old(overall)
                   && levelScores == old(levelScores)[old(level) := old(levelScore)]
                   && keys == if old(keys) == [] then [] else old(keys)[1..]
    {
      hide PerfectMaze, FarthestCorner, Explored, FairQuiz, Edge;
      if pos != maze.end {
        return;
      }
      levelScores := levelScores[level := levelScore];
      TotalUnchanged(old(levelScores), level - 1, level, levelScore);
      keys := if keys == [] then [] else keys[1..];
      level := level + 1;
      if level > maxLevelSeen {
        maxLevelSeen := level;
      }
      assert Total(levelScores, level - 1) == Total(levelScores, level - 2) + levelScore;
      StartLevel();
    }

    /** The arrow key leads through an open passage. */
    predicate Opens(key: Key)
      reads this, maze
    {
      key.Arrow? && pos in maze.cells && key.dir in maze.cells[pos]
    }

    /** A wall or another key changes nothing; a solved room is entered, and at the exit the level ends; a locked
        room asks its question first. */
    method HandleMove(key: Key)
      requires Valid() && !quizActive
      modifies this
      ensures Valid() && (maze == old(maze) || fresh(maze)) && |keys| <= |old(keys)|
      ensures overall == old(overall)
      ensures !old(Opens(key)) ==> unchanged(this)
      ensures old(Opens(key)) && Go(old(pos), key.dir) !in old(maze.solved) ==>
        && quizActive && quizTarget == Go(old(pos), key.dir)
        && pos == old(pos) && maze == old(maze) && level == old(level) && levelScore == old(levelScore)
      ensures old(Opens(key)) && Go(old(pos), key.dir) in old(maze.solved) && Go(old(pos), key.dir) != old(maze.end) ==>
        && !quizActive && pos == Go(old(pos), key.dir)
        && maze == old(maze) && level == old(level) && levelScore == old(levelScore)
      ensures old(Opens(key)) && Go(old(pos), key.dir) in old(maze.solved) && Go(old(pos), key.dir) == old(maze.end) ==>
        && !quizActive && level == old(level) + 1 && levelScore == 0
        && levelScores == old(levelScores)[old(level) := old(levelScore)]
    {
      hide PerfectMaze, FarthestCorner, Explored, Total, Finished, FairQuiz, Edge;
      if !key.Arrow? {
        return;
      }
      var next := maze.Neighbor(pos, key.dir);
      if next == None {
        if key.dir in maze.cells[pos] {
          PassageInside(maze.cells, maze.w, maze.h, pos, key.dir);
        }
        return;
      }
      var n := next.value;
      PassageStep(maze.cells, maze.w, maze.h, pos, key.dir);
      assert Opens(key);
      if n in maze.solved {
        pos := n;
        CheckLevelComplete();
        return;
      }
      BeginQuiz(n);
    }

    predicate RightKey(key: Key)
      reads this
    {
      key.Digit? && 1 <= key.n <= |quizChoices| && quizChoices[key.n - 1] == Solution(quizQ.prompt)
    }

    /** A right answer earns 5, opens the room and leads into it. */
    method RightAnswer()
      requires Valid() && quizActive
      modifies this, maze
      ensures Valid() && !quizActive && (maze == old(maze) || fresh(maze)) && |keys| <= |old(keys)|
      ensures overall == old(overall) + 5
      ensures old(quizTarget) != old(maze.end) ==>
                && pos == old(quizTarget) && maze == old(maze) && maze.solved == old(maze.solved) + {pos}
                && level == old(level) && levelScore == old(levelScore) + 5
      ensures old(quizTarget) == old(maze.end) ==>
                level == old(level) + 1 && levelScores == old(levelScores)[old(level) := old(levelScore) + 5]
    {
      hide PerfectMaze, FarthestCorner, Explored, Total, Finished, FairQuiz, Edge;
      levelScore := levelScore + 5;
      overall := overall + 5;
      SolveNeighbour(maze.cells, maze.solved, maze.start, pos, quizTarget);
      maze.MarkSolved(quizTarget);
      pos := quizTarget;
      quizActive := false;
      quizChoices := [];
      CheckLevelComplete();
    }

    /** A wrong answer costs 2, or what there is; the clamps of `overall` at zero never fire. */
    method WrongAnswer()
      requires Valid() && quizActive
      modifies this`levelScore, this`overall, this`quizQ, this`quizChoices, this`quizCorrect
      ensures Valid()
      ensures levelScore == old(levelScore) - Penalty(old(levelScore))
      ensures overall == old(overall) - Penalty(old(levelScore))
    {
      hide PerfectMaze, FarthestCorner, Explored, Total, FairQuiz, Edge;
      TotalNotNegative(levelScores, level - 1);
      if levelScore >= 2 {
        levelScore := levelScore - 2;
        overall := overall - 2;
        if overall < 0 {
          assert false;
        }
      } else {
        overall := overall - levelScore;
        if overall < 0 {
          assert false;
        }
        levelScore := 0;
      }
      ReshuffleQuiz();
    }

    method HandleQuiz(key: Key)
      requires Valid() && quizActive
      modifies this, maze
      ensures Valid() && (maze == old(maze) || fresh(maze)) && |keys| <= |old(keys)|
      ensures overall == if !(key.Digit? && 1 <= key.n <= 4) then old(overall)
                         else if old(RightKey(key)) then old(overall) + 5
                         else old(overall) - Penalty(old(levelScore))
      ensures quizActive <==> !old(RightKey(key))
      ensures !old(RightKey(key)) ==> pos == old(pos) && level == old(level) && maze == old(maze) && maze.solved == old(maze.solved)
    {
      hide PerfectMaze, FarthestCorner, Explored, Total, Finished, Edge;
      if !(key.Digit? && 1 <= key.n <= 4) {
        return;
      }
      var choice := key.n - 1;
      assert choice == quizCorrect <==> RightKey(key);
      hide FairQuiz;
      if choice == quizCorrect {
        RightAnswer();
        return;
      }
      WrongAnswer();
    }

    /** The recorded level scores add up to the overall score. */
    method Finish() returns (r: Record)
      requires Valid()
      modifies this`levelScores
      ensures r.overall == overall && r.maxLevel == level
      ensures r.levelScores == levelScores && Finished(r.levelScores, level)
      ensures Total(r.levelScores, level) == r.overall
    {
      hide PerfectMaze, FarthestCorner, Explored, FairQuiz, Edge;
      if levelScore > 0 || Scored(levelScores, level) == 0 {
        TotalUnchanged(levelScores, level - 1, level, levelScore);
        levelScores := levelScores[level := levelScore];
      }
      r := Record(levelScores, maxLevelSeen, overall);
    }

    /** One turn of the main loop. Whatever the key is, the state stays valid: scores add up, the player stands
        on explored solved ground, and a quiz is in order. Only an answer changes the overall score. */
    method Turn(key: Key)
      requires Valid()
      modifies this, maze
      ensures Valid() && (maze == old(maze) || fresh(maze)) && |keys| <= |old(keys)|
      ensures overall == if !old(quizActive) || !(key.Digit? && 1 <= key.n <= 4) then old(overall)
                         else if old(RightKey(key)) then old(overall) + 5
                         else old(overall) - Penalty(old(levelScore))
    {
      hide PerfectMaze, FarthestCorner, Explored, Total, Finished, Edge, FairQuiz;
      if quizActive {
        HandleQuiz(key);
      } else {
        HandleMove(key);
      }
    }

    /** The main loop: play until quit or disconnect. */
    method Play() returns (r: Record)
      requires Valid()
      modifies this, maze
      ensures Total(r.levelScores, r.maxLevel) == r.overall && r.overall >= 0
      ensures Finished(r.levelScores, r.maxLevel)
    {
      hide PerfectMaze, FarthestCorner, Explored, Total, Finished, Edge, FairQuiz;
      ghost var first := maze;
      while |keys| > 0 && keys[0] != Quit
        invariant Valid() && (maze == first || fresh(maze))
        decreases |keys|
      {
        var key := keys[0];
        keys := keys[1..];
        Turn(key);
      }
      RecordNotNegative(levelScores, level - 1);
      r := Finish();
    }
  }

  lemma PassageStep(g: Passages, w: nat, h: nat, p: Pt, d: Dir)
    requires PerfectMaze(g, w, h) && p in g && d in g[p]
    ensures Edge(g, p, Go(p, d)) && Go(p, d) in g
  {
    assert Open(g, p, d);
  }

  lemma PassageInside(g: Passages, w: nat, h: nat, p: Pt, d: Dir)
    requires PerfectMaze(g, w, h) && p in g && d in g[p]
    ensures 0 <= Go(p, d).x < w && 0 <= Go(p, d).y < h
  {
    PassageStep(g, w, h, p, d);
    PerfectKeys(g, w, h);
    InGrid(w, h, Go(p, d));
  }

  lemma OnlyOneRight(choices: seq<int>, answer: int, correct: int)
    requires Distinct(choices) && 0 <= correct < |choices| && choices[correct] == answer
    ensures forall i :: 0 <= i < |choices| ==> (choices[i] == answer <==> i == correct)
  {
  }

  lemma RecordNotNegative(scores: map<int, int>, n: nat)
    requires Finished(scores, n)
    ensures Total(scores, n) >= 0
  {
    TotalNotNegative(scores, n);
  }

  lemma {:induction false} TotalNotNegative(scores: map<int, int>, n: nat)
    requires forall k :: k in scores ==> scores[k] >= 0
    ensures Total(scores, n) >= 0
  {
    if n > 0 {
      TotalNotNegative(scores, n - 1);
    }
  }
}
