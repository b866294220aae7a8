/** The maths problems of MathMaze and their multiple-choice answers. Random draws are arbitrary choices. */
module MathQuestions {

  /** A problem as it is printed: "a + b", "a - b", "a x b", "a x b + c", "a x b - c". */
  datatype Problem =
    | Plus(a: int, b: int)
    | Minus(a: int, b: int)
    | Times(a: int, b: int)
    | TimesPlus(a: int, b: int, c: int)
    | TimesMinus(a: int, b: int, c: int)

  function Solution(p: Problem): int {
    match p
    case Plus(a, b) => a + b
    case Minus(a, b) => a - b
    case Times(a, b) => a * b
    case TimesPlus(a, b, c) => a * b + c
    case TimesMinus(a, b, c) => a * b - c
  }

  datatype Question = Question(prompt: Problem, answer: int) {
    predicate Valid() {
      answer == Solution(prompt) && answer >= 0
    }
  }

  /** `rng.Intn(n)`: any number below n. */
  method Intn(n: int) returns (r: int)
    requires n > 0
    ensures 0 <= r < n
  {
    r :| 0 <= r < n;
  }

  predicate Within(lo: int, a: int, b: int, hi: int) {
    lo <= a <= hi && lo <= b <= hi
  }

  /** A sum, or a difference of the larger and the smaller number, up to a bound that grows with the level. */
  method AddSub(level: int) returns (q: Question)
    requires level >= 1
    ensures q.Valid() && (q.prompt.Plus? || q.prompt.Minus?)
    ensures Within(1, q.prompt.a, q.prompt.b, 10 + level * 5)
  {
    var max := 10 + level * 5;
    var a := Intn(max);
    var b := Intn(max);
    a, b := a + 1, b + 1;
    var coin := Intn(2);
    if coin == 0 {
      return Question(Plus(a, b), a + b);
    }
    if a < b {
      a, b := b, a;
    }
    return Question(Minus(a, b), a - b);
  }

  lemma ProductPositive(a: int, b: int)
    requires a > 0 && b > 0
    ensures a * b > 0
  {
  }

  method MulEasy(level: int) returns (q: Question)
    requires level >= 1
    ensures q.Valid() && q.prompt.Times? && Within(2, q.prompt.a, q.prompt.b, 6 + level)
  {
    var a := Intn(5 + level);
    var b := Intn(5 + level);
    ProductPositive(a + 2, b + 2);
    return Question(Times(a + 2, b + 2), (a + 2) * (b + 2));
  }

  method MulHard(level: int) returns (q: Question)
    requires level >= 1
    ensures q.Valid() && q.prompt.Times? && Within(3, q.prompt.a, q.prompt.b, 10 + level)
  {
    var a := Intn(8 + level);
    var b := Intn(8 + level);
    ProductPositive(a + 3, b + 3);
    return Question(Times(a + 3, b + 3), (a + 3) * (b + 3));
  }

  /** A product and a number added or taken off; a number that would make the result negative is drawn again. */
  method TwoStep(level: int) returns (q: Question)
    requires level >= 1
    ensures q.Valid() && (q.prompt.TimesPlus? || q.prompt.TimesMinus?)
    ensures Within(2, q.prompt.a, q.prompt.b, 7 + level)
    ensures q.prompt.TimesPlus? ==> 1 <= q.prompt.c <= 8 + level
    ensures q.prompt.TimesMinus? ==> 0 <= q.prompt.c <= q.prompt.a * q.prompt.b
  {
    var a := Intn(6 + level);
    var b := Intn(6 + level);
    var c := Intn(8 + level);
    a, b, c := a + 2, b + 2, c + 1;
    ProductPositive(a, b);
    var coin := Intn(2);
    if coin == 0 {
      return Question(TimesPlus(a, b, c), a * b + c);
    }
    var ans := a * b - c;
    if ans < 0 {
      c := Intn(a * b);
      ans := a * b - c;
    }
    return Question(TimesMinus(a, b, c), ans);
  }

  /** Every generated answer solves its printed problem and is not negative; the first levels only add and
      subtract, and products with a third number start at level 5. */
  method NewQuestion(asked: int) returns (q: Question)
    ensures q.Valid()
    ensures asked <= 2 ==> q.prompt.Plus? || q.prompt.Minus?
    ensures asked <= 4 ==> !q.prompt.TimesPlus? && !q.prompt.TimesMinus?
  {
    var level := if asked < 1 then 1 else asked;
    if level <= 2 {
      q := AddSub(level);
    } else if level <= 4 {
      var coin := Intn(2);
      if coin == 0 {
        q := MulEasy(level);
      } else {
        q := AddSub(level + 1);
      }
    } else {
      var k := Intn(4);
      if k == 0 {
        q := MulHard(level);
      } else if k == 1 {
        q := TwoStep(level);
      } else if k == 2 {
        q := AddSub(level + 2);
      } else {
        q := MulEasy(level);
      }
    }
  }

  // ---------------------------------------------------------------- choices

  predicate Distinct(s: seq<int>) {
    forall i, j :: 0 <= i < j < |s| ==> s[i] != s[j]
  }

  lemma SwapKeeps(s: seq<int>, i: nat, j: nat)
    requires i < |s| && j < |s|
    ensures multiset(s[i := s[j]][j := s[i]]) == multiset(s)
  {
  }

  /** `rng.Shuffle`: an arbitrary rearrangement. */
  method Shuffle(s: seq<int>) returns (t: seq<int>)
    ensures multiset(t) == multiset(s) && |t| == |s|
  {
    t := s;
    var i := |t| - 1;
    while i > 0
      invariant |t| == |s| && multiset(t) == multiset(s) && i < |t|
    {
      var j := Intn(i + 1);
      SwapKeeps(t, i, j);
      t := t[i := t[j]][j := t[i]];
      i := i - 1;
    }
  }

  lemma {:induction false} SameElements(s: seq<int>, t: seq<int>, v: int)
    requires multiset(s) == multiset(t)
    ensures v in s <==> v in t
  {
    assert v in s <==> v in multiset(s);
    assert v in t <==> v in multiset(t);
  }

  /** A sequence is distinct exactly when no element occurs twice. */
  lemma DistinctCount(s: seq<int>)
    ensures Distinct(s) <==> forall v :: multiset(s)[v] <= 1
    decreases |s|
  {
    if s != [] {
      var r := s[..|s| - 1];
      var last := s[|s| - 1];
      assert s == r + [last];
      DistinctCount(r);
      if Distinct(s) {
        assert last !in r;
        assert multiset(r)[last] == 0;
        forall v ensures multiset(s)[v] <= 1 {
          assert multiset(r)[v] <= 1;
        }
      }
      if forall v :: multiset(s)[v] <= 1 {
        forall v ensures multiset(r)[v] <= 1 {
          assert multiset(s)[v] <= 1;
        }
        assert multiset(s)[last] <= 1;
        assert last !in multiset(r);
        assert last !in r;
      }
    }
  }

  lemma {:induction false} ElementsAtMost(s: seq<int>)
    ensures |set v | v in s| <= |s|
  {
    if s == [] {
      assert (set v | v in s) == {};
    } else {
      var r := s[..|s| - 1];
      ElementsAtMost(r);
      assert s == r + [s[|s| - 1]];
      assert (set v | v in s) == (set v | v in r) + {s[|s| - 1]};
    }
  }

  /** The numbers c, c + 1, ..., c + k. */
  function Span(c: int, k: nat): (r: set<int>)
    ensures |r| == k + 1 && forall v :: v in r <==> c <= v <= c + k
  {
    if k == 0 then {c} else Span(c, k - 1) + {c + k}
  }

  lemma HoldsSpan(s: seq<int>, c: int, k: nat)
    requires forall v :: c <= v <= c + k ==> v in s
    ensures |s| >= k + 1
  {
    ElementsAtMost(s);
    var all := set v | v in s;
    assert Span(c, k) <= all;
    SubsetSize(Span(c, k), all);
  }

  lemma SubsetSize(a: set<int>, b: set<int>)
    requires a <= b
    ensures |a| <= |b|
  {
    assert b == a + (b - a);
  }

  function Offsets(): seq<int> {
    [1, -1, 2, -2, 3, -3, 4, -4, 5, 10, -5, 6, -6, 7, 8, 9, 11, 12]
  }

  lemma OffsetsShape()
    ensures forall k :: 1 <= k <= 12 ==> k in Offsets()
  {
    var o := Offsets();
    assert o[0] == 1 && o[2] == 2 && o[4] == 3 && o[6] == 4 && o[8] == 5 && o[11] == 6;
    assert o[13] == 7 && o[14] == 8 && o[15] == 9 && o[9] == 10 && o[16] == 11 && o[17] == 12;
  }

  predicate AllNonNegative(s: seq<int>) {
    forall v :: v in s ==> v >= 0
  }

  /** The choices after the offsets tried so far: each one that gives a non-negative number is in. */
  predicate Tried(out: seq<int>, correct: int, offsets: seq<int>, i: nat)
    requires i <= |offsets|
  {
    forall j :: 0 <= j < i && correct + offsets[j] >= 0 ==> correct + offsets[j] in out
  }

  lemma AddChoice(out: seq<int>, correct: int, offsets: seq<int>, i: nat)
    requires i < |offsets| && correct in out && Distinct(out) && AllNonNegative(out) && Tried(out, correct, offsets, i)
    ensures var v := correct + offsets[i];
            var n := if v < 0 || v in out then out else out + [v];
      correct in n && Distinct(n) && AllNonNegative(n) && Tried(n, correct, offsets, i + 1)
  {
  }

  /** All offsets tried give 13 choices, so fewer can only be left with offsets still untried. */
  lemma EnoughOffsets(out: seq<int>, correct: int, offsets: seq<int>)
    requires correct >= 0 && correct in out && Tried(out, correct, offsets, |offsets|)
    requires multiset(offsets) == multiset(Offsets())
    ensures |out| >= 13
  {
    hide Offsets;
    OffsetsShape();
    forall v | correct <= v <= correct + 12 ensures v in out {
      if v > correct {
        SameElements(offsets, Offsets(), v - correct);
        var j :| 0 <= j < |offsets| && offsets[j] == v - correct;
        assert correct + offsets[j] in out;
      }
    }
    HoldsSpan(out, correct, 12);
  }

  lemma ShuffledChoices(s: seq<int>, t: seq<int>)
    requires multiset(s) == multiset(t)
    ensures Distinct(s) <==> Distinct(t)
    ensures forall v :: v in s <==> v in t
    ensures AllNonNegative(s) <==> AllNonNegative(t)
  {
    DistinctCount(s);
    DistinctCount(t);
    forall v ensures v in s <==> v in t {
      SameElements(s, t, v);
    }
  }

  predicate Below(out: seq<int>, top: int) {
    forall v :: v in out ==> v <= top
  }

  lemma OffsetsBelow(offsets: seq<int>)
    requires multiset(offsets) == multiset(Offsets())
    ensures Below(offsets, 12)
  {
    hide Offsets;
    OffsetsTop();
    forall v | v in offsets ensures v <= 12 {
      SameElements(offsets, Offsets(), v);
    }
  }

  lemma OffsetsTop()
    ensures Below(Offsets(), 12)
  {
  }

  lemma OneMoreChoice(out: seq<int>, v: int, top: int)
    requires Distinct(out) && AllNonNegative(out) && v !in out && v >= 0 && Below(out, top) && v <= top
    ensures Distinct(out + [v]) && AllNonNegative(out + [v]) && Below(out + [v], top)
  {
  }

  /** The first part of `Distractors`: the right answer, and others at the shuffled offsets from it. They give
      at least 13 choices, when so many are asked for. */
  method NearChoices(correct: int, n: int) returns (out: seq<int>)
    requires correct >= 0 && n >= 2
    ensures |out| == n || 13 <= |out| < n
    ensures Distinct(out) && correct in out && AllNonNegative(out) && Below(out, correct + 12)
  {
    hide Distinct, AllNonNegative, Tried, Offsets, Below;
    var seen := {correct};
    out := [correct];
    OneChoice(correct);
    var offsets := Shuffle(Offsets());
    TriedNone(out, correct, offsets);
    OffsetsBelow(offsets);
    var i := 0;
    while i < |offsets| && |out| < n
      invariant 0 <= i <= |offsets| && 1 <= |out| <= n
      invariant correct in out && Distinct(out) && AllNonNegative(out) && Tried(out, correct, offsets, i)
      invariant Below(out, correct + 12)
      invariant seen == set v | v in out
    {
      AddChoice(out, correct, offsets, i);
      StaysBelow(out, correct, offsets, i);
      var v := correct + offsets[i];
      i := i + 1;
      if v < 0 || v in seen {
        continue;
      }
      seen := seen + {v};
      out := out + [v];
    }
    if |out| < n {
      EnoughOffsets(out, correct, offsets);
    }
  }

  lemma StaysBelow(out: seq<int>, correct: int, offsets: seq<int>, i: nat)
    requires i < |offsets| && Below(out, correct + 12) && Below(offsets, 12)
    ensures Below(out + [correct + offsets[i]], correct + 12)
  {
    assert offsets[i] in offsets;
  }

  lemma Wider(out: seq<int>, top: int, more: int)
    requires Below(out, top) && top <= more
    ensures Below(out, more)
  {
  }

  /** The right answer and n - 1 wrong ones near it, all different and not negative, in any order.

      For up to 13 choices the offsets suffice. Beyond that the fallback loop adds one choice in every turn: the
      number it falls back to is larger than all the others. */
  method Distractors(correct: int, asked: int) returns (out: seq<int>)
    requires correct >= 0
    ensures |out| == if asked < 2 then 2 else asked
    ensures Distinct(out) && correct in out && AllNonNegative(out)
  {
    var n := if asked < 2 then 2 else asked;
    hide Distinct, AllNonNegative, Offsets, Below;
    out := NearChoices(correct, n);
    if |out| >= 13 {
      Wider(out, correct + 12, correct + |out|);
    }
    while |out| < n
      invariant |out| == n || 13 <= |out| < n
      invariant correct in out && Distinct(out) && AllNonNegative(out)
      invariant |out| >= 13 ==> Below(out, correct + |out|)
    {
      var draw := Intn(21);
      var v := correct + draw - 10;
      if v < 0 || v in out {
        v := correct + |out| + 1;
      }
      NotBelow(out, correct + |out|, correct + |out| + 1);
      if v in out {
        assert false;
      }
      Wider(out, correct + |out|, correct + |out| + 1);
      OneMoreChoice(out, v, correct + |out| + 1);
      out := out + [v];
    }
    var shuffled := Shuffle(out);
    ShuffledChoices(out, shuffled);
    out := shuffled;
  }

  lemma NotBelow(out: seq<int>, top: int, v: int)
    requires Below(out, top) && v > top
    ensures v !in out
  {
  }

  lemma OneChoice(correct: int)
    requires correct >= 0
    ensures Distinct([correct]) && AllNonNegative([correct]) && Below([correct], correct + 12)
  {
  }

  lemma TriedNone(out: seq<int>, correct: int, offsets: seq<int>)
    ensures Tried(out, correct, offsets, 0)
  {
  }
}
