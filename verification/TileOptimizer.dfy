/** The choice of a quadrant pattern and two colours for a tile of four pixels.

    The search tries half of the patterns and rounds group means down. The error it ends with is the least
    over all sixteen patterns with such means, and at most 3 above the best that any pattern reaches with
    any two integer colours. */
module TileOptimizer {
  import opened Text
  import Octets

  datatype Rgb = Rgb(r: Octets.U8, g: Octets.U8, b: Octets.U8)

  /** Any colour one could compare with, not only one that octets can hold. */
  datatype Colour = Colour(r: int, g: int, b: int)

  type Tile = s: seq<Rgb> | |s| == 4 witness [BLACK, BLACK, BLACK, BLACK]

  const BLACK: Rgb := Rgb(0, 0, 0)

  type Channel = s: seq<int> | |s| == 4 witness [0, 0, 0, 0]

  function Reds(t: Tile): Channel { [t[0].r, t[1].r, t[2].r, t[3].r] }

  function Greens(t: Tile): Channel { [t[0].g, t[1].g, t[2].g, t[3].g] }

  function Blues(t: Tile): Channel { [t[0].b, t[1].b, t[2].b, t[3].b] }

  /** Bit b of a pattern: 1 puts pixel b in the foreground. */
  function Bit(p: nat, b: nat): (k: nat)
    requires b < 4
    ensures k < 2
  {
    (if b == 0 then p else if b == 1 then p / 2 else if b == 2 then p / 4 else p / 8) % 2
  }

  function Count(p: nat, k: nat, n: nat): nat
    requires n <= 4
  {
    if n == 0 then 0 else Count(p, k, n - 1) + (if Bit(p, n - 1) == k then 1 else 0)
  }

  /** Sum over the first n pixels of a group. */
  function Sum(x: Channel, p: nat, k: nat, n: nat): int
    requires n <= 4
  {
    if n == 0 then 0 else Sum(x, p, k, n - 1) + (if Bit(p, n - 1) == k then x[n - 1] else 0)
  }

  function Squares(x: Channel, p: nat, k: nat, n: nat): int
    requires n <= 4
  {
    if n == 0 then 0 else Squares(x, p, k, n - 1) + (if Bit(p, n - 1) == k then x[n - 1] * x[n - 1] else 0)
  }

  /** Squared distance of a group from one level. */
  function Dist(x: Channel, p: nat, k: nat, c: int, n: nat): int
    requires n <= 4
  {
    if n == 0 then 0 else Dist(x, p, k, c, n - 1) + (if Bit(p, n - 1) == k then (x[n - 1] - c) * (x[n - 1] - c) else 0)
  }

  /** The mean of a group, rounded down; an empty group is black. */
  function Level(x: Channel, p: nat, k: nat): int {
    if Count(p, k, 4) == 0 then 0 else Sum(x, p, k, 4) / Count(p, k, 4)
  }

  /** `colorDiff` */
  function Diff(a: Rgb, c: Colour): int {
    (a.r - c.r) * (a.r - c.r) + (a.g - c.g) * (a.g - c.g) + (a.b - c.b) * (a.b - c.b)
  }

  function Exact(c: Rgb): Colour {
    Colour(c.r, c.g, c.b)
  }

  /** The error of a tile drawn with a pattern and two colours, over the first n pixels. */
  function Error(t: Tile, p: nat, fore: Colour, back: Colour, n: nat): int
    requires n <= 4
  {
    if n == 0 then 0 else Error(t, p, fore, back, n - 1) + Diff(t[n - 1], if Bit(p, n - 1) == 1 then fore else back)
  }

  lemma {:induction false} SumBounds(x: Channel, p: nat, k: nat, n: nat)
    requires n <= 4 && forall i :: 0 <= i < 4 ==> 0 <= x[i] < 256
    ensures 0 <= Sum(x, p, k, n) <= 255 * Count(p, k, n)
  {
    hide Bit;
    if n > 0 {
      SumBounds(x, p, k, n - 1);
    }
  }

  /** A mean of octets is an octet. */
  lemma LevelIsOctet(x: Channel, p: nat, k: nat)
    requires forall i :: 0 <= i < 4 ==> 0 <= x[i] < 256
    ensures 0 <= Level(x, p, k) < 256
  {
    hide Bit, Sum;
    SumBounds(x, p, k, 4);
    var n, s := Count(p, k, 4), Sum(x, p, k, 4);
    if n > 0 {
      DivideBelow(s, n);
    }
  }

  lemma DivideBelow(s: int, n: nat)
    requires n > 0 && 0 <= s <= 255 * n
    ensures 0 <= s / n <= 255
  {
    assert s == n * (s / n) + s % n;
    LargeProduct(n, s / n);
  }

  lemma LargeProduct(n: nat, q: int)
    ensures q > 255 ==> n * q >= n * 256
  {
  }

  /** `avg[k]` */
  function Mean(t: Tile, p: nat, k: nat): Rgb {
    LevelIsOctet(Reds(t), p, k);
    LevelIsOctet(Greens(t), p, k);
    LevelIsOctet(Blues(t), p, k);
    Rgb(Level(Reds(t), p, k), Level(Greens(t), p, k), Level(Blues(t), p, k))
  }

  /** The error of a pattern with the rounded means of its groups. */
  function MeanError(t: Tile, p: nat): int {
    Error(t, p, Exact(Mean(t, p, 1)), Exact(Mean(t, p, 0)), 4)
  }

  // ---------------------------------------------------------------- one channel of one group

  lemma OneMore(d: int, q: int, s: int, m: int, y: int, c: int)
    requires d == q - 2 * c * s + m * c * c
    ensures d + (y - c) * (y - c) == (q + y * y) - 2 * c * (s + y) + (m + 1) * c * c
  {
  }

  lemma {:induction false} DistExpanded(x: Channel, p: nat, k: nat, c: int, n: nat)
    requires n <= 4
    ensures Dist(x, p, k, c, n) == Squares(x, p, k, n) - 2 * c * Sum(x, p, k, n) + Count(p, k, n) * c * c
  {
    hide Bit;
    if n > 0 {
      DistExpanded(x, p, k, c, n - 1);
      if Bit(p, n - 1) == k {
        OneMore(Dist(x, p, k, c, n - 1), Squares(x, p, k, n - 1), Sum(x, p, k, n - 1), Count(p, k, n - 1), x[n - 1], c);
      }
    }
  }

  /** How far the rounded mean of n octets can be from the best level: only groups of three and four lose. */
  function Slack(n: nat): nat {
    if n < 3 then 0 else n - 2
  }

  lemma SquareGrows(u: int)
    ensures u * u >= u && u * u >= -u && u * u >= 3 * u - 2
  {
    if u >= 2 {
      assert (u - 1) * (u - 2) >= 0;
    } else if u < 0 {
      assert -u * -u >= -u;
    }
  }

  /** For a square q of u: a quadratic with small coefficients, case by case. */
  lemma ParabolaCases(n: nat, r: int, u: int, q: int)
    requires 1 <= n <= 4 && 0 <= r < n && q >= u && q >= -u && q >= 3 * u - 2
    ensures n * q - 2 * (r * u) + Slack(n) >= 0
  {
    if r == 0 {
    } else if r == 1 {
      assert r * u == u;
    } else if r == 2 {
      assert r * u == 2 * u;
    } else {
      assert r * u == 3 * u;
    }
  }

  lemma ParabolaBound(n: nat, r: int, u: int)
    requires 1 <= n <= 4 && 0 <= r < n
    ensures n * u * u - 2 * r * u + Slack(n) >= 0
  {
    SquareGrows(u);
    ParabolaCases(n, r, u, u * u);
    assert n * u * u == n * (u * u) && 2 * r * u == 2 * (r * u);
  }

  lemma Shift(n: int, f: int, r: int, u: int)
    ensures -2 * (f + u) * (n * f + r) + n * (f + u) * (f + u)
         == (-2 * f * (n * f + r) + n * f * f) + (n * u * u - 2 * r * u)
  {
  }

  lemma RoundedLevel(n: nat, s: int, c: int)
    requires 1 <= n <= 4
    ensures var f := s / n; -2 * f * s + n * f * f <= -2 * c * s + n * c * c + Slack(n)
  {
    var f, r := s / n, s % n;
    ParabolaBound(n, r, c - f);
    Shift(n, f, r, c - f);
    assert s == n * f + r;
  }

  /** No level beats the rounded mean by more than the slack. */
  lemma LevelNearlyBest(x: Channel, p: nat, k: nat, c: int)
    ensures Dist(x, p, k, Level(x, p, k), 4) <= Dist(x, p, k, c, 4) + Slack(Count(p, k, 4))
  {
    hide Bit, Sum, Squares, Dist;
    CountBound(p, k, 4);
    DistExpanded(x, p, k, c, 4);
    DistExpanded(x, p, k, Level(x, p, k), 4);
    if Count(p, k, 4) > 0 {
      RoundedLevel(Count(p, k, 4), Sum(x, p, k, 4), c);
    } else {
      EmptyGroup(x, p, k, 4);
    }
  }

  lemma {:induction false} CountBound(p: nat, k: nat, n: nat)
    requires n <= 4
    ensures Count(p, k, n) <= n
  {
    hide Bit;
    if n > 0 {
      CountBound(p, k, n - 1);
    }
  }

  lemma {:induction false} EmptyGroup(x: Channel, p: nat, k: nat, n: nat)
    requires n <= 4 && Count(p, k, n) == 0
    ensures Sum(x, p, k, n) == 0 && Squares(x, p, k, n) == 0
  {
    hide Bit;
    if n > 0 {
      EmptyGroup(x, p, k, n - 1);
    }
  }

  // ---------------------------------------------------------------- the whole tile

  lemma {:induction false} ErrorByChannel(t: Tile, p: nat, fore: Colour, back: Colour, n: nat)
    requires n <= 4
    ensures Error(t, p, fore, back, n) ==
      (Dist(Reds(t), p, 1, fore.r, n) + Dist(Reds(t), p, 0, back.r, n))
      + (Dist(Greens(t), p, 1, fore.g, n) + Dist(Greens(t), p, 0, back.g, n))
      + (Dist(Blues(t), p, 1, fore.b, n) + Dist(Blues(t), p, 0, back.b, n))
  {
    hide Bit;
    if n > 0 {
      ErrorByChannel(t, p, fore, back, n - 1);
    }
  }

  lemma {:induction false} CountsAddUp(p: nat, n: nat)
    requires n <= 4
    ensures Count(p, 0, n) + Count(p, 1, n) == n
  {
    hide Bit;
    if n > 0 {
      CountsAddUp(p, n - 1);
    }
  }

  /** For one pattern, no two colours beat the rounded means by more than the slack of its groups. */
  lemma MeansNearlyBest(t: Tile, p: nat, fore: Colour, back: Colour)
    ensures MeanError(t, p) <= Error(t, p, fore, back, 4) + 3 * (Slack(Count(p, 1, 4)) + Slack(Count(p, 0, 4)))
  {
    hide Bit, Dist, Error, Count, Level, Reds, Greens, Blues, Slack;
    ErrorByChannel(t, p, fore, back, 4);
    ErrorByChannel(t, p, Exact(Mean(t, p, 1)), Exact(Mean(t, p, 0)), 4);
    LevelNearlyBest(Reds(t), p, 1, fore.r);
    LevelNearlyBest(Reds(t), p, 0, back.r);
    LevelNearlyBest(Greens(t), p, 1, fore.g);
    LevelNearlyBest(Greens(t), p, 0, back.g);
    LevelNearlyBest(Blues(t), p, 1, fore.b);
    LevelNearlyBest(Blues(t), p, 0, back.b);
  }

  /** Two patterns that swap the groups. */
  predicate Opposite(p: nat, q: nat) {
    forall b :: 0 <= b < 4 ==> Bit(q, b) == 1 - Bit(p, b)
  }

  lemma HalfIsOpposite(p: nat)
    requires p < 16
    ensures Opposite(p, 15 - p)
  {
    assert (15 - p) % 2 == 1 - p % 2;
    assert (15 - p) / 2 == 7 - p / 2;
    assert (15 - p) / 4 == 3 - p / 4;
    assert (15 - p) / 8 == 1 - p / 8;
  }

  lemma {:induction false} OppositeGroups(x: Channel, p: nat, q: nat, k: nat, n: nat)
    requires Opposite(p, q) && k < 2 && n <= 4
    ensures Count(q, k, n) == Count(p, 1 - k, n) && Sum(x, q, k, n) == Sum(x, p, 1 - k, n)
  {
    hide Bit;
    if n > 0 {
      OppositeGroups(x, p, q, k, n - 1);
      assert Bit(q, n - 1) == 1 - Bit(p, n - 1);
    }
  }

  lemma {:induction false} OppositeError(t: Tile, p: nat, q: nat, fore: Colour, back: Colour, n: nat)
    requires Opposite(p, q) && n <= 4
    ensures Error(t, q, fore, back, n) == Error(t, p, back, fore, n)
  {
    hide Bit, Diff;
    if n > 0 {
      OppositeError(t, p, q, fore, back, n - 1);
      assert Bit(q, n - 1) == 1 - Bit(p, n - 1);
    }
  }

  lemma OppositeLevels(x: Channel, p: nat, q: nat)
    requires Opposite(p, q)
    ensures Level(x, q, 1) == Level(x, p, 0) && Level(x, q, 0) == Level(x, p, 1)
  {
    hide Bit, Count, Sum, Opposite;
    OppositeGroups(x, p, q, 0, 4);
    OppositeGroups(x, p, q, 1, 4);
  }

  /** Swapping the groups does not change the error, so half of the patterns are enough. */
  lemma OppositeIsEqual(t: Tile, p: nat)
    requires p < 16
    ensures MeanError(t, 15 - p) == MeanError(t, p)
    ensures Mean(t, 15 - p, 1) == Mean(t, p, 0) && Mean(t, 15 - p, 0) == Mean(t, p, 1)
  {
    hide Bit, Error, Opposite, Reds, Greens, Blues, Level;
    HalfIsOpposite(p);
    OppositeLevels(Reds(t), p, 15 - p);
    OppositeLevels(Greens(t), p, 15 - p);
    OppositeLevels(Blues(t), p, 15 - p);
    OppositeError(t, p, 15 - p, Exact(Mean(t, p, 0)), Exact(Mean(t, p, 1)), 4);
  }

  lemma PatternGroups(q: nat)
    requires q < 16
    ensures Count(q, 1, 4) == Bit(q, 0) + Bit(q, 1) + Bit(q, 2) + Bit(q, 3)
    ensures q == Bit(q, 0) + 2 * Bit(q, 1) + 4 * Bit(q, 2) + 8 * Bit(q, 3)
  {
    assert Count(q, 1, 1) == Bit(q, 0);
    assert Count(q, 1, 2) == Bit(q, 0) + Bit(q, 1);
    assert Count(q, 1, 3) == Bit(q, 0) + Bit(q, 1) + Bit(q, 2);
  }

  /** A pattern with one group is drawn with one colour, and a pattern of two and two can use it twice. */
  lemma OneColour(t: Tile, q: nat, fore: Colour, back: Colour)
    requires q == 0 || q == 15
    ensures MeanError(t, 3) <= Error(t, q, fore, back, 4)
  {
    hide Diff, Mean;
    var c := if q == 0 then back else fore;
    MeansNearlyBest(t, 3, c, c);
    PatternGroups(3);
    CountsAddUp(3, 4);
    SameColour(t, q, 3, fore, back, c, 4);
  }

  lemma {:induction false} SameColour(t: Tile, q: nat, p: nat, fore: Colour, back: Colour, c: Colour, n: nat)
    requires n <= 4 && ((q == 0 && c == back) || (q == 15 && c == fore))
    ensures Error(t, p, c, c, n) == Error(t, q, fore, back, n)
  {
    hide Diff;
    if n > 0 {
      SameColour(t, q, p, fore, back, c, n - 1);
    }
  }

  /** A pattern whose error with rounded means is least over all sixteen. */
  predicate LeastMeans(t: Tile, p: nat) {
    forall q :: 0 <= q < 16 ==> MeanError(t, p) <= MeanError(t, q)
  }

  /** Such a pattern is within 3 of the best drawing with any pattern and any two integer colours. */
  lemma WithinThree(t: Tile, p: nat, q: nat, fore: Colour, back: Colour)
    requires LeastMeans(t, p) && q < 16
    ensures MeanError(t, p) <= Error(t, q, fore, back, 4) + 3
  {
    hide Bit, Count, Error, MeanError;
    if q == 0 || q == 15 {
      OneColour(t, q, fore, back);
    } else {
      PatternGroups(q);
      CountsAddUp(q, 4);
      MeansNearlyBest(t, q, fore, back);
    }
  }

  lemma DistOfFour(x: Channel, p: nat, k: nat, c: int)
    ensures Dist(x, p, k, c, 4) ==
      (if Bit(p, 0) == k then (x[0] - c) * (x[0] - c) else 0) + (if Bit(p, 1) == k then (x[1] - c) * (x[1] - c) else 0)
      + (if Bit(p, 2) == k then (x[2] - c) * (x[2] - c) else 0) + (if Bit(p, 3) == k then (x[3] - c) * (x[3] - c) else 0)
  {
    hide Bit;
    assert Dist(x, p, k, c, 2) == Dist(x, p, k, c, 1) + (if Bit(p, 1) == k then (x[1] - c) * (x[1] - c) else 0);
  }

  lemma SumOfFour(x: Channel, p: nat, k: nat)
    ensures Sum(x, p, k, 4) == (if Bit(p, 0) == k then x[0] else 0) + (if Bit(p, 1) == k then x[1] else 0)
      + (if Bit(p, 2) == k then x[2] else 0) + (if Bit(p, 3) == k then x[3] else 0)
  {
    hide Bit;
    assert Sum(x, p, k, 2) == Sum(x, p, k, 1) + (if Bit(p, 1) == k then x[1] else 0);
  }

  /** One channel of the tile below: rounding the mean of 1, 1 and 0 down to 0 costs 1. */
  lemma ChannelLosesOne(x: Channel)
    requires x == [1, 1, 0, 255]
    ensures Level(x, 7, 1) == 0 && Level(x, 7, 0) == 255
    ensures Dist(x, 7, 1, 0, 4) == 2 && Dist(x, 7, 1, 1, 4) == 1 && Dist(x, 7, 0, 255, 4) == 0
  {
    hide Dist, Sum, Count;
    PatternGroups(7);
    CountsAddUp(7, 4);
    SumOfFour(x, 7, 1);
    SumOfFour(x, 7, 0);
    DistOfFour(x, 7, 1, 0);
    DistOfFour(x, 7, 1, 1);
    DistOfFour(x, 7, 0, 255);
  }

  lemma FarApart(a: int, c: int)
    requires 0 <= a <= 1
    ensures (a - c) * (a - c) + (255 - c) * (255 - c) >= 4
  {
    if c <= 253 {
      assert (255 - c) * (255 - c) >= 2 * (255 - c);
    } else {
      assert (c - a) * (c - a) >= 2 * (c - a);
    }
  }

  lemma SquareIsNatural(u: int)
    ensures u * u >= 0
  {
  }

  /** Any other of the first eight patterns puts one of the dark pixels beside the white one. */
  lemma OtherPatternsLoseMore(x: Channel, q: nat, fore: int, back: int)
    requires x == [1, 1, 0, 255] && q < 7
    ensures Dist(x, q, 1, fore, 4) + Dist(x, q, 0, back, 4) >= 4
  {
    hide Dist;
    PatternGroups(q);
    DistOfFour(x, q, 1, fore);
    DistOfFour(x, q, 0, back);
    FarApart(0, back);
    FarApart(1, back);
    SquareIsNatural(1 - fore);
    SquareIsNatural(0 - fore);
    SquareIsNatural(255 - fore);
    SquareIsNatural(1 - back);
    SquareIsNatural(0 - back);
    assert Bit(q, 3) == 0;
    assert Bit(q, 0) == 0 || Bit(q, 1) == 0 || Bit(q, 2) == 0;
  }

  /** The bound is reached by the search: on two pixels of level 1 beside a black and a white one, pattern 7 alone
      of the first eight has the least error with rounded means, and two colours draw it with 3 less. */
  lemma ThreeIsReached()
    ensures var t: Tile := [Rgb(1, 1, 1), Rgb(1, 1, 1), Rgb(0, 0, 0), Rgb(255, 255, 255)];
      && LeastMeans(t, 7) && (forall q :: 0 <= q < 7 ==> MeanError(t, 7) < MeanError(t, q))
      && MeanError(t, 7) == Error(t, 7, Colour(1, 1, 1), Colour(255, 255, 255), 4) + 3
  {
    hide Dist, Error, Level;
    var t: Tile := [Rgb(1, 1, 1), Rgb(1, 1, 1), Rgb(0, 0, 0), Rgb(255, 255, 255)];
    ChannelLosesOne(Reds(t));
    ChannelLosesOne(Greens(t));
    ChannelLosesOne(Blues(t));
    ErrorByChannel(t, 7, Exact(Mean(t, 7, 1)), Exact(Mean(t, 7, 0)), 4);
    ErrorByChannel(t, 7, Colour(1, 1, 1), Colour(255, 255, 255), 4);
    forall q | 0 <= q < 8 ensures MeanError(t, 7) <= MeanError(t, q) && (q < 7 ==> MeanError(t, 7) < MeanError(t, q)) {
      OtherErrors(t, q);
    }
    EightAreEnough(t, 7);
  }

  lemma OtherErrors(t: Tile, q: nat)
    requires t == [Rgb(1, 1, 1), Rgb(1, 1, 1), Rgb(0, 0, 0), Rgb(255, 255, 255)]
    ensures q < 7 ==> MeanError(t, q) >= 12
  {
    hide Dist, Error, Level;
    if q < 7 {
      var fore, back := Mean(t, q, 1), Mean(t, q, 0);
      ErrorByChannel(t, q, Exact(fore), Exact(back), 4);
      OtherPatternsLoseMore(Reds(t), q, fore.r, back.r);
      OtherPatternsLoseMore(Greens(t), q, fore.g, back.g);
      OtherPatternsLoseMore(Blues(t), q, fore.b, back.b);
    }
  }

  // ---------------------------------------------------------------- the search

  /** The means of the two groups, from counts and sums kept in arrays. */
  method Averages(t: Tile, p: nat) returns (back: Rgb, fore: Rgb)
    ensures back == Mean(t, p, 0) && fore == Mean(t, p, 1)
  {
    hide Bit, Level;
    var cnt := new nat[2](_ => 0);
    var sum := new int[2, 3]((_, _) => 0);
    for b := 0 to 4
      invariant forall k :: 0 <= k < 2 ==> cnt[k] == Count(p, k, b)
      invariant forall k :: 0 <= k < 2 ==> sum[k, 0] == Sum(Reds(t), p, k, b)
      invariant forall k :: 0 <= k < 2 ==> sum[k, 1] == Sum(Greens(t), p, k, b)
      invariant forall k :: 0 <= k < 2 ==> sum[k, 2] == Sum(Blues(t), p, k, b)
    {
      var k := Bit(p, b);
      cnt[k] := cnt[k] + 1;
      sum[k, 0] := sum[k, 0] + t[b].r;
      sum[k, 1] := sum[k, 1] + t[b].g;
      sum[k, 2] := sum[k, 2] + t[b].b;
    }
    back := Average(t, p, 0, cnt[0], sum[0, 0], sum[0, 1], sum[0, 2]);
    fore := Average(t, p, 1, cnt[1], sum[1, 0], sum[1, 1], sum[1, 2]);
  }

  method Average(t: Tile, p: nat, k: nat, n: nat, r: int, g: int, b: int) returns (m: Rgb)
    requires n == Count(p, k, 4)
    requires r == Sum(Reds(t), p, k, 4) && g == Sum(Greens(t), p, k, 4) && b == Sum(Blues(t), p, k, 4)
    ensures m == Mean(t, p, k)
  {
    hide Bit, Count, Sum;
    m := BLACK;
    if n > 0 {
      LevelIsOctet(Reds(t), p, k);
      LevelIsOctet(Greens(t), p, k);
      LevelIsOctet(Blues(t), p, k);
      m := Rgb(r / n, g / n, b / n);
    }
  }

  lemma SquareBound(x: int)
    requires -256 < x < 256
    ensures 0 <= x * x < 65536
  {
    var y := if x < 0 then -x else x;
    assert y * y == x * x && y * y <= 255 * y;
  }

  lemma DiffBound(a: Rgb, b: Rgb)
    ensures 0 <= Diff(a, Exact(b)) < 196608
    ensures Diff(a, Exact(b)) == 0 <==> a == b
  {
    SquareBound(a.r - b.r);
    SquareBound(a.g - b.g);
    SquareBound(a.b - b.b);
  }

  method TileError(t: Tile, p: nat, fore: Rgb, back: Rgb) returns (err: int)
    ensures err == Error(t, p, Exact(fore), Exact(back), 4) && err < MAX_INT64
  {
    hide Bit, Diff;
    err := 0;
    for b := 0 to 4
      invariant err == Error(t, p, Exact(fore), Exact(back), b) && err <= 196608 * b
    {
      var c := if Bit(p, b) == 1 then fore else back;
      DiffBound(t[b], c);
      err := err + Diff(t[b], Exact(c));
    }
  }

  /** `optimizeTile`: the means of a pattern of least error; the first such pattern, except that one in
      which the empty foreground won over black becomes the full block. */
  method OptimizeTile(t: Tile) returns (pattern: nat, fore: Rgb, back: Rgb)
    ensures pattern < 16 && fore == Mean(t, pattern, 1) && back == Mean(t, pattern, 0)
    ensures LeastMeans(t, pattern)
    ensures pattern == 15 || (pattern < 8 && forall q :: 0 <= q < pattern ==> MeanError(t, pattern) < MeanError(t, q))
    ensures pattern == 15 <==> LeastMeans(t, 0) && Mean(t, 0, 0) == BLACK
  {
    hide Error, Mean, Diff;
    var bestErr := MAX_INT64;
    pattern, fore, back := 0, BLACK, BLACK;
    for p := 0 to 8
      invariant pattern < 8 && (p == 0 ==> bestErr == MAX_INT64)
      invariant p > 0 ==> pattern < p && bestErr == MeanError(t, pattern) && fore == Mean(t, pattern, 1) && back == Mean(t, pattern, 0)
      invariant forall q :: 0 <= q < p ==> MeanError(t, pattern) <= MeanError(t, q)
      invariant forall q :: 0 <= q < pattern ==> MeanError(t, pattern) < MeanError(t, q)
    {
      var zero, one := Averages(t, p);
      var err := TileError(t, p, one, zero);
      if err < bestErr {
        bestErr, pattern, back, fore := err, p, zero, one;
      }
    }
    EightAreEnough(t, pattern);
    FullBlock(t);
    DiffBound(fore, back);
    if pattern == 0 && Diff(fore, Exact(back)) == 0 {
      pattern := 15;
    }
  }

  /** The full block stands for pattern 0 with the groups swapped; in pattern 0 the foreground is empty. */
  lemma FullBlock(t: Tile)
    ensures Mean(t, 0, 1) == BLACK
    ensures Mean(t, 15, 1) == Mean(t, 0, 0) && Mean(t, 15, 0) == Mean(t, 0, 1)
    ensures LeastMeans(t, 0) ==> LeastMeans(t, 15)
  {
    hide MeanError, Sum;
    OppositeIsEqual(t, 0);
    PatternGroups(0);
  }

  lemma EightAreEnough(t: Tile, p: nat)
    requires p < 8 && forall q :: 0 <= q < 8 ==> MeanError(t, p) <= MeanError(t, q)
    ensures LeastMeans(t, p)
  {
    hide MeanError;
    forall q | 0 <= q < 16 ensures MeanError(t, p) <= MeanError(t, q) {
      if q >= 8 {
        OppositeIsEqual(t, 15 - q);
      }
    }
  }
}
