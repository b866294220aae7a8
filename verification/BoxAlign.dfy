/** Bordered rows of a display text are fitted to the width of the top border. */
module BoxAlign {
  import opened Text
  import opened VisibleWidth

  const TOP_LEFT: char := '\U{2554}'
  const BOTTOM_LEFT: char := '\U{255A}'
  const HORIZONTAL: char := '\U{2550}'
  const VERTICAL: char := '\U{2551}'

  function CountOf(s: string, c: char): nat {
    if s == [] then 0 else CountOf(s[..|s| - 1], c) + (if s[|s| - 1] == c then 1 else 0)
  }

  /** `boxBorderInnerWidth` */
  function BorderWidth(line: string): nat {
    if TOP_LEFT in line then CountOf(line, HORIZONTAL) else 0
  }

  function FirstIndex(s: string, c: char): (i: nat)
    ensures i <= |s| && c !in s[..i] && (i < |s| ==> s[i] == c)
  {
    if s == [] || s[0] == c then 0 else 1 + FirstIndex(s[1..], c)
  }

  /** `lastRuneIndex`: the place of the last one, or -1. */
  function LastIndex(s: string, c: char): (i: int)
    ensures -1 <= i < |s| && (i >= 0 ==> s[i] == c) && forall k :: i < k < |s| ==> s[k] != c
  {
    if s == [] then -1 else if s[|s| - 1] == c then |s| - 1 else LastIndex(s[..|s| - 1], c)
  }

  /** A row between two vertical bars, and no border. */
  predicate IsContent(line: string) {
    TOP_LEFT !in line && BOTTOM_LEFT !in line && FirstIndex(line, VERTICAL) < LastIndex(line, VERTICAL)
  }

  /** What stands between the outer bars. */
  function Inner(line: string): string
    requires IsContent(line)
  {
    line[FirstIndex(line, VERTICAL) + 1..LastIndex(line, VERTICAL)]
  }

  /** `alignBoxContentLine`; what follows the last bar is dropped. */
  function AlignedLine(line: string, width: int): string {
    if !IsContent(line) then line
    else
      var first := FirstIndex(line, VERTICAL);
      line[..first + 1] + Fitted(Inner(line), width) + [VERTICAL]
  }

  /** The first border with a width decides. */
  function BoxWidth(lines: seq<string>): nat {
    if lines == [] then 0 else if BorderWidth(lines[0]) > 0 then BorderWidth(lines[0]) else BoxWidth(lines[1..])
  }

  function AlignedLines(lines: seq<string>, width: nat): (r: seq<string>)
    ensures |r| == |lines| && forall i :: 0 <= i < |r| ==> r[i] == AlignedLine(lines[i], width)
  {
    seq(|lines|, i requires 0 <= i < |lines| => AlignedLine(lines[i], width))
  }

  /** `alignBoxLines` */
  function Aligned(s: string): string {
    var lines := Split(s, '\n');
    var width := BoxWidth(lines);
    if width == 0 then s else Join(AlignedLines(lines, width), '\n')
  }

  // ---------------------------------------------------------------- one row

  lemma {:induction false} FirstOf(a: string, b: string, c: char)
    requires c !in a
    ensures FirstIndex(a + [c] + b, c) == |a|
  {
    if a != [] {
      assert (a + [c] + b)[1..] == a[1..] + [c] + b;
      FirstOf(a[1..], b, c);
    }
  }

  lemma LastOf(a: string, c: char)
    ensures LastIndex(a + [c], c) == |a|
  {
  }

  /** Fitting adds spaces or drops the end, so no other character comes in. */
  lemma FittedSubset(s: string, width: int, c: char)
    requires c !in s && c != ' '
    ensures c !in Fitted(s, width)
  {
    hide Truncated, Width, Spaces;
    if Width(s) > width {
      TruncatedKeeps(s, width, 0);
    }
  }

  /** An aligned row is still a row, its inner text is the fitted one, and no border comes in. */
  lemma AlignedShape(line: string, width: int)
    requires IsContent(line)
    ensures var r := AlignedLine(line, width);
      IsContent(r) && Inner(r) == Fitted(Inner(line), width)
    ensures FirstIndex(AlignedLine(line, width), VERTICAL) == FirstIndex(line, VERTICAL)
  {
    hide FirstIndex, LastIndex, Fitted;
    var first := FirstIndex(line, VERTICAL);
    var pre, f := line[..first], Fitted(Inner(line), width);
    var r := AlignedLine(line, width);
    assert r == pre + [VERTICAL] + (f + [VERTICAL]);
    FirstOf(pre, f + [VERTICAL], VERTICAL);
    assert r == (pre + [VERTICAL] + f) + [VERTICAL];
    LastOf(pre + [VERTICAL] + f, VERTICAL);
    FittedSubset(Inner(line), width, TOP_LEFT);
    FittedSubset(Inner(line), width, BOTTOM_LEFT);
    NotIn(pre, f, TOP_LEFT);
    NotIn(pre, f, BOTTOM_LEFT);
    assert r[first + 1..|r| - 1] == f;
  }

  lemma NotIn(pre: string, f: string, c: char)
    requires c !in pre && c !in f && c != VERTICAL
    ensures c !in pre + [VERTICAL] + (f + [VERTICAL])
  {
  }

  /** The inner width of an aligned row is the border's, unless the row is too short and ends inside an
      unfinished escape. */
  lemma RowFits(line: string, width: nat)
    requires IsContent(line)
    ensures IsContent(AlignedLine(line, width))
    ensures Width(Inner(AlignedLine(line, width))) == width <==> !PadsInEscape(Inner(line), width)
  {
    hide FirstIndex, LastIndex, Fitted, PadsInEscape, Width;
    AlignedShape(line, width);
    FitsExactly(Inner(line), width);
  }

  lemma AlignedText(line: string, width: int)
    requires IsContent(line)
    ensures AlignedLine(line, width) ==
      line[..FirstIndex(line, VERTICAL) + 1] + Fitted(Inner(line), width) + [VERTICAL]
  {
    hide FirstIndex, LastIndex, Fitted;
  }

  lemma SameMiddle(pre: string, a: string, b: string, post: string)
    ensures pre + a + post == pre + b + post <==> a == b
  {
    assert (pre + a + post)[|pre|..|pre| + |a|] == a;
    if pre + a + post == pre + b + post {
      assert |a| == |b| && (pre + b + post)[|pre|..|pre| + |b|] == b;
    }
  }

  /** Aligning a row twice is aligning it once, under the same condition. */
  lemma RowTwice(line: string, width: nat)
    requires IsContent(line)
    ensures AlignedLine(AlignedLine(line, width), width) == AlignedLine(line, width) <==> !PadsInEscape(Inner(line), width)
  {
    hide FirstIndex, Fitted, PadsInEscape, AlignedLine, Inner;
    var once, pre := AlignedLine(line, width), line[..FirstIndex(line, VERTICAL) + 1];
    AlignedShape(line, width);
    AlignedText(line, width);
    AlignedText(once, width);
    FitTwice(Inner(line), width);
    assert once[..|pre|] == pre;
    SameMiddle(pre, Fitted(Inner(once), width), Fitted(Inner(line), width), [VERTICAL]);
  }

  // ---------------------------------------------------------------- the whole text

  lemma AlignedBorder(line: string, width: nat)
    ensures BorderWidth(AlignedLine(line, width)) == BorderWidth(line)
  {
    hide FirstIndex, LastIndex, Fitted, CountOf, Inner;
    if IsContent(line) {
      AlignedShape(line, width);
    }
  }

  lemma {:induction false} AlignedBox(lines: seq<string>, width: nat)
    ensures BoxWidth(AlignedLines(lines, width)) == BoxWidth(lines)
    decreases |lines|
  {
    hide AlignedLine, BorderWidth;
    if lines != [] {
      AlignedBorder(lines[0], width);
      assert AlignedLines(lines, width)[1..] == AlignedLines(lines[1..], width);
      AlignedBox(lines[1..], width);
    }
  }

  lemma AlignedHasNoBreak(line: string, width: nat)
    requires '\n' !in line
    ensures '\n' !in AlignedLine(line, width)
  {
    hide FirstIndex, LastIndex, Fitted;
    if IsContent(line) {
      FittedSubset(Inner(line), width, '\n');
    }
  }

  /** Some row of the text is padded inside an unfinished escape. */
  predicate Unfit(s: string) {
    var lines := Split(s, '\n');
    exists i :: 0 <= i < |lines| && IsContent(lines[i]) && PadsInEscape(Inner(lines[i]), BoxWidth(lines))
  }

  lemma LinesOfAligned(s: string)
    requires BoxWidth(Split(s, '\n')) != 0
    ensures Split(Aligned(s), '\n') == AlignedLines(Split(s, '\n'), BoxWidth(Split(s, '\n')))
  {
    hide Split, Join, AlignedLine, BoxWidth;
    var lines := Split(s, '\n');
    var width := BoxWidth(lines);
    SplitParts(s, '\n');
    var r := AlignedLines(lines, width);
    forall i | 0 <= i < |r| ensures '\n' !in r[i] {
      AlignedHasNoBreak(lines[i], width);
    }
    SplitJoin(r, '\n');
  }

  /** Line by line: rows between bars stay rows, every other line stays as it is, and there are as many lines as
      before, under a border of the same width. Every row gets that width exactly when none is padded inside an
      unfinished escape. */
  lemma BoxIsAligned(s: string)
    ensures var before, after := Split(s, '\n'), Split(Aligned(s), '\n');
      var width := BoxWidth(before);
      && |after| == |before| && BoxWidth(after) == width
      && (forall i :: 0 <= i < |before| ==> IsContent(before[i]) == IsContent(after[i]))
      && (forall i :: 0 <= i < |before| && !IsContent(before[i]) ==> after[i] == before[i])
      && (width > 0 ==>
            ((forall i :: 0 <= i < |after| && IsContent(after[i]) ==> Width(Inner(after[i])) == width) <==> !Unfit(s)))
  {
    hide Split, Aligned, BoxWidth, IsContent, Inner, Width, PadsInEscape, AlignedLine;
    var lines := Split(s, '\n');
    var width := BoxWidth(lines);
    if width == 0 {
      NoBox(s);
    } else {
      LinesOfAligned(s);
      AlignedBox(lines, width);
      var after := AlignedLines(lines, width);
      forall i | 0 <= i < |lines|
        ensures IsContent(after[i]) == IsContent(lines[i])
        ensures IsContent(lines[i]) ==> (Width(Inner(after[i])) == width <==> !PadsInEscape(Inner(lines[i]), width))
        ensures !IsContent(lines[i]) ==> after[i] == lines[i]
      {
        OneRow(lines[i], width);
      }
    }
  }

  lemma OneRow(line: string, width: nat)
    ensures IsContent(line) ==> IsContent(AlignedLine(line, width))
    ensures IsContent(line) ==>
      (Width(Inner(AlignedLine(line, width))) == width <==> !PadsInEscape(Inner(line), width))
    ensures !IsContent(line) ==> AlignedLine(line, width) == line
  {
    hide Width, PadsInEscape, FirstIndex, LastIndex, Fitted;
    if IsContent(line) {
      AlignedShape(line, width);
      RowFits(line, width);
    }
  }

  lemma NoBox(s: string)
    requires BoxWidth(Split(s, '\n')) == 0
    ensures Aligned(s) == s
  {
  }

  /** Aligning a line of either kind a second time. */
  lemma LineTwice(line: string, width: nat)
    ensures var once := AlignedLine(line, width);
      AlignedLine(once, width) == once <==> !(IsContent(line) && PadsInEscape(Inner(line), width))
  {
    hide IsContent, Inner, PadsInEscape, AlignedLine;
    if IsContent(line) {
      RowTwice(line, width);
    } else {
      OneRow(line, width);
    }
  }

  lemma NoBoxFits(s: string)
    requires BoxWidth(Split(s, '\n')) == 0
    ensures !Unfit(s)
  {
    hide Split, BoxWidth, IsContent, Inner, Width;
  }

  /** Aligning twice is aligning once, exactly when no row is padded inside an unfinished escape. */
  lemma AlignTwice(s: string)
    ensures Aligned(Aligned(s)) == Aligned(s) <==> !Unfit(s)
  {
    hide Split, BoxWidth, IsContent, Inner, PadsInEscape, AlignedLine, Join, Aligned;
    var lines := Split(s, '\n');
    var width := BoxWidth(lines);
    if width == 0 {
      NoBox(s);
      NoBoxFits(s);
    } else {
      LinesOfAligned(s);
      AlignedBox(lines, width);
      LinesOfAligned(Aligned(s));
      SplitTells(Aligned(Aligned(s)), Aligned(s));
      var r := AlignedLines(lines, width);
      forall i | 0 <= i < |r|
        ensures AlignedLines(r, width)[i] == r[i] <==> !(IsContent(lines[i]) && PadsInEscape(Inner(lines[i]), width))
      {
        LineTwice(lines[i], width);
      }
      assert AlignedLines(r, width) == r <==> forall i :: 0 <= i < |r| ==> AlignedLines(r, width)[i] == r[i];
    }
  }

  /** Texts with the same lines are the same. */
  lemma SplitTells(a: string, b: string)
    ensures a == b <==> Split(a, '\n') == Split(b, '\n')
  {
    hide Split, Join;
    JoinSplit(a, '\n');
    JoinSplit(b, '\n');
  }

  // ---------------------------------------------------------------- as loops

  method BoxBorderInnerWidth(line: string) returns (n: nat)
    ensures n == BorderWidth(line)
  {
    if TOP_LEFT !in line {
      return 0;
    }
    n := 0;
    for i := 0 to |line|
      invariant n == CountOf(line[..i], HORIZONTAL)
    {
      assert line[..i + 1][..i] == line[..i];
      if line[i] == HORIZONTAL {
        n := n + 1;
      }
    }
    assert line[..|line|] == line;
  }

  method LastRuneIndex(s: string, target: char) returns (last: int)
    ensures last == LastIndex(s, target)
  {
    hide LastIndex;
    last := -1;
    LastStep("", target);
    for i := 0 to |s|
      invariant last == LastIndex(s[..i], target)
    {
      assert s[..i + 1][..i] == s[..i];
      LastStep(s[..i + 1], target);
      if s[i] == target {
        last := i;
      }
    }
    assert s[..|s|] == s;
  }

  lemma LastStep(s: string, c: char)
    ensures LastIndex(s, c) == if s == [] then -1 else if s[|s| - 1] == c then |s| - 1 else LastIndex(s[..|s| - 1], c)
  {
  }

  method AlignBoxContentLine(line: string, width: nat) returns (r: string, ok: bool)
    ensures ok == IsContent(line) && r == AlignedLine(line, width)
  {
    hide FirstIndex, LastIndex, Fitted;
    if TOP_LEFT in line || BOTTOM_LEFT in line {
      return line, false;
    }
    var first := FirstIndex(line, VERTICAL);
    var last := LastRuneIndex(line, VERTICAL);
    if first == |line| || last <= first {
      return line, false;
    }
    var fitted := FitVisibleWidth(line[first + 1..last], width);
    assert [line[last]] == [VERTICAL];
    return line[..first + 1] + fitted + line[last..last + 1], true;
  }

  method AlignBoxLines(s: string) returns (r: string)
    ensures r == Aligned(s)
  {
    hide Split, Join, AlignedLine, BorderWidth, IsContent;
    var lines := Split(s, '\n');
    var borderW := 0;
    var i := 0;
    assert lines[0..] == lines;
    while i < |lines|
      invariant i <= |lines| && borderW == 0 && BoxWidth(lines) == BoxWidth(lines[i..])
    {
      assert lines[i..][0] == lines[i] && lines[i..][1..] == lines[i + 1..];
      var w := BoxBorderInnerWidth(lines[i]);
      if w > 0 {
        borderW := w;
        break;
      }
      i := i + 1;
    }
    if borderW == 0 {
      return s;
    }
    var out: seq<string> := [];
    for j := 0 to |lines|
      invariant |out| == j && forall k :: 0 <= k < j ==> out[k] == AlignedLine(lines[k], borderW)
    {
      var aligned, ok := AlignBoxContentLine(lines[j], borderW);
      StaysWithout(lines[j], borderW);
      out := out + [if ok then aligned else lines[j]];
    }
    assert out == AlignedLines(lines, borderW);
    r := Join(out, '\n');
  }

  lemma StaysWithout(line: string, width: nat)
    ensures !IsContent(line) ==> AlignedLine(line, width) == line
  {
  }
}
