/** Widths and boxes of a display text, with the characters written out. */
module DisplayText {
  import opened Text
  import opened VisibleWidth
  import opened BoxAlign

  // ---------------------------------------------------------------- widths

  /** Without an escape every character is visible. */
  lemma {:induction false} PlainWidth(s: string)
    requires ESC !in s
    ensures Width(s) == |s| && !Open(s)
  {
    if s != "" {
      PlainWidth(s[1..]);
    }
  }

  /** From an ESC up to the next m nothing is visible, whatever stands between. */
  lemma EscapeWidth(before: string, body: string, after: string)
    requires !Open(before) && 'm' !in body
    ensures Width(before + ([ESC] + body + "m") + after) == Width(before) + Width(after)
    ensures Open(before + ([ESC] + body + "m") + after) == Open(after)
  {
    hide WidthFrom, OpenFrom;
    var e := [ESC] + body + "m";
    OneEscape(body);
    Append(before, e, false);
    Append(before + e, after, false);
  }

  lemma OneEscape(body: string)
    requires 'm' !in body
    ensures WidthFrom([ESC] + body + "m", false) == 0 && !OpenFrom([ESC] + body + "m", false)
  {
    var e := [ESC] + body + "m";
    assert e[1..] == body + "m";
    InEscape(body + "m");
  }

  /** A text without escapes is filled with blanks, or cut. */
  lemma FitPlain(s: string, width: nat)
    requires ESC !in s
    ensures Fitted(s, width) == if |s| <= width then s + Spaces(width - |s|) else s[..width]
  {
    hide Truncated, Spaces;
    PlainWidth(s);
    assert |s| == width ==> s + Spaces(0) == s;
    if |s| > width {
      CutPlain(s, width, 0);
    }
  }

  lemma {:induction false} CutPlain(s: string, width: nat, vis: nat)
    requires ESC !in s && vis <= width <= vis + |s|
    ensures Truncated(s, width, vis) == s[..width - vis]
    decreases |s|
  {
    if s != "" && vis < width {
      CutPlain(s[1..], width, vis + 1);
      assert [s[0]] + s[1..][..width - vis - 1] == s[..width - vis];
    }
  }

  // ---------------------------------------------------------------- boxes

  /** A horizontal bar of n characters. */
  function Bars(n: nat): (s: string)
    ensures |s| == n && forall i :: 0 <= i < n ==> s[i] == '\U{2550}'
  {
    seq(n, _ => '\U{2550}')
  }

  function TopBorder(n: nat): string {
    ['\U{2554}'] + Bars(n) + ['\U{2557}']
  }

  function BottomBorder(n: nat): string {
    ['\U{255A}'] + Bars(n) + ['\U{255D}']
  }

  function Sides(inner: string): string {
    ['\U{2551}'] + inner + ['\U{2551}']
  }

  lemma {:induction false} BarCount(s: string)
    requires forall i :: 0 <= i < |s| ==> s[i] == '\U{2550}'
    ensures CountOf(['\U{2554}'] + s, '\U{2550}') == |s|
    decreases |s|
  {
    var t := ['\U{2554}'] + s;
    if s == "" {
      assert t[..0] == "";
    } else {
      assert t[..|t| - 1] == ['\U{2554}'] + s[..|s| - 1];
      BarCount(s[..|s| - 1]);
    }
  }

  /** The width of a box is the number of bars of its top border. */
  lemma BorderCounts(n: nat)
    ensures BorderWidth(TopBorder(n)) == n
  {
    hide CountOf;
    var t := TopBorder(n);
    assert t[0] == '\U{2554}';
    assert t[..|t| - 1] == ['\U{2554}'] + Bars(n);
    BarCount(Bars(n));
    LastNoBar(t);
  }

  lemma LastNoBar(t: string)
    requires t != "" && t[|t| - 1] != '\U{2550}'
    ensures CountOf(t, '\U{2550}') == CountOf(t[..|t| - 1], '\U{2550}')
  {
  }

  /** A text without corners, sides and line ends. */
  predicate Plain(inner: string) {
    '\U{2554}' !in inner && '\U{255A}' !in inner && '\U{2551}' !in inner && '\n' !in inner
  }

  /** A row between two sides is fitted to the width. */
  lemma RowAligned(inner: string, width: nat)
    requires Plain(inner)
    ensures AlignedLine(Sides(inner), width) == Sides(Fitted(inner, width))
  {
    hide Fitted, FirstIndex, LastIndex;
    var line := Sides(inner);
    assert line == [] + ['\U{2551}'] + (inner + ['\U{2551}']);
    FirstOf([], inner + ['\U{2551}'], '\U{2551}');
    LastOf(['\U{2551}'] + inner, '\U{2551}');
    assert line[1..|line| - 1] == inner && line[..1] == ['\U{2551}'];
  }

  lemma BordersStay(n: nat, width: nat)
    ensures AlignedLine(TopBorder(n), width) == TopBorder(n) && AlignedLine(BottomBorder(n), width) == BottomBorder(n)
  {
    hide FirstIndex, LastIndex, Fitted;
    assert TopBorder(n)[0] == '\U{2554}' && BottomBorder(n)[0] == '\U{255A}';
  }

  /** A box of one row, as it comes out. */
  lemma BoxOfOneRow(inner: string, n: nat)
    requires Plain(inner) && n > 0
    ensures Aligned(TopBorder(n) + ['\n'] + (Sides(inner) + ['\n'] + BottomBorder(n)))
         == TopBorder(n) + ['\n'] + (Sides(Fitted(inner, n)) + ['\n'] + BottomBorder(n))
  {
    hide AlignedLine, BorderWidth, Fitted, Split;
    var a, b, c := TopBorder(n), Sides(inner), BottomBorder(n);
    var lines := [a, b, c];
    NoBreakInside(inner, n);
    SplitNone(c, '\n');
    SplitField(b, '\n', c);
    SplitField(a, '\n', b + ['\n'] + c);
    assert [a] + ([b] + [c]) == lines;
    BorderCounts(n);
    RowAligned(inner, n);
    BordersStay(n, n);
    var r := Sides(Fitted(inner, n));
    assert AlignedLines(lines, n) == [a, r, c];
    assert [a, r, c][1..] == [r, c] && [r, c][1..] == [c];
    assert Join([c], '\n') == c && Join([r, c], '\n') == r + ['\n'] + c;
  }

  lemma NoBreakInside(inner: string, n: nat)
    requires '\n' !in inner
    ensures '\n' !in TopBorder(n) && '\n' !in Sides(inner) && '\n' !in BottomBorder(n)
  {
  }
}
