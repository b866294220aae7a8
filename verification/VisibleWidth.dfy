/** Text with terminal escapes: its visible width, and fitting it to a width. An escape runs from ESC to the
    next `m`. Characters are code points. */
module VisibleWidth {
  import opened Text

  // ---------------------------------------------------------------- width

  /** The escape state after a character. */
  function Inside(c: char, inEsc: bool): bool {
    if inEsc then c != 'm' else c == ESC
  }

  /** The visible characters of a text read from a state. */
  function WidthFrom(s: string, inEsc: bool): nat
    decreases |s|
  {
    if s == [] then 0 else (if inEsc || s[0] == ESC then 0 else 1) + WidthFrom(s[1..], Inside(s[0], inEsc))
  }

  /** The state at the end of a text. */
  predicate OpenFrom(s: string, inEsc: bool)
    decreases |s|
  {
    if s == [] then inEsc else OpenFrom(s[1..], Inside(s[0], inEsc))
  }

  function Width(s: string): nat {
    WidthFrom(s, false)
  }

  /** The text ends inside an escape. */
  predicate Open(s: string) {
    OpenFrom(s, false)
  }

  lemma {:induction false} Append(a: string, b: string, inEsc: bool)
    ensures WidthFrom(a + b, inEsc) == WidthFrom(a, inEsc) + WidthFrom(b, OpenFrom(a, inEsc))
    ensures OpenFrom(a + b, inEsc) == OpenFrom(b, OpenFrom(a, inEsc))
    decreases |a|
  {
    if a == [] {
      assert a + b == b;
    } else {
      assert (a + b)[1..] == a[1..] + b;
      Append(a[1..], b, Inside(a[0], inEsc));
    }
  }

  lemma WidthSnoc(s: string, c: char)
    ensures Width(s + [c]) == Width(s) + (if Open(s) || c == ESC then 0 else 1)
    ensures Open(s + [c]) == Inside(c, Open(s))
  {
    Append(s, [c], false);
    assert [c][1..] == [];
  }

  /** `VisibleWidth` */
  method MeasureWidth(s: string) returns (w: nat)
    ensures w == Width(s)
  {
    hide WidthFrom, OpenFrom;
    w := 0;
    var inEsc := false;
    NothingVisible(false);
    for i := 0 to |s|
      invariant w == Width(s[..i]) && inEsc == Open(s[..i])
    {
      var c := s[i];
      WidthSnoc(s[..i], c);
      assert s[..i + 1] == s[..i] + [c];
      if inEsc {
        if c == 'm' {
          inEsc := false;
        }
        continue;
      }
      if c == ESC {
        inEsc := true;
        continue;
      }
      w := w + 1;
    }
    assert s[..|s|] == s;
  }

  lemma NothingVisible(inEsc: bool)
    ensures WidthFrom([], inEsc) == 0 && OpenFrom([], inEsc) == inEsc
  {
  }

  // ---------------------------------------------------------------- truncation

  /** The length of an escape, up to and with its `m`, or to the end of the text. */
  function EscapeLength(s: string): (n: nat)
    requires s != [] && s[0] == ESC
    ensures 0 < n <= |s|
    ensures forall i :: 0 < i < n - 1 ==> s[i] != 'm'
    ensures n < |s| ==> s[n - 1] == 'm'
  {
    1 + UpToM(s[1..])
  }

  function UpToM(s: string): (n: nat)
    ensures n <= |s| && (forall i :: 0 <= i < n - 1 ==> s[i] != 'm') && (n < |s| ==> n > 0 && s[n - 1] == 'm')
  {
    if s == [] then 0 else if s[0] == 'm' then 1 else 1 + UpToM(s[1..])
  }

  /** `truncateVisible`, with some characters kept already. */
  function Truncated(s: string, width: int, vis: nat): string
    decreases |s|
  {
    if s == [] then []
    else if s[0] == ESC then s[..EscapeLength(s)] + Truncated(s[EscapeLength(s)..], width, vis)
    else if vis >= width then []
    else [s[0]] + Truncated(s[1..], width, vis + 1)
  }

  /** Inside an escape nothing is visible, and only an `m` gets out. */
  lemma {:induction false} InEscape(s: string)
    requires forall i :: 0 <= i < |s| - 1 ==> s[i] != 'm'
    ensures WidthFrom(s, true) == 0
    ensures OpenFrom(s, true) <==> s == [] || s[|s| - 1] != 'm'
    decreases |s|
  {
    if s != [] {
      assert forall i :: 0 <= i < |s[1..]| - 1 ==> s[1..][i] == s[i + 1];
      if |s| == 1 {
        assert s[1..] == [];
      } else {
        assert s[0] != 'm';
        InEscape(s[1..]);
      }
    }
  }

  lemma WholeEscape(s: string)
    requires s != [] && s[0] == ESC
    ensures var e := s[..EscapeLength(s)];
      WidthFrom(e, false) == 0 && (EscapeLength(s) < |s| ==> !OpenFrom(e, false))
  {
    hide EscapeLength;
    var n := EscapeLength(s);
    var e := s[..n];
    assert forall i :: 0 <= i < |e[1..]| ==> e[1..][i] == s[i + 1];
    InEscape(e[1..]);
  }

  /** What a truncation keeps and leaves: the front of the text, cut between a kept part that ends outside any
      escape and a visible character, with the width asked for; or the whole text, when it is not wider. */
  lemma {:induction false} TruncatedKeeps(s: string, width: int, vis: nat)
    ensures var t := Truncated(s, width, vis);
      && t <= s
      && (t == s || (!Open(t) && s[|t|] != ESC && vis + Width(t) == (if vis < width then width else vis)))
      && (t == s <==> Width(s) == 0 || vis + Width(s) <= width)
    decreases |s|
  {
    hide EscapeLength;
    if s == [] {
    } else if s[0] == ESC {
      var n := EscapeLength(s);
      var e, rest := s[..n], s[n..];
      assert s == e + rest;
      WholeEscape(s);
      Append(e, rest, false);
      if n == |s| {
        assert rest == [] && e == s;
        assert e + [] == e;
      } else {
        TruncatedKeeps(rest, width, vis);
        var t := Truncated(rest, width, vis);
        Append(e, t, false);
        PrefixOf(e, t, rest);
      }
    } else if vis < width {
      var rest := s[1..];
      TruncatedKeeps(rest, width, vis + 1);
      var t := Truncated(rest, width, vis + 1);
      assert s == [s[0]] + rest;
      assert ([s[0]] + t)[1..] == t;
      PrefixOf([s[0]], t, rest);
      WidthBound(rest);
    } else {
      NothingVisible(false);
    }
  }

  lemma WidthBound(s: string)
    ensures Width(s) >= 0
  {
  }

  lemma PrefixOf(e: string, t: string, rest: string)
    requires t <= rest
    ensures e + t <= e + rest
    ensures e + t == e + rest <==> t == rest
    ensures |t| < |rest| ==> (e + rest)[|e + t|] == rest[|t|]
  {
    if e + t == e + rest {
      assert t == (e + t)[|e|..] && rest == (e + rest)[|e|..];
    }
  }

  /** `truncateVisible` */
  method TruncateVisible(s: string, width: int) returns (sb: string)
    ensures sb == Truncated(s, width, 0)
  {
    hide Truncated, EscapeLength;
    sb := "";
    var vis, i := 0, 0;
    assert s[0..] == s && "" + Truncated(s, width, 0) == Truncated(s, width, 0);
    while i < |s|
      invariant i <= |s|
      invariant sb + Truncated(s[i..], width, vis) == Truncated(s, width, 0)
      decreases |s| - i
    {
      TruncatedStep(s[i..], width, vis);
      if s[i] == ESC {
        var j := i + 1;
        while j < |s| && s[j] != 'm'
          invariant i < j <= |s| && forall k :: i < k < j ==> s[k] != 'm'
        {
          j := j + 1;
        }
        if j < |s| {
          j := j + 1;
        }
        EscapeEnds(s[i..], j - i);
        assert s[i..][..j - i] == s[i..j] && s[i..][j - i..] == s[j..];
        assert sb + (s[i..j] + Truncated(s[j..], width, vis)) == sb + s[i..j] + Truncated(s[j..], width, vis);
        sb := sb + s[i..j];
        i := j;
        continue;
      }
      if vis >= width {
        assert sb + [] == sb;
        return;
      }
      assert s[i..][1..] == s[i + 1..];
      assert sb + ([s[i]] + Truncated(s[i + 1..], width, vis + 1)) == sb + [s[i]] + Truncated(s[i + 1..], width, vis + 1);
      sb := sb + [s[i]];
      vis := vis + 1;
      i := i + 1;
    }
    assert s[|s|..] == [];
    TruncatedStep([], width, vis);
    assert sb + [] == sb;
  }

  lemma TruncatedStep(s: string, width: int, vis: nat)
    ensures Truncated(s, width, vis) ==
      if s == [] then []
      else if s[0] == ESC then s[..EscapeLength(s)] + Truncated(s[EscapeLength(s)..], width, vis)
      else if vis >= width then []
      else [s[0]] + Truncated(s[1..], width, vis + 1)
  {
    hide EscapeLength;
  }

  lemma EscapeEnds(s: string, n: nat)
    requires s != [] && s[0] == ESC && 0 < n <= |s|
    requires forall k :: 0 < k < n - 1 ==> s[k] != 'm'
    requires n < |s| ==> n > 1 && s[n - 1] == 'm'
    requires n == |s| || s[n - 1] == 'm'
    ensures EscapeLength(s) == n
  {
    EndOfM(s[1..], n - 1);
  }

  lemma {:induction false} EndOfM(s: string, n: nat)
    requires n <= |s| && forall k :: 0 <= k < n - 1 ==> s[k] != 'm'
    requires n < |s| ==> n > 0 && s[n - 1] == 'm'
    ensures UpToM(s) == n
  {
    if n > 1 {
      assert s[0] != 'm';
      assert forall k :: 0 <= k < n - 2 ==> s[1..][k] == s[k + 1];
      EndOfM(s[1..], n - 1);
    }
  }

  // ---------------------------------------------------------------- fitting

  /** `FitVisibleWidth` */
  function Fitted(s: string, width: int): string {
    if Width(s) == width then s
    else if Width(s) < width then s + Spaces(width - Width(s))
    else Truncated(s, width, 0)
  }

  method FitVisibleWidth(s: string, width: int) returns (r: string)
    ensures r == Fitted(s, width)
  {
    var vis := MeasureWidth(s);
    if vis == width {
      return s;
    }
    if vis < width {
      return s + Spaces(width - vis);
    }
    r := TruncateVisible(s, width);
  }

  /** Spaces are visible outside an escape and lost inside one. */
  lemma {:induction false} SpacesWidth(s: string, inEsc: bool)
    requires forall i :: 0 <= i < |s| ==> s[i] == ' '
    ensures WidthFrom(s, inEsc) == (if inEsc then 0 else |s|) && OpenFrom(s, inEsc) == inEsc
    decreases |s|
  {
    if s != [] {
      SpacesWidth(s[1..], inEsc);
    }
  }

  /** Padding is needed, and would end up inside an escape that is not finished. */
  predicate PadsInEscape(s: string, width: int) {
    Open(s) && Width(s) < width
  }

  /** The fitted text has exactly the width asked for, unless the width is negative or the padding would end
      up inside an unfinished escape. */
  lemma FitsExactly(s: string, width: int)
    ensures Width(Fitted(s, width)) == width <==> width >= 0 && !PadsInEscape(s, width)
  {
    hide WidthFrom, OpenFrom, Truncated, Spaces;
    if Width(s) < width {
      Append(s, Spaces(width - Width(s)), false);
      SpacesWidth(Spaces(width - Width(s)), Open(s));
    } else if Width(s) > width {
      TruncatedKeeps(s, width, 0);
    }
  }

  /** Fitting twice is fitting once, except where the padding ends up inside an unfinished escape. */
  lemma FitTwice(s: string, width: int)
    ensures Fitted(Fitted(s, width), width) == Fitted(s, width) <==> !PadsInEscape(s, width)
  {
    hide WidthFrom, OpenFrom, Truncated, Spaces;
    FitsExactly(s, width);
    var f := Fitted(s, width);
    if PadsInEscape(s, width) {
      Append(s, Spaces(width - Width(s)), false);
      SpacesWidth(Spaces(width - Width(s)), true);
      assert |Fitted(f, width)| > |f|;
    } else if width < 0 {
      TruncatedKeeps(s, width, 0);
      TruncatedKeeps(f, width, 0);
    }
  }

  /** A lone ESC, fitted to one column: the blank that is added disappears in the escape. */
  lemma PaddingIsLost()
    ensures Fitted([ESC], 1) == [ESC, ' '] && Width(Fitted([ESC], 1)) == 0
  {
    hide WidthFrom, OpenFrom;
    NothingVisible(false);
    WidthSnoc([], ESC);
    WidthSnoc([ESC], ' ');
    assert [] + [ESC] == [ESC];
    assert Spaces(1) == [' '] && [ESC] + [' '] == [ESC, ' '];
  }
}
