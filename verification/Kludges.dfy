/** The text of a FidoNet message: the reader that takes the AREA tag and the control lines out of it
    (`Message.Parse`), and the writer that puts stored columns back into one text (`ReconstructSource`). */
module Kludges {
  import opened Text

  const SOH: char := '\U{01}'

  // ---------------------------------------------------------------- lines

  /** A control mark that does not start a line gets a line of its own. */
  function Broken(prev: char, s: string): string
    decreases |s|
  {
    if s == [] then []
    else (if s[0] == SOH && prev != '\r' && prev != '\n' then ['\n'] else []) + [s[0]] + Broken(s[0], s[1..])
  }

  /** `strings.ReplaceAll(s, "\r\n", "\n")` */
  function JoinCrLf(s: string): string {
    if s == [] then []
    else if |s| > 1 && s[0] == '\r' && s[1] == '\n' then ['\n'] + JoinCrLf(s[2..])
    else [s[0]] + JoinCrLf(s[1..])
  }

  /** `strings.ReplaceAll(s, "\r", "\n")` */
  function CrToLf(s: string): (r: string)
    ensures '\r' !in r
  {
    Replaced(s, '\r', '\n')
  }

  /** Every line ending is a line feed. */
  function Unified(s: string): string {
    CrToLf(JoinCrLf(s))
  }

  /** `normalizeFidoBodyForParse`; the first character counts as the start of a line. */
  function NormalBody(body: string): string {
    Unified(Broken('\n', body))
  }

  /** `strings.TrimRight(s, "\r")` and the like */
  function TrimRight(s: string, c: char): string {
    if s != [] && s[|s| - 1] == c then TrimRight(s[..|s| - 1], c) else s
  }

  function TrimmedRight(lines: seq<string>, c: char): (r: seq<string>)
    ensures |r| == |lines|
  {
    seq(|lines|, i requires 0 <= i < |lines| => TrimRight(lines[i], c))
  }

  /** `fidoLines` */
  function FidoLines(body: string): seq<string> {
    var s := NormalBody(body);
    if s == "" then [] else TrimmedRight(Split(s, '\n'), '\r')
  }

  // ---------------------------------------------------------------- reading

  function MsgIdMark(): string { [SOH] + "MSGID:" }

  function ReplyMark(): string { [SOH] + "REPLY:" }

  function PathMark(): string { [SOH] + "PATH:" }

  const AREA: string := "AREA:"
  const SEEN_BY: string := "SEEN-BY:"

  /** What has been gathered from the lines read so far. */
  datatype Gathered = Gathered(areaTag: string, msgId: string, reply: string,
                               seenBy: seq<string>, path: seq<string>, kludges: seq<string>, text: seq<string>)

  /** One line of `Parse`. */
  function Gather(g: Gathered, line: string): Gathered {
    if MsgIdMark() <= line then g.(msgId := TrimSpace(line[|MsgIdMark()|..]))
    else if ReplyMark() <= line then g.(reply := TrimSpace(line[|ReplyMark()|..]))
    else if PathMark() <= line then g.(path := g.path + Fields(line[|PathMark()|..]))
    else if [SOH] <= line then g.(kludges := g.kludges + [line])
    else if AREA <= line then g.(areaTag := TrimSpace(line[|AREA|..]))
    else if SEEN_BY <= line then g.(seenBy := g.seenBy + Fields(line[|SEEN_BY|..]))
    else g.(text := g.text + [line])
  }

  function GatherAll(g: Gathered, lines: seq<string>): Gathered
    decreases |lines|
  {
    if lines == [] then g else GatherAll(Gather(g, TrimRight(lines[0], '\n')), lines[1..])
  }

  function NothingYet(): Gathered {
    Gathered("", "", "", [], [], [], [])
  }

  datatype ParsedBody = ParsedBody(areaTag: string, msgId: string, reply: string,
                                   seenBy: seq<string>, path: seq<string>, kludges: string, text: string)

  /** `strings.Join` with a separator of any length. */
  function JoinWith(parts: seq<string>, sep: string): string {
    if parts == [] then [] else if |parts| == 1 then parts[0] else parts[0] + sep + JoinWith(parts[1..], sep)
  }

  function Finished(g: Gathered): ParsedBody {
    ParsedBody(g.areaTag, g.msgId, g.reply, g.seenBy, g.path, Join(g.kludges, '\r'), JoinWith(g.text, "\r\n"))
  }

  /** `Message.Parse` */
  function Parsed(body: string): ParsedBody {
    Finished(GatherAll(NothingYet(), FidoLines(body)))
  }

  // ---------------------------------------------------------------- writing

  datatype SourceOpts = SourceOpts(body: string, msgId: string, reply: string, kludges: string,
                                   seenBy: string, path: string, areaTag: string)

  /** The stored kludge lines that are written. */
  function KludgeLines(lines: seq<string>): seq<string> {
    if lines == [] then []
    else
      var line := TrimRight(lines[|lines| - 1], '\n');
      KludgeLines(lines[..|lines| - 1]) + (if line != "" then [line] else [])
  }

  function Optional(mark: string, value: string): seq<string> {
    if value == "" then [] else [mark + value]
  }

  function StoredKludges(o: SourceOpts): seq<string> {
    if o.kludges == "" then [] else KludgeLines(Split(o.kludges, '\r'))
  }

  /** The lines in front of the body. */
  function Head(o: SourceOpts): seq<string> {
    Optional(AREA, o.areaTag) + Optional(MsgIdMark() + " ", o.msgId) + Optional(ReplyMark() + " ", o.reply)
    + StoredKludges(o)
  }

  /** The lines after it. */
  function Tail(o: SourceOpts): seq<string> {
    Optional(SEEN_BY + " ", o.seenBy) + Optional(PathMark() + " ", o.path)
  }

  /** The body, ending in a carriage return unless it is empty. */
  function ClosedBody(body: string): string {
    if body == "" || body[|body| - 1] == '\r' then body else body + "\r"
  }

  /** Lines, each followed by a carriage return. */
  function Terminated(lines: seq<string>): string {
    if lines == [] then "" else lines[0] + "\r" + Terminated(lines[1..])
  }

  /** `ReconstructSource` */
  function SourceText(o: SourceOpts): string {
    Terminated(Head(o)) + ClosedBody(o.body) + Terminated(Tail(o))
  }

  // ---------------------------------------------------------------- breaking into lines

  predicate IsBreak(c: char) {
    c == '\r' || c == '\n'
  }

  /** A line of its own: no line ending, and a control mark at most at its start. */
  predicate CleanLine(s: string) {
    forall i :: 0 <= i < |s| ==> !IsBreak(s[i]) && (i > 0 ==> s[i] != SOH)
  }

  predicate NoBreaks(s: string) {
    forall i :: 0 <= i < |s| ==> !IsBreak(s[i]) && s[i] != SOH
  }

  function Before(prev: char, s: string, i: nat): char
    requires i < |s|
  {
    if i == 0 then prev else s[i - 1]
  }

  /** Every control mark starts a line. */
  predicate WellBroken(prev: char, s: string) {
    forall i :: 0 <= i < |s| && s[i] == SOH ==> IsBreak(Before(prev, s, i))
  }

  lemma {:induction false} BrokenStays(prev: char, s: string)
    requires WellBroken(prev, s)
    ensures Broken(prev, s) == s
    decreases |s|
  {
    if s != [] {
      assert s[0] == SOH ==> IsBreak(Before(prev, s, 0));
      forall i | 0 <= i < |s[1..]| && s[1..][i] == SOH ensures IsBreak(Before(s[0], s[1..], i)) {
        assert IsBreak(Before(prev, s, i + 1));
      }
      BrokenStays(s[0], s[1..]);
      assert s == [s[0]] + s[1..];
    }
  }

  lemma {:induction false} JoinCrLfAppend(a: string, b: string)
    requires a != [] && b != [] ==> !(a[|a| - 1] == '\r' && b[0] == '\n')
    ensures JoinCrLf(a + b) == JoinCrLf(a) + JoinCrLf(b)
    decreases |a|
  {
    var s := a + b;
    if a == [] {
      assert s == b;
    } else if |a| > 1 && a[0] == '\r' && a[1] == '\n' {
      assert s[2..] == a[2..] + b;
      JoinCrLfAppend(a[2..], b);
    } else {
      assert s[1..] == a[1..] + b;
      JoinCrLfAppend(a[1..], b);
    }
  }

  lemma CrToLfAppend(a: string, b: string)
    ensures CrToLf(a + b) == CrToLf(a) + CrToLf(b)
  {
    hide Replaced;
    var s, r := CrToLf(a + b), CrToLf(a) + CrToLf(b);
    assert forall i :: 0 <= i < |s| ==> s[i] == r[i];
  }

  lemma UnifiedAppend(a: string, b: string)
    requires a != [] && b != [] ==> !(a[|a| - 1] == '\r' && b[0] == '\n')
    ensures Unified(a + b) == Unified(a) + Unified(b)
  {
    hide JoinCrLf, CrToLf;
    JoinCrLfAppend(a, b);
    CrToLfAppend(JoinCrLf(a), JoinCrLf(b));
  }

  lemma {:induction false} UnifiedClean(s: string)
    requires CleanLine(s)
    ensures JoinCrLf(s) == s && CrToLf(s) == s && Unified(s) == s
  {
    if s != [] {
      assert CleanLine(s[1..]) by {
        assert forall i :: 0 <= i < |s[1..]| ==> s[1..][i] == s[i + 1];
      }
      UnifiedClean(s[1..]);
      assert s == [s[0]] + s[1..];
    }
  }

  lemma UnifiedBreak()
    ensures Unified("\r") == "\n"
    ensures Unified("\r\n") == "\n"
    ensures Unified("\n") == "\n"
    ensures Unified("") == ""
  {
    assert "\r\n"[2..] == "" && "\r"[1..] == "" && "\n"[1..] == "";
    assert JoinCrLf("\r") == "\r" && JoinCrLf("\r\n") == "\n" && JoinCrLf("\n") == "\n";
  }

  /** Splitting after a line feed splits both sides. */
  lemma {:induction false} SplitAround(a: string, b: string)
    ensures Split(a + "\n" + b, '\n') == Split(a, '\n') + Split(b, '\n')
  {
    var s := a + "\n" + b;
    if a == [] {
      assert s[1..] == b;
      assert Split(a, '\n') == [[]];
    } else {
      assert s[1..] == a[1..] + "\n" + b;
      SplitAround(a[1..], b);
    }
  }

  /** The lines of a body, a carriage return at its end not counted as one more. */
  function BodyLines(body: string): seq<string> {
    if body == "" then [] else Split(Unified(ClosedBody(body)[..|ClosedBody(body)| - 1]), '\n')
  }

  lemma OneLine(p: string, more: string)
    requires CleanLine(p) && (more == [] || more[0] != '\n')
    ensures Split(Unified(p + "\r" + more), '\n') == [p] + Split(Unified(more), '\n')
  {
    hide Unified, Split, CleanLine;
    UnifiedAppend(p + "\r", more);
    UnifiedOne(p);
    CleanHasNoLf(p);
    assert p + "\n" + Unified(more) == p + ['\n'] + Unified(more);
    SplitField(p, '\n', Unified(more));
  }

  lemma UnifiedOne(p: string)
    requires CleanLine(p)
    ensures Unified(p + "\r") == p + "\n"
  {
    hide Unified, CleanLine;
    UnifiedAppend(p, "\r");
    UnifiedClean(p);
    UnifiedBreak();
  }

  /** Lines in front of a text are the first lines of the whole. */
  lemma {:induction false} TerminatedLines(lines: seq<string>, rest: string)
    requires forall i :: 0 <= i < |lines| ==> CleanLine(lines[i])
    requires lines == [] || rest == [] || rest[0] != '\n'
    ensures Split(Unified(Terminated(lines) + rest), '\n') == lines + Split(Unified(rest), '\n')
    decreases |lines|
  {
    hide Unified, Split, CleanLine;
    if lines == [] {
      assert "" + rest == rest;
    } else {
      var p, more := lines[0], Terminated(lines[1..]) + rest;
      assert Terminated(lines) + rest == p + "\r" + more;
      NoLeadingBreak(lines[1..], rest);
      OneLine(p, more);
      TerminatedLines(lines[1..], rest);
      assert lines == [p] + lines[1..];
    }
  }

  lemma CleanHasNoLf(p: string)
    requires CleanLine(p)
    ensures '\n' !in p
  {
  }

  lemma NoLeadingBreak(lines: seq<string>, rest: string)
    requires forall i :: 0 <= i < |lines| ==> CleanLine(lines[i])
    requires rest == [] || rest[0] != '\n'
    ensures var s := Terminated(lines) + rest; s == [] || s[0] != '\n'
  {
  }

  predicate CleanLines(lines: seq<string>) {
    forall i :: 0 <= i < |lines| ==> CleanLine(lines[i])
  }

  /** A text closed by a carriage return, and lines after it. */
  lemma ClosedLines(x: string, tail: seq<string>)
    requires CleanLines(tail)
    ensures Split(Unified(x + "\r" + Terminated(tail)), '\n') == Split(Unified(x), '\n') + tail + [""]
  {
    hide Unified, Split, CleanLine, Terminated;
    var t := Terminated(tail);
    NoLeadingBreak(tail, "");
    assert t + "" == t;
    UnifiedAppend(x + "\r", t);
    UnifiedAppend(x, "\r");
    UnifiedBreak();
    SplitAround(Unified(x), Unified(t));
    TerminatedLines(tail, "");
    EmptySplit();
    assert Split(Unified(x), '\n') + (tail + [""]) == Split(Unified(x), '\n') + tail + [""];
  }

  lemma EmptySplit()
    ensures Split("", '\n') == [""]
  {
  }

  lemma {:induction false} TerminatedSnoc(lines: seq<string>, p: string)
    ensures Terminated(lines + [p]) == Terminated(lines) + p + "\r"
  {
    if lines == [] {
      assert [] + [p] == [p] && [p][1..] == [];
      assert p + "\r" + "" == "" + p + "\r";
    } else {
      assert (lines + [p])[1..] == lines[1..] + [p];
      TerminatedSnoc(lines[1..], p);
      var a := lines[0] + "\r";
      assert a + (Terminated(lines[1..]) + p + "\r") == a + Terminated(lines[1..]) + p + "\r";
    }
  }

  lemma ClosedShape(body: string)
    requires body != ""
    ensures var b := ClosedBody(body);
      b != "" && b[|b| - 1] == '\r' && b == b[..|b| - 1] + "\r" && b[0] == body[0]
  {
  }

  /** A body after lines that it does not run into. */
  lemma LinesApart(head: seq<string>, body: string, tail: seq<string>)
    requires CleanLines(head) && CleanLines(tail)
    requires head == [] || body == "" || body[0] != '\n'
    ensures Split(Unified(Terminated(head) + ClosedBody(body) + Terminated(tail)), '\n') == head + BodyLines(body) + tail + [""]
  {
    hide Unified, Split, CleanLine, Terminated;
    var b, t := ClosedBody(body), Terminated(tail);
    assert Terminated(head) + b + t == Terminated(head) + (b + t);
    NoLeadingBreak(tail, "");
    assert t + "" == t;
    if body == "" {
      assert "" + t == t;
      TerminatedLines(head, t);
      TerminatedLines(tail, "");
      UnifiedBreak();
      EmptySplit();
      assert head + (tail + [""]) == head + [] + tail + [""];
    } else {
      ClosedShape(body);
      var x := b[..|b| - 1];
      ClosedLines(x, tail);
      TerminatedLines(head, b + t);
      assert head + (BodyLines(body) + tail + [""]) == head + BodyLines(body) + tail + [""];
    }
  }

  /** A body that starts with a line feed runs into the carriage return before it, and loses an empty line. */
  lemma LinesMerge(head: seq<string>, body: string, tail: seq<string>)
    requires CleanLines(head) && CleanLines(tail) && head != [] && body != "" && body[0] == '\n'
    ensures BodyLines(body) != [] && BodyLines(body)[0] == ""
    ensures Split(Unified(Terminated(head) + ClosedBody(body) + Terminated(tail)), '\n')
         == head + BodyLines(body)[1..] + tail + [""]
  {
    hide Unified, Split, CleanLine, Terminated, ClosedBody, BodyLines;
    ClosedShape(body);
    var front, p := head[..|head| - 1], head[|head| - 1];
    var b, t := ClosedBody(body), Terminated(tail);
    var x := b[1..|b| - 1];
    assert b == "\n" + x + "\r";
    assert head == front + [p];
    TerminatedSnoc(front, p);
    var rest := x + "\r" + t;
    MergedText(Terminated(front), p, x, t);
    FirstIsNoBreak(p, rest);
    TerminatedLines(front, p + "\r\n" + rest);
    MergeOne(p, rest);
    ClosedLines(x, tail);
    LeadingEmpty(x, body);
    MergedLines(front, p, Split(Unified(x), '\n'), tail);
  }

  lemma MergedText(f: string, p: string, x: string, t: string)
    ensures f + p + "\r" + ("\n" + x + "\r") + t == f + (p + "\r\n" + (x + "\r" + t))
  {
    var mid := p + "\r\n" + (x + "\r" + t);
    assert p + "\r" + ("\n" + x + "\r") + t == mid;
    assert f + p + "\r" + ("\n" + x + "\r") + t == f + (p + "\r" + ("\n" + x + "\r") + t);
  }

  lemma MergedLines(front: seq<string>, p: string, b: seq<string>, tail: seq<string>)
    ensures front + ([p] + (b + tail + [""])) == (front + [p]) + ([""] + b)[1..] + tail + [""]
  {
    assert ([""] + b)[1..] == b;
  }

  lemma MergeOne(p: string, rest: string)
    requires CleanLine(p)
    ensures Split(Unified(p + "\r\n" + rest), '\n') == [p] + Split(Unified(rest), '\n')
  {
    hide Unified, Split, CleanLine;
    UnifiedAppend(p + "\r\n", rest);
    UnifiedPair(p);
    CleanHasNoLf(p);
    assert p + "\n" + Unified(rest) == p + ['\n'] + Unified(rest);
    SplitField(p, '\n', Unified(rest));
  }

  lemma UnifiedPair(p: string)
    requires CleanLine(p)
    ensures Unified(p + "\r\n") == p + "\n"
  {
    hide Unified, CleanLine;
    UnifiedAppend(p, "\r\n");
    UnifiedClean(p);
    UnifiedBreak();
  }

  lemma FirstIsNoBreak(p: string, rest: string)
    requires CleanLine(p)
    ensures (p + "\r\n" + rest)[0] != '\n'
  {
  }

  lemma LeadingEmpty(x: string, body: string)
    requires body != "" && ClosedBody(body) == "\n" + x + "\r"
    ensures BodyLines(body) == [""] + Split(Unified(x), '\n')
  {
    hide Unified, Split;
    assert ClosedBody(body)[..|ClosedBody(body)| - 1] == "\n" + x;
    UnifiedAppend("\n", x);
    UnifiedBreak();
    assert "\n" + Unified(x) == "" + "\n" + Unified(x);
    SplitAround("", Unified(x));
    EmptySplit();
  }

  lemma WellBrokenAppend(prev: char, a: string, b: string)
    requires WellBroken(prev, a) && WellBroken(if a == [] then prev else a[|a| - 1], b)
    ensures WellBroken(prev, a + b)
  {
    var s := a + b;
    forall i | 0 <= i < |s| && s[i] == SOH ensures IsBreak(Before(prev, s, i)) {
      if i < |a| {
        assert IsBreak(Before(prev, a, i));
      } else {
        assert IsBreak(Before(if a == [] then prev else a[|a| - 1], b, i - |a|));
      }
    }
  }

  lemma CleanWell(prev: char, p: string)
    requires IsBreak(prev) && CleanLine(p)
    ensures WellBroken(prev, p + "\r")
  {
    forall i | 0 <= i < |p + "\r"| && (p + "\r")[i] == SOH ensures IsBreak(Before(prev, p + "\r", i)) {
      assert p[i] == SOH;
    }
  }

  lemma {:induction false} TerminatedWell(prev: char, lines: seq<string>)
    requires IsBreak(prev) && CleanLines(lines)
    ensures WellBroken(prev, Terminated(lines))
    ensures lines != [] ==> Terminated(lines) != "" && Terminated(lines)[|Terminated(lines)| - 1] == '\r'
    decreases |lines|
  {
    hide WellBroken, CleanLine;
    if lines == [] {
      NothingWell(prev);
    } else {
      CleanWell(prev, lines[0]);
      TerminatedWell('\r', lines[1..]);
      WellBrokenAppend(prev, lines[0] + "\r", Terminated(lines[1..]));
    }
  }

  lemma NothingWell(prev: char)
    ensures WellBroken(prev, "")
  {
  }

  lemma BodyWell(prev: char, body: string)
    requires SOH !in body
    ensures WellBroken(prev, ClosedBody(body))
  {
    var b := ClosedBody(body);
    forall i | 0 <= i < |b| ensures b[i] != SOH {
      if i < |body| {
        assert b[i] == body[i];
        assert body[i] in body;
      }
    }
  }

  /** In the written text every control mark starts a line, so the reader breaks nothing more. */
  lemma TextWell(head: seq<string>, body: string, tail: seq<string>)
    requires CleanLines(head) && CleanLines(tail) && SOH !in body
    ensures WellBroken('\n', Terminated(head) + ClosedBody(body) + Terminated(tail))
  {
    hide WellBroken, CleanLine, Terminated;
    var h, b, t := Terminated(head), ClosedBody(body), Terminated(tail);
    NoTerminated();
    TerminatedWell('\n', head);
    BodyWell(if h == [] then '\n' else h[|h| - 1], body);
    WellBrokenAppend('\n', h, b);
    if body != "" {
      ClosedShape(body);
      assert (h + b)[|h + b| - 1] == '\r';
    } else {
      assert h + b == h;
    }
    TerminatedWell(if h + b == [] then '\n' else '\r', tail);
    WellBrokenAppend('\n', h + b, t);
  }

  lemma NoTerminated()
    ensures Terminated([]) == ""
  {
  }

  predicate NoLineEnds(lines: seq<string>) {
    forall i :: 0 <= i < |lines| ==> '\n' !in lines[i] && '\r' !in lines[i]
  }

  /** Split at line feeds, a text without carriage returns gives lines without either. */
  lemma {:induction false} SplitHasNoLf(s: string)
    requires '\r' !in s
    ensures NoLineEnds(Split(s, '\n'))
  {
    if s != [] {
      SplitHasNoLf(s[1..]);
    }
  }

  lemma TrimNothing(s: string, c: char)
    requires c !in s
    ensures TrimRight(s, c) == s
  {
  }

  lemma TrimNone(lines: seq<string>)
    requires NoLineEnds(lines)
    ensures TrimmedRight(lines, '\r') == lines
  {
    hide TrimRight;
    forall i | 0 <= i < |lines| ensures TrimRight(lines[i], '\r') == lines[i] {
      TrimNothing(lines[i], '\r');
    }
  }

  lemma UnifiedNotEmpty(s: string)
    requires s != []
    ensures Unified(s) != []
  {
  }

  /** The lines of a text in which every control mark starts a line. */
  lemma LinesOf(s: string)
    requires WellBroken('\n', s)
    ensures FidoLines(s) == if s == "" then [] else Split(Unified(s), '\n')
    ensures NoLineEnds(FidoLines(s))
  {
    hide Unified, Split, WellBroken, TrimRight, TrimmedRight, Broken;
    BrokenStays('\n', s);
    UnifiedBreak();
    if s != "" {
      UnifiedNotEmpty(s);
      NoCrLeft(s);
      SplitHasNoLf(Unified(s));
      TrimNone(Split(Unified(s), '\n'));
    }
  }

  lemma NoCrLeft(s: string)
    ensures '\r' !in Unified(s)
  {
    hide JoinCrLf, Replaced;
  }

  // ---------------------------------------------------------------- gathering

  predicate IsText(line: string) {
    !([SOH] <= line) && !(AREA <= line) && !(SEEN_BY <= line)
  }

  predicate IsKludge(line: string) {
    [SOH] <= line && CleanLine(line) && !(MsgIdMark() <= line) && !(ReplyMark() <= line) && !(PathMark() <= line)
  }

  lemma {:induction false} GatherAppend(g: Gathered, a: seq<string>, b: seq<string>)
    ensures GatherAll(g, a + b) == GatherAll(GatherAll(g, a), b)
    decreases |a|
  {
    hide Gather, TrimRight;
    if a == [] {
      assert a + b == b;
    } else {
      assert (a + b)[1..] == a[1..] + b;
      GatherAppend(Gather(g, TrimRight(a[0], '\n')), a[1..], b);
    }
  }

  lemma GatherOne(g: Gathered, line: string)
    requires '\n' !in line
    ensures GatherAll(g, [line]) == Gather(g, line)
  {
    hide Gather, TrimRight;
    TrimNothing(line, '\n');
    assert [line][1..] == [];
  }

  lemma ControlMark(mark: string, line: string)
    requires mark != "" && mark[0] == SOH
    ensures mark <= line ==> [SOH] <= line
  {
  }

  lemma TextLine(g: Gathered, line: string)
    requires IsText(line)
    ensures Gather(g, line) == g.(text := g.text + [line])
  {
    ControlMark(MsgIdMark(), line);
    ControlMark(ReplyMark(), line);
    ControlMark(PathMark(), line);
  }

  lemma {:induction false} GatherTexts(g: Gathered, lines: seq<string>)
    requires forall i :: 0 <= i < |lines| ==> IsText(lines[i]) && '\n' !in lines[i]
    ensures GatherAll(g, lines) == g.(text := g.text + lines)
    decreases |lines|
  {
    hide Gather, TrimRight, IsText;
    if lines == [] {
      assert g.text + [] == g.text;
    } else {
      TextLine(g, lines[0]);
      TrimNothing(lines[0], '\n');
      GatherTexts(Gather(g, lines[0]), lines[1..]);
      assert g.text + [lines[0]] + lines[1..] == g.text + lines;
    }
  }

  lemma {:induction false} GatherKludges(g: Gathered, lines: seq<string>)
    requires forall i :: 0 <= i < |lines| ==> IsKludge(lines[i])
    ensures GatherAll(g, lines) == g.(kludges := g.kludges + lines)
    decreases |lines|
  {
    hide TrimRight, CleanLine;
    if lines == [] {
      assert g.kludges + [] == g.kludges;
    } else {
      assert IsKludge(lines[0]);
      CleanHasNoLf(lines[0]);
      TrimNothing(lines[0], '\n');
      GatherKludges(Gather(g, lines[0]), lines[1..]);
      assert g.kludges + [lines[0]] + lines[1..] == g.kludges + lines;
    }
  }

  lemma NoGather(g: Gathered)
    ensures GatherAll(g, []) == g
  {
  }

  lemma TrimBlank(s: string)
    ensures TrimSpace(" " + s) == TrimSpace(s)
  {
    assert (" " + s)[1..] == s;
  }

  lemma GatherArea(g: Gathered, value: string)
    requires NoBreaks(value) && g.areaTag == ""
    ensures GatherAll(g, Optional(AREA, value)) == g.(areaTag := TrimSpace(value))
  {
    hide TrimSpace, GatherAll;
    NoGather(g);
    var line := AREA + value;
    EmptyTrim();
    if value != "" {
      GatherOne(g, line);
      assert line[0] == 'A' && line[|AREA|..] == value && line[..5] == AREA;
      assert Gather(g, line) == g.(areaTag := TrimSpace(value));
    }
  }

  lemma EmptyTrim()
    ensures TrimSpace("") == "" && Fields("") == []
  {
  }

  lemma GatherMsgId(g: Gathered, value: string)
    requires NoBreaks(value) && g.msgId == ""
    ensures GatherAll(g, Optional(MsgIdMark() + " ", value)) == g.(msgId := TrimSpace(value))
  {
    hide TrimSpace, GatherAll;
    NoGather(g);
    EmptyTrim();
    if value != "" {
      var line := MsgIdMark() + " " + value;
      GatherOne(g, line);
      assert line[|MsgIdMark()|..] == " " + value && line[..|MsgIdMark()|] == MsgIdMark();
      TrimBlank(value);
    }
  }

  lemma GatherReply(g: Gathered, value: string)
    requires NoBreaks(value) && g.reply == ""
    ensures GatherAll(g, Optional(ReplyMark() + " ", value)) == g.(reply := TrimSpace(value))
  {
    hide TrimSpace, GatherAll;
    NoGather(g);
    EmptyTrim();
    if value != "" {
      var line := ReplyMark() + " " + value;
      GatherOne(g, line);
      assert line[|ReplyMark()|..] == " " + value && line[..|ReplyMark()|] == ReplyMark();
      assert line[1] == 'R';
      TrimBlank(value);
    }
  }

  lemma GatherSeenBy(g: Gathered, value: string)
    requires NoBreaks(value)
    ensures GatherAll(g, Optional(SEEN_BY + " ", value)) == g.(seenBy := g.seenBy + Fields(value))
  {
    hide Fields, GatherAll;
    NoGather(g);
    EmptyTrim();
    assert g.seenBy + [] == g.seenBy;
    if value != "" {
      var line := SEEN_BY + " " + value;
      GatherOne(g, line);
      assert line[|SEEN_BY|..] == [' '] + value && line[..|SEEN_BY|] == SEEN_BY;
      assert line[0] == 'S';
      FieldsSkip(value);
    }
  }

  lemma GatherPath(g: Gathered, value: string)
    requires NoBreaks(value)
    ensures GatherAll(g, Optional(PathMark() + " ", value)) == g.(path := g.path + Fields(value))
  {
    hide Fields, GatherAll;
    NoGather(g);
    EmptyTrim();
    assert g.path + [] == g.path;
    if value != "" {
      var line := PathMark() + " " + value;
      GatherOne(g, line);
      assert line[|PathMark()|..] == [' '] + value && line[..|PathMark()|] == PathMark();
      assert line[1] == 'P';
      FieldsSkip(value);
    }
  }

  // ---------------------------------------------------------------- reading what was written

  /** Columns that can be written as lines and told apart again: no line ending or control mark inside a
      value, every kludge line one of its own kind, and no body line that begins like a control line. */
  predicate Restorable(o: SourceOpts) {
    && NoBreaks(o.areaTag) && NoBreaks(o.msgId) && NoBreaks(o.reply) && NoBreaks(o.seenBy) && NoBreaks(o.path)
    && (forall i :: 0 <= i < |StoredKludges(o)| ==> IsKludge(StoredKludges(o)[i]))
    && SOH !in o.body
    && (forall i :: 0 <= i < |BodyLines(o.body)| ==> IsText(BodyLines(o.body)[i]))
  }

  /** The body runs into the line in front of it. */
  predicate Merges(o: SourceOpts) {
    Head(o) != [] && o.body != "" && o.body[0] == '\n'
  }

  function KeptLines(o: SourceOpts): seq<string> {
    if Merges(o) && BodyLines(o.body) != [] then BodyLines(o.body)[1..] else BodyLines(o.body)
  }

  lemma OptionalClean(mark: string, value: string)
    requires CleanLine(mark) && NoBreaks(value)
    ensures CleanLines(Optional(mark, value))
  {
  }

  lemma MarksAreClean()
    ensures CleanLine(AREA) && CleanLine(SEEN_BY + " ")
    ensures CleanLine(MsgIdMark() + " ") && CleanLine(ReplyMark() + " ") && CleanLine(PathMark() + " ")
  {
  }

  lemma CleanAppend(a: seq<string>, b: seq<string>)
    requires CleanLines(a) && CleanLines(b)
    ensures CleanLines(a + b)
  {
    hide CleanLine;
  }

  lemma HeadClean(o: SourceOpts)
    requires Restorable(o)
    ensures CleanLines(Head(o)) && CleanLines(Tail(o))
  {
    hide CleanLine, NoBreaks, Optional, KludgeLines, BodyLines, IsText, StoredKludges, CleanLines;
    MarksAreClean();
    OptionalClean(AREA, o.areaTag);
    OptionalClean(MsgIdMark() + " ", o.msgId);
    OptionalClean(ReplyMark() + " ", o.reply);
    OptionalClean(SEEN_BY + " ", o.seenBy);
    OptionalClean(PathMark() + " ", o.path);
    KludgesClean(StoredKludges(o));
    var a, m, r := Optional(AREA, o.areaTag), Optional(MsgIdMark() + " ", o.msgId), Optional(ReplyMark() + " ", o.reply);
    CleanAppend(a, m);
    CleanAppend(a + m, r);
    CleanAppend(a + m + r, StoredKludges(o));
    CleanAppend(Optional(SEEN_BY + " ", o.seenBy), Optional(PathMark() + " ", o.path));
  }

  lemma KludgesClean(lines: seq<string>)
    requires forall i :: 0 <= i < |lines| ==> IsKludge(lines[i])
    ensures CleanLines(lines)
  {
    hide CleanLine;
  }

  /** The lines the reader sees. */
  lemma LinesOfSource(o: SourceOpts)
    requires Restorable(o)
    ensures FidoLines(SourceText(o)) == if SourceText(o) == "" then [] else Head(o) + KeptLines(o) + Tail(o) + [""]
  {
    hide CleanLine, NoBreaks, IsText, IsKludge, StoredKludges, BodyLines, ClosedBody, Terminated, Head, Tail, FidoLines, Unified, Split, WellBroken;
    HeadClean(o);
    TextWell(Head(o), o.body, Tail(o));
    LinesOf(SourceText(o));
    if Merges(o) {
      LinesMerge(Head(o), o.body, Tail(o));
    } else {
      LinesApart(Head(o), o.body, Tail(o));
    }
  }

  lemma GatherHead(o: SourceOpts)
    requires Restorable(o)
    ensures GatherAll(NothingYet(), Head(o)) == Gathered(TrimSpace(o.areaTag), TrimSpace(o.msgId), TrimSpace(o.reply), [], [], StoredKludges(o), [])
  {
    hide GatherAll, TrimSpace, NoBreaks, Optional, StoredKludges, BodyLines, IsText, IsKludge;
    var a, m, r := Optional(AREA, o.areaTag), Optional(MsgIdMark() + " ", o.msgId), Optional(ReplyMark() + " ", o.reply);
    var g0 := NothingYet();
    GatherArea(g0, o.areaTag);
    var g1 := g0.(areaTag := TrimSpace(o.areaTag));
    GatherMsgId(g1, o.msgId);
    var g2 := g1.(msgId := TrimSpace(o.msgId));
    GatherReply(g2, o.reply);
    var g3 := g2.(reply := TrimSpace(o.reply));
    GatherKludges(g3, StoredKludges(o));
    GatherAppend(g0, a, m);
    GatherAppend(g0, a + m, r);
    GatherAppend(g0, a + m + r, StoredKludges(o));
    assert [] + StoredKludges(o) == StoredKludges(o);
  }

  lemma GatherTail(g: Gathered, o: SourceOpts)
    requires Restorable(o) && g.seenBy == [] && g.path == []
    ensures GatherAll(g, Tail(o) + [""]) == g.(seenBy := Fields(o.seenBy), path := Fields(o.path), text := g.text + [""])
  {
    hide GatherAll, Fields, NoBreaks, Optional, StoredKludges, BodyLines, IsKludge;
    var s, p := Optional(SEEN_BY + " ", o.seenBy), Optional(PathMark() + " ", o.path);
    GatherSeenBy(g, o.seenBy);
    var g1 := g.(seenBy := Fields(o.seenBy));
    assert [] + Fields(o.seenBy) == Fields(o.seenBy) && [] + Fields(o.path) == Fields(o.path);
    GatherPath(g1, o.path);
    var g2 := g1.(path := Fields(o.path));
    GatherTexts(g2, [""]);
    GatherAppend(g, s, p);
    GatherAppend(g, Tail(o), [""]);
  }

  lemma KeptAreText(o: SourceOpts)
    requires Restorable(o)
    ensures forall i :: 0 <= i < |KeptLines(o)| ==> IsText(KeptLines(o)[i]) && '\n' !in KeptLines(o)[i]
  {
    hide Unified, Split, IsText, StoredKludges, Head, NoBreaks, IsKludge, ClosedBody;
    var b := BodyLines(o.body);
    if o.body != "" {
      ClosedShape(o.body);
      var x := ClosedBody(o.body)[..|ClosedBody(o.body)| - 1];
      NoCrLeft(x);
      SplitHasNoLf(Unified(x));
      assert NoLineEnds(b);
    }
    forall i | 0 <= i < |KeptLines(o)| ensures IsText(KeptLines(o)[i]) && '\n' !in KeptLines(o)[i] {
      assert KeptLines(o)[i] == if |KeptLines(o)| < |b| then b[i + 1] else b[i];
    }
  }

  lemma NothingStored(o: SourceOpts)
    requires SourceText(o) == ""
    ensures o.areaTag == "" && o.msgId == "" && o.reply == "" && o.seenBy == "" && o.path == "" && StoredKludges(o) == [] && o.body == ""
  {
    hide StoredKludges;
    assert Terminated(Head(o)) == "" && Terminated(Tail(o)) == "";
    assert Head(o) == [] && Tail(o) == [];
  }

  /** Reading back a written text gives every column: the tags without surrounding white space, the kludge
      lines, the SEEN-BY and PATH tokens, and the lines of the body in order, followed by one empty line. Only
      an empty first line of the body can be lost, when the body starts with a bare line feed after a line. */
  lemma ParseReconstruct(o: SourceOpts)
    requires Restorable(o)
    ensures Parsed(SourceText(o)) ==
      ParsedBody(TrimSpace(o.areaTag), TrimSpace(o.msgId), TrimSpace(o.reply), Fields(o.seenBy), Fields(o.path),
                 Join(StoredKludges(o), '\r'), JoinWith(KeptLines(o) + [""], "\r\n"))
  {
    hide GatherAll, Fields, TrimSpace, StoredKludges, BodyLines, Head, Tail, SourceText, FidoLines, Restorable, KeptLines, Join, JoinWith;
    LinesOfSource(o);
    if SourceText(o) == "" {
      NothingStored(o);
      EmptyTrim();
      NoGather(NothingYet());
      NoBody(o);
    } else {
      var kept := KeptLines(o);
      GatherHead(o);
      var g := GatherAll(NothingYet(), Head(o));
      KeptAreText(o);
      GatherTexts(g, kept);
      var g' := g.(text := g.text + kept);
      GatherTail(g', o);
      GatherAppend(NothingYet(), Head(o), kept);
      GatherAppend(NothingYet(), Head(o) + kept, Tail(o) + [""]);
      assert Head(o) + kept + (Tail(o) + [""]) == Head(o) + kept + Tail(o) + [""];
      assert [] + kept + [""] == kept + [""];
    }
  }

  lemma NoBody(o: SourceOpts)
    requires o.body == ""
    ensures JoinWith(KeptLines(o) + [""], "\r\n") == JoinWith([], "\r\n") == ""
    ensures Join([], '\r') == ""
  {
    hide Head;
  }

  /** The text that is read is shorter than the lines of the body by the break after its empty first line. */
  lemma ShorterText(lines: seq<string>)
    requires lines != [] && lines[0] == ""
    ensures JoinWith(lines + [""], "\r\n") == "\r\n" + JoinWith(lines[1..] + [""], "\r\n")
  {
    assert (lines + [""])[1..] == lines[1..] + [""];
    assert "" + "\r\n" == "\r\n";
  }

  /** The text read back holds every line of the body, followed by an empty one, exactly when the body does not
      start with a line feed right after a line. */
  lemma NoLineLost(o: SourceOpts)
    requires Restorable(o)
    ensures Parsed(SourceText(o)).text == JoinWith(BodyLines(o.body) + [""], "\r\n") <==> !Merges(o)
  {
    hide Parsed, SourceText, CleanLine, NoBreaks, IsText, IsKludge, StoredKludges, Head, BodyLines, Tail, Split, Unified, JoinWith;
    ParseReconstruct(o);
    if Merges(o) {
      HeadClean(o);
      LinesMerge(Head(o), o.body, []);
      ShorterText(BodyLines(o.body));
    }
  }

  /** The two lines of a body that starts with a line feed. */
  lemma LinesOfTwo()
    ensures BodyLines("\nhi") == ["", "hi"]
  {
    assert ClosedBody("\nhi")[..3] == "\nhi";
    assert "\nhi"[1..] == "hi" && "hi"[1..] == "i" && "i"[1..] == "";
    assert JoinCrLf("i") == "i" && JoinCrLf("hi") == "hi" && JoinCrLf("\nhi") == "\nhi";
    assert Unified("\nhi") == "\nhi";
    assert Split("i", '\n') == ["i"] && Split("hi", '\n') == ["hi"];
  }

  /** With a message identifier in front, only the second line of such a body comes back. */
  lemma FirstLineIsLost()
    ensures var o := SourceOpts("\nhi", "1:1/1 1", "", "", "", "", "");
      && Restorable(o) && BodyLines(o.body) == ["", "hi"]
      && Parsed(SourceText(o)).text == "hi\r\n"
  {
    hide Parsed, SourceText, BodyLines, Split;
    var o := SourceOpts("\nhi", "1:1/1 1", "", "", "", "", "");
    LinesOfTwo();
    assert |AREA| == 5 && |SEEN_BY| == 8 && "hi"[0] == 'h';
    assert IsText("") && IsText("hi");
    assert NoBreaks(o.msgId) && NoBreaks("") && SOH !in o.body && StoredKludges(o) == [];
    assert Restorable(o);
    assert Merges(o) && KeptLines(o) == ["hi"];
    ParseReconstruct(o);
    assert ["hi"] + [""] == ["hi", ""] && ["hi", ""][1..] == [""];
    assert JoinWith([""], "\r\n") == "";
    assert "hi" + "\r\n" + "" == "hi\r\n";
  }

  // ---------------------------------------------------------------- as loops

  /** `normalizeFidoBodyForParse` */
  method NormalizeFidoBodyForParse(body: string) returns (s: string)
    ensures s == NormalBody(body)
  {
    hide JoinCrLf, CrToLf, Broken;
    if body == "" {
      EmptyBody();
      return "";
    }
    var out := "";
    ghost var prev := '\n';
    assert body[0..] == body && "" + Broken('\n', body) == Broken('\n', body);
    for i := 0 to |body|
      invariant prev == if i == 0 then '\n' else body[i - 1]
      invariant out + Broken(prev, body[i..]) == Broken('\n', body)
    {
      ghost var before := out;
      if body[i] == SOH && i > 0 {
        if body[i - 1] != '\r' && body[i - 1] != '\n' {
          out := out + "\n";
        }
      }
      out := out + [body[i]];
      BrokenStep(prev, body[i..], before);
      assert body[i..][1..] == body[i + 1..];
      prev := body[i];
    }
    NothingBroken(prev);
    assert body[|body|..] == "" && out + "" == out;
    s := CrToLf(JoinCrLf(out));
  }

  lemma NothingBroken(prev: char)
    ensures Broken(prev, "") == ""
  {
  }

  lemma BrokenStep(prev: char, s: string, out: string)
    requires s != []
    ensures out + Broken(prev, s) == out + (if s[0] == SOH && prev != '\r' && prev != '\n' then "\n" else "") + [s[0]] + Broken(s[0], s[1..])
  {
  }

  lemma EmptyBody()
    ensures NormalBody("") == ""
  {
    UnifiedBreak();
  }

  /** `fidoLines` */
  method SplitFidoLines(body: string) returns (out: seq<string>)
    ensures out == FidoLines(body)
  {
    hide TrimRight, Split, NormalBody;
    var s := NormalizeFidoBodyForParse(body);
    out := [];
    if s == "" {
      return;
    }
    var lines := Split(s, '\n');
    for i := 0 to |lines|
      invariant |out| == i && forall j :: 0 <= j < i ==> out[j] == TrimRight(lines[j], '\r')
    {
      out := out + [TrimRight(lines[i], '\r')];
    }
  }

  /** `Message.Parse` */
  method Parse(body: string) returns (pb: ParsedBody)
    ensures pb == Parsed(body)
  {
    hide FidoLines, TrimRight, TrimSpace, Fields, Join, JoinWith;
    var areaTag, msgId, reply := "", "", "";
    var seenBy: seq<string>, path: seq<string>, kludges: seq<string>, text: seq<string> := [], [], [], [];
    var lines := SplitFidoLines(body);
    assert lines[0..] == lines;
    for i := 0 to |lines|
      invariant GatherAll(Gathered(areaTag, msgId, reply, seenBy, path, kludges, text), lines[i..])
             == GatherAll(NothingYet(), lines)
    {
      var line := TrimRight(lines[i], '\n');
      assert lines[i..][0] == lines[i] && lines[i..][1..] == lines[i + 1..];
      if MsgIdMark() <= line {
        msgId := TrimSpace(line[|MsgIdMark()|..]);
      } else if ReplyMark() <= line {
        reply := TrimSpace(line[|ReplyMark()|..]);
      } else if PathMark() <= line {
        path := path + Fields(line[|PathMark()|..]);
      } else if [SOH] <= line {
        kludges := kludges + [line];
      } else if AREA <= line {
        areaTag := TrimSpace(line[|AREA|..]);
      } else if SEEN_BY <= line {
        seenBy := seenBy + Fields(line[|SEEN_BY|..]);
      } else {
        text := text + [line];
      }
    }
    pb := ParsedBody(areaTag, msgId, reply, seenBy, path, Join(kludges, '\r'), JoinWith(text, "\r\n"));
  }

  lemma {:induction false} TerminatedAppend(a: seq<string>, b: seq<string>)
    ensures Terminated(a + b) == Terminated(a) + Terminated(b)
    decreases |a|
  {
    if a == [] {
      assert a + b == b;
      assert "" + Terminated(b) == Terminated(b);
    } else {
      assert (a + b)[1..] == a[1..] + b;
      TerminatedAppend(a[1..], b);
      var x := a[0] + "\r";
      assert x + (Terminated(a[1..]) + Terminated(b)) == x + Terminated(a[1..]) + Terminated(b);
    }
  }

  /** One control line, or nothing. */
  function Tagged(mark: string, value: string): string {
    if value == "" then "" else mark + value + "\r"
  }

  lemma TerminatedOptional(mark: string, value: string)
    ensures Terminated(Optional(mark, value)) == Tagged(mark, value)
  {
    if value != "" {
      assert [mark + value][1..] == [];
      assert mark + value + "\r" + "" == mark + value + "\r";
    }
  }

  lemma HeadText(o: SourceOpts)
    ensures Terminated(Head(o)) == Tagged(AREA, o.areaTag) + Tagged(MsgIdMark() + " ", o.msgId)
      + Tagged(ReplyMark() + " ", o.reply) + Terminated(StoredKludges(o))
  {
    hide Terminated, Optional, StoredKludges, Tagged;
    var a, m, r := Optional(AREA, o.areaTag), Optional(MsgIdMark() + " ", o.msgId), Optional(ReplyMark() + " ", o.reply);
    TerminatedOptional(AREA, o.areaTag);
    TerminatedOptional(MsgIdMark() + " ", o.msgId);
    TerminatedOptional(ReplyMark() + " ", o.reply);
    TerminatedAppend(a, m);
    TerminatedAppend(a + m, r);
    TerminatedAppend(a + m + r, StoredKludges(o));
  }

  lemma TailText(o: SourceOpts)
    ensures Terminated(Tail(o)) == Tagged(SEEN_BY + " ", o.seenBy) + Tagged(PathMark() + " ", o.path)
  {
    hide Terminated, Optional, Tagged;
    TerminatedOptional(SEEN_BY + " ", o.seenBy);
    TerminatedOptional(PathMark() + " ", o.path);
    TerminatedAppend(Optional(SEEN_BY + " ", o.seenBy), Optional(PathMark() + " ", o.path));
  }

  lemma KludgeLinesSnoc(lines: seq<string>, last: string)
    ensures KludgeLines(lines + [last]) == KludgeLines(lines) + (if TrimRight(last, '\n') != "" then [TrimRight(last, '\n')] else [])
  {
    hide TrimRight;
    assert (lines + [last])[..|lines|] == lines;
  }

  /** The kludge columns as lines. */
  method WriteKludges(o: SourceOpts) returns (sb: string)
    ensures sb == Terminated(StoredKludges(o))
  {
    hide TrimRight, Split, Terminated, KludgeLines;
    sb := "";
    NoTerminated();
    NoKludgeLines();
    if o.kludges == "" {
      return;
    }
    var lines := Split(o.kludges, '\r');
    for i := 0 to |lines|
      invariant sb == Terminated(KludgeLines(lines[..i]))
    {
      var line := TrimRight(lines[i], '\n');
      KludgeLinesSnoc(lines[..i], lines[i]);
      assert lines[..i] + [lines[i]] == lines[..i + 1];
      if line != "" {
        TerminatedSnoc(KludgeLines(lines[..i]), line);
        sb := sb + line;
        sb := sb + "\r";
      } else {
        assert KludgeLines(lines[..i]) + [] == KludgeLines(lines[..i]);
      }
    }
    assert lines[..|lines|] == lines;
  }

  lemma NoKludgeLines()
    ensures KludgeLines([]) == []
  {
  }

  /** A control line is written when its value is not empty. */
  method WriteTagged(sb: string, mark: string, value: string) returns (r: string)
    ensures r == sb + Tagged(mark, value)
  {
    r := sb;
    if value != "" {
      r := r + (mark + value + "\r");
    }
  }

  /** `ReconstructSource` */
  method ReconstructSource(o: SourceOpts) returns (sb: string)
    ensures sb == SourceText(o)
  {
    hide Terminated, Head, Tail, Tagged, StoredKludges;
    sb := WriteTagged("", AREA, o.areaTag);
    sb := WriteTagged(sb, MsgIdMark() + " ", o.msgId);
    sb := WriteTagged(sb, ReplyMark() + " ", o.reply);
    var kludges := WriteKludges(o);
    sb := sb + kludges;
    HeadText(o);
    ghost var head := sb;
    assert head == Terminated(Head(o));
    sb := sb + o.body;
    if o.body != "" && !(o.body[|o.body| - 1] == '\r') {
      sb := sb + "\r";
    }
    assert sb == head + ClosedBody(o.body);
    ghost var front := sb;
    sb := WriteTagged(sb, SEEN_BY + " ", o.seenBy);
    sb := WriteTagged(sb, PathMark() + " ", o.path);
    TailText(o);
    Assoc(front, Tagged(SEEN_BY + " ", o.seenBy), Tagged(PathMark() + " ", o.path));
  }

}
