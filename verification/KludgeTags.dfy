/** The tags of a FidoNet message (FTS-0004, FTS-0009), written out: what one line of each kind is read as, and the
    text that stored columns are put back into. */
module KludgeTags {
  import opened Text
  import opened Kludges

  /** A message of one line. */
  lemma LinesOfOne(line: string)
    requires CleanLine(line)
    ensures FidoLines(line + "\r") == [line, ""]
  {
    hide CleanLine, Unified, Split, WellBroken, FidoLines;
    assert Terminated([line]) == line + "\r" by {
      assert [line][1..] == [];
      NoTerminated();
      assert line + "\r" + "" == line + "\r";
    }
    NoTerminated();
    TextWell([line], "", []);
    LinesApart([line], "", []);
    assert line + "\r" + "" + "" == line + "\r";
    LinesOf(line + "\r");
    assert [line] + [] + [] + [""] == [line, ""];
  }

  /** CR LF, a lone CR and a lone LF all end a line. */
  lemma MixedEnds(a: string, b: string, c: string, d: string)
    requires NoBreaks(a) && NoBreaks(b) && NoBreaks(c) && NoBreaks(d) && c != ""
    ensures FidoLines(a + "\r\n" + (b + "\r" + (c + "\n" + d))) == [a, b, c, d]
  {
    hide Unified, Split, CleanLine, WellBroken, FidoLines;
    NoMarkIsClean(a);
    NoMarkIsClean(b);
    NoMarkIsClean(c);
    NoMarkIsClean(d);
    var s := a + "\r\n" + (b + "\r" + (c + "\n" + d));
    assert WellBroken('\n', s) by { NoMarkWell(a, b, c, d); }
    LinesOf(s);
    MergeOne(a, b + "\r" + (c + "\n" + d));
    assert (c + "\n" + d)[0] == c[0];
    OneLine(b, c + "\n" + d);
    FeedEnds(c, d);
    assert [a] + ([b] + [c, d]) == [a, b, c, d];
  }

  lemma NoMarkWell(a: string, b: string, c: string, d: string)
    requires NoBreaks(a) && NoBreaks(b) && NoBreaks(c) && NoBreaks(d)
    ensures WellBroken('\n', a + "\r\n" + (b + "\r" + (c + "\n" + d)))
  {
    var s := a + "\r\n" + (b + "\r" + (c + "\n" + d));
    assert SOH !in a && SOH !in b && SOH !in c && SOH !in d;
    assert SOH !in s;
  }

  /** A lone line feed stays the one end of line there is. */
  lemma FeedStays(c: string, d: string)
    requires CleanLine(c) && CleanLine(d)
    ensures Unified(c + "\n" + d) == c + "\n" + d
  {
    hide Unified;
    assert c != "" ==> !IsBreak(c[|c| - 1]);
    hide CleanLine;
    UnifiedAppend(c + "\n", d);
    UnifiedAppend(c, "\n");
    UnifiedClean(c);
    UnifiedClean(d);
    UnifiedBreak();
  }

  lemma FeedEnds(c: string, d: string)
    requires CleanLine(c) && CleanLine(d)
    ensures Split(Unified(c + "\n" + d), '\n') == [c, d]
  {
    hide Unified, Split, CleanLine;
    FeedStays(c, d);
    CleanHasNoLf(c);
    CleanHasNoLf(d);
    assert c + "\n" + d == c + ['\n'] + d;
    SplitField(c, '\n', d);
    SplitNone(d, '\n');
  }

  /** A control mark inside a line starts a line of its own. */
  lemma MarkInside(a: string, rest: string)
    requires NoBreaks(a) && NoBreaks(rest) && a != ""
    ensures FidoLines(a + ([SOH] + rest)) == [a, [SOH] + rest]
  {
    hide Unified, Split, CleanLine, TrimRight;
    var line := [SOH] + rest;
    assert CleanLine(line) by { MarkedLine(rest); }
    NoMarkIsClean(a);
    BrokenBefore('\n', a, rest);
    assert a + (['\n', SOH] + rest) == a + "\n" + line;
    FeedStays(a, line);
    assert NormalBody(a + line) == a + "\n" + line;
    FeedEnds(a, line);
    NoCrInside(a, line);
    TrimNone([a, line]);
  }

  lemma NoCrInside(a: string, line: string)
    requires CleanLine(a) && CleanLine(line)
    ensures NoLineEnds([a, line])
  {
  }

  lemma {:induction false} BrokenBefore(prev: char, a: string, rest: string)
    requires NoBreaks(a) && NoBreaks(rest) && (a == "" ==> !IsBreak(prev))
    ensures Broken(prev, a + ([SOH] + rest)) == a + (['\n', SOH] + rest)
    decreases |a|
  {
    if a == "" {
      var s := [SOH] + rest;
      assert s[1..] == rest && a + s == s;
      assert WellBroken(SOH, rest) by { assert SOH !in rest; }
      BrokenStays(SOH, rest);
      assert ['\n'] + [SOH] + rest == a + (['\n', SOH] + rest);
    } else {
      assert (a + ([SOH] + rest))[1..] == a[1..] + ([SOH] + rest);
      BrokenBefore(a[0], a[1..], rest);
      assert [] + [a[0]] + (a[1..] + (['\n', SOH] + rest)) == a + (['\n', SOH] + rest);
    }
  }

  lemma NoTerminated()
    ensures Terminated([]) == "" && ClosedBody("") == "" && BodyLines("") == []
  {
  }

  lemma OneLineParsed(line: string)
    requires CleanLine(line)
    ensures Parsed(line + "\r") == Finished(GatherAll(Gather(NothingYet(), line), [""]))
  {
    hide FidoLines, Gather, TrimRight, CleanLine;
    LinesOfOne(line);
    CleanHasNoLf(line);
    TrimNothing(line, '\n');
    assert [line, ""][1..] == [""];
  }

  lemma EmptyLine(g: Gathered)
    ensures GatherAll(g, [""]) == g.(text := g.text + [""])
  {
    hide GatherAll, Gather;
    GatherTexts(g, [""]);
  }

  /** What the values gathered from one tag line make. */
  lemma OneTag(g: Gathered)
    requires g.kludges == [] && g.text == []
    ensures Finished(GatherAll(g, [""])) == ParsedBody(g.areaTag, g.msgId, g.reply, g.seenBy, g.path, "", "")
  {
    hide GatherAll;
    EmptyLine(g);
    assert [] + [""] == [""];
    assert JoinWith([""], "\r\n") == "" && Join([], '\r') == "";
  }

  lemma TagLine(tag: string, value: string)
    requires NoBreaks(value) && (tag == "MSGID: " || tag == "REPLY: " || tag == "PATH: ")
    ensures CleanLine([SOH] + tag + value)
  {
  }

  lemma PlainTagLine(tag: string, value: string)
    requires NoBreaks(value) && (tag == "AREA:" || tag == "SEEN-BY: ")
    ensures CleanLine(tag + value)
  {
  }

  /** `^AMSGID: ` */
  lemma MsgIdLine(id: string)
    requires NoBreaks(id)
    ensures Parsed([SOH] + "MSGID: " + id + "\r") == ParsedBody("", TrimSpace(id), "", [], [], "", "")
  {
    hide Parsed, GatherAll, TrimSpace, CleanLine, NoBreaks;
    var line := [SOH] + "MSGID: " + id;
    TagLine("MSGID: ", id);
    OneLineParsed(line);
    assert line[..7] == [SOH] + "MSGID:" && line[7..] == " " + id;
    TrimBlank(id);
    OneTag(Gather(NothingYet(), line));
  }

  /** `^AREPLY: ` */
  lemma ReplyLine(id: string)
    requires NoBreaks(id)
    ensures Parsed([SOH] + "REPLY: " + id + "\r") == ParsedBody("", "", TrimSpace(id), [], [], "", "")
  {
    hide Parsed, GatherAll, TrimSpace, CleanLine, NoBreaks;
    var line := [SOH] + "REPLY: " + id;
    TagLine("REPLY: ", id);
    OneLineParsed(line);
    assert line[..7] == [SOH] + "REPLY:" && line[7..] == " " + id && line[1] == 'R';
    TrimBlank(id);
    OneTag(Gather(NothingYet(), line));
  }

  /** `^APATH: ` */
  lemma PathLine(value: string)
    requires NoBreaks(value)
    ensures Parsed([SOH] + "PATH: " + value + "\r") == ParsedBody("", "", "", [], Fields(value), "", "")
  {
    hide Parsed, GatherAll, Fields, CleanLine, NoBreaks;
    var line := [SOH] + "PATH: " + value;
    TagLine("PATH: ", value);
    OneLineParsed(line);
    assert line[..6] == [SOH] + "PATH:" && line[6..] == [' '] + value && line[1] == 'P';
    FieldsSkip(value);
    assert [] + Fields(value) == Fields(value);
    OneTag(Gather(NothingYet(), line));
  }

  /** `AREA:` */
  lemma AreaLine(tag: string)
    requires NoBreaks(tag)
    ensures Parsed("AREA:" + tag + "\r") == ParsedBody(TrimSpace(tag), "", "", [], [], "", "")
  {
    hide Parsed, GatherAll, TrimSpace, CleanLine, NoBreaks;
    var line := "AREA:" + tag;
    PlainTagLine("AREA:", tag);
    OneLineParsed(line);
    assert line[..5] == "AREA:" && line[5..] == tag && line[0] == 'A';
    OneTag(Gather(NothingYet(), line));
  }

  /** `SEEN-BY: ` */
  lemma SeenByLine(value: string)
    requires NoBreaks(value)
    ensures Parsed("SEEN-BY: " + value + "\r") == ParsedBody("", "", "", Fields(value), [], "", "")
  {
    hide Parsed, GatherAll, Fields, CleanLine, NoBreaks;
    var line := "SEEN-BY: " + value;
    PlainTagLine("SEEN-BY: ", value);
    OneLineParsed(line);
    assert line[..8] == "SEEN-BY:" && line[8..] == [' '] + value && line[0] == 'S';
    FieldsSkip(value);
    assert [] + Fields(value) == Fields(value);
    OneTag(Gather(NothingYet(), line));
  }

  /** Any other line with a control mark in front is kept as it is. */
  lemma KludgeLine(rest: string)
    requires NoBreaks(rest) && !("MSGID:" <= rest) && !("REPLY:" <= rest) && !("PATH:" <= rest)
    ensures Parsed([SOH] + rest + "\r") == ParsedBody("", "", "", [], [], [SOH] + rest, "")
  {
    hide Parsed, GatherAll, CleanLine, NoBreaks;
    var line := [SOH] + rest;
    assert CleanLine(line) by { MarkedLine(rest); }
    OneLineParsed(line);
    OtherMark("MSGID:", rest);
    OtherMark("REPLY:", rest);
    OtherMark("PATH:", rest);
    var g := Gather(NothingYet(), line);
    assert g == NothingYet().(kludges := [] + [line]);
    EmptyLine(g);
    assert [] + [""] == [""] && [] + [line] == [line];
    assert JoinWith([""], "\r\n") == "" && Join([line], '\r') == line;
  }

  lemma MarkedLine(rest: string)
    requires NoBreaks(rest)
    ensures CleanLine([SOH] + rest)
  {
  }

  lemma OtherMark(tag: string, rest: string)
    ensures [SOH] + tag <= [SOH] + rest <==> tag <= rest
  {
    if [SOH] + tag <= [SOH] + rest {
      assert ([SOH] + rest)[..1 + |tag|][1..] == rest[..|tag|];
      assert ([SOH] + tag)[1..] == tag;
    }
  }

  /** Any other line is text. */
  lemma PlainLine(line: string)
    requires NoBreaks(line) && !("AREA:" <= line) && !("SEEN-BY:" <= line)
    ensures Parsed(line + "\r") == ParsedBody("", "", "", [], [], "", line + "\r\n")
  {
    hide Parsed, GatherAll, CleanLine;
    assert CleanLine(line) by { NoMarkIsClean(line); }
    OneLineParsed(line);
    assert SOH !in line;
    NoMarkInFront([SOH], SOH, line);
    TextLine(NothingYet(), line);
    var g := Gather(NothingYet(), line);
    EmptyLine(g);
    assert [] + [line] + [""] == [line, ""] && [line, ""][1..] == [""];
    assert JoinWith([""], "\r\n") == "" && JoinWith([line, ""], "\r\n") == line + "\r\n" + "";
    assert line + "\r\n" + "" == line + "\r\n" && Join([], '\r') == "";
  }

  lemma NoMarkInFront(mark: string, c: char, line: string)
    requires c in mark && c !in line
    ensures !(mark <= line)
  {
    var i :| 0 <= i < |mark| && mark[i] == c;
    assert |mark| <= |line| ==> line[i] != c;
  }

  lemma NoMarkIsClean(line: string)
    requires NoBreaks(line)
    ensures CleanLine(line)
  {
  }

  /** The text of stored columns: each tag that has a value, in the order of the standard, every line ended by a
      carriage return. */
  lemma WholeSource(o: SourceOpts)
    ensures SourceText(o) ==
      (if o.areaTag == "" then "" else "AREA:" + o.areaTag + "\r")
      + (if o.msgId == "" then "" else [SOH] + "MSGID: " + o.msgId + "\r")
      + (if o.reply == "" then "" else [SOH] + "REPLY: " + o.reply + "\r")
      + Terminated(StoredKludges(o))
      + (if o.body == "" || o.body[|o.body| - 1] == '\r' then o.body else o.body + "\r")
      + (if o.seenBy == "" then "" else "SEEN-BY: " + o.seenBy + "\r")
      + (if o.path == "" then "" else [SOH] + "PATH: " + o.path + "\r")
  {
    hide Terminated, StoredKludges, Head, Tail, Tagged;
    HeadText(o);
    TailText(o);
    TagText(o);
    SevenParts(Tagged(AREA, o.areaTag), Tagged(MsgIdMark() + " ", o.msgId), Tagged(ReplyMark() + " ", o.reply),
               Terminated(StoredKludges(o)), ClosedBody(o.body), Tagged(SEEN_BY + " ", o.seenBy), Tagged(PathMark() + " ", o.path));
  }

  lemma TagText(o: SourceOpts)
    ensures Tagged(AREA, o.areaTag) == if o.areaTag == "" then "" else "AREA:" + o.areaTag + "\r"
    ensures Tagged(MsgIdMark() + " ", o.msgId) == if o.msgId == "" then "" else [SOH] + "MSGID: " + o.msgId + "\r"
    ensures Tagged(ReplyMark() + " ", o.reply) == if o.reply == "" then "" else [SOH] + "REPLY: " + o.reply + "\r"
    ensures Tagged(SEEN_BY + " ", o.seenBy) == if o.seenBy == "" then "" else "SEEN-BY: " + o.seenBy + "\r"
    ensures Tagged(PathMark() + " ", o.path) == if o.path == "" then "" else [SOH] + "PATH: " + o.path + "\r"
  {
    assert MsgIdMark() + " " == [SOH] + "MSGID: " && ReplyMark() + " " == [SOH] + "REPLY: ";
    assert PathMark() + " " == [SOH] + "PATH: " && SEEN_BY + " " == "SEEN-BY: ";
  }

  lemma SevenParts(a: string, b: string, c: string, d: string, e: string, f: string, g: string)
    ensures (a + b + c + d) + e + (f + g) == a + b + c + d + e + f + g
  {
  }

  /** Kludge lines are stored one after the other, each in its own line. */
  lemma OneKludge(o: SourceOpts)
    requires o.kludges != "" && '\r' !in o.kludges && o.kludges[|o.kludges| - 1] != '\n'
    ensures StoredKludges(o) == [o.kludges] && Terminated(StoredKludges(o)) == o.kludges + "\r"
  {
    hide Split, TrimRight;
    SplitNone(o.kludges, '\r');
    var k := o.kludges;
    assert [k][..0] == [] && [k][1..] == [];
    KeepsEnd(k);
    assert KludgeLines([]) == [] && KludgeLines([k]) == [] + [k];
    NoTerminated();
    assert [] + [k] == [k] && k + "\r" + "" == k + "\r";
  }

  lemma KeepsEnd(s: string)
    requires s != "" && s[|s| - 1] != '\n'
    ensures TrimRight(s, '\n') == s
  {
  }
}
