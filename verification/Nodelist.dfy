/** FTS-0005 nodelist lines. A line carries one number; zone and net come from the lines before it, so
    reading is by running state. Entries leave out the network name, which is the same for all, and the
    companion address, which no line carries. */
module Nodelist {
  import opened Text

  type Int64 = n: int | -MAX_INT64 - 1 <= n <= MAX_INT64

  datatype Entry = Entry(zone: Int64, net: Int64, node: Int64, point: Int64, name: string, location: string,
                         sysop: string, phone: string, baud: Int64, flags: string, kind: string, active: bool)

  const UNPUBLISHED: string := "-Unpublished-"
  const DEFAULT_BAUD: Int64 := 33600

  // ---------------------------------------------------------------- fields

  /** `nlEncode` */
  function NlEncode(s: string): string {
    if s == "" then "-" else Replaced(TrimSpace(s), ' ', '_')
  }

  /** `nlDecode` */
  function NlDecode(s: string): string {
    Replaced(TrimSpace(s), '_', ' ')
  }

  /** A text that a field gives back. */
  predicate FieldText(s: string) {
    s != "" && '_' !in s && !IsSpace(s[0]) && !IsSpace(s[|s| - 1])
  }

  lemma TrimSpaceEnds(s: string)
    ensures var t := TrimSpace(s); t == "" || (!IsSpace(t[0]) && !IsSpace(t[|t| - 1]))
    decreases |s|
  {
    if s == [] {
    } else if IsSpace(s[0]) {
      TrimSpaceEnds(s[1..]);
    } else if IsSpace(s[|s| - 1]) {
      TrimSpaceEnds(s[..|s| - 1]);
    }
  }

  /** Decoding undoes encoding exactly for texts that are not empty, have no underscore and no white space
      around them. */
  lemma NlRoundTrip(s: string)
    ensures NlDecode(NlEncode(s)) == s <==> FieldText(s)
  {
    hide TrimSpace;
    if s != "" {
      var t := TrimSpace(s);
      TrimSpaceEnds(s);
      TrimSpaceKeeps(s);
      var e := NlEncode(s);
      assert e != "" ==> e[0] == (if t[0] == ' ' then '_' else t[0]) && e[|e| - 1] == (if t[|t| - 1] == ' ' then '_' else t[|t| - 1]);
      TrimSpaceKeeps(e);
      var d := NlDecode(e);
      assert d == Replaced(e, '_', ' ') && |d| == |t|;
      if |t| == |s| {
        TrimSpaceLength(s);
        if '_' in s {
          var i :| 0 <= i < |s| && s[i] == '_';
          assert d[i] == ' ';
        } else {
          assert forall i :: 0 <= i < |d| ==> d[i] == s[i];
        }
      }
    } else {
      TrimSpaceKeeps("-");
      assert NlDecode("-")[0] == '-';
    }
  }

  /** Trimming that keeps the length keeps the text. */
  lemma TrimSpaceLength(s: string)
    requires |TrimSpace(s)| == |s|
    ensures TrimSpace(s) == s
  {
    if s != [] {
      TrimSpaceShortens(s[1..]);
      TrimSpaceShortens(s[..|s| - 1]);
    }
  }

  lemma {:induction false} TrimSpaceSubset(s: string, c: char)
    requires c !in s
    ensures c !in TrimSpace(s)
    decreases |s|
  {
    if s == [] {
    } else if IsSpace(s[0]) {
      TrimSpaceSubset(s[1..], c);
    } else if IsSpace(s[|s| - 1]) {
      TrimSpaceSubset(s[..|s| - 1], c);
    }
  }

  lemma NlDecodeSubset(s: string, c: char)
    requires c !in s && c != ' '
    ensures c !in NlDecode(s)
  {
    hide TrimSpace;
    TrimSpaceSubset(s, c);
  }

  lemma NlEncodeSubset(s: string, c: char)
    requires c !in s && c != '_' && c != '-'
    ensures c !in NlEncode(s)
  {
    hide TrimSpace;
    TrimSpaceSubset(s, c);
  }

  // ---------------------------------------------------------------- keywords

  /** What a keyword says about the number and the state. */
  datatype Kind = Zone | Region | Host | Hub | Pvt | Hold | Down | Boss | Node | Unknown

  /** The switch on the lower-case keyword. */
  function KindOf(word: string): Kind {
    var k := Lower(TrimSpace(word));
    if k == "zone" then Zone else if k == "region" then Region else if k == "host" then Host
    else if k == "hub" then Hub else if k == "pvt" then Pvt else if k == "hold" then Hold
    else if k == "down" then Down else if k == "boss" then Boss else if k == "" then Node else Unknown
  }

  /** `nodelistKeyword`, by kind: the keyword a line starts with; a node line has none. */
  function Word(k: Kind): string {
    match k
    case Zone => "Zone"
    case Region => "Region"
    case Host => "Host"
    case Hub => "Hub"
    case Pvt => "Pvt"
    case Hold => "Hold"
    case Down => "Down"
    case Boss => "Boss"
    case _ => ""
  }

  /** The name a line of this kind gets as an entry. */
  function Title(k: Kind): string {
    if k.Node? then "Node" else Word(k)
  }

  /** A word without white space around it, by its lower-case form. */
  lemma LowerWord(word: string, lower: string)
    requires |word| == |lower| && forall i :: 0 <= i < |word| ==> LowerChar(word[i]) == lower[i]
    requires word != "" && !IsSpace(word[0]) && !IsSpace(word[|word| - 1])
    ensures Lower(TrimSpace(word)) == lower
  {
    hide TrimSpace;
    TrimSpaceKeeps(word);
    assert Lower(word) == lower;
  }

  /** Every keyword is read as the kind it was written for. */
  lemma WordIsKind(k: Kind)
    requires !k.Unknown?
    ensures KindOf(Word(k)) == k && ',' !in Word(k)
  {
    hide Lower, TrimSpace;
    match k
    case Zone => LowerWord("Zone", "zone");
    case Region => LowerWord("Region", "region");
    case Host => LowerWord("Host", "host");
    case Hub => LowerWord("Hub", "hub");
    case Pvt => LowerWord("Pvt", "pvt");
    case Hold => LowerWord("Hold", "hold");
    case Down => LowerWord("Down", "down");
    case Boss => LowerWord("Boss", "boss");
    case _ => EmptyWord();
  }

  lemma EmptyWord()
    ensures Lower(TrimSpace("")) == ""
  {
  }

  // ---------------------------------------------------------------- one line

  /** The kind a line is written as; entries of no known kind become plain nodes. */
  function LineKind(e: Entry): (k: Kind)
    ensures !k.Unknown?
  {
    var k := KindOf(e.kind);
    if k.Unknown? then Node else k
  }

  /** The number a line carries. */
  function LineNumber(e: Entry): Int64 {
    var k := Lower(e.kind);
    if k == "zone" then e.zone else if k == "region" || k == "host" then e.net else e.node
  }

  function LinePhone(e: Entry): string {
    if e.phone == "" then UNPUBLISHED else e.phone
  }

  function LineBaud(e: Entry): Int64 {
    if e.baud == 0 then DEFAULT_BAUD else e.baud
  }

  /** The fields after the number. */
  function TextFields(e: Entry): seq<string> {
    [NlEncode(e.name), NlEncode(e.location), NlEncode(e.sysop), LinePhone(e), DecimalInt(LineBaud(e)), e.flags]
  }

  /** `encodeHubNodeLine` */
  function Line(e: Entry): string {
    Word(LineKind(e)) + "," + (DecimalInt(LineNumber(e)) + "," + Join(TextFields(e), ','))
  }

  datatype Parsed = Parsed(entry: Entry, zone: Int64, net: Int64)

  /** The entry of a kind and number, and the state after it. */
  function Located(k: Kind, num: Int64, zone: Int64, net: Int64, e: Entry): Parsed {
    match k
    case Zone => Parsed(e.(zone := num, net := num, node := 0), num, num)
    case Region | Host => Parsed(e.(zone := zone, net := num, node := 0), zone, num)
    case _ => Parsed(e.(zone := zone, net := net, node := num), zone, net)
  }

  /** `parseNodelistLine` */
  function ParsedLine(line: string, zone: Int64, net: Int64): Option<Parsed> {
    var fields := Split(line, ',');
    if |fields| < 7 then None
    else
      var k := KindOf(fields[0]);
      if k.Unknown? then None
      else
        var flags := if |fields| > 7 then Join(fields[7..], ',') else "";
        Some(Located(k, AtoiValue(TrimSpace(fields[1])), zone, net,
          Entry(0, 0, 0, 0, NlDecode(fields[2]), NlDecode(fields[3]), NlDecode(fields[4]), TrimSpace(fields[5]),
                AtoiValue(TrimSpace(fields[6])), flags, Title(k), k != Hold && k != Down)))
  }

  /** An entry whose own fields but the active flag a line can carry. */
  predicate Carried(e: Entry) {
    && e.kind == Title(LineKind(e))
    && FieldText(e.name) && ',' !in e.name
    && FieldText(e.location) && ',' !in e.location
    && FieldText(e.sysop) && ',' !in e.sysop
    && e.phone != "" && ',' !in e.phone && !IsSpace(e.phone[0]) && !IsSpace(e.phone[|e.phone| - 1])
    && e.baud != 0 && e.point == 0
  }

  /** Lines of two kinds stand for inactive nodes. */
  predicate ActiveKind(e: Entry) {
    e.kind != "Hold" && e.kind != "Down"
  }

  /** An entry whose own fields a line can carry. */
  predicate Encodable(e: Entry) {
    Carried(e) && (e.active <==> ActiveKind(e))
  }

  /** An entry whose address follows from the state and its number. */
  predicate Placed(e: Entry, zone: Int64, net: Int64) {
    match LineKind(e)
    case Zone => e.net == e.zone && e.node == 0
    case Region | Host => e.zone == zone && e.node == 0
    case _ => e.zone == zone && e.net == net
  }

  /** A number printed and read. */
  lemma NumberField(n: Int64)
    ensures ',' !in DecimalInt(n) && AtoiValue(TrimSpace(DecimalInt(n))) == n
  {
    hide DecimalInt, AtoiValue, TrimSpace;
    AtoiValueDecimal(n);
    DecimalChars(n);
    TrimSpaceKeeps(DecimalInt(n));
  }

  lemma DecimalChars(n: int)
    ensures var s := DecimalInt(n); s != "" && ',' !in s && !IsSpace(s[0]) && !IsSpace(s[|s| - 1])
  {
    hide Decimal, Value;
    var m := if n < 0 then -n else n;
    DecimalIsInverse(m);
    var d := Decimal(m);
    assert forall i :: 0 <= i < |d| ==> IsDigit(d[i]) && d[i] != ',';
    assert n < 0 ==> DecimalInt(n)[|d|] == d[|d| - 1];
  }

  /** The keyword and number come off whole, whatever the other fields are. */
  lemma FrontFields(e: Entry)
    ensures Split(Line(e), ',') == [Word(LineKind(e)), DecimalInt(LineNumber(e))] + Split(Join(TextFields(e), ','), ',')
  {
    hide Split, Join, TextFields, DecimalInt, LineNumber, Word;
    WordIsKind(LineKind(e));
    NumberField(LineNumber(e));
    var rest := Join(TextFields(e), ',');
    SplitField(DecimalInt(LineNumber(e)), ',', rest);
    SplitField(Word(LineKind(e)), ',', DecimalInt(LineNumber(e)) + "," + rest);
    assert Line(e) == Word(LineKind(e)) + [','] + (DecimalInt(LineNumber(e)) + "," + rest);
    assert DecimalInt(LineNumber(e)) + "," + rest == DecimalInt(LineNumber(e)) + [','] + rest;
  }

  lemma {:induction false} SplitGrows(a: string, b: string, sep: char)
    ensures |Split(a + [sep] + b, sep)| >= 1 + |Split(b, sep)|
  {
    var s := a + [sep] + b;
    if a == [] {
      assert s[1..] == b;
    } else {
      assert s[1..] == a[1..] + [sep] + b;
      SplitGrows(a[1..], b, sep);
    }
  }

  lemma {:induction false} JoinedCount(parts: seq<string>, sep: char)
    requires parts != []
    ensures |Split(Join(parts, sep), sep)| >= |parts|
    decreases |parts|
  {
    hide Split;
    if |parts| > 1 {
      JoinedCount(parts[1..], sep);
      SplitGrows(parts[0], Join(parts[1..], sep), sep);
    }
  }

  predicate NoCommas(e: Entry) {
    ',' !in e.name && ',' !in e.location && ',' !in e.sysop && ',' !in e.phone
  }

  lemma {:induction false} SplitFront(parts: seq<string>, last: string, sep: char)
    requires forall i :: 0 <= i < |parts| ==> sep !in parts[i]
    ensures Split(Join(parts + [last], sep), sep) == parts + Split(last, sep)
    decreases |parts|
  {
    hide Split;
    if parts == [] {
      assert parts + [last] == [last];
      assert [] + Split(last, sep) == Split(last, sep);
    } else {
      assert (parts + [last])[1..] == parts[1..] + [last];
      SplitFront(parts[1..], last, sep);
      SplitField(parts[0], sep, Join(parts[1..] + [last], sep));
      assert [parts[0]] + (parts[1..] + Split(last, sep)) == parts + Split(last, sep);
    }
  }

  /** Without commas in the texts every field comes off whole, and the flags keep theirs. */
  lemma AllFields(e: Entry)
    requires NoCommas(e)
    ensures Split(Line(e), ',') ==
      [Word(LineKind(e)), DecimalInt(LineNumber(e)), NlEncode(e.name), NlEncode(e.location), NlEncode(e.sysop),
       LinePhone(e), DecimalInt(LineBaud(e))] + Split(e.flags, ',')
  {
    hide Split, Join, DecimalInt, LineNumber, NlEncode, Word, LineKind, LineBaud;
    FrontFields(e);
    NlEncodeSubset(e.name, ',');
    NlEncodeSubset(e.location, ',');
    NlEncodeSubset(e.sysop, ',');
    NumberField(LineBaud(e));
    var front := [NlEncode(e.name), NlEncode(e.location), NlEncode(e.sysop), LinePhone(e), DecimalInt(LineBaud(e))];
    assert TextFields(e) == front + [e.flags];
    SplitFront(front, e.flags, ',');
  }

  /** What a line without commas in its texts is read as. */
  lemma ParseOfClean(e: Entry, zone: Int64, net: Int64)
    requires NoCommas(e)
    ensures var k := LineKind(e);
      ParsedLine(Line(e), zone, net) == Some(Located(k, LineNumber(e), zone, net,
        Entry(0, 0, 0, 0, NlDecode(NlEncode(e.name)), NlDecode(NlEncode(e.location)), NlDecode(NlEncode(e.sysop)),
              TrimSpace(LinePhone(e)), LineBaud(e), e.flags, Title(k), k != Hold && k != Down)))
  {
    hide Line, Split, Join, DecimalInt, LineNumber, NlEncode, NlDecode, Word, LineKind, LineBaud, LinePhone, KindOf, TrimSpace, Located, Title, AtoiValue;
    AllFields(e);
    var fields := Split(Line(e), ',');
    WordIsKind(LineKind(e));
    NumberField(LineNumber(e));
    NumberField(LineBaud(e));
    assert fields[7..] == Split(e.flags, ',');
    JoinSplit(e.flags, ',');
  }

  /** A line is always long enough and starts with a known keyword. */
  lemma LineParses(e: Entry, zone: Int64, net: Int64)
    ensures ParsedLine(Line(e), zone, net).Some?
  {
    hide Line, Split, Join, DecimalInt, LineNumber, NlDecode, Word, LineKind, KindOf, TrimSpace, Located, Title, AtoiValue;
    FrontFields(e);
    JoinedCount(TextFields(e), ',');
    WordIsKind(LineKind(e));
  }

  /** The texts of an entry that was read hold no comma. */
  lemma ParsedHasNoCommas(line: string, zone: Int64, net: Int64)
    requires ParsedLine(line, zone, net).Some?
    ensures NoCommas(ParsedLine(line, zone, net).value.entry)
  {
    hide Split, Join, NlDecode, Word, KindOf, TrimSpace, Title, AtoiValue;
    SplitParts(line, ',');
    var fields := Split(line, ',');
    NlDecodeSubset(fields[2], ',');
    NlDecodeSubset(fields[3], ',');
    NlDecodeSubset(fields[4], ',');
    TrimSpaceSubset(fields[5], ',');
  }

  /** The number of an entry whose kind is spelt as a line spells it. */
  lemma NumberOfKind(e: Entry)
    requires e.kind == Title(LineKind(e))
    ensures LineNumber(e) == match LineKind(e) case Zone => e.zone case Region => e.net case Host => e.net case _ => e.node
  {
    hide KindOf, LineKind;
    var l := Lower(e.kind);
    match LineKind(e)
    case Zone => assert l == "zone";
    case Region => assert l == "region";
    case Host => assert l == "host";
    case Hub => assert l[1] == 'u';
    case Pvt => assert l[0] == 'p';
    case Hold => assert l[3] == 'd';
    case Down => assert l[0] == 'd';
    case Boss => assert l[0] == 'b';
    case Node => assert l[0] == 'n';
    case Unknown =>
  }

  lemma PhoneField(e: Entry)
    ensures TrimSpace(LinePhone(e)) == e.phone <==> e.phone != "" && !IsSpace(e.phone[0]) && !IsSpace(e.phone[|e.phone| - 1])
  {
    hide TrimSpace;
    TrimSpaceKeeps(LinePhone(e));
  }

  /** Reading a written line gives the entry back exactly when a line can carry its fields and the running
      state, with its number, gives its address. */
  lemma LineRoundTrip(e: Entry, zone: Int64, net: Int64)
    ensures ParsedLine(Line(e), zone, net).Some?
    ensures ParsedLine(Line(e), zone, net).value.entry == e <==> Encodable(e) && Placed(e, zone, net)
  {
    hide Line, ParsedLine, DecimalInt, NlEncode, NlDecode, KindOf, TrimSpace, LineNumber, FieldText, LinePhone, LineKind, Word;
    LineParses(e, zone, net);
    ParsedHasNoCommas(Line(e), zone, net);
    if NoCommas(e) {
      ParseOfClean(e, zone, net);
      NlRoundTrip(e.name);
      NlRoundTrip(e.location);
      NlRoundTrip(e.sysop);
      PhoneField(e);
      TitlesDiffer(LineKind(e));
      if e.kind == Title(LineKind(e)) {
        NumberOfKind(e);
      }
    }
  }

  lemma TitlesDiffer(k: Kind)
    ensures Title(k) == "Hold" <==> k == Hold
    ensures Title(k) == "Down" <==> k == Down
  {
  }

  /** The state after an entry. */
  function ZoneAfter(e: Entry, zone: Int64): Int64 {
    if LineKind(e).Zone? then e.zone else zone
  }

  function NetAfter(e: Entry, net: Int64): Int64 {
    match LineKind(e)
    case Zone => e.zone
    case Region | Host => e.net
    case _ => net
  }

  lemma StateAfter(e: Entry, zone: Int64, net: Int64)
    requires Encodable(e) && Placed(e, zone, net)
    ensures ParsedLine(Line(e), zone, net) == Some(Parsed(e, ZoneAfter(e, zone), NetAfter(e, net)))
  {
    hide Line, ParsedLine, DecimalInt, NlEncode, NlDecode, KindOf, TrimSpace, LineNumber, FieldText, LinePhone, LineKind, Word;
    LineRoundTrip(e, zone, net);
    ParseOfClean(e, zone, net);
    NumberOfKind(e);
  }

  // ---------------------------------------------------------------- the whole list

  /** A line that is skipped without a look at its fields. */
  predicate Ignored(line: string) {
    ";" <= line || TrimSpace(line) == ""
  }

  /** The rows the import loop stores, in order. */
  function ReadLines(lines: seq<string>, zone: Int64, net: Int64): seq<Entry>
    decreases |lines|
  {
    if lines == [] then []
    else if Ignored(lines[0]) then ReadLines(lines[1..], zone, net)
    else
      match ParsedLine(lines[0], zone, net)
      case None => ReadLines(lines[1..], zone, net)
      case Some(p) => [p.entry] + ReadLines(lines[1..], p.zone, p.net)
  }

  function LinesOf(es: seq<Entry>): seq<string> {
    if es == [] then [] else [Line(es[0])] + LinesOf(es[1..])
  }

  /** Every entry's address follows from the entries before it. */
  predicate AllPlaced(es: seq<Entry>, zone: Int64, net: Int64)
    decreases |es|
  {
    es == [] || (Placed(es[0], zone, net) && AllPlaced(es[1..], ZoneAfter(es[0], zone), NetAfter(es[0], net)))
  }

  predicate AllEncodable(es: seq<Entry>) {
    forall i :: 0 <= i < |es| ==> Encodable(es[i])
  }

  lemma {:induction false} TrimNotBlank(s: string, i: nat)
    requires i < |s| && !IsSpace(s[i])
    ensures TrimSpace(s) != ""
    decreases |s|
  {
    if IsSpace(s[0]) {
      TrimNotBlank(s[1..], i - 1);
    } else if IsSpace(s[|s| - 1]) {
      TrimNotBlank(s[..|s| - 1], i);
    }
  }

  /** A written line is neither a comment nor blank. */
  lemma LineIsSeen(e: Entry)
    ensures !Ignored(Line(e))
  {
    hide Join, TextFields, DecimalInt, LineNumber, TrimSpace, LineKind;
    var w := Word(LineKind(e));
    assert Line(e)[|w|] == ',';
    assert Line(e)[0] == (if w == "" then ',' else w[0]);
    TrimNotBlank(Line(e), |w|);
  }

  /** Reading the lines of a list with running zone and net returns the list exactly when a line can carry
      every entry and every address follows from the entries before it. */
  lemma {:induction false} ListRoundTrip(es: seq<Entry>, zone: Int64, net: Int64)
    ensures ReadLines(LinesOf(es), zone, net) == es <==> AllEncodable(es) && AllPlaced(es, zone, net)
    decreases |es|
  {
    hide Ignored, Line, ParsedLine, Encodable, Placed, ZoneAfter, NetAfter;
    if es != [] {
      var e := es[0];
      assert LinesOf(es)[1..] == LinesOf(es[1..]);
      LineIsSeen(e);
      LineRoundTrip(e, zone, net);
      var p := ParsedLine(Line(e), zone, net).value;
      ListRoundTrip(es[1..], p.zone, p.net);
      assert es == [e] + es[1..];
      FirstAndRest(es);
      if Encodable(e) && Placed(e, zone, net) {
        StateAfter(e, zone, net);
      } else {
        assert ReadLines(LinesOf(es), zone, net)[0] == p.entry != e;
      }
    }
  }

  lemma FirstAndRest(es: seq<Entry>)
    requires es != []
    ensures AllEncodable(es) <==> Encodable(es[0]) && AllEncodable(es[1..])
  {
    hide Encodable;
    assert forall i :: 0 <= i < |es[1..]| ==> es[1..][i] == es[i + 1];
    if Encodable(es[0]) && AllEncodable(es[1..]) {
      forall i | 0 <= i < |es| ensures Encodable(es[i]) {
        assert i > 0 ==> Encodable(es[1..][i - 1]);
      }
    }
  }

  // ---------------------------------------------------------------- as a file

  /** A file of lines, each with its line ending. */
  function FileOf(lines: seq<string>): string {
    if lines == [] then "" else lines[0] + "\r\n" + FileOf(lines[1..])
  }

  /** `encodeNodelistEntries`: a comment line and the entries. */
  function NodelistFile(header: string, es: seq<Entry>): string {
    FileOf([header] + LinesOf(es))
  }

  function DropCr(line: string): string {
    if line != "" && line[|line| - 1] == '\r' then line[..|line| - 1] else line
  }

  /** The lines a `bufio.Scanner` delivers. */
  function Scanned(text: string): seq<string> {
    var parts := Split(text, '\n');
    var n := if parts[|parts| - 1] == "" then |parts| - 1 else |parts|;
    seq(n, i requires 0 <= i < n => DropCr(parts[i]))
  }

  lemma {:induction false} FileParts(lines: seq<string>)
    requires forall i :: 0 <= i < |lines| ==> '\n' !in lines[i]
    ensures Split(FileOf(lines), '\n') == WithCr(lines) + [""]
    decreases |lines|
  {
    hide Split;
    if lines == [] {
      SplitNone("", '\n');
    } else {
      FileParts(lines[1..]);
      SplitField(lines[0] + "\r", '\n', FileOf(lines[1..]));
      assert lines[0] + "\r\n" + FileOf(lines[1..]) == lines[0] + "\r" + ['\n'] + FileOf(lines[1..]);
      assert WithCr(lines) == [lines[0] + "\r"] + WithCr(lines[1..]);
    }
  }

  function WithCr(lines: seq<string>): (r: seq<string>)
    ensures |r| == |lines| && forall i :: 0 <= i < |r| ==> r[i] == lines[i] + "\r"
  {
    seq(|lines|, i requires 0 <= i < |lines| => lines[i] + "\r")
  }

  lemma ScanFile(lines: seq<string>)
    requires forall i :: 0 <= i < |lines| ==> '\n' !in lines[i]
    ensures Scanned(FileOf(lines)) == lines
  {
    hide Split, FileOf;
    FileParts(lines);
    var r := Scanned(FileOf(lines));
    forall i | 0 <= i < |lines| ensures r[i] == lines[i] {
      assert (lines[i] + "\r")[..|lines[i]|] == lines[i];
    }
  }

  /** The row that is stored for an entry: the statement writes the constant 1 for `is_active`, and the flag
      that was read is bound to nothing. */
  function Row(e: Entry): Entry {
    e.(active := true)
  }

  function Rows(es: seq<Entry>): (rows: seq<Entry>)
    ensures |rows| == |es| && forall i :: 0 <= i < |rows| ==> rows[i] == Row(es[i])
  {
    seq(|es|, i requires 0 <= i < |es| => Row(es[i]))
  }

  /** `ImportFile`, from a state in which nothing has been seen. */
  function Imported(text: string): seq<Entry> {
    Rows(ReadLines(Scanned(text), 0, 0))
  }

  predicate OneLine(e: Entry) {
    '\n' !in e.name && '\n' !in e.location && '\n' !in e.sysop && '\n' !in e.phone && '\n' !in e.flags
  }

  lemma {:induction false} JoinSubset(parts: seq<string>, sep: char, c: char)
    requires c != sep && forall i :: 0 <= i < |parts| ==> c !in parts[i]
    ensures c !in Join(parts, sep)
    decreases |parts|
  {
    if |parts| > 1 {
      JoinSubset(parts[1..], sep, c);
    }
  }

  lemma NumberHasNoBreak(n: int)
    ensures '\n' !in DecimalInt(n)
  {
    hide Decimal, Value;
    var m := if n < 0 then -n else n;
    DecimalIsInverse(m);
  }

  lemma WordHasNoBreak(k: Kind)
    ensures '\n' !in Word(k)
  {
  }

  lemma LineHasNoBreak(e: Entry)
    requires OneLine(e)
    ensures '\n' !in Line(e)
  {
    hide Join, DecimalInt, LineNumber, LineKind, LineBaud, NlEncode, Word;
    NlEncodeSubset(e.name, '\n');
    NlEncodeSubset(e.location, '\n');
    NlEncodeSubset(e.sysop, '\n');
    NumberHasNoBreak(LineBaud(e));
    NumberHasNoBreak(LineNumber(e));
    WordHasNoBreak(LineKind(e));
    JoinSubset(TextFields(e), ',', '\n');
  }

  lemma {:induction false} LinesHaveNoBreak(es: seq<Entry>)
    requires forall i :: 0 <= i < |es| ==> OneLine(es[i])
    ensures forall i :: 0 <= i < |LinesOf(es)| ==> '\n' !in LinesOf(es)[i]
    decreases |es|
  {
    hide Line, OneLine;
    if es != [] {
      LineHasNoBreak(es[0]);
      LinesHaveNoBreak(es[1..]);
    }
  }

  /** The entries with the flag that their lines stand for. */
  function ByKind(es: seq<Entry>): (r: seq<Entry>)
    ensures |r| == |es| && forall i :: 0 <= i < |r| ==> r[i] == es[i].(active := ActiveKind(es[i]))
  {
    seq(|es|, i requires 0 <= i < |es| => es[i].(active := ActiveKind(es[i])))
  }

  lemma SameLine(e: Entry, active: bool)
    ensures Line(e.(active := active)) == Line(e)
    ensures LineKind(e.(active := active)) == LineKind(e)
  {
    hide Join, DecimalInt, NlEncode, Word, KindOf;
  }

  /** The flag changes no line and no address. */
  lemma {:induction false} ByKindReads(es: seq<Entry>, zone: Int64, net: Int64)
    ensures LinesOf(ByKind(es)) == LinesOf(es)
    ensures AllPlaced(ByKind(es), zone, net) <==> AllPlaced(es, zone, net)
    decreases |es|
  {
    hide Line, LineKind;
    if es != [] {
      SameLine(es[0], ActiveKind(es[0]));
      assert ByKind(es)[1..] == ByKind(es[1..]);
      ByKindReads(es[1..], ZoneAfter(es[0], zone), NetAfter(es[0], net));
    }
  }

  lemma ByKindEncodable(es: seq<Entry>)
    ensures AllEncodable(ByKind(es)) <==> forall i :: 0 <= i < |es| ==> Carried(es[i])
  {
    hide Encodable, Carried;
    forall i | 0 <= i < |es| ensures Encodable(ByKind(es)[i]) <==> Carried(es[i]) {
      hide ByKind;
      FlagEncodable(es[i]);
    }
  }

  lemma FlagEncodable(e: Entry)
    ensures Encodable(e.(active := ActiveKind(e))) <==> Carried(e)
  {
    hide Line, LineKind, FieldText;
    SameLine(e, ActiveKind(e));
  }

  lemma ReadFlag(line: string, zone: Int64, net: Int64)
    requires ParsedLine(line, zone, net).Some?
    ensures var e := ParsedLine(line, zone, net).value.entry; e.active <==> ActiveKind(e)
  {
    hide Split, Join, NlDecode, KindOf, TrimSpace, AtoiValue;
    TitlesDiffer(KindOf(Split(line, ',')[0]));
  }

  /** What was read is flagged by its kind. */
  lemma {:induction false} ReadFlags(lines: seq<string>, zone: Int64, net: Int64)
    ensures ByKind(ReadLines(lines, zone, net)) == ReadLines(lines, zone, net)
    decreases |lines|
  {
    hide Ignored, ParsedLine, ActiveKind;
    if lines != [] {
      var p := ParsedLine(lines[0], zone, net);
      if Ignored(lines[0]) || p.None? {
        ReadFlags(lines[1..], zone, net);
      } else {
        ReadFlag(lines[0], zone, net);
        ReadFlags(lines[1..], p.value.zone, p.value.net);
      }
    }
  }

  /** Rows of what was read: equal to a list exactly when the list is what was read but for the flag, and
      says active everywhere. */
  lemma RowsAre(read: seq<Entry>, es: seq<Entry>)
    requires ByKind(read) == read
    ensures Rows(read) == es <==> read == ByKind(es) && forall i :: 0 <= i < |es| ==> es[i].active
  {
    if Rows(read) == es {
      forall i | 0 <= i < |es| ensures es[i].active && read[i] == ByKind(es)[i] {
        assert Rows(read)[i] == Row(read[i]) && ByKind(read)[i] == read[i];
      }
    }
    if read == ByKind(es) && forall i :: 0 <= i < |es| ==> es[i].active {
      forall i | 0 <= i < |es| ensures Rows(read)[i] == es[i] {
        assert Rows(read)[i] == Row(read[i]) && read[i] == ByKind(es)[i];
      }
    }
  }

  lemma ImportedIsRows(header: string, es: seq<Entry>)
    requires ";" <= header && '\n' !in header
    requires forall i :: 0 <= i < |es| ==> OneLine(es[i])
    ensures Imported(NodelistFile(header, es)) == Rows(ReadLines(LinesOf(es), 0, 0))
  {
    hide Line, OneLine, LinesOf, FileOf, Scanned, ParsedLine;
    LinesHaveNoBreak(es);
    var lines := [header] + LinesOf(es);
    ScanFile(lines);
    assert lines[1..] == LinesOf(es);
  }

  /** Importing a generated file stores its entries in order exactly when a line can carry their fields, every
      address follows from the entries before it, and every entry is active: an inactive one comes back active. */
  lemma FileRoundTrip(header: string, es: seq<Entry>)
    requires ";" <= header && '\n' !in header
    requires forall i :: 0 <= i < |es| ==> OneLine(es[i])
    ensures Imported(NodelistFile(header, es)) == es <==>
      (forall i :: 0 <= i < |es| ==> Carried(es[i]) && es[i].active) && AllPlaced(es, 0, 0)
  {
    hide OneLine, LinesOf, NodelistFile, Imported, AllEncodable, AllPlaced, ReadLines, Carried;
    ImportedIsRows(header, es);
    ReadFlags(LinesOf(es), 0, 0);
    RowsAre(ReadLines(LinesOf(es), 0, 0), es);
    ByKindReads(es, 0, 0);
    ByKindEncodable(es);
    ListRoundTrip(ByKind(es), 0, 0);
  }

  /** A node on hold: its line is read as inactive, and its row is stored as active. */
  lemma HeldNodeBecomesActive(header: string)
    requires ";" <= header && '\n' !in header
    ensures var zone := Entry(1, 1, 0, 0, "a", "b", "c", "d", 300, "", "Zone", true);
      var held := Entry(1, 1, 5, 0, "a", "b", "c", "d", 300, "", "Hold", false);
      && ReadLines(LinesOf([zone, held]), 0, 0) == [zone, held]
      && Imported(NodelistFile(header, [zone, held])) == [zone, held.(active := true)]
  {
    hide LinesOf, NodelistFile, Imported, KindOf, ReadLines, TrimSpace;
    var zone := Entry(1, 1, 0, 0, "a", "b", "c", "d", 300, "", "Zone", true);
    var held := Entry(1, 1, 5, 0, "a", "b", "c", "d", 300, "", "Hold", false);
    var es := [zone, held];
    WordIsKind(Zone);
    WordIsKind(Hold);
    assert LineKind(zone) == Zone && LineKind(held) == Hold;
    assert es[1..] == [held] && [held][1..] == [];
    assert AllPlaced([held], 1, 1);
    ListRoundTrip(es, 0, 0);
    ImportedIsRows(header, es);
    assert Rows(es) == [zone, held.(active := true)];
  
  }

  // ---------------------------------------------------------------- as loops

  lemma LinesSnoc(es: seq<Entry>, i: nat)
    requires i < |es|
    ensures LinesOf(es[i..]) == [Line(es[i])] + LinesOf(es[i + 1..])
  {
    hide Line;
    assert es[i..][1..] == es[i + 1..];
  }

  lemma FileCons(line: string, lines: seq<string>)
    ensures FileOf([line] + lines) == line + "\r\n" + FileOf(lines)
  {
    assert ([line] + lines)[1..] == lines;
  }

  /** `encodeNodelistEntries` */
  method EncodeNodelistEntries(header: string, es: seq<Entry>) returns (b: string)
    ensures b == NodelistFile(header, es)
  {
    hide Line, LinesOf, FileOf;
    b := header + "\r\n";
    FileCons(header, LinesOf(es));
    assert es[0..] == es;
    for i := 0 to |es|
      invariant b + FileOf(LinesOf(es[i..])) == NodelistFile(header, es)
    {
      LinesSnoc(es, i);
      FileCons(Line(es[i]), LinesOf(es[i + 1..]));
      assert b + (Line(es[i]) + "\r\n" + FileOf(LinesOf(es[i + 1..]))) == b + (Line(es[i]) + "\r\n") + FileOf(LinesOf(es[i + 1..]));
      b := b + (Line(es[i]) + "\r\n");
    }
    NoFile();
    assert es[|es|..] == [] && b + "" == b;
  }

  lemma NoFile()
    ensures FileOf(LinesOf([])) == ""
  {
  }

  /** The scan loop of `ImportFile`, with its running zone and net. */
  method ImportFile(text: string) returns (rows: seq<Entry>)
    ensures rows == Imported(text)
  {
    hide ReadLines, ParsedLine, Ignored, Scanned;
    var curZone: Int64, curNet: Int64 := 0, 0;
    var lines := Scanned(text);
    rows := [];
    assert lines[0..] == lines && [] + Rows(ReadLines(lines, 0, 0)) == Rows(ReadLines(lines, 0, 0));
    for i := 0 to |lines|
      invariant rows + Rows(ReadLines(lines[i..], curZone, curNet)) == Imported(text)
    {
      ReadStep(lines[i..], curZone, curNet);
      assert lines[i..][1..] == lines[i + 1..];
      if Ignored(lines[i]) {
        continue;
      }
      var p := ParsedLine(lines[i], curZone, curNet);
      if p.None? {
        continue;
      }
      RowsCons(p.value.entry, ReadLines(lines[i + 1..], p.value.zone, p.value.net), rows);
      rows := rows + [Row(p.value.entry)];
      curZone, curNet := p.value.zone, p.value.net;
    }
    NothingRead(curZone, curNet);
    assert lines[|lines|..] == [] && rows + [] == rows;
  }

  lemma RowsCons(e: Entry, rest: seq<Entry>, rows: seq<Entry>)
    ensures rows + Rows([e] + rest) == rows + [Row(e)] + Rows(rest)
  {
  }

  lemma ReadStep(lines: seq<string>, zone: Int64, net: Int64)
    requires lines != []
    ensures Ignored(lines[0]) || ParsedLine(lines[0], zone, net).None? ==> ReadLines(lines, zone, net) == ReadLines(lines[1..], zone, net)
    ensures !Ignored(lines[0]) && ParsedLine(lines[0], zone, net).Some? ==>
      var p := ParsedLine(lines[0], zone, net).value;
      ReadLines(lines, zone, net) == [p.entry] + ReadLines(lines[1..], p.zone, p.net)
  {
    hide ParsedLine, Ignored;
  }

  lemma NothingRead(zone: Int64, net: Int64)
    ensures ReadLines([], zone, net) == []
  {
  }
}
