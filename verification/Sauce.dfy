/** The SAUCE00 trailer of an art file: an end-of-file octet, an optional block of COMNT lines and a
    record of 128 octets. Octets are characters below 256; the clock is a parameter. */
module SauceModel {
  import opened Octets
  import Text

  const SAUCE_ID: string := "SAUCE00"
  const SAUCE_LEN: nat := 128
  const COMNT_ID: string := "COMNT"
  const COMNT_LINE_LEN: nat := 64
  const MAX_COMMENTS: nat := 255
  const EOF: char := '\U{1a}'

  type InfoText = s: string | |s| == 22 witness Zeros(22)

  datatype Sauce = Sauce(
    present: bool, title: string, author: string, group: string, date: string, fileSize: U32,
    dataType: U8, fileType: U8, tInfo1: U16, tInfo2: U16, tInfo3: U16, tInfo4: U16,
    comments: U8, flags: U8, tInfoS: InfoText, commentLines: seq<string>)

  function Absent(): Sauce {
    Sauce(false, "", "", "", "", 0, 0, 0, 0, 0, 0, 0, 0, 0, Zeros(22), [])
  }

  predicate IsPad(c: char) {
    c == '\0' || c == ' '
  }

  /** `strings.TrimRight(s, "\x00 ")` */
  function Trimmed(s: string): string {
    if s != [] && IsPad(s[|s| - 1]) then Trimmed(s[..|s| - 1]) else s
  }

  /** A field of fixed width, cut or filled with blanks. */
  function Fixed(s: string, n: nat): (r: string)
    ensures |r| == n
  {
    Cut(s, n) + Text.Spaces(n - |Cut(s, n)|)
  }

  /** A comment line, cut or filled with NUL. */
  function Line(s: string): (r: string)
    ensures |r| == COMNT_LINE_LEN
  {
    Padded(s, COMNT_LINE_LEN)
  }

  // ---------------------------------------------------------------- the record

  function DateField(s: Sauce, today: string): string {
    if |s.date| == 8 then s.date else today
  }

  /** The octets from 90 to 96: file size and types. */
  function Kinds(s: Sauce): (r: string)
    ensures |r| == 6
  {
    Le32(s.fileSize) + Octet(s.dataType) + Octet(s.fileType)
  }

  /** The octets from 96 to 104: width, height and two more. */
  function Infos(s: Sauce): (r: string)
    ensures |r| == 8
  {
    Le16(s.tInfo1) + Le16(s.tInfo2) + Le16(s.tInfo3) + Le16(s.tInfo4)
  }

  /** The numeric half of the record, from octet 90. */
  function Numbers(s: Sauce): (r: string)
    ensures |r| == 38
  {
    Kinds(s) + Infos(s) + (Octet(s.comments) + Octet(s.flags) + s.tInfoS)
  }

  /** The text half of the record, up to octet 90. */
  function Texts(s: Sauce, today: string): (r: string)
    ensures |r| == 90
  {
    SAUCE_ID + Fixed(s.title, 35) + Fixed(s.author, 20) + Fixed(s.group, 20) + Fixed(DateField(s, today), 8)
  }

  /** `encodeSauceRecord` */
  function Record(s: Sauce, today: string): (r: string)
    ensures |r| == SAUCE_LEN
  {
    Texts(s, today) + Numbers(s)
  }

  /** `parseSauceRecord` */
  function ParsedRecord(rec: string): Sauce
    requires |rec| == SAUCE_LEN
  {
    Sauce(true, Trimmed(rec[7..42]), Trimmed(rec[42..62]), Trimmed(rec[62..82]), Trimmed(rec[82..90]),
          FromLe32(rec[90..94]), FromOctet(rec[94]), FromOctet(rec[95]),
          FromLe16(rec[96..98]), FromLe16(rec[98..100]), FromLe16(rec[100..102]), FromLe16(rec[102..104]),
          FromOctet(rec[104]), FromOctet(rec[105]), rec[106..128], [])
  }

  lemma {:induction false} TrimPadding(s: string, pad: string)
    requires forall i :: 0 <= i < |pad| ==> IsPad(pad[i])
    ensures Trimmed(s + pad) == Trimmed(s)
    decreases |pad|
  {
    if pad == [] {
      assert s + pad == s;
    } else {
      assert (s + pad)[..|s + pad| - 1] == s + pad[..|pad| - 1];
      TrimPadding(s, pad[..|pad| - 1]);
    }
  }

  lemma TrimFixed(s: string, n: nat)
    ensures Trimmed(Fixed(s, n)) == Trimmed(Cut(s, n))
  {
    TrimPadding(Cut(s, n), Text.Spaces(n - |Cut(s, n)|));
  }

  lemma TextSlices(s: Sauce, today: string)
    ensures var r := Record(s, today);
      && r[0..7] == SAUCE_ID && r[7..42] == Fixed(s.title, 35) && r[42..62] == Fixed(s.author, 20)
      && r[62..82] == Fixed(s.group, 20) && r[82..90] == Fixed(DateField(s, today), 8)
  {
    hide Fixed, DateField, Numbers;
    var t, n := Texts(s, today), Numbers(s);
    SliceLeft(t, n, 0, 7);
    SliceLeft(t, n, 7, 42);
    SliceLeft(t, n, 42, 62);
    SliceLeft(t, n, 62, 82);
    SliceLeft(t, n, 82, 90);
  }

  lemma NumberSlices(s: Sauce, today: string)
    ensures var r := Record(s, today);
      && r[90..94] == Le32(s.fileSize) && r[94] == s.dataType as char && r[95] == s.fileType as char
      && r[96..98] == Le16(s.tInfo1) && r[98..100] == Le16(s.tInfo2)
      && r[100..102] == Le16(s.tInfo3) && r[102..104] == Le16(s.tInfo4)
      && r[104] == s.comments as char && r[105] == s.flags as char && r[106..128] == s.tInfoS
  {
    hide Le32, Le16, Texts;
    var t, n := Texts(s, today), Numbers(s);
    SliceRight(t, n, 0, 4);
    SliceRight(t, n, 6, 8);
    SliceRight(t, n, 8, 10);
    SliceRight(t, n, 10, 12);
    SliceRight(t, n, 12, 14);
    SliceRight(t, n, 16, 38);
  }

  /** What a record gives back: text fields cut to their width and trimmed, the date replaced by the
      clock's unless it has eight octets, and every number as it was. */
  lemma RecordRoundTrip(s: Sauce, today: string)
    ensures ParsedRecord(Record(s, today)) ==
      s.(present := true, title := Trimmed(Cut(s.title, 35)), author := Trimmed(Cut(s.author, 20)),
         group := Trimmed(Cut(s.group, 20)), date := Trimmed(Cut(DateField(s, today), 8)), commentLines := [])
    ensures Record(s, today)[0..7] == SAUCE_ID
  {
    hide Record, Fixed, Cut, Trimmed, Le32, FromLe32, DateField, Le16, FromLe16;
    TextSlices(s, today);
    NumberSlices(s, today);
    TrimFixed(s.title, 35);
    TrimFixed(s.author, 20);
    TrimFixed(s.group, 20);
    TrimFixed(DateField(s, today), 8);
    Le32RoundTrip(s.fileSize);
    Le16RoundTrip(s.tInfo1);
    Le16RoundTrip(s.tInfo2);
    Le16RoundTrip(s.tInfo3);
    Le16RoundTrip(s.tInfo4);
  }

  /** A text field of a record at its place, filled with blanks. */
  predicate HasText(r: string, lo: nat, hi: nat, text: string)
    requires lo <= hi <= |r|
  {
    forall i :: lo <= i < hi ==> r[i] == if i - lo < |text| then text[i - lo] else ' '
  }

  lemma FieldAt(r: string, lo: nat, hi: nat, text: string)
    requires lo <= hi <= |r| && r[lo..hi] == Fixed(text, hi - lo)
    ensures HasText(r, lo, hi, text)
  {
    forall i | lo <= i < hi ensures r[i] == if i - lo < |text| then text[i - lo] else ' ' {
      assert r[i] == r[lo..hi][i - lo];
    }
  }

  /** The 128 octets of a record, field by field. */
  lemma RecordLayout(s: Sauce, today: string)
    ensures var r := Record(s, today);
      && r[0..7] == "SAUCE00" && HasText(r, 7, 42, s.title) && HasText(r, 42, 62, s.author) && HasText(r, 62, 82, s.group)
      && HasText(r, 82, 90, if |s.date| == 8 then s.date else today)
      && HasWord(r, 90, s.fileSize % 0x1_0000) && HasWord(r, 92, s.fileSize / 0x1_0000)
      && r[94] as int == s.dataType && r[95] as int == s.fileType
      && HasWord(r, 96, s.tInfo1) && HasWord(r, 98, s.tInfo2) && HasWord(r, 100, s.tInfo3) && HasWord(r, 102, s.tInfo4)
      && r[104] as int == s.comments && r[105] as int == s.flags && r[106..128] == s.tInfoS
  {
    hide Record, Fixed, Le16, HasText, HasWord;
    var r := Record(s, today);
    TextSlices(s, today);
    NumberSlices(s, today);
    FieldAt(r, 7, 42, s.title);
    FieldAt(r, 42, 62, s.author);
    FieldAt(r, 62, 82, s.group);
    FieldAt(r, 82, 90, DateField(s, today));
    assert r[90..94][0..2] == r[90..92] && r[90..94][2..4] == r[92..94];
    WordOctets(r, 90, s.fileSize % 0x1_0000);
    WordOctets(r, 92, s.fileSize / 0x1_0000);
    WordOctets(r, 96, s.tInfo1);
    WordOctets(r, 98, s.tInfo2);
    WordOctets(r, 100, s.tInfo3);
    WordOctets(r, 102, s.tInfo4);
  }

  // ---------------------------------------------------------------- the trailer

  /** The comment lines that are written: at most 255, each cut to 64 octets. */
  function KeptLines(lines: seq<string>): (r: seq<string>)
    ensures |r| == (if |lines| < MAX_COMMENTS then |lines| else MAX_COMMENTS)
    ensures forall i :: 0 <= i < |r| ==> r[i] == Cut(lines[i], COMNT_LINE_LEN)
  {
    var k := if |lines| < MAX_COMMENTS then |lines| else MAX_COMMENTS;
    seq(k, i requires 0 <= i < k => Cut(lines[i], COMNT_LINE_LEN))
  }

  function Lines(lines: seq<string>): (r: string)
    ensures |r| == COMNT_LINE_LEN * |lines|
  {
    if lines == [] then "" else Lines(lines[..|lines| - 1]) + Line(lines[|lines| - 1])
  }

  function CommentBlock(lines: seq<string>): string {
    if lines == [] then "" else COMNT_ID + Lines(lines)
  }

  /** The record that is written for some art: the counts are computed afresh. */
  function Stored(art: string, s: Sauce): Sauce {
    s.(commentLines := KeptLines(s.commentLines), comments := |KeptLines(s.commentLines)|, fileSize := |art| % 0x1_0000_0000)
  }

  /** `AppendSauce` */
  function Appended(art: string, s: Sauce, today: string): string {
    if !s.present then art
    else art + [EOF] + CommentBlock(KeptLines(s.commentLines)) + Record(Stored(art, s), today)
  }

  /** One end-of-file octet in front of the trailer goes with it. */
  function BodyEnd(data: string, end: nat): (r: nat)
    requires end <= |data|
    ensures r <= end
  {
    if end > 0 && data[end - 1] == EOF then end - 1 else end
  }

  /** The comment lines in a block of a file. */
  function LinesAt(data: string, start: nat, n: nat): (r: seq<string>)
    requires start + COMNT_LINE_LEN * n <= |data|
    ensures |r| == n
  {
    seq(n, i requires 0 <= i < n =>
      Trimmed(data[start + COMNT_LINE_LEN * i..start + COMNT_LINE_LEN * i + COMNT_LINE_LEN]))
  }

  /** `SplitSauce` */
  function SplitOf(data: string): (string, Sauce) {
    if |data| < SAUCE_LEN then (data, Absent())
    else
      var start := |data| - SAUCE_LEN;
      var rec := data[start..];
      if rec[0..7] != SAUCE_ID then (data, Absent())
      else
        var s := ParsedRecord(rec);
        if s.comments == 0 then (data[..BodyEnd(data, start)], s)
        else
          var c := start - (5 + s.comments * COMNT_LINE_LEN);
          if c < 0 then (data, Absent())
          else if data[c..c + 5] != COMNT_ID then (data[..BodyEnd(data, start)], s)
          else (data[..BodyEnd(data, c)], s.(commentLines := LinesAt(data, c + 5, s.comments)))
  }

  lemma {:induction false} LineInBlock(lines: seq<string>, i: nat)
    requires i < |lines|
    ensures Lines(lines)[COMNT_LINE_LEN * i..COMNT_LINE_LEN * i + COMNT_LINE_LEN] == Line(lines[i])
    decreases |lines|
  {
    hide Line;
    var front := lines[..|lines| - 1];
    if i < |front| {
      LineInBlock(front, i);
      SliceLeft(Lines(front), Line(lines[|front|]), COMNT_LINE_LEN * i, COMNT_LINE_LEN * i + COMNT_LINE_LEN);
    } else {
      SliceRight(Lines(front), Line(lines[|front|]), 0, COMNT_LINE_LEN);
      assert Line(lines[i])[0..COMNT_LINE_LEN] == Line(lines[i]);
    }
  }

  /** What the reader makes of a sauce that was written. */
  function Normalised(art: string, s: Sauce, today: string): Sauce {
    Stored(art, s).(title := Trimmed(Cut(s.title, 35)), author := Trimmed(Cut(s.author, 20)),
      group := Trimmed(Cut(s.group, 20)), date := Trimmed(Cut(DateField(s, today), 8)),
      commentLines := TrimmedLines(KeptLines(s.commentLines)))
  }

  function TrimmedLines(lines: seq<string>): (r: seq<string>)
    ensures |r| == |lines| && forall i :: 0 <= i < |r| ==> r[i] == Trimmed(lines[i])
  {
    seq(|lines|, i requires 0 <= i < |lines| => Trimmed(lines[i]))
  }

  lemma TrimZeros(s: string, n: nat)
    ensures Trimmed(s + Zeros(n)) == Trimmed(s)
  {
    hide Trimmed;
    TrimPadding(s, Zeros(n));
  }

  lemma TrimLine(s: string)
    requires |s| <= COMNT_LINE_LEN
    ensures Trimmed(Line(s)) == Trimmed(s)
  {
    hide Trimmed, Zeros;
    TrimZeros(s, COMNT_LINE_LEN - |s|);
  }

  /** The lines of a block that lies inside a file. */
  lemma BlockReadBack(front: string, lines: seq<string>, back: string)
    requires forall i :: 0 <= i < |lines| ==> |lines[i]| <= COMNT_LINE_LEN
    ensures LinesAt(front + Lines(lines) + back, |front|, |lines|) == TrimmedLines(lines)
  {
    hide Lines, Line, Trimmed;
    var data := front + Lines(lines) + back;
    forall i | 0 <= i < |lines| ensures LinesAt(data, |front|, |lines|)[i] == Trimmed(lines[i]) {
      var lo := COMNT_LINE_LEN * i;
      assert data[|front| + lo..|front| + lo + COMNT_LINE_LEN] == Lines(lines)[lo..lo + COMNT_LINE_LEN];
      LineInBlock(lines, i);
      TrimLine(lines[i]);
    }
  }

  /** Splitting a file that was given a trailer returns exactly the art, whatever the art is, and the sauce
      in its normal form. */
  lemma SplitAppended(art: string, s: Sauce, today: string)
    requires s.present
    ensures SplitOf(Appended(art, s, today)) == (art, Normalised(art, s, today))
  {
    hide Record, ParsedRecord, LinesAt, Lines, Trimmed, Cut, TrimmedLines;
    var lines := KeptLines(s.commentLines);
    var stored := Stored(art, s);
    var rec := Record(stored, today);
    RecordRoundTrip(stored, today);
    var data := Appended(art, s, today);
    assert DateField(stored, today) == DateField(s, today);
    var start := |data| - SAUCE_LEN;
    assert data[start..] == rec;
    if lines == [] {
      assert data[..start] == art + [EOF];
      assert data[..|art|] == art;
    } else {
      var c := |art| + 1;
      assert c == start - (5 + stored.comments * COMNT_LINE_LEN);
      assert data == art + [EOF] + COMNT_ID + Lines(lines) + rec;
      assert data[c..c + 5] == COMNT_ID;
      assert data[..|art|] == art && data[c - 1] == EOF;
      BlockReadBack(art + [EOF] + COMNT_ID, lines, rec);
    }
  }

  // ---------------------------------------------------------------- what survives

  /** A text that a field of this width gives back as it was. */
  predicate Fits(s: string, n: nat) {
    |s| <= n && (s != [] ==> !IsPad(s[|s| - 1]))
  }

  lemma {:induction false} TrimShortens(s: string)
    ensures |Trimmed(s)| <= |s| && (Trimmed(s) != [] ==> !IsPad(Trimmed(s)[|Trimmed(s)| - 1]))
    ensures Trimmed(s) == s <==> s == [] || !IsPad(s[|s| - 1])
  {
    if s != [] && IsPad(s[|s| - 1]) {
      TrimShortens(s[..|s| - 1]);
    }
  }

  lemma FitsIff(s: string, n: nat)
    ensures Trimmed(Cut(s, n)) == s <==> Fits(s, n)
  {
    hide Trimmed;
    TrimShortens(Cut(s, n));
  }

  /** The clock's date: eight characters, none of them padding. */
  predicate IsDate(d: string) {
    |d| == 8 && !IsPad(d[7])
  }

  lemma DateIff(s: Sauce, today: string)
    requires IsDate(today)
    ensures Trimmed(Cut(DateField(s, today), 8)) == s.date <==> IsDate(s.date)
  {
    hide Trimmed;
    TrimShortens(Cut(DateField(s, today), 8));
  }

  lemma LinesIff(lines: seq<string>)
    ensures TrimmedLines(KeptLines(lines)) == lines <==>
      |lines| <= MAX_COMMENTS && forall i :: 0 <= i < |lines| ==> Fits(lines[i], COMNT_LINE_LEN)
  {
    hide Trimmed, Cut, Fits;
    var r := TrimmedLines(KeptLines(lines));
    forall i | 0 <= i < |r| ensures r[i] == lines[i] <==> Fits(lines[i], COMNT_LINE_LEN) {
      FitsIff(lines[i], COMNT_LINE_LEN);
    }
  }

  /** Every field and comment line comes back exactly when each text fits its field, none ends in a space or
      NUL, the date has eight octets and there are at most 255 lines. The counts are always computed afresh. */
  lemma SauceSurvives(art: string, s: Sauce, today: string)
    requires s.present && IsDate(today)
    ensures SplitOf(Appended(art, s, today)).1
              == s.(comments := |KeptLines(s.commentLines)|, fileSize := |art| % 0x1_0000_0000)
       <==> (Fits(s.title, 35) && Fits(s.author, 20) && Fits(s.group, 20) && IsDate(s.date)
             && |s.commentLines| <= MAX_COMMENTS
             && forall i :: 0 <= i < |s.commentLines| ==> Fits(s.commentLines[i], COMNT_LINE_LEN))
  {
    hide SplitOf, Appended, Trimmed, Cut, Fits, DateField, IsDate;
    SplitAppended(art, s, today);
    FitsIff(s.title, 35);
    FitsIff(s.author, 20);
    FitsIff(s.group, 20);
    DateIff(s, today);
    LinesIff(s.commentLines);
  }

  /** Where the comment lines start, or the record when there are none. */
  function TrailerAt(data: string): (r: nat)
    requires |data| >= SAUCE_LEN
    ensures r <= |data| - SAUCE_LEN
  {
    var start := |data| - SAUCE_LEN;
    var c := start - (5 + ParsedRecord(data[start..]).comments * COMNT_LINE_LEN);
    if ParsedRecord(data[start..]).comments == 0 || c < 0 || data[c..c + 5] != COMNT_ID then start else c
  }

  lemma SplitShape(data: string)
    requires SplitOf(data).1.present
    ensures |data| >= SAUCE_LEN && data[|data| - SAUCE_LEN..][0..7] == SAUCE_ID
    ensures SplitOf(data).0 == data[..BodyEnd(data, TrailerAt(data))]
    ensures SplitOf(data).1.comments == ParsedRecord(data[|data| - SAUCE_LEN..]).comments
  {
    hide ParsedRecord, LinesAt;
  }

  lemma NoSplit(data: string)
    requires !SplitOf(data).1.present
    ensures SplitOf(data).0 == data
  {
    hide ParsedRecord, LinesAt;
    if |data| >= SAUCE_LEN {
      PresentRecord(data[|data| - SAUCE_LEN..]);
    }
  }

  /** On any file, splitting only takes off the end: nothing, or a record with the comment lines and the
      end-of-file octet in front of it. */
  lemma SplitTakesTrailer(data: string) returns (eof: string, block: string, rec: string)
    ensures data == SplitOf(data).0 + eof + block + rec
    ensures !SplitOf(data).1.present ==> eof + block + rec == ""
    ensures SplitOf(data).1.present ==>
      && (eof == "" || eof == [EOF]) && |rec| == SAUCE_LEN && rec[0..7] == SAUCE_ID
      && (block == "" || (|block| == 5 + COMNT_LINE_LEN * SplitOf(data).1.comments && block[..5] == COMNT_ID))
  {
    hide ParsedRecord, SplitOf;
    if !SplitOf(data).1.present {
      NoSplit(data);
      eof, block, rec := "", "", "";
      assert data + "" + "" + "" == data;
    } else {
      SplitShape(data);
      var start, end := |data| - SAUCE_LEN, TrailerAt(data);
      eof, block, rec := data[BodyEnd(data, end)..end], data[end..start], data[start..];
      FourParts(data, BodyEnd(data, end), end, start);
      assert end < start ==> block[..5] == data[end..end + 5];
    }
  }

  lemma FourParts(data: string, i: nat, j: nat, k: nat)
    requires i <= j <= k <= |data|
    ensures data == data[..i] + data[i..j] + data[j..k] + data[k..]
  {
  }

  lemma PresentRecord(rec: string)
    requires |rec| == SAUCE_LEN
    ensures ParsedRecord(rec).present
  {
    hide Trimmed;
  }

  // ---------------------------------------------------------------- in place

  /** `copyFixed(dst[lo:lo+n], s, n)`: blanks, then the text over them. */
  method CopyFixed(dst: array<char>, lo: nat, n: nat, s: string)
    requires lo + n <= dst.Length
    modifies dst
    ensures dst[..] == old(dst[..lo]) + Fixed(s, n) + old(dst[lo + n..])
    ensures dst[..lo + n] == old(dst[..lo]) + Fixed(s, n)
  {
    hide Text.Spaces;
    ghost var pre, post := dst[..lo], dst[lo + n..];
    FillBlanks(dst, lo, n);
    var b := s;
    if |b| > n {
      b := b[..n];
    }
    ghost var whole := dst[..];
    assert dst[..lo] == whole[..lo] == pre;
    assert dst[lo + |b|..] == whole[lo + |b|..];
    OverBlanks(pre, b, n, post);
    Place(dst, lo, b);
    assert dst[..lo + n] == dst[..][..lo + n];
  }

  lemma OverBlanks(pre: string, b: string, n: nat, post: string)
    requires |b| <= n
    ensures var whole := pre + Text.Spaces(n) + post;
      pre + b + whole[|pre| + |b|..] == pre + (b + Text.Spaces(n - |b|)) + post
    ensures (pre + (b + Text.Spaces(n - |b|)) + post)[..|pre| + n] == pre + (b + Text.Spaces(n - |b|))
  {
    var whole := pre + Text.Spaces(n) + post;
    assert whole[|pre| + |b|..] == Text.Spaces(n - |b|) + post;
  }

  method FillBlanks(dst: array<char>, lo: nat, n: nat)
    requires lo + n <= dst.Length
    modifies dst
    ensures dst[..] == old(dst[..lo]) + Text.Spaces(n) + old(dst[lo + n..])
  {
    for i := lo to lo + n
      invariant dst[..lo] == old(dst[..lo]) && dst[lo + n..] == old(dst[lo + n..])
      invariant forall j :: lo <= j < i ==> dst[j] == ' '
    {
      dst[i] := ' ';
    }
    assert dst[lo..lo + n] == Text.Spaces(n);
    assert dst[..] == dst[..lo] + dst[lo..lo + n] + dst[lo + n..];
  }

  method PutTexts(rec: array<char>, s: Sauce, today: string)
    requires rec.Length == SAUCE_LEN
    modifies rec
    ensures rec[..90] == Texts(s, today)
  {
    hide Fixed;
    Place(rec, 0, SAUCE_ID);
    assert rec[..7] == SAUCE_ID;
    CopyFixed(rec, 7, 35, s.title);
    CopyFixed(rec, 42, 20, s.author);
    CopyFixed(rec, 62, 20, s.group);
    var date := s.date;
    if |date| != 8 {
      date := today;
    }
    CopyFixed(rec, 82, 8, date);
  }

  method PutKinds(rec: array<char>, s: Sauce)
    requires rec.Length == SAUCE_LEN
    modifies rec
    ensures rec[..96] == old(rec[..90]) + Kinds(s)
  {
    hide Le32;
    Place(rec, 90, Le32(s.fileSize));
    Place(rec, 94, Octet(s.dataType));
    Place(rec, 95, Octet(s.fileType));
  }

  method PutInfos(rec: array<char>, s: Sauce)
    requires rec.Length == SAUCE_LEN
    modifies rec
    ensures rec[..104] == old(rec[..96]) + Infos(s)
  {
    hide Le16;
    Place(rec, 96, Le16(s.tInfo1));
    Place(rec, 98, Le16(s.tInfo2));
    Place(rec, 100, Le16(s.tInfo3));
    Place(rec, 102, Le16(s.tInfo4));
  }

  method PutNumbers(rec: array<char>, s: Sauce)
    requires rec.Length == SAUCE_LEN
    modifies rec
    ensures rec[..] == old(rec[..90]) + Numbers(s)
  {
    hide Kinds, Infos;
    PutKinds(rec, s);
    PutInfos(rec, s);
    Place(rec, 104, Octet(s.comments));
    Place(rec, 105, Octet(s.flags));
    Place(rec, 106, s.tInfoS);
    assert rec[..] == rec[..128];
    assert rec[..] == old(rec[..90]) + Kinds(s) + Infos(s) + (Octet(s.comments) + Octet(s.flags) + s.tInfoS);
  }

  /** `encodeSauceRecord` fills a record of 128 octets in place. */
  method EncodeSauceRecord(s: Sauce, today: string) returns (rec: array<char>)
    ensures fresh(rec) && rec[..] == Record(s, today)
  {
    hide Texts, Numbers;
    rec := new char[SAUCE_LEN](_ => '\0');
    PutTexts(rec, s, today);
    PutNumbers(rec, s);
  }

  method CutLines(commentLines: seq<string>) returns (lines: seq<string>)
    ensures lines == KeptLines(commentLines)
  {
    hide Cut;
    lines := [];
    var i := 0;
    while i < |commentLines| && |lines| < MAX_COMMENTS
      invariant i <= |commentLines| && |lines| == i <= MAX_COMMENTS
      invariant forall j :: 0 <= j < i ==> lines[j] == Cut(commentLines[j], COMNT_LINE_LEN)
    {
      lines := lines + [Cut(commentLines[i], COMNT_LINE_LEN)];
      i := i + 1;
    }
  }

  method WriteLines(lines: seq<string>) returns (out: string)
    requires forall i :: 0 <= i < |lines| ==> |lines[i]| <= COMNT_LINE_LEN
    ensures out == Lines(lines)
  {
    hide Line, Lines;
    out := "";
    NoLines();
    for j := 0 to |lines|
      invariant out == Lines(lines[..j])
    {
      var pad := new char[COMNT_LINE_LEN](_ => '\0');
      Place(pad, 0, lines[j]);
      PadLine(lines[j], pad[..]);
      LinesSnoc(lines[..j], lines[j]);
      assert lines[..j] + [lines[j]] == lines[..j + 1];
      out := out + pad[..];
    }
    assert lines[..|lines|] == lines;
  }

  /** `AppendSauce` */
  method AppendSauce(art: string, s: Sauce, today: string) returns (r: string)
    ensures r == Appended(art, s, today)
  {
    hide Record, Lines;
    if !s.present {
      return art;
    }
    var lines := CutLines(s.commentLines);
    var block := "";
    if |lines| > 0 {
      var body := WriteLines(lines);
      block := COMNT_ID + body;
    }
    var rec := EncodeSauceRecord(s.(commentLines := lines, comments := |lines|, fileSize := |art| % 0x1_0000_0000), today);
    r := art + [EOF] + block + rec[..];
  }

  lemma NoLines()
    ensures Lines([]) == ""
  {
  }

  lemma LinesSnoc(lines: seq<string>, s: string)
    ensures Lines(lines + [s]) == Lines(lines) + Line(s)
  {
    hide Line;
    assert (lines + [s])[..|lines|] == lines;
  }

  lemma PadLine(s: string, pad: string)
    requires |s| <= COMNT_LINE_LEN && |pad| == COMNT_LINE_LEN
    requires pad[..|s|] == s && forall i :: |s| <= i < |pad| ==> pad[i] == '\0'
    ensures pad == Line(s)
  {
  }

  /** `SplitSauce` */
  method SplitSauce(data: string) returns (art: string, s: Sauce)
    ensures (art, s) == SplitOf(data)
  {
    hide ParsedRecord, Trimmed;
    if |data| < SAUCE_LEN {
      return data, Absent();
    }
    var start := |data| - SAUCE_LEN;
    var rec := data[start..];
    if rec[0..7] != SAUCE_ID {
      return data, Absent();
    }
    s := ParsedRecord(rec);
    var bodyEnd := start;
    if s.comments > 0 {
      var c := start - (5 + s.comments * COMNT_LINE_LEN);
      if c < 0 {
        return data, Absent();
      }
      if data[c..c + 5] != COMNT_ID {
        if bodyEnd > 0 && data[bodyEnd - 1] == EOF {
          bodyEnd := bodyEnd - 1;
        }
        return data[..bodyEnd], s;
      }
      var lines: seq<string>, off := [], c + 5;
      for i := 0 to s.comments
        invariant off == c + 5 + COMNT_LINE_LEN * i && |lines| == i
        invariant forall j :: 0 <= j < i ==> lines[j] == LinesAt(data, c + 5, s.comments)[j]
      {
        lines := lines + [Trimmed(data[off..off + COMNT_LINE_LEN])];
        off := off + COMNT_LINE_LEN;
      }
      assert lines == LinesAt(data, c + 5, s.comments);
      s := s.(commentLines := lines);
      bodyEnd := c;
    }
    if bodyEnd > 0 && data[bodyEnd - 1] == EOF {
      bodyEnd := bodyEnd - 1;
    }
    art := data[..bodyEnd];
  }
}
