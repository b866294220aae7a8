/** The two-octet framing of BinkP (FTS-1026) and the arguments of its file commands.

    Octets are characters below 256, so that an argument is at once octets on the wire and text. */
module BinkpFrames {
  import opened Text
  import Octets

  const M_FILE: nat := 3
  const M_EOB: nat := 5
  const M_GOT: nat := 6
  const M_ERR: nat := 7
  const M_GET: nat := 9
  const M_SKIP: nat := 10

  /** A frame as it is handed to `sendCmd` and `sendData`. */
  datatype Frame = Command(cmd: Octets.U8, arg: string) | Data(payload: string)

  function Body(f: Frame): string {
    match f
    case Command(cmd, arg) => [cmd as char] + arg
    case Data(payload) => payload
  }

  /** The header word: bit 15 marks a command, the rest is the length cut to 16 bits. */
  function Header(f: Frame): (h: nat)
    ensures h < 0x1_0000
  {
    var n := |Body(f)| % 0x1_0000;
    if f.Command? && n < 0x8000 then n + 0x8000 else n
  }

  function Encoded(f: Frame): string {
    [(Header(f) / 256) as char, (Header(f) % 256) as char] + Body(f)
  }

  /** The outcome of `recvFrame` on the octets that have arrived. */
  datatype Received =
    | Got(frame: Frame, rest: string)
    | EndOfStream
    | Truncated

  function Word(hi: char, lo: char): nat {
    (hi as int % 256) * 256 + lo as int % 256
  }

  function Decoded(s: string): (r: Received)
    ensures r.Got? ==> |r.rest| < |s|
  {
    if s == [] then EndOfStream
    else if |s| == 1 then Truncated
    else
      var h := Word(s[0], s[1]);
      var n := h % 0x8000;
      if |s| - 2 < n then (if |s| == 2 then EndOfStream else Truncated)
      else
        var payload := s[2..2 + n];
        var rest := s[2 + n..];
        if h < 0x8000 then Got(Data(payload), rest)
        else if n == 0 then Got(Command(0, ""), rest)
        else Got(Command(payload[0] as int % 256, payload[1..]), rest)
  }

  /** Header and body fit the 15-bit length. */
  predicate Encodable(f: Frame) {
    |Body(f)| < 0x8000
  }

  lemma HeaderWord(f: Frame, rest: string)
    ensures var s := Encoded(f) + rest;
      |s| == 2 + |Body(f)| + |rest| && Word(s[0], s[1]) == Header(f) && s[2..] == Body(f) + rest
  {
    hide Body, Header;
  }

  /** A frame is read back from the front of any stream exactly when its length fits 15 bits. */
  lemma FrameRoundTrip(f: Frame, rest: string)
    ensures Decoded(Encoded(f) + rest) == Got(f, rest) <==> Encodable(f)
  {
    hide Word, Encoded;
    HeaderWord(f, rest);
    var s := Encoded(f) + rest;
    var n := Header(f) % 0x8000;
    if Encodable(f) {
      assert s[2..2 + n] == s[2..][..n] == Body(f) && s[2 + n..] == s[2..][n..] == rest;
      assert f.Command? ==> Body(f)[1..] == f.arg;
    } else {
      assert n < |Body(f)|;
    }
  }

  /** The octets of a frame, as FTS-1026 lays them out: the length with the high octet first, its top bit set for a
      command, whose number is the first octet counted; and these octets are read as that frame. */
  lemma FrameOctets(cmd: Octets.U8, text: string, rest: string)
    ensures |text| < 0x8000 ==>
      var octets := [(|text| / 256) as char, (|text| % 256) as char] + text;
      Encoded(Data(text)) == octets && Decoded(octets + rest) == Got(Data(text), rest)
    ensures |text| + 1 < 0x8000 ==>
      var octets := [(128 + (|text| + 1) / 256) as char, ((|text| + 1) % 256) as char, cmd as char] + text;
      Encoded(Command(cmd, text)) == octets && Decoded(octets + rest) == Got(Command(cmd, text), rest)
  {
    hide *;
    FrameRoundTrip(Data(text), rest);
    FrameRoundTrip(Command(cmd, text), rest);
    EncodableFrames(cmd, text);
    if |text| < 0x8000 {
      DataOctets(text);
    }
    if |text| + 1 < 0x8000 {
      CommandOctets(cmd, text);
    }
  }

  lemma EncodableFrames(cmd: Octets.U8, text: string)
    ensures Encodable(Data(text)) <==> |text| < 0x8000
    ensures Encodable(Command(cmd, text)) <==> |text| + 1 < 0x8000
  {
  }

  lemma DataOctets(text: string)
    requires |text| < 0x8000
    ensures Encoded(Data(text)) == [(|text| / 256) as char, (|text| % 256) as char] + text
  {
    hide Header;
    DataHeader(text);
  }

  lemma DataHeader(text: string)
    requires |text| < 0x8000
    ensures Header(Data(text)) == |text|
  {
    assert Body(Data(text)) == text;
  }

  lemma CommandOctets(cmd: Octets.U8, text: string)
    requires |text| + 1 < 0x8000
    ensures Encoded(Command(cmd, text))
         == [(128 + (|text| + 1) / 256) as char, ((|text| + 1) % 256) as char, cmd as char] + text
  {
    hide Header;
    CommandHeader(cmd, text);
    var hi, lo := (128 + (|text| + 1) / 256) as char, ((|text| + 1) % 256) as char;
    assert [hi, lo] + ([cmd as char] + text) == [hi, lo, cmd as char] + text;
  }

  lemma CommandHeader(cmd: Octets.U8, text: string)
    requires |text| + 1 < 0x8000
    ensures var h, n := Header(Command(cmd, text)), |text| + 1; h / 256 == 128 + n / 256 && h % 256 == n % 256
  {
    assert Header(Command(cmd, text)) == |text| + 1 + 128 * 256;
  }

  function EncodedAll(fs: seq<Frame>): string {
    if fs == [] then "" else Encoded(fs[0]) + EncodedAll(fs[1..])
  }

  /** Reading frames until the stream ends. */
  function DecodedAll(s: string): seq<Frame>
    decreases |s|
  {
    match Decoded(s)
    case Got(f, rest) => [f] + DecodedAll(rest)
    case _ => []
  }

  /** Any sequence of encodable frames is read back as it was sent. */
  lemma {:induction false} StreamRoundTrip(fs: seq<Frame>)
    requires forall i :: 0 <= i < |fs| ==> Encodable(fs[i])
    ensures DecodedAll(EncodedAll(fs)) == fs
  {
    hide Encoded, Decoded, Encodable;
    if fs == [] {
      NothingDecoded();
    } else {
      StreamRoundTrip(fs[1..]);
      FrameRoundTrip(fs[0], EncodedAll(fs[1..]));
      assert fs == [fs[0]] + fs[1..];
    }
  }

  lemma NothingDecoded()
    ensures DecodedAll("") == []
  {
    hide Encoded, EncodedAll;
  }

  // ---------------------------------------------------------------- arguments

  datatype FileArg = FileArg(name: string, size: int, mtime: int, offset: int)

  /** `parseBinkpFileArg`: missing numbers are 0. */
  function ParseFileArg(arg: string): Option<FileArg> {
    var parts := Fields(arg);
    if |parts| < 1 then None
    else Some(FileArg(parts[0],
                      if |parts| >= 2 then ScanInt(parts[1]) else 0,
                      if |parts| >= 3 then ScanInt(parts[2]) else 0,
                      if |parts| >= 4 then ScanInt(parts[3]) else 0))
  }

  /** The argument of M_FILE. */
  function FileText(a: FileArg): string {
    a.name + ([' '] + (DecimalInt(a.size) + ([' '] + (DecimalInt(a.mtime) + ([' '] + DecimalInt(a.offset))))))
  }

  /** The argument of M_GOT. */
  function GotText(name: string, size: int, mtime: int): string {
    name + ([' '] + (DecimalInt(size) + ([' '] + DecimalInt(mtime))))
  }

  predicate InInt64(n: int) {
    -MAX_INT64 <= n <= MAX_INT64
  }

  /** A file name survives the announcement when it is not empty and has no white space. */
  predicate PlainName(name: string) {
    name != [] && NoSpace(name)
  }

  lemma FileArgRoundTrip(a: FileArg)
    requires PlainName(a.name) && InInt64(a.size) && InInt64(a.mtime) && InInt64(a.offset)
    ensures ParseFileArg(FileText(a)) == Some(a)
  {
    hide Fields, ScanInt, DecimalInt, NoSpace;
    ScanDecimal(a.size);
    ScanDecimal(a.mtime);
    ScanDecimal(a.offset);
    var z := DecimalInt(a.offset);
    var y := DecimalInt(a.mtime) + ([' '] + z);
    var x := DecimalInt(a.size) + ([' '] + y);
    assert Fields(z) == [z] by {
      FieldsCons(z, []);
      assert z + [] == z;
      NoFields();
    }
    FieldsSkip(z);
    FieldsCons(DecimalInt(a.mtime), [' '] + z);
    FieldsSkip(y);
    FieldsCons(DecimalInt(a.size), [' '] + y);
    FieldsSkip(x);
    FieldsCons(a.name, [' '] + x);
  }

  /** What `waitForGOT` compares with the name: the argument up to the first blank. */
  function GotName(arg: string): string {
    Split(arg, ' ')[0]
  }

  lemma GotNameRoundTrip(name: string, size: int, mtime: int)
    requires NoSpace(name)
    ensures GotName(GotText(name, size, mtime)) == name
  {
    SplitField(name, ' ', DecimalInt(size) + ([' '] + DecimalInt(mtime)));
    assert GotText(name, size, mtime) == name + [' '] + (DecimalInt(size) + ([' '] + DecimalInt(mtime)));
  }

  lemma ThreeWords(a: string, b: string, c: string)
    ensures a + ([' '] + (b + ([' '] + c))) == a + " " + b + " " + c
  {
  }

  lemma FourWords(a: string, b: string, c: string, d: string)
    ensures a + ([' '] + (b + ([' '] + (c + ([' '] + d))))) == a + " " + b + " " + c + " " + d
  {
  }

  /** The arguments as they are written, and what is read from the text of an M_FILE: name, size, time and offset. */
  lemma ArgumentTexts(name: string, size: int, mtime: int, offset: int)
    ensures FileText(FileArg(name, size, mtime, offset)) ==
      name + " " + DecimalInt(size) + " " + DecimalInt(mtime) + " " + DecimalInt(offset)
    ensures GotText(name, size, mtime) == name + " " + DecimalInt(size) + " " + DecimalInt(mtime)
    ensures PlainName(name) && InInt64(size) && InInt64(mtime) && InInt64(offset) ==>
      ParseFileArg(name + " " + DecimalInt(size) + " " + DecimalInt(mtime) + " " + DecimalInt(offset))
        == Some(FileArg(name, size, mtime, offset))
  {
    hide DecimalInt, ParseFileArg, PlainName;
    FourWords(name, DecimalInt(size), DecimalInt(mtime), DecimalInt(offset));
    ThreeWords(name, DecimalInt(size), DecimalInt(mtime));
    if PlainName(name) && InInt64(size) && InInt64(mtime) && InInt64(offset) {
      FileArgRoundTrip(FileArg(name, size, mtime, offset));
    }
  }
}
