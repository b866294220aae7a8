/** A BinkP connection after the handshake: sending files while the peer's own files come in
    between, resuming on M_GET, and receiving until the peer's end of batch.

    The octets still to be read and the frames written are fields of the connection. Ghost state records
    which frame was read in which part of the session, so that the acknowledgements can be compared with
    what an independent reading of the same frames completes. */
module BinkpSession {
  import opened Text
  import opened BinkpFrames
  import opened BinkpReceiver
  import Octets

  datatype Source = Source(name: string, mtime: int, content: string)

  /** How a frame read while a file is being sent ends or continues the sending. */
  datatype Verdict = Continue | Delivered | Restart(offset: int) | Skipped | Failed

  /** M_GET names the file being sent; size and time count only when they are given. */
  predicate Requests(a: FileArg, src: Source) {
    && a.name == src.name
    && (a.size == 0 || a.size == |src.content|)
    && (a.mtime == 0 || a.mtime == src.mtime)
  }

  predicate SkipNames(arg: string, name: string) {
    Fields(arg) != [] && Fields(arg)[0] == name
  }

  /** `handleOutboundCtrl` */
  function ControlVerdict(f: Frame, src: Source, hasDir: bool): Verdict {
    match f
    case Data(_) => Continue
    case Command(cmd, arg) =>
      if cmd == M_GET then
        (match ParseFileArg(arg)
         case None => Continue
         case Some(a) => if Requests(a, src) then Restart(a.offset) else Continue)
      else if cmd == M_SKIP then (if SkipNames(arg, src.name) then Skipped else Continue)
      else if cmd == M_FILE then (if hasDir && Announced(arg).None? then Failed else Continue)
      else if cmd == M_ERR then Failed
      else Continue
  }

  /** One turn of `waitForGOT`: as before, and M_GOT for the file ends the wait. */
  function WaitVerdict(f: Frame, src: Source, hasDir: bool): Verdict {
    if f.Command? && f.cmd == M_GOT then (if GotName(f.arg) == src.name then Delivered else Continue)
    else ControlVerdict(f, src, hasDir)
  }

  /** What a frame read while sending does to the receiving half. */
  function SendingEvents(f: Frame, hasDir: bool): seq<Event> {
    match f
    case Data(payload) => [Chunk(payload)]
    case Command(cmd, arg) => if cmd == M_FILE && hasDir then [File(arg)] else []
  }

  /** The same while receiving, where M_EOB and M_ERR drop a half-received file. */
  function ReceivingEvents(f: Frame): seq<Event> {
    match f
    case Data(payload) => [Chunk(payload)]
    case Command(cmd, arg) =>
      if cmd == M_FILE then [File(arg)] else if cmd == M_EOB || cmd == M_ERR then [Drop] else []
  }

  /** What a connection went through: frames read while sending or receiving, and drops of a half-received
      file that no frame caused: the switch to receiving and the end of the stream. */
  datatype Seen = WhileSending(frame: Frame) | WhileReceiving(frame: Frame) | Hangup

  function EventsAt(e: Seen, hasDir: bool): seq<Event> {
    match e
    case WhileSending(f) => SendingEvents(f, hasDir)
    case WhileReceiving(f) => ReceivingEvents(f)
    case Hangup => [Drop]
  }

  function EventsOf(seen: seq<Seen>, hasDir: bool): seq<Event> {
    if seen == [] then [] else EventsOf(seen[..|seen| - 1], hasDir) + EventsAt(seen[|seen| - 1], hasDir)
  }

  function FramesOf(seen: seq<Seen>): seq<Frame> {
    if seen == [] then []
    else
      var last := seen[|seen| - 1];
      FramesOf(seen[..|seen| - 1]) + (if last.Hangup? then [] else [last.frame])
  }

  lemma SeenSnoc(seen: seq<Seen>, e: Seen, hasDir: bool)
    ensures EventsOf(seen + [e], hasDir) == EventsOf(seen, hasDir) + EventsAt(e, hasDir)
    ensures FramesOf(seen + [e]) == FramesOf(seen) + (if e.Hangup? then [] else [e.frame])
  {
    assert (seen + [e])[..|seen|] == seen;
  }

  lemma {:induction false} SeenAppend(a: seq<Seen>, b: seq<Seen>, hasDir: bool)
    ensures EventsOf(a + b, hasDir) == EventsOf(a, hasDir) + EventsOf(b, hasDir)
    decreases |b|
  {
    hide EventsAt;
    if b == [] {
      assert a + b == a && EventsOf(a, hasDir) + [] == EventsOf(a, hasDir);
    } else {
      var front, last := b[..|b| - 1], b[|b| - 1];
      assert (a + b)[..|a + b| - 1] == a + front;
      SeenAppend(a, front, hasDir);
      assert EventsOf(a, hasDir) + EventsOf(front, hasDir) + EventsAt(last, hasDir)
          == EventsOf(a, hasDir) + (EventsOf(front, hasDir) + EventsAt(last, hasDir));
    }
  }

  /** The names in the M_GOT frames among those written. */
  function AckedNames(fs: seq<Frame>): seq<string> {
    if fs == [] then []
    else
      var f := fs[|fs| - 1];
      AckedNames(fs[..|fs| - 1]) + (if f.Command? && f.cmd == M_GOT then [GotName(f.arg)] else [])
  }

  /** The frames written for this side's own files: all but the acknowledgements. */
  function Outgoing(fs: seq<Frame>): seq<Frame> {
    if fs == [] then []
    else
      var f := fs[|fs| - 1];
      Outgoing(fs[..|fs| - 1]) + (if f.Command? && f.cmd == M_GOT then [] else [f])
  }

  lemma WrittenSnoc(fs: seq<Frame>, f: Frame)
    ensures f.Command? && f.cmd == M_GOT ==>
      AckedNames(fs + [f]) == AckedNames(fs) + [GotName(f.arg)] && Outgoing(fs + [f]) == Outgoing(fs)
    ensures !(f.Command? && f.cmd == M_GOT) ==>
      AckedNames(fs + [f]) == AckedNames(fs) && Outgoing(fs + [f]) == Outgoing(fs) + [f]
  {
    assert (fs + [f])[..|fs|] == fs;
  }

  function DataFrames(parts: seq<string>): (fs: seq<Frame>)
    ensures |fs| == |parts| && forall i :: 0 <= i < |fs| ==> fs[i] == Data(parts[i])
  {
    seq(|parts|, i requires 0 <= i < |parts| => Data(parts[i]))
  }

  lemma {:induction false} FieldsArePlain(s: string)
    ensures forall i :: 0 <= i < |Fields(s)| ==> PlainName(Fields(s)[i])
    decreases |s|
  {
    if s == [] {
    } else if IsSpace(s[0]) {
      FieldsArePlain(s[1..]);
    } else {
      var w := s[..WordLength(s)];
      FieldsArePlain(s[WordLength(s)..]);
      assert Fields(s) == [w] + Fields(s[WordLength(s)..]);
    }
  }

  lemma AnnouncedIsPlain(arg: string)
    ensures Announced(arg).Some? ==> PlainName(Announced(arg).value.name)
  {
    hide Fields, PlainName, ScanInt;
    FieldsArePlain(arg);
  }

  lemma {:induction false} ConcatSnoc(parts: seq<string>, p: string)
    ensures Concat(parts + [p]) == Concat(parts) + p
  {
    if parts == [] {
      assert [p][1..] == [];
      assert [] + [p] == [p];
      assert p + "" == p && "" + p == p;
    } else {
      assert (parts + [p])[1..] == parts[1..] + [p];
      ConcatSnoc(parts[1..], p);
      assert parts[0] + (Concat(parts[1..]) + p) == parts[0] + Concat(parts[1..]) + p;
    }
  }

  const BLOCK: nat := 8192

  predicate IsGot(f: Frame) {
    f.Command? && f.cmd == M_GOT
  }

  predicate EndsBatch(f: Frame) {
    f.Command? && f.cmd == M_EOB
  }

  predicate Ends(fs: seq<Frame>, tail: seq<Frame>) {
    |tail| <= |fs| && fs[|fs| - |tail|..] == tail
  }

  function FileFrame(src: Source, offset: int): (f: Frame)
    ensures !IsGot(f)
  {
    Command(M_FILE, FileText(FileArg(src.name, |src.content|, src.mtime, offset)))
  }

  /** The blocks a file is cut into. */
  predicate Blocks(parts: seq<string>) {
    forall i :: 0 <= i < |parts| ==> 0 < |parts[i]| <= BLOCK
  }

  lemma DataFramesSnoc(parts: seq<string>, p: string)
    ensures DataFrames(parts + [p]) == DataFrames(parts) + [Data(p)]
  {
  }

  /** Frames read while sending: all of them. */
  ghost predicate AllSending(seen: seq<Seen>) {
    forall i :: 0 <= i < |seen| ==> seen[i].WhileSending?
  }

  ghost predicate NoneSending(seen: seq<Seen>) {
    forall i :: 0 <= i < |seen| ==> !seen[i].WhileSending?
  }

  /** The wait went on over every frame but the last, and the last one ended it. */
  ghost predicate WaitEnded(seen: seq<Seen>, src: Source, hasDir: bool, v: Verdict) {
    && seen != [] && AllSending(seen)
    && (forall i :: 0 <= i < |seen| - 1 ==> WaitVerdict(seen[i].frame, src, hasDir) == Continue)
    && WaitVerdict(seen[|seen| - 1].frame, src, hasDir) == v
  }

  // ---------------------------------------------------------------- the frames of one file

  /** Number i of an argument; a missing one is 0. */
  function NumberAt(words: seq<string>, i: nat): int {
    if i < |words| then ScanInt(words[i]) else 0
  }

  /** What a frame asks for: an M_GET (9) with the name of the file, and with its size and time or none, asks for the
      offset that is its fourth word. */
  function AskedBy(f: Frame, src: Source): seq<int> {
    if f.Command? && f.cmd == 9 && Fields(f.arg) != [] && Fields(f.arg)[0] == src.name
       && NumberAt(Fields(f.arg), 1) in {0, |src.content|} && NumberAt(Fields(f.arg), 2) in {0, src.mtime}
    then [NumberAt(Fields(f.arg), 3)] else []
  }

  /** The offsets asked for by the frames read while sending, in order. */
  function Asked(seen: seq<Seen>, src: Source): seq<int> {
    if seen == [] then []
    else
      var last := seen[|seen| - 1];
      Asked(seen[..|seen| - 1], src) + (if last.WhileSending? then AskedBy(last.frame, src) else [])
  }

  /** An M_GOT (6) or M_SKIP (10) whose first word is the name. */
  predicate Settles(f: Frame, name: string) {
    f.Command? && ((f.cmd == 6 && Split(f.arg, ' ')[0] == name) || (f.cmd == 10 && Fields(f.arg) != [] && Fields(f.arg)[0] == name))
  }

  /** A frame that settles the file was read while sending. */
  ghost predicate Settled(seen: seq<Seen>, name: string) {
    exists i :: 0 <= i < |seen| && seen[i].WhileSending? && Settles(seen[i].frame, name)
  }

  /** The M_FILE (3) frames among those written. */
  function Announcements(fs: seq<Frame>): seq<Frame> {
    if fs == [] then []
    else
      var f := fs[|fs| - 1];
      Announcements(fs[..|fs| - 1]) + (if f.Command? && f.cmd == 3 then [f] else [])
  }

  /** The announcements of a file at these offsets. */
  function AnnouncedAt(src: Source, offsets: seq<int>): (fs: seq<Frame>)
    ensures |fs| == |offsets|
  {
    seq(|offsets|, i requires 0 <= i < |offsets| => Command(3,
      src.name + " " + DecimalInt(|src.content|) + " " + DecimalInt(src.mtime) + " " + DecimalInt(offsets[i])))
  }

  lemma {:induction false} AskedAppend(a: seq<Seen>, b: seq<Seen>, src: Source)
    ensures Asked(a + b, src) == Asked(a, src) + Asked(b, src)
    decreases |b|
  {
    hide AskedBy;
    if b == [] {
      assert a + b == a && Asked(a, src) + [] == Asked(a, src);
    } else {
      var front, last := b[..|b| - 1], b[|b| - 1];
      assert (a + b)[..|a + b| - 1] == a + front;
      AskedAppend(a, front, src);
      var more := if last.WhileSending? then AskedBy(last.frame, src) else [];
      assert Asked(a, src) + Asked(front, src) + more == Asked(a, src) + (Asked(front, src) + more);
    }
  }

  lemma AskedOne(f: Frame, src: Source)
    ensures Asked([WhileSending(f)], src) == AskedBy(f, src) && Asked([], src) == []
  {
    assert [WhileSending(f)][..0] == [];
  }

  lemma {:induction false} AnnouncementsAppend(a: seq<Frame>, b: seq<Frame>)
    ensures Announcements(a + b) == Announcements(a) + Announcements(b)
    decreases |b|
  {
    if b == [] {
      assert a + b == a && Announcements(a) + [] == Announcements(a);
    } else {
      var front, last := b[..|b| - 1], b[|b| - 1];
      assert (a + b)[..|a + b| - 1] == a + front;
      AnnouncementsAppend(a, front);
      var more := if last.Command? && last.cmd == 3 then [last] else [];
      assert Announcements(a) + Announcements(front) + more == Announcements(a) + (Announcements(front) + more);
    }
  }

  lemma {:induction false} NoAnnouncements(fs: seq<Frame>)
    requires forall i :: 0 <= i < |fs| ==> fs[i].Data?
    ensures Announcements(fs) == []
  {
    if fs != [] {
      NoAnnouncements(fs[..|fs| - 1]);
    }
  }

  lemma OneAnnouncement(src: Source, offset: int)
    ensures Announcements([FileFrame(src, offset)]) == AnnouncedAt(src, [offset])
  {
    hide DecimalInt;
    var f := FileFrame(src, offset);
    assert [f][..0] == [];
    assert f == Command(3, src.name + " " + DecimalInt(|src.content|) + " " + DecimalInt(src.mtime) + " " + DecimalInt(offset)) by {
      ArgumentTexts(src.name, |src.content|, src.mtime, offset);
    }
  }

  lemma FirstRound(start: seq<Seen>, src: Source)
    ensures [0] + Asked(start[|start|..], src) == [] + [0]
  {
    assert start[|start|..] == [];
  }

  /** A round adds what it was asked for to what was asked for before it. */
  lemma NextRound(start: seq<Seen>, so: seq<Seen>, now: seq<Seen>, src: Source, offsets: seq<int>)
    requires start <= so <= now && [0] + Asked(so[|start|..], src) == offsets
    ensures [0] + Asked(now[|start|..], src) == offsets + Asked(now[|so|..], src)
  {
    hide Asked;
    assert now[|start|..] == so[|start|..] + now[|so|..];
    AskedAppend(so[|start|..], now[|so|..], src);
    var a, b := Asked(so[|start|..], src), Asked(now[|so|..], src);
    assert [0] + (a + b) == [0] + a + b;
  }

  lemma NoneAnnounced(src: Source)
    ensures AnnouncedAt(src, []) == []
  {
  }

  lemma AnnouncedSnoc(src: Source, offsets: seq<int>, offset: int)
    ensures AnnouncedAt(src, offsets + [offset]) == AnnouncedAt(src, offsets) + AnnouncedAt(src, [offset])
  {
    hide DecimalInt;
  }

  /** What a sending of the file from one offset announces. */
  lemma RoundAnnounces(before: seq<Frame>, src: Source, offset: int, parts: seq<string>)
    ensures Announcements(before + [FileFrame(src, offset)] + DataFrames(parts))
         == Announcements(before) + AnnouncedAt(src, [offset])
  {
    hide Announcements, FileFrame, AnnouncedAt;
    AnnouncementsAppend(before + [FileFrame(src, offset)], DataFrames(parts));
    AnnouncementsAppend(before, [FileFrame(src, offset)]);
    NoAnnouncements(DataFrames(parts));
    OneAnnouncement(src, offset);
    assert Announcements(before + [FileFrame(src, offset)]) + [] == Announcements(before + [FileFrame(src, offset)]);
  }

  lemma NextAsked(start: seq<Seen>, so: seq<Seen>, f: Frame, src: Source)
    requires start <= so && Asked(so[|start|..], src) == []
    ensures Asked((so + [WhileSending(f)])[|start|..], src) == AskedBy(f, src)
  {
    hide Asked, AskedBy;
    AskedOne(f, src);
    AskedAppend(so[|start|..], [WhileSending(f)], src);
    assert (so + [WhileSending(f)])[|start|..] == so[|start|..] + [WhileSending(f)];
    assert [] + AskedBy(f, src) == AskedBy(f, src);
  }

  /** What a verdict says about the frame that was read. */
  lemma VerdictTells(f: Frame, src: Source, hasDir: bool)
    ensures WaitVerdict(f, src, hasDir) == Delivered ==> f.Command? && f.cmd == 6 && Settles(f, src.name)
    ensures WaitVerdict(f, src, hasDir) == Skipped || ControlVerdict(f, src, hasDir) == Skipped ==>
      f.Command? && f.cmd == 10 && Settles(f, src.name)
    ensures AskedBy(f, src) == (match WaitVerdict(f, src, hasDir) case Restart(o) => [o] case _ => [])
    ensures AskedBy(f, src) == (match ControlVerdict(f, src, hasDir) case Restart(o) => [o] case _ => [])
  {
    hide Fields, ScanInt, Split, Announced;
  }

  /** The other frames that arrive while a file is sent: data and anything unknown go on, M_ERR (7) ends it, and so
      does an M_FILE (3) that announces no octets, when files are taken at all. */
  lemma OtherFrames(text: string, name: string, size: int, mtime: int, offset: int, src: Source, hasDir: bool)
    ensures ControlVerdict(Data(text), src, hasDir) == Continue
    ensures ControlVerdict(Command(7, text), src, hasDir) == Failed
    ensures ControlVerdict(Command(3, text), src, false) == Continue
    ensures PlainName(name) && InInt64(size) && InInt64(mtime) && InInt64(offset) ==>
      ControlVerdict(Command(3, name + " " + DecimalInt(size) + " " + DecimalInt(mtime) + " " + DecimalInt(offset)), src, true)
        == if size <= 0 then Failed else Continue
    ensures forall cmd: Octets.U8 :: cmd !in {3, 7, 9, 10} ==> ControlVerdict(Command(cmd, text), src, hasDir) == Continue
  {
    hide ParseFileArg, DecimalInt, Fields;
    ArgumentTexts(name, size, mtime, offset);
  }

  /** So many octets of a stream are some of a frame, and not all of it. */
  predicate InsideFrame(s: string, n: nat) {
    0 < n <= |s| && (Decoded(s).Got? ==> n < |s| - |Decoded(s).rest|)
  }

  class BinkpConn {
    var input: string
    var output: seq<Frame>
    var inbound: Inbound
    var early: seq<string>
    const hasDir: bool
    ghost const stream: string
    ghost const startFiles: map<string, string>
    ghost var seen: seq<Seen>
    ghost var whole: bool  // no time-out inside a frame has lost the octets read of it

    /** The receiving half is where an independent reading of the frames seen puts it, and M_GOT was
        written for exactly the files that reading acknowledges. */
    ghost predicate Faithful()
      reads this
    {
      Log(inbound, AckedNames(output)) == Reacted(Log(Inbound(None, startFiles), []), EventsOf(seen, hasDir))
    }

    ghost predicate PlainInbound()
      reads this
    {
      inbound.xfer.Some? ==> PlainName(inbound.xfer.value.name)
    }

    /** The frames seen are the front of the frames the peer's octets decode to, as long as none was lost. */
    ghost predicate InStep()
      reads this
    {
      whole ==> DecodedAll(stream) == FramesOf(seen) + DecodedAll(input)
    }

    ghost predicate Valid()
      reads this
    {
      Faithful() && PlainInbound() && InStep()
    }

    constructor (peer: string, files: map<string, string>, inboundDir: bool)
      ensures Valid() && whole && input == peer && stream == peer && inbound.files == files && hasDir == inboundDir
      ensures output == [] && early == [] && seen == [] && startFiles == files
    {
      input, output, inbound, early := peer, [], Inbound(None, files), [];
      hasDir, stream, startFiles, seen, whole := inboundDir, peer, files, [], true;
      new;
      assert [] + DecodedAll(peer) == DecodedAll(peer);
    }

    /** `recvFrame` */
    method RecvFrame() returns (r: Received)
      modifies this`input
      ensures r == Decoded(old(input))
      ensures input == if r.Got? then r.rest else old(input)
    {
      r := Decoded(input);
      if r.Got? {
        input := r.rest;
      }
    }

    /** Notes a frame as seen, once it is off the input. */
    ghost method Note(e: Seen, before: string)
      requires Faithful() && PlainInbound()
      requires whole ==> DecodedAll(stream) == FramesOf(seen) + DecodedAll(before)
      requires if e.Hangup? then before == input else Decoded(before) == Got(e.frame, input)
      modifies this`seen
      ensures seen == old(seen) + [e] && InStep() && PlainInbound()
      ensures EventsOf(seen, hasDir) == EventsOf(old(seen), hasDir) + EventsAt(e, hasDir)
    {
      hide Reacted, FramesOf, EventsOf, EventsAt, Decoded, AckedNames;
      SeenSnoc(seen, e, hasDir);
      seen := seen + [e];
      if !e.Hangup? {
        var a, f, b := FramesOf(old(seen)), e.frame, DecodedAll(input);
        assert a + ([f] + b) == a + [f] + b;
      } else {
        assert FramesOf(old(seen)) + [] == FramesOf(old(seen));
      }
    }

    /** Every acknowledgement beyond the base was noted as received early. */
    ghost predicate Reported(base: seq<string>)
      reads this
    {
      AckedNames(output) == base + early
    }

    /** `abortInboundXfer` */
    method AbortInbound()
      modifies this`inbound
      ensures inbound == Aborted(old(inbound))
    {
      inbound := Aborted(inbound);
    }

    /** `beginInboundFILE` */
    method BeginInboundFILE(arg: string) returns (ok: bool)
      modifies this`inbound
      ensures ok == Begun(old(inbound), arg).Some?
      ensures inbound == if ok then Begun(old(inbound), arg).value else Aborted(old(inbound))
      ensures ok ==> PlainInbound()
      ensures Log(inbound, AckedNames(output)) == React(Log(old(inbound), AckedNames(output)), File(arg))
    {
      hide AckedNames, ParseFileArg, PlainName;
      AnnouncedIsPlain(arg);
      AbortInbound();
      var parsed := ParseFileArg(arg);
      if parsed.None? || parsed.value.name == "" || parsed.value.size <= 0 {
        return false;
      }
      var a := parsed.value;
      var received, kept := 0, "";
      if a.offset > 0 {
        kept, received := Content(inbound, a.name), a.offset;
      }
      inbound := Inbound(Some(Xfer(a.name, a.size, a.mtime, received)), inbound.files[a.name := kept]);
      ok := true;
    }

    /** `writeInboundDATA`: the name is not empty exactly when the file was completed and acknowledged. */
    method WriteInboundDATA(data: string) returns (done: string)
      requires PlainInbound()
      modifies this`inbound, this`output
      ensures inbound == Written(old(inbound), data).0
      ensures Written(old(inbound), data).1.None? ==> done == "" && output == old(output)
      ensures Written(old(inbound), data).1.Some? ==>
        var x := Written(old(inbound), data).1.value;
        done == x.name != "" && output == old(output) + [Command(6, x.name + " " + DecimalInt(x.size) + " " + DecimalInt(x.mtime))]
      ensures PlainInbound() && Outgoing(output) == Outgoing(old(output))
      ensures AckedNames(output) == AckedNames(old(output)) + (if done == "" then [] else [done])
      ensures Log(inbound, AckedNames(output)) == React(Log(old(inbound), AckedNames(old(output))), Chunk(data))
    {
      hide AckedNames, Outgoing, GotText, GotName, WriteAt;
      if inbound.xfer.None? || data == "" {
        return "";
      }
      var x := inbound.xfer.value;
      var files := inbound.files[x.name := WriteAt(Content(inbound, x.name), x.received, data)];
      x := x.(received := x.received + |data|);
      if x.received < x.size {
        inbound := Inbound(Some(x), files);
        return "";
      }
      inbound := Inbound(None, files);
      GotNameRoundTrip(x.name, x.size, x.mtime);
      ArgumentTexts(x.name, x.size, x.mtime, 0);
      WrittenSnoc(output, Command(M_GOT, GotText(x.name, x.size, x.mtime)));
      output := output + [Command(M_GOT, GotText(x.name, x.size, x.mtime))];
      done := x.name;
    }

    /** `noteInboundFile` */
    method NoteInboundFile(name: string)
      modifies this`early
      ensures early == if name == "" then old(early) else old(early) + [name]
    {
      if name != "" {
        early := early + [name];
      }
    }

    /** Writes a frame that is not an acknowledgement. */
    method Send(f: Frame)
      requires Valid() && !(f.Command? && f.cmd == M_GOT)
      modifies this`output
      ensures Valid() && output == old(output) + [f]
      ensures AckedNames(output) == AckedNames(old(output)) && Outgoing(output) == Outgoing(old(output)) + [f]
    {
      hide AckedNames, Outgoing;
      WrittenSnoc(output, f);
      output := output + [f];
    }

    /** `handleOutboundCtrl`, on the frame just read. */
    method HandleOutboundCtrl(src: Source, f: Frame, ghost before: string, ghost base: seq<string>) returns (v: Verdict)
      requires Faithful() && PlainInbound() && Reported(base)
      requires (whole ==> DecodedAll(stream) == FramesOf(seen) + DecodedAll(before)) && Decoded(before) == Got(f, input)
      modifies this`inbound, this`output, this`early, this`seen
      ensures Valid() && Reported(base) && seen == old(seen) + [WhileSending(f)]
      ensures v == ControlVerdict(f, src, hasDir) && Outgoing(output) == Outgoing(old(output))
    {
      hide AckedNames, Outgoing, Reacted, FramesOf, EventsOf, Decoded, DecodedAll, ParseFileArg, Requests, SkipNames, GotText;
      Note(WhileSending(f), before);
      ghost var start, es := Log(Inbound(None, startFiles), []), EventsOf(old(seen), hasDir);
      v := Continue;
      match f
      case Data(payload) =>
        var done := WriteInboundDATA(payload);
        NoteInboundFile(done);
        ReactedSnoc(start, es, Chunk(payload));
      case Command(cmd, arg) =>
        assert cmd != M_FILE || !hasDir ==> es + [] == es;
        if cmd == M_GET {
          var parsed := ParseFileArg(arg);
          if parsed.Some? && Requests(parsed.value, src) {
            v := Restart(parsed.value.offset);
          }
        } else if cmd == M_SKIP {
          if SkipNames(arg, src.name) {
            v := Skipped;
          }
        } else if cmd == M_FILE {
          if hasDir {
            var ok := BeginInboundFILE(arg);
            ReactedSnoc(start, es, File(arg));
            if !ok {
              v := Failed;
            }
          }
        } else if cmd == M_ERR {
          v := Failed;
        }
    }

    /** `pollOutboundCtrl`: nothing arrived in time; or one frame is handled; or the time is up inside a frame, and
        the octets read of it are lost, so that the stream goes on inside that frame. */
    method PollOutboundCtrl(src: Source, ghost base: seq<string>) returns (v: Verdict)
      requires Valid() && Reported(base)
      modifies this`input, this`inbound, this`output, this`early, this`seen, this`whole
      ensures Valid() && Reported(base) && Outgoing(output) == Outgoing(old(output))
      ensures old(seen) <= seen && AllSending(seen[|old(seen)|..]) && |input| <= |old(input)|
      ensures v.Restart? ==> |input| < |old(input)|
      ensures v != Delivered
      ensures v.Skipped? || v.Restart? ==>
        |seen| == |old(seen)| + 1 && v == ControlVerdict(seen[|seen| - 1].frame, src, hasDir)
      ensures Asked(seen[|old(seen)|..], src) == (if v.Restart? then [v.offset] else [])
      ensures whole != old(whole) ==> v == Continue && seen == old(seen) && inbound == old(inbound) && output == old(output)
    {
      hide AckedNames, Outgoing, Reacted, FramesOf, EventsOf, Decoded, DecodedAll, ParseFileArg, Requests, SkipNames, Asked, AskedBy;
      AskedOne(Data(""), src);
      assert seen[|seen|..] == [];
      if * {
        return Continue;
      }
      ghost var before := input;
      if * {
        var lost: nat :| lost <= |input|;
        if InsideFrame(input, lost) {
          input := input[lost..];
          whole := false;
        }
        return Continue;
      }
      var r := RecvFrame();
      if !r.Got? {
        return Failed;
      }
      v := HandleOutboundCtrl(src, r.frame, before, base);
      AskedOne(r.frame, src);
      VerdictTells(r.frame, src, hasDir);
      assert seen[|old(seen)|..] == [WhileSending(r.frame)];
    }

    /** `waitForGOT` */
    method WaitForGOT(src: Source, ghost base: seq<string>) returns (v: Verdict)
      requires Valid() && Reported(base)
      modifies this`input, this`inbound, this`output, this`early, this`seen
      ensures Valid() && Reported(base) && Outgoing(output) == Outgoing(old(output))
      ensures old(seen) <= seen && AllSending(seen[|old(seen)|..]) && |input| <= |old(input)|
      ensures v.Restart? ==> |input| < |old(input)|
      ensures v != Continue
      ensures Asked(seen[|old(seen)|..], src) == (if v.Restart? then [v.offset] else [])
      ensures v != Failed ==> WaitEnded(seen[|old(seen)|..], src, hasDir, v)
    {
      hide AckedNames, Outgoing, Reacted, FramesOf, EventsOf, Decoded, DecodedAll, ControlVerdict, Asked, AskedBy;
      AskedOne(Data(""), src);
      assert seen[|seen|..] == [];
      while true
        invariant Valid() && Reported(base) && Outgoing(output) == Outgoing(old(output))
        invariant old(seen) <= seen && |input| <= |old(input)|
        invariant forall i :: |old(seen)| <= i < |seen| ==>
          seen[i].WhileSending? && WaitVerdict(seen[i].frame, src, hasDir) == Continue
        invariant Asked(seen[|old(seen)|..], src) == []
        decreases |input|
      {
        ghost var before, so := input, seen;
        var r := RecvFrame();
        if !r.Got? {
          return Failed;
        }
        if r.frame.Command? && r.frame.cmd == M_GOT {
          SeeGot(r.frame, before, base);
          NextAsked(old(seen), so, r.frame, src);
          VerdictTells(r.frame, src, hasDir);
          if GotName(r.frame.arg) == src.name {
            return Delivered;
          }
        } else {
          v := HandleOutboundCtrl(src, r.frame, before, base);
          NextAsked(old(seen), so, r.frame, src);
          VerdictTells(r.frame, src, hasDir);
          if v != Continue {
            return;
          }
        }
      }
    }

    /** An M_GOT changes nothing in the receiving half. */
    ghost method SeeGot(f: Frame, before: string, base: seq<string>)
      requires Faithful() && PlainInbound() && Reported(base)
      requires (whole ==> DecodedAll(stream) == FramesOf(seen) + DecodedAll(before)) && Decoded(before) == Got(f, input)
      requires f.Command? && f.cmd == M_GOT
      modifies this`seen
      ensures Valid() && Reported(base) && seen == old(seen) + [WhileSending(f)]
    {
      hide AckedNames, Reacted, FramesOf, EventsOf, Decoded, DecodedAll;
      Note(WhileSending(f), before);
      assert EventsOf(old(seen), hasDir) + [] == EventsOf(old(seen), hasDir);
    }

    /** The rest of the file in blocks, and the wait for its acknowledgement. */
    method SendRest(src: Source, offset: int, ghost base: seq<string>) returns (v: Verdict, ghost parts: seq<string>)
      requires Valid() && Reported(base) && 0 <= offset <= |src.content|
      modifies this`input, this`inbound, this`output, this`early, this`seen
      ensures Valid() && Reported(base)
      ensures Outgoing(output) == Outgoing(old(output)) + DataFrames(parts)
      ensures Blocks(parts) && Concat(parts) == src.content[offset..]
      ensures old(seen) <= seen && AllSending(seen[|old(seen)|..]) && |input| <= |old(input)|
      ensures v.Restart? ==> |input| < |old(input)|
      ensures v != Continue
      ensures v != Failed ==> |seen| > |old(seen)| && WaitVerdict(seen[|seen| - 1].frame, src, hasDir) == v
      ensures Asked(seen[|old(seen)|..], src) == (if v.Restart? then [v.offset] else [])
    {
      hide AckedNames, Outgoing, Reacted, FramesOf, EventsOf, Decoded, DecodedAll, ControlVerdict, WaitVerdict, Concat, Asked,
        AskedBy;
      parts := SendBlocks(src, offset);
      v := WaitForGOT(src, base);
    }

    /** `sendFileFrom`: the announcement, then, unless the poll ended it, the rest of the file in blocks. */
    method SendFileFrom(src: Source, offset: int, ghost base: seq<string>) returns (v: Verdict, ghost parts: seq<string>)
      requires Valid() && Reported(base) && 0 <= offset <= |src.content|
      modifies this`input, this`inbound, this`output, this`early, this`seen, this`whole
      ensures Valid() && Reported(base)
      ensures Outgoing(output) == Outgoing(old(output)) + [FileFrame(src, offset)] + DataFrames(parts)
      ensures Blocks(parts) && (parts == [] || Concat(parts) == src.content[offset..])
      ensures old(seen) <= seen && AllSending(seen[|old(seen)|..]) && |input| <= |old(input)|
      ensures v.Restart? ==> |input| < |old(input)|
      ensures v != Continue
      ensures v != Failed ==> |seen| > |old(seen)| && WaitVerdict(seen[|seen| - 1].frame, src, hasDir) == v
      ensures v == Delivered ==> Concat(parts) == src.content[offset..]
      ensures Asked(seen[|old(seen)|..], src) == (if v.Restart? then [v.offset] else [])
    {
      hide AckedNames, Outgoing, Reacted, FramesOf, EventsOf, Decoded, DecodedAll, ControlVerdict, FileText, Concat, Asked, AskedBy;
      parts := [];
      Send(FileFrame(src, offset));
      ghost var announced := Outgoing(old(output)) + [FileFrame(src, offset)];
      assert announced + DataFrames([]) == announced;
      v := PollOutboundCtrl(src, base);
      if v != Continue {
        if v != Failed {
          GotDoesNotEndPoll(seen[|seen| - 1].frame, src, hasDir);
        }
        return;
      }
      ghost var polled := seen;
      v, parts := SendRest(src, offset, base);
      assert seen[|old(seen)|..] == polled[|old(seen)|..] + seen[|polled|..];
      AskedAppend(polled[|old(seen)|..], seen[|polled|..], src);
    }

    /** Reads the file to its end; a read returns up to a block. */
    method SendBlocks(src: Source, offset: int) returns (ghost parts: seq<string>)
      requires Valid() && 0 <= offset <= |src.content|
      modifies this`output
      ensures Valid() && AckedNames(output) == AckedNames(old(output))
      ensures Outgoing(output) == Outgoing(old(output)) + DataFrames(parts)
      ensures Blocks(parts) && Concat(parts) == src.content[offset..]
    {
      hide AckedNames, Outgoing, Reacted, FramesOf, EventsOf, Decoded, DecodedAll, Concat;
      parts := [];
      var pos := offset;
      assert Outgoing(output) + DataFrames([]) == Outgoing(output);
      ConcatNothing();
      while pos < |src.content|
        invariant offset <= pos <= |src.content|
        invariant Valid() && AckedNames(output) == AckedNames(old(output))
        invariant Outgoing(output) == Outgoing(old(output)) + DataFrames(parts)
        invariant Blocks(parts) && Concat(parts) == src.content[offset..pos]
      {
        var n: nat :| 0 < n <= BLOCK && pos + n <= |src.content|;
        var block := src.content[pos..pos + n];
        Send(Data(block));
        DataFramesSnoc(parts, block);
        ConcatSnoc(parts, block);
        assert src.content[offset..pos] + block == src.content[offset..pos + n];
        assert Outgoing(old(output)) + DataFrames(parts) + [Data(block)] == Outgoing(old(output)) + (DataFrames(parts) + [Data(block)]);
        parts := parts + [block];
        pos := pos + n;
      }
    }

    /** `sendFile`: announce and send, again from the offset of every M_GET, until the file is settled.

        The file is announced at offset 0, and then at each offset that was asked for, in order; only an offset
        outside the file is not announced, and ends the sending with an error. On success the last frame read settles
        the file: it skips it, or acknowledges it after everything from the last announced offset to the end was
        written. */
    method SendFile(src: Source, ghost base: seq<string>)
      returns (ok: bool, ghost from: int, ghost parts: seq<string>, ghost offsets: seq<int>)
      requires Valid() && Reported(base)
      modifies this`input, this`inbound, this`output, this`early, this`seen, this`whole
      ensures Valid() && Reported(base)
      ensures old(seen) <= seen && AllSending(seen[|old(seen)|..])
      ensures Outgoing(old(output)) <= Outgoing(output)
      ensures Announcements(Outgoing(output)) == Announcements(Outgoing(old(output))) + AnnouncedAt(src, offsets)
      ensures forall i :: 0 <= i < |offsets| ==> 0 <= offsets[i] <= |src.content|
      ensures var asked := [0] + Asked(seen[|old(seen)|..], src);
        asked == offsets || (!ok && |asked| == |offsets| + 1 && asked[..|offsets|] == offsets
                             && !(0 <= asked[|offsets|] <= |src.content|))
      ensures ok ==> offsets != [] && from == offsets[|offsets| - 1]
      ensures ok ==> Ends(Outgoing(output), [FileFrame(src, from)] + DataFrames(parts))
      ensures ok ==> |seen| > |old(seen)| && Settles(seen[|seen| - 1].frame, src.name)
      ensures ok && seen[|seen| - 1].frame.cmd == 6 ==> Blocks(parts) && Concat(parts) == src.content[from..]
    {
      hide AckedNames, Outgoing, Reacted, FramesOf, EventsOf, Decoded, DecodedAll, WaitVerdict, FileFrame, Concat, Blocks,
        DataFrames, Asked, AskedBy, Announcements, AnnouncedAt;
      var offset := 0;
      offsets := [];
      FirstRound(seen, src);
      NoneAnnounced(src);
      assert Announcements(Outgoing(output)) + [] == Announcements(Outgoing(output));
      while true
        invariant Valid() && Reported(base) && 0 <= offset <= |src.content|
        invariant old(seen) <= seen && AllSending(seen[|old(seen)|..])
        invariant Outgoing(old(output)) <= Outgoing(output)
        invariant Announcements(Outgoing(output)) == Announcements(Outgoing(old(output))) + AnnouncedAt(src, offsets)
        invariant forall i :: 0 <= i < |offsets| ==> 0 <= offsets[i] <= |src.content|
        invariant [0] + Asked(seen[|old(seen)|..], src) == offsets + [offset]
        decreases |input|
      {
        ghost var so, written := seen, Outgoing(output);
        var v;
        v, parts := SendFileFrom(src, offset, base);
        from := offset;
        RoundAnnounces(written, src, offset, parts);
        AnnouncedSnoc(src, offsets, offset);
        NextRound(old(seen), so, seen, src, offsets + [offset]);
        offsets := offsets + [offset];
        if v == Delivered || v == Skipped {
          VerdictTells(seen[|seen| - 1].frame, src, hasDir);
          return true, from, parts, offsets;
        }
        if v == Failed || !(0 <= v.offset <= |src.content|) {
          return false, from, parts, offsets;
        }
        offset := v.offset;
      }
    }

    /** Drops a half-received file outside any frame. */
    method HangUp(ghost base: seq<string>)
      requires Valid() && AckedNames(output) == base
      modifies this`inbound, this`seen
      ensures Valid() && AckedNames(output) == base && inbound == Aborted(old(inbound)) && seen == old(seen) + [Hangup]
    {
      hide AckedNames, Reacted, FramesOf, EventsOf, Decoded, DecodedAll;
      Note(Hangup, input);
      ReactedSnoc(Log(Inbound(None, startFiles), []), EventsOf(old(seen), hasDir), Drop);
      AbortInbound();
    }

    /** One frame of `receiveUntilEOB`; `stop` when the loop ends, `ok` when it ends without error. */
    method ReceiveFrame(f: Frame, ghost before: string) returns (stop: bool, ok: bool, done: string)
      requires Faithful() && PlainInbound()
      requires (whole ==> DecodedAll(stream) == FramesOf(seen) + DecodedAll(before)) && Decoded(before) == Got(f, input)
      modifies this`inbound, this`output, this`seen
      ensures Valid() && seen == old(seen) + [WhileReceiving(f)] && Outgoing(output) == Outgoing(old(output))
      ensures AckedNames(output) == AckedNames(old(output)) + (if done == "" then [] else [done])
      ensures stop ==> (ok <==> EndsBatch(f)) && inbound.xfer == None
      ensures !stop ==> !(f.Command? && (f.cmd == M_EOB || f.cmd == M_ERR))
    {
      hide AckedNames, Outgoing, Reacted, FramesOf, EventsOf, Decoded, DecodedAll, ParseFileArg, GotText;
      Note(WhileReceiving(f), before);
      ghost var start, es := Log(Inbound(None, startFiles), []), EventsOf(old(seen), hasDir);
      stop, ok, done := false, true, "";
      match f
      case Data(payload) =>
        done := WriteInboundDATA(payload);
        ReactedSnoc(start, es, Chunk(payload));
      case Command(cmd, arg) =>
        if cmd == M_EOB {
          ReactedSnoc(start, es, Drop);
          AbortInbound();
          stop := true;
        } else if cmd == M_FILE {
          ReactedSnoc(start, es, File(arg));
          ok := BeginInboundFILE(arg);
          stop := !ok;
        } else if cmd == M_ERR {
          ReactedSnoc(start, es, Drop);
          AbortInbound();
          stop, ok := true, false;
        } else {
          assert es + [] == es;
        }
    }

    /** `receiveUntilEOB`: what it returns is what it acknowledged, also when it ends with an error. */
    method ReceiveUntilEOB() returns (ok: bool, received: seq<string>)
      requires Valid()
      modifies this`input, this`inbound, this`output, this`seen
      ensures Valid() && Outgoing(output) == Outgoing(old(output))
      ensures AckedNames(output) == AckedNames(old(output)) + received
      ensures old(seen) + [Hangup] <= seen && NoneSending(seen[|old(seen)|..])
      ensures inbound.xfer == None
      ensures ok && Decoded(input) != EndOfStream ==>
        seen[|seen| - 1].WhileReceiving? && seen[|seen| - 1].frame.Command? && seen[|seen| - 1].frame.cmd == 5
    {
      hide AckedNames, Outgoing, Reacted, FramesOf, EventsOf, Decoded, DecodedAll;
      received := [];
      ghost var base := AckedNames(output);
      HangUp(base);
      assert base + [] == base;
      while true
        invariant Valid() && Outgoing(output) == Outgoing(old(output))
        invariant AckedNames(output) == base + received
        invariant old(seen) + [Hangup] <= seen && NoneSending(seen[|old(seen)|..])
        decreases |input|
      {
        ghost var before := input;
        var r := RecvFrame();
        if !r.Got? {
          HangUp(AckedNames(output));
          return r == EndOfStream, received;
        }
        var stop, good, done := ReceiveFrame(r.frame, before);
        if done != "" {
          assert base + received + [done] == base + (received + [done]);
          received := received + [done];
        }
        if stop {
          return good, received;
        }
      }
    }

    /** The part of `Poll` after the handshake. When it ends without error, what it reports as received is
        exactly, in order, what was acknowledged, and that is what the frames read complete: a file cut off
        by another one, by the switch to receiving or by the end of batch is in neither. */
    method Exchange(files: seq<Source>) returns (ok: bool, sent: seq<string>, received: seq<string>)
      requires Valid() && output == [] && early == [] && seen == []
      modifies this`input, this`inbound, this`output, this`early, this`seen, this`whole
      ensures Valid() && AckedNames(output) == Completed(EventsOf(seen, hasDir))
      ensures ok ==> received == AckedNames(output)
      ensures ok ==> |sent| == |files| && forall i :: 0 <= i < |files| ==> sent[i] == files[i].name
      ensures forall i :: 0 <= i < |sent| ==> Settled(seen, sent[i])
      ensures ok ==> exists k :: 0 <= k < |seen| && AllSending(seen[..k]) && seen[k] == Hangup && NoneSending(seen[k..])
      ensures ok ==> inbound.xfer == None
      ensures ok ==> Ends(Outgoing(output), [Command(5, "")])
    {
      hide AckedNames, Outgoing, Reacted, FramesOf, EventsOf, Decoded, DecodedAll, Completed, WaitVerdict, Ends, FileFrame,
        DataFrames, Concat, Blocks, Asked, Announcements, AnnouncedAt, Settles;
      sent, received := [], [];
      NothingAcked();
      for i := 0 to |files|
        invariant Valid() && Reported([]) && AllSending(seen)
        invariant |sent| == i && forall j :: 0 <= j < i ==> sent[j] == files[j].name
        invariant forall j :: 0 <= j < |sent| ==> Settled(seen, sent[j])
      {
        ghost var before := seen;
        ghost var from, parts, offsets;
        ok, from, parts, offsets := SendFile(files[i], []);
        assert seen == before + seen[|before|..];
        SettledStays(before, seen, sent);
        if !ok {
          SessionAcknowledgesCompleted(startFiles, EventsOf(seen, hasDir));
          return;
        }
        assert Settled(seen, files[i].name);
        sent := sent + [files[i].name];
      }
      Send(Command(M_EOB, ""));
      ghost var k := |seen|;
      ghost var front := seen;
      ok, received := ReceiveUntilEOB();
      assert seen[..k] == front;
      SettledStays(front, seen, sent);
      SessionAcknowledgesCompleted(startFiles, EventsOf(seen, hasDir));
      if !ok {
        return;
      }
      assert [] + early == early;
      received := early + received;
      ghost var written := Outgoing(output);
      Send(Command(M_EOB, ""));
      LastFrame(written, Command(5, ""));
    }

    /** The acknowledgements up to a point at which no file is open, and those after it. */
    ghost method AckedInParts(first: seq<Seen>)
      requires Faithful() && first <= seen
      requires Reacted(Log(Inbound(None, startFiles), []), EventsOf(first, hasDir)).inbound.xfer.None?
      ensures AckedNames(output) == Completed(EventsOf(first, hasDir)) + Completed(EventsOf(seen[|first|..], hasDir))
    {
      hide AckedNames, Reacted, EventsOf, Completed;
      assert seen == first + seen[|first|..];
      SeenAppend(first, seen[|first|..], hasDir);
      LaterAcknowledgements(startFiles, EventsOf(first, hasDir), EventsOf(seen[|first|..], hasDir));
    }

    /** The transfer part of `binkpHandleIncoming`: receive first, then send what is queued. The first k frames
        and drops belong to the receiving part. What is reported is what they complete; what the frames read
        while sending complete is acknowledged too, but reported only when it is nothing. */
    method Answer(files: seq<Source>) returns (ok: bool, sent: seq<string>, received: seq<string>, ghost k: nat)
      requires Valid() && output == [] && early == [] && seen == []
      modifies this`input, this`inbound, this`output, this`early, this`seen, this`whole
      ensures Valid() && 0 < k <= |seen| && seen[0] == Hangup && NoneSending(seen[..k]) && AllSending(seen[k..])
      ensures received == Completed(EventsOf(seen[..k], hasDir)) && early == Completed(EventsOf(seen[k..], hasDir))
      ensures AckedNames(output) == Completed(EventsOf(seen, hasDir)) == received + early
      ensures received == AckedNames(output) <==> Completed(EventsOf(seen[k..], hasDir)) == []
      ensures ok ==> |sent| <= |files| && forall i :: 0 <= i < |sent| ==> sent[i] == files[i].name
      ensures forall i :: 0 <= i < |sent| ==> Settled(seen, sent[i])
    {
      hide AckedNames, Outgoing, Reacted, FramesOf, EventsOf, Decoded, DecodedAll, Completed, WaitVerdict, Ends, FileFrame,
        DataFrames, Concat, Blocks, Asked, Announcements, AnnouncedAt, Settles;
      sent := [];
      NothingAcked();
      ok, received := ReceiveUntilEOB();
      k := |seen|;
      ghost var first := seen;
      assert [] + received == received && received + [] == received && seen[..k] == first && first[0] == Hangup;
      SessionAcknowledgesCompleted(startFiles, EventsOf(seen, hasDir));
      assert received == Completed(EventsOf(first, hasDir));
      if !ok {
        AckedInParts(first);
        SameTail(received, early, Completed(EventsOf(seen[k..], hasDir)));
        return;
      }
      var going, i := true, 0;
      while going && i < |files|
        invariant Valid() && Reported(received) && |sent| <= i <= |files|
        invariant first <= seen && AllSending(seen[k..])
        invariant going ==> |sent| == i
        invariant forall j :: 0 <= j < |sent| ==> sent[j] == files[j].name && Settled(seen, sent[j])
        decreases |files| - i
      {
        ghost var before := seen;
        ghost var from, parts, offsets;
        going, from, parts, offsets := SendFile(files[i], received);
        assert seen[k..] == before[k..] + seen[|before|..];
        SettledStays(before, seen, sent);
        if going {
          assert Settled(seen, files[i].name);
          sent := sent + [files[i].name];
        }
        i := i + 1;
      }
      Send(Command(M_EOB, ""));
      SessionAcknowledgesCompleted(startFiles, EventsOf(seen, hasDir));
      AckedInParts(first);
      assert seen[..k] == first;
      SameTail(received, early, Completed(EventsOf(seen[k..], hasDir)));
    }
  }

  /** A peer that has no file of its own at first, and sends one while it gets ours. */
  function LateFrames(): seq<Frame> {
    [Command(M_EOB, ""), Command(M_FILE, FileText(FileArg("a", 1, 0, 0))), Data("x"), Command(M_GOT, GotText("b", 1, 0))]
  }

  function LateSeen(): seq<Seen> {
    var fs := LateFrames();
    [Hangup, WhileReceiving(fs[0]), WhileSending(fs[1]), WhileSending(fs[2]), WhileSending(fs[3])]
  }

  lemma NothingSeen(hasDir: bool)
    ensures EventsOf([], hasDir) == [] && FramesOf([]) == []
  {
  }

  /** What the receiving part sees of them, and what the sending part sees. */
  lemma LateEvents(g: Frame, f: Frame, d: Frame, m: Frame)
    requires EndsBatch(g) && f.Command? && f.cmd == M_FILE && d.Data? && IsGot(m)
    ensures EventsOf([Hangup, WhileReceiving(g)], true) == [Drop, Drop]
    ensures EventsOf([WhileSending(f), WhileSending(d), WhileSending(m)], true) == [File(f.arg), Chunk(d.payload)]
    ensures FramesOf([Hangup, WhileReceiving(g), WhileSending(f), WhileSending(d), WhileSending(m)]) == [g, f, d, m]
  {
    hide EventsOf, FramesOf;
    NothingSeen(true);
    var r1, r2 := [Hangup], [Hangup, WhileReceiving(g)];
    var s1, s2 := [WhileSending(f)], [WhileSending(f), WhileSending(d)];
    var s3 := s2 + [WhileSending(m)];
    SeenSnoc([], Hangup, true);
    SeenSnoc(r1, WhileReceiving(g), true);
    SeenSnoc([], WhileSending(f), true);
    SeenSnoc(s1, WhileSending(d), true);
    SeenSnoc(s2, WhileSending(m), true);
    assert [] + r1 == r1 && r1 + [WhileReceiving(g)] == r2 && [] + s1 == s1 && s1 + [WhileSending(d)] == s2;
    assert s3 == [WhileSending(f), WhileSending(d), WhileSending(m)];
    SeenSnoc(r2, WhileSending(f), true);
    SeenSnoc(r2 + s1, WhileSending(d), true);
    SeenSnoc(r2 + s2, WhileSending(m), true);
    assert r2 + s1 + [WhileSending(d)] == r2 + s2;
    assert r2 + s2 + [WhileSending(m)] == [Hangup, WhileReceiving(g), WhileSending(f), WhileSending(d), WhileSending(m)];
  }

  lemma OneChunkCompletes(arg: string, data: string)
    requires Announced(arg).Some? && Announced(arg).value.received == 0 && 0 < Announced(arg).value.size == |data|
    ensures Completed([File(arg), Chunk(data)]) == [Announced(arg).value.name] && Completed([Drop, Drop]) == []
  {
    hide Announced;
    assert [File(arg), Chunk(data)][1..] == [Chunk(data)] && [Chunk(data)][1..] == [];
    assert LeadingBytes([Chunk(data)]) == |data|;
    assert Completed([Chunk(data)]) == [];
    assert [Drop, Drop][1..] == [Drop] && [Drop][1..] == [];
    assert Completed([Drop]) == [];
  }

  /** The peer's octets decode to these frames, the wait for the acknowledgement of "b" reads all of them, and
      the file "a" that came in meanwhile is acknowledged and not reported. */
  lemma LateFileIsNotReported()
    ensures DecodedAll(EncodedAll(LateFrames())) == LateFrames() == FramesOf(LateSeen())
    ensures NoneSending(LateSeen()[..2]) && WaitEnded(LateSeen()[2..], Source("b", 0, "y"), true, Delivered)
    ensures Completed(EventsOf(LateSeen()[..2], true)) == [] && Completed(EventsOf(LateSeen()[2..], true)) == ["a"]
  {
    hide EventsOf, FramesOf, FileText, GotText, ParseFileArg, GotName, Encodable, DecodedAll, EncodedAll, Completed, LeadingBytes;
    var fs := LateFrames();
    LateEvents(fs[0], fs[1], fs[2], fs[3]);
    assert LateSeen()[..2] == [Hangup, WhileReceiving(fs[0])];
    assert LateSeen()[2..] == [WhileSending(fs[1]), WhileSending(fs[2]), WhileSending(fs[3])];
    LateAreEncodable();
    StreamRoundTrip(fs);
    FileArgRoundTrip(FileArg("a", 1, 0, 0));
    GotNameRoundTrip("b", 1, 0);
    OneChunkCompletes(fs[1].arg, "x");
  }

  lemma LateAreEncodable()
    ensures forall i :: 0 <= i < |LateFrames()| ==> Encodable(LateFrames()[i])
  {
    assert Decimal(1) == "1" && Decimal(0) == "0";
  }

  lemma SameTail(a: seq<string>, b: seq<string>, c: seq<string>)
    requires a + b == a + c
    ensures b == c && (a == a + b <==> b == [])
  {
    assert (a + b)[|a|..] == b && (a + c)[|a|..] == c;
  }

  lemma LastFrame(fs: seq<Frame>, f: Frame)
    ensures Ends(fs + [f], [f])
  {
    assert (fs + [f])[|fs|..] == [f];
  }

  lemma SettledStays(before: seq<Seen>, after: seq<Seen>, names: seq<string>)
    requires before <= after && forall j :: 0 <= j < |names| ==> Settled(before, names[j])
    ensures forall j :: 0 <= j < |names| ==> Settled(after, names[j])
  {
    hide Settles;
    forall j | 0 <= j < |names| ensures Settled(after, names[j]) {
      var i :| 0 <= i < |before| && before[i].WhileSending? && Settles(before[i].frame, names[j]);
      assert after[i] == before[i];
    }
  }

  lemma GotDoesNotEndPoll(f: Frame, src: Source, hasDir: bool)
    ensures ControlVerdict(f, src, hasDir) != Delivered
    ensures IsGot(f) ==> ControlVerdict(f, src, hasDir) == Continue
  {
  }

  lemma NothingAcked()
    ensures AckedNames([]) == []
  {
  }

  lemma ConcatNothing()
    ensures Concat([]) == ""
  {
  }
}