/** The receiving half of a BinkP connection: `beginInboundFILE`, `writeInboundDATA` and
    `abortInboundXfer`, as functions of the half-received file and of the files on disk. */
module BinkpReceiver {
  import opened Text
  import opened BinkpFrames
  import Octets

  /** The file being received. The position in the file and the count of received bytes both start
      at the announced offset and move together, so one number stands for both. */
  datatype Xfer = Xfer(name: string, size: nat, mtime: int, received: nat)

  datatype Inbound = Inbound(xfer: Option<Xfer>, files: map<string, string>)

  /** The content of a file after a write at a position; a gap is filled with NUL. */
  function WriteAt(file: string, pos: nat, data: string): string {
    var head := if pos <= |file| then file[..pos] else file + Octets.Zeros(pos - |file|);
    var tail := if pos + |data| < |file| then file[pos + |data|..] else "";
    head + data + tail
  }

  function Content(s: Inbound, name: string): string {
    if name in s.files then s.files[name] else ""
  }

  /** `abortInboundXfer` */
  function Aborted(s: Inbound): Inbound {
    s.(xfer := None)
  }

  /** The transfer an M_FILE argument announces, when it is valid. */
  function Announced(arg: string): Option<Xfer> {
    match ParseFileArg(arg)
    case None => None
    case Some(a) =>
      if a.name == "" || a.size <= 0 then None
      else Some(Xfer(a.name, a.size, a.mtime, if a.offset > 0 then a.offset else 0))
  }

  /** `beginInboundFILE`: an offset keeps the file as it is, otherwise it is created empty. */
  function Begun(s: Inbound, arg: string): Option<Inbound> {
    match Announced(arg)
    case None => None
    case Some(x) => Some(Inbound(Some(x), s.files[x.name := if x.received > 0 then Content(s, x.name) else ""]))
  }

  /** `writeInboundDATA`: the new state and, when the file is complete, the transfer that is acknowledged. */
  function Written(s: Inbound, data: string): (Inbound, Option<Xfer>) {
    if s.xfer.None? || data == "" then (s, None)
    else
      var x := s.xfer.value;
      var files := s.files[x.name := WriteAt(Content(s, x.name), x.received, data)];
      var x' := x.(received := x.received + |data|);
      if x'.received < x.size then (Inbound(Some(x'), files), None)
      else (Inbound(None, files), Some(x'))
  }

  // ---------------------------------------------------------------- what is acknowledged

  /** What can happen to the receiving half: M_FILE, a data frame, or a drop (the switch to receiving, M_EOB). */
  datatype Event = File(arg: string) | Chunk(data: string) | Drop

  datatype Log = Log(inbound: Inbound, acked: seq<string>)

  function React(l: Log, e: Event): Log {
    match e
    case File(arg) =>
      (match Begun(l.inbound, arg)
       case Some(s) => l.(inbound := s)
       case None => l.(inbound := Aborted(l.inbound)))
    case Chunk(data) =>
      var (s, finished) := Written(l.inbound, data);
      Log(s, if finished.Some? then l.acked + [finished.value.name] else l.acked)
    case Drop => l.(inbound := Aborted(l.inbound))
  }

  function Reacted(l: Log, es: seq<Event>): Log
    decreases |es|
  {
    if es == [] then l else Reacted(React(l, es[0]), es[1..])
  }

  lemma {:induction false} ReactedSnoc(l: Log, es: seq<Event>, e: Event)
    ensures Reacted(l, es + [e]) == React(Reacted(l, es), e)
    decreases |es|
  {
    hide React;
    if es == [] {
      assert [e][1..] == [];
      assert es + [e] == [e];
    } else {
      assert (es + [e])[1..] == es[1..] + [e];
      ReactedSnoc(React(l, es[0]), es[1..], e);
    }
  }

  lemma {:induction false} ReactedAppend(l: Log, a: seq<Event>, b: seq<Event>)
    ensures Reacted(l, a + b) == Reacted(Reacted(l, a), b)
    decreases |a|
  {
    hide React;
    if a == [] {
      assert a + b == b;
    } else {
      assert (a + b)[1..] == a[1..] + b;
      ReactedAppend(React(l, a[0]), a[1..], b);
    }
  }

  /** The bytes of the data frames before the next M_FILE or drop. */
  function LeadingBytes(es: seq<Event>): nat {
    if es == [] || !es[0].Chunk? then 0 else |es[0].data| + LeadingBytes(es[1..])
  }

  /** A transfer that gets this many more bytes before it is cut off reaches its size. */
  predicate Reaches(x: Option<Xfer>, bytes: nat) {
    x.Some? && bytes > 0 && x.value.received + bytes >= x.value.size
  }

  /** The names of the announced files whose data frames, up to the next announcement or drop, complete them. */
  function Completed(es: seq<Event>): seq<string> {
    if es == [] then []
    else (if es[0].File? && Reaches(Announced(es[0].arg), LeadingBytes(es[1..])) then [Announced(es[0].arg).value.name] else [])
         + Completed(es[1..])
  }

  /** M_GOT is sent for exactly the files that were completed before they were cut off, in order. */
  lemma {:induction false} AckedAreCompleted(l: Log, es: seq<Event>)
    ensures Reacted(l, es).acked
         == l.acked + (if Reaches(l.inbound.xfer, LeadingBytes(es)) then [l.inbound.xfer.value.name] else []) + Completed(es)
    decreases |es|
  {
    hide Announced, WriteAt;
    if es != [] {
      var l' := React(l, es[0]);
      AckedAreCompleted(l', es[1..]);
      match es[0]
      case File(arg) =>
        assert l'.inbound.xfer == Announced(arg);
      case Chunk(data) =>
      case Drop =>
    }
  }

  /** The same from the start of a session, when no file is open. */
  lemma SessionAcknowledgesCompleted(files: map<string, string>, es: seq<Event>)
    ensures Reacted(Log(Inbound(None, files), []), es).acked == Completed(es)
  {
    hide Reacted, Completed, LeadingBytes;
    AckedAreCompleted(Log(Inbound(None, files), []), es);
    assert [] + [] + Completed(es) == Completed(es);
  }

  /** From a point at which no file is open, what is acknowledged is what the later events complete. */
  lemma LaterAcknowledgements(files: map<string, string>, before: seq<Event>, after: seq<Event>)
    requires Reacted(Log(Inbound(None, files), []), before).inbound.xfer.None?
    ensures Reacted(Log(Inbound(None, files), []), before + after).acked == Completed(before) + Completed(after)
  {
    hide Reacted, Completed, LeadingBytes;
    var start := Log(Inbound(None, files), []);
    ReactedAppend(start, before, after);
    SessionAcknowledgesCompleted(files, before);
    AckedAreCompleted(Reacted(start, before), after);
    assert Completed(before) + [] + Completed(after) == Completed(before) + Completed(after);
  }

  // ---------------------------------------------------------------- what the file holds

  function Chunks(parts: seq<string>): (es: seq<Event>)
    ensures |es| == |parts| && forall i :: 0 <= i < |es| ==> es[i] == Chunk(parts[i])
  {
    seq(|parts|, i requires 0 <= i < |parts| => Chunk(parts[i]))
  }

  function Concat(parts: seq<string>): string {
    if parts == [] then "" else parts[0] + Concat(parts[1..])
  }

  /** Two writes, one after the other, are one write. */
  lemma WriteTwice(file: string, pos: nat, a: string, b: string)
    requires pos <= |file|
    ensures WriteAt(WriteAt(file, pos, a), pos + |a|, b) == WriteAt(file, pos, a + b)
    ensures |WriteAt(file, pos, a)| >= pos + |a|
  {
    var one := WriteAt(file, pos, a);
    assert one[..pos + |a|] == file[..pos] + a;
    assert file[..pos] + a + b == file[..pos] + (a + b);
    if pos + |a| + |b| < |file| {
      assert one[pos + |a| + |b|..] == file[pos + |a| + |b|..];
    }
  }

  lemma WriteNothing(file: string, pos: nat)
    requires pos <= |file|
    ensures WriteAt(file, pos, "") == file
  {
    assert file[..pos] + "" + file[pos..] == file;
    assert pos == |file| ==> file[..pos] == file;
  }

  /** An open transfer that gets data in any split, no more than it still lacks. */
  lemma {:induction false} ChunksWrite(l: Log, parts: seq<string>)
    requires l.inbound.xfer.Some?
    requires var x := l.inbound.xfer.value;
      x.name in l.inbound.files && x.received < x.size && x.received <= |l.inbound.files[x.name]|
      && x.received + |Concat(parts)| <= x.size
    ensures var x := l.inbound.xfer.value;
      var file := WriteAt(l.inbound.files[x.name], x.received, Concat(parts));
      var r := Reacted(l, Chunks(parts));
      && r.inbound.files == l.inbound.files[x.name := file]
      && (x.received + |Concat(parts)| < x.size ==>
            r.acked == l.acked && r.inbound.xfer == Some(x.(received := x.received + |Concat(parts)|)))
      && (x.received + |Concat(parts)| == x.size ==> r.acked == l.acked + [x.name] && r.inbound.xfer == None)
    decreases |parts|
  {
    hide WriteAt;
    var x := l.inbound.xfer.value;
    var file := l.inbound.files[x.name];
    if parts == [] {
      WriteNothing(file, x.received);
      assert l.inbound.files == l.inbound.files[x.name := file];
    } else {
      var l' := React(l, Chunk(parts[0]));
      assert Chunks(parts)[1..] == Chunks(parts[1..]);
      var rest := Concat(parts[1..]);
      WriteTwice(file, x.received, parts[0], rest);
      if parts[0] == "" {
        assert "" + rest == rest;
        ChunksWrite(l, parts[1..]);
      } else if x.received + |parts[0]| < x.size {
        ChunksWrite(l', parts[1..]);
      } else {
        assert rest == "";
        assert parts[0] + "" == parts[0];
        NothingWritten(l', parts[1..]);
      }
    }
  }

  lemma {:induction false} NothingWritten(l: Log, parts: seq<string>)
    requires l.inbound.xfer.None? || Concat(parts) == ""
    ensures Reacted(l, Chunks(parts)) == l
    decreases |parts|
  {
    hide WriteAt;
    if parts != [] {
      assert Chunks(parts)[1..] == Chunks(parts[1..]);
      NothingWritten(l, parts[1..]);
    }
  }

  /** The announcement and data frames of one file, sent from an offset. */
  function Transfer(name: string, size: int, mtime: int, offset: nat, parts: seq<string>): seq<Event> {
    [File(FileText(FileArg(name, size, mtime, offset)))] + Chunks(parts)
  }

  /** A transfer begun at an offset, over a file that already holds the source up to there, for any split of
      the remaining bytes: the file holds the source in positions 0 to size, followed by whatever an old,
      longer file held there. It is acknowledged exactly when something was left to send. */
  lemma TransferDelivers(l: Log, name: string, src: string, mtime: int, offset: nat, parts: seq<string>)
    requires PlainName(name) && InInt64(mtime) && 0 < |src| <= MAX_INT64
    requires offset <= |src| && Concat(parts) == src[offset..]
    requires offset > 0 ==> offset <= |Content(l.inbound, name)| && Content(l.inbound, name)[..offset] == src[..offset]
    ensures var before := Content(l.inbound, name);
      var r := Reacted(l, Transfer(name, |src|, mtime, offset, parts));
      && name in r.inbound.files
      && r.inbound.files[name] == (if offset == |src| then before else if offset == 0 || |before| <= |src| then src else src + before[|src|..])
      && r.acked == (if offset < |src| then l.acked + [name] else l.acked)
      && (forall n :: n in l.inbound.files && n != name ==> n in r.inbound.files && r.inbound.files[n] == l.inbound.files[n])
  {
    hide WriteAt, FileText, ParseFileArg;
    var arg := FileArg(name, |src|, mtime, offset);
    FileArgRoundTrip(arg);
    var es := Transfer(name, |src|, mtime, offset, parts);
    var l' := React(l, es[0]);
    assert es[1..] == Chunks(parts);
    var file := l'.inbound.files[name];
    if offset == |src| {
      assert src[offset..] == "";
      NothingWritten(l', parts);
    } else {
      ChunksWrite(l', parts);
      WholeFile(file, offset, src);
    }
  }

  lemma WholeFile(file: string, offset: nat, src: string)
    requires offset <= |file| && offset <= |src| && file[..offset] == src[..offset]
    ensures WriteAt(file, offset, src[offset..]) == if |file| <= |src| then src else src + file[|src|..]
  {
    assert src[..offset] + src[offset..] == src;
    assert src + "" == src;
  }

  /** So the file ends up equal to the source exactly when it was not longer before, or was sent from the start. */
  lemma ResumeRestoresSource(l: Log, name: string, src: string, mtime: int, offset: nat, parts: seq<string>)
    requires PlainName(name) && InInt64(mtime) && 0 < |src| <= MAX_INT64
    requires offset < |src| && Concat(parts) == src[offset..]
    requires offset > 0 ==> offset <= |Content(l.inbound, name)| && Content(l.inbound, name)[..offset] == src[..offset]
    ensures Content(Reacted(l, Transfer(name, |src|, mtime, offset, parts)).inbound, name) == src
       <==> offset == 0 || |Content(l.inbound, name)| <= |src|
  {
    hide Reacted, Transfer, Concat;
    TransferDelivers(l, name, src, mtime, offset, parts);
  }

  /** A resume over an older, longer file: the source is "abx", the file held "abcde" and ends as "abxde". */
  lemma OldTailStays()
    ensures var l := Log(Inbound(None, map["f" := "abcde"]), []);
      var r := Reacted(l, Transfer("f", 3, 0, 2, ["x"]));
      Content(r.inbound, "f") == "abxde" && r.acked == ["f"]
  {
    hide Reacted, Transfer;
    var l := Log(Inbound(None, map["f" := "abcde"]), []);
    ConcatOne("x");
    assert "abx"[2..] == "x" && "abcde"[..2] == "abx"[..2];
    TransferDelivers(l, "f", "abx", 0, 2, ["x"]);
    assert "abx" + "abcde"[3..] == "abxde";
    assert l.acked + ["f"] == ["f"];
  }

  /** A resume at the end of a file that is complete: nothing is sent, and nothing acknowledged. */
  lemma CompleteFileIsNotAcknowledged()
    ensures var l := Log(Inbound(None, map["f" := "ab"]), []);
      var r := Reacted(l, Transfer("f", 2, 0, 2, []));
      Content(r.inbound, "f") == "ab" && r.acked == []
  {
    hide Reacted, Transfer;
    var l := Log(Inbound(None, map["f" := "ab"]), []);
    assert "ab"[2..] == "" == Concat([]) && "ab"[..2] == "ab";
    TransferDelivers(l, "f", "ab", 0, 2, []);
  }

  lemma ConcatOne(p: string)
    ensures Concat([p]) == p
  {
    assert [p][1..] == [] && p + "" == p;
  }

  /** What an M_FILE with this text opens: the file from its start, empty, or from the offset, as it is. */
  lemma AnnouncementOpens(s: Inbound, name: string, size: int, mtime: int, offset: int)
    requires PlainName(name) && InInt64(size) && InInt64(mtime) && InInt64(offset)
    ensures var text := name + " " + DecimalInt(size) + " " + DecimalInt(mtime) + " " + DecimalInt(offset);
      Begun(s, text) ==
        if size <= 0 then None
        else if offset <= 0 then Some(Inbound(Some(Xfer(name, size, mtime, 0)), s.files[name := ""]))
        else Some(Inbound(Some(Xfer(name, size, mtime, offset)), s.files[name := Content(s, name)]))
  {
    hide ParseFileArg, DecimalInt;
    ArgumentTexts(name, size, mtime, offset);
  }
}
